/**
  JSON values as the client sends them (`json=` payloads) and receives them
  (`response.json()`), and Python's subscript `value[key]` on them.
  Numbers are kept as their literal text: the client never computes with a
  number it receives, it only passes it on.
*/
module Json {
  import opened Wrappers

  datatype Json =
    | JNull
    | JBool(b: bool)
    | JNum(literal: string)
    | JStr(s: string)
    | JArr(items: seq<Json>)
    | JObj(fields: seq<(string, Json)>)

  /** What `value[key]` raises: Python's KeyError on an object without the
      key. Python raises TypeError, which does not name the key, when the
      value is not an object; the model reports that as `MissingKey` too. */
  datatype Fault = MissingKey(key: string)

  /** The value of the LAST member named `key`, as `json.loads` keeps the
      last of duplicate keys; `None` when there is no such member. */
  function Field(fields: seq<(string, Json)>, key: string): (r: Option<Json>)
    ensures r.None? <==> forall i :: 0 <= i < |fields| ==> fields[i].0 != key
  {
    if |fields| == 0 then None
    else if fields[|fields| - 1].0 == key then Some(fields[|fields| - 1].1)
    else
      var r := Field(fields[..|fields| - 1], key);
      assert forall i :: 0 <= i < |fields| - 1 ==> fields[..|fields| - 1][i] == fields[i];
      r
  }

  /** A member that no later member shadows is the one found. */
  lemma {:induction false} FieldLast(fields: seq<(string, Json)>, i: nat)
    requires i < |fields|
    requires forall j :: i < j < |fields| ==> fields[j].0 != fields[i].0
    ensures Field(fields, fields[i].0) == Some(fields[i].1)
  {
    if i < |fields| - 1 {
      FieldLast(fields[..|fields| - 1], i);
    }
  }

  /** A value found belongs to a member with the key that no later member
      shadows. */
  lemma {:induction false} FieldIsLast(fields: seq<(string, Json)>, key: string)
    requires Field(fields, key).Some?
    ensures exists i :: 0 <= i < |fields| && fields[i] == (key, Field(fields, key).value)
                        && forall j :: i < j < |fields| ==> fields[j].0 != key
  {
    var n := |fields| - 1;
    if fields[n].0 != key {
      var init := fields[..n];
      FieldIsLast(init, key);
      var i :| 0 <= i < |init| && init[i] == (key, Field(init, key).value)
               && forall j :: i < j < |init| ==> init[j].0 != key;
      assert fields[i] == init[i];
    }
  }

  /** Python's `value[key]`: the member's value, or `None` where Python raises. */
  function Get(v: Json, key: string): Option<Json> {
    match v
    case JObj(fields) => Field(fields, key)
    case _ => None
  }

  /** `value[key]` finds something exactly when `value` is an object with a
      member named `key`, and then it is the value of the last such member. */
  lemma GetSemantics(v: Json, key: string)
    ensures Get(v, key).Some? <==> v.JObj? && exists i :: 0 <= i < |v.fields| && v.fields[i].0 == key
    ensures Get(v, key).Some? ==>
              exists i :: 0 <= i < |v.fields| && v.fields[i] == (key, Get(v, key).value)
                          && forall j :: i < j < |v.fields| ==> v.fields[j].0 != key
  {
    if Get(v, key).Some? {
      FieldIsLast(v.fields, key);
    }
  }

  /** A lookup in a concatenation: the later part wins. */
  lemma {:induction false} FieldAppend(a: seq<(string, Json)>, b: seq<(string, Json)>, key: string)
    ensures Field(a + b, key) == if Field(b, key).Some? then Field(b, key) else Field(a, key)
  {
    if |b| == 0 {
      assert a + b == a;
    } else {
      assert (a + b)[..|a + b| - 1] == a + b[..|b| - 1];
      if b[|b| - 1].0 != key {
        FieldAppend(a, b[..|b| - 1], key);
      }
    }
  }

  /** Members after the part searched that lack the key change nothing. */
  lemma FieldSkip(a: seq<(string, Json)>, b: seq<(string, Json)>, k: string)
    requires forall j :: 0 <= j < |b| ==> b[j].0 != k
    ensures Field(a + b, k) == Field(a, k)
  {
    FieldAppend(a, b, k);
  }
}
