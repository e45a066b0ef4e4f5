/**
  The client's session cookies: a Python dict from cookie name to value.
  A dict keeps its keys unique and remembers the order in which they were
  first inserted, so the jar is a sequence of name/value pairs with distinct
  names. `dict.update` and the `Cookie` header built from the jar are
  modelled on that sequence.
*/
module CookieJar {
  import opened Wrappers

  type Cookie = (string, string)

  predicate UniqueKeys(s: seq<Cookie>) {
    forall a, b :: 0 <= a < b < |s| ==> s[a].0 != s[b].0
  }

  /** A cookie dict in insertion order. */
  type Jar = s: seq<Cookie> | UniqueKeys(s)

  function Keys(j: seq<Cookie>): (ks: seq<string>)
    ensures |ks| == |j| && forall i :: 0 <= i < |j| ==> ks[i] == j[i].0
  {
    seq(|j|, i requires 0 <= i < |j| => j[i].0)
  }

  /** Position of `key` in the jar, or -1. */
  function IndexOf(j: seq<Cookie>, key: string): (i: int)
    ensures -1 <= i < |j|
    ensures i >= 0 ==> j[i].0 == key
    ensures i < 0 ==> forall a :: 0 <= a < |j| ==> j[a].0 != key
  {
    if |j| == 0 then -1
    else if j[0].0 == key then 0
    else
      var i := IndexOf(j[1..], key);
      if i < 0 then -1 else i + 1
  }

  /** Python's `jar.get(key)`. */
  function Lookup(j: Jar, key: string): Option<string> {
    var i := IndexOf(j, key);
    if i < 0 then None else Some(j[i].1)
  }

  /** In a dict, the value stored under a present key is the one found. */
  lemma LookupAt(j: Jar, a: nat)
    requires a < |j|
    ensures Lookup(j, j[a].0) == Some(j[a].1)
  {
  }

  /** `jar[key] = value`: an existing key keeps its place and takes the new
      value, a new key goes at the end. */
  function Set(j: Jar, key: string, value: string): (r: Jar)
    ensures Keys(r) == if key in Keys(j) then Keys(j) else Keys(j) + [key]
    ensures forall k :: Lookup(r, k) == if k == key then Some(value) else Lookup(j, k)
  {
    var i := IndexOf(j, key);
    if i >= 0 then
      var r := j[i := (key, value)];
      assert Keys(r) == Keys(j);
      LookupAt(r, i);
      r
    else
      var r := j + [(key, value)];
      assert forall k :: k != key ==> IndexOf(r, k) == IndexOf(j, k) by {
        forall k | k != key ensures IndexOf(r, k) == IndexOf(j, k) {
          var n := IndexOf(j, k);
          if n >= 0 { LookupAt(r, n); }
        }
      }
      LookupAt(r, |j|);
      r
  }

  /** `jar.update(response)`: the response's entries are set one by one in
      the response's order. */
  function Merge(j: Jar, response: Jar): (m: Jar)
    ensures |m| >= |j| && forall i :: 0 <= i < |j| ==> m[i].0 == j[i].0
    decreases |response|
  {
    if |response| == 0 then j
    else Merge(Set(j, response[0].0, response[0].1), response[1..])
  }

  /** A lookup in a non-empty jar: the first entry, or a lookup in the rest,
      which never holds the first entry's name. */
  lemma LookupFirst(j: Jar, k: string)
    requires |j| > 0
    ensures Lookup(j, k) == if k == j[0].0 then Some(j[0].1) else Lookup(j[1..], k)
    ensures k == j[0].0 ==> Lookup(j[1..], k).None?
  {
  }

  /** After a merge, a key the response sets has the response's value, any
      other key keeps its old value, and no key is lost or moved. */
  lemma {:induction false} MergeSemantics(j: Jar, response: Jar)
    ensures var m := Merge(j, response);
      forall k :: Lookup(m, k) == if Lookup(response, k).Some? then Lookup(response, k) else Lookup(j, k)
    decreases |response|
  {
    if |response| > 0 {
      var (k0, v0) := response[0];
      var rest: Jar := response[1..];
      var j' := Set(j, k0, v0);
      MergeSemantics(j', rest);
      var m := Merge(j, response);
      assert m == Merge(j', rest);
      forall k ensures Lookup(m, k) == if Lookup(response, k).Some? then Lookup(response, k) else Lookup(j, k) {
        LookupFirst(response, k);
      }
    }
  }

  /** The response's names that `known` lacks, in the response's order. */
  function NewNames(known: seq<string>, response: seq<Cookie>): (names: seq<string>)
    ensures forall n :: n in names <==> n !in known && exists i :: 0 <= i < |response| && response[i].0 == n
  {
    if |response| == 0 then []
    else
      var rest := NewNames(known, response[1..]);
      assert forall i :: 0 <= i < |response| - 1 ==> response[1..][i] == response[i + 1];
      (if response[0].0 in known then [] else [response[0].0]) + rest
  }

  /** A name the rest of the response never sets makes no difference to
      which of its names are new. */
  lemma {:induction false} NewNamesSkip(known: seq<string>, k: string, response: seq<Cookie>)
    requires forall i :: 0 <= i < |response| ==> response[i].0 != k
    ensures NewNames(known + [k], response) == NewNames(known, response)
    decreases |response|
  {
    if |response| > 0 {
      NewNamesSkip(known, k, response[1..]);
    }
  }

  /** One step of `dict.update` on the names: taking the response's first
      name, if new, onto the jar's names leaves the same names to append. */
  lemma NewNamesStep(ks: seq<string>, response: Jar)
    requires |response| > 0
    ensures var k0 := response[0].0;
      var ks' := if k0 in ks then ks else ks + [k0];
      ks' + NewNames(ks', response[1..]) == ks + NewNames(ks, response)
  {
    var k0, rest := response[0].0, response[1..];
    if k0 !in ks {
      assert NewNames(ks, response) == [k0] + NewNames(ks, rest);
      forall i | 0 <= i < |rest| ensures rest[i].0 != k0 {
        assert rest[i] == response[i + 1];
      }
      NewNamesSkip(ks, k0, rest);
      assert ks + [k0] + NewNames(ks, rest) == ks + ([k0] + NewNames(ks, rest));
    }
  }

  /** `dict.update` keeps the old names in place and appends the names new
      to the jar in the order the response lists them. */
  lemma {:induction false} MergeOrder(j: Jar, response: Jar)
    ensures Keys(Merge(j, response)) == Keys(j) + NewNames(Keys(j), response)
    decreases |response|
  {
    if |response| > 0 {
      var rest: Jar := response[1..];
      var j' := Set(j, response[0].0, response[0].1);
      MergeOrder(j', rest);
      NewNamesStep(Keys(j), response);
    }
  }

  /** Every key of the old jar and every key of the response is in the merged jar,
      and nothing else. */
  lemma MergeKeys(j: Jar, response: Jar, k: string)
    ensures k in Keys(Merge(j, response)) <==> k in Keys(j) || k in Keys(response)
  {
    MergeSemantics(j, response);
    var m := Merge(j, response);
    KeyIffLookup(m, k);
    KeyIffLookup(j, k);
    KeyIffLookup(response, k);
  }

  lemma KeyIffLookup(j: Jar, k: string)
    ensures k in Keys(j) <==> Lookup(j, k).Some?
  {
    if k in Keys(j) {
      var a :| 0 <= a < |j| && Keys(j)[a] == k;
      LookupAt(j, a);
    }
  }

  // ---------------------------------------------------------------------------
  // The Cookie header: "; ".join(f"{key}={value}" for key, value in jar.items())

  function Entry(c: Cookie): string {
    c.0 + "=" + c.1
  }

  /** Python's `sep.join(parts)`. */
  function Join(parts: seq<string>, sep: string): string
    decreases |parts|
  {
    if |parts| == 0 then ""
    else if |parts| == 1 then parts[0]
    else parts[0] + sep + Join(parts[1..], sep)
  }

  function Header(j: Jar): (h: string)
    ensures h == "" <==> |j| == 0
  {
    var parts := seq(|j|, i requires 0 <= i < |j| => Entry(j[i]));
    if |j| == 0 then "" else
      assert Join(parts, "; ")[..|parts[0]|] == parts[0];
      Join(parts, "; ")
  }

  /** Cookie names carry no `=` or `;` and values no `;` (section 4.1.1 of
      RFC 6265), so a header can be split back into its cookies. */
  predicate Splittable(j: Jar) {
    forall i :: 0 <= i < |j| ==> ';' !in j[i].0 && '=' !in j[i].0 && ';' !in j[i].1
  }

  /** Splitting a string at every occurrence of `c`, as Python's `s.split(c)`. */
  function SplitOn(s: string, c: char): (parts: seq<string>)
    ensures |parts| >= 1
  {
    if |s| == 0 then [""]
    else
      var rest := SplitOn(s[1..], c);
      if s[0] == c then [""] + rest else [[s[0]] + rest[0]] + rest[1..]
  }

  /** Reading `name=value` at the first `=`. */
  function ParseEntry(s: string): Cookie {
    if '=' in s then
      var i := FirstEq(s);
      (s[..i], s[i + 1..])
    else (s, "")
  }

  function FirstEq(s: string): (i: nat)
    requires '=' in s
    ensures i < |s| && s[i] == '=' && '=' !in s[..i]
  {
    if s[0] == '=' then 0 else FirstEq(s[1..]) + 1
  }

  /** How a server reads a `Cookie` header: split at `;`, drop the one space
      that follows each `;`, split each piece at its first `=`. */
  function ParseHeader(h: string): seq<Cookie> {
    if h == "" then []
    else
      var segs := SplitOn(h, ';');
      [ParseEntry(segs[0])] + seq(|segs| - 1, i requires 0 <= i < |segs| - 1 => ParseEntry(Unspace(segs[i + 1])))
  }

  function Unspace(s: string): string {
    if |s| > 0 && s[0] == ' ' then s[1..] else s
  }

  lemma {:induction false} SplitPrefix(p: string, b: string, c: char)
    requires c !in p
    ensures SplitOn(p + b, c) == [p + SplitOn(b, c)[0]] + SplitOn(b, c)[1..]
  {
    if |p| > 0 {
      assert (p + b)[1..] == p[1..] + b;
      SplitPrefix(p[1..], b, c);
      assert [p[0]] + (p[1..] + SplitOn(b, c)[0]) == p + SplitOn(b, c)[0];
    } else {
      assert p + b == b;
      assert p + SplitOn(b, c)[0] == SplitOn(b, c)[0];
    }
  }

  lemma SplitAtSep(a: string, b: string, c: char)
    requires c !in a
    ensures SplitOn(a + [c] + b, c) == [a] + SplitOn(b, c)
  {
    SplitPrefix(a, [c] + b, c);
    assert a + [c] + b == a + ([c] + b);
    assert ([c] + b)[1..] == b;
    assert SplitOn([c] + b, c) == [""] + SplitOn(b, c);
    assert a + "" == a;
  }

  /** Splitting a `"; "`-join of `;`-free parts recovers the parts, each
      after the first with the space of its separator in front. */
  lemma {:induction false} SplitJoin(parts: seq<string>)
    requires |parts| >= 1
    requires forall i :: 0 <= i < |parts| ==> ';' !in parts[i]
    ensures SplitOn(Join(parts, "; "), ';')
         == [parts[0]] + seq(|parts| - 1, i requires 0 <= i < |parts| - 1 => " " + parts[i + 1])
  {
    if |parts| == 1 {
      SplitPrefix(parts[0], "", ';');
      assert parts[0] + "" == parts[0];
    } else {
      var rest := parts[1..];
      SplitJoin(rest);
      var tail := Join(rest, "; ");
      assert Join(parts, "; ") == parts[0] + [';'] + (" " + tail);
      SplitAtSep(parts[0], " " + tail, ';');
      SplitPrefix(" ", tail, ';');
    }
  }

  lemma {:induction false} ParseEntryOf(c: Cookie)
    requires '=' !in c.0
    ensures ParseEntry(Entry(c)) == c
  {
    var s := Entry(c);
    assert s[|c.0|] == '=';
    var i := FirstEq(s);
    assert i == |c.0|;
    assert s[..i] == c.0 && s[i + 1..] == c.1;
  }

  /** A segment after the first is one space and then `name=value`. */
  lemma ParseSpacedEntry(c: Cookie, seg: string)
    requires '=' !in c.0
    requires seg == " " + Entry(c)
    ensures ParseEntry(Unspace(seg)) == c
  {
    assert Unspace(seg) == Entry(c);
    ParseEntryOf(c);
  }

  /** The header a request carries gives back exactly the jar, in jar order. */
  lemma HeaderRoundTrip(j: Jar)
    requires Splittable(j)
    ensures ParseHeader(Header(j)) == j
  {
    if |j| > 0 {
      var parts := seq(|j|, i requires 0 <= i < |j| => Entry(j[i]));
      forall i | 0 <= i < |parts| ensures ';' !in parts[i] {
        assert parts[i] == j[i].0 + "=" + j[i].1;
      }
      SplitJoin(parts);
      var segs := SplitOn(Header(j), ';');
      var r := ParseHeader(Header(j));
      assert |r| == |j|;
      forall i | 0 <= i < |j| ensures r[i] == j[i] {
        if i == 0 {
          assert r[0] == ParseEntry(parts[0]);
          ParseEntryOf(j[0]);
        } else {
          assert r[i] == ParseEntry(Unspace(segs[i])) && segs[i] == " " + parts[i];
          ParseSpacedEntry(j[i], segs[i]);
        }
      }
    }
  }
}
