/**
  The order payloads the client posts and the decision `execute_buy` takes
  after validation. An order is a typed record; `Wire` is the JSON object
  the client posts for it, with the keys in the order the client writes them.
*/
module Orders {
  import opened Wrappers
  import opened Json

  /** The order-side codes the API uses: 1 buys, 2 sells. */
  const BuySide: Json := JNum("1")
  const SellSide: Json := JNum("2")

  /** The fields of an order that vary. `isCombinedOption`, `isOption`
      (both false), `orderSource` and `tradeNativeType` (both 0) are the same
      in every order and are added by `Wire`. A validation request carries no
      price and no idempotency id. */
  datatype Order = Order(
    allowExtHrsFill: Json,
    displayAmount: Json,
    entrustAmount: Json,
    entrustPrice: Option<Json>,
    fractions: Json,
    fractionsType: Json,
    idempotentId: Option<string>,
    orderSide: Json,
    orderTimeInForce: Json,
    symbol: Json,
    orderType: Json,
    usAccountId: Json)

  /** The keys the client writes before the price. */
  function Leading(o: Order): seq<(string, Json)> {
    [("allowExtHrsFill", o.allowExtHrsFill),
     ("displayAmount", o.displayAmount),
     ("entrustAmount", o.entrustAmount)]
  }

  /** The keys between the price and the idempotency id. */
  function Middle(o: Order): seq<(string, Json)> {
    [("fractions", o.fractions),
     ("fractionsType", o.fractionsType)]
  }

  /** The keys after the idempotency id. */
  function Trailing(o: Order): seq<(string, Json)> {
    [("isCombinedOption", JBool(false)),
     ("isOption", JBool(false)),
     ("orderSide", o.orderSide),
     ("orderSource", JNum("0")),
     ("orderTimeInForce", o.orderTimeInForce),
     ("symbol", o.symbol),
     ("tradeNativeType", JNum("0")),
     ("type", o.orderType),
     ("usAccountId", o.usAccountId)]
  }

  function Optional(key: string, v: Option<Json>): seq<(string, Json)> {
    if v.Some? then [(key, v.value)] else []
  }

  function IdJson(o: Order): Option<Json> {
    if o.idempotentId.Some? then Some(JStr(o.idempotentId.value)) else None
  }

  /** The JSON body posted for an order: the dict literal of the client,
      fourteen fixed keys, with `entrustPrice` and `idempotentId` added only
      in a commit. */
  function Wire(o: Order): (w: Json)
    ensures w.JObj?
    ensures |w.fields| == 14 + (if o.entrustPrice.Some? then 1 else 0) + (if o.idempotentId.Some? then 1 else 0)
  {
    JObj(Leading(o) + Optional("entrustPrice", o.entrustPrice) + Middle(o)
         + Optional("idempotentId", IdJson(o)) + Trailing(o))
  }

  /** How the server reads an order body back; `None` for a body that is not
      one the client could have sent. */
  function Unwire(w: Json): Option<Order> {
    var id := Get(w, "idempotentId");
    if && Get(w, "allowExtHrsFill").Some? && Get(w, "displayAmount").Some?
       && Get(w, "entrustAmount").Some? && Get(w, "fractions").Some?
       && Get(w, "fractionsType").Some? && Get(w, "orderSide").Some?
       && Get(w, "orderTimeInForce").Some? && Get(w, "symbol").Some?
       && Get(w, "type").Some? && Get(w, "usAccountId").Some?
       && Get(w, "isCombinedOption") == Some(JBool(false)) && Get(w, "isOption") == Some(JBool(false))
       && Get(w, "orderSource") == Some(JNum("0")) && Get(w, "tradeNativeType") == Some(JNum("0"))
       && (id.None? || id.value.JStr?)
    then
      Some(Order(
        Get(w, "allowExtHrsFill").value, Get(w, "displayAmount").value, Get(w, "entrustAmount").value,
        Get(w, "entrustPrice"), Get(w, "fractions").value, Get(w, "fractionsType").value,
        if id.Some? then Some(id.value.s) else None,
        Get(w, "orderSide").value, Get(w, "orderTimeInForce").value, Get(w, "symbol").value,
        Get(w, "type").value, Get(w, "usAccountId").value))
    else None
  }

  /** Each key of the posted body holds the order's field, and the four
      fixed flags hold their fixed values. */
  lemma WireLookup(o: Order)
    ensures var w := Wire(o);
      && Get(w, "allowExtHrsFill") == Some(o.allowExtHrsFill)
      && Get(w, "displayAmount") == Some(o.displayAmount)
      && Get(w, "entrustAmount") == Some(o.entrustAmount)
      && Get(w, "entrustPrice") == o.entrustPrice
      && Get(w, "fractions") == Some(o.fractions)
      && Get(w, "fractionsType") == Some(o.fractionsType)
      && Get(w, "idempotentId") == IdJson(o)
      && Get(w, "isCombinedOption") == Some(JBool(false))
      && Get(w, "isOption") == Some(JBool(false))
      && Get(w, "orderSide") == Some(o.orderSide)
      && Get(w, "orderSource") == Some(JNum("0"))
      && Get(w, "orderTimeInForce") == Some(o.orderTimeInForce)
      && Get(w, "symbol") == Some(o.symbol)
      && Get(w, "tradeNativeType") == Some(JNum("0"))
      && Get(w, "type") == Some(o.orderType)
      && Get(w, "usAccountId") == Some(o.usAccountId)
  {
    WireLeading(o);
    WirePrice(o);
    WireId(o);
    WireMiddle(o);
    WireTrailing(o);
  }

  lemma WireLeading(o: Order)
    ensures Get(Wire(o), "allowExtHrsFill") == Some(o.allowExtHrsFill)
    ensures Get(Wire(o), "displayAmount") == Some(o.displayAmount)
    ensures Get(Wire(o), "entrustAmount") == Some(o.entrustAmount)
  {
    forall k | k in {"allowExtHrsFill", "displayAmount", "entrustAmount"}
      ensures Get(Wire(o), k) == Field(Leading(o), k)
    {
      SkipToLeading(o, k);
    }
    FieldLast(Leading(o), 0);
    FieldLast(Leading(o), 1);
    FieldLast(Leading(o), 2);
  }

  lemma SkipToLeading(o: Order, k: string)
    requires k in {"allowExtHrsFill", "displayAmount", "entrustAmount"}
    ensures Get(Wire(o), k) == Field(Leading(o), k)
  {
    var a, p, m := Leading(o), Optional("entrustPrice", o.entrustPrice), Middle(o);
    var i, t := Optional("idempotentId", IdJson(o)), Trailing(o);
    FieldSkip(a + p + m + i, t, k);
    FieldSkip(a + p + m, i, k);
    FieldSkip(a + p, m, k);
    FieldSkip(a, p, k);
  }

  lemma WirePrice(o: Order)
    ensures Get(Wire(o), "entrustPrice") == o.entrustPrice
  {
    var a, p, m := Leading(o), Optional("entrustPrice", o.entrustPrice), Middle(o);
    var i, t := Optional("idempotentId", IdJson(o)), Trailing(o);
    FieldSkip(a + p + m + i, t, "entrustPrice");
    FieldSkip(a + p + m, i, "entrustPrice");
    FieldSkip(a + p, m, "entrustPrice");
    FieldAppend(a, p, "entrustPrice");
  }

  lemma WireId(o: Order)
    ensures Get(Wire(o), "idempotentId") == IdJson(o)
  {
    var a, p, m := Leading(o), Optional("entrustPrice", o.entrustPrice), Middle(o);
    var i, t := Optional("idempotentId", IdJson(o)), Trailing(o);
    FieldSkip(a + p + m + i, t, "idempotentId");
    FieldAppend(a + p + m, i, "idempotentId");
  }

  lemma WireMiddle(o: Order)
    ensures Get(Wire(o), "fractions") == Some(o.fractions)
    ensures Get(Wire(o), "fractionsType") == Some(o.fractionsType)
  {
    var a, p, m := Leading(o), Optional("entrustPrice", o.entrustPrice), Middle(o);
    var i, t := Optional("idempotentId", IdJson(o)), Trailing(o);
    forall k | k in {"fractions", "fractionsType"} ensures Get(Wire(o), k) == Field(m, k) {
      FieldSkip(a + p + m + i, t, k);
      FieldSkip(a + p + m, i, k);
      FieldAppend(a + p, m, k);
    }
    FieldLast(m, 0);
    FieldLast(m, 1);
  }

  lemma WireTrailing(o: Order)
    ensures Get(Wire(o), "isCombinedOption") == Some(JBool(false))
    ensures Get(Wire(o), "isOption") == Some(JBool(false))
    ensures Get(Wire(o), "orderSide") == Some(o.orderSide)
    ensures Get(Wire(o), "orderSource") == Some(JNum("0"))
    ensures Get(Wire(o), "orderTimeInForce") == Some(o.orderTimeInForce)
    ensures Get(Wire(o), "symbol") == Some(o.symbol)
    ensures Get(Wire(o), "tradeNativeType") == Some(JNum("0"))
    ensures Get(Wire(o), "type") == Some(o.orderType)
    ensures Get(Wire(o), "usAccountId") == Some(o.usAccountId)
  {
    var a, p, m := Leading(o), Optional("entrustPrice", o.entrustPrice), Middle(o);
    var i, t := Optional("idempotentId", IdJson(o)), Trailing(o);
    forall j | 0 <= j < |t| ensures Get(Wire(o), t[j].0) == Some(t[j].1) {
      FieldAppend(a + p + m + i, t, t[j].0);
      FieldLast(t, j);
    }
    assert t[0].0 == "isCombinedOption" && t[1].0 == "isOption" && t[2].0 == "orderSide";
    assert t[3].0 == "orderSource" && t[4].0 == "orderTimeInForce" && t[5].0 == "symbol";
    assert t[6].0 == "tradeNativeType" && t[7].0 == "type" && t[8].0 == "usAccountId";
  }

  /** The server reads back exactly the order the client meant to send. */
  lemma WireRoundTrip(o: Order)
    ensures Unwire(Wire(o)) == Some(o)
  {
    WireLookup(o);
  }

  /** The fields of the validation `Data` a live buy sends back, in the order
      the client reads them. */
  const PricedKeys: seq<string> :=
    ["allowExtHrsFill", "displayAmount", "entrustAmount", "entrustPrice",
     "fractions", "fractionsType", "orderTimeInForce", "type"]

  /** `validate_buy`'s body: a market day order for `amount` shares, neither
      extended-hours nor fractional. */
  function ValidateBuyOrder(symbol: Json, amount: Json, side: Json, account: Json): (o: Order)
    ensures o.displayAmount == o.entrustAmount == amount
    ensures o.orderSide == side && o.symbol == symbol && o.usAccountId == account
    ensures o.entrustPrice.None? && o.idempotentId.None?
    ensures o.allowExtHrsFill == o.fractions == JBool(false) && o.fractionsType == JNum("0")
    ensures o.orderTimeInForce == JStr("DAY") && o.orderType == JStr("MARKET")
  {
    Order(JBool(false), amount, amount, None, JBool(false), JNum("0"), None,
          side, JStr("DAY"), symbol, JStr("MARKET"), account)
  }

  /** `Data` holds every field a live buy sends back. */
  predicate Priced(data: Json) {
    forall k :: k in PricedKeys ==> Get(data, k).Some?
  }

  /** The first of `keys` that `data` lacks, when reading them in order. */
  function FirstMissing(data: Json, keys: seq<string>): (r: Option<nat>)
    ensures r.None? <==> forall m :: 0 <= m < |keys| ==> Get(data, keys[m]).Some?
    ensures r.Some? ==> r.value < |keys| && Get(data, keys[r.value]).None?
                        && forall m :: 0 <= m < r.value ==> Get(data, keys[m]).Some?
  {
    if |keys| == 0 then None
    else if Get(data, keys[0]).None? then Some(0)
    else
      match FirstMissing(data, keys[1..])
      case None => None
      case Some(n) => Some(n + 1)
  }

  /** `execute_buy`'s commit body, read from the validation `Data` key by key
      in the order the client reads them; the first absent key raises. */
  function BuyCommitOrder(data: Json, symbol: Json, account: Json, id: string): (r: Result<Order, Fault>)
    ensures r.Ok? <==> Priced(data)
    ensures r.Err? ==> r.error.key in PricedKeys && Get(data, r.error.key).None?
    ensures r.Err? ==> exists n :: 0 <= n < |PricedKeys| && r.error.key == PricedKeys[n]
                                   && forall m :: 0 <= m < n ==> Get(data, PricedKeys[m]).Some?
    ensures r.Ok? ==> var o := r.value;
      && Some(o.allowExtHrsFill) == Get(data, "allowExtHrsFill")
      && Some(o.displayAmount) == Get(data, "displayAmount")
      && Some(o.entrustAmount) == Get(data, "entrustAmount")
      && o.entrustPrice == Get(data, "entrustPrice")
      && Some(o.fractions) == Get(data, "fractions")
      && Some(o.fractionsType) == Get(data, "fractionsType")
      && Some(o.orderTimeInForce) == Get(data, "orderTimeInForce")
      && Some(o.orderType) == Get(data, "type")
      && o.idempotentId == Some(id) && o.orderSide == BuySide
      && o.symbol == symbol && o.usAccountId == account
  {
    match FirstMissing(data, PricedKeys)
    case Some(n) => Err(MissingKey(PricedKeys[n]))
    case None =>
      assert Get(data, PricedKeys[0]).Some? && Get(data, PricedKeys[1]).Some?;
      assert Get(data, PricedKeys[2]).Some? && Get(data, PricedKeys[3]).Some?;
      assert Get(data, PricedKeys[4]).Some? && Get(data, PricedKeys[5]).Some?;
      assert Get(data, PricedKeys[6]).Some? && Get(data, PricedKeys[7]).Some?;
      Ok(Order(
        Get(data, "allowExtHrsFill").value,
        Get(data, "displayAmount").value,
        Get(data, "entrustAmount").value,
        Some(Get(data, "entrustPrice").value),
        Get(data, "fractions").value,
        Get(data, "fractionsType").value,
        Some(id),
        BuySide,
        Get(data, "orderTimeInForce").value,
        symbol,
        Get(data, "type").value,
        account))
  }

  /** `validate_sell`'s body: a market day order to sell `amount` shares,
      with the amount sent as its text. */
  function ValidateSellOrder(symbol: Json, amount: string, account: Json): (o: Order)
    ensures o.displayAmount == o.entrustAmount == JStr(amount)
    ensures o.orderSide == SellSide && o.symbol == symbol && o.usAccountId == account
    ensures o.entrustPrice.None? && o.idempotentId.None?
    ensures o.allowExtHrsFill == o.fractions == JBool(false) && o.fractionsType == JNum("0")
    ensures o.orderTimeInForce == JStr("DAY") && o.orderType == JStr("MARKET")
  {
    Order(JBool(false), JStr(amount), JStr(amount), None, JBool(false), JNum("0"), None,
          SellSide, JStr("DAY"), symbol, JStr("MARKET"), account)
  }

  /** `execute_sell`'s body: exactly what `validate_sell` checks for the same
      order, plus the caller's price and a fresh idempotency id. */
  function SellCommitOrder(symbol: Json, amount: string, account: Json, price: Json, id: string): (o: Order)
    ensures o == ValidateSellOrder(symbol, amount, account).(entrustPrice := Some(price), idempotentId := Some(id))
  {
    Order(JBool(false), JStr(amount), JStr(amount), Some(price), JBool(false), JNum("0"), Some(id),
          SellSide, JStr("DAY"), symbol, JStr("MARKET"), account)
  }

  /** What `execute_sell` returns on a dry run. */
  const DryRunMarker: Json := JObj([("Outcome", JStr("Success")), ("Message", JStr("Dry Run Success"))])

  /** What `execute_buy` does once the validation response is in. */
  datatype BuyStep =
    | Return(response: Json)  // hand the validation response back unchanged
    | Raise(fault: Fault)     // a lookup in the response raised
    | Commit(order: Order)    // post this order to the buy endpoint

  /** A live buy posts the commit body it could build, or raises the
      `KeyError` that building it met. */
  function CommitOrRaise(order: Result<Order, Fault>): BuyStep {
    match order
    case Ok(o) => Commit(o)
    case Err(f) => Raise(f)
  }

  predicate Succeeded(validation: Json) {
    Get(validation, "Outcome") == Some(JStr("Success"))
  }

  function PlanBuy(validation: Json, symbol: Json, account: Json, dryRun: bool, id: string): (step: BuyStep)
    ensures Get(validation, "Outcome").None? ==> step == Raise(MissingKey("Outcome"))
    ensures Get(validation, "Outcome").Some? && !Succeeded(validation) ==> step == Return(validation)
    ensures step.Return? ==> step.response == validation
    ensures step.Commit? <==> Succeeded(validation) && !dryRun && Get(validation, "Data").Some?
                              && BuyCommitOrder(Get(validation, "Data").value, symbol, account, id).Ok?
    ensures step.Commit? ==> step.order == BuyCommitOrder(Get(validation, "Data").value, symbol, account, id).value
    ensures dryRun && Succeeded(validation) ==>
              (step == Return(validation) <==> DryRunReadable(validation))
    ensures dryRun && Succeeded(validation) && Get(validation, "Data").None? ==>
              step == Raise(MissingKey("Data"))
    ensures dryRun && Succeeded(validation) && Get(validation, "Data").Some? ==>
              var data := Get(validation, "Data").value;
              && (Get(data, "totalWithCommission").None? ==> step == Raise(MissingKey("totalWithCommission")))
              && (Get(data, "totalWithCommission").Some? && Get(data, "entrustAmount").None? ==>
                    step == Raise(MissingKey("entrustAmount")))
    ensures Succeeded(validation) && !dryRun && Get(validation, "Data").None? ==>
              step == Raise(MissingKey("Data"))
    ensures Succeeded(validation) && !dryRun && Get(validation, "Data").Some? ==>
              step == CommitOrRaise(BuyCommitOrder(Get(validation, "Data").value, symbol, account, id))
  {
    match Get(validation, "Outcome")
    case None => Raise(MissingKey("Outcome"))
    case Some(outcome) =>
      if outcome != JStr("Success") then Return(validation)
      else
        match Get(validation, "Data")
        case None => Raise(MissingKey("Data"))
        case Some(data) =>
          if dryRun then
            if Get(data, "totalWithCommission").None? then Raise(MissingKey("totalWithCommission"))
            else if Get(data, "entrustAmount").None? then Raise(MissingKey("entrustAmount"))
            else Return(validation)
          else
            CommitOrRaise(BuyCommitOrder(data, symbol, account, id))
  }

  /** A dry run reads the total cost and the share count from `Data` to report them. */
  predicate DryRunReadable(validation: Json) {
    && Get(validation, "Data").Some?
    && Get(Get(validation, "Data").value, "totalWithCommission").Some?
    && Get(Get(validation, "Data").value, "entrustAmount").Some?
  }

  /** The body of a live buy carries, under every priced key, exactly what the
      validation `Data` holds there, and names the caller's symbol and account,
      the buy side and the fresh id. */
  lemma CommitEchoesValidation(validation: Json, symbol: Json, account: Json, id: string)
    requires PlanBuy(validation, symbol, account, false, id).Commit?
    ensures var w := Wire(PlanBuy(validation, symbol, account, false, id).order);
      var data := Get(validation, "Data").value;
      && (forall k :: k in PricedKeys ==> Get(w, k) == Get(data, k))
      && Get(w, "orderSide") == Some(BuySide)
      && Get(w, "symbol") == Some(symbol)
      && Get(w, "usAccountId") == Some(account)
      && Get(w, "idempotentId") == Some(JStr(id))
  {
    BuyWireEchoes(Get(validation, "Data").value, symbol, account, id);
  }

  /** The body built from a priced `Data` holds `Data`'s value under every
      priced key. */
  lemma BuyWireEchoes(data: Json, symbol: Json, account: Json, id: string)
    requires BuyCommitOrder(data, symbol, account, id).Ok?
    ensures var w := Wire(BuyCommitOrder(data, symbol, account, id).value);
      && (forall k :: k in PricedKeys ==> Get(w, k) == Get(data, k))
      && Get(w, "orderSide") == Some(BuySide)
      && Get(w, "symbol") == Some(symbol)
      && Get(w, "usAccountId") == Some(account)
      && Get(w, "idempotentId") == Some(JStr(id))
  {
    var order := BuyCommitOrder(data, symbol, account, id).value;
    WireLookup(order);
    var w := Wire(order);
    forall k | k in PricedKeys ensures Get(w, k) == Get(data, k) {
      assert k in {"allowExtHrsFill", "displayAmount", "entrustAmount", "entrustPrice",
                   "fractions", "fractionsType", "orderTimeInForce", "type"};
    }
  }

  /** The body of a live sell: the sell side, the caller's price, and the
      caller's amount as text for both amounts. */
  lemma SellWire(symbol: Json, amount: string, account: Json, price: Json, id: string)
    ensures var w := Wire(SellCommitOrder(symbol, amount, account, price, id));
      && Get(w, "orderSide") == Some(SellSide)
      && Get(w, "entrustPrice") == Some(price)
      && Get(w, "displayAmount") == Get(w, "entrustAmount") == Some(JStr(amount))
      && Get(w, "idempotentId") == Some(JStr(id))
      && Get(w, "symbol") == Some(symbol) && Get(w, "usAccountId") == Some(account)
  {
    WireLookup(SellCommitOrder(symbol, amount, account, price, id));
  }
}
