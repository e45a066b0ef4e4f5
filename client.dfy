/**
  The API client object: its cookie jar, the file the jar is persisted to,
  and the requests it sends. The network is an oracle: each operation takes
  the server's response as a parameter and records the request it sends in
  a ghost log. The clock is a parameter too (one reading per request), and
  so is the random idempotency id of a commit, which callers must supply
  fresh, as `uuid4` is trusted to be.
*/
module DspacClient {
  import opened Wrappers
  import opened Json
  import opened CacheBuster
  import opened CookieJar
  import opened Orders

  /** The endpoints the modelled operations call. */
  datatype Endpoint =
    | SystemInform         // GET  /api/v2/system/inform?guest=1&_v=6.6.0
    | SecurityLogin        // POST /api/v2/security/login?guest=1&_v=6.6.0
    | ValidateBuyEndpoint  // POST /api/v2/us/trade/validateBuy?_v=6.6.0
    | BuyEndpoint          // POST /api/v2/trade/buy?_v=6.6.0
    | ValidateSellEndpoint // POST /api/v2/us/trade/validateSell?_v=5.4.1
    | SellEndpoint         // POST /api/v2/trade/sell?_v=5.4.1

  /** How a request carries the jar: not at all, as a hand-built `Cookie`
      header, or handed to the transport (`cookies=self.cookies`). */
  datatype CookieCarriage = NoCookies | CookieHeader(line: string) | SessionCookies(jar: Jar)

  datatype Body = NoBody | Form(ticket: string) | JsonBody(payload: Json)

  /** One request the client sends: endpoint, `_s` token, cookies, body. */
  datatype Request = Request(endpoint: Endpoint, stamp: string, cookies: CookieCarriage, body: Body)

  /** What the transport hands back: the cookies the response sets
      (`response.cookies.get_dict()`) and the parsed body. */
  datatype Response = Response(setCookies: Jar, body: Json)

  /** Why reading the cookie file failed. The first three are caught and
      mean "start with an empty jar"; any other error escapes. */
  datatype ReadError = NotFound | EndOfFile | Unpickling | OtherError(name: string)

  /** The cookie file on disk. */
  datatype CookieFile = Absent | Stored(jar: Jar) | Unreadable(error: ReadError)

  /** The idempotency ids of the commits in a request log, oldest first. */
  ghost function CommitIds(log: seq<Request>): seq<string> {
    if |log| == 0 then [] else CommitIds(log[..|log| - 1]) + IdOf(log[|log| - 1])
  }

  ghost function IdOf(q: Request): seq<string> {
    match q.body
    case JsonBody(p) => (match Get(p, "idempotentId") case Some(JStr(s)) => [s] case _ => [])
    case _ => []
  }

  ghost predicate Distinct(s: seq<string>) {
    forall i, j :: 0 <= i < j < |s| ==> s[i] != s[j]
  }

  lemma CommitIdsAppend(log: seq<Request>, q: Request)
    ensures CommitIds(log + [q]) == CommitIds(log) + IdOf(q)
  {
    assert (log + [q])[..|log|] == log;
  }

  lemma IdOfOrder(e: Endpoint, stamp: string, c: CookieCarriage, o: Order)
    ensures IdOf(Request(e, stamp, c, JsonBody(Wire(o)))) == if o.idempotentId.Some? then [o.idempotentId.value] else []
  {
    WireLookup(o);
  }

  /** What `execute_buy` returns for a step: the validation response, the
      exception, or the commit's response. */
  function BuyResult(step: BuyStep, commitResponse: Json): Result<Json, Fault> {
    match step
    case Return(v) => Ok(v)
    case Raise(f) => Err(f)
    case Commit(_) => Ok(commitResponse)
  }

  /** The commit request a step sends, if any. */
  function CommitCalls(step: BuyStep, t: Instant, jar: Jar): seq<Request> {
    if step.Commit? then [Request(BuyEndpoint, Token(t), SessionCookies(jar), JsonBody(Wire(step.order)))] else []
  }

  /** `_load_cookies`: an absent file, a vanished one, an empty one or one
      that does not unpickle all give an empty jar; any other read error
      escapes to the caller. */
  method LoadCookies(file: CookieFile) returns (r: Result<Jar, ReadError>)
    ensures file.Stored? ==> r == Ok(file.jar)
    ensures file.Absent? ==> r == Ok([])
    ensures file.Unreadable? ==> if file.error.OtherError? then r == Err(file.error) else r == Ok([])
  {
    var cookies: Jar := [];
    if !file.Absent? {
      match file
      case Stored(jar) =>
        cookies := jar;
      case Unreadable(error) =>
        if error.OtherError? {
          return Err(error);
        }
    }
    return Ok(cookies);
  }

  class DspacApi {
    const user: string
    const password: string
    var cookies: Jar
    ghost var disk: CookieFile
    ghost var log: seq<Request>

    /** No two commits ever carry the same idempotency id. */
    ghost predicate Valid()
      reads this
    {
      Distinct(CommitIds(log))
    }

    constructor (user: string, password: string, jar: Jar, ghost file: CookieFile)
      ensures this.user == user && this.password == password
      ensures cookies == jar && disk == file && log == []
      ensures Valid()
    {
      this.user := user;
      this.password := password;
      cookies := jar;
      disk := file;
      log := [];
    }

    /** `DSPACAPI(...)`: load the jar; construction fails only when loading
        raises an error the loader does not catch. */
    static method Open(user: string, password: string, file: CookieFile) returns (r: Result<DspacApi, ReadError>)
      ensures r.Err? <==> file.Unreadable? && file.error.OtherError?
      ensures r.Ok? ==> var api := r.value;
        && fresh(api) && api.Valid()
        && api.user == user && api.password == password
        && api.cookies == (if file.Stored? then file.jar else [])
        && api.disk == file && api.log == []
    {
      var loaded := LoadCookies(file);
      if loaded.Err? {
        return Err(loaded.error);
      }
      var api := new DspacApi(user, password, loaded.value, file);
      return Ok(api);
    }

    /** `_save_cookies`: the file now holds exactly the given jar. */
    method SaveCookies(jar: Jar)
      modifies this`disk
      ensures disk == Stored(jar)
    {
      disk := Stored(jar);
    }

    /** `make_initial_request`: an anonymous GET whose response cookies are
        merged into the jar, which is then persisted. */
    method MakeInitialRequest(t: Instant, response: Response) returns (body: Json)
      requires Valid()
      modifies this
      ensures Valid()
      ensures log == old(log) + [Request(SystemInform, Token(t), NoCookies, NoBody)]
      ensures cookies == Merge(old(cookies), response.setCookies)
      ensures disk == Stored(cookies)
      ensures body == response.body
    {
      CommitIdsAppend(log, Request(SystemInform, Token(t), NoCookies, NoBody));
      log := log + [Request(SystemInform, Token(t), NoCookies, NoBody)];
      cookies := Merge(cookies, response.setCookies);
      SaveCookies(cookies);
      body := response.body;
    }

    /** `login_with_ticket`: the ticket is posted with the jar as a `Cookie`
        header; the response's cookies are merged in and persisted. */
    method LoginWithTicket(ticket: string, t: Instant, response: Response) returns (body: Json)
      requires Valid()
      modifies this
      ensures Valid()
      ensures log == old(log) + [Request(SecurityLogin, Token(t), CookieHeader(Header(old(cookies))), Form(ticket))]
      ensures cookies == Merge(old(cookies), response.setCookies)
      ensures disk == Stored(cookies)
      ensures body == response.body
    {
      var sent := Request(SecurityLogin, Token(t), CookieHeader(Header(cookies)), Form(ticket));
      CommitIdsAppend(log, sent);
      log := log + [sent];
      cookies := Merge(cookies, response.setCookies);
      SaveCookies(cookies);
      body := response.body;
    }

    /** The request `validate_buy` sends. */
    ghost function ValidateBuyCall(symbol: Json, amount: Json, side: Json, account: Json, t: Instant): Request
      reads this
    {
      Request(ValidateBuyEndpoint, Token(t), SessionCookies(cookies), JsonBody(Wire(ValidateBuyOrder(symbol, amount, side, account))))
    }

    /** `validate_buy`: post the market order and return the server's answer as it is. */
    method ValidateBuy(symbol: Json, amount: Json, side: Json, account: Json, t: Instant, response: Json) returns (r: Json)
      requires Valid()
      modifies this`log
      ensures Valid()
      ensures log == old(log) + [ValidateBuyCall(symbol, amount, side, account, t)]
      ensures CommitIds(log) == CommitIds(old(log))
      ensures r == response
    {
      var sent := ValidateBuyCall(symbol, amount, side, account, t);
      CommitIdsAppend(log, sent);
      IdOfOrder(ValidateBuyEndpoint, Token(t), SessionCookies(cookies), ValidateBuyOrder(symbol, amount, side, account));
      log := log + [sent];
      r := response;
    }

    /** Posting a commit body whose idempotency id is new: the one request
        sent, and the server's answer returned as it is. */
    method PostCommit(e: Endpoint, o: Order, t: Instant, response: Json) returns (r: Json)
      requires Valid()
      requires o.idempotentId.Some? && o.idempotentId.value !in CommitIds(log)
      modifies this`log
      ensures Valid()
      ensures log == old(log) + [Request(e, Token(t), SessionCookies(cookies), JsonBody(Wire(o)))]
      ensures r == response
    {
      var sent := Request(e, Token(t), SessionCookies(cookies), JsonBody(Wire(o)));
      CommitIdsAppend(log, sent);
      IdOfOrder(e, Token(t), SessionCookies(cookies), o);
      log := log + [sent];
      r := response;
    }

    /** `execute_buy`: validate, and commit only a successful validation of a
        live order, echoing the priced fields of the validation. */
    method ExecuteBuy(symbol: Json, amount: Json, account: Json,
                      tValidate: Instant, validation: Json,
                      tCommit: Instant, freshId: string, commitResponse: Json,
                      dryRun: bool := true)
      returns (r: Result<Json, Fault>)
      requires Valid()
      requires !dryRun ==> freshId !in CommitIds(log)
      modifies this`log
      ensures Valid()
      ensures var step := PlanBuy(validation, symbol, account, dryRun, freshId);
        && r == BuyResult(step, commitResponse)
        && log == old(log) + [ValidateBuyCall(symbol, amount, BuySide, account, tValidate)]
                  + CommitCalls(step, tCommit, cookies)
      ensures dryRun || !Succeeded(validation) ==>
                log == old(log) + [ValidateBuyCall(symbol, amount, BuySide, account, tValidate)]
    {
      ghost var step := PlanBuy(validation, symbol, account, dryRun, freshId);
      var response := ValidateBuy(symbol, amount, BuySide, account, tValidate, validation);
      var outcome := Get(response, "Outcome");
      if outcome.None? {
        assert step == Raise(MissingKey("Outcome"));
        return Err(MissingKey("Outcome"));
      }
      if outcome.value != JStr("Success") {
        assert step == Return(validation);
        return Ok(response);
      }
      var data := Get(response, "Data");
      if dryRun {
        if data.None? {
          assert step == Raise(MissingKey("Data"));
          return Err(MissingKey("Data"));
        }
        if Get(data.value, "totalWithCommission").None? {
          assert step == Raise(MissingKey("totalWithCommission"));
          return Err(MissingKey("totalWithCommission"));
        }
        if Get(data.value, "entrustAmount").None? {
          assert step == Raise(MissingKey("entrustAmount"));
          return Err(MissingKey("entrustAmount"));
        }
        assert step == Return(validation);
        return Ok(response);
      }
      if data.None? {
        assert step == Raise(MissingKey("Data"));
        return Err(MissingKey("Data"));
      }
      var order := BuyCommitOrder(data.value, symbol, account, freshId);
      if order.Err? {
        assert step == Raise(order.error);
        return Err(order.error);
      }
      assert step == Commit(order.value);
      var committed := PostCommit(BuyEndpoint, order.value, tCommit, commitResponse);
      r := Ok(committed);
    }

    /** The request `validate_sell` sends. */
    ghost function ValidateSellCall(symbol: Json, amount: string, account: Json, t: Instant): Request
      reads this
    {
      Request(ValidateSellEndpoint, Token(t), SessionCookies(cookies), JsonBody(Wire(ValidateSellOrder(symbol, amount, account))))
    }

    /** `validate_sell`: post the sell order and return the server's answer as it is. */
    method ValidateSell(symbol: Json, amount: string, account: Json, t: Instant, response: Json) returns (r: Json)
      requires Valid()
      modifies this`log
      ensures Valid()
      ensures log == old(log) + [ValidateSellCall(symbol, amount, account, t)]
      ensures CommitIds(log) == CommitIds(old(log))
      ensures r == response
    {
      var sent := ValidateSellCall(symbol, amount, account, t);
      CommitIdsAppend(log, sent);
      IdOfOrder(ValidateSellEndpoint, Token(t), SessionCookies(cookies), ValidateSellOrder(symbol, amount, account));
      log := log + [sent];
      r := response;
    }

    /** `execute_sell`: a dry run answers a fixed marker without any request;
        a live sell posts the caller's amount and price without validating. */
    method ExecuteSell(symbol: Json, amount: string, account: Json, price: Json,
                       t: Instant, freshId: string, response: Json,
                       dryRun: bool := true)
      returns (r: Json)
      requires Valid()
      requires !dryRun ==> freshId !in CommitIds(log)
      modifies this`log
      ensures Valid()
      ensures dryRun ==> r == DryRunMarker && log == old(log)
      ensures !dryRun ==>
        && r == response
        && log == old(log) + [Request(SellEndpoint, Token(t), SessionCookies(cookies),
                                      JsonBody(Wire(SellCommitOrder(symbol, amount, account, price, freshId))))]
    {
      if dryRun {
        return DryRunMarker;
      }
      var order := SellCommitOrder(symbol, amount, account, price, freshId);
      r := PostCommit(SellEndpoint, order, t, response);
    }
  }
}
