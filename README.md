# dSPAC investing API client, modelled in Dafny

This project models the core of `DSPACAPI`, a Python client for the dSPAC
brokerage's mobile HTTP API. It covers:

- the time-derived cache-busting token that every request carries as `_s`;
- the session cookie jar: loaded from a pickle file at construction, merged
  by `dict.update` with the cookies of the initial request's response and
  of the login response (no other request changes it), persisted after
  each of those merges, and sent as a hand-built `Cookie` header by the
  login request;
- the order flows: `validate_buy` / `execute_buy` (validate, then commit
  only a successful, live order, echoing the validated price fields) and
  `validate_sell` / `execute_sell` (a dry run answers a fixed marker; a
  live sell posts the caller's amount and price).

Modules, one per concern:

- `Wrappers` (wrappers.dfy): `Option` and `Result`.
- `Json` (json.dfy): JSON values and Python's `value[key]` on them. The last
  of duplicate keys wins, as in `json.loads`. A lookup that would raise
  gives `None`.
- `CacheBuster` (cache_buster.dfy): `current_epoch_time_as_hex` as
  `Token(Instant(seconds, fraction))`, a decoder, and both round trips.
- `CookieJar` (cookie_jar.dfy): the jar as a sequence of name/value pairs
  with distinct names. This is a Python dict in insertion order. Also
  `Set`, `Merge` (that is, `dict.update`), the `Cookie` header, and a
  header parser.
- `Orders` (orders.dfy): the order payloads as a typed record, `Wire` (the
  JSON object posted, keys in the client's order) with its inverse
  `Unwire`, and `PlanBuy`, the decision `execute_buy` takes once the
  validation response is in.
- `DspacClient` (client.dfy): the class `DspacApi`:
  - `cookies` is a `Jar`.
  - The ghost `disk` is the cookie file.
  - The ghost `log` is every request sent, as endpoint, `_s` token, how
    cookies travel, and body.
  - The network is an oracle: each operation takes the server's response
    as a parameter.
  - Each request takes a clock reading as a parameter.
  - A commit takes its idempotency id as a parameter. The caller must
    supply it fresh (not among the ids already in the log), which is what
    `uuid.uuid4()` is trusted to give. Under that assumption, the class
    invariant `Valid()` proves that no two commits ever share an id.

Three behaviours of the code that a reader might not expect:

- A dry-run buy whose validation succeeded raises `KeyError` when `Data`
  lacks `totalWithCommission` or `entrustAmount`, which it reads for a
  debug message (dspac_api.py:295-296). `PlanBuy` gives
  `Raise(MissingKey(…))` there.
- Loading the cookie file catches only `FileNotFoundError`, `EOFError` and
  `pickle.UnpicklingError` (dspac_api.py:57-68). Any other read error
  escapes the constructor. `LoadCookies` and `DspacApi.Open` return `Err`
  for it.
- A live buy copies the priced fields from the validation `Data`, but
  `symbol` and `usAccountId` come from the caller and `orderSide` is the
  constant 1 (dspac_api.py:284, 318, 321, 324).

## Model

| member | source | states |
|---|---|---|
| `CacheBuster.Token` | dspac_invest_api/dspac_api.py:10-15 | the first `+` of the token sits right after the hex of the seconds, and what follows it is exactly the hex of the fractional digits, so the token splits back into its two halves |
| `CacheBuster.Hex` | dspac_invest_api/dspac_api.py:13-14 | `hex(n)[2:]` is a non-empty string of lower-case hex digits with no leading zero, so it never has a `0x` prefix and 0 renders as `"0"` |
| `CacheBuster.ParseHexOfHex` | dspac_invest_api/dspac_api.py:13-14 | reading the rendered digits back as base 16 gives back `n` |
| `CacheBuster.HexOfParseHex` | dspac_invest_api/dspac_api.py:13-14 | every canonical lower-case hex string is the rendering of the number it denotes (the rendering is a bijection onto canonical strings) |
| `CacheBuster.TokenRoundTrip` | dspac_invest_api/dspac_api.py:10-15 | the token splits at its only `+` into two canonical hex halves that decode to the seconds and the fractional digits |
| `CacheBuster.ParseTokenExact` | dspac_invest_api/dspac_api.py:10-15 | any string that decodes to a clock reading is exactly `hex(seconds) + "+" + hex(fraction)` for it |
| `CacheBuster.TokenInjective` | dspac_invest_api/dspac_api.py:10-15 | two different clock readings never give the same token |
| `CacheBuster.FractionWidth` | dspac_invest_api/dspac_api.py:11-14 | the 18 fractional digits of `"%.18f"` give at most 15 hex digits in the token's second half |
| `CookieJar.Set` | dspac_invest_api/dspac_api.py:80 | assigning one cookie: an existing name keeps its position and takes the new value, a new name is appended; lookups of every other name are unchanged |
| `CookieJar.Merge` | dspac_invest_api/dspac_api.py:80 | `dict.update` keeps every old name at its old position, at the front of the merged jar |
| `CookieJar.MergeSemantics` | dspac_invest_api/dspac_api.py:80 | after `dict.update`, a name the response sets has the response's value and every other name keeps its old value |
| `CookieJar.NewNames` | dspac_invest_api/dspac_api.py:80 | the names `dict.update` adds to a jar: a name is listed exactly when the jar lacks it and some response cookie sets it |
| `CookieJar.MergeOrder` | dspac_invest_api/dspac_api.py:80 | the merged jar's names are the old names in their old order, followed by the response's names that were new to the jar, in the order the response lists them; with `MergeSemantics` this is Python's `dict.update` |
| `CookieJar.MergeKeys` | dspac_invest_api/dspac_api.py:203 | the merged jar holds exactly the old names and the response's names |
| `CookieJar.Header` | dspac_invest_api/dspac_api.py:91 | the `Cookie` header is empty exactly when the jar is empty |
| `CookieJar.HeaderRoundTrip` | dspac_invest_api/dspac_api.py:91 | for RFC 6265 cookie names and values, splitting the `"; "`-joined `name=value` header gives back every cookie of the jar, in jar order |
| `Json.Field` | dspac_invest_api/dspac_api.py:289 | `response[key]` finds a value exactly when some member has that key |
| `Json.GetSemantics` | dspac_invest_api/dspac_api.py:289 | `value[key]` finds a value exactly when `value` is an object with a member named `key`, and the value found is that of the last such member (no later member has the key) |
| `Json.FieldLast` | dspac_invest_api/dspac_api.py:289 | the value found is that of the last member with the key |
| `Json.FieldAppend` | dspac_invest_api/dspac_api.py:289 | in a concatenation, a key of the later part wins over the earlier part |
| `Orders.ValidateBuyOrder` | dspac_invest_api/dspac_api.py:261-276 | the validation body carries the caller's amount as both amounts, the caller's side, symbol and account, no price and no id, and is a `MARKET`, `DAY` order with no extended-hours fill, no fractions and fraction type 0 |
| `Orders.FirstMissing` | dspac_invest_api/dspac_api.py:309-323 | reading keys in order, the result is absent exactly when every key is present, and otherwise it is the position of a missing key with every earlier key present |
| `Orders.BuyCommitOrder` | dspac_invest_api/dspac_api.py:308-325 | a commit body exists exactly when `Data` has all eight priced fields; each is copied verbatim, with buy side 1, the caller's symbol and account, and the given id; otherwise the error names the first priced key, in the literal's reading order, that `Data` lacks |
| `Orders.ValidateSellOrder` | dspac_invest_api/dspac_api.py:360-375 | the sell validation body carries `str(amount)` as both amounts, side 2, the caller's symbol and account, no price and no id, and is a `MARKET`, `DAY` order with no extended-hours fill, no fractions and fraction type 0 |
| `Orders.SellCommitOrder` | dspac_invest_api/dspac_api.py:392-409 | a live sell body is exactly the sell validation body for the same order plus the caller's price and the fresh id |
| `Orders.Wire` | dspac_invest_api/dspac_api.py:308-325 | the posted body is a JSON object with the fourteen keys every order body has, plus `entrustPrice` and `idempotentId` exactly when the order carries them (14 keys for a validation, 16 for a commit) |
| `Orders.WireLookup` | dspac_invest_api/dspac_api.py:308-325 | each key of the posted JSON body holds the order's field, and `isCombinedOption`, `isOption`, `orderSource` and `tradeNativeType` hold false, false, 0 and 0 |
| `Orders.WireRoundTrip` | dspac_invest_api/dspac_api.py:308-325 | the posted JSON body reads back as exactly the order it was built from |
| `Orders.PlanBuy` | dspac_invest_api/dspac_api.py:287-325 | a missing `Outcome` raises; a non-`Success` outcome returns the validation unchanged; on a successful validation a missing `Data` raises `KeyError('Data')`; a dry run then raises for a missing `totalWithCommission`, else for a missing `entrustAmount`, else returns the validation, and never commits; a live run raises the first missing priced key or commits the built order |
| `Orders.CommitEchoesValidation` | dspac_invest_api/dspac_api.py:308-325 | the live buy body holds, under every priced key, exactly what the validation `Data` holds, plus `orderSide` 1, the caller's symbol and account and `idempotentId` equal to the fresh id |
| `Orders.BuyWireEchoes` | dspac_invest_api/dspac_api.py:308-325 | a buy body built from a priced `Data` holds `Data`'s value under each of the eight priced keys, with `orderSide` 1, the caller's symbol and account, and the id |
| `Orders.SellWire` | dspac_invest_api/dspac_api.py:392-409 | the live sell body has `orderSide` 2, `entrustPrice` equal to the caller's price, and both amounts equal to `str(amount)` |
| `DspacClient.LoadCookies` | dspac_invest_api/dspac_api.py:54-68 | a stored jar loads as it was saved; an absent file, or one that raises `FileNotFoundError`, `EOFError` or `UnpicklingError`, gives an empty jar and no error; any other error escapes |
| `DspacClient.DspacApi.constructor` | dspac_invest_api/dspac_api.py:19-25 | the client starts with the given credentials and jar and with no request sent |
| `DspacClient.DspacApi.Open` | dspac_invest_api/dspac_api.py:19-31 | construction fails exactly when loading raises an uncaught error; otherwise the jar is the stored one or empty |
| `DspacClient.DspacApi.SaveCookies` | dspac_invest_api/dspac_api.py:44-51 | the cookie file afterwards holds exactly the given jar |
| `DspacClient.DspacApi.MakeInitialRequest` | dspac_invest_api/dspac_api.py:70-83 | one anonymous request is sent; the jar becomes the merge of the old jar and the response's cookies; the file then equals the jar; the body is returned |
| `DspacClient.DspacApi.LoginWithTicket` | dspac_invest_api/dspac_api.py:190-206 | the ticket is posted with the pre-login jar as `Cookie` header; the response's cookies are merged in and the file then equals the jar |
| `DspacClient.DspacApi.ValidateBuy` | dspac_invest_api/dspac_api.py:253-280 | exactly one validation request is sent with the buy validation body and the jar; the response is returned unchanged; no idempotency id is used |
| `DspacClient.DspacApi.PostCommit` | dspac_invest_api/dspac_api.py:327-329 | posting a commit body whose id is new sends exactly that one request with the jar, keeps the ids in the log distinct, and returns the server's answer |
| `DspacClient.DspacApi.ExecuteBuy` | dspac_invest_api/dspac_api.py:282-329 | `dryRun` defaults to true; the result and the requests are those `PlanBuy` decides; on a dry run or an unsuccessful validation, the one request sent is the validation and nothing is committed; ids stay distinct |
| `DspacClient.DspacApi.ValidateSell` | dspac_invest_api/dspac_api.py:351-377 | exactly one validation request is sent with the sell validation body; the response is returned unchanged |
| `DspacClient.DspacApi.ExecuteSell` | dspac_invest_api/dspac_api.py:379-411 | `dryRun` defaults to true; a dry run sends nothing and returns `{"Outcome": "Success", "Message": "Dry Run Success"}`; a live sell sends exactly the sell commit body and returns the response; ids stay distinct |

## Left out

- The HTTP transport (`requests.Session`), proxies and `check_proxy`. These
  are network I/O and a third-party library. Every request is assumed to
  get an answer; transport errors and the session's own cookie storage are
  not modelled.
- `request_captcha`: image decoding with PIL, a foreign library.
- The read-only wrappers `get_account_assets`, `get_account_holdings`,
  `get_account_info` and `check_stock_holdings`, and the authentication
  wrappers `generate_login_ticket_email`, `generate_login_ticket_sms`,
  `request_email_code` and `request_sms_code`. Each only sends one
  request and returns the body, and none changes the jar. The four
  read-only wrappers hand the jar to the transport (`cookies=self.cookies`);
  the four authentication wrappers send the `Cookie` header
  (`CookieJar.Header`).
- The pickle byte format. The file is an abstract store holding a jar, or
  unreadable with a named error. A file that unpickles to something other
  than a dict of strings is not modelled.
- `DspacApi.SaveCookies`: does not model creating the credentials
  directory or a failing write.
- `time()` and the `"%.18f"` formatting. These are a clock and floating
  point; the two integer parts are the inputs.
- `uuid.uuid4()`. Its randomness is replaced by a caller-supplied id that
  `ExecuteBuy` and `ExecuteSell` require to be new for a live commit.
- `str(amount)` in the sell payloads. The amount arrives already rendered
  as text.
- Json.Get: Python raises `TypeError`, which does not name the key, when
  the subscripted value is not an object (for example `"Data": null`);
  the model reports that case as `MissingKey(key)`, the same as a
  `KeyError`.
- JSON numbers are kept as literal text and copied unchanged. Python's
  `json.loads` then `json.dumps` re-renders a float (`12.340` is sent back
  as `12.34`, `1E2` as `100.0`); that re-rendering is not modelled.
- The URLs' constant query parameters, which the endpoint comments in
  client.dfy list: `guest=1` on the inform and login calls, and `_v=6.6.0`
  on the buy calls but `_v=5.4.1` on the sell calls. A request records its
  endpoint and its `_s` token only.
- Constant header strings, failure of `response.json()`, `_debug_print`
  and `print`.
