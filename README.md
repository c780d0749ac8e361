# Trading bot core: order ledger, session and trade handlers

This project is a Dafny model of the core of a small bracket-order trading bot for a
broker's REST trading API. It has five modules:

- `OrderLedger` (`ledger.dfy`) models the local order ledger `tradeIds.json`. This is an
  ordered array of records `{id, symbol, side, entryPrice, takeProfit, stopLoss}`. The
  operations are append, filter by symbol, remove by id and a batch replace by id.
  Every operation reads the whole array. Append, remove by id and replace by id also
  write it back whole. The file is a `Ledger` object with a `readable` flag and a
  `seq<Order>` field.
- `SessionAuth` (`session.dfy`) models the module-level token fields and the token file
  `tokens.json`. It covers authentication (which swallows its own failures), the start-up
  refresh test with its five-minute margin, and the authorized request. That request
  re-authenticates once and retries once after an HTTP 401, and only then.
- `Sizing` (`sizing.dfy`) models position sizing by risk percentage over `real`, with
  the fixed EURUSD pip constants.
- `Requests` (`requests.dfy`) models the body of the place-order request and the body of
  the modify (PATCH) request. The PATCH body keeps only truthy parameters.
- `Handlers` (`handlers.dfy`) models the three HTTP handlers: open, close by symbol and
  modify by symbol. Every remote call is an input, either a reply or `Fail` (the call
  threw). For the batch handlers, the input is the sequence of replies to successive
  calls. The ledger is the state the handlers change.

The model follows the code as written:

- A close call that throws stops the close loop. The later records are not attempted.
- A modify call that throws aborts the whole modify batch. Nothing is written.
- Authentication never raises an error. When the token request fails, it logs and leaves
  the tokens as they were. For an unparsable expiry, see below.
- The sizer does not reject equal entry and stop prices.
- Ledger and token writes are in-place rewrites, not atomic replacements.
- There is no lock and no single-flight refresh.

Two quirks of the code are modelled as written:

- `closeTradeOrder` tests `s` on the transport response object. The handler tests `s`
  on the reply body. An axios response carries no `s` field, so in practice only the
  handler's removal runs. The model leaves the transport's `s` free, so it also covers a
  transport response that does carry `s`. In that case a record is removed twice, and
  `CloseStep` uses `RemoveIdempotent` to show that the second removal changes nothing.
- `saveTokens` assigns the token fields before formatting the expiry date. A reply with
  an unparsable expiry therefore updates the in-memory tokens but not the token file,
  and the error is swallowed.

## Model

| member | source | states |
|---|---|---|
| `OrderLedger.OfSymbol` | auth.js:158 | the filter returns only records with the symbol and never more records than the ledger holds |
| `OrderLedger.OfSymbolMembers` | auth.js:158 | the symbol filter returns exactly the ledger records whose symbol matches |
| `OrderLedger.OfSymbolAppend` | auth.js:158 | filtering keeps ledger order: the filter of a concatenation is the concatenation of the filters |
| `OrderLedger.AppendThenFind` | auth.js:138-164 | after an append, a lookup of the new record's symbol gives the earlier matches in order followed by the new record |
| `OrderLedger.Ledger.FindBySymbol` | auth.js:154-164 | returns the records with that symbol in ledger order; an unreadable file gives the empty sequence |
| `OrderLedger.Ledger.Append` | auth.js:138-150 | the ledger becomes the old ledger plus the new record at the end; a missing or unparsable file counts as empty and becomes readable |
| `OrderLedger.WithoutId` | auth.js:185 | removal by id keeps exactly the records with another id and never grows the ledger |
| `OrderLedger.WithoutIdAppend` | auth.js:185 | removal keeps the remaining records in their original relative order |
| `OrderLedger.WithoutAbsentId` | auth.js:185 | removing an id no record carries leaves the ledger as it was |
| `OrderLedger.RemoveIdempotent` | auth.js:181-186 | removing the same id twice gives the same ledger as removing it once |
| `OrderLedger.WithoutIdShrinks` | auth.js:185 | the ledger gets shorter exactly when some record carries the id |
| `OrderLedger.WithoutIdKeepsUniqueIds` | auth.js:185 | removal keeps the order ids of the ledger unique |
| `OrderLedger.WithoutIds` | auth.js:185 | removing a set of ids keeps exactly the records whose id is outside the set |
| `OrderLedger.WithoutNoIds` | auth.js:185 | removing the empty set of ids changes nothing |
| `OrderLedger.WithoutOneMoreId` | auth.js:185 | one more removal by id is the same as removing the set of ids with that id added |
| `OrderLedger.Ledger.RemoveById` | auth.js:181-192 | an unreadable file throws and changes nothing; otherwise every record with the id is removed and the rest keep their order |
| `OrderLedger.FirstIndexWithId` | auth.js:202 | `find` picks the first batch record with the id, or reports that none has it |
| `OrderLedger.Replacement` | auth.js:202-203 | one record becomes the first batch record with its id when there is one, and stays itself otherwise; the id never changes |
| `OrderLedger.ReplaceById` | auth.js:201-206 | replace by id keeps the length and the id at every position; a record whose id the batch holds becomes the first batch record with that id, as `find` returns it; a record whose id the batch lacks is untouched; batch records with ids outside the ledger are never added |
| `OrderLedger.ReplaceKeepsUniqueIds` | auth.js:201-206 | a batch replace keeps the order ids unique |
| `OrderLedger.ReplaceBySubsetIsIdentity` | auth.js:201-204 | with unique ids, a batch made of ledger records leaves the ledger unchanged |
| `OrderLedger.AppendKeepsUniqueIds` | auth.js:148 | appending a record with a fresh id keeps the ids unique |
| `OrderLedger.Ledger.SaveModified` | auth.js:195-212 | an unreadable file throws and changes nothing; otherwise the ledger becomes the batch replace of the old ledger |
| `SessionAuth.DateOf` | auth.js:17 | an expiry value becomes a valid date exactly when it parses, at that instant, and an invalid date otherwise; it is never `null` |
| `SessionAuth.ShouldReauthenticate` | auth.js:113-117 | the start-up test: an empty token or a `null` expiry always refreshes; a valid expiry refreshes exactly when under 300000 ms remain; an invalid date refreshes only for an empty token, because the remaining time is `NaN` |
| `SessionAuth.RefreshStaysDue` | auth.js:113-117 | once a refresh is due it stays due at every later time |
| `SessionAuth.Session.LoadTokens` | auth.js:21-28 | a missing file changes nothing; a saved file sets all three fields; an unreadable file throws and changes nothing |
| `SessionAuth.Session.Authenticate` | auth.js:14-44 | a failed authentication changes no field and raises nothing; a granted one sets the three fields and writes the file only when the expiry is a valid date |
| `SessionAuth.Session.InitAuthentication` | auth.js:111-121 | re-authenticates exactly when the loaded token is empty or expires within the margin; otherwise, or when authentication fails, the loaded session and the file stay; a granted re-authentication sets all three fields and rewrites the file when the expiry is a valid date; an unreadable token file stops start-up |
| `SessionAuth.Session.AuthorizedRequest` | auth.js:47-72 | at most two attempts; the second happens only after a 401, after re-authentication, and carries the new token; a denied re-authentication leaves all four session fields as they were, and a granted one sets them as `authenticate` does; any other failure is returned unretried with the session unchanged |
| `SessionAuth.RestoredAfterRestart` | auth.js:14-28 | a session saved by a successful authentication is restored unchanged by the next process's token load |
| `Sizing.PositionSize` | auth.js:86-96 | the size times the pip distance times the pip value equals the money at risk |
| `Sizing.Quantity` | auth.js:86-99 | the size is finite exactly when entry and stop differ |
| `Sizing.SizeDependsOnDistanceOnly` | auth.js:88-96 | the size depends on entry and stop only through the absolute value of their difference |
| `Sizing.SizeSymmetric` | auth.js:88 | swapping entry and stop gives the same size |
| `Sizing.SizeShrinksWithDistance` | auth.js:88-96 | with a positive balance and risk, a wider stop gives a strictly smaller size |
| `Sizing.SizeExample` | auth.js:86-96 | balance 10000, risk 1, entry 1.1000, stop 1.0950 give 50 pips, 100 at risk and size 0.2 |
| `Requests.KeepTruthy` | auth.js:220-222 | a parameter is kept exactly when it is present and non-zero |
| `Requests.ModifyBody` | auth.js:219-225 | validity is always GTC; takeProfit, stopLoss and stopPrice are present exactly when the parameter is present and truthy, with its value |
| `Requests.OrderBody` | server.js:48-62 | the order is a limit GTC order at the entry price with absolute stop-loss and take-profit legs, stopPrice equal to the stop loss, no trailing offset, and the instrument's route and tradable id |
| `Handlers.OpenTrade` | server.js:21-88 | no order is sent when the account lookup throws, the balance is falsy or the instrument is unknown; the order sent is a limit GTC bracket with price = entry, stopPrice = stopLoss, absolute legs, trailing offset 0 and the 1% size; exactly one record is appended iff the reply carries an order id, that is, it returned and `d.orderId` is present and non-empty; otherwise the ledger is unchanged |
| `Handlers.FirstFailure` | server.js:121-129 | the index of the first call that threw: every earlier call returned |
| `Handlers.FirstFailureStable` | server.js:121-129 | later calls do not move the first failure |
| `Handlers.IdsUpTo` | server.js:121-122 | the ids of the first n records, in order, as the close calls target them |
| `Handlers.ClosedIdsMembers` | server.js:121-129 | `ClosedIds`, the set of ids the close loop removes, holds an id exactly when an earlier processed call confirmed a record with it |
| `Handlers.CloseTradeOrder` | auth.js:167-178 | a thrown call is rethrown with the ledger unchanged; `s == "ok"` on the transport response removes the record; the reply body's `s` is handed back |
| `Handlers.CloseStep` | server.js:122-124 | the removal in `closeTradeOrder` and the one in the handler together remove the id once, whether one or both run |
| `Handlers.CloseEach` | server.js:121-129 | one close call per record in order; confirmed records are removed, others stay; the first call that throws ends the loop and later records are untouched |
| `Handlers.CloseTrade` | server.js:112-138 | with no record for the symbol there is no remote call and no change; otherwise the close loop's result is returned |
| `Handlers.CloseEffect` | server.js:121-129 | with unique ids, a processed record is gone iff its reply confirmed the close; records after a thrown call and records of other symbols stay |
| `Handlers.OfSymbolKeepsUniqueIds` | auth.js:158 | the records found for a symbol have unique ids when the ledger does |
| `Handlers.BreakEven` | server.js:164 | the local copy gets stopLoss = entryPrice, and every other field is kept |
| `Handlers.ParamsFor` | server.js:153-169 | with break-even, the parameters are the recorded take profit and the entry price as stop loss and stop price; without it, no stop price, and the supplied take profit and stop loss only when truthy |
| `Handlers.Patches` | server.js:152-173 | one modify call per record, targeting the found records in order |
| `Handlers.Persisted` | server.js:164-177 | the batch written keeps the ids of the found records in order |
| `Handlers.SendModifications` | server.js:152-174 | one modify call per record in order with its body; the first call that throws ends the loop; when all return, the batch is the found records, moved to break-even when asked |
| `Handlers.ModifyTrade` | server.js:141-187 | with no record for the symbol there is no call and no change; a thrown modify call leaves the ledger unchanged; otherwise the batch is written once, after every call has returned |
| `Handlers.BreakEvenRequest` | server.js:155-162 | when the entry price and the recorded take profit are non-zero, break-even sends stopLoss = stopPrice = entry price, the recorded take profit, and GTC; a zero value is dropped, because auth.js:220-222 drops falsy values |
| `Handlers.PlainRequest` | server.js:165-169 | without break-even only the truthy supplied take profit and stop loss are sent, never a stop price |
| `Handlers.BreakEvenPersisted` | server.js:164-177 | with unique ids, a completed break-even modify sets stopLoss to entryPrice for exactly the records of that symbol |
| `Handlers.PlainModifyKeepsLedger` | server.js:165-177 | with unique ids, a completed modify without break-even leaves every stored record as it was |

## Left out

- The HTTP transport (axios), the Express routing and the response formatting (status
  codes and JSON bodies) are left out. Remote replies and errors are inputs, and each
  handler outcome names the status it leads to.
- File reads and writes and JSON parsing are left out. The ledger file and the token file
  are in-memory state. Write failures are not modelled: every write succeeds. For the
  ledger file, a missing file and an unparsable file are one state, because every ledger
  operation treats them alike. The token file keeps them apart: a missing token file is
  skipped, while an unparsable one makes the token load throw.
- Crash atomicity is not claimed. The code rewrites both files in place.
- Concurrency is left out. Each handler is one sequential run, and the code has no lock
  and no single-flight refresh.
- The `toFixed(2)` rounding and IEEE arithmetic of the sizer are left out. Sizes are
  exact reals. `NaN` inputs and non-numeric request fields are not modelled.
- `getAccountId` is an input: the first account, or an error when its request throws.
  Its assignment of the module-level account fields is not modelled.
- `getInstrumentDetails` is an input function from symbol to optional route data. Its
  throws are not modelled: a missing or unparsable `instruments.json`, or an instrument
  without a route. Either would end the open handler with a 500 before any order is sent.
- The `accNum` routing header, the `Content-Type` header and the URL building are not
  modelled. The bearer token of each attempt is modelled.
- Environment variables and console logging are left out.
- A DELETE reply whose body is `null` or `undefined`, which would make the handler's `.s`
  read throw, is not modelled. Reply bodies are objects.
- `last.js` is left out. It is a superseded duplicate that the server never loads.
- `Handlers.CloseEach`: when the ledger file is readable, which holds whenever records
  were found, a removal cannot throw. The model asserts this. The handler's throw path
  for removal is therefore reached only through `CloseTradeOrder`, which models it.
