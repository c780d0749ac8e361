/**
  The three trade handlers of the HTTP server: open, close and modify. Each remote call
  they make is an input (the reply, or the error it threw); the ledger is the state they
  change.
*/
module Handlers {
  import opened Common
  import opened OrderLedger
  import opened Sizing
  import opened Requests

  /** Every order is sized to risk one percent of the balance. */
  const RiskPercent: real := 1.0

  /** The first account of the user: ids and balance. */
  datatype Account = Account(accountId: string, accNum: string, balance: real)

  /** The place-order reply, reduced to `data.d.orderId` (`None` when any step of that path is missing). */
  datatype PlaceReply = PlaceReply(orderId: Option<OrderId>)

  /** The reply carries a truthy order id. */
  predicate HasOrderId(reply: Remote<PlaceReply>) {
    reply.Ok? && reply.reply.orderId.Some? && reply.reply.orderId.value != ""
  }

  datatype OpenOutcome =
    | Opened(id: OrderId)      // 200, the record is in the ledger
    | AccountLookupFailed      // 500, the account request threw
    | NoBalance                // 500, the balance is falsy
    | InstrumentNotFound       // 404, the symbol has no instrument
    | OrderFailed              // 500, the place-order request threw
    | MissingOrderId           // 500, the reply has no order id

  /**
    `POST /openTrade`. Fails before any order is sent when the balance is falsy or the
    symbol has no instrument; otherwise sends one limit GTC bracket order sized at one
    percent risk, and appends exactly one record when, and only when, the reply carries
    an order id. Every other path leaves the ledger as it was.
  */
  method OpenTrade(ledger: Ledger, side: string, symbol: string,
                   entryPrice: real, takeProfit: real, stopLoss: real,
                   account: Remote<Account>, instruments: string -> Option<Instrument>,
                   reply: Remote<PlaceReply>)
    returns (outcome: OpenOutcome, submitted: Option<OrderRequest>)
    requires ledger.Valid()
    modifies ledger
    ensures ledger.Valid()
    ensures submitted.Some? <==> account.Ok? && account.reply.balance != 0.0 && instruments(symbol).Some?
    ensures account.Fail? ==> outcome == AccountLookupFailed
    ensures account.Ok? && account.reply.balance == 0.0 ==> outcome == NoBalance
    ensures account.Ok? && account.reply.balance != 0.0 && instruments(symbol).None? ==>
      outcome == InstrumentNotFound
    ensures submitted.Some? ==>
      var req := submitted.value;
      var inst := instruments(symbol).value;
      && req.price == entryPrice && req.stopPrice == stopLoss
      && req.stopLoss == stopLoss && req.takeProfit == takeProfit && req.side == side
      && req.validity == "GTC" && req.orderType == "limit" && req.trStopOffset == 0
      && req.stopLossType == "absolute" && req.takeProfitType == "absolute"
      && req.routeId == inst.routeId && req.tradableInstrumentId == inst.tradableInstrumentId
      && req.qty == Quantity(account.reply.balance, RiskPercent, entryPrice, stopLoss)
    ensures submitted.Some? && reply.Fail? ==> outcome == OrderFailed
    ensures submitted.Some? && reply.Ok? && !HasOrderId(reply) ==> outcome == MissingOrderId
    ensures outcome.Opened? <==> submitted.Some? && HasOrderId(reply)
    ensures outcome.Opened? ==>
      && outcome.id == reply.reply.orderId.value
      && ledger.readable
      && ledger.orders == old(ledger.orders) + [Order(outcome.id, symbol, side, entryPrice, takeProfit, stopLoss)]
    ensures !outcome.Opened? ==>
      ledger.orders == old(ledger.orders) && ledger.readable == old(ledger.readable)
  {
    submitted := None;
    if account.Fail? {
      return AccountLookupFailed, None;
    }
    var acct := account.reply;
    if acct.balance == 0.0 {
      return NoBalance, None;
    }
    var instrument := instruments(symbol);
    if instrument.None? {
      return InstrumentNotFound, None;
    }
    var qty := Quantity(acct.balance, RiskPercent, entryPrice, stopLoss);
    var body := OrderBody(side, entryPrice, takeProfit, stopLoss, qty, instrument.value);
    submitted := Some(body);
    if reply.Fail? {
      return OrderFailed, submitted;
    }
    if !HasOrderId(reply) {
      return MissingOrderId, submitted;
    }
    var id := reply.reply.orderId.value;
    ledger.Append(Order(id, symbol, side, entryPrice, takeProfit, stopLoss));
    outcome := Opened(id);
  }

  // ---------------------------------------------------------------------------
  // Batches of remote calls
  // ---------------------------------------------------------------------------

  datatype BatchOutcome =
    | NoOrders         // 404, no ledger record has the symbol; no remote call made
    | Completed        // 200, every call of the batch returned
    | Aborted(at: nat) // 500, the call for the order at this index threw

  /**
    The reply to the call with index `i` of a batch; a call past the end of the given
    replies is one that threw.
  */
  function ReplyAt<T>(replies: seq<Remote<T>>, i: nat): Remote<T> {
    if i < |replies| then replies[i] else Fail
  }

  /** The index of the first call that threw among the first `n`, or `n` when none did. */
  function FirstFailure<T>(replies: seq<Remote<T>>, n: nat): (k: nat)
    ensures k <= n
    ensures forall j :: 0 <= j < k ==> ReplyAt(replies, j).Ok?
    ensures k < n ==> ReplyAt(replies, k).Fail?
  {
    if n == 0 then 0
    else
      var k := FirstFailure(replies, n - 1);
      if k < n - 1 then k
      else if ReplyAt(replies, n - 1).Fail? then n - 1
      else n
  }

  /** Once a call has thrown, looking at more calls does not move the first failure. */
  lemma {:induction false} FirstFailureStable<T>(replies: seq<Remote<T>>, n: nat, m: nat)
    requires n <= m && FirstFailure(replies, n) < n
    ensures FirstFailure(replies, m) == FirstFailure(replies, n)
  {
    if n < m {
      FirstFailureStable(replies, n, m - 1);
    }
  }

  /** The ids of the first `n` records, in order: the orders the first `n` calls target. */
  function IdsUpTo(found: seq<Order>, n: nat): (ids: seq<OrderId>)
    requires n <= |found|
    ensures |ids| == n
    ensures forall j :: 0 <= j < n ==> ids[j] == found[j].id
  {
    if n == 0 then [] else IdsUpTo(found, n - 1) + [found[n - 1].id]
  }

  // ---------------------------------------------------------------------------
  // Close by symbol
  // ---------------------------------------------------------------------------

  /**
    The close reply: `s` read on the transport response (inside `closeTradeOrder`) and
    `s` read on the reply body (in the handler).
  */
  datatype CloseReply = CloseReply(transportS: string, bodyS: string)

  /** At least one of the two checks sees `"ok"`, so the record is removed. */
  predicate Confirmed(r: CloseReply) {
    r.transportS == "ok" || r.bodyS == "ok"
  }

  /** The ids removed by the first `n` close calls: those whose reply confirmed the close. */
  function ClosedIds(found: seq<Order>, replies: seq<Remote<CloseReply>>, n: nat): (ids: set<OrderId>)
    requires n <= |found|
  {
    if n == 0 then {}
    else
      var prev := ClosedIds(found, replies, n - 1);
      var r := ReplyAt(replies, n - 1);
      if r.Ok? && Confirmed(r.reply) then prev + {found[n - 1].id} else prev
  }

  /** An id is among the closed ones exactly when one of the first `n` calls confirmed a record with it. */
  lemma {:induction false} ClosedIdsMembers(found: seq<Order>, replies: seq<Remote<CloseReply>>, n: nat, id: OrderId)
    requires n <= |found|
    ensures id in ClosedIds(found, replies, n) <==>
      exists j :: 0 <= j < n && found[j].id == id && ReplyAt(replies, j).Ok? && Confirmed(ReplyAt(replies, j).reply)
  {
    if n > 0 {
      ClosedIdsMembers(found, replies, n - 1, id);
    }
  }

  /**
    `closeTradeOrder`: one DELETE call. A call that throws is rethrown. Otherwise, when `s`
    on the transport response is `"ok"` the record is removed (a removal that throws is
    rethrown too), and the `s` of the reply body is handed back.
  */
  method CloseTradeOrder(ledger: Ledger, id: OrderId, reply: Remote<CloseReply>) returns (res: Remote<string>)
    requires ledger.Valid()
    modifies ledger
    ensures ledger.Valid() && ledger.readable == old(ledger.readable)
    ensures reply.Fail? ==> res.Fail? && ledger.orders == old(ledger.orders)
    ensures reply.Ok? && reply.reply.transportS != "ok" ==>
      res == Ok(reply.reply.bodyS) && ledger.orders == old(ledger.orders)
    ensures reply.Ok? && reply.reply.transportS == "ok" ==>
      && res == (if old(ledger.readable) then Ok(reply.reply.bodyS) else Fail)
      && ledger.orders == WithoutId(old(ledger.orders), id)
  {
    if reply.Fail? {
      return Fail;
    }
    if reply.reply.transportS == "ok" {
      var removed := ledger.RemoveById(id);
      if removed == Thrown {
        return Fail;
      }
    }
    res := Ok(reply.reply.bodyS);
  }

  /**
    One step of the close loop: the removal inside `closeTradeOrder` and the removal in the
    handler together remove the id once, whether one or both of them run.
  */
  lemma CloseStep(start: seq<Order>, found: seq<Order>, replies: seq<Remote<CloseReply>>, i: nat)
    requires i < |found| && ReplyAt(replies, i).Ok?
    ensures var before := WithoutIds(start, ClosedIds(found, replies, i));
            var id := found[i].id;
            var r := ReplyAt(replies, i).reply;
            var once := if r.transportS == "ok" then WithoutId(before, id) else before;
            var twice := if r.bodyS == "ok" then WithoutId(once, id) else once;
            twice == WithoutIds(start, ClosedIds(found, replies, i + 1))
  {
    var before := WithoutIds(start, ClosedIds(found, replies, i));
    var id := found[i].id;
    WithoutOneMoreId(start, ClosedIds(found, replies, i), id);
    RemoveIdempotent(before, id);
  }

  /**
    The loop of the close handler over the records found: one close call per record in
    order; a confirmed close removes the record (twice when both checks see `"ok"`), and a
    call that throws stops the loop. `requested` lists the ids whose close was requested.
  */
  method CloseEach(ledger: Ledger, found: seq<Order>, replies: seq<Remote<CloseReply>>)
    returns (failedAt: Option<nat>, requested: seq<OrderId>)
    requires ledger.Valid() && ledger.readable
    modifies ledger
    ensures ledger.Valid() && ledger.readable
    ensures var k := FirstFailure(replies, |found|);
            && failedAt == (if k < |found| then Some(k) else None)
            && requested == IdsUpTo(found, if k < |found| then k + 1 else k)
            && ledger.orders == WithoutIds(old(ledger.orders), ClosedIds(found, replies, k))
  {
    ghost var start := ledger.orders;
    WithoutNoIds(start);
    requested := [];
    var i := 0;
    while i < |found|
      invariant 0 <= i <= |found|
      invariant FirstFailure(replies, i) == i
      invariant ledger.Valid() && ledger.readable
      invariant requested == IdsUpTo(found, i)
      invariant ledger.orders == WithoutIds(start, ClosedIds(found, replies, i))
    {
      var id := found[i].id;
      requested := requested + [id];
      var response := CloseTradeOrder(ledger, id, ReplyAt(replies, i));
      if response.Fail? {
        FirstFailureStable(replies, i + 1, |found|);
        return Some(i), requested;
      }
      if response.reply == "ok" {
        // The file is readable, so removal cannot throw.
        var removed := ledger.RemoveById(id);
        assert removed == Pass;
      }
      CloseStep(start, found, replies, i);
      i := i + 1;
    }
    failedAt := None;
  }

  /**
    `DELETE /closeTrade`. With no record for the symbol: no remote call and no change.
    Otherwise the close loop runs over the records of the symbol in ledger order.
  */
  method CloseTrade(ledger: Ledger, symbol: string, replies: seq<Remote<CloseReply>>)
    returns (outcome: BatchOutcome, requested: seq<OrderId>)
    requires ledger.Valid()
    modifies ledger
    ensures ledger.Valid() && ledger.readable == old(ledger.readable)
    ensures var found := OfSymbol(old(ledger.orders), symbol);
            found == [] ==>
              outcome == NoOrders && requested == [] && ledger.orders == old(ledger.orders)
    ensures var found := OfSymbol(old(ledger.orders), symbol);
            var k := FirstFailure(replies, |found|);
            found != [] ==>
              && outcome == (if k < |found| then Aborted(k) else Completed)
              && requested == IdsUpTo(found, if k < |found| then k + 1 else k)
              && ledger.orders == WithoutIds(old(ledger.orders), ClosedIds(found, replies, k))
  {
    var found := ledger.FindBySymbol(symbol);
    if found == [] {
      return NoOrders, [];
    }
    var failedAt;
    failedAt, requested := CloseEach(ledger, found, replies);
    outcome := if failedAt.Some? then Aborted(failedAt.value) else Completed;
  }

  /**
    What a close batch leaves, given unique ids: each processed record is gone exactly when
    its reply confirmed the close, the records after a thrown call stay, and records of
    other symbols stay.
  */
  lemma CloseEffect(s: seq<Order>, symbol: string, replies: seq<Remote<CloseReply>>)
    requires UniqueIds(s)
    ensures var found := OfSymbol(s, symbol);
            var k := FirstFailure(replies, |found|);
            var after := WithoutIds(s, ClosedIds(found, replies, k));
            && (forall j :: 0 <= j < k ==> (found[j] in after <==> !Confirmed(ReplyAt(replies, j).reply)))
            && (forall j :: k <= j < |found| ==> found[j] in after)
            && (forall o :: o in s && o.symbol != symbol ==> o in after)
  {
    var found := OfSymbol(s, symbol);
    var k := FirstFailure(replies, |found|);
    var closed := ClosedIds(found, replies, k);
    OfSymbolMembers(s, symbol);
    OfSymbolKeepsUniqueIds(s, symbol);
    forall j | 0 <= j < |found|
      ensures found[j].id in closed <==> j < k && Confirmed(ReplyAt(replies, j).reply)
    {
      ClosedIdsMembers(found, replies, k, found[j].id);
    }
    forall o | o in s && o.symbol != symbol ensures o.id !in closed {
      ClosedIdsMembers(found, replies, k, o.id);
    }
  }

  /** Filtering by symbol keeps ids unique. */
  lemma {:induction false} OfSymbolKeepsUniqueIds(s: seq<Order>, symbol: string)
    requires UniqueIds(s)
    ensures UniqueIds(OfSymbol(s, symbol))
  {
    if s != [] {
      var t := s[1..];
      assert UniqueIds(t) by {
        forall i, j | 0 <= i < j < |t| ensures t[i].id != t[j].id {
          assert t[i] == s[i + 1] && t[j] == s[j + 1];
        }
      }
      OfSymbolKeepsUniqueIds(t, symbol);
      OfSymbolMembers(t, symbol);
      if s[0].symbol == symbol {
        var rest := OfSymbol(t, symbol);
        forall o | o in rest ensures o.id != s[0].id {
          var k :| 0 <= k < |t| && t[k] == o;
          assert s[k + 1] == o;
        }
        var r := [s[0]] + rest;
        forall i, j | 0 <= i < j < |r| ensures r[i].id != r[j].id {
          if i == 0 {
            assert r[j] == rest[j - 1] && r[j] in rest;
          } else {
            assert r[i] == rest[i - 1] && r[j] == rest[j - 1];
          }
        }
      }
    }
  }

  // ---------------------------------------------------------------------------
  // Modify by symbol
  // ---------------------------------------------------------------------------

  /** The record with its stop loss moved to its entry price. */
  function BreakEven(o: Order): (b: Order)
    ensures b.stopLoss == o.entryPrice
    ensures b.id == o.id && b.symbol == o.symbol && b.side == o.side
    ensures b.entryPrice == o.entryPrice && b.takeProfit == o.takeProfit
  {
    o.(stopLoss := o.entryPrice)
  }

  /**
    The parameters sent for one record: with break-even, stop loss and stop price at the
    entry price and the recorded take profit; otherwise the truthy ones of the supplied
    take profit and stop loss.
  */
  function ParamsFor(o: Order, breakEven: bool, takeProfit: Option<real>, stopLoss: Option<real>): (p: ModParams)
    ensures breakEven ==> p == ModParams(Some(o.takeProfit), Some(o.entryPrice), Some(o.entryPrice))
    ensures !breakEven ==> p.stopPrice == None
    ensures !breakEven ==> p.takeProfit == (if Truthy(takeProfit) then takeProfit else None)
    ensures !breakEven ==> p.stopLoss == (if Truthy(stopLoss) then stopLoss else None)
  {
    if breakEven then ModParams(Some(o.takeProfit), Some(o.entryPrice), Some(o.entryPrice))
    else
      var p := ModParams(None, None, None);
      var p := if Truthy(takeProfit) then p.(takeProfit := takeProfit) else p;
      if Truthy(stopLoss) then p.(stopLoss := stopLoss) else p
  }

  /** One PATCH call: the order it targets and its body. */
  datatype PatchRequest = PatchRequest(orderId: OrderId, body: PatchBody)

  /** The PATCH calls for the first `n` records of the batch. */
  function Patches(found: seq<Order>, n: nat, breakEven: bool,
                   takeProfit: Option<real>, stopLoss: Option<real>): (ps: seq<PatchRequest>)
    requires n <= |found|
    ensures |ps| == n
    ensures forall j :: 0 <= j < n ==> ps[j].orderId == found[j].id
  {
    seq(n, j requires 0 <= j < n => PatchRequest(found[j].id, ModifyBody(ParamsFor(found[j], breakEven, takeProfit, stopLoss))))
  }

  /** The batch handed to the ledger: the records, each moved to break-even when asked. */
  function Persisted(found: seq<Order>, breakEven: bool): (batch: seq<Order>)
    ensures |batch| == |found|
    ensures forall j :: 0 <= j < |found| ==> batch[j].id == found[j].id
  {
    if breakEven then seq(|found|, j requires 0 <= j < |found| => BreakEven(found[j])) else found
  }

  /**
    The loop of the modify handler over the records found: for each record in order, move
    the local copy to break-even when asked, then send its modify call; a call that throws
    stops the loop. Returns the local copies (the batch to persist) and the calls made.
  */
  method SendModifications(found: seq<Order>, breakEven: bool, takeProfit: Option<real>,
                           stopLoss: Option<real>, replies: seq<Remote<()>>)
    returns (batch: seq<Order>, requests: seq<PatchRequest>, failedAt: Option<nat>)
    ensures var k := FirstFailure(replies, |found|);
            && failedAt == (if k < |found| then Some(k) else None)
            && requests == Patches(found, if k < |found| then k + 1 else k, breakEven, takeProfit, stopLoss)
            && (k == |found| ==> batch == Persisted(found, breakEven))
  {
    batch := found;
    requests := [];
    var i := 0;
    while i < |batch|
      invariant |batch| == |found| && 0 <= i <= |found|
      invariant FirstFailure(replies, i) == i
      invariant requests == Patches(found, i, breakEven, takeProfit, stopLoss)
      invariant forall j :: 0 <= j < |found| ==>
        batch[j] == if breakEven && j < i then BreakEven(found[j]) else found[j]
    {
      var order := batch[i];
      var params := ParamsFor(order, breakEven, takeProfit, stopLoss);
      if breakEven {
        batch := batch[i := order.(stopLoss := order.entryPrice)];
      }
      requests := requests + [PatchRequest(order.id, ModifyBody(params))];
      if ReplyAt(replies, i).Fail? {
        FirstFailureStable(replies, i + 1, |found|);
        return batch, requests, Some(i);
      }
      i := i + 1;
    }
    failedAt := None;
  }

  /**
    `PATCH /modifyTrade`. With no record for the symbol: no remote call and no change.
    Otherwise one modify call per record in ledger order; a call that throws ends the
    handler before anything is written, so the ledger is unchanged. When every call has
    returned, the batch is written once with a replace by id.
  */
  method ModifyTrade(ledger: Ledger, symbol: string, takeProfit: Option<real>, stopLoss: Option<real>,
                     breakEven: bool, replies: seq<Remote<()>>)
    returns (outcome: BatchOutcome, requests: seq<PatchRequest>)
    requires ledger.Valid()
    modifies ledger
    ensures ledger.Valid() && ledger.readable == old(ledger.readable)
    ensures var found := OfSymbol(old(ledger.orders), symbol);
            found == [] ==>
              outcome == NoOrders && requests == [] && ledger.orders == old(ledger.orders)
    ensures var found := OfSymbol(old(ledger.orders), symbol);
            var k := FirstFailure(replies, |found|);
            found != [] && k < |found| ==>
              && outcome == Aborted(k)
              && requests == Patches(found, k + 1, breakEven, takeProfit, stopLoss)
              && ledger.orders == old(ledger.orders)
    ensures var found := OfSymbol(old(ledger.orders), symbol);
            var k := FirstFailure(replies, |found|);
            found != [] && k == |found| ==>
              && outcome == Completed
              && requests == Patches(found, |found|, breakEven, takeProfit, stopLoss)
              && ledger.orders == ReplaceById(old(ledger.orders), Persisted(found, breakEven))
  {
    var found := ledger.FindBySymbol(symbol);
    if found == [] {
      return NoOrders, [];
    }
    var batch, failedAt;
    batch, requests, failedAt := SendModifications(found, breakEven, takeProfit, stopLoss, replies);
    if failedAt.Some? {
      return Aborted(failedAt.value), requests;
    }
    // The file was readable when the records were found, so the write cannot throw.
    var res := ledger.SaveModified(batch);
    assert res == Pass;
    outcome := Completed;
  }

  /** A break-even request sends stop loss and stop price at the entry price, the recorded take profit, and GTC. */
  lemma BreakEvenRequest(o: Order, takeProfit: Option<real>, stopLoss: Option<real>)
    requires o.entryPrice != 0.0 && o.takeProfit != 0.0
    ensures ModifyBody(ParamsFor(o, true, takeProfit, stopLoss)) ==
            PatchBody(Some(o.takeProfit), Some(o.entryPrice), Some(o.entryPrice), "GTC")
  {
  }

  /** Without break-even only the truthy supplied take profit and stop loss are sent, and never a stop price. */
  lemma PlainRequest(o: Order, takeProfit: Option<real>, stopLoss: Option<real>)
    ensures ModifyBody(ParamsFor(o, false, takeProfit, stopLoss)) ==
            PatchBody(KeepTruthy(takeProfit), KeepTruthy(stopLoss), None, "GTC")
  {
  }

  /** The ledger with every record of the symbol moved to break-even. */
  function BreakEvenWhere(s: seq<Order>, symbol: string): (r: seq<Order>)
    ensures |r| == |s|
  {
    seq(|s|, i requires 0 <= i < |s| => if s[i].symbol == symbol then BreakEven(s[i]) else s[i])
  }

  /**
    With unique ids, a completed break-even modify moves the stop loss of exactly the
    records of that symbol to their entry price and leaves every other record as it was.
  */
  lemma BreakEvenPersisted(s: seq<Order>, symbol: string)
    requires UniqueIds(s)
    ensures ReplaceById(s, Persisted(OfSymbol(s, symbol), true)) == BreakEvenWhere(s, symbol)
  {
    var found := OfSymbol(s, symbol);
    var batch := Persisted(found, true);
    var r := ReplaceById(s, batch);
    OfSymbolMembers(s, symbol);
    forall i | 0 <= i < |s| ensures r[i] == BreakEvenWhere(s, symbol)[i] {
      var k := FirstIndexWithId(batch, s[i].id);
      if k < |batch| {
        assert found[k] in found;
        var m :| 0 <= m < |s| && s[m] == found[k];
        assert s[m].id == s[i].id;
        assert m == i;
      }
    }
  }

  /** With unique ids, a completed modify without break-even leaves the ledger as it was. */
  lemma PlainModifyKeepsLedger(s: seq<Order>, symbol: string)
    requires UniqueIds(s)
    ensures ReplaceById(s, Persisted(OfSymbol(s, symbol), false)) == s
  {
    OfSymbolMembers(s, symbol);
    ReplaceBySubsetIsIdentity(s, OfSymbol(s, symbol));
  }
}
