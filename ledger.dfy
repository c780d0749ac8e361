/**
  The local order ledger (`tradeIds.json`): an ordered array of order records that
  every operation reads whole; append, remove by id and replace by id also write it
  back whole.
*/
module OrderLedger {
  import opened Common

  type OrderId = string

  /** One ledger record: `{id, symbol, side, entryPrice, takeProfit, stopLoss}`. */
  datatype Order = Order(id: OrderId, symbol: string, side: string,
                         entryPrice: real, takeProfit: real, stopLoss: real)

  /** No two records of the ledger carry the same order id. */
  ghost predicate UniqueIds(s: seq<Order>) {
    forall i, j :: 0 <= i < j < |s| ==> s[i].id != s[j].id
  }

  // ---------------------------------------------------------------------------
  // Filter by symbol (`orders.filter(order => order.symbol === symbol)`)
  // ---------------------------------------------------------------------------

  /** The records of `s` whose symbol is `sym`, in ledger order. */
  function OfSymbol(s: seq<Order>, sym: string): (r: seq<Order>)
    ensures |r| <= |s|
    ensures forall i :: 0 <= i < |r| ==> r[i].symbol == sym
  {
    if s == [] then []
    else if s[0].symbol == sym then [s[0]] + OfSymbol(s[1..], sym)
    else OfSymbol(s[1..], sym)
  }

  /** The filter returns exactly the records with that symbol. */
  lemma {:induction false} OfSymbolMembers(s: seq<Order>, sym: string)
    ensures forall o :: o in OfSymbol(s, sym) <==> o in s && o.symbol == sym
  {
    if s != [] {
      OfSymbolMembers(s[1..], sym);
      assert forall o :: o in s <==> o == s[0] || o in s[1..];
    }
  }

  /** Filtering a concatenation filters each part and keeps their order. */
  lemma {:induction false} OfSymbolAppend(a: seq<Order>, b: seq<Order>, sym: string)
    ensures OfSymbol(a + b, sym) == OfSymbol(a, sym) + OfSymbol(b, sym)
  {
    if a == [] {
      assert a + b == b;
    } else {
      assert (a + b)[1..] == a[1..] + b;
      OfSymbolAppend(a[1..], b, sym);
    }
  }

  /**
    After an append, looking up the new record's symbol gives the earlier matches followed
    by the new record.
  */
  lemma AppendThenFind(s: seq<Order>, o: Order)
    ensures OfSymbol(s + [o], o.symbol) == OfSymbol(s, o.symbol) + [o]
  {
    OfSymbolAppend(s, [o], o.symbol);
    assert OfSymbol([o], o.symbol) == [o] + OfSymbol([o][1..], o.symbol);
  }

  // ---------------------------------------------------------------------------
  // Remove by id (`orders.filter(order => order.id !== orderId)`)
  // ---------------------------------------------------------------------------

  /** The ledger without every record whose id is `id`, the others in their order. */
  function WithoutId(s: seq<Order>, id: OrderId): (r: seq<Order>)
    ensures |r| <= |s|
    ensures forall o :: o in r <==> o in s && o.id != id
  {
    if s == [] then []
    else
      var rest := WithoutId(s[1..], id);
      assert forall o :: o in s <==> o == s[0] || o in s[1..];
      if s[0].id != id then [s[0]] + rest else rest
  }

  /** Removing from a concatenation removes from each part and keeps their order. */
  lemma {:induction false} WithoutIdAppend(a: seq<Order>, b: seq<Order>, id: OrderId)
    ensures WithoutId(a + b, id) == WithoutId(a, id) + WithoutId(b, id)
  {
    if a == [] {
      assert a + b == b;
    } else {
      assert (a + b)[1..] == a[1..] + b;
      WithoutIdAppend(a[1..], b, id);
    }
  }

  /** Removing an id that no record carries leaves the ledger as it was. */
  lemma {:induction false} WithoutAbsentId(s: seq<Order>, id: OrderId)
    requires forall o :: o in s ==> o.id != id
    ensures WithoutId(s, id) == s
  {
    if s != [] {
      assert s[0] in s;
      assert forall o :: o in s[1..] ==> o in s;
      WithoutAbsentId(s[1..], id);
      assert [s[0]] + s[1..] == s;
    }
  }

  /** Removal is idempotent: removing the same id a second time changes nothing. */
  lemma RemoveIdempotent(s: seq<Order>, id: OrderId)
    ensures WithoutId(WithoutId(s, id), id) == WithoutId(s, id)
  {
    WithoutAbsentId(WithoutId(s, id), id);
  }

  /** The ledger shrinks exactly when some record carries the removed id. */
  lemma {:induction false} WithoutIdShrinks(s: seq<Order>, id: OrderId)
    ensures |WithoutId(s, id)| < |s| <==> exists o :: o in s && o.id == id
  {
    if s != [] {
      WithoutIdShrinks(s[1..], id);
      assert forall o :: o in s <==> o == s[0] || o in s[1..];
    }
  }

  /** Removal keeps ids unique. */
  lemma {:induction false} WithoutIdKeepsUniqueIds(s: seq<Order>, id: OrderId)
    requires UniqueIds(s)
    ensures UniqueIds(WithoutId(s, id))
  {
    if s != [] {
      var t := s[1..];
      assert UniqueIds(t) by {
        forall i, j | 0 <= i < j < |t| ensures t[i].id != t[j].id {
          assert t[i] == s[i + 1] && t[j] == s[j + 1];
        }
      }
      WithoutIdKeepsUniqueIds(t, id);
      if s[0].id != id {
        var rest := WithoutId(t, id);
        forall o | o in rest ensures o.id != s[0].id {
          assert o in t;
          var k :| 0 <= k < |t| && t[k] == o;
          assert s[k + 1] == o;
        }
        var r := [s[0]] + rest;
        forall i, j | 0 <= i < j < |r| ensures r[i].id != r[j].id {
          if i == 0 {
            assert r[j] == rest[j - 1] && r[j] in rest;
          } else {
            assert r[i] == rest[i - 1] && r[j] == rest[j - 1];
          }
        }
      }
    }
  }

  // ---------------------------------------------------------------------------
  // Remove a set of ids (the combined effect of several removals)
  // ---------------------------------------------------------------------------

  /** The ledger without every record whose id is in `ids`, the others in their order. */
  function WithoutIds(s: seq<Order>, ids: set<OrderId>): (r: seq<Order>)
    ensures forall o :: o in r <==> o in s && o.id !in ids
  {
    if s == [] then []
    else
      var rest := WithoutIds(s[1..], ids);
      assert forall o :: o in s <==> o == s[0] || o in s[1..];
      if s[0].id !in ids then [s[0]] + rest else rest
  }

  /** Removing no ids at all leaves the ledger as it was. */
  lemma {:induction false} WithoutNoIds(s: seq<Order>)
    ensures WithoutIds(s, {}) == s
  {
    if s != [] {
      WithoutNoIds(s[1..]);
      assert [s[0]] + s[1..] == s;
    }
  }

  /** One more removal by id adds that id to the removed set. */
  lemma {:induction false} WithoutOneMoreId(s: seq<Order>, ids: set<OrderId>, id: OrderId)
    ensures WithoutId(WithoutIds(s, ids), id) == WithoutIds(s, ids + {id})
  {
    if s != [] {
      WithoutOneMoreId(s[1..], ids, id);
    }
  }

  // ---------------------------------------------------------------------------
  // Replace by id (`orders.map(order => modifiedOrders.find(m => m.id === order.id) || order)`)
  // ---------------------------------------------------------------------------

  /** The index of the first record of `batch` with id `id`, or `|batch|` when none has it. */
  function FirstIndexWithId(batch: seq<Order>, id: OrderId): (k: nat)
    ensures k <= |batch|
    ensures forall j :: 0 <= j < k ==> batch[j].id != id
    ensures k < |batch| ==> batch[k].id == id
  {
    if batch == [] then 0
    else if batch[0].id == id then 0
    else 1 + FirstIndexWithId(batch[1..], id)
  }

  /** What one ledger record becomes: the first batch record with its id, or itself. */
  function Replacement(batch: seq<Order>, o: Order): (r: Order)
    ensures r.id == o.id
    ensures forall k ::
      (0 <= k < |batch| && batch[k].id == o.id &&
       (forall j :: 0 <= j < k ==> batch[j].id != o.id)) ==> r == batch[k]
    ensures (forall b :: b in batch ==> b.id != o.id) ==> r == o
  {
    var k := FirstIndexWithId(batch, o.id);
    if k < |batch| then batch[k] else o
  }

  /**
    The ledger after a batch update: same length, same order of ids, each record replaced by
    the first batch record with its id, records of ids absent from the batch untouched, and
    batch records whose id is not in the ledger never added.
  */
  function ReplaceById(s: seq<Order>, batch: seq<Order>): (r: seq<Order>)
    ensures |r| == |s|
    ensures forall i :: 0 <= i < |s| ==> r[i].id == s[i].id
    ensures forall i :: 0 <= i < |s| ==> r[i] == s[i] || r[i] in batch
    ensures forall i :: 0 <= i < |s| && (forall b :: b in batch ==> b.id != s[i].id) ==> r[i] == s[i]
    ensures forall i, k ::
      (0 <= i < |s| && 0 <= k < |batch| && batch[k].id == s[i].id &&
       (forall j :: 0 <= j < k ==> batch[j].id != s[i].id)) ==> r[i] == batch[k]
  {
    seq(|s|, i requires 0 <= i < |s| => Replacement(batch, s[i]))
  }

  /** A batch update keeps ids unique, since it keeps every id in place. */
  lemma ReplaceKeepsUniqueIds(s: seq<Order>, batch: seq<Order>)
    requires UniqueIds(s)
    ensures UniqueIds(ReplaceById(s, batch))
  {
  }

  /**
    With unique ids, a batch made only of records already in the ledger changes nothing:
    each record is replaced by itself.
  */
  lemma ReplaceBySubsetIsIdentity(s: seq<Order>, batch: seq<Order>)
    requires UniqueIds(s)
    requires forall b :: b in batch ==> b in s
    ensures ReplaceById(s, batch) == s
  {
    var r := ReplaceById(s, batch);
    forall i | 0 <= i < |s| ensures r[i] == s[i] {
      ReplacementOfMember(s, batch, i);
    }
  }

  /** With unique ids, a ledger record is replaced by itself when the batch holds only ledger records. */
  lemma ReplacementOfMember(s: seq<Order>, batch: seq<Order>, i: nat)
    requires UniqueIds(s)
    requires forall b :: b in batch ==> b in s
    requires i < |s|
    ensures Replacement(batch, s[i]) == s[i]
  {
    var k := FirstIndexWithId(batch, s[i].id);
    if k < |batch| {
      assert batch[k] in batch;
      var m :| 0 <= m < |s| && s[m] == batch[k];
      assert s[m].id == s[i].id;
    }
  }

  /** Appending a record with a fresh id keeps ids unique. */
  lemma AppendKeepsUniqueIds(s: seq<Order>, o: Order)
    requires UniqueIds(s)
    requires forall p :: p in s ==> p.id != o.id
    ensures UniqueIds(s + [o])
  {
    var r := s + [o];
    forall i, j | 0 <= i < j < |r| ensures r[i].id != r[j].id {
      if j == |s| {
        assert r[i] == s[i] && s[i] in s;
      }
    }
  }

  // ---------------------------------------------------------------------------
  // The ledger file
  // ---------------------------------------------------------------------------

  /**
    The ledger file. `readable` is false while the file is missing or does not parse;
    every operation treats those two cases alike, so the model does not tell them apart.
  */
  class Ledger {
    var readable: bool
    var orders: seq<Order>

    /** An unreadable file holds no records. */
    ghost predicate Valid()
      reads this
    {
      !readable ==> orders == []
    }

    /** A ledger file as found on disk. */
    constructor (readable: bool, orders: seq<Order>)
      requires !readable ==> orders == []
      ensures Valid() && this.readable == readable && this.orders == orders
    {
      this.readable := readable;
      this.orders := orders;
    }

    /**
      `saveTradeOrderDetails`: a missing or unparsable file counts as the empty ledger;
      the record goes at the end and the file is written back.
    */
    method Append(o: Order)
      requires Valid()
      modifies this
      ensures Valid() && readable
      ensures orders == old(orders) + [o]
    {
      var current := if readable then orders else [];
      orders := current + [o];
      readable := true;
    }

    /**
      `findOrdersBySymbol`: the records with that symbol in ledger order, or the empty
      sequence when the file cannot be read.
    */
    method FindBySymbol(sym: string) returns (found: seq<Order>)
      requires Valid()
      ensures found == OfSymbol(orders, sym)
      ensures forall o :: o in found <==> readable && o in orders && o.symbol == sym
    {
      OfSymbolMembers(orders, sym);
      if readable {
        found := OfSymbol(orders, sym);
      } else {
        found := [];
      }
    }

    /**
      `removeTradeOrderById`: throws when the file cannot be read; otherwise drops every
      record with that id and keeps the rest in order.
    */
    method RemoveById(id: OrderId) returns (res: Outcome)
      requires Valid()
      modifies this
      ensures Valid() && readable == old(readable)
      ensures res == if old(readable) then Pass else Thrown
      ensures orders == WithoutId(old(orders), id)
    {
      if !readable {
        return Thrown;
      }
      orders := WithoutId(orders, id);
      res := Pass;
    }

    /**
      `saveModifiedOrders`: throws when the file cannot be read; otherwise replaces each
      record by the first batch record with its id.
    */
    method SaveModified(batch: seq<Order>) returns (res: Outcome)
      requires Valid()
      modifies this
      ensures Valid() && readable == old(readable)
      ensures res == if old(readable) then Pass else Thrown
      ensures orders == ReplaceById(old(orders), batch)
    {
      if !readable {
        return Thrown;
      }
      orders := ReplaceById(orders, batch);
      res := Pass;
    }
  }
}
