/**
 * The inventory table with its append-only movement log, and every logged way to move stock.
 * A row is keyed by its book: the schema makes bookId unique.
 */
module Inventory {
  import opened Options

  type BookId = string
  /** Request validation admits quantities of at least one. */
  type Quantity = q: int | 1 <= q witness 1

  datatype Item = Item(bookId: BookId, quantity: Quantity)
  datatype MovementType = IN | OUT | ADJUST
  datatype LogEntry = LogEntry(kind: MovementType, change: int, beforeQty: int, afterQty: int)
  datatype Row = Row(quantity: int, log: seq<LogEntry>)
  type Rows = map<BookId, Row>

  // ----- Specification -----

  function Move(rows: Rows, b: BookId, change: int, kind: MovementType): Rows
    requires b in rows
  {
    var q := rows[b].quantity;
    rows[b := Row(q + change, rows[b].log + [LogEntry(kind, change, q, q + change)])]
  }

  function Decrement(rows: Rows, it: Item): Option<Rows> {
    if it.bookId !in rows || rows[it.bookId].quantity < it.quantity then None
    else Some(Move(rows, it.bookId, 0 - it.quantity, OUT))
  }

  function Increase(rows: Rows, it: Item): Option<Rows> {
    if it.bookId !in rows then None else Some(Move(rows, it.bookId, it.quantity, IN))
  }

  /** Take every item in turn; one refusal refuses the whole transaction. */
  function Reserve(rows: Rows, items: seq<Item>): Option<Rows> {
    if items == [] then Some(rows)
    else match Reserve(rows, items[..|items| - 1])
      case None => None
      case Some(r) => Decrement(r, items[|items| - 1])
  }

  /** Put every item back in turn; a book without a row is skipped. */
  function Release(rows: Rows, items: seq<Item>): Rows {
    if items == [] then rows
    else
      var r := Release(rows, items[..|items| - 1]);
      match Increase(r, items[|items| - 1])
      case None => r
      case Some(r') => r'
  }

  /** Units of one book across a whole item list. */
  function Demand(items: seq<Item>, b: BookId): nat {
    if items == [] then 0
    else Demand(items[..|items| - 1], b) + Units(items[|items| - 1], b)
  }

  function Units(it: Item, b: BookId): nat {
    if it.bookId == b then it.quantity else 0
  }

  /** Every listed book is stocked, with its total demand covered. */
  ghost predicate Affordable(rows: Rows, items: seq<Item>) {
    forall it | it in items :: it.bookId in rows && Demand(items, it.bookId) <= rows[it.bookId].quantity
  }

  predicate Stocked(rows: Rows, items: seq<Item>) {
    forall it | it in items :: it.bookId in rows
  }

  function Quantities(rows: Rows): map<BookId, int> {
    map b | b in rows :: rows[b].quantity
  }

  /** The movement log of a row is one unbroken chain from zero to the current quantity. */
  ghost predicate Chain(r: Row) {
    && 0 <= r.quantity
    && (r.log == [] ==> r.quantity == 0)
    && (r.log != [] ==> r.log[0].beforeQty == 0 && r.log[|r.log| - 1].afterQty == r.quantity)
    && (forall i | 0 <= i < |r.log| :: Sound(r.log[i]))
    && (forall i, j | 0 <= i < |r.log| && j == i + 1 < |r.log| :: r.log[i].afterQty == r.log[j].beforeQty)
  }

  predicate Sound(e: LogEntry) {
    && 0 <= e.beforeQty && 0 <= e.afterQty
    && e.beforeQty + e.change == e.afterQty
    && match e.kind
       case IN => e.change > 0
       case OUT => e.change < 0
       case ADJUST => e.change != 0
  }

  ghost predicate Ledger(rows: Rows) {
    forall b | b in rows :: Chain(rows[b])
  }

  function Changes(log: seq<LogEntry>): int {
    if log == [] then 0 else Changes(log[..|log| - 1]) + log[|log| - 1].change
  }

  // ----- Demand -----

  lemma {:induction false} DemandOfListed(items: seq<Item>, b: BookId)
    ensures Demand(items, b) > 0 <==> exists it :: it in items && it.bookId == b
  {
    if items != [] {
      var n := |items| - 1;
      DemandOfListed(items[..n], b);
      if Demand(items, b) > 0 {
        if items[n].bookId == b {
          assert items[n] in items;
        } else {
          var it :| it in items[..n] && it.bookId == b;
          assert it in items;
        }
      }
      if it :| it in items && it.bookId == b {
        if it != items[n] {
          assert it in items[..n];
        }
      }
    }
  }

  lemma {:induction false} DemandWithout(items: seq<Item>, j: nat, b: BookId)
    requires j < |items|
    ensures Demand(items, b) == Demand(items[..j] + items[j + 1..], b) + Units(items[j], b)
  {
    var n := |items| - 1;
    if j == n {
      assert items[..j] + items[j + 1..] == items[..n];
    } else {
      var shorter := items[..j] + items[j + 1..];
      DemandWithout(items[..n], j, b);
      assert shorter[..n - 1] == items[..n][..j] + items[..n][j + 1..];
      assert shorter[n - 1] == items[n];
    }
  }

  /** Demand depends on which items are listed, not on their order. */
  lemma {:induction false} DemandPermuted(xs: seq<Item>, ys: seq<Item>, b: BookId)
    requires multiset(xs) == multiset(ys)
    ensures Demand(xs, b) == Demand(ys, b)
  {
    assert |xs| == |multiset(xs)| == |multiset(ys)| == |ys|;
    if xs != [] {
      var n := |xs| - 1;
      assert xs == xs[..n] + [xs[n]];
      assert xs[n] in multiset(ys);
      var j :| 0 <= j < |ys| && ys[j] == xs[n];
      assert ys == ys[..j] + [ys[j]] + ys[j + 1..];
      assert multiset(ys) == multiset(ys[..j] + ys[j + 1..]) + multiset{ys[j]};
      assert multiset(xs[..n]) == multiset(xs) - multiset{xs[n]};
      DemandPermuted(xs[..n], ys[..j] + ys[j + 1..], b);
      DemandWithout(ys, j, b);
    }
  }

  // ----- What reservation and release do -----

  /**
   * All-or-nothing reservation succeeds exactly when each book's total demand is covered,
   * however the demand is split over repeated lines, and then takes exactly that demand.
   */
  lemma {:induction false} ReserveExact(rows: Rows, items: seq<Item>)
    ensures Reserve(rows, items).Some? <==> Affordable(rows, items)
    ensures Reserve(rows, items).Some? ==>
              var r := Reserve(rows, items).value;
              r.Keys == rows.Keys && forall b | b in rows :: r[b].quantity == rows[b].quantity - Demand(items, b)
  {
    if items != [] {
      var n := |items| - 1;
      var init, last := items[..n], items[n];
      assert items == init + [last];
      ReserveExact(rows, init);
      forall it | it in init
        ensures Demand(init, it.bookId) <= Demand(items, it.bookId)
      {}
      if Affordable(rows, items) {
        forall it | it in init
          ensures it.bookId in rows && Demand(init, it.bookId) <= rows[it.bookId].quantity
        {
          assert it in items;
        }
        assert last in items;
      } else if Affordable(rows, init) {
        var it :| it in items && !(it.bookId in rows && Demand(items, it.bookId) <= rows[it.bookId].quantity);
        assert it == last || it in init;
      }
    }
  }

  /** Release adds back exactly the listed demand, whatever happened in between. */
  lemma {:induction false} ReleaseExact(rows: Rows, items: seq<Item>)
    ensures Release(rows, items).Keys == rows.Keys
    ensures forall b | b in rows :: Release(rows, items)[b].quantity == rows[b].quantity + Demand(items, b)
  {
    if items != [] {
      ReleaseExact(rows, items[..|items| - 1]);
    }
  }

  lemma AffordablePermuted(rows: Rows, xs: seq<Item>, ys: seq<Item>)
    requires multiset(xs) == multiset(ys) && Affordable(rows, xs)
    ensures Affordable(rows, ys)
  {
    forall it | it in ys
      ensures it.bookId in rows && Demand(ys, it.bookId) <= rows[it.bookId].quantity
    {
      assert it in multiset(xs);
      assert it in xs;
      DemandPermuted(xs, ys, it.bookId);
    }
  }

  /** The order of the lines changes neither the outcome nor the final stock. */
  lemma ReserveOrderIrrelevant(rows: Rows, xs: seq<Item>, ys: seq<Item>)
    requires multiset(xs) == multiset(ys)
    ensures Reserve(rows, xs).Some? <==> Reserve(rows, ys).Some?
    ensures Reserve(rows, xs).Some? ==> Quantities(Reserve(rows, xs).value) == Quantities(Reserve(rows, ys).value)
  {
    ReserveExact(rows, xs);
    ReserveExact(rows, ys);
    if Affordable(rows, xs) {
      AffordablePermuted(rows, xs, ys);
      forall b ensures Demand(xs, b) == Demand(ys, b) { DemandPermuted(xs, ys, b); }
      SameQuantities(Reserve(rows, xs).value, Reserve(rows, ys).value);
    } else if Affordable(rows, ys) {
      AffordablePermuted(rows, ys, xs);
    }
  }

  lemma SameQuantities(a: Rows, b: Rows)
    ensures Quantities(a) == Quantities(b) <==>
            a.Keys == b.Keys && forall x | x in a :: a[x].quantity == b[x].quantity
  {
    assert Quantities(a).Keys == a.Keys && Quantities(b).Keys == b.Keys;
    if Quantities(a) == Quantities(b) {
      forall x | x in a ensures a[x].quantity == b[x].quantity {
        assert Quantities(a)[x] == Quantities(b)[x];
      }
    }
  }

  /** From any rows with the quantities the reservation left, releasing it in any order restores them all. */
  lemma ReleaseUndoesReserve(rows: Rows, xs: seq<Item>, later: Rows, ys: seq<Item>)
    requires Reserve(rows, xs).Some? && multiset(xs) == multiset(ys)
    requires Quantities(later) == Quantities(Reserve(rows, xs).value)
    ensures Quantities(Release(later, ys)) == Quantities(rows)
  {
    ReserveExact(rows, xs);
    ReleaseExact(later, ys);
    SameQuantities(later, Reserve(rows, xs).value);
    forall b ensures Demand(xs, b) == Demand(ys, b) { DemandPermuted(xs, ys, b); }
  }

  lemma {:induction false} DemandOfDistinct(items: seq<Item>, i: nat)
    requires i < |items|
    requires forall j, k | 0 <= j < k < |items| :: items[j].bookId != items[k].bookId
    ensures Demand(items, items[i].bookId) == items[i].quantity
  {
    var n := |items| - 1;
    if i < n {
      DemandOfDistinct(items[..n], i);
    } else {
      DemandOfListed(items[..n], items[i].bookId);
    }
  }

  /** A list of distinct books checked line by line can be reserved as a whole. */
  lemma LineChecksSuffice(rows: Rows, items: seq<Item>)
    requires forall j, k | 0 <= j < k < |items| :: items[j].bookId != items[k].bookId
    requires forall it | it in items :: it.bookId in rows && it.quantity <= rows[it.bookId].quantity
    ensures Reserve(rows, items).Some?
  {
    forall it | it in items
      ensures Demand(items, it.bookId) <= rows[it.bookId].quantity
    {
      var i :| 0 <= i < |items| && items[i] == it;
      DemandOfDistinct(items, i);
    }
    ReserveExact(rows, items);
  }

  /** A book that came in once. */
  function Stock(b: BookId, quantity: Quantity): Rows {
    map[b := Row(quantity, [LogEntry(IN, quantity, 0, quantity)])]
  }

  /** Distinctness is needed: a repeated line passes the line checks and still overdraws. */
  lemma RepeatedLinesDefeatLineChecks(b: BookId, q: Quantity)
    ensures var items, rows := [Item(b, q), Item(b, q)], Stock(b, q);
            && Ledger(rows)
            && (forall it | it in items :: it.bookId in rows && it.quantity <= rows[it.bookId].quantity)
            && Reserve(rows, items).None?
  {
    var items, rows := [Item(b, q), Item(b, q)], Stock(b, q);
    DemandSplits([Item(b, q)], Item(b, q), b);
    DemandSplits([], Item(b, q), b);
    assert [] + [Item(b, q)] == [Item(b, q)] && [Item(b, q)] + [Item(b, q)] == items;
    assert items[0] in items;
    ReserveExact(rows, items);
  }

  lemma DemandSplits(items: seq<Item>, it: Item, b: BookId)
    ensures Demand(items + [it], b) == Demand(items, b) + Units(it, b)
  {
    assert (items + [it])[..|items|] == items;
  }

  // ----- The ledger -----

  lemma MoveKeepsLedger(rows: Rows, b: BookId, change: int, kind: MovementType)
    requires Ledger(rows) && b in rows
    requires Sound(LogEntry(kind, change, rows[b].quantity, rows[b].quantity + change))
    ensures Ledger(Move(rows, b, change, kind))
  {
    assert Chain(rows[b]);
  }

  lemma {:induction false} ReserveKeepsLedger(rows: Rows, items: seq<Item>)
    requires Ledger(rows) && Reserve(rows, items).Some?
    ensures Ledger(Reserve(rows, items).value)
  {
    if items != [] {
      var n := |items| - 1;
      ReserveKeepsLedger(rows, items[..n]);
      var r := Reserve(rows, items[..n]).value;
      assert Chain(r[items[n].bookId]);
      MoveKeepsLedger(r, items[n].bookId, 0 - items[n].quantity, OUT);
    }
  }

  lemma {:induction false} ReleaseKeepsLedger(rows: Rows, items: seq<Item>)
    requires Ledger(rows)
    ensures Ledger(Release(rows, items))
  {
    if items != [] {
      var n := |items| - 1;
      ReleaseKeepsLedger(rows, items[..n]);
      var r := Release(rows, items[..n]);
      if items[n].bookId in r {
        assert Chain(r[items[n].bookId]);
        MoveKeepsLedger(r, items[n].bookId, items[n].quantity, IN);
      }
    }
  }

  /** Along an unbroken chain the quantity is the sum of every logged change. */
  lemma {:induction false} ChainTelescopes(r: Row)
    requires Chain(r)
    ensures r.quantity == Changes(r.log)
    decreases |r.log|
  {
    if r.log != [] {
      var n := |r.log| - 1;
      var e := r.log[n];
      assert Sound(e);
      if n > 0 {
        assert Sound(r.log[n - 1]);
        assert r.log[n - 1].afterQty == r.log[n].beforeQty;
      }
      ChainTelescopes(Row(e.beforeQty, r.log[..n]));
    }
  }

  /** A write that moves stock without logging always breaks the chain. */
  lemma UnloggedMoveBreaksChain(r: Row, change: int)
    requires Chain(r) && change != 0
    ensures !Chain(r.(quantity := r.quantity + change))
  {}

  // ----- Manual movements -----

  /** createInventoryLog: sign checks, then the movement of the requested type. */
  function Manual(rows: Rows, b: BookId, kind: MovementType, change: int): Option<Rows> {
    match kind
    case IN =>
      if change <= 0 || b !in rows then None else Some(Move(rows, b, change, IN))
    case OUT =>
      if change <= 0 || b !in rows || rows[b].quantity < change then None else Some(Move(rows, b, -change, OUT))
    case ADJUST =>
      if change == 0 || b !in rows || rows[b].quantity + change < 0 then None else Some(Move(rows, b, change, ADJUST))
  }

  lemma ManualKeepsLedger(rows: Rows, b: BookId, kind: MovementType, change: int)
    requires Ledger(rows) && Manual(rows, b, kind, change).Some?
    ensures Ledger(Manual(rows, b, kind, change).value)
  {
    assert Chain(rows[b]);
    MoveKeepsLedger(rows, b, if kind == OUT then -change else change, kind);
  }

  // ----- The repository -----

  class InventoryRepository {
    var rows: Rows

    constructor ()
      ensures rows == map[]
    {
      rows := map[];
    }

    method Create(bookId: BookId) returns (ok: bool)
      modifies this
      ensures ok <==> bookId !in old(rows)
      ensures rows == if ok then old(rows)[bookId := Row(0, [])] else old(rows)
    {
      if bookId in rows {
        return false;
      }
      rows := rows[bookId := Row(0, [])];
      ok := true;
    }

    /** The guarded decrement without a log entry: never below zero, but off the ledger. */
    method DecrementStockByTx(it: Item) returns (count: nat)
      modifies this
      ensures count == if it.bookId in old(rows) && it.quantity <= old(rows)[it.bookId].quantity then 1 else 0
      ensures count == 0 ==> rows == old(rows)
      ensures count == 1 ==>
                && rows.Keys == old(rows).Keys
                && rows[it.bookId].quantity == old(rows)[it.bookId].quantity - it.quantity >= 0
                && (forall b | b in rows && b != it.bookId :: rows[b] == old(rows)[b])
                && (Chain(old(rows)[it.bookId]) ==> !Chain(rows[it.bookId]))
    {
      if it.bookId !in rows || rows[it.bookId].quantity < it.quantity {
        return 0;
      }
      if Chain(rows[it.bookId]) {
        UnloggedMoveBreaksChain(rows[it.bookId], 0 - it.quantity);
      }
      rows := rows[it.bookId := rows[it.bookId].(quantity := rows[it.bookId].quantity - it.quantity)];
      count := 1;
    }

    method DecrementStockAndLogByTx(it: Item) returns (count: nat)
      modifies this
      ensures Decrement(old(rows), it).None? ==> count == 0 && rows == old(rows)
      ensures Decrement(old(rows), it).Some? ==> count == 1 && rows == Decrement(old(rows), it).value
    {
      if it.bookId !in rows || rows[it.bookId].quantity < it.quantity {
        return 0;
      }
      var inventory := rows[it.bookId];
      var afterQty := inventory.quantity - it.quantity;
      var entry := LogEntry(OUT, 0 - it.quantity, inventory.quantity, afterQty);
      rows := rows[it.bookId := Row(afterQty, inventory.log + [entry])];
      count := 1;
    }

    method IncreaseStockAndLogByTx(it: Item) returns (count: nat)
      modifies this
      ensures Increase(old(rows), it).None? ==> count == 0 && rows == old(rows)
      ensures Increase(old(rows), it).Some? ==> count == 1 && rows == Increase(old(rows), it).value
    {
      if it.bookId !in rows {
        return 0;
      }
      var inventory := rows[it.bookId];
      var afterQty := inventory.quantity + it.quantity;
      var entry := LogEntry(IN, it.quantity, inventory.quantity, afterQty);
      rows := rows[it.bookId := Row(afterQty, inventory.log + [entry])];
      count := 1;
    }

    /** One transaction: the first refused item rolls back every earlier one. */
    method ReserveStock(items: seq<Item>) returns (ok: bool)
      modifies this
      ensures ok <==> Affordable(old(rows), items)
      ensures !ok ==> rows == old(rows)
      ensures ok ==> Reserve(old(rows), items) == Some(rows)
      ensures ok ==> rows.Keys == old(rows).Keys
      ensures ok ==> forall b | b in rows :: rows[b].quantity == old(rows)[b].quantity - Demand(items, b)
      ensures old(Ledger(rows)) ==> Ledger(rows)
    {
      var atBegin := rows;
      for i := 0 to |items|
        invariant Reserve(atBegin, items[..i]) == Some(rows)
      {
        assert items[..i + 1][..i] == items[..i];
        var count := DecrementStockAndLogByTx(items[i]);
        if count == 0 {
          rows := atBegin;
          assert items[..i + 1] + items[i + 1..] == items;
          ReserveRefusedEarly(atBegin, items, i + 1);
          ReserveExact(atBegin, items);
          return false;
        }
      }
      assert items[..|items|] == items;
      ReserveExact(atBegin, items);
      if Ledger(atBegin) {
        ReserveKeepsLedger(atBegin, items);
      }
      ok := true;
    }

    method ReleaseStock(items: seq<Item>)
      modifies this
      ensures rows == Release(old(rows), items)
      ensures rows.Keys == old(rows).Keys
      ensures forall b | b in rows :: rows[b].quantity == old(rows)[b].quantity + Demand(items, b)
      ensures old(Ledger(rows)) ==> Ledger(rows)
    {
      ghost var atBegin := rows;
      for i := 0 to |items|
        invariant rows == Release(atBegin, items[..i])
      {
        assert items[..i + 1][..i] == items[..i];
        var _ := IncreaseStockAndLogByTx(items[i]);
      }
      assert items[..|items|] == items;
      ReleaseExact(atBegin, items);
      if Ledger(atBegin) {
        ReleaseKeepsLedger(atBegin, items);
      }
    }

    method IncreaseStock(bookId: BookId, kind: MovementType, change: int) returns (ok: bool)
      modifies this
      ensures ok <==> bookId in old(rows)
      ensures rows == if ok then Move(old(rows), bookId, change, kind) else old(rows)
    {
      if bookId !in rows {
        return false;
      }
      var beforeQty := rows[bookId].quantity;
      var afterQty := beforeQty + change;
      rows := rows[bookId := Row(afterQty, rows[bookId].log + [LogEntry(kind, change, beforeQty, afterQty)])];
      ok := true;
    }

    /** Withdraws the absolute value of the requested change, never past zero. */
    method DecreaseStock(bookId: BookId, kind: MovementType, change: int) returns (ok: bool)
      modifies this
      ensures ok <==> bookId in old(rows) && Abs(change) <= old(rows)[bookId].quantity
      ensures rows == if ok then Move(old(rows), bookId, 0 - Abs(change), kind) else old(rows)
    {
      if bookId !in rows {
        return false;
      }
      var beforeQty := rows[bookId].quantity;
      var afterQty := beforeQty - Abs(change);
      if afterQty < 0 {
        return false;
      }
      rows := rows[bookId := Row(afterQty, rows[bookId].log + [LogEntry(kind, 0 - Abs(change), beforeQty, afterQty)])];
      ok := true;
    }

    method AdjustStock(bookId: BookId, kind: MovementType, change: int) returns (ok: bool)
      modifies this
      ensures ok <==> bookId in old(rows) && 0 <= old(rows)[bookId].quantity + change
      ensures rows == if ok then Move(old(rows), bookId, change, kind) else old(rows)
    {
      if bookId !in rows {
        return false;
      }
      var beforeQty := rows[bookId].quantity;
      var afterQty := beforeQty + change;
      if afterQty < 0 {
        return false;
      }
      rows := rows[bookId := Row(afterQty, rows[bookId].log + [LogEntry(kind, change, beforeQty, afterQty)])];
      ok := true;
    }

    /** The service's entry point: refuse a wrong sign, then dispatch on the movement type. */
    method CreateInventoryLog(bookId: BookId, kind: MovementType, change: int) returns (ok: bool)
      modifies this
      ensures ok <==>
                && bookId in old(rows)
                && (kind == IN ==> 0 < change)
                && (kind == OUT ==> 0 < change <= old(rows)[bookId].quantity)
                && (kind == ADJUST ==> change != 0 && 0 <= old(rows)[bookId].quantity + change)
      ensures ok ==>
                var q := old(rows)[bookId].quantity;
                var after := if kind == OUT then q - change else q + change;
                rows == old(rows)[bookId := Row(after, old(rows)[bookId].log + [LogEntry(kind, after - q, q, after)])]
      ensures ok <==> Manual(old(rows), bookId, kind, change).Some?
      ensures rows == if ok then Manual(old(rows), bookId, kind, change).value else old(rows)
      ensures old(Ledger(rows)) ==> Ledger(rows)
    {
      ghost var atBegin := rows;
      if kind == IN {
        if change <= 0 {
          return false;
        }
        ok := IncreaseStock(bookId, kind, change);
      } else if kind == OUT {
        if change <= 0 {
          return false;
        }
        ok := DecreaseStock(bookId, kind, change);
      } else {
        if change == 0 {
          return false;
        }
        ok := AdjustStock(bookId, kind, change);
      }
      if ok && Ledger(atBegin) {
        ManualKeepsLedger(atBegin, bookId, kind, change);
      }
    }
  }

  function Abs(x: int): nat {
    if x < 0 then -x else x
  }

  /** A list whose prefix is refused is refused. */
  lemma {:induction false} ReserveRefusedEarly(rows: Rows, items: seq<Item>, i: nat)
    requires i <= |items| && Reserve(rows, items[..i]).None?
    ensures Reserve(rows, items).None?
  {
    if i == |items| {
      assert items[..i] == items;
    } else {
      var n := |items| - 1;
      assert items[..n][..i] == items[..i];
      ReserveRefusedEarly(rows, items[..n], i);
    }
  }
}
