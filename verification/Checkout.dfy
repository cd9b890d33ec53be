/** The three steps of the checkout saga, and what a failed checkout leaves behind. */
module CheckoutSaga {
  import opened Options
  import opened Inventory
  import opened Saga
  import Vouchers

  type VoucherId = Vouchers.VoucherCode
  type OrderId = string

  datatype OrderRecord = OrderRecord(
    cancelled: bool, voucher: Option<VoucherId>, items: seq<Item>,
    subtotalAmount: int, discountAmount: int, totalAmount: int)

  datatype World = World(
    rows: Rows, vouchers: map<VoucherId, Vouchers.Voucher>, orders: map<OrderId, OrderRecord>,
    // the request
    items: seq<Item>, subtotalAmount: int, promotionDiscountAmount: int, requested: Option<VoucherId>,
    newOrderId: OrderId, now: Vouchers.Time,
    // what the steps hand over
    voucherId: Option<VoucherId>, voucherDiscountAmount: int, reservedItems: seq<Item>, createdOrder: Option<OrderId>)

  /** Which calls fail: the three steps, and the three compensations, which swallow their errors. */
  datatype Faults = Faults(voucher: bool, stock: bool, record: bool, unvoucher: bool, unstock: bool, unrecord: bool)

  // ----- Steps; `fails` stands for a refused or broken call, which changes nothing -----

  function AmountForVoucher(w: World): int {
    Vouchers.AmountForVoucher(w.subtotalAmount, w.promotionDiscountAmount)
  }

  predicate VoucherAccepted(w: World, v: VoucherId) {
    v in w.vouchers && Vouchers.Check(w.vouchers[v], AmountForVoucher(w), w.now).None?
  }

  function ApplyVoucher(w: World, fails: bool): Outcome<World> {
    if w.requested.None? then Done(w.(voucherDiscountAmount := 0))
    else if fails || !VoucherAccepted(w, w.requested.value) then Threw(w)
    else
      var v := w.requested.value;
      Done(w.(vouchers := Vouchers.Bump(w.vouchers, v, 1), voucherId := Some(v),
              voucherDiscountAmount := Vouchers.CalculateDiscount(w.vouchers[v], AmountForVoucher(w))))
  }

  function UnapplyVoucher(w: World, fails: bool): Outcome<World> {
    if fails || w.voucherId.None? || w.voucherId.value !in w.vouchers then Done(w)
    else Done(w.(vouchers := Vouchers.Bump(w.vouchers, w.voucherId.value, -1)))
  }

  function ReserveInventory(w: World, fails: bool): Outcome<World> {
    if fails then Threw(w)
    else match Reserve(w.rows, w.items)
      case None => Threw(w)
      case Some(r) => Done(w.(rows := r, reservedItems := w.items))
  }

  function UnreserveInventory(w: World, fails: bool): Outcome<World> {
    if !fails && |w.reservedItems| > 0 then Done(w.(rows := Release(w.rows, w.reservedItems))) else Done(w)
  }

  function NewRecord(w: World): OrderRecord {
    var totalDiscount := w.promotionDiscountAmount + w.voucherDiscountAmount;
    OrderRecord(false, w.voucherId, w.items, w.subtotalAmount, totalDiscount, Vouchers.Max(0, w.subtotalAmount - totalDiscount))
  }

  function CreateOrderRecord(w: World, fails: bool): Outcome<World> {
    if fails || w.newOrderId in w.orders then Threw(w)
    else Done(w.(orders := w.orders[w.newOrderId := NewRecord(w)], createdOrder := Some(w.newOrderId)))
  }

  function CancelOrderRecord(w: World, fails: bool): Outcome<World> {
    if fails || w.createdOrder.None? || w.createdOrder.value !in w.orders then Done(w)
    else
      var id := w.createdOrder.value;
      Done(w.(orders := w.orders[id := w.orders[id].(cancelled := true)]))
  }

  function Steps(f: Faults): seq<Step<World>> {
    [ Step((w: World) => ApplyVoucher(w, f.voucher), (w: World) => UnapplyVoucher(w, f.unvoucher)),
      Step((w: World) => ReserveInventory(w, f.stock), (w: World) => UnreserveInventory(w, f.unstock)),
      Step((w: World) => CreateOrderRecord(w, f.record), (w: World) => CancelOrderRecord(w, f.unrecord)) ]
  }

  // ----- The steps as the service runs them -----

  class SagaSteps {
    var w: World

    constructor (w: World)
      ensures this.w == w
    {
      this.w := w;
    }

    method ExecuteApplyVoucher(fails: bool) returns (ok: bool)
      modifies this
      ensures ok <==>
                old(w).requested.Some? ==>
                  && !fails && old(w).requested.value in old(w).vouchers
                  && var left := old(w).subtotalAmount - old(w).promotionDiscountAmount;
                     Vouchers.Usable(old(w).vouchers[old(w).requested.value], if left < 0 then 0 else left, old(w).now)
      ensures ok && w.requested.None? ==> w == old(w).(voucherDiscountAmount := 0)
      ensures ok && w.requested.Some? ==>
                && w.voucherId == w.requested
                && Vouchers.UsedOnceMore(old(w).vouchers, w.vouchers, w.requested.value)
                && var v, left := old(w).vouchers[w.requested.value], old(w).subtotalAmount - old(w).promotionDiscountAmount;
                   Vouchers.ValidDiscountRule(v) ==> Vouchers.TakesOff(v, if left < 0 then 0 else left, w.voucherDiscountAmount)
      ensures w == ApplyVoucher(old(w), fails).state
    {
      if w.requested.None? {
        w := w.(voucherDiscountAmount := 0);
        return true;
      }
      if fails {
        return false;
      }
      var v := w.requested.value;
      var amountForVoucher := Vouchers.Max(0, w.subtotalAmount - w.promotionDiscountAmount);
      var service := new Vouchers.VouchersService();
      service.vouchers := w.vouchers;
      var result := service.ApplyVoucher(v, amountForVoucher, w.now);
      if result.Refused? {
        return false;
      }
      w := w.(vouchers := service.vouchers);
      w := w.(voucherId := Some(v));
      w := w.(voucherDiscountAmount := result.discountAmount);
      ok := true;
    }

    method ExecuteReserveInventory(fails: bool) returns (ok: bool)
      modifies this
      ensures ok <==> !fails && Affordable(old(w).rows, old(w).items)
      ensures w == ReserveInventory(old(w), fails).state
      ensures ok ==> w.reservedItems == old(w).items
    {
      ReserveExact(w.rows, w.items);
      if fails {
        return false;
      }
      var repository := new InventoryRepository();
      repository.rows := w.rows;
      ok := repository.ReserveStock(w.items);
      if ok {
        w := w.(rows := repository.rows);
        w := w.(reservedItems := w.items);
      }
    }

    method CompensateReserveInventory(fails: bool)
      modifies this
      ensures w == UnreserveInventory(old(w), fails).state
      ensures forall b | b in old(w).rows :: b in w.rows &&
                w.rows[b].quantity == old(w).rows[b].quantity + if fails then 0 else Demand(old(w).reservedItems, b)
    {
      ReleaseExact(w.rows, w.reservedItems);
      if |w.reservedItems| > 0 {
        var repository := new InventoryRepository();
        repository.rows := w.rows;
        if !fails { // a failed transaction is logged and swallowed
          repository.ReleaseStock(w.reservedItems);
        }
        w := w.(rows := repository.rows);
      }
    }

    method CompensateApplyVoucher(fails: bool)
      modifies this
      ensures w == UnapplyVoucher(old(w), fails).state
      ensures w.vouchers == if !fails && w.voucherId.Some? && w.voucherId.value in old(w).vouchers
                            then Vouchers.Bump(old(w).vouchers, w.voucherId.value, -1) else old(w).vouchers
    {
      if w.voucherId.Some? {
        var service := new Vouchers.VouchersService();
        service.vouchers := w.vouchers;
        if !fails {
          var _ := service.ReleaseVoucher(w.voucherId.value); // a missing voucher is swallowed too
        }
        w := w.(vouchers := service.vouchers);
      }
    }

    method CompensateCreateOrderRecord(fails: bool)
      modifies this
      ensures w == CancelOrderRecord(old(w), fails).state
      ensures LiveOrders(w.orders) == if !fails && w.createdOrder.Some? then LiveOrders(old(w).orders) - {w.createdOrder.value}
                                      else LiveOrders(old(w).orders)
    {
      if w.createdOrder.Some? && !fails {
        var id := w.createdOrder.value;
        if id in w.orders {
          w := w.(orders := w.orders[id := w.orders[id].(cancelled := true)]);
        }
      }
    }

    method ExecuteCreateOrderRecord(fails: bool) returns (ok: bool)
      modifies this
      ensures ok <==> !fails && old(w).newOrderId !in old(w).orders
      ensures w == CreateOrderRecord(old(w), fails).state
      ensures ok ==>
                && w.createdOrder == Some(w.newOrderId)
                && var off := w.promotionDiscountAmount + w.voucherDiscountAmount;
                   LiveOrders(w.orders) == LiveOrders(old(w).orders)[w.newOrderId :=
                     OrderRecord(false, w.voucherId, w.items, w.subtotalAmount, off,
                                 if w.subtotalAmount < off then 0 else w.subtotalAmount - off)]
    {
      if fails || w.newOrderId in w.orders {
        return false;
      }
      var totalDiscount := w.promotionDiscountAmount + w.voucherDiscountAmount;
      var totalAmount := Vouchers.Max(0, w.subtotalAmount - totalDiscount);
      w := w.(orders := w.orders[w.newOrderId :=
        OrderRecord(false, w.voucherId, w.items, w.subtotalAmount, totalDiscount, totalAmount)]);
      w := w.(createdOrder := Some(w.newOrderId));
      ok := true;
    }
  }

  // ----- A failed checkout leaves no trace but the log and a cancelled record -----

  function LiveOrders(orders: map<OrderId, OrderRecord>): map<OrderId, OrderRecord> {
    map id | id in orders && !orders[id].cancelled :: orders[id]
  }

  predicate SameBooks(t: World, s: World) {
    && Quantities(t.rows) == Quantities(s.rows)
    && t.vouchers == s.vouchers
    && LiveOrders(t.orders) == LiveOrders(s.orders)
  }

  /** The context holds exactly what the first k steps put there. */
  predicate ContextAt(k: nat, w: World) {
    && (k == 0 ==> w.voucherId.None?)
    && (k >= 1 ==> w.voucherId == w.requested && (w.requested.Some? ==> w.requested.value in w.vouchers))
    && w.reservedItems == (if k >= 2 then w.items else [])
    && (k >= 2 ==> Stocked(w.rows, w.items))
    && w.createdOrder == (if k >= 3 then Some(w.newOrderId) else None)
  }

  /** As good as: the same books, and the context entries the remaining compensations will read. */
  predicate AsGood(k: nat, t: World, s: World) {
    && SameBooks(t, s)
    && (k >= 1 ==> t.voucherId == s.voucherId)
    && (k >= 2 ==> t.reservedItems == s.reservedItems)
    && (k >= 3 ==> t.createdOrder == s.createdOrder)
  }

  lemma VoucherStepUndone(fails: bool, a: World, b: World)
    requires ContextAt(0, a) && ApplyVoucher(a, fails).Done? && AsGood(1, b, ApplyVoucher(a, fails).state)
    ensures AsGood(0, UnapplyVoucher(b, false).state, a)
  {
    if a.requested.Some? {
      assert UnapplyVoucher(b, false).state.vouchers == a.vouchers;
    }
  }

  lemma StockStepUndone(fails: bool, a: World, b: World)
    requires ContextAt(1, a) && ReserveInventory(a, fails).Done? && AsGood(2, b, ReserveInventory(a, fails).state)
    ensures AsGood(1, UnreserveInventory(b, false).state, a)
  {
    ReleaseUndoesReserve(a.rows, a.items, b.rows, a.items);
    if a.items == [] {
      assert Reserve(a.rows, a.items) == Some(a.rows);
    }
  }

  lemma RecordStepUndone(fails: bool, a: World, b: World)
    requires ContextAt(2, a) && CreateOrderRecord(a, fails).Done? && AsGood(3, b, CreateOrderRecord(a, fails).state)
    ensures AsGood(2, CancelOrderRecord(b, false).state, a)
  {
    var a' := CreateOrderRecord(a, fails).state;
    var b' := CancelOrderRecord(b, false).state;
    var id := a.newOrderId;
    assert id in LiveOrders(a'.orders);
    assert id in LiveOrders(b.orders);
    assert LiveOrders(a'.orders) == LiveOrders(a.orders)[id := a'.orders[id]];
    assert LiveOrders(b'.orders) == LiveOrders(b.orders) - {id};
    assert LiveOrders(a.orders)[id := a'.orders[id]] - {id} == LiveOrders(a.orders);
  }

  lemma StepsKeepContext(steps: seq<Step<World>>, f: Faults)
    requires steps == Steps(f)
    ensures forall i | 0 <= i < |steps| :: Establishes(steps[i], i, ContextAt)
  {
    forall a | ContextAt(1, a) && ReserveInventory(a, f.stock).Done?
      ensures ContextAt(2, ReserveInventory(a, f.stock).state)
    {
      ReserveExact(a.rows, a.items);
    }
    assert Establishes(steps[0], 0, ContextAt) && Establishes(steps[1], 1, ContextAt) && Establishes(steps[2], 2, ContextAt);
  }

  lemma StepsAreUndone(steps: seq<Step<World>>, f: Faults)
    requires steps == Steps(f) && CompensationsWork(f)
    ensures forall i | 0 <= i < |steps| :: LeftInverse(steps[i], i, ContextAt, AsGood)
  {
    assert LeftInverse(steps[0], 0, ContextAt, AsGood) by {
      forall a, b | ContextAt(0, a) && ApplyVoucher(a, f.voucher).Done? && AsGood(1, b, ApplyVoucher(a, f.voucher).state)
        ensures AsGood(0, UnapplyVoucher(b, false).state, a)
      {
        VoucherStepUndone(f.voucher, a, b);
      }
    }
    assert LeftInverse(steps[1], 1, ContextAt, AsGood) by {
      forall a, b | ContextAt(1, a) && ReserveInventory(a, f.stock).Done? && AsGood(2, b, ReserveInventory(a, f.stock).state)
        ensures AsGood(1, UnreserveInventory(b, false).state, a)
      {
        StockStepUndone(f.stock, a, b);
      }
    }
    assert LeftInverse(steps[2], 2, ContextAt, AsGood) by {
      forall a, b | ContextAt(2, a) && CreateOrderRecord(a, f.record).Done? && AsGood(3, b, CreateOrderRecord(a, f.record).state)
        ensures AsGood(2, CancelOrderRecord(b, false).state, a)
      {
        RecordStepUndone(f.record, a, b);
      }
    }
  }

  /** A step of this saga that throws has changed nothing. */
  lemma FailedStepChangesNothing(f: Faults, w: World, k: nat)
    requires k < 3 && After(Steps(f), w, k).Done? && After(Steps(f), w, k + 1).Threw?
    ensures After(Steps(f), w, k + 1).state == After(Steps(f), w, k).state
  {}

  /**
   * The checkout, run alone through the orchestrator. It succeeds exactly when it is feasible. When it
   * fails, what stays behind is exactly what failed compensations should have undone: the books are as
   * before if and only if there was no such thing.
   */
  method Checkout(w: World, f: Faults, emitFails: bool) returns (ok: bool, completed: nat, w': World)
    requires w.voucherId.None? && w.reservedItems == [] && w.createdOrder.None?
    ensures ok <==> !emitFails && Feasible(w, f)
    ensures ok ==> CheckedOut(w, w')
    ensures var left := w.subtotalAmount - w.promotionDiscountAmount;
            var shown := if left < 0 then 0 else left;
            && (ok <==> !emitFails && !f.stock && !f.record && w.newOrderId !in w.orders && Affordable(w.rows, w.items)
                        && (w.requested.Some? ==>
                              && !f.voucher && w.requested.value in w.vouchers
                              && Vouchers.Usable(w.vouchers[w.requested.value], shown, w.now)))
            && (ok ==> PlacedFor(w, w', shown))
    ensures completed <= 3 && (!ok ==> LeftBehind(w, w', f, completed))
    ensures !ok ==> (SameBooks(w', w) <==> NothingToUndo(w, f, completed))
  {
    var orchestrator := new OrderSagaOrchestrator<World>(w);
    var steps := Steps(f);
    ok, completed := orchestrator.Execute(steps, emitFails);
    w' := orchestrator.state;
    SuccessfulCheckout(w, f);
    FeasibleMeans(w, f);
    if ok {
      CheckedOutMeans(w, w');
    }
    if completed < 3 {
      ThrownStaysThrown(steps, w, completed);
    }
    if !ok {
      FailedCheckoutLeaves(w, f, completed);
    }
  }

  lemma ThrownStaysThrown(steps: seq<Step<World>>, w: World, k: nat)
    requires k < |steps| && After(steps, w, k + 1).Threw?
    ensures After(steps, w, |steps|).Threw?
    decreases |steps| - k
  {
    if k + 1 < |steps| {
      assert After(steps, w, k + 2).Threw?;
      ThrownStaysThrown(steps, w, k + 1);
    }
  }

  predicate CompensationsWork(f: Faults) {
    !f.unvoucher && !f.unstock && !f.unrecord
  }

  lemma FailedCheckout(w: World, f: Faults, k: nat)
    requires CompensationsWork(f)
    requires w.voucherId.None? && w.reservedItems == [] && w.createdOrder.None?
    requires k <= 3 && After(Steps(f), w, k).Done?
    requires k < 3 ==> After(Steps(f), w, k + 1).Threw?
    ensures SameBooks(Undo(Steps(f), FailedIn(Steps(f), w, k), k), w)
  {
    var steps := Steps(f);
    StepsKeepContext(steps, f);
    StepsAreUndone(steps, f);
    if k < 3 {
      FailedStepChangesNothing(f, w, k);
    }
    RollbackRestores(steps, w, FailedIn(steps, w, k), k, ContextAt, AsGood);
  }

  /** The discount the requested voucher gives on the amount left by the promotions. */
  function VoucherDiscount(w: World): int {
    if w.requested.Some? && w.requested.value in w.vouchers
    then Vouchers.CalculateDiscount(w.vouchers[w.requested.value], AmountForVoucher(w)) else 0
  }

  predicate CheckedOut(w: World, w': World) {
    && (forall b | b in w.rows :: b in w'.rows && w'.rows[b].quantity == w.rows[b].quantity - Demand(w.items, b))
    && (w.requested.Some? ==>
          VoucherAccepted(w, w.requested.value) && w'.vouchers == Vouchers.Bump(w.vouchers, w.requested.value, 1))
    && (w.requested.None? ==> w'.vouchers == w.vouchers)
    && w.newOrderId !in w.orders
    && w'.orders == w.orders[w.newOrderId := Requested(w)]
  }

  /**
   * A placed order: stock gives up the items, the voucher one use, and the record stores the request with
   * what the voucher takes off the amount it was shown.
   */
  ghost predicate PlacedFor(w: World, w': World, shown: int) {
    && (forall b | b in w.rows :: b in w'.rows && w'.rows[b].quantity == w.rows[b].quantity - Demand(w.items, b))
    && (w.requested.None? ==> w'.vouchers == w.vouchers)
    && (w.requested.Some? ==> Vouchers.UsedOnceMore(w.vouchers, w'.vouchers, w.requested.value))
    && w.newOrderId !in w.orders && w.newOrderId in w'.orders
    && w'.orders == w.orders[w.newOrderId := w'.orders[w.newOrderId]]
    && var o := w'.orders[w.newOrderId];
       && !o.cancelled && o.voucher == w.requested && o.items == w.items && o.subtotalAmount == w.subtotalAmount
       && o.totalAmount == (if o.subtotalAmount < o.discountAmount then 0 else o.subtotalAmount - o.discountAmount)
       && (w.requested.None? ==> o.discountAmount == w.promotionDiscountAmount)
       && (w.requested.Some? && Vouchers.ValidDiscountRule(w.vouchers[w.requested.value]) ==>
             Vouchers.TakesOff(w.vouchers[w.requested.value], shown, o.discountAmount - w.promotionDiscountAmount))
  }

  lemma CheckedOutMeans(w: World, w': World)
    requires CheckedOut(w, w')
    ensures var left := w.subtotalAmount - w.promotionDiscountAmount;
            PlacedFor(w, w', if left < 0 then 0 else left)
  {
    if w.requested.Some? && Vouchers.ValidDiscountRule(w.vouchers[w.requested.value]) {
      Vouchers.DiscountBounded(w.vouchers[w.requested.value], AmountForVoucher(w));
    }
  }

  lemma FeasibleMeans(w: World, f: Faults)
    ensures Feasible(w, f) <==>
            && !f.stock && !f.record && w.newOrderId !in w.orders && Affordable(w.rows, w.items)
            && (w.requested.Some? ==>
                  && !f.voucher && w.requested.value in w.vouchers
                  && var left := w.subtotalAmount - w.promotionDiscountAmount;
                     Vouchers.Usable(w.vouchers[w.requested.value], if left < 0 then 0 else left, w.now))
  {
    if w.requested.Some? && w.requested.value in w.vouchers {
      Vouchers.RefusalMeans(w.vouchers[w.requested.value], AmountForVoucher(w), w.now);
    }
  }

  /** What the checkout needs: the voucher holds, the shelves suffice, the number is new, nothing breaks. */
  ghost predicate Feasible(w: World, f: Faults) {
    && (w.requested.Some? ==> !f.voucher && VoucherAccepted(w, w.requested.value))
    && !f.stock && Affordable(w.rows, w.items)
    && !f.record && w.newOrderId !in w.orders
  }

  lemma StepByStep(w: World, f: Faults, w1: World, w2: World)
    ensures After(Steps(f), w, 1) == ApplyVoucher(w, f.voucher)
    ensures After(Steps(f), w, 1) == Done(w1) ==> After(Steps(f), w, 2) == ReserveInventory(w1, f.stock)
    ensures After(Steps(f), w, 2) == Done(w2) ==> After(Steps(f), w, 3) == CreateOrderRecord(w2, f.record)
  {
    assert After(Steps(f), w, 0) == Done(w);
  }

  lemma SuccessfulCheckout(w: World, f: Faults)
    requires w.voucherId.None?
    ensures After(Steps(f), w, 3).Done? <==> Feasible(w, f)
    ensures Feasible(w, f) ==> CheckedOut(w, After(Steps(f), w, 3).state)
  {
    var w1 := ApplyVoucher(w, f.voucher).state;
    var w2 := ReserveInventory(w1, f.stock).state;
    StepByStep(w, f, w1, w2);
    ReserveExact(w.rows, w.items);
  }

  // ----- What failed compensations leave behind -----

  /** Steps whose compensation failed. */
  predicate VoucherStands(w: World, f: Faults, k: nat) {
    k >= 1 && f.unvoucher && w.requested.Some?
  }

  predicate StockStands(f: Faults, k: nat) {
    k >= 2 && f.unstock
  }

  predicate RecordStands(f: Faults, k: nat) {
    k >= 3 && f.unrecord
  }

  predicate NothingToUndo(w: World, f: Faults, k: nat) {
    !VoucherStands(w, f, k) && !(StockStands(f, k) && w.items != []) && !RecordStands(f, k)
  }

  /** The record the request asks for. */
  function Requested(w: World): OrderRecord {
    var off := w.promotionDiscountAmount + VoucherDiscount(w);
    OrderRecord(false, w.requested, w.items, w.subtotalAmount, off, Vouchers.Max(0, w.subtotalAmount - off))
  }

  /** The books after a failed checkout, given what of its steps still stands. */
  ghost predicate Books(w: World, t: World, voucher: bool, stock: bool, record: bool) {
    && t.rows.Keys == w.rows.Keys
    && (forall b | b in w.rows :: t.rows[b].quantity == w.rows[b].quantity - if stock then Demand(w.items, b) else 0)
    && (voucher ==> w.requested.Some? && w.requested.value in w.vouchers)
    && t.vouchers == (if voucher then Vouchers.Bump(w.vouchers, w.requested.value, 1) else w.vouchers)
    && LiveOrders(t.orders) == if record then LiveOrders(w.orders)[w.newOrderId := Requested(w)] else LiveOrders(w.orders)
  }

  ghost predicate LeftBehind(w: World, w': World, f: Faults, k: nat) {
    Books(w, w', VoucherStands(w, f, k), StockStands(f, k), RecordStands(f, k))
  }

  /** Midway through the rollback of k steps, with the last j still to compensate. */
  ghost predicate Midway(w: World, t: World, f: Faults, j: nat, k: nat) {
    && j <= k <= 3
    && Books(w, t, (j >= 1 && w.requested.Some?) || VoucherStands(w, f, k), j >= 2 || StockStands(f, k), j >= 3 || RecordStands(f, k))
    && (j >= 1 ==> t.voucherId == w.requested)
    && (j >= 2 ==> t.reservedItems == w.items)
    && (j >= 3 ==> t.createdOrder == Some(w.newOrderId))
    && (k >= 3 ==> w.newOrderId !in w.orders)
  }

  lemma VoucherStepStands(w: World, f: Faults, w1: World)
    requires w.voucherId.None? && w.reservedItems == [] && w.createdOrder.None?
    requires ApplyVoucher(w, f.voucher) == Done(w1)
    ensures Midway(w, w1, f, 1, 1) && SameRest(w, w1)
    ensures w1.voucherDiscountAmount == VoucherDiscount(w)
  {}

  /** Applying the voucher leaves stock, orders and the request alone. */
  predicate SameRest(w: World, w1: World) {
    && w1.rows == w.rows && w1.orders == w.orders && w1.items == w.items && w1.newOrderId == w.newOrderId
    && w1.subtotalAmount == w.subtotalAmount && w1.promotionDiscountAmount == w.promotionDiscountAmount
  }

  lemma StockStepStands(w: World, f: Faults, w1: World, w2: World)
    requires Midway(w, w1, f, 1, 1) && SameRest(w, w1)
    requires ReserveInventory(w1, f.stock) == Done(w2)
    ensures Midway(w, w2, f, 2, 2)
    ensures w2 == w1.(rows := w2.rows, reservedItems := w.items)
  {
    ReserveExact(w.rows, w.items);
  }

  lemma RecordStepStands(w: World, f: Faults, w1: World, w2: World, w3: World)
    requires Midway(w, w1, f, 1, 1) && SameRest(w, w1) && w1.voucherDiscountAmount == VoucherDiscount(w)
    requires Midway(w, w2, f, 2, 2) && w2 == w1.(rows := w2.rows, reservedItems := w.items)
    requires CreateOrderRecord(w2, f.record) == Done(w3)
    ensures Midway(w, w3, f, 3, 3)
  {
    NewRecordIsLive(w2, w3);
  }

  lemma CompletedStepsStand(w: World, f: Faults, k: nat)
    requires w.voucherId.None? && w.reservedItems == [] && w.createdOrder.None?
    requires k <= 3 && After(Steps(f), w, k).Done?
    ensures Midway(w, After(Steps(f), w, k).state, f, k, k)
  {
    var w1 := ApplyVoucher(w, f.voucher).state;
    var w2 := ReserveInventory(w1, f.stock).state;
    StepByStep(w, f, w1, w2);
    if k >= 1 {
      VoucherStepStands(w, f, w1);
    }
    if k >= 2 {
      StockStepStands(w, f, w1, w2);
    }
    if k == 3 {
      RecordStepStands(w, f, w1, w2, After(Steps(f), w, 3).state);
    }
  }

  lemma NewRecordIsLive(w: World, w': World)
    requires w.newOrderId !in w.orders && w'.orders == w.orders[w.newOrderId := NewRecord(w)]
    ensures LiveOrders(w'.orders) == LiveOrders(w.orders)[w.newOrderId := NewRecord(w)]
  {}

  lemma UnapplyMovesOn(w: World, t: World, f: Faults, k: nat)
    requires Midway(w, t, f, 1, k)
    ensures Midway(w, UnapplyVoucher(t, f.unvoucher).state, f, 0, k)
  {
    if w.requested.Some? && !f.unvoucher {
      assert UnapplyVoucher(t, false).state.vouchers == w.vouchers;
    }
  }

  lemma UnreserveMovesOn(w: World, t: World, f: Faults, k: nat)
    requires Midway(w, t, f, 2, k)
    ensures Midway(w, UnreserveInventory(t, f.unstock).state, f, 1, k)
  {
    ReleaseExact(t.rows, w.items);
  }

  lemma CancelMovesOn(w: World, t: World, f: Faults, k: nat)
    requires Midway(w, t, f, 3, k)
    ensures Midway(w, CancelOrderRecord(t, f.unrecord).state, f, 2, k)
  {
    if !f.unrecord {
      assert w.newOrderId in LiveOrders(t.orders);
      assert LiveOrders(CancelOrderRecord(t, false).state.orders) == LiveOrders(t.orders) - {w.newOrderId};
      assert w.newOrderId !in LiveOrders(w.orders);
    }
  }

  lemma CompensationMovesOn(w: World, t: World, f: Faults, j: nat, k: nat)
    requires j > 0 && Midway(w, t, f, j, k)
    ensures Midway(w, Steps(f)[j - 1].compensate(t).state, f, j - 1, k)
  {
    if j == 1 {
      UnapplyMovesOn(w, t, f, k);
    } else if j == 2 {
      UnreserveMovesOn(w, t, f, k);
    } else {
      CancelMovesOn(w, t, f, k);
    }
  }

  lemma {:induction false} RollbackMovesOn(w: World, t: World, f: Faults, j: nat, k: nat)
    requires Midway(w, t, f, j, k)
    ensures Midway(w, Undo(Steps(f), t, j), f, 0, k)
    decreases j
  {
    if j > 0 {
      CompensationMovesOn(w, t, f, j, k);
      RollbackMovesOn(w, Steps(f)[j - 1].compensate(t).state, f, j - 1, k);
    }
  }

  /** The converse of a clean failure: the books are as before exactly when every failed compensation had nothing to undo. */
  lemma FailedCheckoutLeaves(w: World, f: Faults, k: nat)
    requires w.voucherId.None? && w.reservedItems == [] && w.createdOrder.None?
    requires k <= 3 && After(Steps(f), w, k).Done?
    requires k < 3 ==> After(Steps(f), w, k + 1).Threw?
    ensures var w' := Undo(Steps(f), FailedIn(Steps(f), w, k), k);
            LeftBehind(w, w', f, k) && (SameBooks(w', w) <==> NothingToUndo(w, f, k))
  {
    CompletedStepsStand(w, f, k);
    if k < 3 {
      FailedStepChangesNothing(f, w, k);
    }
    RollbackMovesOn(w, FailedIn(Steps(f), w, k), f, k, k);
    var w' := Undo(Steps(f), FailedIn(Steps(f), w, k), k);
    SameQuantities(w'.rows, w.rows);
    if StockStands(f, k) && w.items != [] {
      ReservedItemsAreStocked(w, f, k);
      assert w.items[0] in w.items;
      DemandOfListed(w.items, w.items[0].bookId);
      assert w'.rows[w.items[0].bookId].quantity != w.rows[w.items[0].bookId].quantity;
    }
    if RecordStands(f, k) {
      CompletedStepsStand(w, f, 3);
      assert w.newOrderId !in LiveOrders(w.orders) && w.newOrderId in LiveOrders(w'.orders);
    }
    if VoucherStands(w, f, k) {
      assert w'.vouchers[w.requested.value] != w.vouchers[w.requested.value];
    }
  }

  lemma ReservedItemsAreStocked(w: World, f: Faults, k: nat)
    requires k >= 2 && k <= 3 && After(Steps(f), w, k).Done?
    ensures Stocked(w.rows, w.items)
  {
    var w1 := ApplyVoucher(w, f.voucher).state;
    StepByStep(w, f, w1, ReserveInventory(w1, f.stock).state);
    ReserveExact(w.rows, w.items);
  }
}
