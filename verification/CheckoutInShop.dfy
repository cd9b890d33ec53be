/**
 * The orchestrator's checkout is a run of the shop: each of its calls is one shop transition, so
 * whatever holds of every shop run holds of the checkouts the orchestrator performs.
 */
module CheckoutInShop {
  import opened Options
  import opened Inventory
  import opened Saga
  import opened CheckoutSaga
  import Lifecycle
  import Vouchers
  import Shop

  function Counts(vs: map<VoucherId, Vouchers.Voucher>): map<VoucherId, int> {
    map v | v in vs :: vs[v].usedCount
  }

  function Limits(vs: map<VoucherId, Vouchers.Voucher>): map<VoucherId, int> {
    map v | v in vs :: vs[v].usageLimit
  }

  /** The shop's account of a checkout with k steps standing. */
  function Account(info: Lifecycle.OrderInfo, requested: Option<VoucherId>, k: nat): Shop.Checkout {
    Shop.Checkout(info, requested, Shop.Running(k), false, k >= 1 && requested.Some?, k >= 2,
                  if k >= 3 then Some(Lifecycle.NewOrder(info)) else None, false)
  }

  /** Shop and saga see the same stock, voucher counts and limits, and the shop has checkout i at c. */
  ghost predicate Agree(s: Shop.Shop, i: nat, w: World, c: Shop.Checkout) {
    && i < |s.checkouts| && s.checkouts[i] == c
    && s.rows == w.rows && s.used == Counts(w.vouchers) && s.limits == Limits(w.vouchers)
  }

  predicate SameRequest(w: World, info: Lifecycle.OrderInfo) {
    info.items == w.items && info.subtotalAmount == w.subtotalAmount
  }

  /** One step of checkout i; before the first one it checks its voucher, which no other step does. */
  function Turn(s: Shop.Shop, i: nat, call: Shop.Call): Shop.Shop {
    Shop.Next(Shop.Next(s, Shop.CheckVoucher(i)), Shop.Execute(i, call))
  }

  /** k steps of checkout i, each returning. */
  function Forth(s: Shop.Shop, i: nat, k: nat): Shop.Shop {
    if k == 0 then s else Turn(Forth(s, i, k - 1), i, Shop.Returns)
  }

  /** The compensation of step k - 1 returns, or fails and is swallowed. */
  function Pop(f: Faults, k: nat): Shop.Call {
    if (k == 1 && f.unvoucher) || (k == 2 && f.unstock) || (k == 3 && f.unrecord) then Shop.Throws else Shop.Returns
  }

  /** k pops of the rollback stack of checkout i. */
  function Back(s: Shop.Shop, i: nat, f: Faults, k: nat): Shop.Shop
    decreases k
  {
    if k == 0 then s else Back(Shop.Next(s, Shop.Compensate(i, Pop(f, k))), i, f, k - 1)
  }

  // ----- One call -----

  lemma CountsBumped(vs: map<VoucherId, Vouchers.Voucher>, v: VoucherId, d: int)
    requires v in vs
    ensures Counts(Vouchers.Bump(vs, v, d)) == Shop.Bump(Counts(vs), v, d)
  {}

  lemma LimitsBumped(vs: map<VoucherId, Vouchers.Voucher>, v: VoucherId, d: int)
    requires v in vs
    ensures Limits(Vouchers.Bump(vs, v, d)) == Limits(vs)
  {}

  /** The account as the step finds it, its voucher checked if it is to be applied. */
  function Checked(info: Lifecycle.OrderInfo, requested: Option<VoucherId>, k: nat, passed: bool): Shop.Checkout {
    Account(info, requested, k).(checked := k == 0 && requested.Some? && passed)
  }

  predicate FreeUse(w: World) {
    w.requested.Some? && w.requested.value in w.vouchers
    && w.vouchers[w.requested.value].usedCount < w.vouchers[w.requested.value].usageLimit
  }

  lemma CheckedAgrees(s: Shop.Shop, i: nat, w: World, info: Lifecycle.OrderInfo, k: nat)
    requires k < 3 && Agree(s, i, w, Account(info, w.requested, k))
    ensures Agree(Shop.Next(s, Shop.CheckVoucher(i)), i, w, Checked(info, w.requested, k, FreeUse(w)))
  {}

  lemma CompletedCall(w: World, info: Lifecycle.OrderInfo, f: Faults, k: nat)
    requires k < 3 && SameRequest(w, info) && Steps(f)[k].execute(w).Done?
    ensures var w' := Steps(f)[k].execute(w).state;
            && SameRequest(w', info) && w'.requested == w.requested && Limits(w'.vouchers) == Limits(w.vouchers)
            && Shop.ExecuteStep(w.rows, Counts(w.vouchers), Checked(info, w.requested, k, FreeUse(w)), Shop.Returns)
               == Shop.Effect(w'.rows, Counts(w'.vouchers), Account(info, w.requested, k + 1))
  {
    if k == 0 && w.requested.Some? {
      CountsBumped(w.vouchers, w.requested.value, 1);
      LimitsBumped(w.vouchers, w.requested.value, 1);
    }
  }

  /** One pop of the orchestrator's stack and of the shop's do the same. */
  ghost predicate SamePop(w: World, info: Lifecycle.OrderInfo, c: Shop.Checkout, f: Faults, k: nat, w': World) {
    var eff := Shop.CompensateStep(w.rows, Counts(w.vouchers), c, Pop(f, k));
    && eff.rows == w'.rows && eff.used == Counts(w'.vouchers) && Limits(w'.vouchers) == Limits(w.vouchers)
    && k >= 1 && Unwinding(w', info, eff.c, k - 1) && w'.requested == w.requested
    && (eff.c.faulty <==> c.faulty || (Pop(f, k) == Shop.Throws && (k == 1 ==> w.requested.Some?)))
  }

  lemma ReleasingCall(w: World, info: Lifecycle.OrderInfo, c: Shop.Checkout, f: Faults)
    requires Unwinding(w, info, c, 1)
    ensures SamePop(w, info, c, f, 1, UnapplyVoucher(w, f.unvoucher).state)
  {
    if w.requested.Some? && !f.unvoucher {
      var v := w.requested.value;
      CountsBumped(w.vouchers, v, -1);
      LimitsBumped(w.vouchers, v, -1);
      assert UnapplyVoucher(w, false).state == w.(vouchers := Vouchers.Bump(w.vouchers, v, -1));
      assert Shop.CompensateStep(w.rows, Counts(w.vouchers), c, Shop.Returns)
          == Shop.Effect(w.rows, Shop.Bump(Counts(w.vouchers), v, -1), c.(phase := Shop.RollingBack(0), applied := false));
    } else {
      assert UnapplyVoucher(w, f.unvoucher).state == w;
    }
  }

  lemma RestoringCall(w: World, info: Lifecycle.OrderInfo, c: Shop.Checkout, f: Faults)
    requires Unwinding(w, info, c, 2)
    ensures SamePop(w, info, c, f, 2, UnreserveInventory(w, f.unstock).state)
  {}

  lemma CancellingCall(w: World, info: Lifecycle.OrderInfo, c: Shop.Checkout, f: Faults)
    requires Unwinding(w, info, c, 3)
    ensures SamePop(w, info, c, f, 3, CancelOrderRecord(w, f.unrecord).state)
  {}

  lemma CompensatingCall(w: World, info: Lifecycle.OrderInfo, c: Shop.Checkout, f: Faults, k: nat)
    requires 0 < k && Unwinding(w, info, c, k)
    ensures SamePop(w, info, c, f, k, Steps(f)[k - 1].compensate(w).state)
  {
    if k == 1 {
      ReleasingCall(w, info, c, f);
    } else if k == 2 {
      RestoringCall(w, info, c, f);
    } else {
      CancellingCall(w, info, c, f);
    }
  }

  lemma CompletedStepIsAShopStep(s: Shop.Shop, i: nat, w: World, info: Lifecycle.OrderInfo, f: Faults, k: nat)
    requires k < 3 && SameRequest(w, info) && Agree(s, i, w, Account(info, w.requested, k))
    requires Steps(f)[k].execute(w).Done?
    ensures var w' := Steps(f)[k].execute(w).state;
            && SameRequest(w', info) && w'.requested == w.requested
            && Agree(Turn(s, i, Shop.Returns), i, w', Account(info, w.requested, k + 1))
  {
    CheckedAgrees(s, i, w, info, k);
    CompletedCall(w, info, f, k);
  }

  lemma FailedStepIsAShopStep(s: Shop.Shop, i: nat, w: World, info: Lifecycle.OrderInfo, f: Faults, k: nat)
    requires k < 3 && SameRequest(w, info) && Agree(s, i, w, Account(info, w.requested, k))
    requires Steps(f)[k].execute(w).Threw?
    ensures Agree(Turn(s, i, Shop.Throws), i, Steps(f)[k].execute(w).state,
                  Account(info, w.requested, k).(phase := Shop.RollingBack(k)))
  {
    CheckedAgrees(s, i, w, info, k);
  }

  /** What the compensations still to run will read. */
  predicate Unwinding(w: World, info: Lifecycle.OrderInfo, c: Shop.Checkout, k: nat) {
    && c.phase == Shop.RollingBack(k) && k <= 3
    && c.voucher == w.requested && c.info == info && SameRequest(w, info)
    && (k >= 1 ==> w.voucherId == w.requested && (w.requested.Some? ==> w.requested.value in w.vouchers))
    && (k >= 2 ==> w.reservedItems == w.items)
    && (k >= 3 ==> c.order.Some?)
  }

  lemma CompensationIsAShopStep(s: Shop.Shop, i: nat, w: World, info: Lifecycle.OrderInfo, c: Shop.Checkout,
                                f: Faults, k: nat)
    requires 0 < k && Unwinding(w, info, c, k) && Agree(s, i, w, c)
    ensures var w' := Steps(f)[k - 1].compensate(w).state;
            var s' := Shop.Next(s, Shop.Compensate(i, Pop(f, k)));
            && i < |s'.checkouts| && Unwinding(w', info, s'.checkouts[i], k - 1) && Agree(s', i, w', s'.checkouts[i])
            && w'.requested == w.requested
            && (s'.checkouts[i].faulty <==> c.faulty || (Pop(f, k) == Shop.Throws && (k == 1 ==> w.requested.Some?)))
  {
    CompensatingCall(w, info, c, f, k);
  }

  // ----- Whole runs -----

  lemma {:induction false} ForwardInShop(s: Shop.Shop, i: nat, w: World, info: Lifecycle.OrderInfo, f: Faults, k: nat)
    requires k <= 3 && SameRequest(w, info) && Agree(s, i, w, Account(info, w.requested, 0))
    requires ContextAt(0, w) && After(Steps(f), w, k).Done?
    ensures var w' := After(Steps(f), w, k).state;
            && SameRequest(w', info) && w'.requested == w.requested && ContextAt(k, w')
            && Agree(Forth(s, i, k), i, w', Account(info, w.requested, k))
  {
    if k > 0 {
      ForwardInShop(s, i, w, info, f, k - 1);
      var w1 := After(Steps(f), w, k - 1).state;
      CompletedStepIsAShopStep(Forth(s, i, k - 1), i, w1, info, f, k - 1);
      StepsKeepContext(Steps(f), f);
      assert Establishes(Steps(f)[k - 1], k - 1, ContextAt);
    }
  }

  lemma {:induction false} BackInShop(s: Shop.Shop, i: nat, w: World, info: Lifecycle.OrderInfo, c: Shop.Checkout,
                                      f: Faults, k: nat)
    requires Unwinding(w, info, c, k) && Agree(s, i, w, c)
    ensures var s' := Back(s, i, f, k);
            var w' := Undo(Steps(f), w, k);
            && i < |s'.checkouts| && Agree(s', i, w', s'.checkouts[i])
            && Shop.Aborted(s'.checkouts[i])
            && (s'.checkouts[i].faulty <==> c.faulty || VoucherStands(w, f, k) || StockStands(f, k) || RecordStands(f, k))
    decreases k
  {
    if k > 0 {
      CompensationIsAShopStep(s, i, w, info, c, f, k);
      var s' := Shop.Next(s, Shop.Compensate(i, Pop(f, k)));
      BackInShop(s', i, Steps(f)[k - 1].compensate(w).state, info, s'.checkouts[i], f, k - 1);
    }
  }

  function Failing(s: Shop.Shop, i: nat, k: nat): Shop.Shop {
    if k < 3 then Turn(s, i, Shop.Throws) else Shop.Next(s, Shop.Emit(i, false))
  }

  /** The shop events of a checkout that completes k steps and then fails, and of its rollback. */
  function FailedRun(s: Shop.Shop, i: nat, f: Faults, k: nat): Shop.Shop {
    Back(Failing(Forth(s, i, k), i, k), i, f, k)
  }

  /** A failed checkout of the orchestrator leaves the stock and voucher counts of its run in the shop, aborted, and at fault exactly if a compensation with something to undo failed. */
  lemma FailedCheckoutInShop(s: Shop.Shop, i: nat, w: World, info: Lifecycle.OrderInfo, f: Faults, k: nat)
    requires SameRequest(w, info) && Agree(s, i, w, Account(info, w.requested, 0)) && ContextAt(0, w)
    requires k <= 3 && After(Steps(f), w, k).Done?
    requires k < 3 ==> After(Steps(f), w, k + 1).Threw?
    ensures var s' := FailedRun(s, i, f, k);
            && i < |s'.checkouts|
            && Agree(s', i, Undo(Steps(f), FailedIn(Steps(f), w, k), k), s'.checkouts[i])
            && Shop.Aborted(s'.checkouts[i])
            && (s'.checkouts[i].faulty <==> VoucherStands(w, f, k) || StockStands(f, k) || RecordStands(f, k))
  {
    ForwardInShop(s, i, w, info, f, k);
    var w1 := After(Steps(f), w, k).state;
    var failed := Failing(Forth(s, i, k), i, k);
    if k < 3 {
      FailedStepIsAShopStep(Forth(s, i, k), i, w1, info, f, k);
      FailedStepChangesNothing(f, w, k);
    }
    BackInShop(failed, i, w1, info, failed.checkouts[i], f, k);
  }

  /** A successful checkout of the orchestrator is the shop's committed run, with the order the record describes. */
  lemma SuccessfulCheckoutInShop(s: Shop.Shop, i: nat, w: World, info: Lifecycle.OrderInfo, f: Faults)
    requires SameRequest(w, info) && Agree(s, i, w, Account(info, w.requested, 0)) && ContextAt(0, w)
    requires info.discountAmount == w.promotionDiscountAmount + VoucherDiscount(w)
    requires After(Steps(f), w, 3).Done?
    ensures var w' := After(Steps(f), w, 3).state;
            && Agree(Shop.Next(Forth(s, i, 3), Shop.Emit(i, true)), i, w',
                     Account(info, w.requested, 3).(phase := Shop.Committed))
            && w'.newOrderId in w'.orders
            && w'.orders[w'.newOrderId].totalAmount == Lifecycle.NewOrder(info).totalAmount
  {
    ForwardInShop(s, i, w, info, f, 3);
    SuccessfulCheckout(w, f);
  }
}
