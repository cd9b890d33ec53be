/**
 * The whole shop: any number of checkout sagas, committed orders, manual stock movements and new
 * vouchers, interleaved one database transaction at a time. Every call of a saga may succeed, fail
 * without effect, or take effect and lose its reply; every compensation may fail.
 */
module Shop {
  import opened Options
  import opened Sums
  import opened Inventory
  import Lifecycle
  import VoucherRaces

  type VoucherId = string

  /** Where a saga stands: about to run step `next`, with `left` steps on the rollback stack, or done. */
  datatype Phase = Running(next: nat) | RollingBack(left: nat) | Committed

  /**
   * One checkout and the order it creates. `applied` and `reserved` say whether its voucher use and
   * its stock reservation are standing; `checked`, that it saw a free use of its voucher and has not
   * counted it yet; `faulty` records a lost reply or a failed compensation.
   */
  datatype Checkout = Checkout(
    info: Lifecycle.OrderInfo, voucher: Option<VoucherId>, phase: Phase,
    checked: bool, applied: bool, reserved: bool, order: Option<Lifecycle.OrderRow>, faulty: bool)

  /** `manual`: net stock movement entered by hand, per book. */
  datatype Shop = Shop(
    rows: Rows, used: map<VoucherId, int>, limits: map<VoucherId, int>, checkouts: seq<Checkout>, manual: map<BookId, int>)

  datatype Call = Returns | Throws | LosesReply

  datatype Event =
    | CreateRow(b: BookId)
    | MoveByHand(b: BookId, kind: MovementType, change: int)
    | CreateVoucher(v: VoucherId, limit: nat)
    | SetLimit(v: VoucherId, read: int, to: int) // checked against a count read at any earlier time
    | Begin(info: Lifecycle.OrderInfo, voucher: Option<VoucherId>)
    | CheckVoucher(i: nat)
    | Execute(i: nat, call: Call)
    | Emit(i: nat, ok: bool)
    | Compensate(i: nat, call: Call)
    | OnOrder(i: nat, e: Lifecycle.Event)

  // ----- Transitions -----

  function NewCheckout(info: Lifecycle.OrderInfo, voucher: Option<VoucherId>): Checkout {
    Checkout(info, voucher, Running(0), false, false, false, None, false)
  }

  /** What one event leaves of the tables and of the one checkout it concerns. */
  datatype Effect = Effect(rows: Rows, used: map<VoucherId, int>, c: Checkout)

  /** A call that took effect: on to the next step, or into rollback when its reply was lost. */
  function Onward(c: Checkout, k: nat, call: Call): Checkout {
    if call == Returns then c.(phase := Running(k + 1)) else c.(phase := RollingBack(k), faulty := true)
  }

  function Bump(used: map<VoucherId, int>, v: VoucherId, d: int): map<VoucherId, int>
    requires v in used
  {
    used[v := used[v] + d]
  }

  /** The first half of applying a voucher: the saga sees a use that is still free. */
  function CheckStep(s: Shop, c: Checkout): Effect {
    if && c.phase == Running(0) && c.voucher.Some? && c.voucher.value in s.used && c.voucher.value in s.limits
       && s.used[c.voucher.value] < s.limits[c.voucher.value]
    then Effect(s.rows, s.used, c.(checked := true)) else Effect(s.rows, s.used, c)
  }

  /** One step of the saga's forward loop. */
  function ExecuteStep(rows: Rows, used: map<VoucherId, int>, c: Checkout, call: Call): Effect {
    match c.phase
    case Running(0) =>
      if c.voucher.None? then Effect(rows, used, c.(phase := Running(1)))
      else if call == Throws || !c.checked || c.voucher.value !in used
      then Effect(rows, used, c.(phase := RollingBack(0), checked := false))
      else Effect(rows, Bump(used, c.voucher.value, 1), Onward(c.(checked := false, applied := true), 0, call))
    case Running(1) =>
      if call == Throws then Effect(rows, used, c.(phase := RollingBack(1)))
      else (match Reserve(rows, c.info.items)
            case None => Effect(rows, used, c.(phase := RollingBack(1)))
            case Some(r) => Effect(r, used, Onward(c.(reserved := true), 1, call)))
    case Running(2) =>
      if call == Throws then Effect(rows, used, c.(phase := RollingBack(2)))
      else Effect(rows, used, Onward(c.(order := Some(Lifecycle.NewOrder(c.info))), 2, call))
    case _ => Effect(rows, used, c)
  }

  /** One pop of the rollback stack; the errors of a compensation are swallowed. */
  function CompensateStep(rows: Rows, used: map<VoucherId, int>, c: Checkout, call: Call): Effect {
    match c.phase
    case RollingBack(3) =>
      var popped := c.(phase := RollingBack(2));
      if call == Throws || c.order.None? then Effect(rows, used, popped.(faulty := true))
      else Effect(rows, used, popped.(order := Some(Lifecycle.Step(c.info, c.order.value, Lifecycle.Compensate))))
    case RollingBack(2) =>
      var popped := c.(phase := RollingBack(1));
      if call == Throws then Effect(rows, used, popped.(faulty := true))
      else Effect(Release(rows, c.info.items), used, popped.(reserved := false))
    case RollingBack(1) =>
      var popped := c.(phase := RollingBack(0));
      if c.voucher.None? then Effect(rows, used, popped)
      else if call == Throws || c.voucher.value !in used then Effect(rows, used, popped.(faulty := true))
      else Effect(rows, Bump(used, c.voucher.value, -1), popped.(applied := false))
    case _ => Effect(rows, used, c)
  }

  /** The domain event after the last step; if a listener throws, the whole saga rolls back. */
  function EmitStep(rows: Rows, used: map<VoucherId, int>, c: Checkout, ok: bool): Effect {
    if c.phase != Running(3) then Effect(rows, used, c)
    else Effect(rows, used, c.(phase := if ok then Committed else RollingBack(3)))
  }

  /** What the event claims about inventory rows is what the table shows. */
  predicate Truthful(rows: Rows, c: Checkout, e: Lifecycle.Event) {
    && (e.UpdateStatus? ==> e.stocked == Stocked(rows, c.info.items))
    && (e.Cancel? ==> e.stocked == Stocked(rows, c.info.items))
    && !e.Compensate? // only the saga does that
  }

  function OrderStep(rows: Rows, used: map<VoucherId, int>, c: Checkout, e: Lifecycle.Event): Effect {
    if c.order.None? || !Truthful(rows, c, e) then Effect(rows, used, c)
    else
      var o := Lifecycle.Step(c.info, c.order.value, e);
      Effect(if o.released > c.order.value.released then Release(rows, c.info.items) else rows, used, c.(order := Some(o)))
  }

  /** The checkout an event concerns, if any, and what the event makes of it. */
  function EffectOf(s: Shop, c: Checkout, ev: Event): Effect {
    match ev
    case CheckVoucher(_) => CheckStep(s, c)
    case Execute(_, call) => ExecuteStep(s.rows, s.used, c, call)
    case Compensate(_, call) => CompensateStep(s.rows, s.used, c, call)
    case Emit(_, ok) => EmitStep(s.rows, s.used, c, ok)
    case OnOrder(_, e) => OrderStep(s.rows, s.used, c, e)
    case _ => Effect(s.rows, s.used, c)
  }

  predicate Concerns(s: Shop, ev: Event) {
    (ev.CheckVoucher? || ev.Execute? || ev.Compensate? || ev.Emit? || ev.OnOrder?) && ev.i < |s.checkouts|
  }

  function Apply(s: Shop, i: nat, eff: Effect): Shop
    requires i < |s.checkouts|
  {
    s.(rows := eff.rows, used := eff.used, checkouts := s.checkouts[i := eff.c])
  }

  function Next(s: Shop, ev: Event): Shop {
    match ev
    case CreateRow(b) =>
      if b in s.rows then s else s.(rows := s.rows[b := Row(0, [])], manual := s.manual[b := 0])
    case MoveByHand(b, kind, change) =>
      (match Manual(s.rows, b, kind, change)
       case None => s
       case Some(r) =>
         if b !in s.manual then s
         else s.(rows := r, manual := s.manual[b := s.manual[b] + if kind == OUT then -change else change]))
    case CreateVoucher(v, limit) =>
      if v in s.used then s else s.(used := s.used[v := 0], limits := s.limits[v := limit])
    case SetLimit(v, read, to) => if v in s.limits && read <= to then s.(limits := s.limits[v := to]) else s
    case Begin(info, voucher) =>
      s.(checkouts := s.checkouts + [NewCheckout(info, voucher)])
    case _ =>
      if Concerns(s, ev) then Apply(s, ev.i, EffectOf(s, s.checkouts[ev.i], ev)) else s
  }

  const EMPTY := Shop(map[], map[], map[], [], map[])

  function Run(evs: seq<Event>): Shop {
    if evs == [] then EMPTY else Next(Run(evs[..|evs| - 1]), evs[|evs| - 1])
  }

  // ----- What a checkout holds -----

  function Released(c: Checkout): nat {
    if c.order.Some? then c.order.value.released else 0
  }

  function Times(n: nat, units: nat): nat {
    if n == 0 then 0 else Times(n - 1, units) + units
  }

  /** Units of a book out of stock on this checkout's account: reserved, less what its order gave back. */
  function Held(c: Checkout, b: BookId): int {
    (if c.reserved then Demand(c.info.items, b) else 0) - Times(Released(c), Demand(c.info.items, b))
  }

  function Uses(c: Checkout, v: VoucherId): int {
    if c.applied && c.voucher == Some(v) then 1 else 0
  }

  predicate InFlight(c: Checkout) {
    c.phase.Running? || (c.phase.RollingBack? && c.phase.left > 0)
  }

  predicate Aborted(c: Checkout) {
    c.phase == RollingBack(0)
  }

  ghost function HeldOf(b: BookId): Checkout -> int { (c: Checkout) => Held(c, b) }
  ghost function HeldInFlight(b: BookId): Checkout -> int { (c: Checkout) => if InFlight(c) then Held(c, b) else 0 }
  ghost function HeldByOrders(b: BookId): Checkout -> int { (c: Checkout) => if c.phase.Committed? then Held(c, b) else 0 }
  ghost function HeldByAborted(b: BookId): Checkout -> int { (c: Checkout) => if Aborted(c) then Held(c, b) else 0 }
  ghost function HeldSettled(b: BookId): Checkout -> int { (c: Checkout) => if InFlight(c) then 0 else Held(c, b) }

  ghost function UsesOf(v: VoucherId): Checkout -> int { (c: Checkout) => Uses(c, v) }
  ghost function UsesInFlight(v: VoucherId): Checkout -> int { (c: Checkout) => if InFlight(c) then Uses(c, v) else 0 }
  ghost function UsesByOrders(v: VoucherId): Checkout -> int { (c: Checkout) => if c.phase.Committed? then Uses(c, v) else 0 }
  ghost function UsesByAborted(v: VoucherId): Checkout -> int { (c: Checkout) => if Aborted(c) then Uses(c, v) else 0 }
  ghost function UsesSettled(v: VoucherId): Checkout -> int { (c: Checkout) => if InFlight(c) then 0 else Uses(c, v) }

  // ----- Invariant -----

  predicate InStep(c: Checkout) {
    && (c.checked ==> c.phase == Running(0) && c.voucher.Some?)
    && match c.phase
       case Running(k) =>
         && k <= 3 && !c.faulty
         && c.applied == (k >= 1 && c.voucher.Some?)
         && c.reserved == (k >= 2)
         && c.order.Some? == (k >= 3)
       case RollingBack(k) =>
         && k <= 3
         && (k >= 1 ==> c.applied == c.voucher.Some?)
         && (k >= 2 ==> c.reserved)
         && (k >= 3 ==> c.order.Some?)
         && (!c.faulty ==> c.reserved == (k >= 2) && c.applied == (k >= 1 && c.voucher.Some?))
       case Committed => !c.faulty && c.applied == c.voucher.Some? && c.reserved && c.order.Some?
  }

  predicate Backed(rows: Rows, used: map<VoucherId, int>, c: Checkout) {
    && InStep(c)
    && (c.applied || c.checked ==> c.voucher.Some? && c.voucher.value in used)
    && (c.reserved || c.order.Some? ==> Stocked(rows, c.info.items))
  }

  ghost predicate StockBalanced(s: Shop) {
    && s.rows.Keys == s.manual.Keys
    && forall b | b in s.rows :: s.rows[b].quantity == s.manual[b] - Sum(s.checkouts, HeldOf(b))
  }

  ghost predicate UsesBalanced(s: Shop) {
    forall v | v in s.used :: s.used[v] == Sum(s.checkouts, UsesOf(v))
  }

  ghost predicate Valid(s: Shop) {
    && Ledger(s.rows)
    && (forall c | c in s.checkouts :: Backed(s.rows, s.used, c))
    && StockBalanced(s)
    && UsesBalanced(s)
    && s.limits.Keys == s.used.Keys
  }

  // ----- Preservation -----

  /** The effect moves stock and voucher counts by exactly what the checkout's account changes. */
  ghost predicate Balanced(rows: Rows, used: map<VoucherId, int>, c: Checkout, eff: Effect) {
    && eff.rows.Keys == rows.Keys && eff.used.Keys == used.Keys
    && Ledger(eff.rows) && Backed(eff.rows, eff.used, eff.c)
    && (forall b | b in rows :: eff.rows[b].quantity - rows[b].quantity == Held(c, b) - Held(eff.c, b))
    && (forall v | v in used :: eff.used[v] - used[v] == Uses(eff.c, v) - Uses(c, v))
  }

  lemma ApplyKeepsValid(s: Shop, i: nat, eff: Effect)
    requires Valid(s) && i < |s.checkouts| && Balanced(s.rows, s.used, s.checkouts[i], eff)
    ensures Valid(Apply(s, i, eff))
  {
    var s' := Apply(s, i, eff);
    forall b | b in s'.rows
      ensures s'.rows[b].quantity == s'.manual[b] - Sum(s'.checkouts, HeldOf(b))
    {
      SumUpdate(s.checkouts, i, eff.c, HeldOf(b));
    }
    forall v | v in s'.used
      ensures s'.used[v] == Sum(s'.checkouts, UsesOf(v))
    {
      SumUpdate(s.checkouts, i, eff.c, UsesOf(v));
    }
    forall d | d in s'.checkouts
      ensures Backed(s'.rows, s'.used, d)
    {
      if d != eff.c {
        assert Backed(s.rows, s.used, d);
      }
    }
  }

  predicate SameAccount(c: Checkout, c': Checkout) {
    c'.info == c.info && c'.voucher == c.voucher
  }

  lemma NothingMoves(rows: Rows, used: map<VoucherId, int>, c: Checkout, c': Checkout)
    requires Ledger(rows) && Backed(rows, used, c') && SameAccount(c, c')
    requires c'.reserved == c.reserved && Released(c') == Released(c) && c'.applied == c.applied
    ensures Balanced(rows, used, c, Effect(rows, used, c'))
  {}

  lemma StockIsTaken(rows: Rows, used: map<VoucherId, int>, c: Checkout, c': Checkout)
    requires Ledger(rows) && Reserve(rows, c.info.items).Some? && SameAccount(c, c')
    requires InStep(c') && (c'.applied || c'.checked ==> c'.voucher.Some? && c'.voucher.value in used)
    requires !c.reserved && c'.reserved && Released(c') == Released(c) && c'.applied == c.applied
    ensures Balanced(rows, used, c, Effect(Reserve(rows, c.info.items).value, used, c'))
  {
    ReserveExact(rows, c.info.items);
    ReserveKeepsLedger(rows, c.info.items);
  }

  lemma StockIsReturned(rows: Rows, used: map<VoucherId, int>, c: Checkout, c': Checkout)
    requires Ledger(rows) && Backed(rows, used, c') && SameAccount(c, c') && c'.applied == c.applied
    requires || (c.reserved && !c'.reserved && Released(c') == Released(c))
             || (c.reserved == c'.reserved && Released(c') == Released(c) + 1)
    ensures Balanced(rows, used, c, Effect(Release(rows, c.info.items), used, c'))
  {
    ReleaseExact(rows, c.info.items);
    ReleaseKeepsLedger(rows, c.info.items);
    forall b ensures Held(c, b) - Held(c', b) == Demand(c.info.items, b) {}
  }

  lemma VoucherIsCounted(rows: Rows, used: map<VoucherId, int>, c: Checkout, c': Checkout)
    requires Ledger(rows) && Backed(rows, used, c') && SameAccount(c, c')
    requires c'.reserved == c.reserved && Released(c') == Released(c)
    requires c.voucher.Some? && c.voucher.value in used && c.applied != c'.applied
    ensures Balanced(rows, used, c, Effect(rows, Bump(used, c.voucher.value, if c'.applied then 1 else -1), c'))
  {}

  lemma ApplyVoucherBalanced(rows: Rows, used: map<VoucherId, int>, c: Checkout, call: Call)
    requires Ledger(rows) && Backed(rows, used, c) && c.phase == Running(0)
    ensures Balanced(rows, used, c, ExecuteStep(rows, used, c, call))
  {
    var c' := ExecuteStep(rows, used, c, call).c;
    if c'.applied {
      VoucherIsCounted(rows, used, c, c');
    } else {
      NothingMoves(rows, used, c, c');
    }
  }

  lemma ReserveInventoryBalanced(rows: Rows, used: map<VoucherId, int>, c: Checkout, call: Call)
    requires Ledger(rows) && Backed(rows, used, c) && c.phase == Running(1)
    ensures Balanced(rows, used, c, ExecuteStep(rows, used, c, call))
  {
    var c' := ExecuteStep(rows, used, c, call).c;
    if c'.reserved {
      StockIsTaken(rows, used, c, c');
    } else {
      NothingMoves(rows, used, c, c');
    }
  }

  lemma ExecuteBalanced(rows: Rows, used: map<VoucherId, int>, c: Checkout, call: Call)
    requires Ledger(rows) && Backed(rows, used, c)
    ensures Balanced(rows, used, c, ExecuteStep(rows, used, c, call))
  {
    if c.phase == Running(0) {
      ApplyVoucherBalanced(rows, used, c, call);
    } else if c.phase == Running(1) {
      ReserveInventoryBalanced(rows, used, c, call);
    } else {
      NothingMoves(rows, used, c, ExecuteStep(rows, used, c, call).c);
    }
  }

  lemma ReleaseVoucherBalanced(rows: Rows, used: map<VoucherId, int>, c: Checkout, call: Call)
    requires Ledger(rows) && Backed(rows, used, c) && c.phase == RollingBack(1)
    ensures Balanced(rows, used, c, CompensateStep(rows, used, c, call))
  {
    var c' := CompensateStep(rows, used, c, call).c;
    if c'.applied != c.applied {
      VoucherIsCounted(rows, used, c, c');
    } else {
      NothingMoves(rows, used, c, c');
    }
  }

  lemma ReleaseInventoryBalanced(rows: Rows, used: map<VoucherId, int>, c: Checkout, call: Call)
    requires Ledger(rows) && Backed(rows, used, c) && c.phase == RollingBack(2)
    ensures Balanced(rows, used, c, CompensateStep(rows, used, c, call))
  {
    var c' := CompensateStep(rows, used, c, call).c;
    if call == Throws {
      NothingMoves(rows, used, c, c');
    } else {
      StockIsReturned(rows, used, c, c');
    }
  }

  lemma CompensateBalanced(rows: Rows, used: map<VoucherId, int>, c: Checkout, call: Call)
    requires Ledger(rows) && Backed(rows, used, c)
    ensures Balanced(rows, used, c, CompensateStep(rows, used, c, call))
  {
    if c.phase == RollingBack(1) {
      ReleaseVoucherBalanced(rows, used, c, call);
    } else if c.phase == RollingBack(2) {
      ReleaseInventoryBalanced(rows, used, c, call);
    } else {
      NothingMoves(rows, used, c, CompensateStep(rows, used, c, call).c);
    }
  }

  /** One event releases an order's goods at most once. */
  lemma StepReleasesAtMostOnce(info: Lifecycle.OrderInfo, o: Lifecycle.OrderRow, e: Lifecycle.Event)
    ensures o.released <= Lifecycle.Step(info, o, e).released <= o.released + 1
  {}

  lemma OrderEventBalanced(rows: Rows, used: map<VoucherId, int>, c: Checkout, e: Lifecycle.Event)
    requires Ledger(rows) && Backed(rows, used, c)
    ensures Balanced(rows, used, c, OrderStep(rows, used, c, e))
  {
    if c.order.None? || !Truthful(rows, c, e) {
      NothingMoves(rows, used, c, c);
    } else {
      var o' := Lifecycle.Step(c.info, c.order.value, e);
      StepReleasesAtMostOnce(c.info, c.order.value, e);
      OrderRowReplaced(rows, used, c, o');
    }
  }

  lemma OrderRowReplaced(rows: Rows, used: map<VoucherId, int>, c: Checkout, o: Lifecycle.OrderRow)
    requires Ledger(rows) && Backed(rows, used, c) && c.order.Some?
    requires c.order.value.released <= o.released <= c.order.value.released + 1
    ensures var back := if o.released > c.order.value.released then Release(rows, c.info.items) else rows;
            Balanced(rows, used, c, Effect(back, used, c.(order := Some(o))))
  {
    if o.released > c.order.value.released {
      StockIsReturned(rows, used, c, c.(order := Some(o)));
    } else {
      NothingMoves(rows, used, c, c.(order := Some(o)));
    }
  }

  lemma NewRowKeepsValid(s: Shop, b: BookId)
    requires Valid(s) && b !in s.rows
    ensures Valid(Next(s, CreateRow(b)))
  {
    NothingHeldOfUnstocked(s, b);
    assert forall c | c in s.checkouts :: Backed(s.rows, s.used, c);
  }

  lemma NothingHeldOfUnstocked(s: Shop, b: BookId)
    requires b !in s.rows && forall c | c in s.checkouts :: Backed(s.rows, s.used, c)
    ensures Sum(s.checkouts, HeldOf(b)) == 0
  {
    forall c | c in s.checkouts
      ensures HeldOf(b)(c) == 0
    {
      DemandOfListed(c.info.items, b);
      TimesZero(Released(c));
    }
    SumZero(s.checkouts, HeldOf(b));
  }

  lemma {:induction false} TimesZero(n: nat)
    ensures Times(n, 0) == 0
  {
    if n > 0 { TimesZero(n - 1); }
  }

  lemma NewVoucherKeepsValid(s: Shop, v: VoucherId, limit: nat)
    requires Valid(s) && v !in s.used
    ensures Valid(Next(s, CreateVoucher(v, limit)))
  {
    forall c | c in s.checkouts
      ensures UsesOf(v)(c) == 0
    {
      assert Backed(s.rows, s.used, c);
    }
    SumZero(s.checkouts, UsesOf(v));
    assert forall c | c in s.checkouts :: Backed(s.rows, s.used, c);
  }

  lemma ManualMovesOne(rows: Rows, b: BookId, kind: MovementType, change: int)
    requires Manual(rows, b, kind, change).Some?
    ensures b in rows && Manual(rows, b, kind, change).value == Move(rows, b, if kind == OUT then -change else change, kind)
  {}

  function Moved(s: Shop, b: BookId, change: int, kind: MovementType): Shop
    requires b in s.rows && b in s.manual
  {
    s.(rows := Move(s.rows, b, change, kind), manual := s.manual[b := s.manual[b] + change])
  }

  lemma NextByHand(s: Shop, b: BookId, kind: MovementType, change: int)
    requires b in s.rows ==> b in s.manual
    ensures Manual(s.rows, b, kind, change).None? ==> Next(s, MoveByHand(b, kind, change)) == s
    ensures Manual(s.rows, b, kind, change).Some? ==>
              b in s.rows && Next(s, MoveByHand(b, kind, change)) == Moved(s, b, if kind == OUT then -change else change, kind)
  {
    if Manual(s.rows, b, kind, change).Some? {
      ManualMovesOne(s.rows, b, kind, change);
    }
  }

  lemma HandMoveKeepsValid(s: Shop, b: BookId, kind: MovementType, change: int)
    requires Valid(s)
    ensures Valid(Next(s, MoveByHand(b, kind, change)))
  {
    NextByHand(s, b, kind, change);
    if Manual(s.rows, b, kind, change).Some? {
      ManualKeepsLedger(s.rows, b, kind, change);
      ManualMovesOne(s.rows, b, kind, change);
      MovedKeepsValid(s, b, if kind == OUT then -change else change, kind);
    }
  }

  lemma MovedKeepsValid(s: Shop, b: BookId, change: int, kind: MovementType)
    requires Valid(s) && b in s.rows && Ledger(Move(s.rows, b, change, kind))
    ensures Valid(Moved(s, b, change, kind))
  {
    var s' := Moved(s, b, change, kind);
    forall c | c in s'.checkouts
      ensures Backed(s'.rows, s'.used, c)
    {
      assert Backed(s.rows, s.used, c);
    }
  }

  lemma BeginKeepsValid(s: Shop, info: Lifecycle.OrderInfo, voucher: Option<VoucherId>)
    requires Valid(s)
    ensures Valid(Next(s, Begin(info, voucher)))
  {
    var c := NewCheckout(info, voucher);
    forall b ensures Sum(s.checkouts + [c], HeldOf(b)) == Sum(s.checkouts, HeldOf(b)) {
      SumAppend(s.checkouts, c, HeldOf(b));
    }
    forall v ensures Sum(s.checkouts + [c], UsesOf(v)) == Sum(s.checkouts, UsesOf(v)) {
      SumAppend(s.checkouts, c, UsesOf(v));
    }
  }

  lemma NextKeepsValid(s: Shop, ev: Event)
    requires Valid(s)
    ensures Valid(Next(s, ev))
  {
    match ev
    case CreateRow(b) => if b !in s.rows { NewRowKeepsValid(s, b); }
    case MoveByHand(b, kind, change) => HandMoveKeepsValid(s, b, kind, change);
    case CreateVoucher(v, limit) => if v !in s.used { NewVoucherKeepsValid(s, v, limit); }
    case SetLimit(_, _, _) =>
    case Begin(info, voucher) => BeginKeepsValid(s, info, voucher);
    case _ => if Concerns(s, ev) { ConcernedKeepsValid(s, ev); }
  }

  lemma ConcernedKeepsValid(s: Shop, ev: Event)
    requires Valid(s) && Concerns(s, ev)
    ensures Valid(Apply(s, ev.i, EffectOf(s, s.checkouts[ev.i], ev)))
  {
    var c := s.checkouts[ev.i];
    assert Backed(s.rows, s.used, c);
    match ev {
      case CheckVoucher(_) => NothingMoves(s.rows, s.used, c, CheckStep(s, c).c);
      case Execute(_, call) => ExecuteBalanced(s.rows, s.used, c, call);
      case Compensate(_, call) => CompensateBalanced(s.rows, s.used, c, call);
      case OnOrder(_, e) => OrderEventBalanced(s.rows, s.used, c, e);
      case Emit(_, ok) => NothingMoves(s.rows, s.used, c, EmitStep(s.rows, s.used, c, ok).c);
    }
    ApplyKeepsValid(s, ev.i, EffectOf(s, c, ev));
  }

  lemma {:induction false} SumZero<T>(xs: seq<T>, f: T -> int)
    requires forall x | x in xs :: f(x) == 0
    ensures Sum(xs, f) == 0
  {
    if xs != [] {
      SumZero(xs[..|xs| - 1], f);
    }
  }

  lemma {:induction false} AlwaysValid(evs: seq<Event>)
    ensures Valid(Run(evs))
  {
    if evs != [] {
      AlwaysValid(evs[..|evs| - 1]);
      NextKeepsValid(Run(evs[..|evs| - 1]), evs[|evs| - 1]);
    }
  }

  // ----- Conservation -----

  /**
   * In every reachable state, whatever failed wherever: stock, plus what running sagas hold, plus what
   * committed orders hold, plus what aborted sagas left behind, is the net manual movement.
   */
  lemma StockConserved(evs: seq<Event>, b: BookId)
    requires b in Run(evs).rows
    ensures var s := Run(evs);
            && b in s.manual
            && s.rows[b].quantity + Sum(s.checkouts, HeldInFlight(b)) + Sum(s.checkouts, HeldByOrders(b))
               + Sum(s.checkouts, HeldByAborted(b)) == s.manual[b]
  {
    var s := Run(evs);
    AlwaysValid(evs);
    forall c | c in s.checkouts
      ensures HeldSettled(b)(c) == HeldByOrders(b)(c) + HeldByAborted(b)(c)
    {
      assert Backed(s.rows, s.used, c);
    }
    SumSplit(s.checkouts, HeldOf(b), HeldInFlight(b), HeldSettled(b));
    SumSplit(s.checkouts, HeldSettled(b), HeldByOrders(b), HeldByAborted(b));
  }

  /** A voucher's count is the orders carrying it, the running sagas that applied it, and the uses aborted sagas leaked. */
  lemma VoucherUsesConserved(evs: seq<Event>, v: VoucherId)
    requires v in Run(evs).used
    ensures var s := Run(evs);
            && s.used[v] == Sum(s.checkouts, UsesInFlight(v)) + Sum(s.checkouts, UsesByOrders(v))
                            + Sum(s.checkouts, UsesByAborted(v))
            && s.used[v] >= 0
  {
    var s := Run(evs);
    AlwaysValid(evs);
    forall c | c in s.checkouts
      ensures UsesSettled(v)(c) == UsesByOrders(v)(c) + UsesByAborted(v)(c)
    {
      assert Backed(s.rows, s.used, c);
    }
    SumSplit(s.checkouts, UsesOf(v), UsesInFlight(v), UsesSettled(v));
    SumSplit(s.checkouts, UsesSettled(v), UsesByOrders(v), UsesByAborted(v));
    SumNonNegative(s.checkouts, UsesOf(v));
  }

  /** Every movement of every kind kept the log an unbroken chain whose changes add up to the quantity. */
  lemma LogsAlwaysTelescope(evs: seq<Event>, b: BookId)
    requires b in Run(evs).rows
    ensures Chain(Run(evs).rows[b])
    ensures Run(evs).rows[b].quantity == Changes(Run(evs).rows[b].log) >= 0
  {
    AlwaysValid(evs);
    assert Chain(Run(evs).rows[b]);
    ChainTelescopes(Run(evs).rows[b]);
  }

  /**
   * A saga that aborted without a lost reply or a failed compensation holds no voucher use, and of stock
   * exactly nothing - or less, by what its order had already given back when the saga rolled back.
   */
  lemma CleanAbortHoldsNothing(evs: seq<Event>, c: Checkout, b: BookId, v: VoucherId)
    requires c in Run(evs).checkouts && Aborted(c) && !c.faulty
    ensures Uses(c, v) == 0
    ensures Held(c, b) == 0 - Times(Released(c), Demand(c.info.items, b))
    ensures Held(c, b) == 0 <==> Released(c) == 0 || Demand(c.info.items, b) == 0
  {
    TimesSign(Released(c), Demand(c.info.items, b));
    AlwaysValid(evs);
    assert Backed(Run(evs).rows, Run(evs).used, c);
  }

  /** A compensation that gives a voucher back always finds a positive count. */
  lemma VoucherReleaseNeverUnderflows(evs: seq<Event>, i: nat, call: Call, v: VoucherId)
    requires v in Run(evs).used && i < |Run(evs).checkouts|
    requires v in CompensateStep(Run(evs).rows, Run(evs).used, Run(evs).checkouts[i], call).used
    requires CompensateStep(Run(evs).rows, Run(evs).used, Run(evs).checkouts[i], call).used[v] != Run(evs).used[v]
    ensures Run(evs).used[v] >= 1
  {
    var s := Run(evs);
    AlwaysValid(evs);
    assert Backed(s.rows, s.used, s.checkouts[i]);
    assert UsesOf(v)(s.checkouts[i]) == 1;
    SumAtLeast(s.checkouts, i, UsesOf(v));
  }

  // ----- Usage limits -----

  ghost function WaitingOf(v: VoucherId): Checkout -> int {
    (c: Checkout) => if c.checked && c.voucher == Some(v) then 1 else 0
  }

  /** A voucher as the race for its uses sees it: the sagas between check and increment are its plain clients. */
  ghost function Counter(s: Shop, v: VoucherId): VoucherRaces.Counter
    requires v in s.used && v in s.limits
  {
    SumNonNegative(s.checkouts, WaitingOf(v));
    VoucherRaces.Counter(s.used[v], s.limits[v], Sum(s.checkouts, WaitingOf(v)))
  }

  /** What an event means to one voucher's counter. */
  function RaceEvent(s: Shop, ev: Event, v: VoucherId): Option<VoucherRaces.Event> {
    if ev.SetLimit? then (if ev.v == v then Some(VoucherRaces.SetLimit(ev.read, ev.to)) else None)
    else if !Concerns(s, ev) || s.checkouts[ev.i].voucher != Some(v) then None
    else
      var c := s.checkouts[ev.i];
      var eff := EffectOf(s, c, ev);
      if !c.checked && eff.c.checked then Some(VoucherRaces.Check)
      else if !c.applied && eff.c.applied then Some(VoucherRaces.Increment)
      else if c.checked && !eff.c.checked then Some(VoucherRaces.Abandon)
      else if c.applied && !eff.c.applied then Some(VoucherRaces.Release)
      else None
  }

  function RaceStep(k: VoucherRaces.Counter, e: Option<VoucherRaces.Event>): VoucherRaces.Counter {
    if e.None? then k else VoucherRaces.Step(k, e.value)
  }

  lemma EffectIsRaceStep(s: Shop, ev: Event, v: VoucherId)
    requires Valid(s) && v in s.used && Concerns(s, ev)
    ensures var c, eff := s.checkouts[ev.i], EffectOf(s, s.checkouts[ev.i], ev);
            && v in eff.used
            && var waiting := WaitingOf(v)(eff.c) - WaitingOf(v)(c);
               match RaceEvent(s, ev, v)
               case None => eff.used[v] == s.used[v] && waiting == 0
               case Some(Check) => eff.used[v] == s.used[v] < s.limits[v] && waiting == 1
               case Some(Increment) => eff.used[v] == s.used[v] + 1 && waiting == -1
               case Some(Abandon) => eff.used[v] == s.used[v] && waiting == -1
               case Some(Release) => eff.used[v] == s.used[v] - 1 && waiting == 0
               case _ => false
  {
    assert Backed(s.rows, s.used, s.checkouts[ev.i]);
    EffectOnCounter(s, s.checkouts[ev.i], ev, v);
  }

  /** A count moves exactly with the standing uses; a check sees a free use, and a count consumes a check. */
  lemma EffectOnCounter(s: Shop, c: Checkout, ev: Event, v: VoucherId)
    requires Backed(s.rows, s.used, c) && v in s.used
    requires ev.CheckVoucher? || ev.Execute? || ev.Compensate? || ev.Emit? || ev.OnOrder?
    ensures var eff := EffectOf(s, c, ev);
            && v in eff.used && eff.c.voucher == c.voucher
            && !(c.checked && c.applied)
            && (eff.c.applied && !c.applied ==> c.checked && !eff.c.checked)
            && (c.applied && !eff.c.applied ==> c.checked == eff.c.checked)
            && (eff.c.checked && !c.checked ==>
                  c.voucher.Some? && c.voucher.value in s.used && c.voucher.value in s.limits
                  && s.used[c.voucher.value] < s.limits[c.voucher.value] && eff.c.applied == c.applied)
            && eff.used[v] == s.used[v]
                 + (if c.voucher == Some(v) && eff.c.applied && !c.applied then 1 else 0)
                 - (if c.voucher == Some(v) && !eff.c.applied && c.applied then 1 else 0)
  {
    match ev {
      case Execute(_, call) => ExecuteOnCounter(s.rows, s.used, c, call, v);
      case Compensate(_, call) => CompensateOnCounter(s.rows, s.used, c, call, v);
      case _ => OthersOnCounter(s, c, ev);
    }
  }

  lemma OthersOnCounter(s: Shop, c: Checkout, ev: Event)
    requires ev.CheckVoucher? || ev.Emit? || ev.OnOrder?
    ensures var eff := EffectOf(s, c, ev);
            && eff.used == s.used && eff.c.voucher == c.voucher && eff.c.applied == c.applied
            && (c.checked ==> eff.c.checked)
            && (eff.c.checked && !c.checked ==>
                  c.voucher.Some? && c.voucher.value in s.used && c.voucher.value in s.limits
                  && s.used[c.voucher.value] < s.limits[c.voucher.value])
  {}

  lemma ExecuteOnCounter(rows: Rows, used: map<VoucherId, int>, c: Checkout, call: Call, v: VoucherId)
    requires Backed(rows, used, c) && v in used
    ensures var eff := ExecuteStep(rows, used, c, call);
            && v in eff.used && !eff.c.checked && eff.c.voucher == c.voucher
            && (c.applied ==> eff.c.applied) && !(c.checked && c.applied)
            && (eff.c.applied && !c.applied ==> c.checked)
            && eff.used[v] == used[v] + if c.voucher == Some(v) && eff.c.applied && !c.applied then 1 else 0
  {}

  lemma CompensateOnCounter(rows: Rows, used: map<VoucherId, int>, c: Checkout, call: Call, v: VoucherId)
    requires Backed(rows, used, c) && v in used
    ensures var eff := CompensateStep(rows, used, c, call);
            && v in eff.used && eff.c.checked == c.checked && eff.c.voucher == c.voucher
            && (eff.c.applied ==> c.applied)
            && eff.used[v] == used[v] - if c.voucher == Some(v) && !eff.c.applied && c.applied then 1 else 0
  {}

  lemma ConcernedIsRaceStep(s: Shop, ev: Event, v: VoucherId)
    requires Valid(s) && v in s.used && Concerns(s, ev)
    ensures var s' := Next(s, ev);
            && v in s'.used && v in s'.limits
            && Counter(s', v) == RaceStep(Counter(s, v), RaceEvent(s, ev, v))
  {
    EffectIsRaceStep(s, ev, v);
    SumUpdate(s.checkouts, ev.i, EffectOf(s, s.checkouts[ev.i], ev).c, WaitingOf(v));
    SumNonNegative(s.checkouts[ev.i := EffectOf(s, s.checkouts[ev.i], ev).c], WaitingOf(v));
  }

  lemma NextIsRaceStep(s: Shop, ev: Event, v: VoucherId)
    requires Valid(s) && v in s.used
    ensures var s' := Next(s, ev);
            && v in s'.used && v in s'.limits
            && Counter(s', v) == RaceStep(Counter(s, v), RaceEvent(s, ev, v))
  {
    if Concerns(s, ev) {
      ConcernedIsRaceStep(s, ev, v);
    } else if ev.Begin? {
      SumAppend(s.checkouts, NewCheckout(ev.info, ev.voucher), WaitingOf(v));
    }
  }

  /** One voucher's share of a run, since it was created. */
  function RaceOf(evs: seq<Event>, v: VoucherId): seq<VoucherRaces.Event> {
    if evs == [] then []
    else
      var prefix := evs[..|evs| - 1];
      if v !in Run(prefix).used then []
      else
        match RaceEvent(Run(prefix), evs[|evs| - 1], v)
        case None => RaceOf(prefix, v)
        case Some(e) => RaceOf(prefix, v) + [e]
  }

  function FirstLimit(evs: seq<Event>, v: VoucherId): nat {
    if evs == [] then 0
    else if v in Run(evs[..|evs| - 1]).used then FirstLimit(evs[..|evs| - 1], v)
    else if evs[|evs| - 1].CreateVoucher? then evs[|evs| - 1].limit
    else 0
  }

  function StartOf(evs: seq<Event>, v: VoucherId): VoucherRaces.Counter {
    VoucherRaces.Counter(0, FirstLimit(evs, v), 0)
  }

  lemma NewVoucherStartsItsRace(s: Shop, ev: Event, v: VoucherId)
    requires Valid(s) && v !in s.used && v in Next(s, ev).used
    ensures ev.CreateVoucher? && v in Next(s, ev).limits
    ensures Counter(Next(s, ev), v) == VoucherRaces.Counter(0, ev.limit, 0)
  {
    if Concerns(s, ev) {
      ConcernedKeepsUsed(s, ev);
      assert false;
    }
    forall c | c in s.checkouts
      ensures WaitingOf(v)(c) == 0
    {
      assert Backed(s.rows, s.used, c);
    }
    SumZero(s.checkouts, WaitingOf(v));
  }

  lemma ConcernedKeepsUsed(s: Shop, ev: Event)
    requires Concerns(s, ev)
    ensures Next(s, ev).used.Keys == s.used.Keys
  {}

  /** In every run each voucher's count is a race of plain clients, releases and limit changes. */
  lemma {:induction false} VouchersRace(evs: seq<Event>, v: VoucherId)
    requires v in Run(evs).used
    ensures v in Run(evs).limits && Counter(Run(evs), v) == VoucherRaces.Run(StartOf(evs, v), RaceOf(evs, v))
  {
    var prefix, ev := evs[..|evs| - 1], evs[|evs| - 1];
    AlwaysValid(prefix);
    if v in Run(prefix).used {
      VouchersRace(prefix, v);
      NextIsRaceStep(Run(prefix), ev, v);
      var e := RaceEvent(Run(prefix), ev, v);
      if e.Some? {
        VoucherRaces.RunMore(StartOf(evs, v), RaceOf(prefix, v), e.value);
      }
    } else {
      NewVoucherStartsItsRace(Run(prefix), ev, v);
    }
  }

  /**
   * Over every run of the shop: if at most c sagas were ever between check and increment of a voucher,
   * and its limit changes missed at most d uses, its count exceeds its limit by at most c + d.
   */
  lemma UsesStayNearTheLimit(evs: seq<Event>, v: VoucherId, c: nat, d: nat)
    requires v in Run(evs).used
    requires VoucherRaces.AtMost(c, StartOf(evs, v), RaceOf(evs, v))
    requires VoucherRaces.LagsAtMost(d, StartOf(evs, v), RaceOf(evs, v))
    ensures v in Run(evs).limits
    ensures Run(evs).used[v] + Sum(Run(evs).checkouts, WaitingOf(v)) <= Run(evs).limits[v] + c + d
  {
    VouchersRace(evs, v);
    VoucherRaces.OvershootBounded(c, d, StartOf(evs, v), RaceOf(evs, v));
  }

  // ----- Orders -----

  /** The lifecycle event a shop event is for checkout i, if it reaches its order. */
  function OrderEvent(s: Shop, ev: Event, i: nat): Option<Lifecycle.Event> {
    if !Concerns(s, ev) || ev.i != i || s.checkouts[i].order.None? then None
    else
      match ev
      case OnOrder(_, Compensate) => None // only the saga does that
      case OnOrder(_, UpdateStatus(seen, target, ghn, stocked)) =>
        if stocked == Stocked(s.rows, s.checkouts[i].info.items) then Some(ev.e) else None
      case OnOrder(_, Cancel(seen, stocked)) =>
        if stocked == Stocked(s.rows, s.checkouts[i].info.items) then Some(ev.e) else None
      case OnOrder(_, e) => Some(e)
      case Compensate(_, call) =>
        if s.checkouts[i].phase == RollingBack(3) && call != Throws then Some(Lifecycle.Compensate) else None
      case _ => None
  }

  /** The lifecycle events of checkout i's order, in the order they happened. */
  function OrderEvents(evs: seq<Event>, i: nat): seq<Lifecycle.Event> {
    if evs == [] then []
    else
      var prefix := evs[..|evs| - 1];
      match OrderEvent(Run(prefix), evs[|evs| - 1], i)
      case None => OrderEvents(prefix, i)
      case Some(e) => OrderEvents(prefix, i) + [e]
  }

  /** What the event makes of checkout c's order. */
  function OrderAfter(c: Checkout, e: Option<Lifecycle.Event>): Option<Lifecycle.OrderRow> {
    if c.order.Some? && e.Some? then Some(Lifecycle.Step(c.info, c.order.value, e.value)) else c.order
  }

  lemma EffectOnOrder(s: Shop, ev: Event, i: nat)
    requires Concerns(s, ev) && ev.i == i && InStep(s.checkouts[i])
    ensures var c, c' := s.checkouts[i], EffectOf(s, s.checkouts[i], ev).c;
            && c'.info == c.info
            && (c.order.Some? ==> c'.order == OrderAfter(c, OrderEvent(s, ev, i)))
            && (c.order.None? ==> c'.order in {None, Some(Lifecycle.NewOrder(c.info))})
  {
    match ev {
      case Execute(_, call) => ExecuteOnOrder(s.rows, s.used, s.checkouts[i], call);
      case Compensate(_, call) => CompensateOnOrder(s.rows, s.used, s.checkouts[i], call);
      case _ =>
    }
  }

  lemma CheckoutAfter(s: Shop, ev: Event, i: nat)
    ensures |s.checkouts| <= |Next(s, ev).checkouts|
    ensures i < |s.checkouts| && Concerns(s, ev) && ev.i == i ==> Next(s, ev).checkouts[i] == EffectOf(s, s.checkouts[i], ev).c
    ensures i < |s.checkouts| && !(Concerns(s, ev) && ev.i == i) ==> Next(s, ev).checkouts[i] == s.checkouts[i]
    ensures |s.checkouts| <= i < |Next(s, ev).checkouts| ==> Next(s, ev).checkouts[i].order.None?
  {}

  lemma ExecuteOnOrder(rows: Rows, used: map<VoucherId, int>, c: Checkout, call: Call)
    requires InStep(c)
    ensures ExecuteStep(rows, used, c, call).c.info == c.info
    ensures c.order.Some? ==> ExecuteStep(rows, used, c, call).c.order == c.order
    ensures c.order.None? ==> ExecuteStep(rows, used, c, call).c.order in {None, Some(Lifecycle.NewOrder(c.info))}
  {}

  lemma CompensateOnOrder(rows: Rows, used: map<VoucherId, int>, c: Checkout, call: Call)
    requires InStep(c)
    ensures CompensateStep(rows, used, c, call).c.info == c.info
    ensures CompensateStep(rows, used, c, call).c.order ==
            if c.phase == RollingBack(3) && call != Throws && c.order.Some?
            then Some(Lifecycle.Step(c.info, c.order.value, Lifecycle.Compensate)) else c.order
  {}

  lemma NextOnOrder(s: Shop, ev: Event, i: nat)
    requires Valid(s) && i < |s.checkouts|
    ensures |s.checkouts| <= |Next(s, ev).checkouts|
    ensures var c, c' := s.checkouts[i], Next(s, ev).checkouts[i];
            && c'.info == c.info
            && (c.order.Some? ==> c'.order == OrderAfter(c, OrderEvent(s, ev, i)))
            && (c.order.None? ==> c'.order in {None, Some(Lifecycle.NewOrder(c.info))} && OrderEvent(s, ev, i).None?)
  {
    CheckoutAfter(s, ev, i);
    if Concerns(s, ev) && ev.i == i {
      assert Backed(s.rows, s.used, s.checkouts[i]);
      EffectOnOrder(s, ev, i);
    }
  }

  /** The order of checkout i is the outcome of a lifecycle run of its own events. */
  ghost predicate Lives(evs: seq<Event>, i: nat)
    requires i < |Run(evs).checkouts|
  {
    var c := Run(evs).checkouts[i];
    if c.order.None? then OrderEvents(evs, i) == []
    else c.order.value == Lifecycle.Run(c.info, Lifecycle.NewOrder(c.info), OrderEvents(evs, i))
  }

  lemma NextLives(evs: seq<Event>, ev: Event, i: nat)
    requires i < |Run(evs).checkouts| && Lives(evs, i)
    ensures i < |Run(evs + [ev]).checkouts| && Lives(evs + [ev], i)
  {
    AlwaysValid(evs);
    var s, c := Run(evs), Run(evs).checkouts[i];
    assert (evs + [ev])[..|evs|] == evs;
    NextOnOrder(s, ev, i);
    if OrderEvent(s, ev, i).Some? {
      Lifecycle.RunMore(c.info, Lifecycle.NewOrder(c.info), OrderEvents(evs, i), OrderEvent(s, ev, i).value);
    }
  }

  lemma NewCheckoutLives(evs: seq<Event>, ev: Event, i: nat)
    requires |Run(evs).checkouts| <= i < |Run(evs + [ev]).checkouts|
    ensures Lives(evs + [ev], i)
  {
    assert (evs + [ev])[..|evs|] == evs;
    NoEventsBefore(evs, i);
    CheckoutAfter(Run(evs), ev, i);
  }

  lemma {:induction false} AllLive(evs: seq<Event>, i: nat)
    requires i < |Run(evs).checkouts|
    ensures Lives(evs, i)
  {
    if evs != [] {
      var prefix, ev := evs[..|evs| - 1], evs[|evs| - 1];
      assert evs == prefix + [ev];
      if i < |Run(prefix).checkouts| {
        AllLive(prefix, i);
        NextLives(prefix, ev, i);
      } else {
        NewCheckoutLives(prefix, ev, i);
      }
    }
  }

  /** In every run of the shop each order goes through a lifecycle run of its own events, so every law of those applies to it. */
  lemma OrdersLiveTheirLives(evs: seq<Event>, i: nat)
    requires i < |Run(evs).checkouts|
    ensures var c := Run(evs).checkouts[i];
            && (c.order.None? ==> OrderEvents(evs, i) == [])
            && (c.order.Some? ==> c.order.value == Lifecycle.Run(c.info, Lifecycle.NewOrder(c.info), OrderEvents(evs, i)))
  {
    AllLive(evs, i);
  }

  lemma {:induction false} NoEventsBefore(evs: seq<Event>, i: nat)
    requires i >= |Run(evs).checkouts|
    ensures OrderEvents(evs, i) == []
  {
    if evs != [] {
      CheckoutAfter(Run(evs[..|evs| - 1]), evs[|evs| - 1], i);
      NoEventsBefore(evs[..|evs| - 1], i);
    }
  }

  predicate ReturnedWasReleased(c: Checkout) {
    c.order.Some? && c.order.value.status == Lifecycle.RETURNED ==> Released(c) >= 1
  }

  lemma ReturnedOrdersWereReleased(evs: seq<Event>)
    ensures forall c | c in Run(evs).checkouts :: ReturnedWasReleased(c)
  {
    forall c | c in Run(evs).checkouts
      ensures ReturnedWasReleased(c)
    {
      var i :| 0 <= i < |Run(evs).checkouts| && Run(evs).checkouts[i] == c;
      OrdersLiveTheirLives(evs, i);
      Lifecycle.ReturnedWasReleased(c.info, OrderEvents(evs, i));
    }
  }

  // ----- Goods from nowhere -----

  lemma {:induction false} TimesSign(n: nat, units: nat)
    ensures Times(n, units) == 0 <==> n == 0 || units == 0
    ensures n >= 1 ==> Times(n, units) >= units
    ensures n >= 2 && units > 0 ==> Times(n, units) > units
  {
    if n > 0 {
      TimesSign(n - 1, units);
    }
  }

  /** The order gave back more than its checkout has standing. */
  predicate Overdrawn(c: Checkout) {
    Released(c) > if c.reserved then 1 else 0
  }

  lemma OverdrawnExactly(c: Checkout, b: BookId)
    requires Demand(c.info.items, b) > 0
    ensures Held(c, b) < 0 <==> Overdrawn(c)
  {
    TimesSign(Released(c), Demand(c.info.items, b));
    if Released(c) == 1 {
      assert Times(1, Demand(c.info.items, b)) == Times(0, Demand(c.info.items, b)) + Demand(c.info.items, b);
    }
  }

  /**
   * Two ways to overdraw: an order event releases goods that are back already, or whose reservation the
   * rollback gave back; and the rollback gives back a reservation whose order has released its goods.
   */
  predicate Overdraws(s: Shop, c: Checkout, ev: Event) {
    match ev
    case OnOrder(_, e) =>
      && c.order.Some? && Truthful(s.rows, c, e) && Lifecycle.Releases(c.order.value, e)
      && (Released(c) >= 1 || !c.reserved)
    case Compensate(_, call) => c.phase == RollingBack(2) && call != Throws && Released(c) >= 1
    case _ => false
  }

  predicate OverdrawsIn(s: Shop, ev: Event) {
    Concerns(s, ev) && Overdraws(s, s.checkouts[ev.i], ev)
  }

  ghost predicate NoneOverdrawn(s: Shop) {
    forall c | c in s.checkouts :: !Overdrawn(c)
  }

  ghost predicate NeverOverdraws(evs: seq<Event>) {
    forall i | 0 <= i < |evs| :: !OverdrawsIn(Run(evs[..i]), evs[i])
  }

  lemma EffectOverdrawsExactly(s: Shop, c: Checkout, ev: Event)
    requires InStep(c) && !Overdrawn(c)
    ensures Overdrawn(EffectOf(s, c, ev).c) <==> Overdraws(s, c, ev)
  {
    if ev.OnOrder? && c.order.Some? {
      Lifecycle.ReleasesExactly(c.info, c.order.value, ev.e);
    }
  }

  lemma NextOverdrawsExactly(s: Shop, ev: Event)
    requires Valid(s) && NoneOverdrawn(s)
    ensures NoneOverdrawn(Next(s, ev)) <==> !OverdrawsIn(s, ev)
  {
    if Concerns(s, ev) {
      var c := s.checkouts[ev.i];
      var c' := EffectOf(s, c, ev).c;
      assert Backed(s.rows, s.used, c) && !Overdrawn(c);
      EffectOverdrawsExactly(s, c, ev);
      assert c' == Next(s, ev).checkouts[ev.i] && c' in Next(s, ev).checkouts;
      assert forall d | d in Next(s, ev).checkouts :: d == c' || d in s.checkouts;
    }
  }

  lemma RunUpTo(evs: seq<Event>, i: nat)
    requires i < |evs|
    ensures Run(evs[..i + 1]) == Next(Run(evs[..i]), evs[i])
  {
    assert evs[..i + 1][..i] == evs[..i];
  }

  lemma {:induction false} NoneOverdrawnUpTo(evs: seq<Event>, j: nat)
    requires NeverOverdraws(evs) && j <= |evs|
    ensures NoneOverdrawn(Run(evs[..j]))
  {
    if j > 0 {
      var s, ev := Run(evs[..j - 1]), evs[j - 1];
      NoneOverdrawnUpTo(evs, j - 1);
      AlwaysValid(evs[..j - 1]);
      assert NoneOverdrawn(Next(s, ev)) by { NextOverdrawsExactly(s, ev); }
      RunUpTo(evs, j - 1);
    }
  }

  /**
   * In every run, whatever events touch whatever orders at whatever stage of their sagas: no checkout is
   * ever overdrawn if and only if no event overdraws one.
   */
  lemma NoOverdraftExactly(evs: seq<Event>)
    ensures (forall i | 0 <= i <= |evs| :: NoneOverdrawn(Run(evs[..i]))) <==> NeverOverdraws(evs)
  {
    if NeverOverdraws(evs) {
      forall j | 0 <= j <= |evs|
        ensures NoneOverdrawn(Run(evs[..j]))
      {
        NoneOverdrawnUpTo(evs, j);
      }
    } else {
      var k :| 0 <= k < |evs| && OverdrawsIn(Run(evs[..k]), evs[k]);
      RunUpTo(evs, k);
      AlwaysValid(evs[..k]);
      if NoneOverdrawn(Run(evs[..k])) {
        NextOverdrawsExactly(Run(evs[..k]), evs[k]);
        assert !NoneOverdrawn(Run(evs[..k + 1]));
      }
    }
  }

  /**
   * In every run in which no event overdraws, stock never exceeds the net manual movement, and each order
   * has given its goods back at most once, a returned one exactly once.
   */
  lemma StockNeverExceedsSupply(evs: seq<Event>, b: BookId)
    requires NeverOverdraws(evs) && b in Run(evs).rows
    ensures b in Run(evs).manual && Run(evs).rows[b].quantity <= Run(evs).manual[b]
    ensures forall c | c in Run(evs).checkouts && c.order.Some? ::
              && Released(c) <= 1
              && (c.order.value.status == Lifecycle.RETURNED ==> Released(c) == 1)
  {
    var s := Run(evs);
    AlwaysValid(evs);
    ReturnedOrdersWereReleased(evs);
    NoneOverdrawnUpTo(evs, |evs|);
    assert evs[..|evs|] == evs;
    forall c | c in s.checkouts
      ensures HeldOf(b)(c) >= 0
      ensures c.order.Some? ==> Released(c) <= 1 && (c.order.value.status == Lifecycle.RETURNED ==> Released(c) == 1)
    {
      assert !Overdrawn(c) && ReturnedWasReleased(c);
      if Demand(c.info.items, b) > 0 {
        OverdrawnExactly(c, b);
      } else {
        TimesSign(Released(c), 0);
      }
    }
    SumNonNegative(s.checkouts, HeldOf(b));
  }

  // ----- Which events overdraw -----

  /** The event reaches the checkout's order and reopens it. */
  predicate ReopensIn(s: Shop, ev: Event) {
    && ev.OnOrder? && ev.i < |s.checkouts|
    && var c := s.checkouts[ev.i];
       c.order.Some? && Truthful(s.rows, c, ev.e) && Lifecycle.Reopens(c.info, c.order.value, ev.e)
  }

  predicate OrderSettled(c: Checkout) {
    c.order.Some? ==> Lifecycle.Settled(c.order.value)
  }

  ghost predicate NeverReopens(evs: seq<Event>) {
    forall i | 0 <= i < |evs| :: !ReopensIn(Run(evs[..i]), evs[i])
  }

  lemma EffectSettles(s: Shop, c: Checkout, ev: Event)
    requires InStep(c) && OrderSettled(c)
    requires ev.OnOrder? && c.order.Some? && Truthful(s.rows, c, ev.e) ==> !Lifecycle.Reopens(c.info, c.order.value, ev.e)
    ensures OrderSettled(EffectOf(s, c, ev).c)
  {
    if ev.OnOrder? && c.order.Some? {
      Lifecycle.StepSettlesExactly(c.info, c.order.value, ev.e);
    }
  }

  lemma NextSettles(s: Shop, ev: Event)
    requires Valid(s) && !ReopensIn(s, ev) && forall c | c in s.checkouts :: OrderSettled(c)
    ensures forall c | c in Next(s, ev).checkouts :: OrderSettled(c)
  {
    if Concerns(s, ev) {
      var c := s.checkouts[ev.i];
      assert OrderSettled(c) && Backed(s.rows, s.used, c);
      EffectSettles(s, c, ev);
      CheckoutsAfter(s, ev);
    }
  }

  /** An event changes no checkout but the one it concerns. */
  lemma CheckoutsAfter(s: Shop, ev: Event)
    requires Concerns(s, ev)
    ensures forall d | d in Next(s, ev).checkouts :: d == EffectOf(s, s.checkouts[ev.i], ev).c || d in s.checkouts
  {}

  lemma {:induction false} OrdersStaySettled(evs: seq<Event>, j: nat)
    requires NeverReopens(evs) && j <= |evs|
    ensures forall c | c in Run(evs[..j]).checkouts :: OrderSettled(c)
  {
    if j > 0 {
      OrdersStaySettled(evs, j - 1);
      RunUpTo(evs, j - 1);
      AlwaysValid(evs[..j - 1]);
      NextSettles(Run(evs[..j - 1]), evs[j - 1]);
    }
  }

  /** Apart from reopened orders, goods appear from nowhere only where a saga rolls back under an order being cancelled. */
  lemma OverdraftNeedsReopeningOrRollback(evs: seq<Event>, i: nat)
    requires NeverReopens(evs) && i < |evs| && OverdrawsIn(Run(evs[..i]), evs[i])
    ensures Run(evs[..i]).checkouts[evs[i].i].phase.RollingBack?
  {
    var s := Run(evs[..i]);
    OrdersStaySettled(evs, i);
    AlwaysValid(evs[..i]);
    assert OrderSettled(s.checkouts[evs[i].i]) && Backed(s.rows, s.used, s.checkouts[evs[i].i]);
  }

  // Two runs without any reopening, in which the rollback and a cancellation each put the goods back.

  const BOOK: BookId := "b"

  /** One unit in stock, and one checkout about to begin. */
  function Ready(info: Lifecycle.OrderInfo): seq<Event> {
    [CreateRow(BOOK), MoveByHand(BOOK, IN, 1), Begin(info, None)]
  }

  /** One unit in stock, sold to one checkout whose record exists. */
  function Sold(info: Lifecycle.OrderInfo): seq<Event> {
    Ready(info) + [Execute(0, Returns)] + [Execute(0, Returns)] + [Execute(0, Returns)]
  }

  lemma OneItem(rows: Rows, it: Item)
    ensures Reserve(rows, [it]) == Decrement(rows, it)
    ensures it.bookId in rows ==> Release(rows, [it]) == Move(rows, it.bookId, it.quantity, IN)
  {
    assert [it][..0] == [];
  }

  /** The shop with one voucherless checkout and one unit of one book ever brought in. */
  function One(rows: Rows, c: Checkout): Shop {
    Shop(rows, map[], map[], [c], map[BOOK := 1])
  }

  lemma RunMore(evs: seq<Event>, ev: Event)
    ensures Run(evs + [ev]) == Next(Run(evs), ev)
  {
    assert (evs + [ev])[..|evs|] == evs;
  }

  lemma RunOne(evs: seq<Event>, rows: Rows, c: Checkout, ev: Event)
    requires Run(evs) == One(rows, c) && c.voucher.None? && Concerns(One(rows, c), ev)
    ensures var eff := EffectOf(One(rows, c), c, ev);
            Run(evs + [ev]) == One(eff.rows, eff.c)
  {
    RunMore(evs, ev);
  }

  lemma ReadyOne(info: Lifecycle.OrderInfo)
    ensures var s := Run(Ready(info));
            BOOK in s.rows && s.rows[BOOK].quantity == 1 && s == One(s.rows, NewCheckout(info, None))
  {
    var one, two := [CreateRow(BOOK)], [CreateRow(BOOK), MoveByHand(BOOK, IN, 1)];
    RunMore([], CreateRow(BOOK));
    RunMore(one, MoveByHand(BOOK, IN, 1));
    RunMore(two, Begin(info, None));
    assert [] + [CreateRow(BOOK)] == one && one + [MoveByHand(BOOK, IN, 1)] == two && two + [Begin(info, None)] == Ready(info);
  }

  lemma SoldOne(info: Lifecycle.OrderInfo)
    requires info.items == [Item(BOOK, 1)]
    ensures var s := Run(Sold(info));
            && BOOK in s.rows && s.rows[BOOK].quantity == 0
            && s == One(s.rows, NewCheckout(info, None).(phase := Running(3), reserved := true, order := Some(Lifecycle.NewOrder(info))))
  {
    ReadyOne(info);
    var evs, rows, step := Ready(info), Run(Ready(info)).rows, Execute(0, Returns);
    OneItem(rows, Item(BOOK, 1));
    RunOne(evs, rows, NewCheckout(info, None), step);
    RunOne(evs + [step], rows, NewCheckout(info, None).(phase := Running(1)), step);
    var taken := Move(rows, BOOK, -1, OUT);
    RunOne(evs + [step] + [step], taken, NewCheckout(info, None).(phase := Running(2), reserved := true), step);
  }

  function CancelNew(info: Lifecycle.OrderInfo): Event {
    OnOrder(0, Lifecycle.Cancel(Lifecycle.NewOrder(info), true))
  }

  /** A rollback that pops both reservations puts one unit back. */
  lemma PopTwice(evs: seq<Event>, rows: Rows, c: Checkout)
    requires Run(evs) == One(rows, c) && c.voucher.None? && c.phase == RollingBack(2)
    requires c.info.items == [Item(BOOK, 1)] && BOOK in rows
    ensures Run(evs + [Compensate(0, Returns)] + [Compensate(0, Returns)]) ==
            One(Move(rows, BOOK, 1, IN), c.(phase := RollingBack(0), reserved := false))
  {
    OneItem(rows, Item(BOOK, 1));
    RunOne(evs, rows, c, Compensate(0, Returns));
    var popped := c.(phase := RollingBack(1), reserved := false);
    RunOne(evs + [Compensate(0, Returns)], Move(rows, BOOK, 1, IN), popped, Compensate(0, Returns));
  }

  /** Cancelling the new order puts one unit back. */
  lemma CancelOnce(evs: seq<Event>, rows: Rows, c: Checkout)
    requires Run(evs) == One(rows, c) && c.voucher.None? && c.order == Some(Lifecycle.NewOrder(c.info))
    requires c.info.items == [Item(BOOK, 1)] && BOOK in rows
    ensures var cancelled := Lifecycle.NewOrder(c.info).(status := Lifecycle.CANCELLED, released := 1);
            Run(evs + [CancelNew(c.info)]) == One(Move(rows, BOOK, 1, IN), c.(order := Some(cancelled)))
  {
    OneItem(rows, Item(BOOK, 1));
    RunOne(evs, rows, c, CancelNew(c.info));
  }

  /** The final event fails, and cancelling the record succeeds: two pops are left. */
  lemma FailAndPop(evs: seq<Event>, rows: Rows, c: Checkout)
    requires Run(evs) == One(rows, c) && c.voucher.None? && c.phase == Running(3) && c.order.Some?
    ensures var cancelled := Lifecycle.Step(c.info, c.order.value, Lifecycle.Compensate);
            Run(evs + [Emit(0, false)] + [Compensate(0, Returns)]) ==
            One(rows, c.(phase := RollingBack(2), order := Some(cancelled)))
  {
    RunOne(evs, rows, c, Emit(0, false));
    RunOne(evs + [Emit(0, false)], rows, c.(phase := RollingBack(3)), Compensate(0, Returns));
  }

  /** The customer cancels before the final event fails: every call returns, and one unit has become two. */
  lemma CancelBeforeRollbackOverdraws(info: Lifecycle.OrderInfo)
    requires info.items == [Item(BOOK, 1)]
    ensures var pop := Compensate(0, Returns);
            var s := Run(Sold(info) + [CancelNew(info)] + [Emit(0, false)] + [pop] + [pop] + [pop]);
            && BOOK in s.rows && s.rows[BOOK].quantity == 2 && s.manual == map[BOOK := 1]
            && |s.checkouts| == 1 && Aborted(s.checkouts[0]) && !s.checkouts[0].faulty
  {
    SoldOne(info);
    var rows, c := Run(Sold(info)).rows, Run(Sold(info)).checkouts[0];
    CancelOnce(Sold(info), rows, c);
    var evs := Sold(info) + [CancelNew(info)];
    var rows', c' := Run(evs).rows, Run(evs).checkouts[0];
    FailAndPop(evs, rows', c');
    var popped := evs + [Emit(0, false)] + [Compensate(0, Returns)];
    PopTwice(popped, rows', Run(popped).checkouts[0]);
  }

  /** Cancelling the record fails and is swallowed; the order stays PENDING and its customer cancels it after the rollback. */
  lemma OrphanOrderOverdraws(info: Lifecycle.OrderInfo)
    requires info.items == [Item(BOOK, 1)]
    ensures var pop := Compensate(0, Returns);
            var s := Run(Sold(info) + [Emit(0, false)] + [Compensate(0, Throws)] + [pop] + [pop] + [CancelNew(info)]);
            BOOK in s.rows && s.rows[BOOK].quantity == 2 && s.manual == map[BOOK := 1]
  {
    SoldOne(info);
    var rows, c := Run(Sold(info)).rows, Run(Sold(info)).checkouts[0];
    RunOne(Sold(info), rows, c, Emit(0, false));
    RunOne(Sold(info) + [Emit(0, false)], rows, c.(phase := RollingBack(3)), Compensate(0, Throws));
    var evs := Sold(info) + [Emit(0, false)] + [Compensate(0, Throws)];
    PopTwice(evs, rows, c.(phase := RollingBack(2), faulty := true));
    var pops := evs + [Compensate(0, Returns)] + [Compensate(0, Returns)];
    CancelOnce(pops, Run(pops).rows, Run(pops).checkouts[0]);
  }

  // ----- Leaks -----

  ghost function BackByAborted(b: BookId): Checkout -> int {
    (c: Checkout) => if Aborted(c) then Times(Released(c), Demand(c.info.items, b)) else 0
  }

  /**
   * With no fault anywhere, voucher counts are accounted for by running sagas and committed orders, and
   * so is stock, up to what the orders of aborted sagas gave back on their own: exactly when there is no
   * such order, nothing is missing and nothing is too much.
   */
  lemma NothingLeaksWithoutFaults(evs: seq<Event>, b: BookId, v: VoucherId)
    requires b in Run(evs).rows && v in Run(evs).used
    requires forall c | c in Run(evs).checkouts :: !c.faulty
    ensures var s := Run(evs);
            var accounted := s.rows[b].quantity + Sum(s.checkouts, HeldInFlight(b)) + Sum(s.checkouts, HeldByOrders(b));
            && s.used[v] == Sum(s.checkouts, UsesInFlight(v)) + Sum(s.checkouts, UsesByOrders(v))
            && b in s.manual && accounted == s.manual[b] + Sum(s.checkouts, BackByAborted(b))
            && (accounted == s.manual[b] <==>
                  forall c | c in s.checkouts && Aborted(c) :: Released(c) == 0 || Demand(c.info.items, b) == 0)
  {
    var s := Run(evs);
    AlwaysValid(evs);
    forall c | c in s.checkouts
      ensures UsesByAborted(v)(c) == 0
      ensures HeldByAborted(b)(c) + BackByAborted(b)(c) == 0
      ensures Aborted(c) ==> (BackByAborted(b)(c) == 0 <==> Released(c) == 0 || Demand(c.info.items, b) == 0)
    {
      assert Backed(s.rows, s.used, c);
      TimesSign(Released(c), Demand(c.info.items, b));
    }
    StockConserved(evs, b);
    VoucherUsesConserved(evs, v);
    SumZero(s.checkouts, UsesByAborted(v));
    SumOpposite(s.checkouts, HeldByAborted(b), BackByAborted(b));
    SumZeroExactly(s.checkouts, BackByAborted(b));
  }

  lemma {:induction false} SumOpposite<T>(xs: seq<T>, f: T -> int, g: T -> int)
    requires forall x | x in xs :: f(x) + g(x) == 0
    ensures Sum(xs, f) + Sum(xs, g) == 0
  {
    if xs != [] {
      SumOpposite(xs[..|xs| - 1], f, g);
    }
  }

  lemma SumZeroExactly<T>(xs: seq<T>, f: T -> int)
    requires forall x | x in xs :: f(x) >= 0
    ensures Sum(xs, f) == 0 <==> forall x | x in xs :: f(x) == 0
  {
    if Sum(xs, f) == 0 {
      forall x | x in xs
        ensures f(x) == 0
      {
        var i :| 0 <= i < |xs| && xs[i] == x;
        SumAtLeast(xs, i, f);
      }
    } else {
      if forall x | x in xs :: f(x) == 0 {
        SumZero(xs, f);
      }
    }
  }
}
