/**
 * One order and its shipment as a state machine: every service operation that writes them is one
 * event. A service reads the order first and writes later, so an event carries the row it `seen`
 * when it decided, which need not be the row it writes to.
 */
module Lifecycle {
  import opened Options
  import opened Inventory

  type Time = int // milliseconds

  const RETURN_WINDOW: int := 7 * 24 * 60 * 60 * 1000

  datatype Status = PENDING | PROCESSING | SHIPPED | DELIVERED | CANCELLED | RETURNING | RETURNED | REFUNDED
  datatype PaymentMethod = COD | VNPAY

  /** What never changes after the order row is created. */
  datatype OrderInfo = OrderInfo(
    items: seq<Item>, subtotalAmount: int, discountAmount: int,
    paymentMethod: PaymentMethod, addressComplete: bool)

  /** The carrier's status words, after trimming and lower-casing; any other text is `Unknown`. */
  datatype GhnStatus =
    | ReadyToPick | Picking | Picked | Storing | WaitingToPick
    | Transporting | Sorting | Delivering | MoneyCollectDelivering
    | Delivered
    | GhnCancel | GhnCancelled | GhnCanceled
    | GhnReturn | GhnReturning | GhnReturned
    | Unknown(text: string)

  datatype Shipment = Shipment(
    code: string, status: GhnStatus, codAmount: int, shippingFee: int,
    shippedAt: Option<Time>, deliveredAt: Option<Time>)

  /** `released` counts how often the order's goods went back to stock; no column stores it. */
  datatype OrderRow = OrderRow(
    status: Status, shippingFee: int, totalAmount: int,
    returnRequestedAt: Option<Time>, shipment: Option<Shipment>, released: nat)

  datatype GhnReply = GhnDown | GhnOrder(code: string, fee: real)

  /** `stocked`: every ordered book still has an inventory row when the transaction runs. */
  datatype Event =
    | UpdateStatus(seen: OrderRow, target: Status, ghn: GhnReply, stocked: bool)
    | Cancel(seen: OrderRow, stocked: bool)
    | RequestReturn(seen: OrderRow, now: Time)
    | Webhook(seenShipment: Shipment, ghnStatus: GhnStatus, now: Time)
    | CronRollback(readAt: Time)
    | Compensate

  // ----- Steps -----

  function MapGhnStatus(status: GhnStatus): Option<Status> {
    match status
    case ReadyToPick | Picking | Picked | Storing | WaitingToPick => Some(PROCESSING)
    case Transporting | Sorting | Delivering | MoneyCollectDelivering => Some(SHIPPED)
    case Delivered => Some(DELIVERED)
    case GhnCancel | GhnCancelled | GhnCanceled => Some(CANCELLED)
    case GhnReturn | GhnReturning | GhnReturned => Some(RETURNING)
    case Unknown(_) => None
  }

  function AmountBeforeShipping(info: OrderInfo): int {
    if info.subtotalAmount - info.discountAmount < 0 then 0 else info.subtotalAmount - info.discountAmount
  }

  function CodAmount(info: OrderInfo): int {
    if info.paymentMethod == COD then AmountBeforeShipping(info) else 0
  }

  /** Math.round: the nearest whole amount, halves upwards. */
  function Round(x: real): (r: int)
    ensures r as real - 0.5 <= x < r as real + 0.5
  {
    (x + 0.5).Floor
  }

  function Process(info: OrderInfo, o: OrderRow, seen: OrderRow, ghn: GhnReply): OrderRow {
    if seen.shipment.Some? then o.(status := PROCESSING)
    else if !info.addressComplete || ghn.GhnDown? then o
    else if o.shipment.Some? then o // a second shipment for the order breaks its unique key
    else
      var fee := Round(ghn.fee);
      o.(status := PROCESSING, shippingFee := fee, totalAmount := AmountBeforeShipping(info) + fee,
         shipment := Some(Shipment(ghn.code, ReadyToPick, CodAmount(info), fee, None, None)))
  }

  function CancelOrder(o: OrderRow, seen: OrderRow, stocked: bool): OrderRow {
    if seen.status != PENDING || !stocked then o
    else o.(status := CANCELLED, released := o.released + 1)
  }

  function ConfirmReturned(o: OrderRow, seen: OrderRow, stocked: bool): OrderRow {
    if seen.status != RETURNING || !stocked then o
    else o.(status := RETURNED, returnRequestedAt := None, released := o.released + 1)
  }

  /** The request is within the window of the delivery the service read. */
  predicate ReturnAllowed(seen: OrderRow, now: Time) {
    && seen.status == DELIVERED
    && seen.shipment.Some? && seen.shipment.value.deliveredAt.Some?
    && now <= seen.shipment.value.deliveredAt.value + RETURN_WINDOW
  }

  function FirstOr(earlier: Option<Time>, now: Time): Option<Time> {
    if earlier.Some? then earlier else Some(now)
  }

  function Track(s: Shipment, seen: Shipment, ghnStatus: GhnStatus, next: Option<Status>, now: Time): Shipment {
    s.(status := ghnStatus,
       shippedAt := if next == Some(SHIPPED) then FirstOr(seen.shippedAt, now) else s.shippedAt,
       deliveredAt := if next == Some(DELIVERED) then FirstOr(seen.deliveredAt, now) else s.deliveredAt)
  }

  /** The carrier cancels an order whose goods have not left. */
  predicate CarrierRestocks(o: OrderRow, seen: Shipment) {
    o.status != CANCELLED && (o.status == PENDING || seen.shippedAt.None?)
  }

  /** The order follows its tracked shipment to the status the carrier's word maps to, if any. */
  function Follow(o: OrderRow, seen: Shipment, tracked: Shipment, next: Option<Status>): OrderRow {
    var o' := o.(shipment := Some(tracked));
    match next
    case None => o'
    case Some(CANCELLED) =>
      o'.(status := CANCELLED, released := if CarrierRestocks(o, seen) then o.released + 1 else o.released)
    case Some(status) => o'.(status := status)
  }

  function HandleWebhook(o: OrderRow, seen: Shipment, ghnStatus: GhnStatus, now: Time): OrderRow
    requires o.shipment.Some?
  {
    var next := MapGhnStatus(ghnStatus);
    Follow(o, seen, Track(o.shipment.value, seen, ghnStatus, next, now), next)
  }

  predicate Overdue(o: OrderRow, cutoff: Time) {
    o.status == RETURNING && o.returnRequestedAt.Some? && o.returnRequestedAt.value < cutoff
  }

  /** One guarded write of the hourly job, which fixed its cutoff when it read at `readAt`. */
  function RollBackReturn(o: OrderRow, readAt: Time): OrderRow {
    if Overdue(o, readAt - RETURN_WINDOW) then o.(status := DELIVERED, returnRequestedAt := None) else o
  }

  /** updateOrderStatus, branch by branch. */
  function SetStatus(info: OrderInfo, o: OrderRow, seen: OrderRow, target: Status, ghn: GhnReply, stocked: bool): OrderRow {
    match target
    case PROCESSING => Process(info, o, seen, ghn)
    case RETURNED => ConfirmReturned(o, seen, stocked)
    case CANCELLED => CancelOrder(o, seen, stocked)
    case _ => o.(status := target)
  }

  function Step(info: OrderInfo, o: OrderRow, e: Event): OrderRow {
    match e
    case UpdateStatus(seen, target, ghn, stocked) => SetStatus(info, o, seen, target, ghn, stocked)
    case Cancel(seen, stocked) => CancelOrder(o, seen, stocked)
    case RequestReturn(seen, now) =>
      if ReturnAllowed(seen, now) then o.(status := RETURNING, returnRequestedAt := Some(now)) else o
    case Webhook(seen, ghnStatus, now) =>
      if o.shipment.None? then o else HandleWebhook(o, seen, ghnStatus, now)
    case CronRollback(readAt) => RollBackReturn(o, readAt)
    case Compensate => o.(status := CANCELLED)
  }

  function Run(info: OrderInfo, o: OrderRow, es: seq<Event>): OrderRow {
    if es == [] then o else Step(info, Run(info, o, es[..|es| - 1]), es[|es| - 1])
  }

  function NewOrder(info: OrderInfo): OrderRow {
    OrderRow(PENDING, 0, AmountBeforeShipping(info), None, None, 0)
  }

  // ----- What each event means for the row, said on the row's own fields -----

  predicate Handling(word: GhnStatus) {
    word in {ReadyToPick, Picking, Picked, Storing, WaitingToPick}
  }

  predicate Cancelling(word: GhnStatus) {
    word in {GhnCancel, GhnCancelled, GhnCanceled}
  }

  predicate Returning(word: GhnStatus) {
    word in {GhnReturn, GhnReturning, GhnReturned}
  }

  /** The carrier cancels an order that is not cancelled yet, and is pending or was not shipped when read. */
  predicate SendsBack(o: OrderRow, seen: Shipment, word: GhnStatus) {
    Cancelling(word) && o.status != CANCELLED && (o.status == PENDING || seen.shippedAt.None?)
  }

  /** What the carrier's word makes of an order with a shipment. */
  predicate Heard(o: OrderRow, o': OrderRow, seen: Shipment, word: GhnStatus, now: Time) {
    && o.shipment.Some? && o'.shipment.Some?
    && (Handling(word) ==> o'.status == PROCESSING)
    && (Reports(word, Shipping) ==> o'.status == SHIPPED)
    && (Reports(word, Delivery) ==> o'.status == DELIVERED)
    && (Cancelling(word) ==> o'.status == CANCELLED)
    && (Returning(word) ==> o'.status == RETURNING)
    && (word.Unknown? ==> o'.status == o.status)
    && o'.released == o.released + (if SendsBack(o, seen, word) then 1 else 0)
    && o'.shipment.value.status == word
    && o'.shipment.value.shippedAt ==
         (if Reports(word, Shipping) then (if seen.shippedAt.Some? then seen.shippedAt else Some(now)) else o.shipment.value.shippedAt)
    && o'.shipment.value.deliveredAt ==
         (if Reports(word, Delivery) then (if seen.deliveredAt.Some? then seen.deliveredAt else Some(now)) else o.shipment.value.deliveredAt)
    && o'.shipment.value.code == o.shipment.value.code && o'.shipment.value.codAmount == o.shipment.value.codAmount
    && o'.shipment.value.shippingFee == o.shipment.value.shippingFee
    && o'.shippingFee == o.shippingFee && o'.totalAmount == o.totalAmount && o'.returnRequestedAt == o.returnRequestedAt
  }

  lemma WordsMean(o: OrderRow, seen: Shipment, word: GhnStatus, now: Time)
    requires o.shipment.Some?
    ensures Heard(o, HandleWebhook(o, seen, word, now), seen, word, now)
  {}

  /** A returning word in any run makes the order RETURNING with nothing released; confirming it then releases the goods once. */
  lemma ReturningWordThenConfirmation(info: OrderInfo, es: seq<Event>, seen: Shipment, word: GhnStatus, now: Time, ghn: GhnReply)
    requires Run(info, NewOrder(info), es).shipment.Some? && Returning(word)
    ensures var o := Run(info, NewOrder(info), es);
            var heard := Run(info, NewOrder(info), es + [Webhook(seen, word, now)]);
            var confirmed := Run(info, NewOrder(info), es + [Webhook(seen, word, now)] + [UpdateStatus(heard, RETURNED, ghn, true)]);
            && heard.status == RETURNING && heard.released == o.released
            && confirmed.status == RETURNED && confirmed.released == o.released + 1
  {
    var o := NewOrder(info);
    RunMore(info, o, es, Webhook(seen, word, now));
    var heard := Run(info, o, es + [Webhook(seen, word, now)]);
    WordsMean(Run(info, o, es), seen, word, now);
    RunMore(info, o, es + [Webhook(seen, word, now)], UpdateStatus(heard, RETURNED, ghn, true));
  }

  /** The order is handed to the carrier: one new shipment, at the carrier's fee rounded to a whole amount. */
  predicate HandedOver(info: OrderInfo, o: OrderRow, o': OrderRow, ghn: GhnReply) {
    && ghn.GhnOrder? && o.shipment.None? && o'.shipment.Some?
    && o'.status == PROCESSING
    && o'.shippingFee as real - 0.5 <= ghn.fee < o'.shippingFee as real + 0.5
    && (info.discountAmount <= info.subtotalAmount ==>
          && o'.totalAmount == info.subtotalAmount - info.discountAmount + o'.shippingFee
          && o'.shipment.value.codAmount == if info.paymentMethod == COD then info.subtotalAmount - info.discountAmount else 0)
    && (info.discountAmount > info.subtotalAmount ==>
          o'.totalAmount == o'.shippingFee && o'.shipment.value.codAmount == 0)
    && o'.shipment.value.code == ghn.code && o'.shipment.value.status == ReadyToPick
    && o'.shipment.value.shippingFee == o'.shippingFee
    && o'.shipment.value.shippedAt.None? && o'.shipment.value.deliveredAt.None?
    && o'.returnRequestedAt == o.returnRequestedAt && o'.released == o.released
  }

  lemma ProcessHandsOver(info: OrderInfo, o: OrderRow, ghn: GhnReply)
    requires o.shipment.None?
    ensures if info.addressComplete && ghn.GhnOrder? then HandedOver(info, o, Process(info, o, o, ghn), ghn)
            else Process(info, o, o, ghn) == o
  {}

  /** In every run, the event that gives the order its shipment raises the total by the carrier's fee, to within one half. */
  lemma HandOverChargesTheFee(info: OrderInfo, es: seq<Event>, e: Event)
    requires Run(info, NewOrder(info), es).shipment.None? && Run(info, NewOrder(info), es + [e]).shipment.Some?
    ensures e.UpdateStatus? && e.target == PROCESSING && e.ghn.GhnOrder?
    ensures var raised := Run(info, NewOrder(info), es + [e]).totalAmount - Run(info, NewOrder(info), es).totalAmount;
            raised as real - 0.5 <= e.ghn.fee < raised as real + 0.5
  {
    RunMore(info, NewOrder(info), es, e);
    MoneyAlwaysAgrees(info, es);
  }

  /** Exactly the returns whose request is more than seven days old are rolled back. */
  predicate RolledBack(o: OrderRow, o': OrderRow, now: Time) {
    o' == if o.status == RETURNING && o.returnRequestedAt.Some? && o.returnRequestedAt.value + 604_800_000 < now
          then o.(status := DELIVERED, returnRequestedAt := None) else o
  }

  lemma RollBackMeans(o: OrderRow, now: Time)
    ensures RolledBack(o, RollBackReturn(o, now), now)
    ensures Overdue(o, now - RETURN_WINDOW) <==>
            o.status == RETURNING && o.returnRequestedAt.Some? && o.returnRequestedAt.value + 604_800_000 < now
  {}

  // ----- Which runs -----

  /** The event acts on the row as it is now: nothing was written between its read and its write. */
  predicate Fresh(o: OrderRow, e: Event) {
    match e
    case UpdateStatus(seen, _, _, _) => seen == o
    case Cancel(seen, _) => seen == o
    case RequestReturn(seen, _) => seen == o
    case Webhook(seen, _, _) => o.shipment == Some(seen)
    case CronRollback(_) => true
    case Compensate => true
  }

  ghost predicate Undisturbed(info: OrderInfo, o: OrderRow, es: seq<Event>) {
    es == [] || (Undisturbed(info, o, es[..|es| - 1]) && Fresh(Run(info, o, es[..|es| - 1]), es[|es| - 1]))
  }

  /** What the service read, however long ago, was the row at some point of the run. */
  ghost predicate ReadBefore(info: OrderInfo, o: OrderRow, past: seq<Event>, e: Event) {
    e.CronRollback? || e.Compensate? || exists k | 0 <= k <= |past| :: Fresh(Run(info, o, past[..k]), e)
  }

  ghost predicate Historical(info: OrderInfo, o: OrderRow, es: seq<Event>) {
    es == [] || (Historical(info, o, es[..|es| - 1]) && ReadBefore(info, o, es[..|es| - 1], es[|es| - 1]))
  }

  /** The instant an event happens at; untimed events do not move the clock. */
  function At(e: Event, clock: Time): Time {
    match e
    case RequestReturn(_, now) => now
    case Webhook(_, _, now) => now
    case _ => clock
  }

  predicate OnTime(e: Event, clock: Time) {
    clock <= At(e, clock) && (e.CronRollback? ==> e.readAt <= clock)
  }

  function Clock(clock: Time, es: seq<Event>): Time {
    if es == [] then clock else At(es[|es| - 1], Clock(clock, es[..|es| - 1]))
  }

  /** The clock never goes back. */
  ghost predicate Timely(clock: Time, es: seq<Event>) {
    es == [] || (Timely(clock, es[..|es| - 1]) && OnTime(es[|es| - 1], Clock(clock, es[..|es| - 1])))
  }

  lemma {:induction false} RunPrefix(info: OrderInfo, o: OrderRow, es: seq<Event>, i: nat)
    requires i <= |es|
    ensures Run(info, o, es) == Run(info, Run(info, o, es[..i]), es[i..])
  {
    if i == |es| {
      assert es[..i] == es;
    } else {
      var n := |es| - 1;
      RunPrefix(info, o, es[..n], i);
      assert es[..n][..i] == es[..i];
      assert es[..n][i..] == es[i..][..n - i];
    }
  }

  lemma RunMore(info: OrderInfo, o: OrderRow, es: seq<Event>, e: Event)
    ensures Run(info, o, es + [e]) == Step(info, Run(info, o, es), e)
  {
    assert (es + [e])[..|es|] == es;
  }

  // ----- Money -----

  /** What the customer owes, and what the carrier collects, always agree with the order's amounts. */
  predicate MoneyAgrees(info: OrderInfo, o: OrderRow) {
    && o.totalAmount == AmountBeforeShipping(info) + o.shippingFee
    && match o.shipment
       case None => o.shippingFee == 0
       case Some(s) => s.shippingFee == o.shippingFee && s.codAmount == CodAmount(info)
  }

  /** Holds in every run of all events, stale reads and misuse included. */
  lemma {:induction false} MoneyAlwaysAgrees(info: OrderInfo, es: seq<Event>)
    ensures MoneyAgrees(info, Run(info, NewOrder(info), es))
  {
    if es != [] {
      MoneyAlwaysAgrees(info, es[..|es| - 1]);
    }
  }

  // ----- Goods are released at most once -----

  /** The goods are back at most once, and an order whose goods are back is closed. */
  predicate Settled(o: OrderRow) {
    o.released <= 1 && (o.released == 1 ==> o.status in {CANCELLED, RETURNED})
  }

  /** The guards of the four branches that put goods back. */
  predicate Releases(o: OrderRow, e: Event) {
    match e
    case Cancel(seen, stocked) => seen.status == PENDING && stocked
    case UpdateStatus(seen, target, _, stocked) =>
      stocked && ((target == CANCELLED && seen.status == PENDING) || (target == RETURNED && seen.status == RETURNING))
    case Webhook(seen, ghnStatus, _) =>
      o.shipment.Some? && MapGhnStatus(ghnStatus) == Some(CANCELLED) && CarrierRestocks(o, seen)
    case _ => false
  }

  /** The guards of the branches that write an open status whatever the row's own status is. */
  predicate Revives(info: OrderInfo, o: OrderRow, e: Event) {
    match e
    case UpdateStatus(seen, target, ghn, _) =>
      if target == PROCESSING then seen.shipment.Some? || (info.addressComplete && ghn.GhnOrder? && o.shipment.None?)
      else target !in {CANCELLED, RETURNED}
    case RequestReturn(seen, now) => ReturnAllowed(seen, now)
    case Webhook(_, ghnStatus, _) =>
      o.shipment.Some? && MapGhnStatus(ghnStatus).Some? && MapGhnStatus(ghnStatus) != Some(CANCELLED)
    case _ => false
  }

  /** The goods are already back, and the event puts them back again or opens the order anew. */
  predicate Reopens(info: OrderInfo, o: OrderRow, e: Event) {
    o.released == 1 && (Releases(o, e) || Revives(info, o, e))
  }

  ghost predicate NeverReopens(info: OrderInfo, o: OrderRow, es: seq<Event>) {
    forall i | 0 <= i < |es| :: !Reopens(info, Run(info, o, es[..i]), es[i])
  }

  lemma ReleasesExactly(info: OrderInfo, o: OrderRow, e: Event)
    ensures Step(info, o, e).released == o.released + if Releases(o, e) then 1 else 0
  {}

  lemma StepSettlesExactly(info: OrderInfo, o: OrderRow, e: Event)
    requires Settled(o)
    ensures Settled(Step(info, o, e)) <==> !Reopens(info, o, e)
  {
    ReleasesExactly(info, o, e);
  }

  /**
   * Every run whatsoever, stale reads and misuse included: the order stays settled throughout if and
   * only if no event reopens it.
   */
  lemma {:induction false} SettledExactly(info: OrderInfo, es: seq<Event>)
    ensures (forall i | 0 <= i <= |es| :: Settled(Run(info, NewOrder(info), es[..i]))) <==>
            NeverReopens(info, NewOrder(info), es)
  {
    var o := NewOrder(info);
    if es == [] {
      assert es[..0] == [];
    } else {
      var n := |es| - 1;
      SettledExactly(info, es[..n]);
      assert forall i | 0 <= i <= n :: es[..n][..i] == es[..i];
      assert es[..n + 1] == es;
      assert forall i | 0 <= i < n :: es[..n][i] == es[i];
      if Settled(Run(info, o, es[..n])) {
        StepSettlesExactly(info, Run(info, o, es[..n]), es[n]);
      }
    }
  }

  /** In every run that never reopens the order its goods go back at most once. */
  lemma ReleasedAtMostOnce(info: OrderInfo, es: seq<Event>)
    requires NeverReopens(info, NewOrder(info), es)
    ensures Settled(Run(info, NewOrder(info), es))
  {
    SettledExactly(info, es);
    assert es[..|es|] == es;
  }

  /** At most two undisturbed events that release a reopened order's goods again. */
  function Again(info: OrderInfo, o: OrderRow, now: Time): seq<Event> {
    if o.released >= 2 then []
    else if o.shipment.Some? then
      var word := Webhook(o.shipment.value, GhnReturn, now);
      [word, UpdateStatus(Step(info, o, word), RETURNED, GhnDown, true)]
    else if o.status == PENDING then [Cancel(o, true)]
    else if o.status == RETURNING then [UpdateStatus(o, RETURNED, GhnDown, true)]
    else
      var write := UpdateStatus(o, PENDING, GhnDown, true);
      [write, Cancel(Step(info, o, write), true)]
  }

  lemma RunTwo(info: OrderInfo, o: OrderRow, es: seq<Event>)
    requires |es| <= 2
    ensures Run(info, o, es) == if |es| == 0 then o
                                else if |es| == 1 then Step(info, o, es[0])
                                else Step(info, Step(info, o, es[0]), es[1])
    ensures Undisturbed(info, o, es) <==>
            && (|es| >= 1 ==> Fresh(o, es[0]))
            && (|es| == 2 ==> Fresh(Step(info, o, es[0]), es[1]))
  {
    if |es| == 2 {
      assert es[..1][..0] == [] && es[..1][0] == es[0];
      assert Run(info, o, es[..1]) == Step(info, o, es[0]);
    }
  }

  /** The converse: whatever reopened the order, at most two undisturbed events put its goods back a second time. */
  lemma ReopenedIsReleasedTwice(info: OrderInfo, es: seq<Event>, e: Event, now: Time)
    requires Settled(Run(info, NewOrder(info), es)) && Reopens(info, Run(info, NewOrder(info), es), e)
    ensures var reopened := Run(info, NewOrder(info), es + [e]);
            && Undisturbed(info, reopened, Again(info, reopened, now))
            && Run(info, NewOrder(info), es + [e] + Again(info, reopened, now)).released == 2
  {
    var o := Run(info, NewOrder(info), es);
    RunMore(info, NewOrder(info), es, e);
    ReleasesExactly(info, o, e);
    var reopened := Step(info, o, e);
    var more := Again(info, reopened, now);
    RunTwo(info, reopened, more);
    RunPrefix(info, NewOrder(info), es + [e] + more, |es| + 1);
    assert (es + [e] + more)[..|es| + 1] == es + [e] && (es + [e] + more)[|es| + 1..] == more;
  }

  /** Undisturbed, only these reopen a settled order: PROCESSING, the generic write, and late words of the carrier. */
  lemma UndisturbedReopensExactly(info: OrderInfo, o: OrderRow, e: Event)
    requires Settled(o) && Fresh(o, e)
    ensures Reopens(info, o, e) <==>
            && o.released == 1
            && ((e.UpdateStatus? && e.target == PROCESSING && (o.shipment.Some? || (info.addressComplete && e.ghn.GhnOrder?)))
                || (e.UpdateStatus? && e.target !in {PROCESSING, CANCELLED, RETURNED})
                || (e.Webhook? && MapGhnStatus(e.ghnStatus).Some? && MapGhnStatus(e.ghnStatus) != Some(CANCELLED))
                || (e.Webhook? && MapGhnStatus(e.ghnStatus) == Some(CANCELLED)
                    && o.status == RETURNED && e.seenShipment.shippedAt.None?))
  {}

  /** Cancelling, confirming and requesting a return reopen a settled order only on a row read too early. */
  lemma OnlyStaleReadsReopen(info: OrderInfo, o: OrderRow, e: Event)
    requires Settled(o) && Reopens(info, o, e)
    requires e.Cancel? || e.RequestReturn? || (e.UpdateStatus? && e.target in {CANCELLED, RETURNED})
    ensures !Fresh(o, e)
  {}

  /** In every run, an order marked RETURNED had its goods put back. */
  lemma {:induction false} ReturnedWasReleased(info: OrderInfo, es: seq<Event>)
    ensures Run(info, NewOrder(info), es).status == RETURNED ==> Run(info, NewOrder(info), es).released >= 1
  {
    if es != [] {
      ReturnedWasReleased(info, es[..|es| - 1]);
    }
  }

  predicate CancelledIsAccounted(o: OrderRow) {
    o.status == CANCELLED && o.released == 0 ==> StampOf(o, Shipping).Some?
  }

  lemma StepKeepsCancelledAccounted(info: OrderInfo, o: OrderRow, e: Event)
    requires CancelledIsAccounted(o) && e != Compensate
    requires e.Webhook? && e.seenShipment.shippedAt.Some? ==> StampOf(o, Shipping).Some?
    ensures CancelledIsAccounted(Step(info, o, e))
  {}

  /** An order cancelled after creation without its goods going back had already been shipped. */
  lemma {:induction false} CancelledUnreleasedWasShipped(info: OrderInfo, es: seq<Event>)
    requires Historical(info, NewOrder(info), es) && Compensate !in es
    ensures CancelledIsAccounted(Run(info, NewOrder(info), es))
  {
    if es != [] {
      var n := |es| - 1;
      CancelledUnreleasedWasShipped(info, es[..n]);
      assert es[n] in es;
      if es[n].Webhook? {
        UnreadStampIsUnwritten(info, NewOrder(info), es[..n], es[n], Shipping);
      }
      StepKeepsCancelledAccounted(info, Run(info, NewOrder(info), es[..n]), es[n]);
    }
  }

  /** The guards under which a cancelled or returned order takes another status. */
  predicate Leaves(info: OrderInfo, o: OrderRow, e: Event) {
    || Revives(info, o, e)
    || (o.status == RETURNED && (e.Compensate? || (e.Cancel? && Releases(o, e))
                                 || (e.UpdateStatus? && e.target == CANCELLED && Releases(o, e))
                                 || (e.Webhook? && o.shipment.Some? && MapGhnStatus(e.ghnStatus) == Some(CANCELLED))))
    || (o.status == CANCELLED && e.UpdateStatus? && e.target == RETURNED && Releases(o, e))
  }

  lemma StepLeavesExactly(info: OrderInfo, o: OrderRow, e: Event)
    requires o.status in {CANCELLED, RETURNED}
    ensures Step(info, o, e).status != o.status <==> Leaves(info, o, e)
  {}

  lemma {:induction false} NeverLeaves(info: OrderInfo, o: OrderRow, es: seq<Event>, j: nat)
    requires o.status in {CANCELLED, RETURNED} && j <= |es|
    requires forall i | 0 <= i < |es| :: !Leaves(info, Run(info, o, es[..i]), es[i])
    ensures Run(info, o, es[..j]).status == o.status
  {
    if j > 0 {
      NeverLeaves(info, o, es, j - 1);
      assert es[..j] == es[..j - 1] + [es[j - 1]];
      RunMore(info, o, es[..j - 1], es[j - 1]);
      StepLeavesExactly(info, Run(info, o, es[..j - 1]), es[j - 1]);
    }
  }

  /** A cancelled or returned order keeps its status for the rest of a run if and only if no such guard holds. */
  lemma TerminalExactly(info: OrderInfo, o: OrderRow, es: seq<Event>)
    requires o.status in {CANCELLED, RETURNED}
    ensures (forall i | 0 <= i <= |es| :: Run(info, o, es[..i]).status == o.status) <==>
            (forall i | 0 <= i < |es| :: !Leaves(info, Run(info, o, es[..i]), es[i]))
  {
    if forall i | 0 <= i < |es| :: !Leaves(info, Run(info, o, es[..i]), es[i]) {
      forall j | 0 <= j <= |es|
        ensures Run(info, o, es[..j]).status == o.status
      {
        NeverLeaves(info, o, es, j);
      }
    } else {
      var k :| 0 <= k < |es| && Leaves(info, Run(info, o, es[..k]), es[k]);
      assert es[..k + 1] == es[..k] + [es[k]];
      RunMore(info, o, es[..k], es[k]);
      if Run(info, o, es[..k]).status == o.status {
        StepLeavesExactly(info, Run(info, o, es[..k]), es[k]);
        assert Run(info, o, es[..k + 1]).status != o.status;
      }
    }
  }

  // Runs that put goods back twice, one for each way of reopening.

  lemma {:induction false} Unroll(info: OrderInfo, o: OrderRow, e: Event, es: seq<Event>)
    ensures Run(info, o, [e] + es) == Run(info, Step(info, o, e), es)
  {
    assert ([e] + es)[..1] == [e] && ([e] + es)[1..] == es;
    assert [e][..0] == [];
    assert Run(info, o, [e]) == Step(info, o, e);
    RunPrefix(info, o, [e] + es, 1);
  }

  lemma StaleCancelReleasesTwice(info: OrderInfo)
    ensures var o := NewOrder(info);
            var es := [Cancel(o, true), Cancel(o, true)];
            Run(info, o, es).released == 2
  {
    var o := NewOrder(info);
    var e := Cancel(o, true);
    assert [e] + [e] == [e, e] && [e] + [] == [e];
    Unroll(info, o, e, [e]);
    Unroll(info, Step(info, o, e), e, []);
  }

  lemma GenericWriteReleasesTwice(info: OrderInfo)
    ensures var o := NewOrder(info);
            var cancelled := Step(info, o, Cancel(o, true));
            var reopened := Step(info, cancelled, UpdateStatus(cancelled, PENDING, GhnDown, true));
            Step(info, reopened, Cancel(reopened, true)).released == 2
  {}

  lemma ProcessingACancelledOrderReleasesTwice(info: OrderInfo)
    requires info.addressComplete
    ensures var o := NewOrder(info);
            var cancelled := Step(info, o, Cancel(o, true));
            var processed := Step(info, cancelled, UpdateStatus(cancelled, PROCESSING, GhnOrder("G", 0.0), true));
            && processed.shipment.Some?
            && Step(info, processed, Webhook(processed.shipment.value, GhnCancel, 0)).released == 2
  {}

  lemma CarrierAfterReturnReleasesTwice(info: OrderInfo)
    requires info.addressComplete
    ensures var o := NewOrder(info);
            var processed := Step(info, o, UpdateStatus(o, PROCESSING, GhnOrder("G", 0.0), true));
            && processed.shipment.Some?
            && var returning := Step(info, processed, Webhook(processed.shipment.value, GhnReturn, 0));
               var returned := Step(info, returning, UpdateStatus(returning, RETURNED, GhnDown, true));
               && returned.shipment.Some?
               && Step(info, returned, Webhook(returned.shipment.value, GhnCancel, 1)).released == 2
  {}

  lemma LateWordReleasesTwice(info: OrderInfo)
    requires info.addressComplete
    ensures var o := NewOrder(info);
            var processed := Step(info, o, UpdateStatus(o, PROCESSING, GhnOrder("G", 0.0), true));
            && processed.shipment.Some?
            && var cancelled := Step(info, processed, Webhook(processed.shipment.value, GhnCancel, 0));
               && cancelled.shipment.Some?
               && var late := Step(info, cancelled, Webhook(cancelled.shipment.value, Picking, 1));
                  && late.shipment.Some?
                  && Step(info, late, Webhook(late.shipment.value, GhnCancel, 2)).released == 2
  {}

  // ----- Timestamps -----

  datatype Stamp = Shipping | Delivery

  function StampIn(s: Shipment, stamp: Stamp): Option<Time> {
    if stamp == Shipping then s.shippedAt else s.deliveredAt
  }

  function StampOf(o: OrderRow, stamp: Stamp): Option<Time> {
    if o.shipment.Some? then StampIn(o.shipment.value, stamp) else None
  }

  /** The carrier's word reports the transit or the delivery. */
  predicate Reports(ghnStatus: GhnStatus, stamp: Stamp) {
    match stamp
    case Shipping => ghnStatus in {Transporting, Sorting, Delivering, MoneyCollectDelivering}
    case Delivery => ghnStatus == Delivered
  }

  /** A report whose read missed the recorded instant, or saw another one. */
  predicate Overwrites(o: OrderRow, e: Event, stamp: Stamp) {
    && StampOf(o, stamp).Some? && e.Webhook? && Reports(e.ghnStatus, stamp)
    && FirstOr(StampIn(e.seenShipment, stamp), e.now) != StampOf(o, stamp)
  }

  ghost predicate Steady(info: OrderInfo, o: OrderRow, es: seq<Event>, stamp: Stamp) {
    forall i | 0 <= i < |es| :: !Overwrites(Run(info, o, es[..i]), es[i], stamp)
  }

  predicate Kept(before: OrderRow, after: OrderRow, stamp: Stamp) {
    StampOf(before, stamp).Some? ==> StampOf(after, stamp) == StampOf(before, stamp)
  }

  lemma StepMovesExactly(info: OrderInfo, o: OrderRow, e: Event, stamp: Stamp)
    ensures Kept(o, Step(info, o, e), stamp) <==> !Overwrites(o, e, stamp)
    ensures StampOf(o, stamp).Some? ==> StampOf(Step(info, o, e), stamp).Some?
  {}

  /** No event ever erases a timestamp. */
  lemma {:induction false} StampsStay(info: OrderInfo, o: OrderRow, es: seq<Event>, i: nat)
    requires i <= |es|
    ensures forall stamp :: StampOf(Run(info, o, es[..i]), stamp).Some? ==> StampOf(Run(info, o, es), stamp).Some?
  {
    if i == |es| {
      assert es[..i] == es;
    } else {
      var n := |es| - 1;
      StampsStay(info, o, es[..n], i);
      assert es[..n][..i] == es[..i];
      forall stamp
        ensures StampOf(Run(info, o, es[..n]), stamp).Some? ==> StampOf(Run(info, o, es), stamp).Some?
      {
        StepMovesExactly(info, Run(info, o, es[..n]), es[n], stamp);
      }
    }
  }

  lemma {:induction false} SteadyKeeps(info: OrderInfo, o: OrderRow, es: seq<Event>, i: nat, j: nat, stamp: Stamp)
    requires i <= j <= |es| && Steady(info, o, es, stamp)
    ensures Kept(Run(info, o, es[..i]), Run(info, o, es[..j]), stamp)
  {
    if i < j {
      SteadyKeeps(info, o, es, i, j - 1, stamp);
      assert es[..j] == es[..j - 1] + [es[j - 1]];
      RunMore(info, o, es[..j - 1], es[j - 1]);
      StepMovesExactly(info, Run(info, o, es[..j - 1]), es[j - 1], stamp);
    }
  }

  /** In every run, a timestamp once written is never moved if and only if no report overwrites it. */
  lemma TimestampsWrittenOnce(info: OrderInfo, o: OrderRow, es: seq<Event>, stamp: Stamp)
    ensures Steady(info, o, es, stamp) <==>
            forall i, j | 0 <= i <= j <= |es| :: Kept(Run(info, o, es[..i]), Run(info, o, es[..j]), stamp)
  {
    if Steady(info, o, es, stamp) {
      forall i, j | 0 <= i <= j <= |es|
        ensures Kept(Run(info, o, es[..i]), Run(info, o, es[..j]), stamp)
      {
        SteadyKeeps(info, o, es, i, j, stamp);
      }
    } else {
      var k :| 0 <= k < |es| && Overwrites(Run(info, o, es[..k]), es[k], stamp);
      assert es[..k + 1] == es[..k] + [es[k]];
      RunMore(info, o, es[..k], es[k]);
      StepMovesExactly(info, Run(info, o, es[..k]), es[k], stamp);
      assert !Kept(Run(info, o, es[..k]), Run(info, o, es[..k + 1]), stamp);
    }
  }

  /** Only a report read before the first one was written, and dated otherwise, moves a timestamp. */
  lemma OverwritesExactlyWhenReadTooEarly(info: OrderInfo, o: OrderRow, es: seq<Event>, e: Event, stamp: Stamp)
    requires Steady(info, o, es, stamp) && ReadBefore(info, o, es, e)
    ensures Overwrites(Run(info, o, es), e, stamp) <==>
            && StampOf(Run(info, o, es), stamp).Some? && e.Webhook? && Reports(e.ghnStatus, stamp)
            && StampIn(e.seenShipment, stamp).None? && StampOf(Run(info, o, es), stamp) != Some(e.now)
  {
    if e.Webhook? {
      var k :| 0 <= k <= |es| && Fresh(Run(info, o, es[..k]), e);
      SteadyKeeps(info, o, es, k, |es|, stamp);
      assert es[..|es|] == es;
    }
  }

  /** Two deliveries of one status that both read before either wrote do move the timestamp. */
  lemma ConcurrentWebhooksMoveTimestamp(o: OrderRow, first: Time, second: Time)
    requires o.shipment.Some? && o.shipment.value.deliveredAt.None? && first != second
    ensures var seen := o.shipment.value;
            var once := HandleWebhook(o, seen, Delivered, first);
            && once.shipment.Some?
            && once.shipment.value.deliveredAt == Some(first)
            && HandleWebhook(once, seen, Delivered, second).shipment.value.deliveredAt == Some(second)
  {}

  /** The instant of the first report of a run. */
  function FirstReport(es: seq<Event>, stamp: Stamp): Option<Time> {
    if es == [] then None
    else
      var earlier, last := FirstReport(es[..|es| - 1], stamp), es[|es| - 1];
      if earlier.Some? then earlier
      else if last.Webhook? && Reports(last.ghnStatus, stamp) then Some(last.now)
      else None
  }

  /** What the timestamps mean: when the carrier first reported transit, and when it first reported delivery. */
  lemma {:induction false} TimestampsRecordFirstReports(info: OrderInfo, o: OrderRow, es: seq<Event>, stamp: Stamp)
    requires Historical(info, o, es) && Steady(info, o, es, stamp)
    requires o.shipment.Some? && StampOf(o, stamp).None?
    ensures Run(info, o, es).shipment.Some?
    ensures StampOf(Run(info, o, es), stamp) == FirstReport(es, stamp)
  {
    if es != [] {
      var n := |es| - 1;
      SteadyPrefix(info, o, es, n, stamp);
      TimestampsRecordFirstReports(info, o, es[..n], stamp);
      if es[n].Webhook? {
        UnreadStampIsUnwritten(info, o, es[..n], es[n], stamp);
      }
      StepRecordsFirstReport(info, Run(info, o, es[..n]), es[n], stamp);
    }
  }

  lemma StepRecordsFirstReport(info: OrderInfo, o: OrderRow, e: Event, stamp: Stamp)
    requires o.shipment.Some? && !Overwrites(o, e, stamp)
    requires e.Webhook? && StampOf(o, stamp).None? ==> StampIn(e.seenShipment, stamp).None?
    ensures Step(info, o, e).shipment.Some?
    ensures StampOf(Step(info, o, e), stamp) ==
            if StampOf(o, stamp).None? && e.Webhook? && Reports(e.ghnStatus, stamp) then Some(e.now) else StampOf(o, stamp)
  {}

  /** While no instant is recorded, no read can have seen one. */
  lemma UnreadStampIsUnwritten(info: OrderInfo, o: OrderRow, past: seq<Event>, e: Event, stamp: Stamp)
    requires e.Webhook? && ReadBefore(info, o, past, e)
    ensures StampOf(Run(info, o, past), stamp).None? ==> StampIn(e.seenShipment, stamp).None?
  {
    var k :| 0 <= k <= |past| && Fresh(Run(info, o, past[..k]), e);
    StampsStay(info, o, past, k);
  }

  lemma SteadyPrefix(info: OrderInfo, o: OrderRow, es: seq<Event>, i: nat, stamp: Stamp)
    requires i <= |es| && Steady(info, o, es, stamp)
    ensures Steady(info, o, es[..i], stamp)
  {
    forall k | 0 <= k < i
      ensures !Overwrites(Run(info, o, es[..i][..k]), es[..i][k], stamp)
    {
      assert es[..i][..k] == es[..k] && es[..i][k] == es[k];
    }
  }

  /** Delivering the same webhook again changes nothing further: status, money, timestamps, release. */
  lemma WebhookIdempotent(o: OrderRow, ghnStatus: GhnStatus, now: Time, later: Time)
    requires o.shipment.Some?
    ensures var once := HandleWebhook(o, o.shipment.value, ghnStatus, now);
            && once.shipment.Some?
            && HandleWebhook(once, once.shipment.value, ghnStatus, later) == once
  {}

  // ----- The return window -----

  /** A run under a clock that never goes back, on reads however old, in which no delivery is re-dated. */
  ghost predicate Orderly(info: OrderInfo, o: OrderRow, clock: Time, es: seq<Event>) {
    Timely(clock, es) && Historical(info, o, es) && Steady(info, o, es, Delivery)
  }

  lemma {:induction false} OrderlyPrefix(info: OrderInfo, o: OrderRow, clock: Time, es: seq<Event>, i: nat)
    requires i <= |es| && Orderly(info, o, clock, es)
    ensures Orderly(info, o, clock, es[..i])
    ensures i < |es| ==> OnTime(es[i], Clock(clock, es[..i])) && ReadBefore(info, o, es[..i], es[i])
    ensures Clock(clock, es[..i]) <= Clock(clock, es)
  {
    if i == |es| {
      assert es[..i] == es;
    } else {
      var n := |es| - 1;
      SteadyPrefix(info, o, es, n, Delivery);
      OrderlyPrefix(info, o, clock, es[..n], i);
      assert es[..n][..i] == es[..i];
    }
  }

  /** Delivery precedes any recorded return request, and neither is in the future. */
  ghost predicate Dated(o: OrderRow, clock: Time) {
    && (StampOf(o, Delivery).Some? ==> StampOf(o, Delivery).value <= clock)
    && (o.returnRequestedAt.Some? ==>
          && StampOf(o, Delivery).Some?
          && StampOf(o, Delivery).value <= o.returnRequestedAt.value <= clock)
  }

  predicate Accepted(e: Event) {
    e.RequestReturn? && ReturnAllowed(e.seen, e.now)
  }

  /** An accepted request saw the delivery the order still records, whenever it read. */
  lemma AcceptedSawTheDelivery(info: OrderInfo, o: OrderRow, past: seq<Event>, e: Event)
    requires Steady(info, o, past, Delivery) && ReadBefore(info, o, past, e) && Accepted(e)
    ensures StampOf(Run(info, o, past), Delivery).Some?
    ensures StampOf(Run(info, o, past), Delivery) == StampOf(e.seen, Delivery)
  {
    var k :| 0 <= k <= |past| && Fresh(Run(info, o, past[..k]), e);
    SteadyKeeps(info, o, past, k, |past|, Delivery);
    assert past[..|past|] == past;
  }

  lemma StepKeepsDated(info: OrderInfo, o: OrderRow, clock: Time, e: Event)
    requires Dated(o, clock) && OnTime(e, clock) && !Overwrites(o, e, Delivery)
    requires e.Webhook? && StampOf(o, Delivery).None? ==> e.seenShipment.deliveredAt.None?
    requires Accepted(e) ==> StampOf(o, Delivery).Some? && StampOf(o, Delivery) == StampOf(e.seen, Delivery)
    ensures Dated(Step(info, o, e), At(e, clock))
  {}

  lemma {:induction false} OrderlyRunsAreDated(info: OrderInfo, clock: Time, es: seq<Event>)
    requires Orderly(info, NewOrder(info), clock, es)
    ensures Dated(Run(info, NewOrder(info), es), Clock(clock, es))
  {
    if es != [] {
      var n := |es| - 1;
      var o, e := NewOrder(info), es[n];
      OrderlyPrefix(info, o, clock, es, n);
      OrderlyRunsAreDated(info, clock, es[..n]);
      if e.Webhook? {
        UnreadStampIsUnwritten(info, o, es[..n], e, Delivery);
      } else if Accepted(e) {
        AcceptedSawTheDelivery(info, o, es[..n], e);
      }
      StepKeepsDated(info, Run(info, o, es[..n]), Clock(clock, es[..n]), e);
    }
  }

  /**
   * Every accepted return request, on a row read however early, was made within seven days of the
   * delivery the order still records at the end of the run.
   */
  lemma ReturnsAcceptedInWindow(info: OrderInfo, clock: Time, es: seq<Event>, i: nat)
    requires Orderly(info, NewOrder(info), clock, es) && i < |es| && Accepted(es[i])
    ensures var delivered := StampOf(Run(info, NewOrder(info), es), Delivery);
            delivered.Some? && delivered.value <= es[i].now <= delivered.value + RETURN_WINDOW
  {
    var o := NewOrder(info);
    OrderlyPrefix(info, o, clock, es, i);
    OrderlyRunsAreDated(info, clock, es[..i]);
    AcceptedSawTheDelivery(info, o, es[..i], es[i]);
    SteadyKeeps(info, o, es, i, |es|, Delivery);
    assert es[..|es|] == es;
  }

  /** Once the hourly job has rolled a return back, no later request on the order is accepted. */
  lemma NoReturnAfterRollback(info: OrderInfo, clock: Time, es: seq<Event>, i: nat, j: nat)
    requires Orderly(info, NewOrder(info), clock, es) && i < j < |es|
    requires es[i].CronRollback? && Overdue(Run(info, NewOrder(info), es[..i]), es[i].readAt - RETURN_WINDOW)
    ensures !Accepted(es[j])
  {
    var o := NewOrder(info);
    OrderlyPrefix(info, o, clock, es, i);
    OrderlyPrefix(info, o, clock, es, j);
    OrderlyPrefix(info, o, clock, es[..j], i);
    assert es[..j][..i] == es[..i];
    OrderlyRunsAreDated(info, clock, es[..i]);
    SteadyKeeps(info, o, es, i, j, Delivery);
    if Accepted(es[j]) {
      AcceptedSawTheDelivery(info, o, es[..j], es[j]);
    }
  }
}
