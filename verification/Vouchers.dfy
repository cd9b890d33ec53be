/** Vouchers: discount rules and arithmetic, application, release and the usage limit. */
module Vouchers {
  import opened Options

  type VoucherCode = string
  type UserId = string
  type Time = int

  datatype DiscountType = FIXED_AMOUNT | PERCENTAGE
  datatype Voucher = Voucher(
    discountType: DiscountType, discountValue: real, maxDiscount: Option<real>, minOrderValue: real,
    usageLimit: int, usedCount: int, startDate: Time, endDate: Time, isActive: bool)

  datatype Refusal = NotFound | Inactive | OutOfDates | BelowMinimum | Exhausted | AlreadyUsed | BadRule | BadDates | CodeTaken
  datatype Applied = Applied(discountAmount: int) | Refused(why: Refusal)

  // ----- Discounts -----

  predicate ValidDiscountRule(v: Voucher) {
    && v.discountValue > 0.0
    && match v.discountType
       case PERCENTAGE => v.discountValue <= 100.0 && (v.maxDiscount.Some? ==> v.maxDiscount.value > 0.0)
       case FIXED_AMOUNT => v.maxDiscount.None?
  }

  function Min(x: int, y: int): int { if x <= y then x else y }
  function Max(x: int, y: int): int { if x <= y then y else x }

  /** The amount a voucher sees: what the promotions leave of the subtotal. */
  function AmountForVoucher(subtotalAmount: int, promotionDiscountAmount: int): int {
    Max(0, subtotalAmount - promotionDiscountAmount)
  }

  function Raw(v: Voucher, orderAmount: int): real {
    orderAmount as real * v.discountValue / 100.0
  }

  function Capped(v: Voucher, orderAmount: int): real {
    if v.maxDiscount.Some? && v.maxDiscount.value < Raw(v, orderAmount) then v.maxDiscount.value
    else Raw(v, orderAmount)
  }

  function CalculateDiscount(v: Voucher, orderAmount: int): int {
    if orderAmount <= 0 then 0
    else if v.discountType == FIXED_AMOUNT then Max(0, Min(orderAmount, v.discountValue.Floor))
    else Max(0, Min(orderAmount, Capped(v, orderAmount).Floor))
  }

  function Payable(v: Voucher, orderAmount: int): int {
    orderAmount - CalculateDiscount(v, orderAmount)
  }

  /**
   * d is what the voucher takes off an amount: of a percentage its share rounded down, or the cap rounded
   * down where the share exceeds it; of a fixed amount itself rounded down, or all where that is smaller.
   */
  predicate TakesOff(v: Voucher, amount: int, d: int) {
    if amount <= 0 then d == 0
    else
      match v.discountType
      case PERCENTAGE =>
        var share := amount as real * v.discountValue;
        if v.maxDiscount.Some? && 100.0 * v.maxDiscount.value < share
        then d as real <= v.maxDiscount.value < d as real + 1.0
        else 100.0 * d as real <= share < 100.0 * d as real + 100.0
      case FIXED_AMOUNT =>
        if v.discountValue <= amount as real then d as real <= v.discountValue < d as real + 1.0
        else d == amount
  }

  /** For a voucher that passes the rule check, the discount lies between zero and the order and within its cap. */
  lemma DiscountBounded(v: Voucher, orderAmount: int)
    requires ValidDiscountRule(v)
    ensures 0 <= CalculateDiscount(v, orderAmount) <= Max(0, orderAmount)
    ensures v.maxDiscount.Some? ==> CalculateDiscount(v, orderAmount) as real <= v.maxDiscount.value
    ensures TakesOff(v, orderAmount, CalculateDiscount(v, orderAmount))
  {
    if v.discountType == PERCENTAGE && orderAmount > 0 {
      RawWithinOrder(v, orderAmount);
      FloorMonotone(Capped(v, orderAmount), orderAmount as real);
    }
  }

  /** That determines the discount. */
  lemma OneTakesOff(v: Voucher, amount: int, d: int, d': int)
    requires TakesOff(v, amount, d) && TakesOff(v, amount, d')
    ensures d == d'
  {}

  lemma RawWithinOrder(v: Voucher, orderAmount: int)
    requires 0.0 <= v.discountValue <= 100.0 && orderAmount >= 0
    ensures 0.0 <= Raw(v, orderAmount) <= orderAmount as real
    ensures 100.0 * Raw(v, orderAmount) == orderAmount as real * v.discountValue
  {
    NonNegative(orderAmount as real, v.discountValue);
    NonNegative(orderAmount as real, 100.0 - v.discountValue);
  }

  lemma NonNegative(x: real, y: real)
    requires 0.0 <= x && 0.0 <= y
    ensures 0.0 <= x * y
  {}

  lemma FloorMonotone(x: real, y: real)
    requires x <= y
    ensures x.Floor <= y.Floor
  {}

  lemma FloorShift(x: real, k: int)
    ensures (x + k as real).Floor == x.Floor + k
  {}

  /** Raw discounts grow no faster than the order, for rates up to 100. */
  lemma CappedGrowth(v: Voucher, a: int, b: int)
    requires 0 <= a <= b && 0.0 <= v.discountValue <= 100.0
    ensures Capped(v, b) <= Capped(v, a) + (b - a) as real
  {
    var d := (b - a) as real;
    NonNegative(d, 100.0 - v.discountValue);
    assert b as real == a as real + d;
    assert b as real * v.discountValue == a as real * v.discountValue + d * v.discountValue;
    NonNegative(d, v.discountValue);
  }

  /** A rate above 100 discounts at least the order itself, up to the cap. */
  lemma RawAboveWhole(v: Voucher, a: int)
    requires 0 <= a && 100.0 <= v.discountValue
    ensures a as real <= Raw(v, a)
  {
    NonNegative(a as real, v.discountValue - 100.0);
  }

  lemma RawBelowZero(v: Voucher, a: int)
    requires 0 <= a && v.discountValue <= 0.0
    ensures Raw(v, a) <= 0.0
  {
    NonNegative(a as real, 0.0 - v.discountValue);
  }

  /** A larger order never costs less, whichever voucher is applied to both, valid or not. */
  lemma PayableMonotone(v: Voucher, a: int, b: int)
    requires a <= b
    ensures Payable(v, a) <= Payable(v, b)
  {
    if 0 < a && v.discountType == PERCENTAGE {
      if v.discountValue <= 0.0 {
        RawBelowZero(v, a);
        RawBelowZero(v, b);
        FloorMonotone(Capped(v, a), 0.0);
        FloorMonotone(Capped(v, b), 0.0);
      } else if v.discountValue <= 100.0 {
        CappedGrowth(v, a, b);
        FloorMonotone(Capped(v, b), Capped(v, a) + (b - a) as real);
        FloorShift(Capped(v, a), b - a);
      } else {
        RawAboveWhole(v, a);
        RawAboveWhole(v, b);
        PayableAboveWhole(v, a, b);
      }
    }
  }

  lemma PayableAboveWhole(v: Voucher, a: int, b: int)
    requires 0 < a <= b && v.discountType == PERCENTAGE
    requires a as real <= Raw(v, a) && b as real <= Raw(v, b)
    ensures Payable(v, a) <= Payable(v, b)
  {
    if v.maxDiscount.Some? {
      var m := v.maxDiscount.value;
      assert Min(a, Capped(v, a).Floor) == Min(a, m.Floor);
      assert Min(b, Capped(v, b).Floor) == Min(b, m.Floor);
    }
  }

  // ----- Checks -----

  /** validateVoucherForOrder, in the order the service checks. */
  function Check(v: Voucher, orderAmount: int, now: Time): Option<Refusal> {
    if !v.isActive then Some(Inactive)
    else if v.startDate > now || v.endDate < now then Some(OutOfDates)
    else if v.usedCount >= v.usageLimit then Some(Exhausted)
    else if orderAmount as real < v.minOrderValue then Some(BelowMinimum)
    else None
  }

  /** applyVoucherForOrder checks the minimum before the limit, then the user's history and the rule. */
  function CheckForOrder(v: Voucher, orderAmount: int, now: Time, alreadyUsed: bool): Option<Refusal> {
    if !v.isActive then Some(Inactive)
    else if v.startDate > now || v.endDate < now then Some(OutOfDates)
    else if orderAmount as real < v.minOrderValue then Some(BelowMinimum)
    else if v.usedCount >= v.usageLimit then Some(Exhausted)
    else if alreadyUsed then Some(AlreadyUsed)
    else if !ValidDiscountRule(v) then Some(BadRule)
    else None
  }

  /** The voucher is switched on, within its dates, not used up, and the amount reaches its minimum. */
  predicate Usable(v: Voucher, orderAmount: int, now: Time) {
    && v.isActive
    && v.startDate <= now <= v.endDate
    && v.usedCount < v.usageLimit
    && v.minOrderValue <= orderAmount as real
  }

  /** What a refusal tells the customer: the first of the checks, in the order of this service, that fails. */
  lemma RefusalMeans(v: Voucher, orderAmount: int, now: Time)
    ensures Check(v, orderAmount, now).None? <==> Usable(v, orderAmount, now)
    ensures Check(v, orderAmount, now) == Some(Inactive) <==> !v.isActive
    ensures Check(v, orderAmount, now) == Some(OutOfDates) <==> v.isActive && !(v.startDate <= now <= v.endDate)
    ensures Check(v, orderAmount, now) == Some(Exhausted) <==>
              v.isActive && v.startDate <= now <= v.endDate && v.usageLimit <= v.usedCount
    ensures Check(v, orderAmount, now) == Some(BelowMinimum) <==>
              v.isActive && v.startDate <= now <= v.endDate && v.usedCount < v.usageLimit
              && orderAmount as real < v.minOrderValue
  {}

  lemma RefusalForOrderMeans(v: Voucher, orderAmount: int, now: Time, alreadyUsed: bool)
    ensures CheckForOrder(v, orderAmount, now, alreadyUsed).None? <==>
              Usable(v, orderAmount, now) && !alreadyUsed && ValidDiscountRule(v)
    ensures CheckForOrder(v, orderAmount, now, alreadyUsed) == Some(BelowMinimum) <==>
              v.isActive && v.startDate <= now <= v.endDate && orderAmount as real < v.minOrderValue
    ensures CheckForOrder(v, orderAmount, now, alreadyUsed) == Some(Exhausted) <==>
              v.isActive && v.startDate <= now <= v.endDate && v.minOrderValue <= orderAmount as real
              && v.usageLimit <= v.usedCount
    ensures CheckForOrder(v, orderAmount, now, alreadyUsed) == Some(AlreadyUsed) <==>
              Usable(v, orderAmount, now) && alreadyUsed
  {}

  /** One more use of one voucher is counted, and nothing else changes. */
  predicate UsedOnceMore(before: map<VoucherCode, Voucher>, after: map<VoucherCode, Voucher>, code: VoucherCode) {
    && code in before && after.Keys == before.Keys
    && after[code] == before[code].(usedCount := before[code].usedCount + 1)
    && forall c | c in before && c != code :: after[c] == before[c]
  }

  function Bump(vs: map<VoucherCode, Voucher>, code: VoucherCode, d: int): map<VoucherCode, Voucher>
    requires code in vs
  {
    vs[code := vs[code].(usedCount := vs[code].usedCount + d)]
  }

  /** Every stored voucher passes the rule and date checks, and is used no more often than its limit allows. */
  ghost predicate WellKept(vs: map<VoucherCode, Voucher>) {
    forall c | c in vs ::
      vs[c].usedCount <= vs[c].usageLimit && ValidDiscountRule(vs[c]) && vs[c].startDate < vs[c].endDate
  }

  class VouchersService {
    var vouchers: map<VoucherCode, Voucher>

    constructor ()
      ensures vouchers == map[]
    {
      vouchers := map[];
    }

    /** A new voucher: dates and rule are checked, the code must be free, and no use is counted yet. */
    method CreateVoucher(code: VoucherCode, v: Voucher) returns (refusal: Option<Refusal>)
      requires 1 <= v.usageLimit // by request validation
      modifies this
      ensures refusal.None? <==>
                && v.startDate < v.endDate && code !in old(vouchers)
                && 0.0 < v.discountValue
                && (v.discountType == PERCENTAGE ==>
                      v.discountValue <= 100.0 && (v.maxDiscount.Some? ==> 0.0 < v.maxDiscount.value))
                && (v.discountType == FIXED_AMOUNT ==> v.maxDiscount.None?)
      ensures vouchers == if refusal.None? then old(vouchers)[code := v.(usedCount := 0)] else old(vouchers)
      ensures old(WellKept(vouchers)) ==> WellKept(vouchers)
    {
      if v.endDate <= v.startDate {
        return Some(BadDates);
      }
      if !ValidDiscountRule(v) {
        return Some(BadRule);
      }
      if code in vouchers {
        return Some(CodeTaken);
      }
      vouchers := vouchers[code := v.(usedCount := 0)];
      refusal := None;
    }

    /** The plain application: check, then a separate unconditional increment; here nothing runs in between. */
    method ApplyVoucher(code: VoucherCode, orderAmount: int, now: Time) returns (r: Applied)
      modifies this
      ensures r.Applied? <==> code in old(vouchers) && Usable(old(vouchers)[code], orderAmount, now)
      ensures r.Applied? <==> code in old(vouchers) && Check(old(vouchers)[code], orderAmount, now).None?
      ensures r.Applied? ==> r.discountAmount == CalculateDiscount(old(vouchers)[code], orderAmount)
      ensures r.Applied? && ValidDiscountRule(old(vouchers)[code]) ==>
                TakesOff(old(vouchers)[code], orderAmount, r.discountAmount) && 0 <= r.discountAmount <= Max(0, orderAmount)
      ensures if r.Applied? then UsedOnceMore(old(vouchers), vouchers, code) else vouchers == old(vouchers)
      ensures r.Refused? ==> r.why == if code !in old(vouchers) then NotFound
                                      else Check(old(vouchers)[code], orderAmount, now).value
      ensures vouchers == if r.Applied? then Bump(old(vouchers), code, 1) else old(vouchers)
      ensures old(WellKept(vouchers)) ==> WellKept(vouchers)
    {
      if code !in vouchers {
        return Refused(NotFound);
      }
      var v := vouchers[code];
      if !v.isActive {
        return Refused(Inactive);
      }
      if v.startDate > now || v.endDate < now {
        return Refused(OutOfDates);
      }
      if v.usedCount >= v.usageLimit {
        return Refused(Exhausted);
      }
      if orderAmount as real < v.minOrderValue {
        return Refused(BelowMinimum);
      }
      var discountAmount := CalculateDiscount(v, orderAmount);
      if ValidDiscountRule(v) {
        DiscountBounded(v, orderAmount);
      }
      vouchers := vouchers[code := v.(usedCount := v.usedCount + 1)];
      r := Applied(discountAmount);
    }

    /** The transactional application: every check, then an increment guarded by the count that was read. */
    method ApplyVoucherForOrder(code: VoucherCode, orderAmount: int, user: UserId,
                                usedBy: set<(UserId, VoucherCode)>, now: Time)
      returns (r: Applied)
      modifies this
      ensures r.Applied? <==>
                code in old(vouchers) && CheckForOrder(old(vouchers)[code], orderAmount, now, (user, code) in usedBy).None?
      ensures r.Refused? ==> r.why == if code !in old(vouchers) then NotFound
                                      else CheckForOrder(old(vouchers)[code], orderAmount, now, (user, code) in usedBy).value
      ensures r.Applied? <==>
                && code in old(vouchers) && Usable(old(vouchers)[code], orderAmount, now)
                && (user, code) !in usedBy && ValidDiscountRule(old(vouchers)[code])
      ensures r.Applied? ==>
                && TakesOff(old(vouchers)[code], orderAmount, r.discountAmount)
                && 0 <= r.discountAmount <= Max(0, orderAmount)
      ensures if r.Applied? then UsedOnceMore(old(vouchers), vouchers, code) else vouchers == old(vouchers)
      ensures vouchers == if r.Applied? then Bump(old(vouchers), code, 1) else old(vouchers)
      ensures old(WellKept(vouchers)) ==> WellKept(vouchers)
    {
      if code !in vouchers {
        return Refused(NotFound);
      }
      var v := vouchers[code];
      if !v.isActive {
        return Refused(Inactive);
      }
      if v.startDate > now || v.endDate < now {
        return Refused(OutOfDates);
      }
      if orderAmount as real < v.minOrderValue {
        return Refused(BelowMinimum);
      }
      if v.usedCount >= v.usageLimit {
        return Refused(Exhausted);
      }
      if (user, code) in usedBy {
        return Refused(AlreadyUsed);
      }
      if !ValidDiscountRule(v) {
        return Refused(BadRule);
      }
      var discountAmount := CalculateDiscount(v, Max(0, orderAmount));
      DiscountBounded(v, orderAmount);
      var updated := IncrementUsedCountIfAvailable(code, now, orderAmount, v.usedCount);
      if !updated {
        return Refused(Exhausted);
      }
      r := Applied(discountAmount);
    }

    /** The conditional update: it writes only if the row still shows the count that was read. */
    method IncrementUsedCountIfAvailable(code: VoucherCode, now: Time, orderAmount: int, expected: int)
      returns (updated: bool)
      modifies this
      ensures updated <==>
                && code in old(vouchers) && Usable(old(vouchers)[code], orderAmount, now)
                && old(vouchers)[code].usedCount == expected
      ensures if updated then UsedOnceMore(old(vouchers), vouchers, code) else vouchers == old(vouchers)
      ensures vouchers == if updated then Bump(old(vouchers), code, 1) else old(vouchers)
      ensures old(WellKept(vouchers)) ==> WellKept(vouchers)
    {
      if code !in vouchers || !CasMatches(vouchers[code], now, orderAmount, expected) {
        return false;
      }
      vouchers := vouchers[code := vouchers[code].(usedCount := vouchers[code].usedCount + 1)];
      updated := true;
    }

    method ReleaseVoucher(code: VoucherCode) returns (ok: bool)
      modifies this
      ensures ok <==> code in old(vouchers)
      ensures vouchers == if ok then Bump(old(vouchers), code, -1) else old(vouchers)
      ensures ok ==> UsedOnceMore(vouchers, old(vouchers), code)
      ensures old(WellKept(vouchers)) ==> WellKept(vouchers)
    {
      if code !in vouchers {
        return false;
      }
      vouchers := vouchers[code := vouchers[code].(usedCount := vouchers[code].usedCount - 1)];
      ok := true;
    }

    /**
     * Only the limit, the dates and the switch can change. The checks are made on the row that was
     * `seen`, the write goes to the row as it is by then: what it keeps depends on that row alone.
     */
    method UpdateVoucher(code: VoucherCode, seen: Option<Voucher>, usageLimit: Option<int>, startDate: Option<Time>,
                         endDate: Option<Time>, isActive: Option<bool>)
      returns (refusal: Option<Refusal>)
      modifies this
      ensures refusal.None? <==>
                && seen.Some? && code in old(vouchers)
                && (usageLimit.Some? ==> seen.value.usedCount <= usageLimit.value)
                && Or(startDate, seen.value.startDate) < Or(endDate, seen.value.endDate)
      ensures vouchers == if refusal.Some? then old(vouchers)
                          else old(vouchers)[code := Edited(old(vouchers)[code], usageLimit, startDate, endDate, isActive)]
      ensures refusal.None? ==>
                && vouchers.Keys == old(vouchers).Keys
                && vouchers[code].usageLimit == (if usageLimit.Some? then usageLimit.value else old(vouchers)[code].usageLimit)
                && vouchers[code].startDate == (if startDate.Some? then startDate.value else old(vouchers)[code].startDate)
                && vouchers[code].endDate == (if endDate.Some? then endDate.value else old(vouchers)[code].endDate)
                && vouchers[code].isActive == (if isActive.Some? then isActive.value else old(vouchers)[code].isActive)
                && vouchers[code].usedCount == old(vouchers)[code].usedCount
                && vouchers[code].discountType == old(vouchers)[code].discountType
                && vouchers[code].discountValue == old(vouchers)[code].discountValue
                && vouchers[code].maxDiscount == old(vouchers)[code].maxDiscount
                && vouchers[code].minOrderValue == old(vouchers)[code].minOrderValue
      ensures old(WellKept(vouchers)) && refusal.None? ==>
                (WellKept(vouchers) <==>
                   && (usageLimit.Some? ==> old(vouchers)[code].usedCount <= usageLimit.value)
                   && Or(startDate, old(vouchers)[code].startDate) < Or(endDate, old(vouchers)[code].endDate))
      ensures old(WellKept(vouchers)) && code in old(vouchers) && seen == Some(old(vouchers)[code]) ==> WellKept(vouchers)
    {
      if seen.None? {
        return Some(NotFound);
      }
      var existing := seen.value;
      if usageLimit.Some? && usageLimit.value < existing.usedCount {
        return Some(Exhausted);
      }
      var nextStartDate, nextEndDate := Or(startDate, existing.startDate), Or(endDate, existing.endDate);
      if nextEndDate <= nextStartDate {
        return Some(BadDates);
      }
      if code !in vouchers {
        return Some(NotFound); // deleted in between: the update itself fails
      }
      if WellKept(vouchers) {
        EditedIsWellKept(vouchers, code, usageLimit, startDate, endDate, isActive);
      }
      vouchers := vouchers[code := Edited(vouchers[code], usageLimit, startDate, endDate, isActive)];
      refusal := None;
    }
  }

  /** The row with the given fields written over it. */
  function Edited(v: Voucher, usageLimit: Option<int>, startDate: Option<Time>, endDate: Option<Time>,
                  isActive: Option<bool>): Voucher {
    v.(usageLimit := Or(usageLimit, v.usageLimit), startDate := Or(startDate, v.startDate),
       endDate := Or(endDate, v.endDate), isActive := Or(isActive, v.isActive))
  }

  lemma EditedIsWellKept(vs: map<VoucherCode, Voucher>, code: VoucherCode, usageLimit: Option<int>, startDate: Option<Time>,
                         endDate: Option<Time>, isActive: Option<bool>)
    requires WellKept(vs) && code in vs
    ensures WellKept(vs[code := Edited(vs[code], usageLimit, startDate, endDate, isActive)]) <==>
            && (usageLimit.Some? ==> vs[code].usedCount <= usageLimit.value)
            && Or(startDate, vs[code].startDate) < Or(endDate, vs[code].endDate)
  {
    var v := vs[code];
    assert v.usedCount <= v.usageLimit && ValidDiscountRule(v) && v.startDate < v.endDate;
    var after := vs[code := Edited(v, usageLimit, startDate, endDate, isActive)];
    if WellKept(after) {
      assert after[code].usedCount <= after[code].usageLimit && after[code].startDate < after[code].endDate;
    }
  }

  function Or<T>(o: Option<T>, default: T): T {
    if o.Some? then o.value else default
  }

  predicate CasMatches(v: Voucher, now: Time, orderAmount: int, expected: int) {
    && v.isActive && v.startDate <= now <= v.endDate && v.minOrderValue <= orderAmount as real
    && v.usedCount == expected && expected < v.usageLimit
  }
}

/** One voucher's counter under interleaved clients: how far past its limit it can be pushed. */
module VoucherRaces {

  /** `checked` plain clients have passed the check and not yet incremented. */
  datatype Counter = Counter(used: int, limit: int, checked: nat)

  datatype Event =
    | Check          // a plain client reads and passes
    | Increment      // a plain client that passed increments
    | Abandon        // a plain client that passed fails before it increments
    | Cas(read: int) // a transactional client writes against a count it read at any earlier time
    | Release
    | SetLimit(read: int, to: int) // an update checked against a count it read at any earlier time

  function Step(s: Counter, e: Event): Counter {
    match e
    case Check => if s.used < s.limit then s.(checked := s.checked + 1) else s
    case Increment => if s.checked > 0 then s.(used := s.used + 1, checked := s.checked - 1) else s
    case Abandon => if s.checked > 0 then s.(checked := s.checked - 1) else s
    case Cas(read) => if s.used == read && read < s.limit then s.(used := s.used + 1) else s
    case Release => s.(used := s.used - 1)
    case SetLimit(read, to) => if read <= to then s.(limit := to) else s
  }

  function Run(s: Counter, es: seq<Event>): Counter {
    if es == [] then s else Step(Run(s, es[..|es| - 1]), es[|es| - 1])
  }

  /** At no point are more than `c` plain clients between check and increment. */
  ghost predicate AtMost(c: nat, s: Counter, es: seq<Event>) {
    forall i | 0 <= i <= |es| :: Run(s, es[..i]).checked <= c
  }

  /** At no limit change had more than `d` uses been counted since its read. */
  ghost predicate LagsAtMost(d: nat, s: Counter, es: seq<Event>) {
    forall i | 0 <= i < |es| && es[i].SetLimit? :: Run(s, es[..i]).used <= es[i].read + d
  }

  predicate PlainOnly(es: seq<Event>) {
    forall e | e in es :: e.Check? || e.Increment? || e.Abandon? || e.Release?
  }

  ghost predicate Starts(s: Counter) {
    s.checked == 0 && s.used <= s.limit
  }

  lemma RunPrefixes(c: nat, s: Counter, es: seq<Event>)
    requires AtMost(c, s, es) && es != []
    ensures AtMost(c, s, es[..|es| - 1])
    ensures Run(s, es).checked <= c
  {
    var n := |es| - 1;
    assert es[..|es|] == es;
    forall i | 0 <= i <= n
      ensures Run(s, es[..n][..i]).checked <= c
    {
      assert es[..n][..i] == es[..i];
    }
  }

  lemma LagsPrefix(d: nat, s: Counter, es: seq<Event>)
    requires LagsAtMost(d, s, es) && es != []
    ensures LagsAtMost(d, s, es[..|es| - 1])
  {
    var n := |es| - 1;
    forall i | 0 <= i < n && es[..n][i].SetLimit?
      ensures Run(s, es[..n][..i]).used <= es[..n][i].read + d
    {
      assert es[..n][..i] == es[..i];
    }
  }

  /**
   * With at most c plain clients in flight, and limit changes that missed at most d uses, any mix of
   * steps overshoots the limit by at most c + d.
   */
  lemma {:induction false} OvershootBounded(c: nat, d: nat, s: Counter, es: seq<Event>)
    requires Starts(s) && AtMost(c, s, es) && LagsAtMost(d, s, es)
    ensures Run(s, es).used + Run(s, es).checked <= Run(s, es).limit + c + d
  {
    if es != [] {
      RunPrefixes(c, s, es);
      LagsPrefix(d, s, es);
      OvershootBounded(c, d, s, es[..|es| - 1]);
    }
  }

  predicate Within(s: Counter) {
    s.used <= s.limit
  }

  /** A plain client whose free use is gone, or a limit set below the count as it is by now. */
  predicate Oversteps(s: Counter, e: Event) {
    || (e.Increment? && s.checked > 0 && s.used == s.limit)
    || (e.SetLimit? && e.read <= e.to < s.used)
  }

  lemma RunUpTo(s: Counter, es: seq<Event>, i: nat)
    requires i < |es|
    ensures Run(s, es[..i + 1]) == Step(Run(s, es[..i]), es[i])
  {
    assert es[..i + 1][..i] == es[..i];
  }

  lemma StepKeepsLimitExactly(s: Counter, e: Event)
    requires Within(s)
    ensures Within(Step(s, e)) <==> !Oversteps(s, e)
  {}

  lemma {:induction false} NoneOverstepping(s: Counter, es: seq<Event>, j: nat)
    requires Within(s) && j <= |es|
    requires forall i | 0 <= i < |es| :: !Oversteps(Run(s, es[..i]), es[i])
    ensures Within(Run(s, es[..j]))
  {
    if j > 0 {
      NoneOverstepping(s, es, j - 1);
      RunUpTo(s, es, j - 1);
      StepKeepsLimitExactly(Run(s, es[..j - 1]), es[j - 1]);
    }
  }

  /** In every run of any mix, the limit is kept throughout if and only if no step oversteps it; a compare-and-set never does. */
  lemma LimitKeptExactly(s: Counter, es: seq<Event>)
    requires Within(s)
    ensures (forall i | 0 <= i <= |es| :: Within(Run(s, es[..i]))) <==>
            (forall i | 0 <= i < |es| :: !Oversteps(Run(s, es[..i]), es[i]))
  {
    if forall i | 0 <= i < |es| :: !Oversteps(Run(s, es[..i]), es[i]) {
      forall j | 0 <= j <= |es|
        ensures Within(Run(s, es[..j]))
      {
        NoneOverstepping(s, es, j);
      }
    } else {
      var k :| 0 <= k < |es| && Oversteps(Run(s, es[..k]), es[k]);
      RunUpTo(s, es, k);
      if Within(Run(s, es[..k])) {
        StepKeepsLimitExactly(Run(s, es[..k]), es[k]);
        assert !Within(Run(s, es[..k + 1]));
      }
    }
  }

  /**
   * Compare-and-set clients, releases and limit changes that read the current count never exceed the
   * limit, reads of the clients however old, counts recurring included.
   */
  lemma CompareAndSetKeepsLimit(s: Counter, es: seq<Event>)
    requires Starts(s) && LagsAtMost(0, s, es) && forall e | e in es :: !e.Check?
    ensures Run(s, es).used <= Run(s, es).limit
  {
    forall i | 0 <= i <= |es|
      ensures Run(s, es[..i]).checked <= 0
    {
      NoChecksNoneWaiting(s, es[..i]);
    }
    OvershootBounded(0, 0, s, es);
  }

  lemma {:induction false} NoChecksNoneWaiting(s: Counter, es: seq<Event>)
    requires s.checked == 0 && forall e | e in es :: !e.Check?
    ensures Run(s, es).checked == 0
  {
    if es != [] {
      NoChecksNoneWaiting(s, es[..|es| - 1]);
    }
  }

  /** Plain clients alone overshoot by one less than the number in flight. */
  lemma {:induction false} PlainOvershootBounded(c: nat, s: Counter, es: seq<Event>)
    requires c >= 1 && Starts(s) && PlainOnly(es) && AtMost(c, s, es)
    ensures Run(s, es).limit == s.limit
    ensures Run(s, es).checked > 0 ==> Run(s, es).used + Run(s, es).checked <= s.limit - 1 + c
    ensures Run(s, es).used + Run(s, es).checked <= s.limit + c - 1
  {
    if es != [] {
      RunPrefixes(c, s, es);
      PlainOvershootBounded(c, s, es[..|es| - 1]);
    }
  }

  function Repeat(e: Event, n: nat): seq<Event> {
    if n == 0 then [] else Repeat(e, n - 1) + [e]
  }

  lemma {:induction false} RepeatPrefix(e: Event, n: nat, i: nat)
    requires i <= n
    ensures |Repeat(e, n)| == n && Repeat(e, n)[..i] == Repeat(e, i)
    ensures forall x | x in Repeat(e, n) :: x == e
  {
    if n > 0 {
      RepeatPrefix(e, n - 1, if i < n then i else n - 1);
      if i < n {
        assert (Repeat(e, n - 1) + [e])[..i] == Repeat(e, n - 1)[..i];
      }
    }
  }

  lemma {:induction false} ManyChecks(s: Counter, n: nat)
    requires s.used < s.limit
    ensures Run(s, Repeat(Check, n)) == s.(checked := s.checked + n)
  {
    if n > 0 {
      ManyChecks(s, n - 1);
      RunMore(s, Repeat(Check, n - 1), Check);
    }
  }

  lemma RunMore(s: Counter, es: seq<Event>, e: Event)
    ensures Run(s, es + [e]) == Step(Run(s, es), e)
  {
    assert (es + [e])[..|es|] == es;
  }

  lemma {:induction false} ManyIncrements(s: Counter, before: seq<Event>, n: nat)
    requires Run(s, before).checked >= n
    ensures var t := Run(s, before);
            Run(s, before + Repeat(Increment, n)) == t.(used := t.used + n, checked := t.checked - n)
  {
    if n == 0 {
      assert before + Repeat(Increment, n) == before;
    } else {
      ManyIncrements(s, before, n - 1);
      RunMore(s, before + Repeat(Increment, n - 1), Increment);
      assert before + Repeat(Increment, n) == before + Repeat(Increment, n - 1) + [Increment];
    }
  }

  /** All of c clients check, then all of them increment. */
  function Worst(c: nat): seq<Event> {
    Repeat(Check, c) + Repeat(Increment, c)
  }

  lemma WorstSoFar(c: nat, s: Counter, i: nat)
    requires s.used < s.limit && s.checked == 0
    requires i <= |Worst(c)|
    ensures Run(s, Worst(c)[..i]).checked <= c
  {
    RepeatPrefix(Check, c, c);
    RepeatPrefix(Increment, c, c);
    if i <= c {
      RepeatPrefix(Check, c, i);
      ManyChecks(s, i);
      assert Worst(c)[..i] == Repeat(Check, i);
    } else {
      RepeatPrefix(Increment, c, i - c);
      ManyChecks(s, c);
      ManyIncrements(s, Repeat(Check, c), i - c);
      assert Worst(c)[..i] == Repeat(Check, c) + Repeat(Increment, i - c);
    }
  }

  /** The bound on plain clients is reached: all of them check at the last free use. */
  lemma WorstPlainRun(c: nat, limit: int)
    ensures var s := Counter(limit - 1, limit, 0);
            Starts(s) && PlainOnly(Worst(c)) && AtMost(c, s, Worst(c)) && Run(s, Worst(c)).used == limit - 1 + c
  {
    var s := Counter(limit - 1, limit, 0);
    forall i | 0 <= i <= |Worst(c)|
      ensures Run(s, Worst(c)[..i]).checked <= c
    {
      WorstSoFar(c, s, i);
    }
    ManyChecks(s, c);
    ManyIncrements(s, Repeat(Check, c), c);
    RepeatPrefix(Check, c, c);
    RepeatPrefix(Increment, c, c);
  }

  /** Every plain run with at most c clients in flight respects the limit. */
  ghost predicate PlainSafe(c: nat) {
    forall s: Counter, es: seq<Event> | Starts(s) && PlainOnly(es) && AtMost(c, s, es) ::
      Run(s, es).used <= Run(s, es).limit
  }

  /** The plain application keeps the limit exactly when no two clients overlap. */
  lemma PlainSafeExactly(c: nat)
    ensures PlainSafe(c) <==> c <= 1
  {
    if c <= 1 {
      forall s: Counter, es: seq<Event> | Starts(s) && PlainOnly(es) && AtMost(c, s, es)
        ensures Run(s, es).used <= Run(s, es).limit
      {
        PlainOvershootBounded(1, s, es);
      }
    } else {
      WorstPlainRun(c, 1);
      var s, es := Counter(0, 1, 0), Worst(c);
      PlainOvershootBounded(c, s, es);
      assert Run(s, es).used > Run(s, es).limit;
    }
  }

  /** One overlapping plain client already defeats the compare-and-set clients beside it. */
  lemma MixedClientsOvershoot(limit: int)
    ensures var s := Counter(limit - 1, limit, 0);
            var es := [Check, Cas(limit - 1), Increment];
            Starts(s) && AtMost(1, s, es) && Run(s, es) == Counter(limit + 1, limit, 0)
  {
    var s := Counter(limit - 1, limit, 0);
    var es := [Check, Cas(limit - 1), Increment];
    assert es[..0] == [] && es[..1] == [Check] && es[..2] == [Check, Cas(limit - 1)] && es[..3] == es;
    assert es[..1][..0] == [] && es[..2][..1] == es[..1] && es[..3][..2] == es[..2];
    assert Run(s, es[..1]) == Counter(limit - 1, limit, 1);
    assert Run(s, es[..2]) == Counter(limit, limit, 1);
    assert Run(s, es[..3]) == Counter(limit + 1, limit, 0);
  }

  /** A limit change that read the count before another client's use lands below it, with no plain client at all. */
  lemma StaleLimitOvershoots()
    ensures var s := Counter(1, 2, 0);
            var es := [Cas(1), SetLimit(1, 1)];
            Starts(s) && AtMost(0, s, es) && LagsAtMost(1, s, es) && Run(s, es) == Counter(2, 1, 0)
  {
    var s := Counter(1, 2, 0);
    var es := [Cas(1), SetLimit(1, 1)];
    assert es[..0] == [] && es[..2] == es;
    RunUpTo(s, es, 0);
    RunUpTo(s, es, 1);
  }

  /** Any mix with at most c plain clients in flight and limit changes at most d uses behind respects the limit. */
  ghost predicate MixedSafe(c: nat, d: nat) {
    forall s: Counter, es: seq<Event> | Starts(s) && AtMost(c, s, es) && LagsAtMost(d, s, es) ::
      Run(s, es).used <= Run(s, es).limit
  }

  /** The limit is safe exactly with no plain client beside the others, and no limit change behind the count. */
  lemma MixedSafeExactly(c: nat, d: nat)
    ensures MixedSafe(c, d) <==> c == 0 && d == 0
  {
    if c == 0 && d == 0 {
      forall s: Counter, es: seq<Event> | Starts(s) && AtMost(0, s, es) && LagsAtMost(0, s, es)
        ensures Run(s, es).used <= Run(s, es).limit
      {
        OvershootBounded(0, 0, s, es);
      }
    } else if c > 0 {
      MixedClientsOvershoot(1);
      var s, es := Counter(0, 1, 0), [Check, Cas(0), Increment];
      assert AtMost(c, s, es) && LagsAtMost(d, s, es);
      assert Run(s, es).used > Run(s, es).limit;
    } else {
      StaleLimitOvershoots();
      var s, es := Counter(1, 2, 0), [Cas(1), SetLimit(1, 1)];
      assert AtMost(c, s, es) && LagsAtMost(d, s, es);
      assert Run(s, es).used > Run(s, es).limit;
    }
  }
}
