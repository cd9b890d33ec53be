/**
 * From cart to order amounts: promotion lookup, per-line floored discounts, the totals of the order
 * record, and their agreement with the price the catalogue shows. Amounts are whole currency units.
 */
module Pricing {
  import opened Options
  import opened Inventory
  import Vouchers
  import Lifecycle

  datatype Promotion = Promotion(bookIds: seq<BookId>, discountRate: int)
  datatype CartItem = CartItem(id: string, bookId: BookId, unitPrice: int, quantity: Quantity)
  datatype Line = Line(bookId: BookId, quantity: Quantity, unitPrice: int, discountAmount: int, totalAmount: int)
  datatype Refusal = EmptyCart | NothingSelected | NotStocked(book: BookId) | TooFewInStock(book: BookId)
  datatype Prepared = Prepared(items: seq<Line>, subtotalAmount: int, promotionDiscountAmount: int) | Refused(why: Refusal)

  // ----- Promotion lookup -----

  /** The rate is the best one any promotion offers the book, or zero when none is better. */
  ghost predicate IsBestRate(promotions: seq<Promotion>, b: BookId, rate: int) {
    && rate >= 0
    && (forall p | p in promotions && b in p.bookIds :: p.discountRate <= rate)
    && (rate != 0 ==> exists p :: p in promotions && b in p.bookIds && p.discountRate == rate)
  }

  function RateIn(lookup: map<BookId, int>, b: BookId): int {
    if b in lookup then lookup[b] else 0
  }

  lemma BestRateIsUnique(promotions: seq<Promotion>, b: BookId, r: int, r': int)
    requires IsBestRate(promotions, b, r) && IsBestRate(promotions, b, r')
    ensures r == r'
  {}

  /** The two nested loops over promotions and their books. */
  method BuildPromotionLookup(promotions: seq<Promotion>) returns (lookup: map<BookId, int>)
    ensures forall b :: IsBestRate(promotions, b, RateIn(lookup, b))
  {
    lookup := map[];
    for i := 0 to |promotions|
      invariant forall b :: IsBestRate(promotions[..i], b, RateIn(lookup, b))
    {
      var p := promotions[i];
      ghost var before := lookup;
      for j := 0 to |p.bookIds|
        invariant forall b :: RateIn(lookup, b) ==
                              if b in p.bookIds[..j] then Vouchers.Max(RateIn(before, b), p.discountRate) else RateIn(before, b)
      {
        var bookId := p.bookIds[j];
        var currentDiscount := if bookId in lookup then lookup[bookId] else 0;
        lookup := lookup[bookId := Vouchers.Max(currentDiscount, p.discountRate)];
        assert p.bookIds[..j + 1] == p.bookIds[..j] + [bookId];
      }
      assert p.bookIds[..|p.bookIds|] == p.bookIds;
      assert promotions[..i + 1] == promotions[..i] + [p];
      forall b ensures IsBestRate(promotions[..i + 1], b, RateIn(lookup, b)) {
        BestRateExtends(promotions[..i], p, b, RateIn(before, b));
      }
    }
    assert promotions[..|promotions|] == promotions;
  }

  lemma BestRateExtends(promotions: seq<Promotion>, p: Promotion, b: BookId, rate: int)
    requires IsBestRate(promotions, b, rate)
    ensures IsBestRate(promotions + [p], b, if b in p.bookIds then Vouchers.Max(rate, p.discountRate) else rate)
  {
    var all := promotions + [p];
    assert all[|promotions|] == p;
    assert p in all;
    if rate != 0 {
      var q :| q in promotions && b in q.bookIds && q.discountRate == rate;
      assert q in all;
    }
  }

  // ----- Lines -----

  function Subtotal(c: CartItem): int {
    c.unitPrice * c.quantity
  }

  function LineDiscount(c: CartItem, rate: int): int {
    Subtotal(c) * rate / 100 // floor: Dafny's division rounds down for a positive divisor
  }

  function PriceLine(c: CartItem, rate: int): Line {
    Line(c.bookId, c.quantity, c.unitPrice, LineDiscount(c, rate), Subtotal(c) - LineDiscount(c, rate))
  }

  /** A line orders what the cart line says, at its price, less the share of its promotion rounded down. */
  predicate Charges(l: Line, c: CartItem, rate: int) {
    && l.bookId == c.bookId && l.quantity == c.quantity && l.unitPrice == c.unitPrice
    && l.discountAmount + l.totalAmount == c.unitPrice * c.quantity
    && 100 * l.discountAmount <= c.unitPrice * c.quantity * rate < 100 * l.discountAmount + 100
  }

  lemma PricedLineCharges(c: CartItem, rate: int)
    ensures Charges(PriceLine(c, rate), c, rate)
  {}

  /** Copies of a book on all the lines of a cart. */
  function Copies(cart: seq<CartItem>, b: BookId): nat {
    if cart == [] then 0
    else Copies(cart[..|cart| - 1], b) + (if cart[|cart| - 1].bookId == b then cart[|cart| - 1].quantity else 0)
  }

  /** Copies of a book on the lines of a cart that a request names. */
  function CopiesNamed(cart: seq<CartItem>, ids: set<string>, b: BookId): nat {
    if cart == [] then 0
    else
      var last := cart[|cart| - 1];
      CopiesNamed(cart[..|cart| - 1], ids, b) + (if last.id in ids && last.bookId == b then last.quantity else 0)
  }

  ghost predicate Available(rows: Rows, c: CartItem) {
    c.bookId in rows && c.quantity <= rows[c.bookId].quantity
  }

  function TotalSubtotal(cart: seq<CartItem>): int {
    if cart == [] then 0 else TotalSubtotal(cart[..|cart| - 1]) + Subtotal(cart[|cart| - 1])
  }

  /** The exact promotion discount, times one hundred, before any rounding. */
  function ExactDiscount(cart: seq<CartItem>, lookup: map<BookId, int>): int {
    if cart == [] then 0
    else ExactDiscount(cart[..|cart| - 1], lookup)
         + Subtotal(cart[|cart| - 1]) * RateIn(lookup, cart[|cart| - 1].bookId)
  }

  function LineTotals(items: seq<Line>): int {
    if items == [] then 0 else LineTotals(items[..|items| - 1]) + items[|items| - 1].totalAmount
  }

  /** Line i is the first that is not in stock, and why says what it lacks. */
  ghost predicate FirstUnavailable(rows: Rows, cart: seq<CartItem>, i: nat, why: Refusal) {
    && i < |cart| && !Available(rows, cart[i]) && (forall j | 0 <= j < i :: Available(rows, cart[j]))
    && why == if cart[i].bookId !in rows then NotStocked(cart[i].bookId) else TooFewInStock(cart[i].bookId)
  }

  /**
   * Each line prices its cart line, and together they order the copies on the cart. Discount and line totals
   * add up to the subtotal, and flooring over n lines loses less than n units.
   */
  ghost predicate PricedRight(cart: seq<CartItem>, lookup: map<BookId, int>, p: Prepared) {
    && p.Prepared? && |p.items| == |cart|
    && (forall i | 0 <= i < |cart| :: p.items[i] == PriceLine(cart[i], RateIn(lookup, cart[i].bookId)))
    && (forall b :: Demand(ItemsOf(p.items), b) == Copies(cart, b))
    && p.subtotalAmount == TotalSubtotal(cart)
    && p.subtotalAmount == p.promotionDiscountAmount + LineTotals(p.items)
    && 100 * p.promotionDiscountAmount <= ExactDiscount(cart, lookup)
    && (cart != [] ==> ExactDiscount(cart, lookup) < 100 * p.promotionDiscountAmount + 100 * |cart|)
  }

  /** The selected cart lines, priced; the first unavailable line refuses the cart. */
  method ValidateAndPrepareOrderItems(cart: seq<CartItem>, lookup: map<BookId, int>, rows: Rows) returns (r: Prepared)
    ensures r.Prepared? <==> forall c | c in cart :: c.bookId in rows && c.quantity <= rows[c.bookId].quantity
    ensures r.Refused? ==> exists i :: 0 <= i < |cart| && FirstUnavailable(rows, cart, i, r.why)
    ensures r.Prepared? ==> PricedRight(cart, lookup, r)
  {
    r := TotalItems(cart, lookup, rows);
    if r.Prepared? {
      PricedLinesMean(cart, lookup);
    }
  }

  /** Running totals over the lines. */
  method TotalItems(cart: seq<CartItem>, lookup: map<BookId, int>, rows: Rows) returns (r: Prepared)
    ensures r.Prepared? <==> forall c | c in cart :: c.bookId in rows && c.quantity <= rows[c.bookId].quantity
    ensures r.Refused? ==> exists i :: 0 <= i < |cart| && FirstUnavailable(rows, cart, i, r.why)
    ensures r.Prepared? ==> r == Totalled(cart, lookup)
  {
    var items, subtotalAmount, promotionDiscountAmount := [], 0, 0;
    for i := 0 to |cart|
      invariant forall j | 0 <= j < i :: Available(rows, cart[j])
      invariant items == PricedLines(cart[..i], lookup)
      invariant subtotalAmount == TotalSubtotal(cart[..i])
      invariant promotionDiscountAmount == LineDiscounts(items)
    {
      var c := cart[i];
      assert c in cart;
      if c.bookId !in rows {
        assert FirstUnavailable(rows, cart, i, NotStocked(c.bookId));
        return Refused(NotStocked(c.bookId));
      }
      if rows[c.bookId].quantity < c.quantity {
        assert FirstUnavailable(rows, cart, i, TooFewInStock(c.bookId));
        return Refused(TooFewInStock(c.bookId));
      }
      var rate := if c.bookId in lookup then lookup[c.bookId] else 0;
      var itemSubtotal, line := PriceItem(c, rate);
      assert cart[..i + 1][..i] == cart[..i] && (items + [line])[..|items|] == items;
      subtotalAmount := subtotalAmount + itemSubtotal;
      promotionDiscountAmount := promotionDiscountAmount + line.discountAmount;
      items := items + [line];
    }
    assert cart[..|cart|] == cart;
    r := Prepared(items, subtotalAmount, promotionDiscountAmount);
  }

  method PriceItem(c: CartItem, rate: int) returns (itemSubtotal: int, l: Line)
    ensures itemSubtotal == Subtotal(c) && l == PriceLine(c, rate)
  {
    itemSubtotal := c.unitPrice * c.quantity;
    var itemDiscountAmount := itemSubtotal * rate / 100;
    var itemTotalAmount := itemSubtotal - itemDiscountAmount;
    l := Line(c.bookId, c.quantity, c.unitPrice, itemDiscountAmount, itemTotalAmount);
  }

  function PricedLines(cart: seq<CartItem>, lookup: map<BookId, int>): seq<Line> {
    if cart == [] then []
    else PricedLines(cart[..|cart| - 1], lookup) + [PriceLine(cart[|cart| - 1], RateIn(lookup, cart[|cart| - 1].bookId))]
  }

  function Totalled(cart: seq<CartItem>, lookup: map<BookId, int>): Prepared {
    Prepared(PricedLines(cart, lookup), TotalSubtotal(cart), LineDiscounts(PricedLines(cart, lookup)))
  }

  lemma {:induction false} PricedLinesAt(cart: seq<CartItem>, lookup: map<BookId, int>)
    ensures |PricedLines(cart, lookup)| == |cart|
    ensures forall i | 0 <= i < |cart| :: PricedLines(cart, lookup)[i] == PriceLine(cart[i], RateIn(lookup, cart[i].bookId))
  {
    if cart != [] {
      PricedLinesAt(cart[..|cart| - 1], lookup);
    }
  }

  lemma PricedLinesMean(cart: seq<CartItem>, lookup: map<BookId, int>)
    ensures PricedRight(cart, lookup, Totalled(cart, lookup))
  {
    PricedLinesAt(cart, lookup);
    LinesOrder(cart, PricedLines(cart, lookup));
    FlooringLoses(cart, lookup, PricedLines(cart, lookup));
  }

  /** Every prepared line charges its cart line. */
  lemma LinesCharge(cart: seq<CartItem>, lookup: map<BookId, int>, lines: seq<Line>, i: nat)
    requires i < |lines| == |cart| && lines[i] == PriceLine(cart[i], RateIn(lookup, cart[i].bookId))
    ensures Charges(lines[i], cart[i], RateIn(lookup, cart[i].bookId))
  {
    PricedLineCharges(cart[i], RateIn(lookup, cart[i].bookId));
  }

  /** The prepared lines order, of every book, the copies on the cart. */
  lemma {:induction false} LinesOrder(cart: seq<CartItem>, lines: seq<Line>)
    requires |lines| == |cart|
    requires forall i | 0 <= i < |cart| :: lines[i].bookId == cart[i].bookId && lines[i].quantity == cart[i].quantity
    ensures forall b :: Demand(ItemsOf(lines), b) == Copies(cart, b)
  {
    if cart != [] {
      var n := |cart| - 1;
      LinesOrder(cart[..n], lines[..n]);
      assert ItemsOf(lines)[..n] == ItemsOf(lines[..n]);
    }
  }

  function LineDiscounts(items: seq<Line>): int {
    if items == [] then 0 else LineDiscounts(items[..|items| - 1]) + items[|items| - 1].discountAmount
  }

  lemma FlooringLosesOne(c: CartItem, rate: int)
    ensures 0 <= Subtotal(c) * rate - 100 * PriceLine(c, rate).discountAmount <= 99
    ensures Subtotal(c) == PriceLine(c, rate).discountAmount + PriceLine(c, rate).totalAmount
  {}

  /** Discounts and totals of the lines add up to the subtotal, and flooring loses less than one unit a line. */
  lemma {:induction false} FlooringLoses(cart: seq<CartItem>, lookup: map<BookId, int>, items: seq<Line>)
    requires |items| == |cart|
    requires forall i | 0 <= i < |cart| :: items[i] == PriceLine(cart[i], RateIn(lookup, cart[i].bookId))
    ensures TotalSubtotal(cart) == LineDiscounts(items) + LineTotals(items)
    ensures 0 <= ExactDiscount(cart, lookup) - 100 * LineDiscounts(items) <= 99 * |cart|
  {
    if cart != [] {
      var n := |cart| - 1;
      FlooringLoses(cart[..n], lookup, items[..n]);
      FlooringLosesOne(cart[n], RateIn(lookup, cart[n].bookId));
    }
  }

  // ----- Totals -----

  /** The amounts the new order row stores. */
  function OrderAmounts(p: Prepared, voucherDiscount: int, items: seq<Item>, payment: Lifecycle.PaymentMethod,
                        addressComplete: bool): Lifecycle.OrderInfo
    requires p.Prepared?
  {
    Lifecycle.OrderInfo(items, p.subtotalAmount, p.promotionDiscountAmount + voucherDiscount, payment, addressComplete)
  }

  /** Prices are not negative and rates are percentages. */
  ghost predicate Sane(cart: seq<CartItem>, lookup: map<BookId, int>) {
    forall c | c in cart :: c.unitPrice >= 0 && 0 <= RateIn(lookup, c.bookId) <= 100
  }

  lemma LineTotalNonNegative(c: CartItem, rate: int)
    requires c.unitPrice >= 0 && 0 <= rate <= 100
    ensures PriceLine(c, rate).totalAmount >= 0
  {
    assert Subtotal(c) >= 0;
    assert Subtotal(c) * rate <= Subtotal(c) * 100;
  }

  lemma {:induction false} LineTotalsNonNegative(cart: seq<CartItem>, lookup: map<BookId, int>, items: seq<Line>)
    requires Sane(cart, lookup) && |items| == |cart|
    requires forall i | 0 <= i < |cart| :: items[i] == PriceLine(cart[i], RateIn(lookup, cart[i].bookId))
    ensures LineTotals(items) >= 0
  {
    if cart != [] {
      var n := |cart| - 1;
      LineTotalsNonNegative(cart[..n], lookup, items[..n]);
      LineTotalNonNegative(cart[n], RateIn(lookup, cart[n].bookId));
    }
  }

  /**
   * Money is exact from the cart to the last state of the order: neither clamp to zero ever bites,
   * and in every run of order events the total is the sum of the charged lines, less the voucher,
   * plus the shipping fee the shipment records; the carrier collects the same without the fee, or nothing.
   */
  lemma MoneyEndToEnd(cart: seq<CartItem>, lookup: map<BookId, int>, p: Prepared, v: Option<Vouchers.Voucher>,
                      items: seq<Item>, payment: Lifecycle.PaymentMethod, addressComplete: bool,
                      es: seq<Lifecycle.Event>)
    requires Sane(cart, lookup) && p.Prepared?
    requires |p.items| == |cart|
    requires forall i | 0 <= i < |cart| :: p.items[i] == PriceLine(cart[i], RateIn(lookup, cart[i].bookId))
    requires p.subtotalAmount == p.promotionDiscountAmount + LineTotals(p.items)
    requires v.Some? ==> Vouchers.ValidDiscountRule(v.value)
    ensures var seen := Vouchers.AmountForVoucher(p.subtotalAmount, p.promotionDiscountAmount);
            var off := if v.Some? then Vouchers.CalculateDiscount(v.value, seen) else 0;
            var info := OrderAmounts(p, off, items, payment, addressComplete);
            var created := Lifecycle.NewOrder(info);
            var o := Lifecycle.Run(info, created, es);
            && seen == LineTotals(p.items)
            && info.subtotalAmount == info.discountAmount + created.totalAmount
            && created.totalAmount == LineTotals(p.items) - off >= 0
            && o.totalAmount == LineTotals(p.items) - off + o.shippingFee
            && (o.shipment.Some? ==>
                  && o.shipment.value.shippingFee == o.shippingFee
                  && o.shipment.value.codAmount == if payment == Lifecycle.COD then LineTotals(p.items) - off else 0)
  {
    LineTotalsNonNegative(cart, lookup, p.items);
    var seen := Vouchers.AmountForVoucher(p.subtotalAmount, p.promotionDiscountAmount);
    var off := if v.Some? then Vouchers.CalculateDiscount(v.value, seen) else 0;
    if v.Some? {
      Vouchers.DiscountBounded(v.value, seen);
    }
    Lifecycle.MoneyAlwaysAgrees(OrderAmounts(p, off, items, payment, addressComplete), es);
  }

  // ----- The catalogue -----

  /** The promotions covering one book, as the catalogue loads them with it. */
  function RatesFor(promotions: seq<Promotion>, b: BookId): seq<int> {
    if promotions == [] then []
    else RatesFor(promotions[..|promotions| - 1], b)
         + (if b in promotions[|promotions| - 1].bookIds then [promotions[|promotions| - 1].discountRate] else [])
  }

  /** Math.max over a non-empty list, zero for an empty one. */
  function GetMaxDiscount(rates: seq<int>): int {
    if rates == [] then 0
    else if |rates| == 1 then rates[0]
    else Vouchers.Max(GetMaxDiscount(rates[..|rates| - 1]), rates[|rates| - 1])
  }

  function CalculateDiscountedPrice(price: int, rate: int): real {
    if rate <= 0 then price as real else price as real - price as real * (rate as real / 100.0)
  }

  function CataloguePrice(promotions: seq<Promotion>, b: BookId, price: int): real {
    CalculateDiscountedPrice(price, GetMaxDiscount(RatesFor(promotions, b)))
  }

  lemma {:induction false} MaxDiscountIsGreatest(rates: seq<int>)
    requires rates != []
    ensures GetMaxDiscount(rates) in rates
    ensures forall r | r in rates :: r <= GetMaxDiscount(rates)
  {
    if |rates| > 1 {
      var n := |rates| - 1;
      MaxDiscountIsGreatest(rates[..n]);
      assert rates == rates[..n] + [rates[n]];
    }
  }

  lemma {:induction false} RatesForCovering(promotions: seq<Promotion>, b: BookId, r: int)
    ensures r in RatesFor(promotions, b) <==> exists p :: p in promotions && b in p.bookIds && p.discountRate == r
  {
    if promotions != [] {
      var n := |promotions| - 1;
      RatesForCovering(promotions[..n], b, r);
      assert promotions == promotions[..n] + [promotions[n]];
      assert promotions[n] in promotions;
      if p :| p in promotions && b in p.bookIds && p.discountRate == r {
        assert p == promotions[n] || p in promotions[..n];
      }
      if p :| p in promotions[..n] && b in p.bookIds && p.discountRate == r {
        assert p in promotions;
      }
    }
  }

  /** The checkout's best rate is the catalogue's greatest rate, or zero when that is not positive. */
  lemma LookupAgreesWithCatalogue(promotions: seq<Promotion>, b: BookId, rate: int)
    requires IsBestRate(promotions, b, rate)
    ensures rate == Vouchers.Max(0, GetMaxDiscount(RatesFor(promotions, b)))
  {
    var rates := RatesFor(promotions, b);
    RatesForCovering(promotions, b, rate);
    if rates != [] {
      MaxDiscountIsGreatest(rates);
      RatesForCovering(promotions, b, GetMaxDiscount(rates));
    }
  }

  /** A charged line is never below quantity times the catalogue price, and above it by less than one unit. */
  lemma ChargedLineMatchesCatalogue(promotions: seq<Promotion>, c: CartItem, rate: int)
    requires IsBestRate(promotions, c.bookId, rate)
    ensures var shown := c.quantity as real * CataloguePrice(promotions, c.bookId, c.unitPrice);
            0.0 <= PriceLine(c, rate).totalAmount as real - shown < 1.0
  {
    LookupAgreesWithCatalogue(promotions, c.bookId, rate);
    var u, q, r := c.unitPrice as real, c.quantity as real, rate as real;
    var whole := Subtotal(c) * rate;
    assert Subtotal(c) as real == u * q;
    assert whole as real == u * q * r by { CastProduct(Subtotal(c), rate); }
    var d := whole / 100;
    assert 100 * d <= whole < 100 * d + 100;
    assert (100 * d) as real == 100.0 * d as real;
    assert q * (u - u * (r / 100.0)) == u * q - u * q * r / 100.0;
  }

  lemma CastProduct(x: int, y: int)
    ensures (x * y) as real == x as real * y as real
  {}

  // ----- The whole preparation -----

  /** createOrder up to the saga: the selected lines of the cart, priced. */
  method PrepareOrder(cart: seq<CartItem>, selected: set<string>, promotions: seq<Promotion>, rows: Rows)
    returns (r: Prepared, ghost lookup: map<BookId, int>)
    ensures forall b :: IsBestRate(promotions, b, RateIn(lookup, b))
    ensures cart == [] ==> r == Refused(EmptyCart)
    ensures cart != [] && Selected(cart, selected) == [] ==> r == Refused(NothingSelected)
    ensures r.Prepared? <==>
              && (exists c :: c in cart && c.id in selected)
              && forall c | c in cart && c.id in selected :: c.bookId in rows && c.quantity <= rows[c.bookId].quantity
    ensures r.Refused? && r.why.NotStocked? ==> exists c :: c in cart && c.id in selected && c.bookId == r.why.book && c.bookId !in rows
    ensures r.Refused? && r.why.TooFewInStock? ==>
              exists c :: c in cart && c.id in selected && c.bookId == r.why.book && c.bookId in rows && rows[c.bookId].quantity < c.quantity
    ensures r.Prepared? ==> forall b :: Demand(ItemsOf(r.items), b) == CopiesNamed(cart, selected, b)
    ensures r.Prepared? ==>
              && |r.items| == |Selected(cart, selected)|
              && (forall i | 0 <= i < |r.items| ::
                    r.items[i] == PriceLine(Selected(cart, selected)[i], RateIn(lookup, Selected(cart, selected)[i].bookId)))
              && r.subtotalAmount == TotalSubtotal(Selected(cart, selected))
              && r.subtotalAmount == r.promotionDiscountAmount + LineTotals(r.items)
  {
    var rates := BuildPromotionLookup(promotions);
    lookup := rates;
    if cart == [] {
      r := Refused(EmptyCart);
      return;
    }
    var chosen := Selected(cart, selected);
    SelectedCopies(cart, selected);
    assert chosen != [] ==> chosen[0] in chosen;
    if chosen == [] {
      r := Refused(NothingSelected);
      return;
    }
    r := ValidateAndPrepareOrderItems(chosen, rates, rows);
    if r.Refused? {
      ghost var i :| 0 <= i < |chosen| && FirstUnavailable(rows, chosen, i, r.why);
      assert chosen[i] in cart && chosen[i].id in selected;
    }
  }

  /** The cart lines the request names, in cart order. */
  function Selected(cart: seq<CartItem>, ids: set<string>): (r: seq<CartItem>)
    ensures forall c :: c in r <==> c in cart && c.id in ids
  {
    if cart == [] then []
    else Selected(cart[..|cart| - 1], ids) + (if cart[|cart| - 1].id in ids then [cart[|cart| - 1]] else [])
  }

  /** Selecting lines keeps each named line as often as the cart lists it, and the copies they order. */
  lemma {:induction false} SelectedCopies(cart: seq<CartItem>, ids: set<string>)
    ensures forall b :: Copies(Selected(cart, ids), b) == CopiesNamed(cart, ids, b)
    ensures forall c :: multiset(Selected(cart, ids))[c] == if c.id in ids then multiset(cart)[c] else 0
  {
    if cart != [] {
      var n := |cart| - 1;
      SelectedCopies(cart[..n], ids);
      assert cart == cart[..n] + [cart[n]];
      if cart[n].id in ids {
        assert Selected(cart, ids)[..|Selected(cart, ids)| - 1] == Selected(cart[..n], ids);
      } else {
        assert Selected(cart, ids) == Selected(cart[..n], ids);
      }
    }
  }

  function ItemsOf(lines: seq<Line>): seq<Item> {
    seq(|lines|, i requires 0 <= i < |lines| => Item(lines[i].bookId, lines[i].quantity))
  }

  /** A cart of distinct books that passes line validation can be reserved, if nothing runs in between. */
  lemma PreparedCartReserves(cart: seq<CartItem>, lookup: map<BookId, int>, rows: Rows, lines: seq<Line>)
    requires forall i, j | 0 <= i < j < |cart| :: cart[i].bookId != cart[j].bookId
    requires forall c | c in cart :: Available(rows, c)
    requires |lines| == |cart|
    requires forall i | 0 <= i < |cart| :: lines[i] == PriceLine(cart[i], RateIn(lookup, cart[i].bookId))
    ensures Reserve(rows, ItemsOf(lines)).Some?
  {
    var items := ItemsOf(lines);
    forall it | it in items
      ensures it.bookId in rows && it.quantity <= rows[it.bookId].quantity
    {
      var i :| 0 <= i < |items| && items[i] == it;
      assert Available(rows, cart[i]);
    }
    LineChecksSuffice(rows, items);
  }
}
