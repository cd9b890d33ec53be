/** createOrder: the selected lines of a cart are priced, and what they come to goes through the checkout. */
module CreateOrder {
  import opened Options
  import opened Inventory
  import opened Pricing
  import opened CheckoutSaga
  import Vouchers

  datatype Reply = Ordered | Declined(why: Pricing.Refusal) | Failed

  /** Prices are not negative and promotions are percentages, as request validation demands. */
  predicate Validated(cart: seq<CartItem>, promotions: seq<Promotion>) {
    && (forall c | c in cart :: c.unitPrice >= 0)
    && (forall p | p in promotions :: 0 <= p.discountRate <= 100)
  }

  lemma BestRateIsPercentage(promotions: seq<Promotion>, b: BookId, rate: int)
    requires IsBestRate(promotions, b, rate) && forall p | p in promotions :: 0 <= p.discountRate <= 100
    ensures 0 <= rate <= 100
  {}

  /** The charged lines of a validated cart come to no less than nothing, so the voucher is shown exactly their sum. */
  lemma ShownAmount(cart: seq<CartItem>, ids: set<string>, promotions: seq<Promotion>, lookup: map<BookId, int>, p: Prepared)
    requires Validated(cart, promotions) && p.Prepared? && forall b :: IsBestRate(promotions, b, RateIn(lookup, b))
    requires |p.items| == |Selected(cart, ids)|
    requires forall i | 0 <= i < |p.items| ::
               p.items[i] == PriceLine(Selected(cart, ids)[i], RateIn(lookup, Selected(cart, ids)[i].bookId))
    requires p.subtotalAmount == p.promotionDiscountAmount + LineTotals(p.items)
    ensures p.subtotalAmount - p.promotionDiscountAmount == LineTotals(p.items) >= 0
  {
    var chosen := Selected(cart, ids);
    forall c | c in chosen
      ensures c.unitPrice >= 0 && 0 <= RateIn(lookup, c.bookId) <= 100
    {
      BestRateIsPercentage(promotions, c.bookId, RateIn(lookup, c.bookId));
    }
    LineTotalsNonNegative(chosen, lookup, p.items);
  }

  /** The prepared lines are the named cart lines, priced at the best rates. */
  ghost predicate PreparedFrom(cart: seq<CartItem>, ids: set<string>, rates: map<BookId, int>, p: Prepared) {
    && p.Prepared? && |p.items| == |Selected(cart, ids)|
    && (forall i | 0 <= i < |p.items| ::
          p.items[i] == PriceLine(Selected(cart, ids)[i], RateIn(rates, Selected(cart, ids)[i].bookId)))
    && p.subtotalAmount == p.promotionDiscountAmount + LineTotals(p.items)
    && p.subtotalAmount == TotalSubtotal(Selected(cart, ids))
  }

  /**
   * Stock gave up exactly the copies the named cart lines ask for, the voucher one use, and one live order
   * was added that lists those copies.
   */
  ghost predicate Placed(cart: seq<CartItem>, ids: set<string>, voucher: Option<VoucherId>, books: World, after: World) {
    && (forall b | b in books.rows ::
          b in after.rows && after.rows[b].quantity == books.rows[b].quantity - CopiesNamed(cart, ids, b))
    && (voucher.None? ==> after.vouchers == books.vouchers)
    && (voucher.Some? ==> Vouchers.UsedOnceMore(books.vouchers, after.vouchers, voucher.value))
    && books.newOrderId !in books.orders && books.newOrderId in after.orders
    && var o := after.orders[books.newOrderId];
       && after.orders == books.orders[books.newOrderId := o]
       && !o.cancelled && o.voucher == voucher
       && forall b :: Demand(o.items, b) == CopiesNamed(cart, ids, b)
  }

  /** What the customer owes: the charged lines, less what the voucher takes off their sum. */
  ghost predicate Owes(books: World, voucher: Option<VoucherId>, o: OrderRecord, subtotal: int, charged: int) {
    && o.subtotalAmount == subtotal
    && (voucher.None? ==> o.totalAmount == charged && o.discountAmount == subtotal - charged)
    && (voucher.Some? ==>
          && voucher.value in books.vouchers
          && Vouchers.Usable(books.vouchers[voucher.value], charged, books.now)
          && (Vouchers.ValidDiscountRule(books.vouchers[voucher.value]) ==>
                && Vouchers.TakesOff(books.vouchers[voucher.value], charged, charged - o.totalAmount)
                && 0 <= o.totalAmount <= charged
                && o.discountAmount == subtotal - o.totalAmount))
  }

  lemma PlacedOwes(w: World, after: World, charged: int)
    requires w.subtotalAmount - w.promotionDiscountAmount == charged >= 0
    requires PlacedFor(w, after, charged)
    requires w.requested.Some? ==>
               w.requested.value in w.vouchers && Vouchers.Usable(w.vouchers[w.requested.value], charged, w.now)
    ensures Owes(w, w.requested, after.orders[w.newOrderId], w.subtotalAmount, charged)
  {
    if w.requested.Some? && Vouchers.ValidDiscountRule(w.vouchers[w.requested.value]) {
      var v := w.vouchers[w.requested.value];
      var d := after.orders[w.newOrderId].discountAmount - w.promotionDiscountAmount;
      Vouchers.DiscountBounded(v, charged);
      Vouchers.OneTakesOff(v, charged, d, Vouchers.CalculateDiscount(v, charged));
    }
  }

  /** The request as the saga context starts with it. */
  function Request(p: Prepared, voucher: Option<VoucherId>, books: World): World
    requires p.Prepared?
  {
    books.(items := ItemsOf(p.items), subtotalAmount := p.subtotalAmount, promotionDiscountAmount := p.promotionDiscountAmount,
           requested := voucher, voucherId := None, voucherDiscountAmount := 0, reservedItems := [], createdOrder := None)
  }

  lemma PlacedMeans(cart: seq<CartItem>, ids: set<string>, voucher: Option<VoucherId>, books: World, p: Prepared, after: World)
    requires p.Prepared? && forall b :: Demand(ItemsOf(p.items), b) == CopiesNamed(cart, ids, b)
    requires var w := Request(p, voucher, books);
             var left := w.subtotalAmount - w.promotionDiscountAmount;
             PlacedFor(w, after, if left < 0 then 0 else left)
    ensures Placed(cart, ids, voucher, books, after)
  {}

  /** The named cart lines are there, and each is in stock. */
  ghost predicate Orderable(cart: seq<CartItem>, ids: set<string>, rows: Rows) {
    && (exists c :: c in cart && c.id in ids)
    && forall c | c in cart && c.id in ids :: c.bookId in rows && c.quantity <= rows[c.bookId].quantity
  }

  /**
   * A placed order takes exactly what the named cart lines ask for, and owes the charged lines less what the
   * voucher takes off their sum. Any other reply leaves every stock quantity, voucher and live order as it
   * was, if the compensations work.
   */
  method PlaceOrder(cart: seq<CartItem>, ids: set<string>, promotions: seq<Promotion>, voucher: Option<VoucherId>,
                    books: World, f: Faults, emitFails: bool)
    returns (reply: Reply, after: World, ghost p: Prepared, ghost rates: map<BookId, int>)
    ensures forall b :: IsBestRate(promotions, b, RateIn(rates, b))
    ensures reply.Ordered? ==> PreparedFrom(cart, ids, rates, p) && Placed(cart, ids, voucher, books, after)
    ensures reply.Ordered? && Validated(cart, promotions) ==>
              Owes(books, voucher, after.orders[books.newOrderId], p.subtotalAmount, LineTotals(p.items))
    ensures !reply.Ordered? && CompensationsWork(f) ==> SameBooks(after, books)
    ensures reply.Declined? <==> !Orderable(cart, ids, books.rows)
    ensures reply.Declined? ==> after == books
  {
    var prepared;
    prepared, rates := PrepareOrder(cart, ids, promotions, books.rows);
    p := prepared;
    if prepared.Refused? {
      return Declined(prepared.why), books, prepared, rates;
    }
    var w := Request(prepared, voucher, books);
    var ok, completed;
    ok, completed, after := Checkout(w, f, emitFails);
    reply := if ok then Ordered else Failed;
    if ok {
      PlacedMeans(cart, ids, voucher, books, prepared, after);
      if Validated(cart, promotions) {
        ShownAmount(cart, ids, promotions, rates, prepared);
        PlacedOwes(w, after, LineTotals(prepared.items));
      }
    } else if CompensationsWork(f) {
      assert NothingToUndo(w, f, completed);
    }
  }
}
