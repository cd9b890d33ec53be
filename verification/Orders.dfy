/**
 * The orders and shipments services over their tables, each operation run undisturbed: what it
 * writes is the order's lifecycle step, and stock and sold counts move exactly with it.
 */
module Orders {
  import opened Options
  import opened Inventory
  import opened Lifecycle

  type OrderId = string
  type UserId = string

  datatype Reply = Accepted | NotFound | Forbidden | BadRequest | ServerError

  class OrderTables {
    var rows: Rows
    var soldCount: map<BookId, int>
    var orders: map<OrderId, OrderRow>
    var infos: map<OrderId, OrderInfo>
    var owners: map<OrderId, UserId>
    /** The unique index on the shipment's carrier code. */
    var codes: map<string, OrderId>

    /** Keys of the schema: every order has its fixed data, carrier codes are unique, ordered books exist. */
    ghost predicate Valid()
      reads this
    {
      && orders.Keys == infos.Keys == owners.Keys
      && Indexed(orders, codes)
      && BooksKnown(infos, soldCount.Keys)
    }

    constructor ()
      ensures Valid() && orders == map[]
    {
      rows, soldCount, orders, infos, owners, codes := map[], map[], map[], map[], map[], map[];
    }

    /** Writes one order row that keeps its carrier code. */
    method Save(id: OrderId, row: OrderRow)
      requires Valid() && id in orders && CodeOf(row) == CodeOf(orders[id])
      modifies `orders
      ensures Valid() && orders == old(orders)[id := row]
    {
      orders := orders[id := row];
    }

    /** Writes an order row together with its new shipment. */
    method SaveShipped(id: OrderId, row: OrderRow)
      requires Valid() && id in orders && orders[id].shipment.None?
      requires row.shipment.Some? && row.shipment.value.code !in codes
      modifies `orders, `codes
      ensures Valid() && orders == old(orders)[id := row]
    {
      codes := codes[row.shipment.value.code := id];
      orders := orders[id := row];
    }

    // ----- Stock -----

    /** One transaction: a book without an inventory row rolls everything back. */
    method Restock(items: seq<Item>) returns (ok: bool)
      modifies `rows
      ensures ok <==> Stocked(old(rows), items)
      ensures rows == if ok then Release(old(rows), items) else old(rows)
    {
      var atBegin := rows;
      for i := 0 to |items|
        invariant rows == Release(atBegin, items[..i]) && rows.Keys == atBegin.Keys
        invariant Stocked(atBegin, items[..i])
      {
        assert items[..i + 1][..i] == items[..i];
        if items[i].bookId !in rows {
          rows := atBegin;
          assert items[i] in items;
          return false;
        }
        rows := Move(rows, items[i].bookId, items[i].quantity, IN);
      }
      assert items[..|items|] == items;
      ok := true;
    }

    // ----- orders.service -----

    /** The part of cancelOrder after the row was found and its owner checked. */
    method CancelOrder(id: OrderId, user: Option<UserId>) returns (r: Reply)
      requires Valid()
      modifies `rows, `orders
      ensures Valid()
      ensures r == NotFound <==> id !in old(orders)
      ensures r == Forbidden <==> id in old(orders) && user.Some? && owners[id] != user.value
      ensures r == Accepted <==> && id in old(orders) && (user.Some? ==> owners[id] == user.value)
                                 && old(orders)[id].status == PENDING && Stocked(old(rows), infos[id].items)
      ensures r in {NotFound, Forbidden} ==> orders == old(orders)
      ensures r !in {NotFound, Forbidden} ==>
                orders == old(orders)[id := Lifecycle.CancelOrder(old(orders)[id], old(orders)[id], Stocked(old(rows), infos[id].items))]
      ensures rows == if r == Accepted then Release(old(rows), infos[id].items) else old(rows)
      ensures id in old(orders) && r != Accepted ==> orders[id] == old(orders)[id]
      ensures r == Accepted ==>
                orders[id] == old(orders)[id].(status := CANCELLED, released := old(orders)[id].released + 1)
    {
      if id !in orders {
        return NotFound;
      }
      var order := orders[id];
      if user.Some? && owners[id] != user.value {
        return Forbidden;
      }
      if order.status == CANCELLED {
        return BadRequest;
      }
      if order.status != PENDING {
        return BadRequest;
      }
      var ok := Restock(infos[id].items);
      if !ok {
        return BadRequest;
      }
      Save(id, order.(status := CANCELLED, released := order.released + 1));
      r := Accepted;
    }

    method UpdateOrderStatus(id: OrderId, target: Status, ghn: GhnReply) returns (r: Reply)
      requires Valid()
      modifies `rows, `orders, `codes
      ensures Valid()
      ensures r == NotFound <==> id !in old(orders)
      ensures id !in old(orders) ==> orders == old(orders) && rows == old(rows)
      ensures id in old(orders) ==>
                && orders == old(orders)[id := Updated(infos[id], old(orders)[id], old(codes), target, ghn, Stocked(old(rows), infos[id].items))]
                && rows == (if r == Accepted && target in {RETURNED, CANCELLED}
                            then Release(old(rows), infos[id].items) else old(rows))
      ensures r == Accepted <==>
                id in old(orders) && StatusAccepted(infos[id], old(orders)[id], old(codes), target, ghn, Stocked(old(rows), infos[id].items))
      ensures r == Accepted ==> StatusWritten(infos[id], old(orders)[id], orders[id], target, ghn)
      ensures id in old(orders) && r != Accepted ==> orders[id] == old(orders)[id]
    {
      if id !in orders {
        return NotFound;
      }
      r := SetOrderStatus(id, target, ghn);
    }

    method SetOrderStatus(id: OrderId, target: Status, ghn: GhnReply) returns (r: Reply)
      requires Valid() && id in orders
      modifies `rows, `orders, `codes
      ensures Valid() && r != NotFound
      ensures orders == old(orders)[id := Updated(infos[id], old(orders)[id], old(codes), target, ghn, Stocked(old(rows), infos[id].items))]
      ensures rows == (if r == Accepted && target in {RETURNED, CANCELLED} then Release(old(rows), infos[id].items) else old(rows))
      ensures r == Accepted <==> StatusAccepted(infos[id], old(orders)[id], old(codes), target, ghn, Stocked(old(rows), infos[id].items))
      ensures r == Accepted ==> StatusWritten(infos[id], old(orders)[id], orders[id], target, ghn)
      ensures id in old(orders) && r != Accepted ==> orders[id] == old(orders)[id]
    {
      if target == PROCESSING {
        r := ProcessOrder(id, ghn);
      } else if target == RETURNED {
        r := ConfirmReturn(id);
      } else if target == CANCELLED {
        r := CancelOrder(id, None);
      } else {
        Save(id, orders[id].(status := target));
        r := Accepted;
      }
    }

    /** The branch that confirms a returned order. */
    method ConfirmReturn(id: OrderId) returns (r: Reply)
      requires Valid() && id in orders
      modifies `rows, `orders
      ensures Valid() && r != NotFound
      ensures r == Accepted <==> old(orders)[id].status == RETURNING && Stocked(old(rows), infos[id].items)
      ensures orders == old(orders)[id := ConfirmReturned(old(orders)[id], old(orders)[id], Stocked(old(rows), infos[id].items))]
      ensures rows == if r == Accepted then Release(old(rows), infos[id].items) else old(rows)
      ensures orders[id] ==
              if r == Accepted
              then old(orders)[id].(status := RETURNED, returnRequestedAt := None, released := old(orders)[id].released + 1)
              else old(orders)[id]
    {
      var order := orders[id];
      if order.status != RETURNING {
        return BadRequest;
      }
      var ok := Restock(infos[id].items);
      if !ok {
        return BadRequest;
      }
      Save(id, order.(status := RETURNED, returnRequestedAt := None, released := order.released + 1));
      r := Accepted;
    }

    /** The branch that hands the order to the carrier, once. */
    method ProcessOrder(id: OrderId, ghn: GhnReply) returns (r: Reply)
      requires Valid() && id in orders
      modifies `orders, `codes
      ensures Valid() && r != NotFound
      ensures orders == old(orders)[id := if GhnCodeClashes(old(orders)[id], old(codes), ghn) then old(orders)[id]
                                          else Process(infos[id], old(orders)[id], old(orders)[id], ghn)]
      ensures r == Accepted <==> StatusAccepted(infos[id], old(orders)[id], old(codes), PROCESSING, ghn, true)
      ensures r == Accepted && old(orders)[id].shipment.Some? ==> orders[id] == old(orders)[id].(status := PROCESSING)
      ensures r == Accepted && old(orders)[id].shipment.None? ==> HandedOver(infos[id], old(orders)[id], orders[id], ghn)
      ensures r != Accepted ==> orders[id] == old(orders)[id]
    {
      var order, info := orders[id], infos[id];
      ProcessHandsOverIfNew(info, order, ghn);
      if order.shipment.Some? {
        Save(id, order.(status := PROCESSING));
        return Accepted;
      }
      var amountBeforeShipping := AmountBeforeShipping(info);
      if !info.addressComplete {
        return BadRequest;
      }
      if ghn.GhnDown? {
        return ServerError;
      }
      var shippingFee := Round(ghn.fee);
      var totalAmount := amountBeforeShipping + shippingFee;
      var codAmount := if info.paymentMethod == COD then amountBeforeShipping else 0;
      if ghn.code in codes {
        return ServerError; // the shipment's unique carrier code aborts the transaction
      }
      var shipment := Shipment(ghn.code, ReadyToPick, codAmount, shippingFee, None, None);
      SaveShipped(id, order.(status := PROCESSING, shippingFee := shippingFee, totalAmount := totalAmount,
                             shipment := Some(shipment)));
      r := Accepted;
    }

    method RequestReturnOrder(id: OrderId, user: UserId, now: Time) returns (r: Reply)
      requires Valid()
      modifies `orders
      ensures Valid()
      ensures r == NotFound <==> id !in old(orders)
      ensures r == Forbidden <==> id in old(orders) && owners[id] != user
      ensures r == Accepted <==>
                && id in old(orders) && owners[id] == user && old(orders)[id].status == DELIVERED
                && old(orders)[id].shipment.Some? && old(orders)[id].shipment.value.deliveredAt.Some?
                && now <= old(orders)[id].shipment.value.deliveredAt.value + 604_800_000
      ensures r == Accepted ==> orders == old(orders)[id := old(orders)[id].(status := RETURNING, returnRequestedAt := Some(now))]
      ensures orders == if r == Accepted
                        then old(orders)[id := Step(infos[id], old(orders)[id], RequestReturn(old(orders)[id], now))]
                        else old(orders)
    {
      if id !in orders {
        return NotFound;
      }
      var order := orders[id];
      if owners[id] != user {
        return Forbidden;
      }
      if order.status != DELIVERED {
        return BadRequest;
      }
      if order.shipment.None? || order.shipment.value.deliveredAt.None? {
        return BadRequest;
      }
      var returnDeadline := order.shipment.value.deliveredAt.value + RETURN_WINDOW;
      if now > returnDeadline {
        return BadRequest;
      }
      Save(id, order.(status := RETURNING, returnRequestedAt := Some(now)));
      r := Accepted;
    }

    // ----- shipments.service -----

    /**
     * One carrier notification. Unknown codes are ignored; otherwise the order takes its webhook step,
     * and exactly when that step releases its goods, stock rises and sold counts fall by what was ordered.
     */
    method HandleGhnWebhook(code: string, ghnStatus: GhnStatus, now: Time) returns (handled: bool)
      requires Valid()
      modifies `rows, `orders, `soldCount
      ensures Valid()
      ensures handled <==> code in codes
      ensures !handled ==> orders == old(orders) && rows == old(rows) && soldCount == old(soldCount)
      ensures handled ==>
                var id := codes[code];
                && old(orders)[id].shipment.Some?
                && orders == old(orders)[id := HandleWebhook(old(orders)[id], old(orders)[id].shipment.value, ghnStatus, now)]
                && Heard(old(orders)[id], orders[id], old(orders)[id].shipment.value, ghnStatus, now)
                && (if SendsBack(old(orders)[id], old(orders)[id].shipment.value, ghnStatus)
                    then rows == Release(old(rows), infos[id].items) && Unsold(old(soldCount), soldCount, infos[id].items)
                    else rows == old(rows) && soldCount == old(soldCount))
    {
      if code !in codes {
        return false;
      }
      var id := codes[code];
      var shipment := orders[id].shipment.value;
      var next := MapGhnStatus(ghnStatus);
      WordsMean(orders[id], shipment, ghnStatus, now);
      var shippedAt := if next == Some(SHIPPED) then FirstOr(shipment.shippedAt, now) else shipment.shippedAt;
      var deliveredAt := if next == Some(DELIVERED) then FirstOr(shipment.deliveredAt, now) else shipment.deliveredAt;
      FollowShipment(id, shipment, shipment.(status := ghnStatus, shippedAt := shippedAt, deliveredAt := deliveredAt), next);
      handled := true;
    }

    /** A notification the carrier sends twice in a row leaves every table as if it had come once. */
    method RedeliverGhnWebhook(code: string, ghnStatus: GhnStatus, now: Time, later: Time) returns (handled: bool)
      requires Valid()
      modifies `rows, `orders, `soldCount
      ensures Valid()
      ensures handled <==> code in codes
      ensures !handled ==> orders == old(orders) && rows == old(rows) && soldCount == old(soldCount)
      ensures handled ==>
                var id := codes[code];
                && old(orders)[id].shipment.Some?
                && orders == old(orders)[id := HandleWebhook(old(orders)[id], old(orders)[id].shipment.value, ghnStatus, now)]
                && Heard(old(orders)[id], orders[id], old(orders)[id].shipment.value, ghnStatus, now)
                && (if SendsBack(old(orders)[id], old(orders)[id].shipment.value, ghnStatus)
                    then rows == Release(old(rows), infos[id].items) && Unsold(old(soldCount), soldCount, infos[id].items)
                    else rows == old(rows) && soldCount == old(soldCount))
    {
      handled := HandleGhnWebhook(code, ghnStatus, now);
      if handled {
        var id := codes[code];
        WebhookIdempotent(old(orders)[id], ghnStatus, now, later);
        var _ := HandleGhnWebhook(code, ghnStatus, later);
      }
    }

    /** The transaction of the webhook: the shipment row, then the order row. */
    method FollowShipment(id: OrderId, shipment: Shipment, tracked: Shipment, next: Option<Status>)
      requires Valid() && id in orders && orders[id].shipment == Some(shipment) && tracked.code == shipment.code
      modifies `rows, `orders, `soldCount
      ensures Valid()
      ensures orders == old(orders)[id := Follow(old(orders)[id], shipment, tracked, next)]
      ensures if orders[id].released > old(orders)[id].released
              then rows == Release(old(rows), infos[id].items) && Unsold(old(soldCount), soldCount, infos[id].items)
              else rows == old(rows) && soldCount == old(soldCount)
    {
      var order := orders[id].(shipment := Some(tracked));
      if next.None? {
        Save(id, order);
      } else if next.value != CANCELLED {
        Save(id, order.(status := next.value));
      } else {
        var restocked := RestockUnshipped(id, shipment);
        Save(id, order.(status := CANCELLED, released := order.released + if restocked then 1 else 0));
      }
    }

    /** The carrier cancelled: goods that have not left go back, unless the order was cancelled before. */
    method RestockUnshipped(id: OrderId, shipment: Shipment) returns (restocked: bool)
      requires Valid() && id in orders
      modifies `rows, `soldCount
      ensures Valid()
      ensures restocked <==> CarrierRestocks(orders[id], shipment)
      ensures if restocked
              then rows == Release(old(rows), infos[id].items) && Unsold(old(soldCount), soldCount, infos[id].items)
              else rows == old(rows) && soldCount == old(soldCount)
    {
      restocked := false;
      if orders[id].status != CANCELLED {
        var shouldRestock := orders[id].status == PENDING || shipment.shippedAt.None?;
        if shouldRestock {
          RestockAndUnsell(infos[id].items);
          restocked := true;
        }
      }
    }

    method RestockAndUnsell(items: seq<Item>)
      requires forall it | it in items :: it.bookId in soldCount
      modifies `rows, `soldCount
      ensures rows == Release(old(rows), items)
      ensures Unsold(old(soldCount), soldCount, items)
    {
      ghost var rows0, sold0 := rows, soldCount;
      for i := 0 to |items|
        invariant rows == Release(rows0, items[..i])
        invariant Unsold(sold0, soldCount, items[..i])
      {
        assert items[..i + 1][..i] == items[..i];
        var b := items[i].bookId;
        assert items[i] in items;
        if b in rows {
          rows := Move(rows, b, items[i].quantity, IN);
        }
        soldCount := soldCount[b := soldCount[b] - items[i].quantity];
      }
      assert items[..|items|] == items;
    }

    /** One guarded write of the hourly job. */
    method RollBackOne(i: OrderId, ghost now: Time, cutoff: Time) returns (count: nat)
      requires Valid() && i in orders && cutoff == now - RETURN_WINDOW
      modifies `orders
      ensures Valid() && orders == old(orders)[i := RollBackReturn(old(orders)[i], now)]
      ensures count == if Overdue(old(orders)[i], cutoff) then 1 else 0
      ensures RolledBack(old(orders)[i], orders[i], now)
    {
      RollBackMeans(orders[i], now);
      var order := orders[i];
      count := 0;
      if order.status == RETURNING && order.returnRequestedAt.Some? && order.returnRequestedAt.value < cutoff {
        Save(i, order.(status := DELIVERED, returnRequestedAt := None));
        count := 1;
      }
    }

    /** The job's query: the overdue orders, each listed once. */
    method FindExpired(cutoff: Time) returns (ids: seq<OrderId>)
      ensures forall i :: i in ids <==> i in orders && Overdue(orders[i], cutoff)
    {
      ids := [];
      var todo := set i | i in orders && Overdue(orders[i], cutoff);
      while todo != {}
        invariant forall i :: i in ids || i in todo <==> i in orders && Overdue(orders[i], cutoff)
        decreases |todo|
      {
        var i :| i in todo;
        ids := ids + [i];
        todo := todo - {i};
      }
    }

    /** The hourly job, undisturbed: exactly the overdue returns are rolled back. */
    method RollbackExpiredReturnOrders(now: Time) returns (notified: seq<OrderId>)
      requires Valid()
      modifies `orders
      ensures Valid() && orders.Keys == old(orders).Keys
      ensures forall i :: i in notified <==> i in old(orders) && Overdue(old(orders)[i], now - RETURN_WINDOW)
      ensures forall i | i in orders :: orders[i] == RollBackReturn(old(orders)[i], now)
      ensures forall i | i in orders :: RolledBack(old(orders)[i], orders[i], now)
    {
      ghost var before := orders;
      var expired := FindExpired(now - RETURN_WINDOW);
      notified := [];
      for k := 0 to |expired|
        invariant Valid() && orders.Keys == before.Keys
        invariant forall i | i in before ::
                    orders[i] == if i in expired[..k] then RollBackReturn(before[i], now) else before[i]
        invariant forall i :: i in notified <==> i in expired[..k]
      {
        var count := RollBackOne(expired[k], now, now - RETURN_WINDOW);
        if count > 0 {
          notified := notified + [expired[k]];
        }
        assert expired[..k + 1] == expired[..k] + [expired[k]];
      }
      assert expired[..|expired|] == expired;
      forall i | i in before ensures RolledBack(before[i], orders[i], now) { RollBackMeans(before[i], now); }
    }

    /** A second run of the job at the same instant finds nothing, and changes nothing. */
    method RollbackExpiredReturnOrdersTwice(now: Time) returns (first: seq<OrderId>, second: seq<OrderId>)
      requires Valid()
      modifies `orders
      ensures Valid() && orders.Keys == old(orders).Keys && second == []
      ensures forall i :: i in first <==> i in old(orders) && Overdue(old(orders)[i], now - RETURN_WINDOW)
      ensures forall i | i in orders :: orders[i] == RollBackReturn(old(orders)[i], now)
      ensures forall i | i in orders :: RolledBack(old(orders)[i], orders[i], now)
    {
      first := RollbackExpiredReturnOrders(now);
      second := RollbackExpiredReturnOrders(now);
      HasMember(second);
    }
  }

  lemma HasMember(ids: seq<OrderId>)
    ensures ids != [] ==> exists i :: i in ids
  {
    if ids != [] {
      assert ids[0] in ids;
    }
  }

  /** The carrier handed out a code that another shipment already has. */
  predicate GhnCodeClashes(o: OrderRow, codes: map<string, OrderId>, ghn: GhnReply) {
    o.shipment.None? && ghn.GhnOrder? && ghn.code in codes
  }

  /** What an accepted status update wrote: the target status, and with it exactly what the branch owes. */
  predicate StatusWritten(info: OrderInfo, o: OrderRow, o': OrderRow, target: Status, ghn: GhnReply) {
    match target
    case PROCESSING => if o.shipment.Some? then o' == o.(status := PROCESSING) else HandedOver(info, o, o', ghn)
    case RETURNED => o' == o.(status := RETURNED, returnRequestedAt := None, released := o.released + 1)
    case CANCELLED => o' == o.(status := CANCELLED, released := o.released + 1)
    case _ => o' == o.(status := target)
  }

  lemma ProcessHandsOverIfNew(info: OrderInfo, o: OrderRow, ghn: GhnReply)
    ensures o.shipment.None? && info.addressComplete && ghn.GhnOrder? ==> HandedOver(info, o, Process(info, o, o, ghn), ghn)
  {
    if o.shipment.None? {
      ProcessHandsOver(info, o, ghn);
    }
  }

  /** When updateOrderStatus answers with the updated order. */
  predicate StatusAccepted(info: OrderInfo, o: OrderRow, codes: map<string, OrderId>, target: Status, ghn: GhnReply, stocked: bool) {
    match target
    case PROCESSING => o.shipment.Some? || (info.addressComplete && ghn.GhnOrder? && ghn.code !in codes)
    case RETURNED => o.status == RETURNING && stocked
    case CANCELLED => o.status == PENDING && stocked
    case _ => true
  }

  /** The row updateOrderStatus leaves: the lifecycle step, unless the new shipment breaks its unique code. */
  function Updated(info: OrderInfo, o: OrderRow, codes: map<string, OrderId>, target: Status, ghn: GhnReply, stocked: bool): OrderRow {
    if target == PROCESSING && GhnCodeClashes(o, codes, ghn) then o
    else SetStatus(info, o, o, target, ghn, stocked)
  }

  function CodeOf(o: OrderRow): Option<string> {
    if o.shipment.Some? then Some(o.shipment.value.code) else None
  }

  /** The index lists exactly the orders' carrier codes. */
  ghost predicate Indexed(orders: map<OrderId, OrderRow>, codes: map<string, OrderId>) {
    && (forall c | c in codes :: codes[c] in orders && CodeOf(orders[codes[c]]) == Some(c))
    && (forall i | i in orders && orders[i].shipment.Some? ::
          CodeOf(orders[i]).value in codes && codes[CodeOf(orders[i]).value] == i)
  }

  ghost predicate BooksKnown(infos: map<OrderId, OrderInfo>, books: set<BookId>) {
    forall i, it | i in infos && it in infos[i].items :: it.bookId in books
  }

  /** Sold counts fell by exactly the ordered units. */
  ghost predicate Unsold(before: map<BookId, int>, after: map<BookId, int>, items: seq<Item>) {
    && after.Keys == before.Keys
    && forall b | b in before :: after[b] == before[b] - Demand(items, b)
  }
}
