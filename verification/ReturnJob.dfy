/**
 * The hourly job over many orders, with any order events between any two of its writes: the job fixed
 * its list and its cutoff when it read, and writes the listed orders one by one.
 */
module ReturnJob {
  import opened Lifecycle

  type OrderId = string
  type Infos = map<OrderId, OrderInfo>
  type Orders = map<OrderId, OrderRow>

  /** Either the job writes the next order of its list, or something else writes an order. */
  datatype Turn = Ours(id: OrderId) | Theirs(id: OrderId, e: Event)

  function EventOf(t: Turn, readAt: Time): Event {
    match t
    case Ours(_) => CronRollback(readAt)
    case Theirs(_, e) => e
  }

  function Take(infos: Infos, orders: Orders, readAt: Time, t: Turn): Orders {
    if t.id !in orders || t.id !in infos then orders
    else if t.Ours? then orders[t.id := RollBackReturn(orders[t.id], readAt)]
    else orders[t.id := Step(infos[t.id], orders[t.id], t.e)]
  }

  function Play(infos: Infos, orders: Orders, readAt: Time, turns: seq<Turn>): Orders {
    if turns == [] then orders
    else Take(infos, Play(infos, orders, readAt, turns[..|turns| - 1]), readAt, turns[|turns| - 1])
  }

  /** The turns that concern one order, as events of its own run. */
  function Mine(turns: seq<Turn>, id: OrderId, readAt: Time): seq<Event> {
    if turns == [] then []
    else
      var t := turns[|turns| - 1];
      Mine(turns[..|turns| - 1], id, readAt) + if t.id == id then [EventOf(t, readAt)] else []
  }

  /** Every order goes through a run of its own events, the job's writes among them, so all its run properties apply. */
  lemma {:induction false} OrdersRunOnTheirOwn(infos: Infos, orders: Orders, readAt: Time, turns: seq<Turn>, id: OrderId)
    requires id in orders && id in infos
    ensures var after := Play(infos, orders, readAt, turns);
            && after.Keys == orders.Keys
            && after[id] == Run(infos[id], orders[id], Mine(turns, id, readAt))
  {
    if turns != [] {
      var n := |turns| - 1;
      OrdersRunOnTheirOwn(infos, orders, readAt, turns[..n], id);
      if turns[n].id == id {
        RunMore(infos[id], orders[id], Mine(turns[..n], id, readAt), EventOf(turns[n], readAt));
      } else {
        assert Mine(turns[..n], id, readAt) + [] == Mine(turns[..n], id, readAt);
      }
    }
  }

  lemma {:induction false} KeysStay(infos: Infos, orders: Orders, readAt: Time, turns: seq<Turn>)
    ensures Play(infos, orders, readAt, turns).Keys == orders.Keys
  {
    if turns != [] {
      KeysStay(infos, orders, readAt, turns[..|turns| - 1]);
    }
  }

  lemma PlayUpTo(infos: Infos, orders: Orders, readAt: Time, turns: seq<Turn>, k: nat)
    requires k < |turns|
    ensures Play(infos, orders, readAt, turns[..k + 1]) ==
            Take(infos, Play(infos, orders, readAt, turns[..k]), readAt, turns[k])
  {
    assert turns[..k + 1][..k] == turns[..k];
  }

  ghost predicate Written(turns: seq<Turn>, id: OrderId, i: nat, j: nat)
    requires i <= j <= |turns|
  {
    exists k :: i <= k < j && turns[k].id == id
  }

  /**
   * An order that differs after turns without foreign events on it was rolled back by the job: at one
   * of the job's writes it was still RETURNING with an overdue request, and now it is DELIVERED.
   */
  lemma {:induction false} JobChangesOnlyOverdue(infos: Infos, orders: Orders, readAt: Time, turns: seq<Turn>,
                                                 id: OrderId, i: nat, j: nat)
    requires infos.Keys == orders.Keys && id in orders && i <= j <= |turns|
    requires forall k | i <= k < j :: turns[k].Ours? || turns[k].id != id
    ensures Play(infos, orders, readAt, turns[..i]).Keys == Play(infos, orders, readAt, turns[..j]).Keys == orders.Keys
    ensures var before, after := Play(infos, orders, readAt, turns[..i])[id], Play(infos, orders, readAt, turns[..j])[id];
            && after == (if Written(turns, id, i, j) then RollBackReturn(before, readAt) else before)
            && (after != before ==> Overdue(before, readAt - RETURN_WINDOW) && after.status == DELIVERED)
            && (before.status == RETURNED ==> after == before)
  {
    KeysStay(infos, orders, readAt, turns[..i]);
    KeysStay(infos, orders, readAt, turns[..j]);
    if i < j {
      JobChangesOnlyOverdue(infos, orders, readAt, turns, id, i, j - 1);
      PlayUpTo(infos, orders, readAt, turns, j - 1);
      assert Written(turns, id, i, j) <==> Written(turns, id, i, j - 1) || turns[j - 1].id == id;
    }
  }

  /** Over the whole job, whatever ran in between: it changes an order only by a write that finds it RETURNING and overdue. */
  lemma JobWritesAreGuarded(infos: Infos, orders: Orders, readAt: Time, turns: seq<Turn>, k: nat, id: OrderId)
    requires infos.Keys == orders.Keys && id in orders && k < |turns| && turns[k].Ours?
    ensures Play(infos, orders, readAt, turns[..k]).Keys == Play(infos, orders, readAt, turns[..k + 1]).Keys == orders.Keys
    ensures var before, after := Play(infos, orders, readAt, turns[..k])[id], Play(infos, orders, readAt, turns[..k + 1])[id];
            && (after != before <==> turns[k].id == id && Overdue(before, readAt - RETURN_WINDOW))
            && (before.status == RETURNED ==> after.status == RETURNED)
  {
    KeysStay(infos, orders, readAt, turns[..k]);
    KeysStay(infos, orders, readAt, turns[..k + 1]);
    PlayUpTo(infos, orders, readAt, turns, k);
  }

  /** A return confirmed at any point between the job's writes stays confirmed, unless somebody else writes that order. */
  lemma ConfirmedReturnSurvivesTheJob(infos: Infos, orders: Orders, readAt: Time, turns: seq<Turn>, id: OrderId, i: nat)
    requires infos.Keys == orders.Keys && id in orders && i <= |turns|
    requires forall k | i <= k < |turns| :: turns[k].Ours? || turns[k].id != id
    ensures Play(infos, orders, readAt, turns[..i]).Keys == Play(infos, orders, readAt, turns).Keys == orders.Keys
    ensures var before := Play(infos, orders, readAt, turns[..i])[id];
            before.status == RETURNED ==> Play(infos, orders, readAt, turns)[id] == before
  {
    JobChangesOnlyOverdue(infos, orders, readAt, turns, id, i, |turns|);
    assert turns[..|turns|] == turns;
  }

  predicate AllOurs(turns: seq<Turn>) {
    forall t | t in turns :: t.Ours?
  }

  /** The undisturbed job over a list of orders flips exactly the overdue ones on it, and a second pass over any list of them changes nothing. */
  lemma SecondPassChangesNothing(infos: Infos, orders: Orders, readAt: Time, first: seq<Turn>, second: seq<Turn>)
    requires infos.Keys == orders.Keys && AllOurs(first) && AllOurs(second)
    requires forall t | t in second :: t in first
    ensures Play(infos, orders, readAt, first + second) == Play(infos, orders, readAt, first)
  {
    var turns := first + second;
    KeysStay(infos, orders, readAt, turns);
    KeysStay(infos, orders, readAt, first);
    forall id | id in orders
      ensures Play(infos, orders, readAt, turns)[id] == Play(infos, orders, readAt, first)[id]
    {
      JobChangesOnlyOverdue(infos, orders, readAt, turns, id, 0, |first|);
      JobChangesOnlyOverdue(infos, orders, readAt, turns, id, |first|, |turns|);
      assert turns[..|first|] == first && turns[..|turns|] == turns;
      if k :| |first| <= k < |turns| && turns[k].id == id {
        assert turns[k] == second[k - |first|] && turns[k] in first;
        var j :| 0 <= j < |first| && first[j] == turns[k];
        assert turns[j].id == id;
      }
    }
  }
}
