/**
 * The dead-letter queue: row updates, the service that issues them, and the
 * retry lease over whole runs with any number of retry attempts in flight.
 */
module Dlq {
  import opened Common
  import opened Events

  datatype Status = Pending | Retrying | Skipped | Resolved

  datatype Item = Item(
    event: Event,
    error: string,
    retryCount: nat,
    status: Status,
    lockedAt: Option<int>,
    lockedBy: Option<string>)
  {
    /** The lock columns are filled exactly while a retry holds the item. */
    predicate Consistent() {
      && (status == Retrying <==> lockedAt.Some?)
      && (status == Retrying <==> lockedBy.Some?)
    }

    predicate Terminal() {
      status == Skipped || status == Resolved
    }
  }

  function NewItem(event: Event, error: string, retryCount: nat): Item {
    Item(event, error, retryCount, Pending, None, None)
  }

  /** The filter of the claiming update; `expiredBefore` is the oldest instant still leased. */
  predicate Claimable(item: Item, expiredBefore: int) {
    && !item.Terminal()
    && (item.status != Retrying || item.lockedAt.None? || item.lockedAt.value < expiredBefore)
  }

  function Claimed(item: Item, now: int, who: string): Item {
    item.(status := Retrying, retryCount := item.retryCount + 1, lockedAt := Some(now), lockedBy := Some(who))
  }

  function MarkedSkipped(item: Item): Item {
    item.(status := Skipped, lockedAt := None, lockedBy := None)
  }

  function MarkedResolved(item: Item): Item {
    item.(status := Resolved, lockedAt := None, lockedBy := None)
  }

  function MarkedFailed(item: Item, error: string): Item {
    item.(status := Pending, error := error, lockedAt := None, lockedBy := None)
  }

  /** What each write leaves of a row, column by column. */
  lemma WritesLeave(item: Item, error: string, retryCount: nat, now: int, who: string)
    ensures NewItem(item.event, error, retryCount) == Item(item.event, error, retryCount, Pending, None, None)
    ensures Claimed(item, now, who) ==
            Item(item.event, item.error, item.retryCount + 1, Retrying, Some(now), Some(who))
    ensures MarkedSkipped(item) == Item(item.event, item.error, item.retryCount, Skipped, None, None)
    ensures MarkedResolved(item) == Item(item.event, item.error, item.retryCount, Resolved, None, None)
    ensures MarkedFailed(item, error) == Item(item.event, error, item.retryCount, Pending, None, None)
  {
  }

  // ----- The service -------------------------------------------------------

  function IdsIn(items: map<string, Item>, status: Status): set<string> {
    set id | id in items && items[id].status == status
  }

  function CountStatus(items: map<string, Item>, status: Status): nat {
    |IdsIn(items, status)|
  }

  const STATUSES: seq<Status> := [Pending, Retrying, Skipped, Resolved]

  /** The four gauges together count every row once. */
  lemma GaugesCoverTable(items: map<string, Item>)
    ensures CountStatus(items, Pending) + CountStatus(items, Retrying)
            + CountStatus(items, Skipped) + CountStatus(items, Resolved) == |items|
  {
    var a, b := IdsIn(items, Pending), IdsIn(items, Retrying);
    var c, d := IdsIn(items, Skipped), IdsIn(items, Resolved);
    assert a !! b && a + b !! c && a + b + c !! d;
    assert items.Keys == a + b + c + d by {
      forall id | id in items.Keys
        ensures id in a + b + c + d
      {
        match items[id].status
        case Pending => assert id in a;
        case Retrying => assert id in b;
        case Skipped => assert id in c;
        case Resolved => assert id in d;
      }
    }
  }

  /** How a service call ends. `GaugeFailed`: the row was written, then counting threw. */
  datatype Ending = Done | WriteFailed | GaugeFailed

  class DlqService {
    var items: map<string, Item>
    var gauges: map<Status, nat>

    constructor ()
      ensures items == map[] && gauges == map[]
    {
      items, gauges := map[], map[];
    }

    ghost predicate GaugesExact()
      reads this
    {
      && gauges.Keys == {Pending, Retrying, Skipped, Resolved}
      && forall s :: s in gauges ==> gauges[s] == CountStatus(items, s)
    }

    method UpdateMetrics(fails: bool) returns (ok: bool)
      modifies this`gauges
      ensures ok == !fails
      ensures ok ==> GaugesExact() && gauges.Keys == {Pending, Retrying, Skipped, Resolved}
      ensures ok ==> forall s :: s in gauges ==> gauges[s] == |set id | id in items && items[id].status == s|
      ensures !ok ==> gauges == old(gauges)
    {
      if fails {
        return false;
      }
      var next := map[];
      for i := 0 to |STATUSES|
        invariant next.Keys == set j | 0 <= j < i :: STATUSES[j]
        invariant forall s :: s in next ==> next[s] == CountStatus(items, s)
      {
        next := next[STATUSES[i] := CountStatus(items, STATUSES[i])];
      }
      gauges := next;
      assert {Pending, Retrying, Skipped, Resolved} == set j | 0 <= j < 4 :: STATUSES[j] by {
        assert STATUSES[0] == Pending && STATUSES[1] == Retrying && STATUSES[2] == Skipped && STATUSES[3] == Resolved;
      }
      ok := true;
    }

    method Add(id: string, event: Event, error: string, retryCount: Option<nat>, createFails: bool, gaugeFails: bool)
      returns (ending: Ending)
      requires id !in items
      modifies this
      ensures createFails ==> ending == WriteFailed && items == old(items) && gauges == old(gauges)
      ensures !createFails ==>
                items == old(items)[id := Item(event, error, if retryCount.Some? then retryCount.value else 0, Pending,
                                               None, None)]
      ensures !createFails ==> ending == if gaugeFails then GaugeFailed else Done
      ensures ending == Done ==> GaugesExact()
    {
      if createFails {
        return WriteFailed;
      }
      items := items[id := NewItem(event, error, if retryCount.Some? then retryCount.value else 0)];
      var ok := UpdateMetrics(gaugeFails);
      ending := if ok then Done else GaugeFailed;
    }

    /** `now` and `checked` are the two clock readings of the claim. */
    method Retry(id: string, leaseSeconds: int, now: int, checked: int, who: string, gaugeFails: bool)
      returns (claimed: bool, ending: Ending)
      modifies this
      ensures claimed <==>
              && id in old(items)
              && var was := old(items)[id];
                 && was.status != Skipped && was.status != Resolved
                 && (was.status == Retrying && was.lockedAt.Some? ==>
                       was.lockedAt.value < checked - leaseSeconds * 1000)
      ensures !claimed ==> items == old(items) && gauges == old(gauges)
      ensures claimed ==>
                var was := old(items)[id];
                items == old(items)[id := Item(was.event, was.error, was.retryCount + 1, Retrying, Some(now), Some(who))]
      ensures claimed && ending == Done ==> GaugesExact()
      ensures ending == if claimed && gaugeFails then GaugeFailed else Done
    {
      claimed, ending := false, Done;
      var expiredBefore := checked - leaseSeconds * 1000;
      if id in items && Claimable(items[id], expiredBefore) {
        items := items[id := Claimed(items[id], now, who)];
        claimed := true;
        var ok := UpdateMetrics(gaugeFails);
        ending := if ok then Done else GaugeFailed;
      }
    }

    method Skip(id: string, gaugeFails: bool) returns (ending: Ending)
      modifies this
      ensures id !in old(items) ==> ending == WriteFailed && items == old(items)
      ensures id in old(items) ==>
                var was := old(items)[id];
                items == old(items)[id := Item(was.event, was.error, was.retryCount, Skipped, None, None)]
      ensures id in old(items) ==> ending == if gaugeFails then GaugeFailed else Done
      ensures ending == Done ==> GaugesExact()
    {
      ending := Write(id, if id in items then Some(MarkedSkipped(items[id])) else None, gaugeFails);
    }

    method Resolve(id: string, gaugeFails: bool) returns (ending: Ending)
      modifies this
      ensures id !in old(items) ==> ending == WriteFailed && items == old(items)
      ensures id in old(items) ==>
                var was := old(items)[id];
                items == old(items)[id := Item(was.event, was.error, was.retryCount, Resolved, None, None)]
      ensures id in old(items) ==> ending == if gaugeFails then GaugeFailed else Done
      ensures ending == Done ==> GaugesExact()
    {
      ending := Write(id, if id in items then Some(MarkedResolved(items[id])) else None, gaugeFails);
    }

    method MarkRetryFailed(id: string, error: string, gaugeFails: bool) returns (ending: Ending)
      modifies this
      ensures id !in old(items) ==> ending == WriteFailed && items == old(items)
      ensures id in old(items) ==>
                var was := old(items)[id];
                items == old(items)[id := Item(was.event, error, was.retryCount, Pending, None, None)]
      ensures id in old(items) ==> ending == if gaugeFails then GaugeFailed else Done
      ensures ending == Done ==> GaugesExact()
    {
      ending := Write(id, if id in items then Some(MarkedFailed(items[id], error)) else None, gaugeFails);
    }

    /** An update by id throws when the row is missing, and counts afterwards otherwise. */
    method Write(id: string, next: Option<Item>, gaugeFails: bool) returns (ending: Ending)
      modifies this
      ensures next.None? ==> ending == WriteFailed && items == old(items) && gauges == old(gauges)
      ensures next.Some? ==> items == old(items)[id := next.value]
      ensures next.Some? ==> ending == if gaugeFails then GaugeFailed else Done
      ensures ending == Done ==> GaugesExact()
    {
      if next.None? {
        return WriteFailed;
      }
      items := items[id := next.value];
      var ok := UpdateMetrics(gaugeFails);
      ending := if ok then Done else GaugeFailed;
    }
  }
}
