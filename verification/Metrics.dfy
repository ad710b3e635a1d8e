/** Delivery counts over the last five minutes, and the part of them an administrator may see. */
module Metrics {
  import opened Common

  const WINDOW_MS := 5 * 60 * 1000

  datatype Status = Success | Failed

  datatype Sample = Sample(timestamp: int, status: Status, target: string)

  datatype Snapshot = Snapshot(total: nat, byStatus: map<Status, nat>, byTarget: map<string, map<Status, nat>>)

  function Get<K>(m: map<K, nat>, k: K): nat {
    if k in m then m[k] else 0
  }

  /** Samples no older than `cutoff`. */
  function Since(samples: seq<Sample>, cutoff: int): seq<Sample> {
    Filter(samples, (s: Sample) => s.timestamp >= cutoff)
  }

  /** Samples of the targets in `targets`. */
  function Of(samples: seq<Sample>, targets: set<string>): seq<Sample> {
    if samples == [] then []
    else
      var init := Of(samples[..|samples| - 1], targets);
      if samples[|samples| - 1].target in targets then init + [samples[|samples| - 1]] else init
  }

  function CountStatus(samples: seq<Sample>, st: Status): nat {
    if samples == [] then 0
    else CountStatus(samples[..|samples| - 1], st) + if samples[|samples| - 1].status == st then 1 else 0
  }

  function Count(samples: seq<Sample>, target: string, st: Status): nat {
    if samples == [] then 0
    else
      var last := samples[|samples| - 1];
      Count(samples[..|samples| - 1], target, st) + if last.target == target && last.status == st then 1 else 0
  }

  predicate Mentions(samples: seq<Sample>, target: string) {
    exists i :: 0 <= i < |samples| && samples[i].target == target
  }

  /** The figures are exactly the counts of the samples, with no zero entries. */
  ghost predicate IsTally(samples: seq<Sample>, r: Snapshot) {
    && r.total == |samples|
    && (forall st :: Get(r.byStatus, st) == CountStatus(samples, st))
    && (forall st :: st in r.byStatus ==> r.byStatus[st] > 0)
    && IsTargetTally(samples, r.byTarget)
  }

  ghost predicate IsTargetTally(samples: seq<Sample>, m: map<string, map<Status, nat>>) {
    && (forall t :: t in m <==> Mentions(samples, t))
    && (forall t, st :: t in m ==> Get(m[t], st) == Count(samples, t, st))
    && (forall t, st :: t in m && st in m[t] ==> m[t][st] > 0)
  }

  function AddStatus(m: map<Status, nat>, st: Status): map<Status, nat> {
    m[st := Get(m, st) + 1]
  }

  function AddTarget(m: map<string, map<Status, nat>>, s: Sample): map<string, map<Status, nat>> {
    m[s.target := AddStatus(if s.target in m then m[s.target] else map[], s.status)]
  }

  lemma MentionsOneMore(samples: seq<Sample>, s: Sample, t: string)
    ensures Mentions(samples + [s], t) <==> Mentions(samples, t) || s.target == t
  {
    if Mentions(samples, t) {
      var i :| 0 <= i < |samples| && samples[i].target == t;
      assert (samples + [s])[i].target == t;
    }
    assert (samples + [s])[|samples|] == s;
  }

  lemma {:induction false} UnmentionedIsZero(samples: seq<Sample>, t: string, st: Status)
    requires !Mentions(samples, t)
    ensures Count(samples, t, st) == 0
  {
    if samples == [] {
    } else {
      var init := samples[..|samples| - 1];
      assert samples == init + [samples[|samples| - 1]];
      MentionsOneMore(init, samples[|samples| - 1], t);
      UnmentionedIsZero(init, t, st);
    }
  }

  /** Counting one more sample. */
  lemma TargetTallyGrows(samples: seq<Sample>, s: Sample, m: map<string, map<Status, nat>>)
    requires IsTargetTally(samples, m)
    ensures IsTargetTally(samples + [s], AddTarget(m, s))
  {
    var after := AddTarget(m, s);
    assert (samples + [s])[..|samples|] == samples;
    forall t
      ensures t in after <==> Mentions(samples + [s], t)
    {
      MentionsOneMore(samples, s, t);
    }
    forall t, st | t in after
      ensures Get(after[t], st) == Count(samples + [s], t, st)
    {
      if t !in m {
        UnmentionedIsZero(samples, t, st);
      }
    }
  }

  /** The counting loops of the service: one entry more per sample. */
  method TallyTargets(samples: seq<Sample>) returns (m: map<string, map<Status, nat>>)
    ensures IsTargetTally(samples, m)
  {
    m := map[];
    for i := 0 to |samples|
      invariant IsTargetTally(samples[..i], m)
    {
      TargetTallyGrows(samples[..i], samples[i], m);
      assert samples[..i + 1] == samples[..i] + [samples[i]];
      m := AddTarget(m, samples[i]);
    }
    assert samples[..|samples|] == samples;
  }

  method TallyStatuses(samples: seq<Sample>) returns (m: map<Status, nat>)
    ensures forall st :: Get(m, st) == CountStatus(samples, st)
    ensures forall st :: st in m ==> m[st] > 0
  {
    m := map[];
    for i := 0 to |samples|
      invariant forall st :: Get(m, st) == CountStatus(samples[..i], st)
      invariant forall st :: st in m ==> m[st] > 0
    {
      assert samples[..i + 1][..i] == samples[..i];
      m := AddStatus(m, samples[i].status);
    }
    assert samples[..|samples|] == samples;
  }

  // ----- The service -----------------------------------------------------------------

  class MetricsService {
    var processedWindow: seq<Sample>
    var eventsProcessed: map<(Status, string), nat>
    var lastFiveMinutes: map<string, map<Status, nat>> // the gauge
    ghost var history: seq<Sample> // everything ever recorded
    ghost var clock: int           // the latest clock reading

    ghost predicate Valid()
      reads this
    {
      && Ordered(history)
      && (forall s :: s in history ==> s.timestamp <= clock)
      && IsRecentPart(processedWindow, history, clock - WINDOW_MS)
    }

    constructor (now: int)
      ensures Valid() && processedWindow == [] && history == [] && clock == now
    {
      processedWindow, eventsProcessed, lastFiveMinutes, history, clock := [], map[], map[], [], now;
    }

    /** Pops the samples older than five minutes from the front. */
    method PopOld(now: int)
      requires Valid() && now >= clock
      modifies this`processedWindow, this`clock
      ensures Valid() && clock == now && processedWindow == Since(history, now - WINDOW_MS)
    {
      var cutoff := now - WINDOW_MS;
      RecentPartLater(processedWindow, history, clock - WINDOW_MS, cutoff);
      clock := now;
      while |processedWindow| > 0 && processedWindow[0].timestamp < cutoff
        invariant clock == now && IsRecentPart(processedWindow, history, cutoff)
        decreases |processedWindow|
      {
        PopFront(processedWindow, history, cutoff);
        processedWindow := processedWindow[1..];
      }
      RecentPartIsFilter(processedWindow, history, cutoff);
    }

    /** Pops old samples from the front and rebuilds the gauge. */
    method RefreshProcessedWindow(now: int)
      requires Valid() && now >= clock
      modifies this`processedWindow, this`lastFiveMinutes, this`clock
      ensures Valid() && clock == now
      ensures processedWindow == Since(history, now - 300_000)
      ensures IsTargetTally(processedWindow, lastFiveMinutes)
    {
      PopOld(now);
      var counts := TallyTargets(processedWindow);
      lastFiveMinutes := counts;
    }

    /** Appends a sample taken at the moment. */
    method Push(s: Sample)
      requires Valid() && clock <= s.timestamp
      modifies this`processedWindow, this`history, this`clock
      ensures Valid() && clock == s.timestamp && history == old(history) + [s]
    {
      PushKeepsWindow(processedWindow, history, clock, s);
      processedWindow := processedWindow + [s];
      history := history + [s];
      clock := s.timestamp;
    }

    /** `now` and `later` are the clock readings of the push and of the refresh. */
    method RecordEvent(status: Status, target: string, now: int, later: int)
      requires Valid() && clock <= now <= later
      modifies this
      ensures Valid() && clock == later
      ensures history == old(history) + [Sample(now, status, target)]
      ensures processedWindow == Since(history, later - 300_000)
      ensures IsTargetTally(processedWindow, lastFiveMinutes)
      ensures eventsProcessed == old(eventsProcessed)[(status, target) := Get(old(eventsProcessed), (status, target)) + 1]
    {
      eventsProcessed := eventsProcessed[(status, target) := Get(eventsProcessed, (status, target)) + 1];
      Push(Sample(now, status, target));
      RefreshProcessedWindow(later);
    }

    method ProcessedLast5Minutes(now: int) returns (r: Snapshot)
      requires Valid() && now >= clock
      modifies this`processedWindow, this`lastFiveMinutes, this`clock
      ensures Valid() && clock == now && processedWindow == Since(history, now - 300_000)
      ensures IsTally(processedWindow, r)
    {
      RefreshProcessedWindow(now);
      var samples := processedWindow;
      var byStatus := TallyStatuses(samples);
      var byTarget := TallyTargets(samples);
      r := Snapshot(|samples|, byStatus, byTarget);
    }

    /** The figures restricted to the allowed targets, aggregated again from the per-target counts. */
    method FilteredProcessedLast5Minutes(allowed: Option<set<string>>, now: int) returns (r: Snapshot)
      requires Valid() && now >= clock
      modifies this`processedWindow, this`lastFiveMinutes, this`clock
      ensures Valid() && clock == now && processedWindow == Since(history, now - 300_000)
      ensures IsTally(if allowed.None? then processedWindow else Of(processedWindow, allowed.value), r)
    {
      var snapshot := ProcessedLast5Minutes(now);
      if allowed.None? {
        return snapshot;
      }
      r := Aggregate(processedWindow, snapshot, allowed.value);
    }
  }

  // ----- The window is a filter of the whole history ------------------------------------

  predicate Ordered(samples: seq<Sample>) {
    forall i, j :: 0 <= i < j < |samples| ==> samples[i].timestamp <= samples[j].timestamp
  }

  /** `part` is what is left of `all` after dropping a front of samples older than `cutoff`. */
  predicate IsRecentPart(part: seq<Sample>, all: seq<Sample>, cutoff: int) {
    && |part| <= |all| && part == all[|all| - |part|..]
    && forall i :: 0 <= i < |all| - |part| ==> all[i].timestamp < cutoff
  }

  lemma PopFront(part: seq<Sample>, all: seq<Sample>, cutoff: int)
    requires part != [] && part[0].timestamp < cutoff && IsRecentPart(part, all, cutoff)
    ensures IsRecentPart(part[1..], all, cutoff)
  {
  }

  lemma PushBack(part: seq<Sample>, all: seq<Sample>, cutoff: int, s: Sample)
    requires IsRecentPart(part, all, cutoff)
    ensures IsRecentPart(part + [s], all + [s], cutoff)
  {
  }

  lemma RecentPartLater(part: seq<Sample>, all: seq<Sample>, cutoff: int, later: int)
    requires IsRecentPart(part, all, cutoff) && cutoff <= later
    ensures IsRecentPart(part, all, later)
  {
  }

  /** A sample taken at the moment extends an ordered history and its window. */
  lemma PushKeepsWindow(part: seq<Sample>, all: seq<Sample>, clock: int, s: Sample)
    requires Ordered(all) && (forall e :: e in all ==> e.timestamp <= clock) && clock <= s.timestamp
    requires IsRecentPart(part, all, clock - WINDOW_MS)
    ensures Ordered(all + [s]) && forall e :: e in all + [s] ==> e.timestamp <= s.timestamp
    ensures IsRecentPart(part + [s], all + [s], s.timestamp - WINDOW_MS)
  {
    PushBack(part, all, clock - WINDOW_MS, s);
    RecentPartLater(part + [s], all + [s], clock - WINDOW_MS, s.timestamp - WINDOW_MS);
    forall i, j | 0 <= i < j < |all + [s]|
      ensures (all + [s])[i].timestamp <= (all + [s])[j].timestamp
    {
      assert all[i] in all;
    }
  }

  lemma {:induction false} AllOldVanish(samples: seq<Sample>, cutoff: int)
    requires forall i :: 0 <= i < |samples| ==> samples[i].timestamp < cutoff
    ensures Since(samples, cutoff) == []
  {
    if samples == [] {
    } else {
      AllOldVanish(samples[1..], cutoff);
    }
  }

  lemma {:induction false} AllNewStay(samples: seq<Sample>, cutoff: int)
    requires forall i :: 0 <= i < |samples| ==> samples[i].timestamp >= cutoff
    ensures Since(samples, cutoff) == samples
  {
    if samples == [] {
    } else {
      AllNewStay(samples[1..], cutoff);
    }
  }

  /** With a clock that never goes back, popping the front until it is recent filters the whole history. */
  lemma RecentPartIsFilter(part: seq<Sample>, all: seq<Sample>, cutoff: int)
    requires Ordered(all) && IsRecentPart(part, all, cutoff)
    requires part != [] ==> part[0].timestamp >= cutoff
    ensures part == Since(all, cutoff)
  {
    var n := |all| - |part|;
    assert all == all[..n] + all[n..];
    AllOldVanish(all[..n], cutoff);
    AllNewStay(all[n..], cutoff);
    FilterAppend(all[..n], all[n..], (s: Sample) => s.timestamp >= cutoff);
  }

  // ----- Aggregation over allowed targets --------------------------------------------------

  lemma {:induction false} OfNobody(samples: seq<Sample>)
    ensures Of(samples, {}) == []
  {
    if samples == [] {
    } else {
      OfNobody(samples[..|samples| - 1]);
    }
  }

  lemma CountStatusOneMore(samples: seq<Sample>, s: Sample, st: Status)
    ensures CountStatus(samples + [s], st) == CountStatus(samples, st) + if s.status == st then 1 else 0
  {
    assert (samples + [s])[..|samples|] == samples;
  }

  lemma OfLast(samples: seq<Sample>, targets: set<string>, st: Status)
    requires samples != []
    ensures var init, last := samples[..|samples| - 1], samples[|samples| - 1];
            && |Of(samples, targets)| == |Of(init, targets)| + (if last.target in targets then 1 else 0)
            && CountStatus(Of(samples, targets), st)
               == CountStatus(Of(init, targets), st) + if last.target in targets && last.status == st then 1 else 0
  {
    CountStatusOneMore(Of(samples[..|samples| - 1], targets), samples[|samples| - 1], st);
  }

  /** Allowing one more target adds exactly its samples. */
  lemma {:induction false} OneMoreTarget(samples: seq<Sample>, targets: set<string>, t: string, st: Status)
    requires t !in targets
    ensures CountStatus(Of(samples, targets + {t}), st) == CountStatus(Of(samples, targets), st) + Count(samples, t, st)
    ensures |Of(samples, targets + {t})| ==
            |Of(samples, targets)| + Count(samples, t, Success) + Count(samples, t, Failed)
  {
    if samples == [] {
    } else {
      var init, last := samples[..|samples| - 1], samples[|samples| - 1];
      OneMoreTarget(init, targets, t, st);
      OfLast(samples, targets, st);
      OfLast(samples, targets + {t}, st);
    }
  }

  lemma {:induction false} OfCounts(samples: seq<Sample>, targets: set<string>, t: string, st: Status)
    ensures Count(Of(samples, targets), t, st) == if t in targets then Count(samples, t, st) else 0
  {
    if samples == [] {
    } else {
      var init, last := samples[..|samples| - 1], samples[|samples| - 1];
      OfCounts(init, targets, t, st);
      assert (Of(init, targets) + [last])[..|Of(init, targets)|] == Of(init, targets);
    }
  }

  lemma {:induction false} OfMentions(samples: seq<Sample>, targets: set<string>, t: string)
    ensures Mentions(Of(samples, targets), t) <==> t in targets && Mentions(samples, t)
  {
    if samples == [] {
    } else {
      var init, last := samples[..|samples| - 1], samples[|samples| - 1];
      OfMentions(init, targets, t);
      assert samples == init + [last];
      MentionsOneMore(init, last, t);
      MentionsOneMore(Of(init, targets), last, t);
    }
  }

  /** Only mentioned targets matter to a selection. */
  lemma {:induction false} OfMentioned(samples: seq<Sample>, targets: set<string>, few: set<string>)
    requires few <= targets && forall t :: t in targets && Mentions(samples, t) ==> t in few
    ensures Of(samples, few) == Of(samples, targets)
  {
    if samples == [] {
    } else {
      var init, last := samples[..|samples| - 1], samples[|samples| - 1];
      assert samples == init + [last];
      forall t | t in targets && Mentions(init, t)
        ensures t in few
      {
        MentionsOneMore(init, last, t);
      }
      MentionsOneMore(init, last, last.target);
      OfMentioned(init, targets, few);
    }
  }

  lemma SelectionTally(samples: seq<Sample>, m: map<string, map<Status, nat>>, allowed: set<string>)
    requires IsTargetTally(samples, m)
    ensures IsTargetTally(Of(samples, allowed), map t | t in m && t in allowed :: m[t])
  {
    var part := map t | t in m && t in allowed :: m[t];
    forall t
      ensures t in part <==> Mentions(Of(samples, allowed), t)
    {
      OfMentions(samples, allowed, t);
    }
    forall t, st | t in part
      ensures Get(part[t], st) == Count(Of(samples, allowed), t, st)
    {
      OfCounts(samples, allowed, t, st);
    }
  }

  method Aggregate(samples: seq<Sample>, snapshot: Snapshot, allowed: set<string>) returns (r: Snapshot)
    requires IsTally(samples, snapshot)
    ensures IsTally(Of(samples, allowed), r)
  {
    var byTarget := map t | t in snapshot.byTarget && t in allowed :: snapshot.byTarget[t];
    var byStatus: map<Status, nat>, total := map[], 0;
    var remaining := byTarget.Keys;
    ghost var done: set<string> := {};
    OfNobody(samples);
    while remaining != {}
      invariant done !! remaining && done + remaining == byTarget.Keys
      invariant total == |Of(samples, done)|
      invariant forall st :: Get(byStatus, st) == CountStatus(Of(samples, done), st)
      invariant forall st :: st in byStatus ==> byStatus[st] > 0
      decreases remaining
    {
      var t :| t in remaining;
      var statuses := byTarget[t];
      OneMoreTarget(samples, done, t, Success);
      OneMoreTarget(samples, done, t, Failed);
      byStatus := AddAll(byStatus, statuses);
      total := total + Get(statuses, Success) + Get(statuses, Failed);
      done, remaining := done + {t}, remaining - {t};
    }
    OfMentioned(samples, allowed, done);
    SelectionTally(samples, snapshot.byTarget, allowed);
    r := Snapshot(total, byStatus, byTarget);
  }

  /** Adds the counts of one target, status by status. */
  function AddAll(m: map<Status, nat>, more: map<Status, nat>): (r: map<Status, nat>)
    ensures forall st :: Get(r, st) == Get(m, st) + Get(more, st)
    ensures forall st :: st in r <==> st in m || st in more
  {
    map st | st in m.Keys + more.Keys :: Get(m, st) + Get(more, st)
  }

  // ----- Totals agree -----------------------------------------------------------------------

  function StatusSum(m: map<Status, nat>): nat {
    Get(m, Success) + Get(m, Failed)
  }

  ghost function Pick<K, V>(m: map<K, V>): (k: K)
    requires m.Keys != {}
    ensures k in m
  {
    var k :| k in m.Keys;
    k
  }

  ghost function TargetSum(m: map<string, map<Status, nat>>): nat
    decreases |m|
  {
    if m.Keys == {} then 0
    else
      var t := Pick(m);
      assert m.Keys == (m - {t}).Keys + {t};
      StatusSum(m[t]) + TargetSum(m - {t})
  }

  lemma {:induction false} StatusesCoverAll(samples: seq<Sample>)
    ensures CountStatus(samples, Success) + CountStatus(samples, Failed) == |samples|
  {
    if samples == [] {
    } else {
      StatusesCoverAll(samples[..|samples| - 1]);
    }
  }

  lemma {:induction false} TargetSumIsSelection(samples: seq<Sample>, m: map<string, map<Status, nat>>)
    requires forall t, st :: t in m ==> Get(m[t], st) == Count(samples, t, st)
    ensures TargetSum(m) == |Of(samples, m.Keys)|
    decreases |m|
  {
    if m.Keys == {} {
      OfNobody(samples);
    } else {
      var t := Pick(m);
      assert m.Keys == (m - {t}).Keys + {t};
      TargetSumIsSelection(samples, m - {t});
      OneMoreTarget(samples, (m - {t}).Keys, t, Success);
    }
  }

  lemma {:induction false} OfEverybody(samples: seq<Sample>, targets: set<string>)
    requires forall t :: Mentions(samples, t) ==> t in targets
    ensures Of(samples, targets) == samples
  {
    if samples == [] {
    } else {
      var init, last := samples[..|samples| - 1], samples[|samples| - 1];
      assert samples == init + [last];
      forall t | Mentions(init, t)
        ensures t in targets
      {
        MentionsOneMore(init, last, t);
      }
      MentionsOneMore(init, last, last.target);
      OfEverybody(init, targets);
    }
  }

  /** The total is the sum over statuses and the double sum over targets and statuses. */
  lemma TotalsAgree(samples: seq<Sample>, r: Snapshot)
    requires IsTally(samples, r)
    ensures r.total == StatusSum(r.byStatus) == TargetSum(r.byTarget)
  {
    StatusesCoverAll(samples);
    TargetSumIsSelection(samples, r.byTarget);
    OfEverybody(samples, r.byTarget.Keys);
  }

  lemma CountsDetermine(a: map<Status, nat>, b: map<Status, nat>)
    requires forall st :: Get(a, st) == Get(b, st)
    requires forall st :: st in a ==> a[st] > 0
    requires forall st :: st in b ==> b[st] > 0
    ensures a == b
  {
    assert forall st :: st in a <==> Get(a, st) > 0;
    assert forall st :: st in b <==> Get(b, st) > 0;
  }

  /** The samples determine every figure, so two computations that tally the same samples agree. */
  lemma TallyIsUnique(samples: seq<Sample>, a: Snapshot, b: Snapshot)
    requires IsTally(samples, a) && IsTally(samples, b)
    ensures a == b
  {
    CountsDetermine(a.byStatus, b.byStatus);
    assert forall t :: t in a.byTarget <==> Mentions(samples, t);
    assert forall t :: t in b.byTarget <==> Mentions(samples, t);
    forall t | t in a.byTarget
      ensures a.byTarget[t] == b.byTarget[t]
    {
      assert t in b.byTarget;
      CountsDetermine(a.byTarget[t], b.byTarget[t]);
    }
  }
}
