/** One dead-letter item and every handler that may be working on it, step by step. */
module DlqLease {
  import opened Common
  import opened Dlq
  import opened Events

  /** Where a handler stands: calling the connector, counting after `resolve`, or about to mark a failure. */
  datatype Phase = Working | Counting | Failing

  /** `claim` is the claim the handler works for: its own, or the one its retry message carries. */
  datatype Holder = Holder(claim: nat, phase: Phase)

  /** What was written to the item, oldest first. */
  datatype Entry = Claim(who: nat, at: int) | Release(claim: nat, to: Status) | Skip

  /** `started` are the handlers so far, `sent` the claims handed over to the queue. */
  datatype State = State(
    now: int,
    item: Item,
    holders: map<nat, Holder>,
    started: set<nat>,
    sent: set<nat>,
    history: seq<Entry>)

  datatype Action =
    | Tick(ms: nat)
    | TryClaim(who: nat)
    | HandOver(who: nat)
    | Deliver(who: nat, claim: nat)
    | MarkResolved(who: nat)
    | Counted(who: nat, ok: bool)
    | ConnectorFailed(who: nat)
    | MarkFailed(who: nat)
    | Vanish(who: nat)
    | OperatorSkip

  function WithPhase(s: State, who: nat, phase: Phase): State
    requires who in s.holders
  {
    s.(holders := s.holders[who := s.holders[who].(phase := phase)])
  }

  /**
   * `leaseMs` is the lease in force. A message stays in its topic and may be delivered
   * any number of times; its handler writes without looking at the lock. Actions that
   * are not enabled change nothing.
   */
  function Step(leaseMs: nat, s: State, a: Action): State {
    match a
    case Tick(ms) => s.(now := s.now + ms)
    case TryClaim(who) =>
      if who in s.started || !Claimable(s.item, s.now - leaseMs) then s
      else s.(item := Claimed(s.item, s.now, "retry"),
              holders := s.holders[who := Holder(who, Working)],
              started := s.started + {who},
              history := s.history + [Claim(who, s.now)])
    case HandOver(who) =>
      if !In(s, who, Working) then s
      else s.(holders := s.holders - {who}, sent := s.sent + {s.holders[who].claim})
    case Deliver(who, claim) =>
      if who in s.started || claim !in s.sent then s
      else s.(holders := s.holders[who := Holder(claim, Working)], started := s.started + {who})
    case MarkResolved(who) =>
      if !In(s, who, Working) then s
      else WithPhase(s, who, Counting).(item := MarkedResolved(s.item),
                                        history := s.history + [Release(s.holders[who].claim, Resolved)])
    case Counted(who, ok) =>
      if !In(s, who, Counting) then s
      else if ok then s.(holders := s.holders - {who})
      else WithPhase(s, who, Failing)
    case ConnectorFailed(who) => if !In(s, who, Working) then s else WithPhase(s, who, Failing)
    case MarkFailed(who) =>
      if !In(s, who, Failing) then s
      else s.(item := MarkedFailed(s.item, "failed"),
              holders := s.holders - {who},
              history := s.history + [Release(s.holders[who].claim, Pending)])
    case Vanish(who) => s.(holders := s.holders - {who})
    case OperatorSkip => s.(item := MarkedSkipped(s.item), history := s.history + [Skip])
  }

  predicate In(s: State, who: nat, phase: Phase) {
    who in s.holders && s.holders[who].phase == phase
  }

  function Run(leaseMs: nat, s: State, actions: seq<Action>): State
    decreases |actions|
  {
    if actions == [] then s else Run(leaseMs, Step(leaseMs, s, actions[0]), actions[1..])
  }

  /** A row as `add` creates it, with nobody working on it. */
  predicate Fresh(s: State) {
    && s.item.Consistent() && s.item.status == Pending
    && s.holders == map[] && s.sent == {} && s.history == []
  }

  function ClaimCount(history: seq<Entry>): nat {
    if history == [] then 0
    else ClaimCount(history[..|history| - 1]) + if history[|history| - 1].Claim? then 1 else 0
  }

  lemma CountAppend(history: seq<Entry>, e: Entry)
    ensures ClaimCount(history + [e]) == ClaimCount(history) + if e.Claim? then 1 else 0
  {
    assert (history + [e])[..|history|] == history;
  }

  /** Adjacent claims, with no release or skip in between, are more than a lease apart. */
  predicate Spaced(leaseMs: nat, history: seq<Entry>) {
    forall i :: 0 <= i < |history| - 1 && history[i].Claim? && history[i + 1].Claim? ==>
                  history[i + 1].at > history[i].at + leaseMs
  }

  predicate EndsInClaim(history: seq<Entry>) {
    history != [] && history[|history| - 1].Claim?
  }

  function LastEntry(history: seq<Entry>): Entry
    requires history != []
  {
    history[|history| - 1]
  }

  /** Holds in every reachable state, however the handlers interleave. */
  predicate Inv(leaseMs: nat, initial: nat, s: State) {
    && s.item.Consistent()
    && s.item.retryCount == initial + ClaimCount(s.history)
    && Spaced(leaseMs, s.history)
    && (s.item.status == Retrying <==> EndsInClaim(s.history))
    && (s.item.status == Retrying ==> s.item.lockedAt == Some(LastEntry(s.history).at))
    && (s.item.Terminal() ==> s.history != [])
  }

  lemma StepKeepsInv(leaseMs: nat, initial: nat, s: State, a: Action)
    requires Inv(leaseMs, initial, s)
    ensures Inv(leaseMs, initial, Step(leaseMs, s, a))
  {
    var t := Step(leaseMs, s, a);
    match a
    case TryClaim(who) =>
      if t.history != s.history {
        WriteKeepsInv(leaseMs, initial, s, t, Claim(who, s.now));
      }
    case MarkResolved(who) =>
      if t.history != s.history {
        WriteKeepsInv(leaseMs, initial, s, t, Release(s.holders[who].claim, Resolved));
      }
    case MarkFailed(who) =>
      if t.history != s.history {
        WriteKeepsInv(leaseMs, initial, s, t, Release(s.holders[who].claim, Pending));
      }
    case OperatorSkip => WriteKeepsInv(leaseMs, initial, s, t, Skip);
    case _ =>
  }

  /** One more entry in the history, with the row as that write leaves it. */
  lemma WriteKeepsInv(leaseMs: nat, initial: nat, s: State, t: State, e: Entry)
    requires Inv(leaseMs, initial, s) && t.history == s.history + [e]
    requires match e
             case Claim(_, at) => Claimable(s.item, at - leaseMs) && t.item == Claimed(s.item, at, "retry")
             case Release(_, to) =>
               t.item == if to == Resolved then MarkedResolved(s.item) else MarkedFailed(s.item, "failed")
             case Skip => t.item == MarkedSkipped(s.item)
    ensures Inv(leaseMs, initial, t)
  {
    CountAppend(s.history, e);
  }

  /**
   * Over every run: the lock columns are set exactly while retrying, the retry
   * count is the initial one plus the successful claims, and two claims with no
   * release between them are more than a lease apart.
   */
  lemma {:induction false} LeaseOverEveryRun(leaseMs: nat, initial: nat, s: State, actions: seq<Action>)
    requires Inv(leaseMs, initial, s)
    ensures Inv(leaseMs, initial, Run(leaseMs, s, actions))
    decreases |actions|
  {
    if actions == [] {
    } else {
      StepKeepsInv(leaseMs, initial, s, actions[0]);
      LeaseOverEveryRun(leaseMs, initial, Step(leaseMs, s, actions[0]), actions[1..]);
    }
  }

  lemma FreshHasInv(leaseMs: nat, s: State)
    requires Fresh(s)
    ensures Inv(leaseMs, s.item.retryCount, s)
  {
  }

  /** The claims above, for every run that starts from a row as `add` creates it. */
  lemma EveryRunKeepsLease(leaseMs: nat, s: State, actions: seq<Action>)
    requires Fresh(s)
    ensures var t := Run(leaseMs, s, actions);
            && (t.item.status == Retrying <==> t.item.lockedAt.Some?)
            && (t.item.status == Retrying <==> t.item.lockedBy.Some?)
            && t.item.retryCount == s.item.retryCount + ClaimCount(t.history)
            && forall i :: 0 <= i < |t.history| - 1 && t.history[i].Claim? && t.history[i + 1].Claim? ==>
                             t.history[i + 1].at > t.history[i].at + leaseMs
  {
    FreshHasInv(leaseMs, s);
    LeaseOverEveryRun(leaseMs, s.item.retryCount, s, actions);
  }

  // ----- What the lease promises to disciplined runs ------------------------

  /** A handler that may still write to the item. */
  predicate Writer(s: State, who: nat) {
    who in s.holders && s.holders[who].phase != Counting
  }

  /** The claim is the last thing written to the item, its lease runs, and nobody works for it yet. */
  ghost predicate Deliverable(leaseMs: nat, s: State, claim: nat) {
    && s.history != [] && LastEntry(s.history).Claim? && LastEntry(s.history).who == claim
    && s.now <= LastEntry(s.history).at + leaseMs
    && forall who :: who in s.holders ==> s.holders[who].claim != claim
  }

  /**
   * Writers finish inside the lease of the item, nobody skips an item being written,
   * counting after `resolve` works, and a retry message is handled by one handler,
   * while its claim stands.
   */
  ghost predicate Disciplined(leaseMs: nat, s: State, a: Action) {
    && (a.Tick? && a.ms > 0 ==> forall who :: Writer(s, who) ==>
                                                s.item.lockedAt.Some? && s.now + a.ms <= s.item.lockedAt.value + leaseMs)
    && (a.OperatorSkip? ==> forall who :: !Writer(s, who))
    && (a.Counted? && In(s, a.who, Counting) ==> a.ok)
    && (a.Deliver? && a.who !in s.started && a.claim in s.sent ==> Deliverable(leaseMs, s, a.claim))
  }

  ghost predicate DisciplinedRun(leaseMs: nat, s: State, actions: seq<Action>)
    decreases |actions|
  {
    actions != [] ==>
      Disciplined(leaseMs, s, actions[0]) && DisciplinedRun(leaseMs, Step(leaseMs, s, actions[0]), actions[1..])
  }

  /** No claim is released twice. */
  predicate SingleRelease(history: seq<Entry>) {
    forall i, j :: 0 <= i < j < |history| && history[i].Release? && history[j].Release? ==>
                     history[i].claim != history[j].claim
  }

  predicate Released(history: seq<Entry>, claim: nat) {
    exists i :: 0 <= i < |history| && history[i].Release? && history[i].claim == claim
  }

  /** The only writer works for the last claim, which still stands, inside its lease. */
  ghost predicate Owned(leaseMs: nat, s: State) {
    && (forall who :: Writer(s, who) ==>
                        && s.item.status == Retrying && s.item.lockedAt.Some?
                        && s.now <= s.item.lockedAt.value + leaseMs
                        && s.history != []
                        && LastEntry(s.history) == Claim(s.holders[who].claim, s.item.lockedAt.value))
    && (forall who, other :: Writer(s, who) && Writer(s, other) ==> who == other)
    && (forall claim :: Released(s.history, claim) ==> claim in s.started)
    && (EndsInClaim(s.history) ==>
          && LastEntry(s.history).who in s.started && !Released(s.history, LastEntry(s.history).who)
          && s.item.status == Retrying && s.item.lockedAt == Some(LastEntry(s.history).at))
    && SingleRelease(s.history)
  }

  lemma ReleasedAppend(history: seq<Entry>, e: Entry, claim: nat)
    ensures Released(history + [e], claim) <==> Released(history, claim) || (e.Release? && e.claim == claim)
  {
    if Released(history, claim) {
      var i :| 0 <= i < |history| && history[i].Release? && history[i].claim == claim;
      assert (history + [e])[i] == history[i];
    }
    assert (history + [e])[|history|] == e;
  }

  /** A write to the item by its owner, or by nobody in particular. */
  lemma WriteKeepsReleases(s: State, t: State, e: Entry)
    requires t.history == s.history + [e] && s.started <= t.started
    requires forall claim :: Released(s.history, claim) ==> claim in s.started
    requires SingleRelease(s.history) && (e.Release? ==> !Released(s.history, e.claim) && e.claim in s.started)
    requires e.Claim? ==> e.who !in s.started && e.who in t.started
    ensures SingleRelease(t.history) && forall claim :: Released(t.history, claim) ==> claim in t.started
    ensures EndsInClaim(t.history) ==>
              LastEntry(t.history).who in t.started && !Released(t.history, LastEntry(t.history).who)
  {
    forall claim
      ensures Released(t.history, claim) <==> Released(s.history, claim) || (e.Release? && e.claim == claim)
    {
      ReleasedAppend(s.history, e, claim);
    }
    forall i, j | 0 <= i < j < |t.history| && t.history[i].Release? && t.history[j].Release?
      ensures t.history[i].claim != t.history[j].claim
    {
      if j == |s.history| {
        assert s.history[i] == t.history[i];
        assert Released(s.history, s.history[i].claim);
      } else {
        assert s.history[i] == t.history[i] && s.history[j] == t.history[j];
      }
    }
  }

  lemma ClaimKeepsOwned(leaseMs: nat, s: State, who: nat)
    requires Owned(leaseMs, s)
    ensures Owned(leaseMs, Step(leaseMs, s, TryClaim(who)))
  {
    var t := Step(leaseMs, s, TryClaim(who));
    if t != s {
      forall other
        ensures !Writer(s, other)
      {
      }
      assert forall other :: Writer(t, other) ==> other == who;
      WriteKeepsReleases(s, t, Claim(who, s.now));
    }
  }

  lemma ReleaseKeepsOwned(leaseMs: nat, s: State, a: Action)
    requires Owned(leaseMs, s) && (a.MarkResolved? || a.MarkFailed?)
    ensures Owned(leaseMs, Step(leaseMs, s, a))
  {
    var t := Step(leaseMs, s, a);
    if t != s {
      assert Writer(s, a.who);
      forall other
        ensures !Writer(t, other)
      {
        assert Writer(s, other) ==> other == a.who;
      }
      WriteKeepsReleases(s, t, LastEntry(t.history));
    }
  }

  lemma DeliveryKeepsOwned(leaseMs: nat, s: State, a: Action)
    requires Owned(leaseMs, s) && a.Deliver? && Disciplined(leaseMs, s, a)
    ensures Owned(leaseMs, Step(leaseMs, s, a))
  {
    var t := Step(leaseMs, s, a);
    if t != s {
      assert forall other :: !Writer(s, other);
      assert forall other :: Writer(t, other) ==> other == a.who;
    }
  }

  lemma StepKeepsOwned(leaseMs: nat, s: State, a: Action)
    requires Owned(leaseMs, s) && Disciplined(leaseMs, s, a)
    ensures Owned(leaseMs, Step(leaseMs, s, a))
  {
    var t := Step(leaseMs, s, a);
    match a
    case TryClaim(who) => ClaimKeepsOwned(leaseMs, s, who);
    case MarkResolved(_) => ReleaseKeepsOwned(leaseMs, s, a);
    case MarkFailed(_) => ReleaseKeepsOwned(leaseMs, s, a);
    case Deliver(_, _) => DeliveryKeepsOwned(leaseMs, s, a);
    case OperatorSkip =>
      assert forall other :: !Writer(s, other) && !Writer(t, other);
      WriteKeepsReleases(s, t, Skip);
    case _ => assert forall other :: Writer(t, other) ==> Writer(s, other);
  }

  /** With a sole owner, only the operator touches a finished item. */
  lemma StepKeepsTerminal(leaseMs: nat, s: State, a: Action)
    requires Owned(leaseMs, s) && s.item.Terminal()
    ensures Step(leaseMs, s, a).item == if a.OperatorSkip? then MarkedSkipped(s.item) else s.item
  {
    if a.MarkResolved? || a.MarkFailed? {
      assert !Writer(s, a.who);
    }
  }

  /** In disciplined runs skipped and resolved are final, and each claim is released at most once. */
  lemma {:induction false} TerminalIsFinal(leaseMs: nat, s: State, actions: seq<Action>)
    requires Owned(leaseMs, s) && DisciplinedRun(leaseMs, s, actions)
    ensures s.item.Terminal() ==> Run(leaseMs, s, actions).item.Terminal()
    ensures SingleRelease(Run(leaseMs, s, actions).history)
    ensures Owned(leaseMs, Run(leaseMs, s, actions))
    decreases |actions|
  {
    if actions == [] {
    } else {
      StepKeepsOwned(leaseMs, s, actions[0]);
      if s.item.Terminal() {
        StepKeepsTerminal(leaseMs, s, actions[0]);
      }
      TerminalIsFinal(leaseMs, Step(leaseMs, s, actions[0]), actions[1..]);
    }
  }

  lemma FreshIsOwned(leaseMs: nat, s: State)
    requires Fresh(s)
    ensures Owned(leaseMs, s)
  {
    assert forall who :: !Writer(s, who);
  }

  /** In disciplined runs from a fresh row, an item once skipped or resolved stays so, released once per claim. */
  lemma FinishedStaysFinished(leaseMs: nat, s: State, before: seq<Action>, after: seq<Action>)
    requires Fresh(s) && DisciplinedRun(leaseMs, s, before)
    requires DisciplinedRun(leaseMs, Run(leaseMs, s, before), after)
    ensures Run(leaseMs, s, before).item.Terminal() ==> Run(leaseMs, Run(leaseMs, s, before), after).item.Terminal()
    ensures SingleRelease(Run(leaseMs, Run(leaseMs, s, before), after).history)
  {
    FreshIsOwned(leaseMs, s);
    TerminalIsFinal(leaseMs, s, before);
    TerminalIsFinal(leaseMs, Run(leaseMs, s, before), after);
  }

  /**
   * Exactly which writes move an item out of its terminal state: the failure path of
   * any handler, whether it claimed the item or was started by a message whose claim
   * is long over.
   */
  lemma LeavesTerminalIff(leaseMs: nat, s: State, a: Action)
    requires s.item.Terminal()
    ensures !Step(leaseMs, s, a).item.Terminal() <==> a.MarkFailed? && In(s, a.who, Failing)
  {
  }

  // ----- Each discipline is needed -------------------------------------------

  function Start(item: Item): State {
    State(0, item, map[], {}, {}, [])
  }

  const SAMPLE := Item(Event("e", "user.create", "erp", "{}"), "boom", 3, Pending, None, None)

  lemma Unfold2(leaseMs: nat, s: State, a: Action, b: Action)
    ensures Run(leaseMs, s, [a, b]) == Step(leaseMs, Step(leaseMs, s, a), b)
  {
    assert [a, b][1..] == [b];
    assert Run(leaseMs, Step(leaseMs, s, a), [b]) == Run(leaseMs, Step(leaseMs, Step(leaseMs, s, a), b), []);
  }

  /** A count that throws after `resolve` reopens a delivered item and releases its claim twice. */
  lemma FailedCountReopensResolved(leaseMs: nat)
    ensures var s := Run(leaseMs, Start(SAMPLE), [TryClaim(0), MarkResolved(0)]);
            s.item.status == Resolved
            && Run(leaseMs, s, [Counted(0, false), MarkFailed(0)]).item.status == Pending
            && !SingleRelease(Run(leaseMs, s, [Counted(0, false), MarkFailed(0)]).history)
  {
    var s0 := Start(SAMPLE);
    var s1 := Step(leaseMs, s0, TryClaim(0));
    var s2 := Step(leaseMs, s1, MarkResolved(0));
    Unfold2(leaseMs, s0, TryClaim(0), MarkResolved(0));
    Unfold2(leaseMs, s2, Counted(0, false), MarkFailed(0));
    var t := Step(leaseMs, Step(leaseMs, s2, Counted(0, false)), MarkFailed(0));
    assert t.history == [Claim(0, 0), Release(0, Resolved), Release(0, Pending)];
    assert t.history[1].claim == t.history[2].claim;
  }

  /** A writer that outlives its lease undoes the work of its successor. */
  lemma LateWriterReopensResolved(leaseMs: nat)
    ensures var s := Run(leaseMs, Start(SAMPLE), [TryClaim(0), Tick(leaseMs + 1)]);
            var t := Run(leaseMs, s, [TryClaim(1), MarkResolved(1)]);
            t.item.status == Resolved
            && Run(leaseMs, t, [ConnectorFailed(0), MarkFailed(0)]).item.status == Pending
  {
    var s0 := Start(SAMPLE);
    Unfold2(leaseMs, s0, TryClaim(0), Tick(leaseMs + 1));
    var s := Step(leaseMs, Step(leaseMs, s0, TryClaim(0)), Tick(leaseMs + 1));
    Unfold2(leaseMs, s, TryClaim(1), MarkResolved(1));
    var t := Step(leaseMs, Step(leaseMs, s, TryClaim(1)), MarkResolved(1));
    Unfold2(leaseMs, t, ConnectorFailed(0), MarkFailed(0));
  }

  /** Skipping a held item does not stop its holder from reopening it. */
  lemma SkipOfHeldItemIsLost(leaseMs: nat)
    ensures var s := Run(leaseMs, Start(SAMPLE), [TryClaim(0), OperatorSkip]);
            s.item.status == Skipped
            && Run(leaseMs, s, [ConnectorFailed(0), MarkFailed(0)]).item.status == Pending
  {
    var s0 := Start(SAMPLE);
    Unfold2(leaseMs, s0, TryClaim(0), OperatorSkip);
    var s := Step(leaseMs, Step(leaseMs, s0, TryClaim(0)), OperatorSkip);
    Unfold2(leaseMs, s, ConnectorFailed(0), MarkFailed(0));
  }

  /** The first delivery of the message of claim 0 resolves the item; the second is under way. */
  function Redelivered(): State {
    State(0, MarkedResolved(Claimed(SAMPLE, 0, "retry")), map[2 := Holder(0, Working)], {0, 1, 2}, {0},
          [Claim(0, 0), Release(0, Resolved)])
  }

  lemma RedeliveryIsReached(leaseMs: nat)
    ensures Run(leaseMs, Start(SAMPLE), [TryClaim(0), HandOver(0), Deliver(1, 0), MarkResolved(1), Counted(1, true),
                                         Deliver(2, 0)]) == Redelivered()
  {
    var s0 := Start(SAMPLE);
    var s1 := Step(leaseMs, s0, TryClaim(0));
    var s2 := Step(leaseMs, s1, HandOver(0));
    assert s2.holders == map[] && s2.sent == {0};
    var s3 := Step(leaseMs, s2, Deliver(1, 0));
    var s4 := Step(leaseMs, s3, MarkResolved(1));
    var s5 := Step(leaseMs, s4, Counted(1, true));
    assert s5.holders == map[];
    var s6 := Step(leaseMs, s5, Deliver(2, 0));
    assert s6.started == {0, 1, 2} && s6 == Redelivered();
    Unfold2(leaseMs, s4, Counted(1, true), Deliver(2, 0));
    Unfold4(leaseMs, s2, Deliver(1, 0), MarkResolved(1), [Counted(1, true), Deliver(2, 0)]);
    Unfold4(leaseMs, s0, TryClaim(0), HandOver(0),
            [Deliver(1, 0), MarkResolved(1), Counted(1, true), Deliver(2, 0)]);
    assert [Deliver(1, 0), MarkResolved(1)] + [Counted(1, true), Deliver(2, 0)]
           == [Deliver(1, 0), MarkResolved(1), Counted(1, true), Deliver(2, 0)];
    assert [TryClaim(0), HandOver(0)] + [Deliver(1, 0), MarkResolved(1), Counted(1, true), Deliver(2, 0)]
           == [TryClaim(0), HandOver(0), Deliver(1, 0), MarkResolved(1), Counted(1, true), Deliver(2, 0)];
  }

  lemma Unfold4(leaseMs: nat, s: State, a: Action, b: Action, rest: seq<Action>)
    ensures Run(leaseMs, s, [a, b] + rest) == Run(leaseMs, Step(leaseMs, Step(leaseMs, s, a), b), rest)
  {
    assert ([a, b] + rest)[1..] == [b] + rest && ([b] + rest)[1..] == rest;
    assert Run(leaseMs, Step(leaseMs, s, a), [b] + rest) == Run(leaseMs, Step(leaseMs, Step(leaseMs, s, a), b), rest);
  }

  /** A retry message delivered again after its claim was released reopens a delivered item and releases it again. */
  lemma RedeliveryReopensResolved(leaseMs: nat)
    ensures var u := Run(leaseMs, Redelivered(), [ConnectorFailed(2), MarkFailed(2)]);
            Redelivered().item.status == Resolved && u.item.status == Pending && !SingleRelease(u.history)
  {
    Unfold2(leaseMs, Redelivered(), ConnectorFailed(2), MarkFailed(2));
    var u := Step(leaseMs, Step(leaseMs, Redelivered(), ConnectorFailed(2)), MarkFailed(2));
    assert u.history == [Claim(0, 0), Release(0, Resolved), Release(0, Pending)];
    assert u.history[1].claim == u.history[2].claim;
  }
}
