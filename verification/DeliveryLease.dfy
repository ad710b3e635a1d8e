/**
 * Dead letters inside the delivery protocol: seen from any one item, every run of
 * the whole machine is a run of the lease machine, so its theorems hold of both.
 */
module DeliveryLease {
  import opened Common
  import opened Events
  import opened Idempotency
  import opened Dlq
  import opened Delivery
  import L = DlqLease

  /** Every claim of the run uses the same lease. */
  predicate FixedLease(leaseMs: nat, act: Action) {
    act.Move? ==> act.choice.leaseMs == leaseMs
  }

  /** How far a retry is with its item, while it may still write to it or count afterwards. */
  function PhaseOf(pc: Pc): Option<L.Phase> {
    match pc
    case CountingClaim => Some(L.Working)
    case Requeueing => Some(L.Working)
    case Looking => Some(L.Working)
    case Calling(_, _) => Some(L.Working)
    case Resolving => Some(L.Working)
    case CountingResolved => Some(L.Counting)
    case MarkingFailed => Some(L.Failing)
    case _ => None
  }

  predicate WorksOn(a: Agent, k: nat) {
    a.job.IsRetry() && a.job.item == k
  }

  /** The claim a retry works for: its own, or the one of its message. */
  function ClaimOf(a: Agent, id: nat): nat {
    if a.job.RetryWork? then a.job.claimant else id
  }

  predicate HolderTold(l: L.State, a: Agent, id: nat) {
    && (a.pc.Claiming? ==> id !in l.started)
    && match PhaseOf(a.pc)
       case Some(phase) => id in l.holders && l.holders[id] == L.Holder(ClaimOf(a, id), phase)
       case None => id !in l.holders
  }

  /** `l` knows row `k` and the messages about it. */
  ghost predicate RowTold(k: nat, w: World, l: L.State) {
    && k < |w.dead| && l.item == w.dead[k].item && l.now == w.now
    && (forall m :: m in w.retries && m.item == k ==> m.claimant in l.sent)
    && (l.item.status == Retrying ==> l.history != [] && L.LastEntry(l.history).Claim?
                                      && L.LastEntry(l.history).who == w.dead[k].claimant
                                      && l.item.lockedAt == Some(L.LastEntry(l.history).at))
  }

  /** `l` is what the lease machine knows when the whole machine is in `s`, seen from item `k`. */
  ghost predicate Sim(k: nat, s: State, l: L.State) {
    && RowTold(k, s.world, l)
    && (forall i :: 0 <= i < |s.agents| && WorksOn(s.agents[i], k) ==> HolderTold(l, s.agents[i], i))
    && (forall i :: i in l.holders ==> i < |s.agents| && WorksOn(s.agents[i], k))
    && (forall i :: i in l.started ==> i < |s.agents|)
  }

  // ----- One step -----------------------------------------------------------------

  /** The action the lease machine takes when a retry of its item moves. */
  function RetryAction(id: nat, a: Agent, ch: Choice): L.Action {
    match a.pc
    case Claiming => if ch.ok then L.TryClaim(id) else L.Tick(0)
    case CountingClaim => if ch.ok then L.Tick(0) else L.Vanish(id)
    case Requeueing => if ch.ok then L.HandOver(id) else L.Vanish(id)
    case Looking => if ch.found && ch.ok then L.Tick(0) else L.ConnectorFailed(id)
    case Calling(attempt, maxRetries) =>
      if ch.outcome == Succeeded || (ch.outcome == Threw && attempt < maxRetries) then L.Tick(0)
      else L.ConnectorFailed(id)
    case Resolving => if ch.ok then L.MarkResolved(id) else L.ConnectorFailed(id)
    case CountingResolved => L.Counted(id, ch.ok)
    case MarkingFailed => if ch.ok then L.MarkFailed(id) else L.Vanish(id)
    case _ => L.Tick(0)
  }

  /** The action the lease machine of item `k` takes. */
  function LeaseAction(k: nat, s: State, act: Action): L.Action {
    match act
    case Tick(ms) => L.Tick(ms)
    case ConsumeRetry(m) =>
      if m < |s.world.retries| && s.world.retries[m].item == k
      then L.Deliver(|s.agents|, s.world.retries[m].claimant) else L.Tick(0)
    case SkipItem(item) => if item == k then L.OperatorSkip else L.Tick(0)
    case Move(id, ch) =>
      if id < |s.agents| && WorksOn(s.agents[id], k) then RetryAction(id, s.agents[id], ch) else L.Tick(0)
    case _ => L.Tick(0)
  }

  /** A move of an agent that does not retry item `k` leaves item `k` and its messages alone. */
  lemma OtherMove(c: Config, w: World, id: nat, a: Agent, ch: Choice, k: nat)
    requires c.Valid() && AgentOk(c, w, a) && !WorksOn(a, k) && k < |w.dead|
    ensures var (v, b) := MoveAgent(c, w, id, a, ch);
            && k < |v.dead| && v.dead[k] == w.dead[k] && v.now == w.now && b.job == a.job
            && forall m :: m in v.retries && m.item == k ==> m in w.retries
  {
  }

  /** What one move of retry `id` of item `k` does to either machine. */
  ghost predicate Moved(k: nat, id: nat, a: Agent, l: L.State, v: World, b: Agent, n: L.State) {
    && RowTold(k, v, n) && b.job == a.job && HolderTold(n, b, id)
    && (forall i :: i != id ==> (i in n.holders <==> i in l.holders))
    && (forall i :: i != id && i in l.holders ==> n.holders[i] == l.holders[i])
    && (forall i :: i != id ==> (i in n.started <==> i in l.started))
  }

  ghost predicate RetryAt(c: Config, leaseMs: nat, k: nat, w: World, id: nat, a: Agent, ch: Choice, l: L.State) {
    && c.Valid() && AgentOk(c, w, a) && WorksOn(a, k)
    && RowTold(k, w, l) && HolderTold(l, a, id) && ch.leaseMs == leaseMs
  }

  lemma ClaimMove(c: Config, leaseMs: nat, k: nat, w: World, id: nat, a: Agent, ch: Choice, l: L.State)
    requires RetryAt(c, leaseMs, k, w, id, a, ch, l)
    requires a.pc.Claiming?
    ensures var (v, b) := MoveAgent(c, w, id, a, ch);
            Moved(k, id, a, l, v, b, L.Step(leaseMs, l, RetryAction(id, a, ch)))
  {
  }

  lemma ClaimedMove(c: Config, leaseMs: nat, k: nat, w: World, id: nat, a: Agent, ch: Choice, l: L.State)
    requires RetryAt(c, leaseMs, k, w, id, a, ch, l)
    requires a.pc.CountingClaim? || a.pc.Requeueing?
    ensures var (v, b) := MoveAgent(c, w, id, a, ch);
            Moved(k, id, a, l, v, b, L.Step(leaseMs, l, RetryAction(id, a, ch)))
  {
  }

  lemma CallMove(c: Config, leaseMs: nat, k: nat, w: World, id: nat, a: Agent, ch: Choice, l: L.State)
    requires RetryAt(c, leaseMs, k, w, id, a, ch, l)
    requires var pc := a.pc; pc.Looking? || pc.Calling? || pc.Announcing? || pc.Ended?
    ensures var (v, b) := MoveAgent(c, w, id, a, ch);
            Moved(k, id, a, l, v, b, L.Step(leaseMs, l, RetryAction(id, a, ch)))
  {
  }

  lemma WriteMove(c: Config, leaseMs: nat, k: nat, w: World, id: nat, a: Agent, ch: Choice, l: L.State)
    requires RetryAt(c, leaseMs, k, w, id, a, ch, l)
    requires a.pc.Resolving? || a.pc.CountingResolved?
    ensures var (v, b) := MoveAgent(c, w, id, a, ch);
            Moved(k, id, a, l, v, b, L.Step(leaseMs, l, RetryAction(id, a, ch)))
  {
    hide MoveWebhook, MoveProcessing;
  }

  lemma FailureMove(c: Config, leaseMs: nat, k: nat, w: World, id: nat, a: Agent, ch: Choice, l: L.State)
    requires RetryAt(c, leaseMs, k, w, id, a, ch, l)
    requires a.pc.MarkingFailed?
    ensures var (v, b) := MoveAgent(c, w, id, a, ch);
            Moved(k, id, a, l, v, b, L.Step(leaseMs, l, RetryAction(id, a, ch)))
  {
  }

  lemma RetryMove(c: Config, leaseMs: nat, k: nat, w: World, id: nat, a: Agent, ch: Choice, l: L.State)
    requires RetryAt(c, leaseMs, k, w, id, a, ch, l)
    ensures var (v, b) := MoveAgent(c, w, id, a, ch);
            Moved(k, id, a, l, v, b, L.Step(leaseMs, l, RetryAction(id, a, ch)))
  {
    var pc := a.pc;
    if pc.Claiming? {
      ClaimMove(c, leaseMs, k, w, id, a, ch, l);
    } else if pc.CountingClaim? || pc.Requeueing? {
      ClaimedMove(c, leaseMs, k, w, id, a, ch, l);
    } else if pc.Resolving? || pc.CountingResolved? {
      WriteMove(c, leaseMs, k, w, id, a, ch, l);
    } else if pc.MarkingFailed? {
      FailureMove(c, leaseMs, k, w, id, a, ch, l);
    } else {
      CallMove(c, leaseMs, k, w, id, a, ch, l);
    }
  }

  lemma MoveSimulated(c: Config, leaseMs: nat, k: nat, s: State, id: nat, ch: Choice, l: L.State)
    requires c.Valid() && WellFormed(c, s) && Sim(k, s, l)
    requires id < |s.agents| && WorksOn(s.agents[id], k) && ch.leaseMs == leaseMs
    ensures Sim(k, Step(c, s, Move(id, ch)), L.Step(leaseMs, l, RetryAction(id, s.agents[id], ch)))
  {
    var t, n := Step(c, s, Move(id, ch)), L.Step(leaseMs, l, RetryAction(id, s.agents[id], ch));
    assert HolderTold(l, s.agents[id], id);
    RetryMove(c, leaseMs, k, s.world, id, s.agents[id], ch, l);
    forall i | 0 <= i < |t.agents| && WorksOn(t.agents[i], k)
      ensures HolderTold(n, t.agents[i], i)
    {
      assert i != id ==> HolderTold(l, s.agents[i], i);
    }
  }

  lemma StepSimulated(c: Config, leaseMs: nat, k: nat, s: State, act: Action, l: L.State)
    requires c.Valid() && WellFormed(c, s) && Sim(k, s, l) && FixedLease(leaseMs, act)
    ensures Sim(k, Step(c, s, act), L.Step(leaseMs, l, LeaseAction(k, s, act)))
  {
    hide MoveAgent, RetryAction;
    var t := Step(c, s, act);
    var n := L.Step(leaseMs, l, LeaseAction(k, s, act));
    if act.Move? && act.id < |s.agents| && WorksOn(s.agents[act.id], k) {
      MoveSimulated(c, leaseMs, k, s, act.id, act.choice, l);
    } else {
      if act.Move? && act.id < |s.agents| {
        OtherMove(c, s.world, act.id, s.agents[act.id], act.choice, k);
      }
      forall i | 0 <= i < |t.agents| && WorksOn(t.agents[i], k)
        ensures HolderTold(n, t.agents[i], i)
      {
        assert i < |s.agents| ==> HolderTold(l, s.agents[i], i);
      }
    }
  }

  // ----- What a run writes to an item --------------------------------------------------

  /** What one step writes to item `k`, read off the move: a claim, a release or a skip. */
  function Written(k: nat, s: State, act: Action): seq<L.Entry> {
    if k >= |s.world.dead| then []
    else
      match act
      case SkipItem(item) => if item == k then [L.Skip] else []
      case Move(id, ch) =>
        if id >= |s.agents| || !WorksOn(s.agents[id], k) || !ch.ok then []
        else (
          var a := s.agents[id];
          match a.pc
          case Claiming =>
            if Claimable(s.world.dead[k].item, s.world.now - ch.leaseMs) then [L.Claim(id, s.world.now)] else []
          case Resolving => [L.Release(ClaimOf(a, id), Resolved)]
          case MarkingFailed => [L.Release(ClaimOf(a, id), Pending)]
          case _ => []
        )
      case _ => []
  }

  /** Everything the run writes to item `k`, oldest first. */
  function Log(c: Config, k: nat, s: State, acts: seq<Action>): seq<L.Entry>
    requires c.Valid() && WellFormed(c, s)
    decreases |acts|
  {
    if acts == [] then []
    else
      StepGrows(c, s, acts[0]);
      Written(k, s, acts[0]) + Log(c, k, Step(c, s, acts[0]), acts[1..])
  }

  /** The row as one entry leaves it. */
  function Rewritten(item: Item, e: L.Entry): Item {
    match e
    case Claim(_, at) => Claimed(item, at, "retry")
    case Release(_, to) => if to == Resolved then MarkedResolved(item) else MarkedFailed(item, "failed")
    case Skip => MarkedSkipped(item)
  }

  function Replayed(item: Item, entries: seq<L.Entry>): Item
    decreases |entries|
  {
    if entries == [] then item else Replayed(Rewritten(item, entries[0]), entries[1..])
  }

  lemma {:induction false} ReplayConcat(item: Item, xs: seq<L.Entry>, ys: seq<L.Entry>)
    ensures Replayed(item, xs + ys) == Replayed(Replayed(item, xs), ys)
    decreases |xs|
  {
    if xs == [] {
      assert xs + ys == ys;
    } else {
      assert (xs + ys)[0] == xs[0] && (xs + ys)[1..] == xs[1..] + ys;
      ReplayConcat(Rewritten(item, xs[0]), xs[1..], ys);
    }
  }

  /** A step changes item `k` by exactly what it writes. */
  lemma StepReplays(c: Config, k: nat, s: State, act: Action)
    requires c.Valid() && WellFormed(c, s) && k < |s.world.dead|
    ensures var t := Step(c, s, act);
            k < |t.world.dead| && t.world.dead[k].item == Replayed(s.world.dead[k].item, Written(k, s, act))
  {
    if act.Move? && act.id < |s.agents| && !WorksOn(s.agents[act.id], k) {
      OtherMove(c, s.world, act.id, s.agents[act.id], act.choice, k);
    }
    var entries := Written(k, s, act);
    assert entries != [] ==> entries[1..] == [];
  }

  /** The log is complete: replaying it on the row gives the row at the end. */
  lemma {:induction false} RunReplays(c: Config, k: nat, s: State, acts: seq<Action>)
    requires c.Valid() && WellFormed(c, s) && k < |s.world.dead|
    ensures var t := Run(c, s, acts);
            k < |t.world.dead| && t.world.dead[k].item == Replayed(s.world.dead[k].item, Log(c, k, s, acts))
    decreases |acts|
  {
    if acts == [] {
    } else {
      StepGrows(c, s, acts[0]);
      StepReplays(c, k, s, acts[0]);
      RunReplays(c, k, Step(c, s, acts[0]), acts[1..]);
      ReplayConcat(s.world.dead[k].item, Written(k, s, acts[0]), Log(c, k, Step(c, s, acts[0]), acts[1..]));
    }
  }

  /** The history of the lease machine is this log. */
  lemma StepLogs(c: Config, leaseMs: nat, k: nat, s: State, act: Action, l: L.State)
    requires c.Valid() && WellFormed(c, s) && Sim(k, s, l) && FixedLease(leaseMs, act)
    ensures L.Step(leaseMs, l, LeaseAction(k, s, act)).history == l.history + Written(k, s, act)
  {
    if act.Move? && act.id < |s.agents| && WorksOn(s.agents[act.id], k) {
      assert HolderTold(l, s.agents[act.id], act.id);
    }
  }

  // ----- Whole runs -------------------------------------------------------------------

  /** What the lease machine of item `k` does during the run. */
  function LeaseActions(c: Config, k: nat, s: State, acts: seq<Action>): seq<L.Action>
    requires c.Valid() && WellFormed(c, s)
    decreases |acts|
  {
    if acts == [] then []
    else
      StepGrows(c, s, acts[0]);
      [LeaseAction(k, s, acts[0])] + LeaseActions(c, k, Step(c, s, acts[0]), acts[1..])
  }

  lemma {:induction false} RunSimulated(c: Config, leaseMs: nat, k: nat, s: State, acts: seq<Action>, l: L.State)
    requires c.Valid() && WellFormed(c, s) && Sim(k, s, l) && forall act :: act in acts ==> FixedLease(leaseMs, act)
    ensures var n := L.Run(leaseMs, l, LeaseActions(c, k, s, acts));
            Sim(k, Run(c, s, acts), n) && n.history == l.history + Log(c, k, s, acts)
    decreases |acts|
  {
    hide Step, Sim, L.Step, LeaseAction, Written;
    if acts == [] {
    } else {
      assert acts[0] in acts;
      StepGrows(c, s, acts[0]);
      StepSimulated(c, leaseMs, k, s, acts[0], l);
      StepLogs(c, leaseMs, k, s, acts[0], l);
      var t := Step(c, s, acts[0]);
      RunSimulated(c, leaseMs, k, t, acts[1..], L.Step(leaseMs, l, LeaseAction(k, s, acts[0])));
      assert LeaseActions(c, k, s, acts)[1..] == LeaseActions(c, k, t, acts[1..]);
    }
  }

  /** The first state of the run that has row `k`, and what follows it. */
  function Creation(c: Config, k: nat, s: State, acts: seq<Action>): (r: (State, seq<Action>))
    requires c.Valid() && WellFormed(c, s)
    ensures WellFormed(c, r.0)
    decreases |acts|
  {
    if k < |s.world.dead| || acts == [] then (s, acts)
    else
      StepGrows(c, s, acts[0]);
      Creation(c, k, Step(c, s, acts[0]), acts[1..])
  }

  /** A new row is one nobody works on. */
  function NewLease(s: State, k: nat): L.State
    requires k < |s.world.dead|
  {
    L.State(s.world.now, s.world.dead[k].item, map[], {}, {}, [])
  }

  lemma CreationIsFresh(c: Config, s: State, act: Action, k: nat)
    requires c.Valid() && WellFormed(c, s) && |s.world.dead| <= k < |Step(c, s, act).world.dead|
    ensures var t := Step(c, s, act); Sim(k, t, NewLease(t, k)) && L.Fresh(NewLease(t, k))
  {
    var t := Step(c, s, act);
    assert act.Move? && act.id < |s.agents| && s.agents[act.id].pc.Creating?;
    StepKeepsJobs(c, s, act);
  }

  /** A row the run creates starts fresh, and the whole log of it comes after. */
  lemma {:induction false} CreatedFresh(c: Config, k: nat, s: State, acts: seq<Action>)
    requires c.Valid() && WellFormed(c, s) && |s.world.dead| <= k < |Run(c, s, acts).world.dead|
    ensures var (t, rest) := Creation(c, k, s, acts);
            && k < |t.world.dead| && Sim(k, t, NewLease(t, k)) && L.Fresh(NewLease(t, k))
            && Run(c, t, rest) == Run(c, s, acts) && Log(c, k, t, rest) == Log(c, k, s, acts)
            && (forall act :: act in rest ==> act in acts)
    decreases |acts|
  {
    StepGrows(c, s, acts[0]);
    var t := Step(c, s, acts[0]);
    assert Written(k, s, acts[0]) == [];
    if k < |t.world.dead| {
      CreationIsFresh(c, s, acts[0], k);
    } else {
      CreatedFresh(c, k, t, acts[1..]);
    }
  }

  /**
   * Every run of the protocol is, for every item it creates, a run of the lease machine
   * from the row as created, with the same writes in the same order.
   */
  lemma ItemFollowsLease(c: Config, leaseMs: nat, s: State, acts: seq<Action>, k: nat)
    requires c.Valid() && WellFormed(c, s) && forall act :: act in acts ==> FixedLease(leaseMs, act)
    requires |s.world.dead| <= k < |Run(c, s, acts).world.dead|
    ensures var (t, rest) := Creation(c, k, s, acts);
            && k < |t.world.dead| && L.Fresh(NewLease(t, k))
            && var l := L.Run(leaseMs, NewLease(t, k), LeaseActions(c, k, t, rest));
               Sim(k, Run(c, s, acts), l) && l.history == Log(c, k, s, acts)
  {
    CreatedFresh(c, k, s, acts);
    var (t, rest) := Creation(c, k, s, acts);
    RunSimulated(c, leaseMs, k, t, rest, NewLease(t, k));
  }

  /**
   * In every run of the protocol with a fixed lease, every dead letter is the row as
   * created with the run's writes replayed on it, has its lock columns set exactly
   * while the last write is a claim, counts the claims of the run, and was claimed
   * twice with no release between only after more than a lease.
   */
  lemma ItemsKeepLease(c: Config, leaseMs: nat, rows: Rows, now: int, acts: seq<Action>, k: nat)
    requires c.Valid() && forall act :: act in acts ==> FixedLease(leaseMs, act)
    requires k < |Run(c, Start(rows, now), acts).world.dead|
    ensures var item := Run(c, Start(rows, now), acts).world.dead[k].item;
            var log := Log(c, k, Start(rows, now), acts);
            var (t, _) := Creation(c, k, Start(rows, now), acts);
            && k < |t.world.dead| && item == Replayed(t.world.dead[k].item, log)
            && (item.status == Retrying <==> L.EndsInClaim(log))
            && (item.status == Retrying <==> item.lockedAt.Some?)
            && (item.status == Retrying <==> item.lockedBy.Some?)
            && item.retryCount == t.world.dead[k].item.retryCount + L.ClaimCount(log)
            && L.Spaced(leaseMs, log)
  {
    var s := Start(rows, now);
    ItemFollowsLease(c, leaseMs, s, acts, k);
    CreatedFresh(c, k, s, acts);
    var (t, rest) := Creation(c, k, s, acts);
    RunReplays(c, k, t, rest);
    var l := NewLease(t, k);
    L.FreshHasInv(leaseMs, l);
    L.LeaseOverEveryRun(leaseMs, l.item.retryCount, l, LeaseActions(c, k, t, rest));
  }

  // ----- Disciplined runs ---------------------------------------------------------------

  predicate MayWrite(a: Agent, k: nat) {
    WorksOn(a, k) && PhaseOf(a.pc).Some? && PhaseOf(a.pc) != Some(L.Counting)
  }

  /** No time passes that would take a writer of item `k` past the lease. */
  predicate InTime(leaseMs: nat, k: nat, s: State, ms: nat)
    requires k < |s.world.dead|
  {
    var lock := s.world.dead[k].item.lockedAt;
    forall i :: 0 <= i < |s.agents| && MayWrite(s.agents[i], k) ==>
                  lock.Some? && s.world.now + ms <= lock.value + leaseMs
  }

  /** The claim the message carries still holds the item, and nobody works for it yet. */
  predicate Handleable(leaseMs: nat, k: nat, s: State, m: RetryMessage)
    requires k < |s.world.dead|
  {
    var row := s.world.dead[k];
    && row.item.status == Retrying && row.claimant == m.claimant
    && row.item.lockedAt.Some? && s.world.now <= row.item.lockedAt.value + leaseMs
    && forall i :: 0 <= i < |s.agents| && WorksOn(s.agents[i], k) && ClaimOf(s.agents[i], i) == m.claimant ==>
                     PhaseOf(s.agents[i].pc).None?
  }

  /**
   * Writers finish inside the lease of the item, nobody skips an item being written,
   * counting after `resolve` works, and a retry message is handled by one worker,
   * while its claim stands.
   */
  predicate DisciplinedStep(leaseMs: nat, k: nat, s: State, act: Action) {
    k < |s.world.dead| ==>
      match act
      case Tick(ms) => InTime(leaseMs, k, s, ms)
      case SkipItem(j) => j == k ==> forall i :: 0 <= i < |s.agents| ==> !MayWrite(s.agents[i], k)
      case Move(id, ch) => id < |s.agents| && WorksOn(s.agents[id], k) && s.agents[id].pc.CountingResolved? ==> ch.ok
      case ConsumeRetry(m) =>
        m < |s.world.retries| && s.world.retries[m].item == k ==> Handleable(leaseMs, k, s, s.world.retries[m])
      case _ => true
  }

  predicate DisciplinedRun(c: Config, leaseMs: nat, k: nat, s: State, acts: seq<Action>)
    requires c.Valid() && WellFormed(c, s)
    decreases |acts|
  {
    acts != [] ==>
      && FixedLease(leaseMs, acts[0]) && DisciplinedStep(leaseMs, k, s, acts[0])
      && (StepGrows(c, s, acts[0]); DisciplinedRun(c, leaseMs, k, Step(c, s, acts[0]), acts[1..]))
  }

  lemma WritersAreHolders(k: nat, s: State, l: L.State)
    requires Sim(k, s, l)
    ensures forall i: nat :: L.Writer(l, i) <==> i < |s.agents| && MayWrite(s.agents[i], k)
  {
    forall i: nat
      ensures L.Writer(l, i) <==> i < |s.agents| && MayWrite(s.agents[i], k)
    {
      if i < |s.agents| && WorksOn(s.agents[i], k) {
        assert HolderTold(l, s.agents[i], i);
      }
    }
  }

  /** A disciplined step of the protocol is a disciplined step of the lease machine. */
  lemma DisciplineCarries(leaseMs: nat, k: nat, s: State, act: Action, l: L.State)
    requires Sim(k, s, l) && FixedLease(leaseMs, act) && DisciplinedStep(leaseMs, k, s, act)
    ensures L.Disciplined(leaseMs, l, LeaseAction(k, s, act))
  {
    WritersAreHolders(k, s, l);
    if act.ConsumeRetry? && act.index < |s.world.retries| && s.world.retries[act.index].item == k {
      var m := s.world.retries[act.index];
      forall who | who in l.holders
        ensures l.holders[who].claim != m.claimant
      {
        assert HolderTold(l, s.agents[who], who);
      }
    } else if act.Move? && act.id < |s.agents| && WorksOn(s.agents[act.id], k) {
      assert HolderTold(l, s.agents[act.id], act.id);
    }
  }

  lemma {:induction false} DisciplinedItemStays(c: Config, leaseMs: nat, k: nat, s: State, acts: seq<Action>,
                                               l: L.State)
    returns (n: L.State)
    requires c.Valid() && WellFormed(c, s) && Sim(k, s, l) && L.Owned(leaseMs, l)
    requires DisciplinedRun(c, leaseMs, k, s, acts)
    ensures Sim(k, Run(c, s, acts), n) && L.Owned(leaseMs, n) && n.history == l.history + Log(c, k, s, acts)
    ensures l.item.Terminal() ==> n.item.Terminal()
    decreases |acts|
  {
    hide Step, Sim, L.Step, L.Owned, LeaseAction, Written;
    if acts == [] {
      n := l;
    } else {
      StepGrows(c, s, acts[0]);
      var action := LeaseAction(k, s, acts[0]);
      StepSimulated(c, leaseMs, k, s, acts[0], l);
      StepLogs(c, leaseMs, k, s, acts[0], l);
      DisciplineCarries(leaseMs, k, s, acts[0], l);
      L.StepKeepsOwned(leaseMs, l, action);
      if l.item.Terminal() {
        L.StepKeepsTerminal(leaseMs, l, action);
      }
      n := DisciplinedItemStays(c, leaseMs, k, Step(c, s, acts[0]), acts[1..], L.Step(leaseMs, l, action));
    }
  }

  lemma {:induction false} DisciplineAfterCreation(c: Config, leaseMs: nat, k: nat, s: State, acts: seq<Action>)
    requires c.Valid() && WellFormed(c, s) && DisciplinedRun(c, leaseMs, k, s, acts)
    ensures var (t, rest) := Creation(c, k, s, acts); DisciplinedRun(c, leaseMs, k, t, rest)
    decreases |acts|
  {
    if k < |s.world.dead| || acts == [] {
    } else {
      StepGrows(c, s, acts[0]);
      DisciplineAfterCreation(c, leaseMs, k, Step(c, s, acts[0]), acts[1..]);
    }
  }

  /** A disciplined run leaves each item it created with at most one writer. */
  lemma DisciplinedItemIsOwned(c: Config, leaseMs: nat, k: nat, s: State, acts: seq<Action>) returns (n: L.State)
    requires c.Valid() && WellFormed(c, s) && DisciplinedRun(c, leaseMs, k, s, acts)
    requires |s.world.dead| <= k < |Run(c, s, acts).world.dead|
    ensures Sim(k, Run(c, s, acts), n) && L.Owned(leaseMs, n) && n.history == Log(c, k, s, acts)
  {
    CreatedFresh(c, k, s, acts);
    DisciplineAfterCreation(c, leaseMs, k, s, acts);
    var (t, rest) := Creation(c, k, s, acts);
    L.FreshIsOwned(leaseMs, NewLease(t, k));
    n := DisciplinedItemStays(c, leaseMs, k, t, rest, NewLease(t, k));
  }

  /** In disciplined runs of the protocol, no claim of an item is released twice. */
  lemma ClaimsAreReleasedOnce(c: Config, leaseMs: nat, rows: Rows, now: int, acts: seq<Action>, k: nat)
    requires c.Valid() && DisciplinedRun(c, leaseMs, k, Start(rows, now), acts)
    ensures L.SingleRelease(Log(c, k, Start(rows, now), acts))
  {
    if k < |Run(c, Start(rows, now), acts).world.dead| {
      var n := DisciplinedItemIsOwned(c, leaseMs, k, Start(rows, now), acts);
    } else {
      NothingWritten(c, k, Start(rows, now), acts);
    }
  }

  lemma {:induction false} NothingWritten(c: Config, k: nat, s: State, acts: seq<Action>)
    requires c.Valid() && WellFormed(c, s) && k >= |Run(c, s, acts).world.dead|
    ensures Log(c, k, s, acts) == []
    decreases |acts|
  {
    if acts == [] {
    } else {
      StepGrows(c, s, acts[0]);
      RunGrows(c, Step(c, s, acts[0]), acts[1..]);
      NothingWritten(c, k, Step(c, s, acts[0]), acts[1..]);
    }
  }

  /** In disciplined runs of the protocol, an item once skipped or resolved stays so. */
  lemma FinishedItemsStayFinished(c: Config, leaseMs: nat, rows: Rows, now: int, before: seq<Action>,
                                  after: seq<Action>, k: nat)
    requires c.Valid() && DisciplinedRun(c, leaseMs, k, Start(rows, now), before)
    requires var s := Run(c, Start(rows, now), before);
             && k < |s.world.dead| && s.world.dead[k].item.Terminal() && DisciplinedRun(c, leaseMs, k, s, after)
    ensures var t := Run(c, Run(c, Start(rows, now), before), after);
            k < |t.world.dead| && t.world.dead[k].item.Terminal()
  {
    var s := Run(c, Start(rows, now), before);
    var l := DisciplinedItemIsOwned(c, leaseMs, k, Start(rows, now), before);
    var n := DisciplinedItemStays(c, leaseMs, k, s, after, l);
  }

  // ----- Any run ------------------------------------------------------------------------

  /** A retry on its failure path writes item `k` back to pending, whoever holds the item by then. */
  ghost function Reopens(k: nat): (State, Action) -> bool {
    (s: State, act: Action) =>
      && act.Move? && act.id < |s.agents| && WorksOn(s.agents[act.id], k)
      && s.agents[act.id].pc.MarkingFailed? && act.choice.ok
  }

  predicate Finished(s: State, k: nat) {
    k < |s.world.dead| && s.world.dead[k].item.Terminal()
  }

  /** At some point of the run item `k` is not finished. */
  ghost predicate Reopened(c: Config, s: State, acts: seq<Action>, k: nat)
    requires c.Valid() && WellFormed(c, s)
    decreases |acts|
  {
    || !Finished(s, k)
    || (acts != [] && (StepGrows(c, s, acts[0]); Reopened(c, Step(c, s, acts[0]), acts[1..], k)))
  }

  lemma StepReopensIff(c: Config, s: State, act: Action, k: nat)
    requires c.Valid() && WellFormed(c, s) && Finished(s, k)
    ensures !Finished(Step(c, s, act), k) <==> Reopens(k)(s, act)
  {
    if act.Move? && act.id < |s.agents| && !WorksOn(s.agents[act.id], k) {
      OtherMove(c, s.world, act.id, s.agents[act.id], act.choice, k);
    }
  }

  /**
   * With no discipline at all: a finished item is reopened in a run if and only if
   * some retry of it takes its failure path to the end.
   */
  lemma {:induction false} FinishedItemReopensIff(c: Config, s: State, acts: seq<Action>, k: nat)
    requires c.Valid() && WellFormed(c, s) && Finished(s, k)
    ensures Reopened(c, s, acts, k) <==> Occurs(c, s, acts, Reopens(k))
    decreases |acts|
  {
    if acts == [] {
    } else {
      StepGrows(c, s, acts[0]);
      StepReopensIff(c, s, acts[0], k);
      if Finished(Step(c, s, acts[0]), k) {
        FinishedItemReopensIff(c, Step(c, s, acts[0]), acts[1..], k);
      }
    }
  }
}
