/**
 * What becomes of a message a worker consumed. The worker swallows every error, so a
 * dead letter that cannot be inserted is the end of the event.
 */
module DeliveryWorkers {
  import opened Common
  import opened Events
  import opened Idempotency
  import opened Dlq
  import opened Delivery
  import opened DeliveryEvidence
  import opened DeliveryRelease

  /** The worker's own policy read or insert of the dead letter throws. */
  ghost function Drops(i: nat): (State, Action) -> bool {
    (s: State, act: Action) =>
      && act.Move? && act.id == i && i < |s.agents| && !act.choice.ok
      && (s.agents[i].pc.ReadingPolicy? || s.agents[i].pc.Creating?)
  }

  predicate Left(w: World, id: nat, a: Agent, success: bool, row: bool) {
    SuccessBy(w, id, a.job.event) == success && RowBy(w, id, a.job.event) == row
  }

  /** `dropped` tells whether the worker's read or insert has thrown so far. */
  predicate OutcomeTold(w: World, id: nat, a: Agent, dropped: bool) {
    a.job.EventWork? ==>
      match a.pc
      case Counting => Left(w, id, a, false, true) && !dropped
      case Announcing(Success) => Left(w, id, a, true, false) && !dropped
      case Announcing(Durable) => Left(w, id, a, false, true) && !dropped
      case Announcing(Unaccepted(row)) => Left(w, id, a, false, row) && dropped == !row
      case Ended(Delivered) => Left(w, id, a, true, false) && !dropped
      case Ended(DeadLettered) => Left(w, id, a, false, true) && !dropped
      case Ended(Abandoned(row)) => Left(w, id, a, false, row) && dropped == !row
      case Ended(_) => false
      case _ => Left(w, id, a, false, false) && !dropped && AtProcessingPc(a)
  }

  lemma WorkerCallTells(c: Config, w: World, id: nat, a: Agent, ch: Choice)
    requires c.Valid() && AgentOk(c, w, a) && a.job.EventWork? && a.pc.Calling? && OutcomeTold(w, id, a, false)
    ensures var (v, b) := MoveAgent(c, w, id, a, ch); OutcomeTold(v, id, b, false)
  {
    var v := MoveAgent(c, w, id, a, ch).0;
    assert v.calls[|w.calls|] == Call(id, a.job.event, ch.outcome);
    assert SuccessBy(v, id, a.job.event) <==> ch.outcome == Succeeded;
    assert RowBy(v, id, a.job.event) <==> RowBy(w, id, a.job.event);
  }

  lemma WorkerInsertTells(c: Config, w: World, id: nat, a: Agent, ch: Choice)
    requires c.Valid() && AgentOk(c, w, a) && a.job.EventWork? && a.pc.Creating? && OutcomeTold(w, id, a, false)
    ensures var (v, b) := MoveAgent(c, w, id, a, ch); OutcomeTold(v, id, b, !ch.ok)
  {
    var v := MoveAgent(c, w, id, a, ch).0;
    if ch.ok {
      assert v.dead[|w.dead|].author == id && v.dead[|w.dead|].item.event == a.job.event;
      assert RowBy(v, id, a.job.event);
    }
  }

  lemma WorkerMoveTells(c: Config, s: State, id: nat, ch: Choice, dropped: bool)
    requires c.Valid() && WellFormed(c, s) && id < |s.agents| && OutcomeTold(s.world, id, s.agents[id], dropped)
    ensures var (v, b) := MoveAgent(c, s.world, id, s.agents[id], ch);
            b.job == s.agents[id].job && OutcomeTold(v, id, b, dropped || Drops(id)(s, Move(id, ch)))
  {
    var a := s.agents[id];
    MoveGrows(c, s.world, id, a, ch);
    if a.job.EventWork? {
      if a.pc.Calling? {
        WorkerCallTells(c, s.world, id, a, ch);
      } else if a.pc.Creating? {
        WorkerInsertTells(c, s.world, id, a, ch);
      } else {
        assert MoveAgent(c, s.world, id, a, ch).0 == s.world;
      }
    }
  }

  /** Worker `i`, present or still to come, stands where `dropped` says. */
  ghost predicate OutcomeKnown(s: State, i: nat, dropped: bool) {
    && AuthorsExist(s)
    && if i < |s.agents| then OutcomeTold(s.world, i, s.agents[i], dropped) else !dropped
  }

  lemma OthersKeepOutcome(w: World, v: World, id: nat, i: nat, a: Agent, dropped: bool)
    requires SignedBy(w, v, id) && i != id && Grows(w, v) && OutcomeTold(w, i, a, dropped)
    ensures OutcomeTold(v, i, a, dropped)
  {
    OthersKeepEffect(w, v, id, i, a.job.event);
  }

  lemma WorkerStepTells(c: Config, s: State, act: Action, i: nat, dropped: bool)
    requires c.Valid() && WellFormed(c, s) && OutcomeKnown(s, i, dropped)
    ensures OutcomeKnown(Step(c, s, act), i, dropped || Drops(i)(s, act))
  {
    if act.Move? && act.id < |s.agents| {
      WorkerMoveStepTells(c, s, act.id, act.choice, i, dropped);
    } else {
      WorkerOtherStepTells(c, s, act, i, dropped);
    }
  }

  lemma WorkerMoveStepTells(c: Config, s: State, id: nat, ch: Choice, i: nat, dropped: bool)
    requires c.Valid() && WellFormed(c, s) && OutcomeKnown(s, i, dropped) && id < |s.agents|
    ensures OutcomeKnown(Step(c, s, Move(id, ch)), i, dropped || Drops(i)(s, Move(id, ch)))
  {
    hide MoveAgent, OutcomeTold;
    var t := Step(c, s, Move(id, ch));
    MoveGrows(c, s.world, id, s.agents[id], ch);
    MoveIsSigned(c, s.world, id, s.agents[id], ch);
    if id == i {
      WorkerMoveTells(c, s, i, ch, dropped);
    } else if i < |s.agents| {
      OthersKeepOutcome(s.world, t.world, id, i, s.agents[i], dropped);
    }
  }

  lemma WorkerOtherStepTells(c: Config, s: State, act: Action, i: nat, dropped: bool)
    requires c.Valid() && WellFormed(c, s) && OutcomeKnown(s, i, dropped) && !(act.Move? && act.id < |s.agents|)
    ensures OutcomeKnown(Step(c, s, act), i, dropped)
  {
    hide MoveAgent, SignedBy, Grows;
    var t := Step(c, s, act);
    if i < |s.agents| {
      OthersKeepOutcome(s.world, t.world, |s.agents|, i, s.agents[i], dropped);
    } else if i < |t.agents| {
      OthersKeepEffect(s.world, t.world, i + 1, i, t.agents[i].job.event);
      NobodyYet(s, i, t.agents[i].job.event);
    }
  }

  lemma {:induction false} WorkerRunTells(c: Config, s: State, acts: seq<Action>, i: nat, dropped: bool)
    requires c.Valid() && WellFormed(c, s) && OutcomeKnown(s, i, dropped)
    ensures OutcomeKnown(Run(c, s, acts), i, dropped || Occurs(c, s, acts, Drops(i)))
    decreases |acts|
  {
    if acts == [] {
    } else {
      StepGrows(c, s, acts[0]);
      WorkerStepTells(c, s, acts[0], i, dropped);
      WorkerRunTells(c, Step(c, s, acts[0]), acts[1..], i, dropped || Drops(i)(s, acts[0]));
    }
  }

  /**
   * Exactly which consumed messages are accounted for: in every run, a worker that
   * ended has left a connector success or a dead letter of its event if and only if
   * neither its own policy read nor its own insert threw. It never leaves both, and its
   * end tells which.
   */
  lemma ConsumedMessageIsAccountedIff(c: Config, rows: Rows, now: int, acts: seq<Action>, i: nat)
    requires c.Valid()
    requires var s := Run(c, Start(rows, now), acts);
             i < |s.agents| && s.agents[i].job.EventWork? && s.agents[i].pc.Ended?
    ensures var s := Run(c, Start(rows, now), acts);
            var success, row := SuccessBy(s.world, i, s.agents[i].job.event), RowBy(s.world, i, s.agents[i].job.event);
            && (success || row <==> !Occurs(c, Start(rows, now), acts, Drops(i)))
            && !(success && row)
            && (s.agents[i].pc.end == Delivered <==> success)
            && (s.agents[i].pc.end == DeadLettered || s.agents[i].pc.end == Abandoned(true) <==> row)
  {
    WorkerRunTells(c, Start(rows, now), acts, i, false);
  }

  // ----- When inserting works for everybody -----------------------------------------

  /** Neither the policy read nor the insert of a dead letter throws. */
  predicate DlqWorks(s: State, act: Action) {
    act.Move? && act.id < |s.agents| && (s.agents[act.id].pc.ReadingPolicy? || s.agents[act.id].pc.Creating?) ==>
      act.choice.ok
  }

  predicate DlqWorksThroughout(c: Config, s: State, acts: seq<Action>)
    requires c.Valid() && WellFormed(c, s)
    decreases |acts|
  {
    acts != [] ==>
      DlqWorks(s, acts[0]) && (StepGrows(c, s, acts[0]); DlqWorksThroughout(c, Step(c, s, acts[0]), acts[1..]))
  }

  lemma {:induction false} WorkingDropsNothing(c: Config, s: State, acts: seq<Action>, i: nat)
    requires c.Valid() && WellFormed(c, s) && DlqWorksThroughout(c, s, acts)
    ensures !Occurs(c, s, acts, Drops(i))
    decreases |acts|
  {
    if acts == [] {
    } else {
      StepGrows(c, s, acts[0]);
      WorkingDropsNothing(c, Step(c, s, acts[0]), acts[1..], i);
    }
  }

  /** Then every message a worker consumed ends as a connector success or a dead letter. */
  lemma ConsumedMessagesAreAccounted(c: Config, rows: Rows, now: int, acts: seq<Action>, i: nat)
    requires c.Valid() && DlqWorksThroughout(c, Start(rows, now), acts)
    requires var s := Run(c, Start(rows, now), acts);
             i < |s.agents| && s.agents[i].job.EventWork? && s.agents[i].pc.Ended?
    ensures var s := Run(c, Start(rows, now), acts);
            SuccessBy(s.world, i, s.agents[i].job.event) || RowBy(s.world, i, s.agents[i].job.event)
  {
    WorkingDropsNothing(c, Start(rows, now), acts, i);
    ConsumedMessageIsAccountedIff(c, rows, now, acts, i);
  }

  // ----- A message is lost ------------------------------------------------------------

  /** One instance without encryption that queues what it receives. */
  predicate Queueing(c: Config) {
    c.nodes == [NODE] && c.async && c.kafka
  }

  /** Nothing has happened but the lock and the queued message. */
  predicate Untouched(s: State, inbox: seq<Delivery.Queued>) {
    s.world == World(0, map[KEY := TTL_MS], [], [], inbox, [])
  }

  lemma ReachOn(c: Config, s: State, act: Action)
    requires c.Valid() && WellFormed(c, s) && Reached(c, s)
    ensures WellFormed(c, Step(c, s, act)) && Reached(c, Step(c, s, act))
  {
    var acts :| Run(c, Start(map[], 0), acts) == s;
    RunOneMore(c, Start(map[], 0), acts, act);
  }

  /** The webhook is locked and put on the queue, and answered as processed. */
  lemma EventQueued(c: Config) returns (s: State)
    requires Queueing(c)
    ensures c.Valid() && WellFormed(c, s) && Reached(c, s) && Untouched(s, [Queued.Queued(0, EVENT)])
    ensures s.agents == [Agent(JOB, Ended(End.Queued), Some(0), {})]
  {
    assert AllKeys(c, JOB) == [KEY];
    assert Run(c, Start(map[], 0), []) == Start(map[], 0);
    ReachOn(c, Start(map[], 0), Receive(0, EVENT, false));
    var s1 := Step(c, Start(map[], 0), Receive(0, EVENT, false));
    assert s1.agents == [Agent(JOB, Locking, None, {})];
    ReachOn(c, s1, Move(0, Env(true, Threw)));
    var s2 := Step(c, s1, Move(0, Env(true, Threw)));
    assert Prune(map[KEY := TTL_MS], 0) == map[KEY := TTL_MS];
    assert s2.agents == [Agent(JOB, Enqueueing, Some(0), {})] && Untouched(s2, []);
    ReachOn(c, s2, Move(0, Env(true, Threw)));
    s := Step(c, s2, Move(0, Env(true, Threw)));
    assert [] + [Queued.Queued(0, EVENT)] == [Queued.Queued(0, EVENT)];
  }

  /** A worker consumes the message, finds no connector and cannot write a dead letter. */
  lemma MessageDropped(c: Config, s: State) returns (t: State)
    requires c.Valid() && WellFormed(c, s) && Reached(c, s) && Untouched(s, [Queued.Queued(0, EVENT)])
    requires s.agents == [Agent(JOB, Ended(End.Queued), Some(0), {})]
    ensures WellFormed(c, t) && Reached(c, t) && t.world == s.world
    ensures t.agents == s.agents + [Agent(EventWork(EVENT), Ended(Abandoned(false)), None, {})]
  {
    var job := EventWork(EVENT);
    ReachOn(c, s, Consume(0));
    var s1 := Step(c, s, Consume(0));
    assert s1.agents[1] == Agent(job, Looking, None, {});
    ReachOn(c, s1, Move(1, Env(false, Threw)));
    var s2 := Step(c, s1, Move(1, Env(false, Threw)));
    assert s2.agents[1] == Agent(job, ReadingPolicy, None, {}) && s2.world == s.world;
    ReachOn(c, s2, Move(1, Env(false, Threw)));
    var s3 := Step(c, s2, Move(1, Env(false, Threw)));
    assert s3.agents[1] == Agent(job, Announcing(Unaccepted(false)), None, {}) && s3.world == s.world;
    ReachOn(c, s3, Move(1, Env(true, Threw)));
    t := Step(c, s3, Move(1, Env(true, Threw)));
  }

  /**
   * An event is lost (a reachable state): its webhook was answered as processed, its
   * message was consumed, no connector was ever called, there is no dead letter, and
   * the sender's repeat is answered as a duplicate.
   */
  lemma ConsumedMessageIsLost(c: Config) returns (s: State)
    requires Queueing(c)
    ensures c.Valid() && Reached(c, s) && s.world.calls == [] && s.world.dead == []
    ensures |s.agents| == 3 && s.agents[0].job == JOB && s.agents[0].pc == Ended(End.Queued)
    ensures s.agents[1].job == EventWork(EVENT) && s.agents[1].pc == Ended(Abandoned(false))
    ensures s.agents[2].job == JOB && s.agents[2].pc == Ended(Rejected(true))
  {
    var s0 := EventQueued(c);
    var s1 := MessageDropped(c, s0);
    assert AllKeys(c, JOB) == [KEY];
    ReachOn(c, s1, Receive(0, EVENT, false));
    var s2 := Step(c, s1, Receive(0, EVENT, false));
    assert s2.agents[2] == Agent(JOB, Locking, None, {});
    ReachOn(c, s2, Move(2, Env(true, Threw)));
    s := Step(c, s2, Move(2, Env(true, Threw)));
  }
}
