/**
 * What a webhook does once it has its key, by kind: a write that is processed here, a
 * write that is queued, and a read.
 */
module DeliveryWebhooks {
  import opened Common
  import opened Events
  import opened Idempotency
  import opened Dlq
  import opened Delivery
  import opened DeliveryEvidence
  import opened DeliveryRelease
  import opened DeliveryWorkers

  predicate Accounted(w: World, id: nat, e: Event) {
    SuccessBy(w, id, e) || RowBy(w, id, e)
  }

  predicate CallsNothing(w: World, id: nat) {
    forall k :: 0 <= k < |w.calls| ==> w.calls[k].author != id
  }

  /** `happened`: the policy read or insert of a write processed here, the send of a queued one or a read has failed. */
  predicate HandlerTold(c: Config, w: World, id: nat, a: Agent, happened: bool) {
    a.job.Webhook? ==>
      if a.job.read then ReadTold(w, id, a, happened)
      else if c.async then QueuedTold(c, w, id, a, happened)
      else ProcessedTold(w, id, a, happened)
  }

  predicate ProcessedTold(w: World, id: nat, a: Agent, dropped: bool) {
    var accounted := Accounted(w, id, a.job.event);
    && !QueuedBy(w, id, a.job.event)
    && match a.pc
       case Reading => false
       case Enqueueing => false
       case Counting => accounted && !dropped
       case Announcing(Unaccepted(_)) => accounted <==> !dropped
       case Announcing(_) => accounted && !dropped
       case Releasing(_) => accounted <==> !dropped
       case Ended(Delivered) => accounted && !dropped
       case Ended(DeadLettered) => accounted && !dropped
       case Ended(Abandoned(_)) => accounted <==> !dropped
       case Ended(Rejected(_)) => !accounted && !dropped
       case Ended(Failed) => !accounted && !dropped
       case Ended(_) => false
       case _ => !accounted && !dropped
  }

  predicate QueuedTold(c: Config, w: World, id: nat, a: Agent, unsent: bool) {
    && CallsNothing(w, id) && !RowBy(w, id, a.job.event)
    && (AtWebhookPc(a) || a.pc.Ended?) && !a.pc.Reading?
    && (QueuedBy(w, id, a.job.event) <==> a.pc == Ended(End.Queued))
    && (!c.kafka ==> !a.pc.Enqueueing? && a.pc != Ended(End.Queued) && !unsent)
    && (unsent ==> a.pc.Releasing? || a.pc.Ended?)
    && (c.kafka && a.pc.Releasing? ==> unsent)
    && (a.pc.Ended? ==> match a.pc.end
                        case Rejected(_) => !unsent
                        case Failed => !unsent
                        case Queued => !unsent
                        case Abandoned(row) => !row && (c.kafka ==> unsent)
                        case _ => false)
  }

  predicate ReadTold(w: World, id: nat, a: Agent, failed: bool) {
    && !RowBy(w, id, a.job.event) && !QueuedBy(w, id, a.job.event)
    && (AtWebhookPc(a) || a.pc.Ended?) && !a.pc.Enqueueing?
    && (failed <==> a.pc.Releasing? || (a.pc.Ended? && a.pc.end.Abandoned?))
    && (a.pc.Ended? ==> match a.pc.end
                        case Rejected(_) => true
                        case Failed => true
                        case Answered => true
                        case Abandoned(row) => !row
                        case _ => false)
  }

  /** What makes `happened` true of handler `i`, by its kind. */
  predicate Happening(c: Config, i: nat, s: State, act: Action) {
    && act.Move? && act.id == i && i < |s.agents| && s.agents[i].job.Webhook?
    && if s.agents[i].job.read
       then && s.agents[i].pc.Reading?
            && !(act.choice.found
                 && (act.choice.outcome == Succeeded || (act.choice.outcome == Refused && act.choice.native)))
       else if c.async then !act.choice.ok && s.agents[i].pc.Enqueueing?
       else !act.choice.ok && (s.agents[i].pc.ReadingPolicy? || s.agents[i].pc.Creating?)
  }

  lemma LookupMoveTells(c: Config, w: World, id: nat, a: Agent, ch: Choice, happened: bool)
    requires c.Valid() && AgentOk(c, w, a) && HandlerTold(c, w, id, a, happened) && AtWebhookPc(a)
    requires !a.pc.Reading? && !a.pc.Enqueueing?
    ensures var (v, b) := MoveAgent(c, w, id, a, ch); b.job == a.job && HandlerTold(c, v, id, b, happened)
  {
    hide MoveProcessing, MoveRetry, SetNx, Live;
    var v := MoveAgent(c, w, id, a, ch).0;
    assert v.calls == w.calls && v.dead == w.dead && v.inbox == w.inbox;
  }

  lemma ReadMoveTells(c: Config, w: World, id: nat, a: Agent, ch: Choice, failed: bool)
    requires c.Valid() && AgentOk(c, w, a) && HandlerTold(c, w, id, a, failed) && a.pc.Reading?
    ensures var (v, b) := MoveAgent(c, w, id, a, ch);
            var answers := ch.found && (ch.outcome == Succeeded || (ch.outcome == Refused && ch.native));
            b.job == a.job && HandlerTold(c, v, id, b, failed || !answers)
  {
    hide MoveProcessing, MoveRetry;
    var v := MoveAgent(c, w, id, a, ch).0;
    assert v.dead == w.dead && v.inbox == w.inbox;
  }

  lemma QueueMoveTells(c: Config, w: World, id: nat, a: Agent, ch: Choice, happened: bool)
    requires c.Valid() && AgentOk(c, w, a) && HandlerTold(c, w, id, a, happened) && a.pc.Enqueueing?
    ensures var (v, b) := MoveAgent(c, w, id, a, ch); b.job == a.job && HandlerTold(c, v, id, b, happened || !ch.ok)
  {
    hide MoveProcessing, MoveRetry;
    var v := MoveAgent(c, w, id, a, ch).0;
    assert v.dead == w.dead && v.calls == w.calls;
    if ch.ok {
      assert v.inbox[|w.inbox|] == Queued.Queued(id, a.job.event);
    }
  }

  lemma ProcessingTells(c: Config, w: World, id: nat, a: Agent, ch: Choice, dropped: bool)
    requires c.Valid() && AgentOk(c, w, a) && HandlerTold(c, w, id, a, dropped) && AtProcessingPc(a) && a.job.Webhook?
    ensures var (v, b) := MoveAgent(c, w, id, a, ch);
            b.job == a.job
            && HandlerTold(c, v, id, b, dropped || (!ch.ok && (a.pc.ReadingPolicy? || a.pc.Creating?)))
  {
    hide MoveWebhook, MoveRetry;
    var v := MoveAgent(c, w, id, a, ch).0;
    assert v.inbox == w.inbox;
    if a.pc.Calling? {
      assert v.calls[|w.calls|] == Call(id, a.job.event, ch.outcome);
      assert SuccessBy(v, id, a.job.event) <==> ch.outcome == Succeeded;
      assert RowBy(v, id, a.job.event) <==> RowBy(w, id, a.job.event);
    } else if a.pc.Creating? && ch.ok {
      assert v.dead[|w.dead|].author == id && v.dead[|w.dead|].item.event == a.job.event;
      assert RowBy(v, id, a.job.event);
    }
  }

  lemma MoveTellsHandler(c: Config, s: State, id: nat, ch: Choice, happened: bool)
    requires c.Valid() && WellFormed(c, s) && id < |s.agents| && HandlerTold(c, s.world, id, s.agents[id], happened)
    ensures var (v, b) := MoveAgent(c, s.world, id, s.agents[id], ch);
            b.job == s.agents[id].job && HandlerTold(c, v, id, b, happened || Happening(c, id, s, Move(id, ch)))
  {
    hide MoveAgent;
    var a := s.agents[id];
    MoveGrows(c, s.world, id, a, ch);
    if a.job.Webhook? {
      if a.pc.Reading? {
        ReadMoveTells(c, s.world, id, a, ch, happened);
      } else if a.pc.Enqueueing? {
        QueueMoveTells(c, s.world, id, a, ch, happened);
      } else if AtWebhookPc(a) {
        LookupMoveTells(c, s.world, id, a, ch, happened);
      } else if AtProcessingPc(a) {
        ProcessingTells(c, s.world, id, a, ch, happened);
      } else {
        EndedStaysTold(c, s.world, id, a, ch);
      }
    }
  }

  lemma EndedStaysTold(c: Config, w: World, id: nat, a: Agent, ch: Choice)
    requires c.Valid() && AgentOk(c, w, a) && a.job.Webhook? && !AtWebhookPc(a) && !AtProcessingPc(a)
    ensures MoveAgent(c, w, id, a, ch) == (w, a)
  {
  }

  lemma OthersKeepHandler(c: Config, w: World, v: World, id: nat, i: nat, a: Agent, happened: bool)
    requires SignedBy(w, v, id) && i != id && Grows(w, v) && HandlerTold(c, w, i, a, happened)
    ensures HandlerTold(c, v, i, a, happened)
  {
    OthersKeepEffect(w, v, id, i, a.job.event);
  }

  /** Handler `i`, present or still to come, stands where `happened` says. */
  ghost predicate HandlerKnown(c: Config, s: State, i: nat, happened: bool) {
    && AuthorsExist(s)
    && if i < |s.agents| then HandlerTold(c, s.world, i, s.agents[i], happened) else !happened
  }

  lemma StepTellsHandler(c: Config, s: State, act: Action, i: nat, happened: bool)
    requires c.Valid() && WellFormed(c, s) && HandlerKnown(c, s, i, happened)
    ensures HandlerKnown(c, Step(c, s, act), i, happened || Happening(c, i, s, act))
  {
    if act.Move? && act.id < |s.agents| {
      MoveStepTellsHandler(c, s, act.id, act.choice, i, happened);
    } else {
      OtherStepTellsHandler(c, s, act, i, happened);
    }
  }

  lemma MoveStepTellsHandler(c: Config, s: State, id: nat, ch: Choice, i: nat, happened: bool)
    requires c.Valid() && WellFormed(c, s) && HandlerKnown(c, s, i, happened) && id < |s.agents|
    ensures HandlerKnown(c, Step(c, s, Move(id, ch)), i, happened || Happening(c, i, s, Move(id, ch)))
  {
    hide MoveAgent, HandlerTold;
    var t := Step(c, s, Move(id, ch));
    MoveGrows(c, s.world, id, s.agents[id], ch);
    MoveIsSigned(c, s.world, id, s.agents[id], ch);
    if id == i {
      MoveTellsHandler(c, s, i, ch, happened);
    } else if i < |s.agents| {
      OthersKeepHandler(c, s.world, t.world, id, i, s.agents[i], happened);
    }
  }

  lemma OtherStepTellsHandler(c: Config, s: State, act: Action, i: nat, happened: bool)
    requires c.Valid() && WellFormed(c, s) && HandlerKnown(c, s, i, happened) && !(act.Move? && act.id < |s.agents|)
    ensures HandlerKnown(c, Step(c, s, act), i, happened)
  {
    hide Step, HandlerTold, SignedBy, Grows, AuthorsExist, WellFormed;
    var t := Step(c, s, act);
    OtherStepAdds(c, s, act);
    if i < |s.agents| {
      OthersKeepHandler(c, s.world, t.world, |s.agents|, i, s.agents[i], happened);
    } else if i < |t.agents| {
      NewHandlerTold(c, s, act, i);
    }
  }

  /** A newcomer has done nothing yet. */
  lemma NewHandlerTold(c: Config, s: State, act: Action, i: nat)
    requires c.Valid() && WellFormed(c, s) && AuthorsExist(s) && i == |s.agents| < |Step(c, s, act).agents|
    requires !(act.Move? && act.id < |s.agents|)
    ensures var t := Step(c, s, act); HandlerTold(c, t.world, i, t.agents[i], false)
  {
    NobodyYet(s, i, Step(c, s, act).agents[i].job.event);
  }

  // ----- Whole runs -------------------------------------------------------------------

  ghost function Happens(c: Config, i: nat): (State, Action) -> bool {
    (s: State, act: Action) => Happening(c, i, s, act)
  }

  /** The read of handler `i` finds no connector, or gets no answer; a native read may be refused. */
  ghost function ReadFails(i: nat): (State, Action) -> bool {
    (s: State, act: Action) =>
      && act.Move? && act.id == i && i < |s.agents| && s.agents[i].pc.Reading?
      && (act.choice.found ==> act.choice.outcome == Threw || (act.choice.outcome == Refused && !act.choice.native))
  }

  /** Handler `i` cannot put its message on the queue. */
  ghost function SendThrows(i: nat): (State, Action) -> bool {
    (s: State, act: Action) =>
      act.Move? && act.id == i && i < |s.agents| && s.agents[i].pc.Enqueueing? && !act.choice.ok
  }

  lemma {:induction false} RunTellsHandler(c: Config, s: State, acts: seq<Action>, i: nat, happened: bool)
    requires c.Valid() && WellFormed(c, s) && HandlerKnown(c, s, i, happened)
    ensures HandlerKnown(c, Run(c, s, acts), i, happened || Occurs(c, s, acts, Happens(c, i)))
    decreases |acts|
  {
    hide Step, HandlerKnown, Happening;
    if acts == [] {
    } else {
      StepGrows(c, s, acts[0]);
      StepTellsHandler(c, s, acts[0], i, happened);
      RunTellsHandler(c, Step(c, s, acts[0]), acts[1..], i, happened || Happening(c, i, s, acts[0]));
    }
  }

  /** A handler keeps its job, so what happens to it may be told by its job at the end. */
  lemma {:induction false} OccursAlike(c: Config, s: State, acts: seq<Action>, i: nat, p: (State, Action) -> bool,
                                       q: (State, Action) -> bool)
    requires c.Valid() && WellFormed(c, s) && i < |Run(c, s, acts).agents|
    requires var job := Run(c, s, acts).agents[i].job;
             forall u: State, act: Action :: (i < |u.agents| ==> u.agents[i].job == job) ==> p(u, act) == q(u, act)
    ensures Occurs(c, s, acts, p) <==> Occurs(c, s, acts, q)
    decreases |acts|
  {
    hide Step;
    RunGrows(c, s, acts);
    if acts == [] {
    } else {
      StepGrows(c, s, acts[0]);
      assert p(s, acts[0]) == q(s, acts[0]);
      OccursAlike(c, Step(c, s, acts[0]), acts[1..], i, p, q);
    }
  }

  /**
   * A write that is processed at once, in every run: having its key, it ends with a
   * connector success or a dead letter of its own if and only if neither its policy
   * read nor its insert threw; nothing of it is queued.
   */
  lemma ProcessedWriteIsAccountedIff(c: Config, rows: Rows, now: int, acts: seq<Action>, i: nat)
    requires c.Valid() && !c.async
    requires var s := Run(c, Start(rows, now), acts);
             && i < |s.agents| && s.agents[i].job.Webhook? && !s.agents[i].job.read
             && s.agents[i].pc.Ended? && s.agents[i].lockedAt.Some?
    ensures var s := Run(c, Start(rows, now), acts);
            && (SuccessBy(s.world, i, s.agents[i].job.event) || RowBy(s.world, i, s.agents[i].job.event) <==>
                !Occurs(c, Start(rows, now), acts, Drops(i)))
            && !QueuedBy(s.world, i, s.agents[i].job.event)
  {
    var s := Run(c, Start(rows, now), acts);
    RunTellsHandler(c, Start(rows, now), acts, i, false);
    OccursAlike(c, Start(rows, now), acts, i, Happens(c, i), Drops(i));
    RunKeepsInv(c, Start(rows, now), acts);
    assert KeyState(c, s.agents[i]);
  }

  /** Exactly when such a write gives its key up: its read or insert threw, or it failed after its effect. */
  lemma ProcessedWriteGivesUpIff(c: Config, rows: Rows, now: int, acts: seq<Action>, i: nat)
    requires c.Valid() && !c.async
    requires var s := Run(c, Start(rows, now), acts);
             && i < |s.agents| && s.agents[i].job.Webhook? && !s.agents[i].job.read
             && s.agents[i].pc.Ended? && s.agents[i].lockedAt.Some?
    ensures Run(c, Start(rows, now), acts).agents[i].pc.end.Abandoned? <==>
            Occurs(c, Start(rows, now), acts, Drops(i)) || Occurs(c, Start(rows, now), acts, Upset(i))
  {
    RunTellsHandler(c, Start(rows, now), acts, i, false);
    OccursAlike(c, Start(rows, now), acts, i, Happens(c, i), Drops(i));
    RunTells(c, Start(rows, now), acts, i, false);
    RunKeepsInv(c, Start(rows, now), acts);
    assert KeyState(c, Run(c, Start(rows, now), acts).agents[i]);
  }

  /**
   * A write that is to be queued, in every run: it never calls a connector nor leaves a
   * dead letter, its message is on the topic if and only if it ended queued, and having
   * its key it ends queued if and only if there is a queue and the send did not throw.
   */
  lemma QueuedWriteOnlyQueues(c: Config, rows: Rows, now: int, acts: seq<Action>, i: nat)
    requires c.Valid() && c.async
    requires var s := Run(c, Start(rows, now), acts);
             i < |s.agents| && s.agents[i].job.Webhook? && !s.agents[i].job.read
    ensures var s := Run(c, Start(rows, now), acts);
            var a := s.agents[i];
            && (forall k :: 0 <= k < |s.world.calls| ==> s.world.calls[k].author != i)
            && !RowBy(s.world, i, a.job.event)
            && (QueuedBy(s.world, i, a.job.event) <==> a.pc == Ended(End.Queued))
            && (a.pc.Ended? && a.lockedAt.Some? ==>
                  a.pc.end == if c.kafka && !Occurs(c, Start(rows, now), acts, SendThrows(i)) then End.Queued
                              else Abandoned(false))
  {
    var s := Run(c, Start(rows, now), acts);
    RunTellsHandler(c, Start(rows, now), acts, i, false);
    OccursAlike(c, Start(rows, now), acts, i, Happens(c, i), SendThrows(i));
    RunKeepsInv(c, Start(rows, now), acts);
    assert KeyState(c, s.agents[i]);
  }

  /** A read, in every run: having its key it is answered unless the read failed, and it leaves nothing behind. */
  lemma ReadIsAnsweredIff(c: Config, rows: Rows, now: int, acts: seq<Action>, i: nat)
    requires c.Valid()
    requires var s := Run(c, Start(rows, now), acts);
             i < |s.agents| && s.agents[i].job.Webhook? && s.agents[i].job.read
    ensures var s := Run(c, Start(rows, now), acts);
            && !RowBy(s.world, i, s.agents[i].job.event) && !QueuedBy(s.world, i, s.agents[i].job.event)
            && (s.agents[i].pc.Ended? && s.agents[i].lockedAt.Some? ==>
                  s.agents[i].pc.end == if Occurs(c, Start(rows, now), acts, ReadFails(i)) then Abandoned(false)
                                        else Answered)
  {
    var s := Run(c, Start(rows, now), acts);
    RunTellsHandler(c, Start(rows, now), acts, i, false);
    OccursAlike(c, Start(rows, now), acts, i, Happens(c, i), ReadFails(i));
    RunKeepsInv(c, Start(rows, now), acts);
    assert KeyState(c, s.agents[i]);
  }

  // ----- Who announces its outcome --------------------------------------------------------

  predicate MayAnnounce(c: Config, a: Agent) {
    a.pc.Announcing? ==> match a.job
                         case Webhook(_, _, read) => c.kafka && !c.async && !read
                         case OperatorRetry(_, _) => false
                         case _ => true
  }

  predicate Dispatched(c: Config, a: Agent) {
    MayAnnounce(c, a) && (a.job.Webhook? && AtProcessingPc(a) ==> !c.async && !a.job.read)
  }

  lemma MoveKeepsDispatched(c: Config, w: World, id: nat, a: Agent, ch: Choice)
    requires c.Valid() && AgentOk(c, w, a) && Dispatched(c, a)
    ensures Dispatched(c, MoveAgent(c, w, id, a, ch).1)
  {
    hide SetNx, Live;
  }

  predicate AllDispatched(c: Config, s: State) {
    forall i :: 0 <= i < |s.agents| ==> Dispatched(c, s.agents[i])
  }

  lemma StepKeepsDispatched(c: Config, s: State, act: Action)
    requires c.Valid() && WellFormed(c, s) && AllDispatched(c, s)
    ensures AllDispatched(c, Step(c, s, act))
  {
    hide MoveAgent;
    if act.Move? && act.id < |s.agents| {
      MoveKeepsDispatched(c, s.world, act.id, s.agents[act.id], act.choice);
    }
  }

  lemma {:induction false} RunKeepsDispatched(c: Config, s: State, acts: seq<Action>)
    requires c.Valid() && WellFormed(c, s) && AllDispatched(c, s)
    ensures AllDispatched(c, Run(c, s, acts))
    decreases |acts|
  {
    hide Step, AllDispatched;
    if acts == [] {
    } else {
      StepGrows(c, s, acts[0]);
      StepKeepsDispatched(c, s, acts[0]);
      RunKeepsDispatched(c, Step(c, s, acts[0]), acts[1..]);
    }
  }

  /**
   * In every run, a webhook sends a status message only as a write processed here while
   * there is a queue, and an operator's retry never does: without the queue, no failing
   * message can release a key.
   */
  lemma OnlyQueuesAnnounce(c: Config, rows: Rows, now: int, acts: seq<Action>, i: nat)
    requires c.Valid() && i < |Run(c, Start(rows, now), acts).agents|
    requires Run(c, Start(rows, now), acts).agents[i].pc.Announcing?
    ensures var job := Run(c, Start(rows, now), acts).agents[i].job;
            && !job.OperatorRetry?
            && (job.Webhook? ==> c.kafka && !c.async && !job.read)
  {
    RunKeepsDispatched(c, Start(rows, now), acts);
    assert MayAnnounce(c, Run(c, Start(rows, now), acts).agents[i]);
  }
}
