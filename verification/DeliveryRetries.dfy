/**
 * What becomes of a retry of a dead letter: when it claims nothing, when it strands,
 * when it hands over, and when it counts as delivered.
 */
module DeliveryRetries {
  import opened Common
  import opened Events
  import opened Idempotency
  import opened Dlq
  import opened Delivery
  import opened DeliveryEvidence
  import opened DeliveryRelease

  /** The claim of retry `i` throws, or finds the item finished or held by a lease that has not run out. */
  ghost function ClaimFails(i: nat): (State, Action) -> bool {
    (s: State, act: Action) =>
      && act.Move? && act.id == i && i < |s.agents| && s.agents[i].pc.Claiming? && s.agents[i].job.OperatorRetry?
      && s.agents[i].job.item < |s.world.dead|
      && var item := s.world.dead[s.agents[i].job.item].item;
         || !act.choice.ok || item.status == Skipped || item.status == Resolved
         || (item.status == Retrying && item.lockedAt.Some?
             && s.world.now <= item.lockedAt.value + act.choice.leaseMs)
  }

  /** Retry `i` has claimed its item, and the count after it or the send to the queue throws. */
  ghost function StartFails(i: nat): (State, Action) -> bool {
    (s: State, act: Action) =>
      && act.Move? && act.id == i && i < |s.agents| && !act.choice.ok
      && (s.agents[i].pc.CountingClaim? || s.agents[i].pc.Requeueing?)
  }

  /** The connector accepted retry `i`, and recording that or counting afterwards throws. */
  ghost function RecordFails(i: nat): (State, Action) -> bool {
    (s: State, act: Action) =>
      && act.Move? && act.id == i && i < |s.agents| && !act.choice.ok
      && (s.agents[i].pc.Resolving? || s.agents[i].pc.CountingResolved?)
  }

  predicate SentBy(w: World, id: nat, job: Job)
    requires job.OperatorRetry?
  {
    RetryMessage(id, job.item, job.event) in w.retries
  }

  /** How far a retry is, by what has failed so far. */
  predicate RetryTold(c: Config, w: World, id: nat, a: Agent, claim: bool, start: bool, record: bool) {
    a.job.IsRetry() ==>
      var success := SuccessBy(w, id, a.job.event);
      && (claim <==> a.pc == Ended(NotClaimed))
      && (start <==> a.pc == Ended(Stranded))
      && (record ==> success)
      && match a.pc
         case Claiming => !success && !record
         case CountingClaim => !success && !record
         case Requeueing => !success && !record && c.kafka
         case Looking => !success && !record && Works(c, a)
         case Calling(_, _) => !success && !record && Works(c, a)
         case Resolving => success && !record && Works(c, a)
         case CountingResolved => success && !record && Works(c, a)
         case MarkingFailed => (success <==> record) && Works(c, a)
         case Announcing(Success) => success && !record && Works(c, a)
         case Announcing(_) => (success <==> record) && Works(c, a)
         case Ended(Delivered) => success && !record && Works(c, a)
         case Ended(Requeued) => (success <==> record) && Works(c, a)
         case Ended(HandedOver) => !success && !record && c.kafka && a.job.OperatorRetry?
         case Ended(NotClaimed) => !success && !record && a.job.OperatorRetry?
         case Ended(Stranded) => !success && !record && a.job.OperatorRetry?
         case _ => false
  }

  /** Only a worker repeats a delivery when there is a queue. */
  predicate Works(c: Config, a: Agent) {
    a.job.RetryWork? || !c.kafka
  }

  predicate HandOverTold(w: World, id: nat, a: Agent) {
    a.job.OperatorRetry? ==> (SentBy(w, id, a.job) <==> a.pc == Ended(HandedOver))
  }

  lemma CallMoveTellsRetry(c: Config, w: World, id: nat, a: Agent, ch: Choice, claim: bool, start: bool, record: bool)
    requires c.Valid() && AgentOk(c, w, a) && RetryTold(c, w, id, a, claim, start, record)
    requires a.job.IsRetry() && AtProcessingPc(a)
    ensures var (v, b) := MoveAgent(c, w, id, a, ch); b.job == a.job && RetryTold(c, v, id, b, claim, start, record)
  {
    hide MoveWebhook, MoveRetry;
    var v := MoveAgent(c, w, id, a, ch).0;
    if a.pc.Calling? {
      assert v.calls[|w.calls|] == Call(id, a.job.event, ch.outcome);
      assert SuccessBy(v, id, a.job.event) <==> ch.outcome == Succeeded || SuccessBy(w, id, a.job.event);
    } else {
      assert v.calls == w.calls;
    }
  }

  lemma OwnMoveTellsRetry(c: Config, w: World, id: nat, a: Agent, ch: Choice, claim: bool, start: bool, record: bool)
    requires c.Valid() && AgentOk(c, w, a) && RetryTold(c, w, id, a, claim, start, record)
    requires a.job.IsRetry() && !AtProcessingPc(a) && !AtWebhookPc(a) && !a.pc.Ended?
    ensures var (v, b) := MoveAgent(c, w, id, a, ch);
            var item := w.dead[a.job.item].item;
            var claimed := ch.ok && (item.status == Pending
                                     || (item.status == Retrying && (item.lockedAt.None?
                                                                     || item.lockedAt.value + ch.leaseMs < w.now)));
            && b.job == a.job
            && RetryTold(c, v, id, b, claim || (a.pc.Claiming? && !claimed),
                         start || (!ch.ok && (a.pc.CountingClaim? || a.pc.Requeueing?)),
                         record || (!ch.ok && (a.pc.Resolving? || a.pc.CountingResolved?)))
  {
    hide MoveWebhook, MoveProcessing;
    assert MoveAgent(c, w, id, a, ch).0.calls == w.calls;
  }

  lemma MoveTellsHandOver(c: Config, w: World, id: nat, a: Agent, ch: Choice)
    requires c.Valid() && AgentOk(c, w, a) && HandOverTold(w, id, a)
    ensures var (v, b) := MoveAgent(c, w, id, a, ch); HandOverTold(v, id, b)
  {
    hide MoveWebhook, MoveProcessing;
    var v := MoveAgent(c, w, id, a, ch).0;
    if a.pc.Requeueing? && ch.ok {
      assert v.retries[|w.retries|] == RetryMessage(id, a.job.item, a.job.event);
      assert MoveAgent(c, w, id, a, ch).1.pc == Ended(HandedOver);
    } else {
      OnlyRequeueingSends(c, w, id, a, ch);
      OnlyRequeueingHandsOver(c, w, id, a, ch);
    }
  }

  lemma OnlyRequeueingHandsOver(c: Config, w: World, id: nat, a: Agent, ch: Choice)
    requires c.Valid() && AgentOk(c, w, a) && !(a.pc.Requeueing? && ch.ok)
    ensures var b := MoveAgent(c, w, id, a, ch).1;
            b.job == a.job && (b.pc == Ended(HandedOver) <==> a.pc == Ended(HandedOver))
  {
    hide SetNx, Live;
  }

  lemma MoveRetriesGrow(c: Config, w: World, id: nat, a: Agent, ch: Choice)
    requires c.Valid() && AgentOk(c, w, a)
    ensures var v := MoveAgent(c, w, id, a, ch).0;
            w.retries <= v.retries && forall m :: m in v.retries ==> m in w.retries || m.claimant == id
  {
    if !(a.pc.Requeueing? && ch.ok) {
      OnlyRequeueingSends(c, w, id, a, ch);
    }
  }

  lemma OnlyRequeueingSends(c: Config, w: World, id: nat, a: Agent, ch: Choice)
    requires c.Valid() && AgentOk(c, w, a) && !(a.pc.Requeueing? && ch.ok)
    ensures MoveAgent(c, w, id, a, ch).0.retries == w.retries
  {
  }

  /** Retry `i`, present or still to come, stands where the failures so far say. */
  ghost predicate RetryKnown(c: Config, s: State, i: nat, claim: bool, start: bool, record: bool) {
    && AuthorsExist(s) && (forall m :: m in s.world.retries ==> m.claimant < |s.agents|)
    && if i < |s.agents| then
         RetryTold(c, s.world, i, s.agents[i], claim, start, record) && HandOverTold(s.world, i, s.agents[i])
       else !claim && !start && !record
  }

  lemma OthersKeepRetry(c: Config, w: World, v: World, id: nat, i: nat, a: Agent, claim: bool, start: bool,
                        record: bool)
    requires SignedBy(w, v, id) && i != id && Grows(w, v)
    requires w.retries <= v.retries && forall m :: m in v.retries ==> m in w.retries || m.claimant == id
    requires RetryTold(c, w, i, a, claim, start, record) && HandOverTold(w, i, a)
    ensures RetryTold(c, v, i, a, claim, start, record) && HandOverTold(v, i, a)
  {
    OthersKeepEffect(w, v, id, i, a.job.event);
    if a.job.OperatorRetry? && SentBy(w, i, a.job) {
      var k :| 0 <= k < |w.retries| && w.retries[k] == RetryMessage(i, a.job.item, a.job.event);
      assert v.retries[k] == w.retries[k];
    }
  }

  lemma MoveTellsRetry(c: Config, s: State, id: nat, ch: Choice, claim: bool, start: bool, record: bool)
    requires c.Valid() && WellFormed(c, s) && id < |s.agents|
    requires RetryTold(c, s.world, id, s.agents[id], claim, start, record)
    ensures var (v, b) := MoveAgent(c, s.world, id, s.agents[id], ch);
            var act := Move(id, ch);
            && b.job == s.agents[id].job
            && RetryTold(c, v, id, b, claim || ClaimFails(id)(s, act), start || StartFails(id)(s, act),
                         record || RecordFails(id)(s, act))
  {
    hide MoveAgent, RetryTold;
    var a := s.agents[id];
    MoveGrows(c, s.world, id, a, ch);
    if !a.job.IsRetry() {
      NotARetry(c, MoveAgent(c, s.world, id, a, ch), id, claim, start, record);
      NotARetry(c, MoveAgent(c, s.world, id, a, ch), id, claim || ClaimFails(id)(s, Move(id, ch)),
                start || StartFails(id)(s, Move(id, ch)), record || RecordFails(id)(s, Move(id, ch)));
    } else if AtProcessingPc(a) {
      CallMoveTellsRetry(c, s.world, id, a, ch, claim, start, record);
    } else if a.pc.Ended? {
      EndedStays(c, s.world, id, a, ch);
    } else {
      OwnMoveTellsRetry(c, s.world, id, a, ch, claim, start, record);
    }
  }

  lemma NotARetry(c: Config, moved: (World, Agent), id: nat, claim: bool, start: bool, record: bool)
    requires !moved.1.job.IsRetry()
    ensures RetryTold(c, moved.0, id, moved.1, claim, start, record)
  {
  }

  lemma EndedStays(c: Config, w: World, id: nat, a: Agent, ch: Choice)
    requires c.Valid() && AgentOk(c, w, a) && a.pc.Ended?
    ensures MoveAgent(c, w, id, a, ch) == (w, a)
  {
  }

  lemma MoveStepTellsRetry(c: Config, s: State, id: nat, ch: Choice, i: nat, claim: bool, start: bool, record: bool)
    requires c.Valid() && WellFormed(c, s) && RetryKnown(c, s, i, claim, start, record) && id < |s.agents|
    ensures var act := Move(id, ch);
            RetryKnown(c, Step(c, s, act), i, claim || ClaimFails(i)(s, act), start || StartFails(i)(s, act),
                       record || RecordFails(i)(s, act))
  {
    hide MoveAgent, RetryTold, HandOverTold;
    var v := Step(c, s, Move(id, ch)).world;
    MoveGrows(c, s.world, id, s.agents[id], ch);
    MoveIsSigned(c, s.world, id, s.agents[id], ch);
    MoveRetriesGrow(c, s.world, id, s.agents[id], ch);
    if id == i {
      MoveTellsRetry(c, s, i, ch, claim, start, record);
      MoveTellsHandOver(c, s.world, i, s.agents[i], ch);
    } else if i < |s.agents| {
      OthersKeepRetry(c, s.world, v, id, i, s.agents[i], claim, start, record);
    }
  }

  /** A new retry has done nothing yet. */
  lemma NewcomerTold(c: Config, s: State, act: Action, i: nat)
    requires c.Valid() && WellFormed(c, s) && AuthorsExist(s) && i == |s.agents| < |Step(c, s, act).agents|
    requires !(act.Move? && act.id < |s.agents|) && forall m :: m in s.world.retries ==> m.claimant < |s.agents|
    ensures var t := Step(c, s, act);
            RetryTold(c, t.world, i, t.agents[i], false, false, false) && HandOverTold(t.world, i, t.agents[i])
  {
  }

  lemma OtherStepTellsRetry(c: Config, s: State, act: Action, i: nat, claim: bool, start: bool, record: bool)
    requires c.Valid() && WellFormed(c, s) && RetryKnown(c, s, i, claim, start, record)
    requires !(act.Move? && act.id < |s.agents|)
    ensures RetryKnown(c, Step(c, s, act), i, claim, start, record)
  {
    hide Step, RetryTold, HandOverTold, SignedBy, Grows, AuthorsExist, WellFormed;
    var t := Step(c, s, act);
    OtherStepAdds(c, s, act);
    if i < |s.agents| {
      OthersKeepRetry(c, s.world, t.world, |s.agents|, i, s.agents[i], claim, start, record);
    } else if i < |t.agents| {
      NewcomerTold(c, s, act, i);
    }
  }

  lemma {:induction false} RunTellsRetry(c: Config, s: State, acts: seq<Action>, i: nat, claim: bool, start: bool,
                                         record: bool)
    requires c.Valid() && WellFormed(c, s) && RetryKnown(c, s, i, claim, start, record)
    ensures RetryKnown(c, Run(c, s, acts), i, claim || Occurs(c, s, acts, ClaimFails(i)),
                       start || Occurs(c, s, acts, StartFails(i)), record || Occurs(c, s, acts, RecordFails(i)))
    decreases |acts|
  {
    hide Step, RetryKnown;
    if acts == [] {
    } else {
      StepGrows(c, s, acts[0]);
      if acts[0].Move? && acts[0].id < |s.agents| {
        MoveStepTellsRetry(c, s, acts[0].id, acts[0].choice, i, claim, start, record);
      } else {
        OtherStepTellsRetry(c, s, acts[0], i, claim, start, record);
        OnlyMovesFail(s, acts[0], i);
      }
      RunTellsRetry(c, Step(c, s, acts[0]), acts[1..], i, claim || ClaimFails(i)(s, acts[0]),
                    start || StartFails(i)(s, acts[0]), record || RecordFails(i)(s, acts[0]));
    }
  }

  lemma OnlyMovesFail(s: State, act: Action, i: nat)
    requires !(act.Move? && act.id < |s.agents|)
    ensures !ClaimFails(i)(s, act) && !StartFails(i)(s, act) && !RecordFails(i)(s, act)
  {
  }

  /**
   * Every way a retry can end, in every run. An operator's retry ends unclaimed exactly
   * when its claim failed and stranded exactly when its start did, and otherwise hands
   * over exactly when there is a queue. A retry that repeated the delivery ends as
   * delivered exactly when the connector accepted it and that was recorded.
   */
  lemma RetryEndsIff(c: Config, rows: Rows, now: int, acts: seq<Action>, i: nat)
    requires c.Valid()
    requires var s := Run(c, Start(rows, now), acts);
             i < |s.agents| && s.agents[i].job.IsRetry() && s.agents[i].pc.Ended?
    ensures var s := Run(c, Start(rows, now), acts);
            var start := Start(rows, now);
            var job, success := s.agents[i].job, SuccessBy(s.world, i, s.agents[i].job.event);
            s.agents[i].pc.end ==
            if job.OperatorRetry? && Occurs(c, start, acts, ClaimFails(i)) then NotClaimed
            else if job.OperatorRetry? && Occurs(c, start, acts, StartFails(i)) then Stranded
            else if job.OperatorRetry? && c.kafka then HandedOver
            else if success && !Occurs(c, start, acts, RecordFails(i)) then Delivered
            else Requeued
  {
    RunTellsRetry(c, Start(rows, now), acts, i, false, false, false);
  }

  /** The message of an operator's retry is on the topic exactly when that retry handed over; then it called nobody. */
  lemma HandedOverIffSent(c: Config, rows: Rows, now: int, acts: seq<Action>, i: nat)
    requires c.Valid()
    requires var s := Run(c, Start(rows, now), acts); i < |s.agents| && s.agents[i].job.OperatorRetry?
    ensures var s := Run(c, Start(rows, now), acts);
            && (s.agents[i].pc == Ended(HandedOver) <==>
                RetryMessage(i, s.agents[i].job.item, s.agents[i].job.event) in s.world.retries)
            && (s.agents[i].pc == Ended(HandedOver) ==> !SuccessBy(s.world, i, s.agents[i].job.event))
  {
    RunTellsRetry(c, Start(rows, now), acts, i, false, false, false);
  }
}
