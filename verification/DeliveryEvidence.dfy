/** Over every run of the protocol: what a finished delivery leaves behind. */
module DeliveryEvidence {
  import opened Common
  import opened Events
  import opened Idempotency
  import opened Dlq
  import opened Delivery

  /** The connector answered this very agent with success. */
  predicate SuccessBy(w: World, id: nat, e: Event) {
    Call(id, e, Succeeded) in w.calls
  }

  /** A dead letter with the agent's event, operation, target and payload, created by it. */
  predicate RowBy(w: World, id: nat, e: Event) {
    exists k :: 0 <= k < |w.dead| && w.dead[k].author == id && w.dead[k].item.event == e
  }

  predicate QueuedBy(w: World, id: nat, e: Event) {
    Queued.Queued(id, e) in w.inbox
  }

  predicate Evidence(w: World, id: nat, a: Agent) {
    var e := a.job.event;
    match a.pc
    case Counting => RowBy(w, id, e)
    case Announcing(Success) => SuccessBy(w, id, e)
    case Announcing(Durable) => RowBy(w, id, e)
    case Announcing(Unaccepted(row)) => row && !a.job.IsRetry() ==> RowBy(w, id, e)
    case Resolving => SuccessBy(w, id, e)
    case CountingResolved => SuccessBy(w, id, e)
    case Ended(Delivered) => SuccessBy(w, id, e)
    case Ended(DeadLettered) => RowBy(w, id, e)
    case Ended(Queued) => QueuedBy(w, id, e)
    case Ended(Abandoned(row)) => row ==> RowBy(w, id, e)
    case _ => true
  }

  /** Evidence never goes away: the log of calls, the topic and the rows only grow. */
  lemma EvidenceStays(w: World, v: World, id: nat, a: Agent)
    requires Grows(w, v) && Evidence(w, id, a)
    ensures Evidence(v, id, a)
  {
    if RowBy(w, id, a.job.event) {
      var k :| 0 <= k < |w.dead| && w.dead[k].author == id && w.dead[k].item.event == a.job.event;
      assert v.dead[k].author == id;
    }
  }

  lemma MoveKeepsEvidence(c: Config, w: World, id: nat, a: Agent, ch: Choice)
    requires c.Valid() && AgentOk(c, w, a) && Evidence(w, id, a)
    ensures var (v, b) := MoveAgent(c, w, id, a, ch); Evidence(v, id, b)
  {
    if AtWebhookPc(a) {
      WebhookMoveKeepsEvidence(c, w, id, a, ch);
    } else if AtProcessingPc(a) {
      ProcessingMoveKeepsEvidence(c, w, id, a, ch);
    } else if a.pc.Ended? {
    } else {
      RetryMoveKeepsEvidence(c, w, id, a, ch);
    }
  }

  lemma WebhookMoveKeepsEvidence(c: Config, w: World, id: nat, a: Agent, ch: Choice)
    requires c.Valid() && AgentOk(c, w, a) && Evidence(w, id, a) && AtWebhookPc(a)
    ensures var (v, b) := MoveAgent(c, w, id, a, ch); Evidence(v, id, b)
  {
    hide MoveProcessing, MoveRetry, SetNx, Live;
    var v := MoveAgent(c, w, id, a, ch).0;
    if a.pc.Enqueueing? && ch.ok {
      assert v.inbox[|w.inbox|] == Queued.Queued(id, a.job.event);
    }
  }

  lemma ProcessingMoveKeepsEvidence(c: Config, w: World, id: nat, a: Agent, ch: Choice)
    requires c.Valid() && AgentOk(c, w, a) && Evidence(w, id, a) && AtProcessingPc(a)
    ensures var (v, b) := MoveAgent(c, w, id, a, ch); Evidence(v, id, b)
  {
    hide MoveWebhook, MoveRetry;
    var v := MoveAgent(c, w, id, a, ch).0;
    if a.pc.Creating? && ch.ok {
      assert v.dead[|w.dead|].author == id;
    }
    if a.pc.Calling? && ch.outcome == Succeeded {
      assert v.calls[|w.calls|] == Call(id, a.job.event, Succeeded);
    }
  }

  lemma RetryMoveKeepsEvidence(c: Config, w: World, id: nat, a: Agent, ch: Choice)
    requires c.Valid() && AgentOk(c, w, a) && Evidence(w, id, a)
    requires !AtWebhookPc(a) && !AtProcessingPc(a) && !a.pc.Ended?
    ensures var (v, b) := MoveAgent(c, w, id, a, ch); Evidence(v, id, b)
  {
    hide MoveWebhook, MoveProcessing;
  }

  /** Bookkeeping of a webhook's key: taken once, then either kept whole or released whole. */
  predicate KeyState(c: Config, a: Agent)
    requires c.Valid() && (a.job.Webhook? ==> a.job.node < |c.nodes|)
  {
    a.job.Webhook? ==>
      var keys := KeySet(c, a.job);
      match a.pc
      case Checking(_) => a.lockedAt.None? && a.released == {}
      case Locking => a.lockedAt.None? && a.released == {}
      case Releasing(left) => a.lockedAt.Some? && left != {} && left <= keys && a.released <= keys - left
      case Ended(Rejected(_)) => a.lockedAt.None? && a.released == {}
      case Ended(Failed) => a.lockedAt.None? && a.released == {}
      case Ended(Abandoned(_)) => a.lockedAt.Some? && a.released <= keys
      case Ended(NotClaimed) => false
      case Ended(HandedOver) => false
      case Ended(Requeued) => false
      case Ended(Stranded) => false
      case Ended(Answered) => a.job.read && a.lockedAt.Some? && a.released == {}
      case Reading => a.job.read && a.lockedAt.Some? && a.released == {}
      case _ => a.lockedAt.Some? && a.released == {}
  }

  lemma MoveKeepsKeyState(c: Config, w: World, id: nat, a: Agent, ch: Choice)
    requires c.Valid() && AgentOk(c, w, a) && KeyState(c, a)
    ensures KeyState(c, MoveAgent(c, w, id, a, ch).1)
  {
    if a.pc.Releasing? {
      DeletionKeepsKeyState(c, w, id, a, ch);
    } else if a.job.Webhook? && AtWebhookPc(a) {
      WebhookMoveKeepsKeyState(c, w, id, a, ch);
    } else if a.job.Webhook? {
      ProcessingMoveKeepsKeyState(c, w, id, a, ch);
    } else {
      MoveGrows(c, w, id, a, ch);
    }
  }

  lemma DeletionKeepsKeyState(c: Config, w: World, id: nat, a: Agent, ch: Choice)
    requires c.Valid() && AgentOk(c, w, a) && KeyState(c, a) && a.pc.Releasing?
    ensures KeyState(c, MoveAgent(c, w, id, a, ch).1)
  {
  }

  lemma WebhookMoveKeepsKeyState(c: Config, w: World, id: nat, a: Agent, ch: Choice)
    requires c.Valid() && AgentOk(c, w, a) && KeyState(c, a)
    requires a.job.Webhook? && AtWebhookPc(a) && !a.pc.Releasing?
    ensures KeyState(c, MoveAgent(c, w, id, a, ch).1)
  {
  }

  lemma ProcessingMoveKeepsKeyState(c: Config, w: World, id: nat, a: Agent, ch: Choice)
    requires c.Valid() && AgentOk(c, w, a) && KeyState(c, a) && a.job.Webhook? && !AtWebhookPc(a)
    ensures KeyState(c, MoveAgent(c, w, id, a, ch).1)
  {
  }

  predicate SomeSuccess(w: World, e: Event) {
    exists i :: 0 <= i < |w.calls| && w.calls[i].event == e && w.calls[i].outcome == Succeeded
  }

  /** An item is marked resolved only after a connector accepted its event. */
  predicate ResolvedIsDelivered(w: World) {
    forall k :: 0 <= k < |w.dead| && w.dead[k].item.status == Resolved ==> SomeSuccess(w, w.dead[k].item.event)
  }

  lemma SuccessStays(w: World, v: World, e: Event)
    requires w.calls <= v.calls && SomeSuccess(w, e)
    ensures SomeSuccess(v, e)
  {
    var i :| 0 <= i < |w.calls| && w.calls[i].event == e && w.calls[i].outcome == Succeeded;
    assert v.calls[i] == w.calls[i];
  }

  lemma MoveKeepsResolved(c: Config, w: World, id: nat, a: Agent, ch: Choice)
    requires c.Valid() && AgentOk(c, w, a) && Evidence(w, id, a) && ResolvedIsDelivered(w)
    ensures ResolvedIsDelivered(MoveAgent(c, w, id, a, ch).0)
  {
    var v := MoveAgent(c, w, id, a, ch).0;
    MoveGrows(c, w, id, a, ch);
    forall k | 0 <= k < |v.dead| && v.dead[k].item.status == Resolved
      ensures SomeSuccess(v, v.dead[k].item.event)
    {
      if k < |w.dead| && w.dead[k].item.status == Resolved {
        SuccessStays(w, v, w.dead[k].item.event);
      } else {
        assert a.pc.Resolving? && k == a.job.item;
        var i :| 0 <= i < |w.calls| && w.calls[i] == Call(id, a.job.event, Succeeded);
        assert v.calls[i] == w.calls[i];
      }
    }
  }

  // ----- Whole runs ---------------------------------------------------------------

  ghost predicate Inv(c: Config, s: State) {
    && c.Valid() && WellFormed(c, s)
    && ResolvedIsDelivered(s.world)
    && forall i :: 0 <= i < |s.agents| ==> Evidence(s.world, i, s.agents[i]) && KeyState(c, s.agents[i])
  }

  lemma StepKeepsInv(c: Config, s: State, act: Action)
    requires Inv(c, s)
    ensures Inv(c, Step(c, s, act))
  {
    hide MoveAgent;
    var t := Step(c, s, act);
    StepGrows(c, s, act);
    if act.Move? && act.id < |s.agents| {
      var a := s.agents[act.id];
      MoveKeepsEvidence(c, s.world, act.id, a, act.choice);
      MoveKeepsKeyState(c, s.world, act.id, a, act.choice);
      MoveKeepsResolved(c, s.world, act.id, a, act.choice);
    }
    forall i | 0 <= i < |t.agents|
      ensures Evidence(t.world, i, t.agents[i]) && KeyState(c, t.agents[i])
    {
      if i < |s.agents| && t.agents[i] == s.agents[i] {
        EvidenceStays(s.world, t.world, i, s.agents[i]);
      }
    }
    if !act.Move? {
      forall k | 0 <= k < |t.world.dead| && t.world.dead[k].item.status == Resolved
        ensures SomeSuccess(t.world, t.world.dead[k].item.event)
      {
        assert s.world.dead[k].item.status == Resolved;
      }
    }
  }

  lemma {:induction false} RunKeepsInv(c: Config, s: State, acts: seq<Action>)
    requires Inv(c, s)
    ensures Inv(c, Run(c, s, acts))
    decreases |acts|
  {
    if acts == [] {
    } else {
      StepKeepsInv(c, s, acts[0]);
      RunKeepsInv(c, Step(c, s, acts[0]), acts[1..]);
    }
  }

  // ----- Deletions that throw ---------------------------------------------------------

  /** The step in which handler `i` tries to delete `k` and the store swallows an error. */
  ghost function FailedDeletion(i: nat, k: StoredKey): (State, Action) -> bool {
    (s: State, act: Action) =>
      && act.Move? && act.id == i && i < |s.agents| && s.agents[i].pc.Releasing?
      && act.choice.key == k && k in s.agents[i].pc.left && !act.choice.ok
  }

  /** `failed` tells whether the deletion of `k` has thrown so far. */
  predicate DeletionTold(c: Config, a: Agent, k: StoredKey, failed: bool)
    requires c.Valid() && (a.job.Webhook? ==> a.job.node < |c.nodes|)
  {
    a.job.Webhook? && k in KeySet(c, a.job) ==>
      match a.pc
      case Releasing(left) => if k in left then !failed && k !in a.released else failed <==> k !in a.released
      case Ended(Abandoned(_)) => failed <==> k !in a.released
      case Ended(_) => !failed
      case _ => !failed && a.released == {}
  }

  lemma MoveTellsDeletion(c: Config, s: State, id: nat, ch: Choice, k: StoredKey, failed: bool)
    requires Inv(c, s) && id < |s.agents| && DeletionTold(c, s.agents[id], k, failed)
    ensures var b := MoveAgent(c, s.world, id, s.agents[id], ch).1;
            b.job == s.agents[id].job
            && DeletionTold(c, b, k, failed || FailedDeletion(id, k)(s, Move(id, ch)))
  {
    var a := s.agents[id];
    assert KeyState(c, a);
    MoveGrows(c, s.world, id, a, ch);
    if a.job.Webhook? {
      if a.pc.Releasing? {
        DeletionTells(c, s.world, id, a, ch, k, failed);
      } else {
        NoDeletionTells(c, s.world, id, a, ch, k, failed);
      }
    }
  }

  lemma DeletionTells(c: Config, w: World, id: nat, a: Agent, ch: Choice, k: StoredKey, failed: bool)
    requires c.Valid() && AgentOk(c, w, a) && a.job.Webhook? && a.pc.Releasing? && DeletionTold(c, a, k, failed)
    ensures var throws := ch.key == k && k in a.pc.left && !ch.ok;
            DeletionTold(c, MoveAgent(c, w, id, a, ch).1, k, failed || throws)
  {
    if ch.key in a.pc.left {
      assert k in a.pc.left && k != ch.key ==> k in a.pc.left - {ch.key};
    }
  }

  lemma NoDeletionTells(c: Config, w: World, id: nat, a: Agent, ch: Choice, k: StoredKey, failed: bool)
    requires c.Valid() && AgentOk(c, w, a) && a.job.Webhook? && !a.pc.Releasing? && DeletionTold(c, a, k, failed)
    ensures DeletionTold(c, MoveAgent(c, w, id, a, ch).1, k, failed)
  {
    if AtWebhookPc(a) {
      WebhookMoveDeletesNothing(c, w, id, a, ch, k, failed);
    } else {
      ProcessingMoveDeletesNothing(c, w, id, a, ch, k, failed);
    }
  }

  lemma WebhookMoveDeletesNothing(c: Config, w: World, id: nat, a: Agent, ch: Choice, k: StoredKey, failed: bool)
    requires c.Valid() && AgentOk(c, w, a) && a.job.Webhook? && AtWebhookPc(a) && !a.pc.Releasing?
    requires DeletionTold(c, a, k, failed)
    ensures DeletionTold(c, MoveAgent(c, w, id, a, ch).1, k, failed)
  {
    hide MoveProcessing, MoveRetry, Live, SetNx;
  }

  lemma ProcessingMoveDeletesNothing(c: Config, w: World, id: nat, a: Agent, ch: Choice, k: StoredKey, failed: bool)
    requires c.Valid() && AgentOk(c, w, a) && a.job.Webhook? && !AtWebhookPc(a) && DeletionTold(c, a, k, failed)
    ensures DeletionTold(c, MoveAgent(c, w, id, a, ch).1, k, failed)
  {
    hide MoveWebhook, MoveRetry;
  }

  lemma StepTellsDeletion(c: Config, s: State, act: Action, i: nat, k: StoredKey, failed: bool)
    requires Inv(c, s)
    requires if i < |s.agents| then DeletionTold(c, s.agents[i], k, failed) else !failed
    ensures WellFormed(c, Step(c, s, act))
    ensures var t := Step(c, s, act);
            var throws := FailedDeletion(i, k)(s, act);
            if i < |t.agents| then DeletionTold(c, t.agents[i], k, failed || throws) else !(failed || throws)
  {
    hide MoveAgent;
    StepGrows(c, s, act);
    if i < |s.agents| && act.Move? && act.id == i {
      MoveTellsDeletion(c, s, i, act.choice, k, failed);
    }
  }

  lemma {:induction false} RunTellsDeletion(c: Config, s: State, acts: seq<Action>, i: nat, k: StoredKey, failed: bool)
    requires Inv(c, s)
    requires if i < |s.agents| then DeletionTold(c, s.agents[i], k, failed) else !failed
    ensures var t := Run(c, s, acts);
            i < |t.agents| ==> DeletionTold(c, t.agents[i], k, failed || Occurs(c, s, acts, FailedDeletion(i, k)))
    decreases |acts|
  {
    hide Step, FailedDeletion, KeyState, Evidence, ResolvedIsDelivered, DeletionTold;
    if acts == [] {
    } else {
      StepKeepsInv(c, s, acts[0]);
      StepTellsDeletion(c, s, acts[0], i, k, failed);
      RunTellsDeletion(c, Step(c, s, acts[0]), acts[1..], i, k, failed || FailedDeletion(i, k)(s, acts[0]));
    }
  }

  /**
   * No accepted write is lost. In every run, a write handler that took its key and
   * ended either kept the key and left a connector success, a queued message or a
   * dead letter of its own, or it gave the key up: then it deleted every candidate
   * text but those whose deletion threw.
   */
  lemma NoAcceptedWriteIsLost(c: Config, rows: Rows, now: int, acts: seq<Action>, i: nat)
    requires c.Valid()
    requires var s := Run(c, Start(rows, now), acts);
             i < |s.agents| && s.agents[i].job.Webhook? && !s.agents[i].job.read
             && s.agents[i].pc.Ended? && s.agents[i].lockedAt.Some?
    ensures var s := Run(c, Start(rows, now), acts);
            var a := s.agents[i];
            && a.job.node < |c.nodes|
            && if a.pc.end.Abandoned? then
                 && a.released <= KeySet(c, a.job)
                 && forall k :: k in KeySet(c, a.job) ==>
                                  (k !in a.released <==> Occurs(c, Start(rows, now), acts, FailedDeletion(i, k)))
               else
                 && a.released == {}
                 && (|| (a.pc.end == Delivered && SuccessBy(s.world, i, a.job.event))
                     || (a.pc.end == DeadLettered && RowBy(s.world, i, a.job.event))
                     || (a.pc.end == End.Queued && QueuedBy(s.world, i, a.job.event)))
  {
    RunKeepsInv(c, Start(rows, now), acts);
    var s := Run(c, Start(rows, now), acts);
    var a := s.agents[i];
    assert Evidence(s.world, i, a) && KeyState(c, a);
    forall k | a.pc.end.Abandoned? && k in KeySet(c, a.job)
      ensures k !in a.released <==> Occurs(c, Start(rows, now), acts, FailedDeletion(i, k))
    {
      RunTellsDeletion(c, Start(rows, now), acts, i, k, false);
    }
  }

  /** In every run, an item marked resolved has been accepted by a connector. */
  lemma ResolvedItemsWereDelivered(c: Config, rows: Rows, now: int, acts: seq<Action>)
    requires c.Valid()
    ensures ResolvedIsDelivered(Run(c, Start(rows, now), acts).world)
  {
    RunKeepsInv(c, Start(rows, now), acts);
  }
}
