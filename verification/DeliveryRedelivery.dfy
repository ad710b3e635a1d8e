/** A retry message consumed twice: nothing fails, no time passes, and a delivered item is pending again. */
module DeliveryRedelivery {
  import opened Common
  import opened Events
  import opened Idempotency
  import opened Dlq
  import opened Delivery
  import opened DeliveryRelease

  /** No time passes, nobody skips, and no awaited call throws. */
  predicate Calm(act: Action) {
    !act.Tick? && !act.SkipItem? && (act.Move? ==> act.choice.ok)
  }

  /** `t` follows from `s` without any failure. */
  ghost predicate Leads(c: Config, s: State, t: State)
    requires c.Valid() && WellFormed(c, s)
  {
    exists acts :: (forall act :: act in acts ==> Calm(act)) && Run(c, s, acts) == t
  }

  lemma LeadsNowhere(c: Config, s: State)
    requires c.Valid() && WellFormed(c, s)
    ensures Leads(c, s, s)
  {
    assert Run(c, s, []) == s;
  }

  lemma LeadsOn(c: Config, s: State, t: State, act: Action)
    requires c.Valid() && WellFormed(c, s) && Leads(c, s, t) && WellFormed(c, t) && Calm(act)
    ensures WellFormed(c, Step(c, t, act)) && Leads(c, s, Step(c, t, act))
  {
    var acts :| (forall act :: act in acts ==> Calm(act)) && Run(c, s, acts) == t;
    RunOneMore(c, s, acts, act);
    assert forall a :: a in acts + [act] ==> Calm(a);
  }

  /** The step of agent `id` whose awaited call answers. */
  function Answered(id: nat, outcome: Outcome): Action {
    Move(id, Env(true, outcome))
  }

  predicate AtWithout(s: State, pc: Pc) {
    At(s, pc) && s.world.now == 0 && s.world.retries == [] && s.world.dead == []
  }

  lemma CallBegins(c: Config) returns (s: State)
    requires Single(c)
    ensures c.Valid() && WellFormed(c, s) && Leads(c, Start(map[], 0), s) && AtWithout(s, Calling(0, 1))
  {
    KeysOfJob(c);
    var start := Start(map[], 0);
    LeadsNowhere(c, start);
    LeadsOn(c, start, start, Receive(0, EVENT, false));
    var s1 := Step(c, start, Receive(0, EVENT, false));
    assert AtWithout(s1, Locking);
    LeadsOn(c, start, s1, Answered(0, Refused));
    var s2 := Step(c, s1, Answered(0, Refused));
    assert AtWithout(s2, Looking);
    LeadsOn(c, start, s2, Answered(0, Refused));
    s := Step(c, s2, Answered(0, Refused));
  }

  /** The webhook of `EVENT` is refused by the connector and becomes a dead letter. */
  lemma DeadLetterMade(c: Config) returns (s: State)
    requires Single(c)
    ensures c.Valid() && WellFormed(c, s) && Leads(c, Start(map[], 0), s)
    ensures |s.agents| == 1 && s.world.now == 0 && s.world.retries == []
    ensures s.world.dead == [DeadLetter(0, NewItem(EVENT, "failed", 1), 0)]
  {
    hide Leads, MoveWebhook, MoveRetry;
    var start := Start(map[], 0);
    var s3 := CallBegins(c);
    LeadsOn(c, start, s3, Answered(0, Refused));
    var s4 := Step(c, s3, Answered(0, Refused));
    assert AtWithout(s4, ReadingPolicy);
    LeadsOn(c, start, s4, Answered(0, Refused));
    var s5 := Step(c, s4, Answered(0, Refused));
    assert AtWithout(s5, Creating(1));
    LeadsOn(c, start, s5, Answered(0, Refused));
    s := Step(c, s5, Answered(0, Refused));
  }

  /** An operator claims the item and hands it over to the queue. */
  lemma HandedToQueue(c: Config, start: State, s: State) returns (t: State)
    requires Single(c) && c.kafka && c.Valid() && WellFormed(c, start) && WellFormed(c, s) && Leads(c, start, s)
    requires |s.agents| == 1 && s.world.now == 0 && s.world.retries == []
    requires s.world.dead == [DeadLetter(0, NewItem(EVENT, "failed", 1), 0)]
    ensures WellFormed(c, t) && Leads(c, start, t)
    ensures |t.agents| == 2 && t.world.retries == [RetryMessage(1, 0, EVENT)]
    ensures |t.world.dead| == 1
  {
    LeadsOn(c, start, s, Retry(0));
    var t1 := Step(c, s, Retry(0));
    LeadsOn(c, start, t1, Answered(1, Refused));
    var t2 := Step(c, t1, Answered(1, Refused));
    assert t2.agents[1].pc == CountingClaim;
    LeadsOn(c, start, t2, Answered(1, Refused));
    var t3 := Step(c, t2, Answered(1, Refused));
    assert t3.agents[1].pc == Requeueing;
    LeadsOn(c, start, t3, Answered(1, Refused));
    t := Step(c, t3, Answered(1, Refused));
  }

  /** A worker consumes the message and the connector answers. */
  lemma MessageHandled(c: Config, start: State, s: State, outcome: Outcome) returns (t: State)
    requires c.Valid() && WellFormed(c, start) && WellFormed(c, s) && Leads(c, start, s)
    requires s.world.retries == [RetryMessage(1, 0, EVENT)] && outcome != Threw
    ensures WellFormed(c, t) && Leads(c, start, t)
    ensures |t.agents| == |s.agents| + 1 && t.world.dead == s.world.dead && t.world.retries == s.world.retries
    ensures t.agents[|s.agents|].job == RetryWork(1, 0, EVENT)
    ensures t.agents[|s.agents|].pc == if outcome == Succeeded then Resolving else MarkingFailed
  {
    var id := |s.agents|;
    LeadsOn(c, start, s, ConsumeRetry(0));
    var t1 := Step(c, s, ConsumeRetry(0));
    assert t1.agents[id] == Agent(RetryWork(1, 0, EVENT), Looking, None, {});
    LeadsOn(c, start, t1, Answered(id, outcome));
    var t2 := Step(c, t1, Answered(id, outcome));
    assert t2.agents[id].pc == Calling(0, 1);
    LeadsOn(c, start, t2, Answered(id, outcome));
    t := Step(c, t2, Answered(id, outcome));
  }

  /**
   * From an empty store, without any failure, a run leads to a state whose item is
   * resolved, and on to one where the same item is pending: consuming the retry
   * message again is enough.
   */
  lemma RedeliveryReopensResolved(c: Config) returns (s: State, t: State)
    requires Single(c) && c.kafka
    ensures c.Valid() && WellFormed(c, s) && Leads(c, Start(map[], 0), s) && Leads(c, s, t)
    ensures |s.world.dead| == 1 && s.world.dead[0].item.status == Resolved
    ensures |t.world.dead| == 1 && t.world.dead[0].item.status == Pending
  {
    hide Leads, MoveWebhook, MoveProcessing;
    var start := Start(map[], 0);
    var s0 := DeadLetterMade(c);
    var s1 := HandedToQueue(c, start, s0);
    var s2 := MessageHandled(c, start, s1, Succeeded);
    LeadsOn(c, start, s2, Answered(2, Succeeded));
    s := Step(c, s2, Answered(2, Succeeded));
    LeadsNowhere(c, s);
    var s3 := MessageHandled(c, s, s, Refused);
    LeadsOn(c, s, s3, Answered(3, Refused));
    t := Step(c, s3, Answered(3, Refused));
  }
}
