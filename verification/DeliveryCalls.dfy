/** How often a handler calls its connector: as the policy it read says, and never after an answer. */
module DeliveryCalls {
  import opened Common
  import opened Events
  import opened Idempotency
  import opened Dlq
  import opened Delivery
  import opened DeliveryEvidence
  import opened DeliveryRelease

  /** How the calls made by agent `i` ended, oldest first. */
  function OutcomesOf(calls: seq<Delivery.Call>, i: nat): seq<Outcome> {
    if calls == [] then []
    else
      var last := calls[|calls| - 1];
      OutcomesOf(calls[..|calls| - 1], i) + if last.author == i then [last.outcome] else []
  }

  /** The step in which handler `i` has found its connector and reads its retry policy. */
  predicate ReadsPolicy(i: nat, s: State, act: Action) {
    && act.Move? && act.id == i && i < |s.agents| && s.agents[i].pc.Looking?
    && act.choice.found && act.choice.ok
  }

  /** The number of retries handler `i` read during the run, if it read a policy. */
  function PolicyRead(c: Config, s: State, acts: seq<Action>, i: nat): Option<nat>
    requires c.Valid() && WellFormed(c, s)
    decreases |acts|
  {
    if acts == [] then None
    else if ReadsPolicy(i, s, acts[0]) then Some(acts[0].choice.retries)
    else
      StepGrows(c, s, acts[0]);
      PolicyRead(c, Step(c, s, acts[0]), acts[1..], i)
  }

  predicate AllThrew(outcomes: seq<Outcome>) {
    forall k :: 0 <= k < |outcomes| ==> outcomes[k] == Threw
  }

  /** Throws up to the first answer, or as many throws as the policy allows. */
  predicate Settled(outcomes: seq<Outcome>, maxRetries: nat) {
    && 1 <= |outcomes| <= maxRetries + 1
    && AllThrew(outcomes[..|outcomes| - 1])
    && (outcomes[|outcomes| - 1] != Threw || |outcomes| == maxRetries + 1)
  }

  predicate IsRead(a: Agent) {
    a.job.Webhook? && a.job.read
  }

  predicate CallsTold(calls: seq<Delivery.Call>, id: nat, a: Agent, policy: Option<nat>) {
    OutcomesTold(a, OutcomesOf(calls, id), policy)
  }

  /** Before its lookup, at a call, and past calling. */
  predicate OutcomesTold(a: Agent, outcomes: seq<Outcome>, policy: Option<nat>) {
    && (IsRead(a) ==> (AtWebhookPc(a) || a.pc.Ended?) && policy == None)
    && match a.pc
       case Calling(attempt, maxRetries) =>
         policy == Some(maxRetries) && |outcomes| == attempt <= maxRetries && AllThrew(outcomes)
       case Reading => outcomes == [] && IsRead(a)
       case Releasing(_) => CallsOver(a, outcomes, policy)
       case ReadingPolicy => CallsOver(a, outcomes, policy)
       case Creating(_) => CallsOver(a, outcomes, policy)
       case Counting => CallsOver(a, outcomes, policy)
       case Announcing(_) => CallsOver(a, outcomes, policy)
       case Resolving => CallsOver(a, outcomes, policy)
       case CountingResolved => CallsOver(a, outcomes, policy)
       case MarkingFailed => CallsOver(a, outcomes, policy)
       case Ended(end) =>
         CallsOver(a, outcomes, policy) && (end == Answered ==> |outcomes| == 1 && outcomes[0] != Threw)
       case _ => outcomes == [] && policy == None
  }

  predicate CallsOver(a: Agent, outcomes: seq<Outcome>, policy: Option<nat>) {
    match policy
    case Some(maxRetries) => Settled(outcomes, maxRetries)
    case None => |outcomes| <= if IsRead(a) then 1 else 0
  }

  lemma OneMoreCall(calls: seq<Delivery.Call>, call: Delivery.Call, i: nat)
    ensures OutcomesOf(calls + [call], i) == OutcomesOf(calls, i) + if call.author == i then [call.outcome] else []
  {
    assert (calls + [call])[..|calls|] == calls;
  }

  lemma {:induction false} NoCallsYet(calls: seq<Delivery.Call>, i: nat)
    requires forall k :: 0 <= k < |calls| ==> calls[k].author < i
    ensures OutcomesOf(calls, i) == []
  {
    if calls == [] {
    } else {
      NoCallsYet(calls[..|calls| - 1], i);
    }
  }

  /** A move makes at most one call, in its own name. */
  lemma MoveCalls(c: Config, w: World, id: nat, a: Agent, ch: Choice)
    requires c.Valid() && AgentOk(c, w, a)
    ensures var (v, b) := MoveAgent(c, w, id, a, ch);
            && b.job == a.job
            && if a.pc.Calling? || (a.pc.Reading? && ch.found)
               then v.calls == w.calls + [Call(id, a.job.event, ch.outcome)] else v.calls == w.calls
  {
  }

  /** One more outcome after throws: either that settles it, or there are more throws. */
  lemma OutcomeAfterThrows(outcomes: seq<Outcome>, outcome: Outcome, maxRetries: nat)
    requires AllThrew(outcomes) && |outcomes| <= maxRetries
    ensures if outcome == Threw && |outcomes| < maxRetries then AllThrew(outcomes + [outcome])
            else Settled(outcomes + [outcome], maxRetries)
  {
    assert (outcomes + [outcome])[..|outcomes|] == outcomes;
  }

  /** What a move adds to the outcomes of its agent. */
  function Added(a: Agent, ch: Choice): seq<Outcome> {
    if a.pc.Calling? || (a.pc.Reading? && ch.found) then [ch.outcome] else []
  }

  function PolicyAfter(a: Agent, ch: Choice, policy: Option<nat>): Option<nat> {
    if a.pc.Looking? && ch.found && ch.ok then Some(ch.retries) else policy
  }

  lemma CallTells(c: Config, w: World, id: nat, a: Agent, ch: Choice, outcomes: seq<Outcome>, policy: Option<nat>)
    requires c.Valid() && AgentOk(c, w, a) && OutcomesTold(a, outcomes, policy) && a.pc.Calling?
    ensures OutcomesTold(MoveAgent(c, w, id, a, ch).1, outcomes + [ch.outcome], policy)
  {
    hide MoveWebhook, MoveRetry, AllThrew, Settled;
    OutcomeAfterThrows(outcomes, ch.outcome, a.pc.maxRetries);
  }

  lemma WebhookMoveTells(c: Config, w: World, id: nat, a: Agent, ch: Choice, outcomes: seq<Outcome>,
                         policy: Option<nat>)
    requires c.Valid() && AgentOk(c, w, a) && OutcomesTold(a, outcomes, policy) && AtWebhookPc(a)
    ensures OutcomesTold(MoveAgent(c, w, id, a, ch).1, outcomes + Added(a, ch), policy)
  {
    hide MoveProcessing, MoveRetry, SetNx, Live, AllThrew, Settled;
    assert outcomes + [] == outcomes;
  }

  lemma LookupTells(c: Config, w: World, id: nat, a: Agent, ch: Choice, outcomes: seq<Outcome>, policy: Option<nat>)
    requires c.Valid() && AgentOk(c, w, a) && OutcomesTold(a, outcomes, policy) && a.pc.Looking?
    ensures OutcomesTold(MoveAgent(c, w, id, a, ch).1, outcomes, PolicyAfter(a, ch, policy))
  {
    hide MoveWebhook, MoveRetry, Settled;
  }

  lemma ProcessingMoveTells(c: Config, w: World, id: nat, a: Agent, ch: Choice, outcomes: seq<Outcome>,
                            policy: Option<nat>)
    requires c.Valid() && AgentOk(c, w, a) && OutcomesTold(a, outcomes, policy) && AtProcessingPc(a) && !a.pc.Calling?
    ensures OutcomesTold(MoveAgent(c, w, id, a, ch).1, outcomes, PolicyAfter(a, ch, policy))
  {
    hide MoveWebhook, MoveRetry, AllThrew, CallsOver;
    if a.pc.Looking? {
      LookupTells(c, w, id, a, ch, outcomes, policy);
    } else {
      KeptOver(MoveAgent(c, w, id, a, ch).1, a, outcomes, policy);
    }
  }

  lemma KeptOver(b: Agent, a: Agent, outcomes: seq<Outcome>, policy: Option<nat>)
    requires CallsOver(a, outcomes, policy) && a.job == b.job
    ensures CallsOver(b, outcomes, policy)
  {
  }

  lemma RetryMoveTells(c: Config, w: World, id: nat, a: Agent, ch: Choice, outcomes: seq<Outcome>, policy: Option<nat>)
    requires c.Valid() && AgentOk(c, w, a) && OutcomesTold(a, outcomes, policy)
    requires !AtWebhookPc(a) && !AtProcessingPc(a)
    ensures OutcomesTold(MoveAgent(c, w, id, a, ch).1, outcomes, policy)
  {
    hide MoveWebhook, MoveProcessing, AllThrew, Settled;
  }

  lemma MoveTellsOutcomes(c: Config, w: World, id: nat, a: Agent, ch: Choice, outcomes: seq<Outcome>,
                          policy: Option<nat>)
    requires c.Valid() && AgentOk(c, w, a) && OutcomesTold(a, outcomes, policy)
    ensures OutcomesTold(MoveAgent(c, w, id, a, ch).1, outcomes + Added(a, ch), PolicyAfter(a, ch, policy))
  {
    hide MoveAgent, OutcomesTold;
    if a.pc.Calling? {
      CallTells(c, w, id, a, ch, outcomes, policy);
    } else if AtWebhookPc(a) {
      WebhookMoveTells(c, w, id, a, ch, outcomes, policy);
    } else {
      assert outcomes + [] == outcomes;
      if AtProcessingPc(a) {
        ProcessingMoveTells(c, w, id, a, ch, outcomes, policy);
      } else {
        RetryMoveTells(c, w, id, a, ch, outcomes, policy);
      }
    }
  }

  /** Agent `i`, present or still to come, has made the calls that `policy` allows. */
  predicate CallsKnown(s: State, i: nat, policy: Option<nat>) {
    && AuthorsExist(s)
    && if i < |s.agents| then CallsTold(s.world.calls, i, s.agents[i], policy) else policy == None
  }

  /** The outcomes of every agent after a move. */
  lemma MoveAddsOutcomes(c: Config, w: World, id: nat, a: Agent, ch: Choice, i: nat)
    requires c.Valid() && AgentOk(c, w, a)
    ensures OutcomesOf(MoveAgent(c, w, id, a, ch).0.calls, i)
            == OutcomesOf(w.calls, i) + if i == id then Added(a, ch) else []
  {
    hide MoveAgent, OutcomesOf;
    MoveCalls(c, w, id, a, ch);
    OneMoreCall(w.calls, Call(id, a.job.event, ch.outcome), i);
    assert OutcomesOf(w.calls, i) + [] == OutcomesOf(w.calls, i);
  }

  lemma MoveStepTellsCalls(c: Config, s: State, id: nat, ch: Choice, i: nat, policy: Option<nat>)
    requires c.Valid() && WellFormed(c, s) && CallsKnown(s, i, policy) && id < |s.agents|
    ensures CallsKnown(Step(c, s, Move(id, ch)), i,
                       if ReadsPolicy(i, s, Move(id, ch)) then Some(ch.retries) else policy)
  {
    hide MoveAgent, OutcomesTold, OutcomesOf;
    var a := s.agents[id];
    MoveIsSigned(c, s.world, id, a, ch);
    MoveGrows(c, s.world, id, a, ch);
    MoveAddsOutcomes(c, s.world, id, a, ch, i);
    if id == i {
      MoveTellsOutcomes(c, s.world, id, a, ch, OutcomesOf(s.world.calls, i), policy);
    } else {
      assert OutcomesOf(s.world.calls, i) + [] == OutcomesOf(s.world.calls, i);
    }
  }

  lemma OtherStepTellsCalls(c: Config, s: State, act: Action, i: nat, policy: Option<nat>)
    requires c.Valid() && WellFormed(c, s) && CallsKnown(s, i, policy) && !(act.Move? && act.id < |s.agents|)
    ensures CallsKnown(Step(c, s, act), i, policy)
  {
    hide MoveAgent;
    var t := Step(c, s, act);
    if |s.agents| <= i < |t.agents| {
      NoCallsYet(s.world.calls, i);
    }
  }

  lemma {:induction false} RunTellsCalls(c: Config, s: State, acts: seq<Action>, i: nat, policy: Option<nat>)
    requires c.Valid() && WellFormed(c, s) && CallsKnown(s, i, policy)
    ensures policy.Some? ==> CallsKnown(Run(c, s, acts), i, policy)
    ensures policy.None? ==> CallsKnown(Run(c, s, acts), i, PolicyRead(c, s, acts, i))
    decreases |acts|
  {
    if acts == [] {
    } else {
      StepGrows(c, s, acts[0]);
      var now := if ReadsPolicy(i, s, acts[0]) then Some(acts[0].choice.retries) else policy;
      if acts[0].Move? && acts[0].id < |s.agents| {
        MoveStepTellsCalls(c, s, acts[0].id, acts[0].choice, i, policy);
      } else {
        OtherStepTellsCalls(c, s, acts[0], i, policy);
      }
      RunTellsCalls(c, Step(c, s, acts[0]), acts[1..], i, now);
    }
  }

  /**
   * In every run and for every kind of handler: one that found its connector has thrown
   * calls up to its last one; the last one answered, or it was the last that the policy
   * read at the lookup allows. A handler still calling may make one more call. Without
   * a lookup there is no call, save the single one of a read, which an answered read has made.
   */
  lemma CallsFollowPolicy(c: Config, rows: Rows, now: int, acts: seq<Action>, i: nat)
    requires c.Valid() && i < |Run(c, Start(rows, now), acts).agents|
    ensures var s := Run(c, Start(rows, now), acts);
            var outcomes := OutcomesOf(s.world.calls, i);
            match PolicyRead(c, Start(rows, now), acts, i)
            case Some(maxRetries) =>
              && AllThrew(if outcomes == [] then [] else outcomes[..|outcomes| - 1])
              && if s.agents[i].pc.Calling? then AllThrew(outcomes) && |outcomes| <= maxRetries
                 else && 1 <= |outcomes| <= maxRetries + 1
                      && (outcomes[|outcomes| - 1] == Threw ==> |outcomes| == maxRetries + 1)
            case None =>
              && !s.agents[i].pc.Calling?
              && (s.agents[i].pc == Ended(Answered) ==> |outcomes| == 1 && outcomes[0] != Threw)
              && |outcomes| <= if s.agents[i].job.Webhook? && s.agents[i].job.read then 1 else 0
  {
    RunTellsCalls(c, Start(rows, now), acts, i, None);
    var s := Run(c, Start(rows, now), acts);
    assert CallsTold(s.world.calls, i, s.agents[i], PolicyRead(c, Start(rows, now), acts, i));
  }
}
