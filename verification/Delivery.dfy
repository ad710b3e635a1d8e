/**
 * The delivery protocol as a step machine. Webhook handlers, queue workers and
 * operator retries run interleaved; every awaited call is one step, and the
 * scheduler and the environment (connector, database, queue) choose freely.
 */
module Delivery {
  import opened Common
  import opened Events
  import opened Idempotency
  import opened Dlq

  const TTL_SECONDS := 3600
  const TTL_MS := 3600 * 1000

  /** One deployment: the running instances and the queue settings they share. */
  datatype Config = Config(nodes: seq<Node>, async: bool, kafka: bool) {
    predicate Valid() {
      forall n :: n in nodes ==> n.Valid()
    }
  }

  /** How one connector call ends: it throws, answers `success: false`, or succeeds. */
  datatype Outcome = Threw | Refused | Succeeded

  // `author` fields name the agent that caused an entry; they are bookkeeping of the model.
  datatype Call = Call(author: nat, event: Event, outcome: Outcome)
  // `claimant` names the operator's retry that claimed an item last.
  datatype DeadLetter = DeadLetter(author: nat, item: Item, claimant: nat)
  datatype Queued = Queued(author: nat, event: Event)
  datatype RetryMessage = RetryMessage(claimant: nat, item: nat, event: Event)

  /** Shared state. Topics are logs, so a message can be delivered again. */
  datatype World = World(
    now: int,
    rows: Rows,
    calls: seq<Call>,
    dead: seq<DeadLetter>,
    inbox: seq<Queued>,
    retries: seq<RetryMessage>)

  datatype Job =
    | Webhook(node: nat, event: Event, read: bool)
    | EventWork(event: Event)
    | RetryWork(claimant: nat, item: nat, event: Event)
    | OperatorRetry(item: nat, event: Event)
  {
    predicate IsRetry() {
      RetryWork? || OperatorRetry?
    }
  }

  /** What `process` reported. `Unaccepted`: it threw without durable acceptance. */
  datatype Verdict = Success | Durable | Unaccepted(row: bool)

  datatype End =
    | Rejected(genuine: bool) // answered as a duplicate; not genuine when the store failed
    | Failed                  // the lookup threw before the lock
    | Answered                // read operation, key kept
    | Delivered
    | Queued
    | DeadLettered
    | Abandoned(row: bool)    // key released, or message dropped by a worker
    | NotClaimed
    | HandedOver              // retry put on the queue
    | Requeued                // retry failed, item pending again
    | Stranded                // claimed, but the retry never started

  datatype Pc =
    | Checking(next: nat)
    | Locking
    | Reading
    | Enqueueing
    | Looking
    | Calling(attempt: nat, maxRetries: nat)
    | ReadingPolicy
    | Creating(retryCount: nat)
    | Counting
    | Announcing(verdict: Verdict)
    | Releasing(left: set<StoredKey>)
    | Claiming
    | CountingClaim
    | Requeueing
    | Resolving
    | CountingResolved
    | MarkingFailed
    | Ended(end: End)

  datatype Agent = Agent(job: Job, pc: Pc, lockedAt: Option<int>, released: set<StoredKey>)

  datatype State = State(world: World, agents: seq<Agent>)

  /** Everything the environment decides in one step. */
  datatype Choice = Choice(
    ok: bool,            // the awaited call does not throw
    found: bool,         // the registry knows the target system
    native: bool,        // the read is answered by getSchema or sync
    outcome: Outcome,
    retries: nat,        // maxRetries of the policy read
    key: StoredKey,      // which deletion of a release completes
    leaseMs: nat)

  datatype Action =
    | Tick(ms: nat)
    | Receive(node: nat, event: Event, read: bool)
    | Consume(index: nat)
    | ConsumeRetry(index: nat)
    | Retry(item: nat)
    | SkipItem(item: nat)
    | Move(id: nat, choice: Choice)

  // ----- One step of one agent -----------------------------------------------

  function AllKeys(c: Config, job: Job): seq<StoredKey>
    requires c.Valid() && job.Webhook? && job.node < |c.nodes|
  {
    Candidates(c.nodes[job.node], KeyOf(job.event))
  }

  function KeySet(c: Config, job: Job): (keys: set<StoredKey>)
    requires c.Valid() && job.Webhook? && job.node < |c.nodes|
    ensures AllKeys(c, job)[0] in keys
  {
    set k | k in AllKeys(c, job)
  }

  function HeadOf(c: Config, job: Job): StoredKey
    requires job.Webhook? && job.node < |c.nodes|
  {
    Head(c.nodes[job.node], KeyOf(job.event))
  }

  predicate JobOk(c: Config, w: World, job: Job) {
    match job
    case Webhook(node, _, _) => node < |c.nodes|
    case EventWork(_) => true
    case RetryWork(_, item, event) => item < |w.dead| && w.dead[item].item.event == event
    case OperatorRetry(item, event) => item < |w.dead| && w.dead[item].item.event == event
  }

  function StartRelease(c: Config, a: Agent): Agent
    requires c.Valid() && a.job.Webhook? && a.job.node < |c.nodes|
  {
    a.(pc := Releasing(KeySet(c, a.job)))
  }

  /** Async mode needs the queue: without it the dispatcher throws at once. */
  function StartDispatch(c: Config, a: Agent): Agent
    requires c.Valid() && a.job.Webhook? && a.job.node < |c.nodes|
  {
    if !c.async then a.(pc := Looking)
    else if c.kafka then a.(pc := Enqueueing)
    else StartRelease(c, a)
  }

  /** What becomes of the agent once its processing is over and announced. */
  function Settle(c: Config, a: Agent, v: Verdict): Agent
    requires c.Valid() && (a.job.Webhook? ==> a.job.node < |c.nodes|)
  {
    match v
    case Success => a.(pc := Ended(Delivered))
    case Durable => a.(pc := Ended(DeadLettered))
    case Unaccepted(row) =>
      if a.job.Webhook? then StartRelease(c, a)
      else if a.job.EventWork? then a.(pc := Ended(Abandoned(row)))
      else a.(pc := Ended(Requeued))
  }

  /** Workers always publish a status; a webhook does when the queue is enabled. */
  function Announce(c: Config, a: Agent, v: Verdict): Agent
    requires c.Valid() && (a.job.Webhook? ==> a.job.node < |c.nodes|)
  {
    if a.job.OperatorRetry? || (a.job.Webhook? && !c.kafka) then Settle(c, a, v)
    else a.(pc := Announcing(v))
  }

  function ProcessingFailed(a: Agent): Agent {
    a.(pc := if a.job.IsRetry() then MarkingFailed else ReadingPolicy)
  }

  function SetItem(w: World, k: nat, item: Item): World
    requires k < |w.dead|
  {
    w.(dead := w.dead[k := w.dead[k].(item := item)])
  }

  /** The claiming update by the retry of agent `id`. */
  function SetClaimed(w: World, k: nat, id: nat): World
    requires k < |w.dead|
  {
    var row := w.dead[k];
    w.(dead := w.dead[k := DeadLetter(row.author, Claimed(row.item, w.now, "retry"), id)])
  }

  predicate AtWebhookPc(a: Agent) {
    a.pc.Checking? || a.pc.Locking? || a.pc.Reading? || a.pc.Enqueueing? || a.pc.Releasing?
  }

  predicate AtProcessingPc(a: Agent) {
    a.pc.Looking? || a.pc.Calling? || a.pc.ReadingPolicy? || a.pc.Creating? || a.pc.Counting? || a.pc.Announcing?
  }

  function MoveWebhook(c: Config, w: World, id: nat, a: Agent, ch: Choice): (World, Agent)
    requires c.Valid() && a.job.Webhook? && a.job.node < |c.nodes|
    requires AtWebhookPc(a)
  {
    var keys := AllKeys(c, a.job);
    match a.pc
    case Checking(i) =>
      if !ch.ok || i >= |keys| then (w, a.(pc := Ended(Failed)))
      else if Live(w.rows, keys[i], w.now) then (w, a.(pc := Ended(Rejected(true))))
      else (w, a.(pc := if i + 1 < |keys| then Checking(i + 1) else Locking))
    case Locking =>
      if !ch.ok then (w, a.(pc := Ended(Rejected(false))))
      else
        var (rows, taken) := SetNx(w.rows, keys[0], TTL_SECONDS, w.now, w.now, w.now);
        if !taken then (w, a.(pc := Ended(Rejected(true))))
        else
          var held := a.(lockedAt := Some(w.now));
          (w.(rows := rows), if held.job.read then held.(pc := Reading) else StartDispatch(c, held))
    case Reading =>
      if !ch.found then (w, StartRelease(c, a))
      else
        var next := w.(calls := w.calls + [Call(id, a.job.event, ch.outcome)]);
        (next,
         if ch.outcome == Succeeded || (ch.outcome == Refused && ch.native) then a.(pc := Ended(Answered))
         else StartRelease(c, a))
    case Enqueueing =>
      if ch.ok then (w.(inbox := w.inbox + [Queued.Queued(id, a.job.event)]), a.(pc := Ended(End.Queued)))
      else (w, StartRelease(c, a))
    case Releasing(left) =>
      if ch.key !in left then (w, a)
      else
        var rest := left - {ch.key};
        var b := a.(pc := if rest == {} then Ended(Abandoned(false)) else Releasing(rest));
        // The store swallows the error of a deletion; the row then stays.
        if ch.ok then (w.(rows := w.rows - {ch.key}), b.(released := a.released + {ch.key})) else (w, b)
  }

  function MoveProcessing(c: Config, w: World, id: nat, a: Agent, ch: Choice): (World, Agent)
    requires c.Valid() && JobOk(c, w, a.job)
    requires AtProcessingPc(a)
  {
    match a.pc
    case Looking =>
      if ch.found && ch.ok then (w, a.(pc := Calling(0, ch.retries))) else (w, ProcessingFailed(a))
    case Calling(attempt, maxRetries) =>
      (w.(calls := w.calls + [Call(id, a.job.event, ch.outcome)]),
       match ch.outcome
       case Succeeded => if a.job.IsRetry() then a.(pc := Resolving) else Announce(c, a, Success)
       case Refused => ProcessingFailed(a)
       case Threw =>
         if attempt < maxRetries then a.(pc := Calling(attempt + 1, maxRetries)) else ProcessingFailed(a))
    case ReadingPolicy =>
      (w, if ch.ok then a.(pc := Creating(ch.retries)) else Announce(c, a, Unaccepted(false)))
    case Creating(n) =>
      if ch.ok then
        (w.(dead := w.dead + [DeadLetter(id, NewItem(a.job.event, "failed", n), 0)]), a.(pc := Counting))
      else (w, Announce(c, a, Unaccepted(false)))
    case Counting =>
      (w, Announce(c, a, if ch.ok then Durable else Unaccepted(true)))
    case Announcing(v) =>
      // A send that throws inside the dispatcher replaces the outcome, durable or not.
      (w, if ch.ok || !a.job.Webhook? then Settle(c, a, v)
          else if v == Success then a.(pc := Announcing(Unaccepted(false)))
          else StartRelease(c, a))
  }

  function MoveRetry(c: Config, w: World, id: nat, a: Agent, ch: Choice): (World, Agent)
    requires c.Valid() && JobOk(c, w, a.job) && a.job.IsRetry()
    requires a.pc.Claiming? || a.pc.CountingClaim? || a.pc.Requeueing?
             || a.pc.Resolving? || a.pc.CountingResolved? || a.pc.MarkingFailed?
  {
    var item := w.dead[a.job.item].item;
    match a.pc
    case Claiming =>
      if ch.ok && Claimable(item, w.now - ch.leaseMs) then
        (SetClaimed(w, a.job.item, id), a.(pc := CountingClaim))
      else (w, a.(pc := Ended(NotClaimed)))
    case CountingClaim =>
      (w, a.(pc := if !ch.ok then Ended(Stranded) else if c.kafka then Requeueing else Looking))
    case Requeueing =>
      if ch.ok then
        (w.(retries := w.retries + [RetryMessage(id, a.job.item, a.job.event)]), a.(pc := Ended(HandedOver)))
      else (w, a.(pc := Ended(Stranded)))
    case Resolving =>
      if ch.ok then (SetItem(w, a.job.item, MarkedResolved(item)), a.(pc := CountingResolved))
      else (w, a.(pc := MarkingFailed))
    case CountingResolved =>
      (w, if ch.ok then Announce(c, a, Success) else a.(pc := MarkingFailed))
    case MarkingFailed =>
      (if ch.ok then SetItem(w, a.job.item, MarkedFailed(item, "failed")) else w,
       Announce(c, a, Unaccepted(true)))
  }

  function MoveAgent(c: Config, w: World, id: nat, a: Agent, ch: Choice): (World, Agent)
    requires c.Valid() && JobOk(c, w, a.job) && PcOk(a)
  {
    match a.pc
    case Ended(_) => (w, a)
    case Checking(_) => MoveWebhook(c, w, id, a, ch)
    case Locking => MoveWebhook(c, w, id, a, ch)
    case Reading => MoveWebhook(c, w, id, a, ch)
    case Enqueueing => MoveWebhook(c, w, id, a, ch)
    case Releasing(_) => MoveWebhook(c, w, id, a, ch)
    case Looking => MoveProcessing(c, w, id, a, ch)
    case Calling(_, _) => MoveProcessing(c, w, id, a, ch)
    case ReadingPolicy => MoveProcessing(c, w, id, a, ch)
    case Creating(_) => MoveProcessing(c, w, id, a, ch)
    case Counting => MoveProcessing(c, w, id, a, ch)
    case Announcing(_) => MoveProcessing(c, w, id, a, ch)
    case _ => MoveRetry(c, w, id, a, ch)
  }

  /** Which program counters belong to which kind of job. */
  predicate PcOk(a: Agent) {
    match a.pc
    case Checking(_) => a.job.Webhook?
    case Locking => a.job.Webhook?
    case Reading => a.job.Webhook?
    case Enqueueing => a.job.Webhook?
    case Releasing(_) => a.job.Webhook?
    case ReadingPolicy => !a.job.IsRetry()
    case Creating(_) => !a.job.IsRetry()
    case Counting => !a.job.IsRetry()
    case Claiming => a.job.OperatorRetry?
    case CountingClaim => a.job.OperatorRetry?
    case Requeueing => a.job.OperatorRetry?
    case Resolving => a.job.IsRetry()
    case CountingResolved => a.job.IsRetry()
    case MarkingFailed => a.job.IsRetry()
    case Announcing(v) => a.job.IsRetry() ==> !v.Durable?
    case _ => true
  }

  predicate AgentOk(c: Config, w: World, a: Agent) {
    JobOk(c, w, a.job) && PcOk(a)
  }

  /** A message on the retry topic names an existing item and carries its event. */
  predicate RetriesOk(w: World) {
    forall m :: m in w.retries ==> m.item < |w.dead| && w.dead[m.item].item.event == m.event
  }

  predicate WellFormed(c: Config, s: State) {
    && RetriesOk(s.world)
    && forall i :: 0 <= i < |s.agents| ==> AgentOk(c, s.world, s.agents[i])
  }

  /** The other candidate texts are looked up only when there are several. */
  function FirstPc(c: Config, job: Job): Pc
    requires c.Valid() && job.Webhook? && job.node < |c.nodes|
  {
    if |AllKeys(c, job)| > 1 then Checking(0) else Locking
  }

  function Spawn(s: State, job: Job, pc: Pc): State {
    s.(agents := s.agents + [Agent(job, pc, None, {})])
  }

  /** Actions that are not enabled change nothing. */
  function Step(c: Config, s: State, act: Action): State
    requires c.Valid() && WellFormed(c, s)
  {
    match act
    case Tick(ms) => s.(world := s.world.(now := s.world.now + ms))
    case Receive(node, event, read) =>
      if node >= |c.nodes| then s
      else
        var job := Webhook(node, event, read);
        Spawn(s, job, FirstPc(c, job))
    case Consume(k) =>
      if k >= |s.world.inbox| then s else Spawn(s, EventWork(s.world.inbox[k].event), Looking)
    case ConsumeRetry(k) =>
      if k >= |s.world.retries| then s
      else
        var m := s.world.retries[k];
        Spawn(s, RetryWork(m.claimant, m.item, m.event), Looking)
    case Retry(k) =>
      if k >= |s.world.dead| then s else Spawn(s, OperatorRetry(k, s.world.dead[k].item.event), Claiming)
    case SkipItem(k) =>
      if k >= |s.world.dead| then s
      else s.(world := SetItem(s.world, k, MarkedSkipped(s.world.dead[k].item)))
    case Move(id, ch) =>
      if id >= |s.agents| then s
      else
        var (w, a) := MoveAgent(c, s.world, id, s.agents[id], ch);
        State(w, s.agents[id := a])
  }

  /** What the steps that are no handler's move bring: at most one newcomer, who has done nothing yet. */
  lemma ArrivalsAre(c: Config, s: State, act: Action)
    requires c.Valid() && WellFormed(c, s) && !act.Move?
    ensures var t := Step(c, s, act);
            && t.world.rows == s.world.rows && t.world.calls == s.world.calls
            && t.world.inbox == s.world.inbox && t.world.retries == s.world.retries
            && t.world.now == s.world.now + (if act.Tick? then act.ms else 0)
            && (forall k :: 0 <= k < |s.world.dead| && act != SkipItem(k) ==> t.world.dead[k] == s.world.dead[k])
            && |s.agents| <= |t.agents| <= |s.agents| + 1 && t.agents[..|s.agents|] == s.agents
            && (|t.agents| > |s.agents| ==>
                  var a := t.agents[|s.agents|];
                  && a.lockedAt == None && a.released == {}
                  && match a.job
                     case Webhook(node, event, read) => act == Receive(node, event, read)
                     case EventWork(event) =>
                       act.Consume? && act.index < |s.world.inbox| && s.world.inbox[act.index].event == event
                     case RetryWork(claimant, item, event) =>
                       act.ConsumeRetry? && act.index < |s.world.retries|
                       && s.world.retries[act.index] == RetryMessage(claimant, item, event)
                     case OperatorRetry(item, event) => act == Retry(item) && s.world.dead[item].item.event == event)
  {
  }

  // ----- Nothing shared is ever taken back -------------------------------------

  /** Calls and messages are only appended; a dead letter keeps its author and event. */
  ghost predicate Grows(w: World, v: World) {
    && w.now <= v.now
    && w.calls <= v.calls
    && w.inbox <= v.inbox
    && |w.dead| <= |v.dead|
    && forall k :: 0 <= k < |w.dead| ==>
                     v.dead[k].author == w.dead[k].author && v.dead[k].item.event == w.dead[k].item.event
  }

  ghost predicate GoodMove(c: Config, w: World, a: Agent, v: World, b: Agent) {
    && Grows(w, v) && v.now == w.now
    && (RetriesOk(w) ==> RetriesOk(v))
    && b.job == a.job && AgentOk(c, v, b)
  }

  lemma WebhookMoveGrows(c: Config, w: World, id: nat, a: Agent, ch: Choice)
    requires c.Valid() && AgentOk(c, w, a)
    requires AtWebhookPc(a)
    ensures var (v, b) := MoveWebhook(c, w, id, a, ch); GoodMove(c, w, a, v, b)
  {
  }

  lemma ProcessingMoveGrows(c: Config, w: World, id: nat, a: Agent, ch: Choice)
    requires c.Valid() && AgentOk(c, w, a)
    requires AtProcessingPc(a)
    ensures var (v, b) := MoveProcessing(c, w, id, a, ch); GoodMove(c, w, a, v, b)
  {
  }

  lemma RetryMoveGrows(c: Config, w: World, id: nat, a: Agent, ch: Choice)
    requires c.Valid() && AgentOk(c, w, a) && a.job.IsRetry()
    requires a.pc.Claiming? || a.pc.CountingClaim? || a.pc.Requeueing?
             || a.pc.Resolving? || a.pc.CountingResolved? || a.pc.MarkingFailed?
    ensures var (v, b) := MoveRetry(c, w, id, a, ch); GoodMove(c, w, a, v, b)
  {
  }

  lemma MoveGrows(c: Config, w: World, id: nat, a: Agent, ch: Choice)
    requires c.Valid() && AgentOk(c, w, a)
    ensures var (v, b) := MoveAgent(c, w, id, a, ch); GoodMove(c, w, a, v, b)
  {
    if AtWebhookPc(a) {
      WebhookMoveGrows(c, w, id, a, ch);
    } else if AtProcessingPc(a) {
      ProcessingMoveGrows(c, w, id, a, ch);
    } else if !a.pc.Ended? {
      RetryMoveGrows(c, w, id, a, ch);
    }
  }

  lemma StepGrows(c: Config, s: State, act: Action)
    requires c.Valid() && WellFormed(c, s)
    ensures Grows(s.world, Step(c, s, act).world)
    ensures WellFormed(c, Step(c, s, act))
  {
    hide MoveAgent;
    if act.Move? && act.id < |s.agents| {
      MoveGrows(c, s.world, act.id, s.agents[act.id], act.choice);
    }
  }

  // ----- Runs -------------------------------------------------------------------

  function Start(rows: Rows, now: int): State {
    State(World(now, rows, [], [], [], []), [])
  }

  function Run(c: Config, s: State, acts: seq<Action>): (t: State)
    requires c.Valid() && WellFormed(c, s)
    ensures WellFormed(c, t)
    decreases |acts|
  {
    if acts == [] then s
    else
      StepGrows(c, s, acts[0]);
      Run(c, Step(c, s, acts[0]), acts[1..])
  }

  lemma {:induction false} RunConcat(c: Config, s: State, xs: seq<Action>, ys: seq<Action>)
    requires c.Valid() && WellFormed(c, s)
    ensures Run(c, s, xs + ys) == Run(c, Run(c, s, xs), ys)
    decreases |xs|
  {
    if xs == [] {
      assert xs + ys == ys;
    } else {
      StepGrows(c, s, xs[0]);
      assert (xs + ys)[0] == xs[0] && (xs + ys)[1..] == xs[1..] + ys;
      RunConcat(c, Step(c, s, xs[0]), xs[1..], ys);
    }
  }

  lemma RunOneMore(c: Config, s: State, acts: seq<Action>, act: Action)
    requires c.Valid() && WellFormed(c, s)
    ensures WellFormed(c, Step(c, Run(c, s, acts), act))
    ensures Run(c, s, acts + [act]) == Step(c, Run(c, s, acts), act)
  {
    var t := Run(c, s, acts);
    StepGrows(c, t, act);
    RunConcat(c, s, acts, [act]);
    assert [act][1..] == [] && Run(c, Step(c, t, act), []) == Step(c, t, act);
  }

  /** Some step of the run satisfies `p`, seen from the state it starts in. */
  ghost predicate Occurs(c: Config, s: State, acts: seq<Action>, p: (State, Action) -> bool)
    requires c.Valid() && WellFormed(c, s)
    decreases |acts|
  {
    && acts != []
    && (p(s, acts[0]) || (StepGrows(c, s, acts[0]); Occurs(c, Step(c, s, acts[0]), acts[1..], p)))
  }

  /** The world never takes anything back over a whole run. */
  lemma {:induction false} RunGrows(c: Config, s: State, acts: seq<Action>)
    requires c.Valid() && WellFormed(c, s)
    ensures Grows(s.world, Run(c, s, acts).world) && |s.agents| <= |Run(c, s, acts).agents|
    ensures forall i :: 0 <= i < |s.agents| ==> Run(c, s, acts).agents[i].job == s.agents[i].job
    decreases |acts|
  {
    if acts == [] {
    } else {
      StepGrows(c, s, acts[0]);
      StepKeepsJobs(c, s, acts[0]);
      RunGrows(c, Step(c, s, acts[0]), acts[1..]);
    }
  }

  lemma StepKeepsJobs(c: Config, s: State, act: Action)
    requires c.Valid() && WellFormed(c, s)
    ensures |s.agents| <= |Step(c, s, act).agents|
    ensures forall i :: 0 <= i < |s.agents| ==> Step(c, s, act).agents[i].job == s.agents[i].job
  {
    hide MoveAgent;
    if act.Move? && act.id < |s.agents| {
      MoveGrows(c, s.world, act.id, s.agents[act.id], act.choice);
    }
  }
}
