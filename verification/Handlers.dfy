/**
 * The handlers as the services are written: sequential methods over the shared
 * state, with their loops and catch paths. Whenever a handler awaits a call, the
 * environment first takes any steps of the machine except this handler's own. Each
 * handler is proved to extend one run of the step machine, so what holds of every
 * run holds whenever a handler pauses or ends.
 */
module Handlers {
  import opened Common
  import opened Events
  import opened Idempotency
  import opened Dlq
  import opened Delivery
  import opened DeliveryEvidence

  datatype RetryOutcome = Sent | NotMine | Thrown

  datatype Dispatched = Returned | Raised(durable: bool)

  datatype Answer = Duplicate | Processed(success: bool) | Error

  /** What happens during one awaited call: the steps of everyone else, and how the call ends. */
  datatype Turn = Turn(others: seq<Action>, choice: Choice)

  /** How a retry that reports this outcome ended. */
  predicate EndFits(outcome: RetryOutcome, end: End) {
    match outcome
    case Sent => end == Delivered || end == HandedOver
    case NotMine => end == NotClaimed
    case Thrown => end == NotClaimed || end == Stranded || end == Requeued
  }

  /** How a webhook handler with this answer ended. */
  predicate AnswerFits(answer: Answer, end: End) {
    match answer
    case Duplicate => end.Rejected?
    case Processed(_) => end == Answered || end == Delivered || end == End.Queued
    case Error => end == Failed || end == DeadLettered || end.Abandoned?
  }

  function Tally(outcomes: seq<RetryOutcome>, outcome: RetryOutcome): nat {
    if outcomes == [] then 0
    else Tally(outcomes[..|outcomes| - 1], outcome) + if outcomes[|outcomes| - 1] == outcome then 1 else 0
  }

  /** The items whose retry threw, in order. */
  function ThrownItems(items: seq<nat>, outcomes: seq<RetryOutcome>): seq<nat>
    requires |items| == |outcomes|
  {
    if items == [] then []
    else
      var n := |items| - 1;
      ThrownItems(items[..n], outcomes[..n]) + if outcomes[n] == Thrown then [items[n]] else []
  }

  /** Every item is counted in the figure of its own outcome. */
  ghost predicate Figures(items: seq<nat>, outcomes: seq<RetryOutcome>, queued: nat, skipped: nat, errors: seq<nat>) {
    && |items| == |outcomes| == queued + skipped + |errors|
    && queued == Tally(outcomes, Sent) && skipped == Tally(outcomes, NotMine)
    && errors == ThrownItems(items, outcomes)
  }

  lemma OneMoreOutcome(items: seq<nat>, item: nat, outcomes: seq<RetryOutcome>, outcome: RetryOutcome,
                       queued: nat, skipped: nat, errors: seq<nat>)
    requires Figures(items, outcomes, queued, skipped, errors)
    ensures Figures(items + [item], outcomes + [outcome],
                    if outcome == Sent then queued + 1 else queued,
                    if outcome == NotMine then skipped + 1 else skipped,
                    if outcome == Thrown then errors + [item] else errors)
  {
    assert (items + [item])[..|items|] == items && (outcomes + [outcome])[..|outcomes|] == outcomes;
  }

  /** Each listed handler was a retry of its item and ended as its outcome says. */
  ghost predicate Reported(agents: seq<Agent>, ids: seq<nat>, items: seq<nat>, outcomes: seq<RetryOutcome>) {
    && |ids| == |items| == |outcomes|
    && forall i :: 0 <= i < |ids| ==>
                     && ids[i] < |agents| && agents[ids[i]].job.OperatorRetry? && agents[ids[i]].job.item == items[i]
                     && agents[ids[i]].pc.Ended? && EndFits(outcomes[i], agents[ids[i]].pc.end)
  }

  /** Handlers that came up one after the other between these two numbers. */
  ghost predicate New(ids: seq<nat>, from: nat, to: nat) {
    && (forall i :: 0 <= i < |ids| ==> from <= ids[i] < to)
    && (forall i, j :: 0 <= i < j < |ids| ==> ids[i] < ids[j])
  }

  lemma NewAppend(ids: seq<nat>, from: nat, between: nat, id: nat, to: nat)
    requires New(ids, from, between) && from <= between <= id < to
    ensures New(ids + [id], from, to)
  {
  }

  lemma NothingReported(agents: seq<Agent>, items: seq<nat>)
    ensures Reported(agents, [], items[..0], []) && New([], |agents|, |agents|) && Figures(items[..0], [], 0, 0, [])
  {
  }

  /** Only a handler's own steps move it. */
  lemma StepSparesOthers(c: Config, s: State, act: Action, id: nat)
    requires c.Valid() && WellFormed(c, s) && id < |s.agents| && !(act.Move? && act.id == id)
    ensures id < |Step(c, s, act).agents| && Step(c, s, act).agents[id] == s.agents[id]
  {
  }

  /** A handler that ended stays as it is. */
  lemma {:induction false} EndedStays(c: Config, s: State, acts: seq<Action>, id: nat)
    requires c.Valid() && WellFormed(c, s) && id < |s.agents| && s.agents[id].pc.Ended?
    ensures id < |Run(c, s, acts).agents| && Run(c, s, acts).agents[id] == s.agents[id]
    decreases |acts|
  {
    if acts == [] {
    } else {
      StepGrows(c, s, acts[0]);
      EndedStays(c, Step(c, s, acts[0]), acts[1..], id);
    }
  }

  class Instance {
    var state: State
    var drawn: nat
    const config: Config
    const env: nat -> Turn // what the environment does, call by call
    ghost const start: State
    ghost var acts: seq<Action>

    /** The shared state is where the run `acts` from `start` leads. */
    ghost predicate Valid()
      reads this
    {
      && config.Valid() && WellFormed(config, start) && WellFormed(config, state)
      && state == Run(config, start, acts)
    }

    constructor (state: State, config: Config, env: nat -> Turn)
      requires config.Valid() && WellFormed(config, state)
      ensures Valid() && this.state == state && this.config == config && this.env == env
      ensures start == state && acts == []
    {
      this.state, this.config, this.env := state, config, env;
      drawn, start, acts := 0, state, [];
    }

    /** Whatever happened since, retries that had ended still stand as reported, beside the latest one. */
    lemma ReportsStay(since: seq<Action>, ids: seq<nat>, items: seq<nat>, outcomes: seq<RetryOutcome>,
                      id: nat, item: nat, outcome: RetryOutcome)
      requires Valid() && since <= acts && Reported(Run(config, start, since).agents, ids, items, outcomes)
      requires Reported(state.agents, [id], [item], [outcome])
      ensures Reported(state.agents, ids + [id], items + [item], outcomes + [outcome])
      ensures |Run(config, start, since).world.dead| <= |state.world.dead|
    {
      var s, rest := Run(config, start, since), acts[|since|..];
      assert acts == since + rest;
      RunConcat(config, start, since, rest);
      RunGrows(config, s, rest);
      forall i | 0 <= i < |ids|
        ensures ids[i] < |state.agents| && state.agents[ids[i]] == s.agents[ids[i]]
      {
        EndedStays(config, s, rest, ids[i]);
      }
      assert [id][0] == id && [item][0] == item && [outcome][0] == outcome;
    }

    /** An awaited call of handler `id`: everyone else goes on, then the call ends. */
    method Await(id: nat) returns (ch: Choice)
      requires Valid() && id < |state.agents|
      modifies this
      ensures Valid() && old(acts) <= acts
      ensures id < |state.agents| && state.agents[id] == old(state.agents[id])
    {
      var turn := env(drawn);
      drawn := drawn + 1;
      for i := 0 to |turn.others|
        invariant Valid() && old(acts) <= acts
        invariant id < |state.agents| && state.agents[id] == old(state.agents[id])
      {
        var act := turn.others[i];
        if !(act.Move? && act.id == id) {
          RunOneMore(config, start, acts, act);
          StepSparesOthers(config, state, act, id);
          state := Step(config, state, act);
          acts := acts + [act];
        }
      }
      ch := turn.choice;
    }

    /** The handler acts on the call's end; `world` is what it makes of the shared world. */
    method Arrive(id: nat, ch: Choice, world: World)
      requires Valid() && id < |state.agents|
      requires world == MoveAgent(config, state.world, id, state.agents[id], ch).0
      modifies `state, `acts
      ensures Valid() && acts == old(acts) + [Move(id, ch)]
      ensures state == State(world, old(state.agents)[id :=
                MoveAgent(config, old(state.world), id, old(state.agents[id]), ch).1])
    {
      RunOneMore(config, start, acts, Move(id, ch));
      state := State(world, state.agents[id := MoveAgent(config, state.world, id, state.agents[id], ch).1]);
      acts := acts + [Move(id, ch)];
    }

    /** A new handler comes up. */
    method Begin(act: Action) returns (id: nat)
      requires Valid() && |Step(config, state, act).agents| == |state.agents| + 1
      modifies `state, `acts
      ensures Valid() && acts == old(acts) + [act]
      ensures state == Step(config, old(state), act) && id == |old(state.agents)|
    {
      id := |state.agents|;
      RunOneMore(config, start, acts, act);
      state := Step(config, state, act);
      acts := acts + [act];
    }

    // ----- ProcessingService ---------------------------------------------------

    /** Looks the connector up and calls it until it returns or the retries are used up. */
    method ExecuteWithRetry(id: nat, event: Event) returns (success: bool)
      requires Valid() && id < |state.agents| && state.agents[id].pc == Looking && state.agents[id].job.event == event
      modifies this
      ensures Valid() && old(acts) <= acts && id < |state.agents|
      ensures var a := old(state.agents[id]);
              state.agents[id] == if !success then ProcessingFailed(a)
                                  else if a.job.IsRetry() then a.(pc := Resolving)
                                  else Announce(config, a, Success)
    {
      var ch := Await(id);
      Arrive(id, ch, state.world);
      if !(ch.found && ch.ok) {
        return false;
      }
      var maxRetries := ch.retries;
      var attempt := 0;
      while true
        invariant Valid() && old(acts) <= acts && 0 <= attempt <= maxRetries
        invariant id < |state.agents| && state.agents[id] == old(state.agents[id]).(pc := Calling(attempt, maxRetries))
        decreases maxRetries - attempt
      {
        ch := Await(id);
        Arrive(id, ch, state.world.(calls := state.world.calls + [Call(id, event, ch.outcome)]));
        match ch.outcome
        case Succeeded =>
          return true;
        case Refused =>
          return false;
        case Threw =>
          if attempt == maxRetries {
            return false;
          }
          attempt := attempt + 1;
      }
    }

    /** `add` of the dead-letter service: the insert, then the count. */
    method Add(id: nat, event: Event, retryCount: nat) returns (verdict: Verdict)
      requires Valid() && id < |state.agents| && state.agents[id].pc == Creating(retryCount)
      requires state.agents[id].job.event == event
      modifies this
      ensures Valid() && old(acts) <= acts && id < |state.agents| && !verdict.Success?
      ensures state.agents[id] == Announce(config, old(state.agents[id]), verdict)
    {
      var ch := Await(id);
      if !ch.ok {
        Arrive(id, ch, state.world);
        return Unaccepted(false);
      }
      var row := DeadLetter(id, NewItem(event, "failed", retryCount), 0);
      Arrive(id, ch, state.world.(dead := state.world.dead + [row]));
      ch := Await(id);
      Arrive(id, ch, state.world);
      verdict := if ch.ok then Durable else Unaccepted(true);
    }

    /** Delivers the event or turns it into a dead letter. */
    method Process(id: nat, event: Event) returns (verdict: Verdict)
      requires Valid() && id < |state.agents| && state.agents[id].pc == Looking && state.agents[id].job.event == event
      requires !state.agents[id].job.IsRetry()
      modifies this
      ensures Valid() && old(acts) <= acts && id < |state.agents|
      ensures state.agents[id] == Announce(config, old(state.agents[id]), verdict)
    {
      var success := ExecuteWithRetry(id, event);
      if success {
        return Success;
      }
      var ch := Await(id);
      Arrive(id, ch, state.world);
      if !ch.ok {
        return Unaccepted(false);
      }
      verdict := Add(id, event, ch.retries);
    }

    /** `resolve` of the dead-letter service: the update, then the count. */
    method Resolve(id: nat, item: nat) returns (ok: bool)
      requires Valid() && id < |state.agents| && state.agents[id].pc == Resolving && state.agents[id].job.item == item
      modifies this
      ensures Valid() && old(acts) <= acts && id < |state.agents|
      ensures state.agents[id] == if ok then Announce(config, old(state.agents[id]), Success)
                                  else old(state.agents[id]).(pc := MarkingFailed)
    {
      var ch := Await(id);
      if !ch.ok {
        Arrive(id, ch, state.world);
        return false;
      }
      Arrive(id, ch, SetItem(state.world, item, MarkedResolved(state.world.dead[item].item)));
      ch := Await(id);
      Arrive(id, ch, state.world);
      ok := ch.ok;
    }

    /** `markRetryFailed` of the dead-letter service; the retry throws whether or not it does. */
    method MarkRetryFailed(id: nat, item: nat)
      requires Valid() && id < |state.agents|
      requires state.agents[id].pc == MarkingFailed && state.agents[id].job.item == item
      modifies this
      ensures Valid() && old(acts) <= acts && id < |state.agents|
      ensures state.agents[id] == Announce(config, old(state.agents[id]), Unaccepted(true))
    {
      var ch := Await(id);
      if ch.ok {
        Arrive(id, ch, SetItem(state.world, item, MarkedFailed(state.world.dead[item].item, "failed")));
      } else {
        Arrive(id, ch, state.world);
      }
    }

    /** Repeats a dead letter's event; a count that throws after `resolve` ends in the catch path. */
    method ProcessRetry(id: nat, event: Event, item: nat) returns (success: bool)
      requires Valid() && id < |state.agents| && state.agents[id].pc == Looking && state.agents[id].job.event == event
      requires state.agents[id].job.IsRetry() && state.agents[id].job.item == item
      modifies this
      ensures Valid() && old(acts) <= acts && id < |state.agents|
      ensures state.agents[id]
              == Announce(config, old(state.agents[id]), if success then Success else Unaccepted(true))
    {
      success := ExecuteWithRetry(id, event);
      if success {
        success := Resolve(id, item);
      }
      if !success {
        MarkRetryFailed(id, item);
      }
    }

    /** Answers a read from the connector; `None` when it throws. */
    method ProcessWithResult(id: nat, event: Event) returns (result: Option<bool>)
      requires Valid() && id < |state.agents| && state.agents[id].pc == Reading && state.agents[id].job.event == event
      modifies this
      ensures Valid() && old(acts) <= acts && id < |state.agents|
      ensures var a := old(state.agents[id]);
              state.agents[id] == if result.Some? then a.(pc := Ended(Answered)) else StartRelease(config, a)
    {
      var ch := Await(id);
      if !ch.found {
        Arrive(id, ch, state.world);
        return None;
      }
      Arrive(id, ch, state.world.(calls := state.world.calls + [Call(id, event, ch.outcome)]));
      if ch.outcome == Succeeded || (ch.outcome == Refused && ch.native) {
        return Some(ch.outcome == Succeeded);
      }
      result := None;
    }

    // ----- DispatcherService ------------------------------------------------------

    /** Queues the event, or processes it and publishes the outcome. `held` is the handler before. */
    method Dispatch(id: nat, ghost held: Agent, event: Event) returns (result: Dispatched)
      requires Valid() && held.job.Webhook? && held.job.node < |config.nodes| && held.job.event == event
      requires id < |state.agents| && state.agents[id] == StartDispatch(config, held)
      modifies this
      ensures Valid() && old(acts) <= acts && id < |state.agents|
      ensures state.agents[id] == match result
                                  case Returned => held.(pc := Ended(if config.async then End.Queued else Delivered))
                                  case Raised(durable) => if durable then held.(pc := Ended(DeadLettered))
                                                          else StartRelease(config, held)
    {
      var ch;
      if config.async {
        if !config.kafka {
          return Raised(false);
        }
        ch := Await(id);
        if !ch.ok {
          Arrive(id, ch, state.world);
          return Raised(false);
        }
        Arrive(id, ch, state.world.(inbox := state.world.inbox + [Queued.Queued(id, event)]));
        return Returned;
      }
      var verdict := Process(id, event);
      if verdict == Success && config.kafka {
        ch := Await(id);
        Arrive(id, ch, state.world);
        if !ch.ok {
          verdict := Unaccepted(false); // the failed send is now the error
        }
      }
      if verdict == Success {
        return Returned;
      }
      if config.kafka {
        ch := Await(id);
        Arrive(id, ch, state.world);
        if !ch.ok {
          return Raised(false);
        }
      }
      result := Raised(verdict == Durable);
    }

    // ----- IdempotencyService, WebhookService -------------------------------------

    /** Looks the candidates up one by one if there are several, then writes the first. */
    method CheckAndLock(id: nat, node: nat, event: Event) returns (locked: bool, raised: bool, ghost held: Agent)
      requires Valid() && node < |config.nodes| && id < |state.agents|
      requires var a := state.agents[id];
               && a.job.Webhook? && a.job.node == node && a.job.event == event && a.lockedAt == None
               && a.pc == FirstPc(config, a.job)
      modifies this
      ensures Valid() && old(acts) <= acts && id < |state.agents|
      ensures var a, b := old(state.agents[id]), state.agents[id];
              && !(locked && raised)
              && (raised ==> b == a.(pc := Ended(Failed)))
              && (!raised && !locked ==> b.pc.Ended? && b.pc.end.Rejected? && b == a.(pc := b.pc))
              && held == a.(lockedAt := b.lockedAt)
              && (locked ==>
                    && b.lockedAt.Some? && b.lockedAt.value <= state.world.now
                    && b == if a.job.read then held.(pc := Reading) else StartDispatch(config, held))
    {
      hide MoveProcessing, MoveRetry, Run;
      ghost var a := state.agents[id];
      var keys := Candidates(config.nodes[node], KeyOf(event));
      var ch;
      if |keys| > 1 {
        for i := 0 to |keys|
          invariant Valid() && old(acts) <= acts && id < |state.agents|
          invariant state.agents[id] == a.(pc := if i < |keys| then Checking(i) else Locking)
        {
          ch := Await(id);
          var seen := Live(state.world.rows, keys[i], state.world.now);
          Arrive(id, ch, state.world);
          if !ch.ok {
            return false, true, a;
          }
          if seen {
            return false, false, a;
          }
        }
      }
      ch := Await(id);
      raised := false;
      if !ch.ok {
        Arrive(id, ch, state.world);
        return false, false, a;
      }
      var now := state.world.now;
      var written := SetNx(state.world.rows, keys[0], TTL_SECONDS, now, now, now);
      locked := written.1;
      Arrive(id, ch, if locked then state.world.(rows := written.0) else state.world);
      held := a.(lockedAt := state.agents[id].lockedAt);
    }

    /** All deletions are issued together and complete in any order; the store swallows their errors. */
    method Release(id: nat, node: nat, event: Event) returns (ghost failed: set<StoredKey>)
      requires Valid() && node < |config.nodes| && id < |state.agents|
      requires var a := state.agents[id];
               && a.job.Webhook? && a.job.node == node && a.job.event == event
               && a.pc == Releasing(KeySet(config, a.job)) && a.released == {}
      modifies this
      ensures Valid() && old(acts) <= acts && id < |state.agents|
      ensures var a := old(state.agents[id]);
              state.agents[id] == a.(pc := Ended(Abandoned(false)), released := KeySet(config, a.job) - failed)
    {
      hide MoveProcessing, MoveRetry, Run;
      ghost var a := state.agents[id];
      ghost var all := KeySet(config, a.job);
      var left := set k | k in Candidates(config.nodes[node], KeyOf(event));
      failed := {};
      while left != {}
        invariant left <= all && failed <= all - left
        invariant Valid() && old(acts) <= acts && id < |state.agents|
        invariant state.agents[id] == a.(pc := if left == {} then Ended(Abandoned(false)) else Releasing(left),
                                         released := all - left - failed)
      {
        var k :| k in left;
        var ch := Await(id);
        ch := ch.(key := k);
        if ch.ok {
          Arrive(id, ch, state.world.(rows := state.world.rows - {k}));
        } else {
          Arrive(id, ch, state.world);
          failed := failed + {k};
        }
        left := left - {k};
      }
    }

    /** The whole handler of one webhook; it always runs to an end. */
    method ProcessWebhook(node: nat, event: Event, read: bool) returns (answer: Answer, id: nat)
      requires Valid() && node < |config.nodes|
      modifies this
      ensures Valid() && old(acts) <= acts && |old(state.agents)| <= id < |state.agents|
      ensures state.agents[id].job == Webhook(node, event, read)
      ensures state.agents[id].pc.Ended? && AnswerFits(answer, state.agents[id].pc.end)
    {
      id := Begin(Receive(node, event, read));
      var locked, raised;
      ghost var held;
      locked, raised, held := CheckAndLock(id, node, event);
      if raised {
        return Error, id;
      }
      if !locked {
        return Duplicate, id;
      }
      if read {
        var result := ProcessWithResult(id, event);
        if result.Some? {
          return Processed(result.value), id;
        }
      } else {
        var result := Dispatch(id, held, event);
        if result == Returned {
          return Processed(true), id;
        }
        if result == Raised(true) {
          return Error, id;
        }
      }
      ghost var failed := Release(id, node, event);
      answer := Error;
    }

    /** Whatever everyone else does meanwhile, an accepted write of a handler here left its own mark. */
    lemma AcceptedWriteLeavesMark(id: nat, rows: Rows, now: int)
      requires Valid() && start == Start(rows, now) && id < |state.agents|
      requires var a := state.agents[id];
               && a.job.Webhook? && !a.job.read && a.pc.Ended?
               && (AnswerFits(Processed(true), a.pc.end) || a.pc.end == DeadLettered)
      ensures var e := state.agents[id].job.event;
              match state.agents[id].pc.end
              case Delivered => SuccessBy(state.world, id, e)
              case Queued => QueuedBy(state.world, id, e)
              case _ => RowBy(state.world, id, e)
    {
      DeliveryEvidence.RunKeepsInv(config, Start(rows, now), acts);
      assert KeyState(config, state.agents[id]) && Evidence(state.world, id, state.agents[id]);
    }

    // ----- KafkaConsumerService ----------------------------------------------------

    /** Handles one message of either topic; every error ends here. */
    method EachMessage(retryTopic: bool, index: nat) returns (id: nat)
      requires Valid() && index < if retryTopic then |state.world.retries| else |state.world.inbox|
      modifies this
      ensures Valid() && old(acts) <= acts && |old(state.agents)| <= id < |state.agents|
      ensures var w := old(state.world);
              state.agents[id].job ==
              if retryTopic then RetryWork(w.retries[index].claimant, w.retries[index].item, w.retries[index].event)
              else EventWork(w.inbox[index].event)
      ensures state.agents[id].pc.Ended?
      ensures var end := state.agents[id].pc.end;
              end == Delivered || (if retryTopic then end == Requeued else end == DeadLettered || end.Abandoned?)
    {
      if retryTopic {
        var m := state.world.retries[index];
        id := Begin(ConsumeRetry(index));
        var success := ProcessRetry(id, m.event, m.item);
      } else {
        var event := state.world.inbox[index].event;
        id := Begin(Consume(index));
        var verdict := Process(id, event);
      }
      var ch := Await(id); // publishing the status; its failure is logged only
      Arrive(id, ch, state.world);
    }

    // ----- AdminService --------------------------------------------------------------

    /** `retry` of the dead-letter service: the claiming update, then the count. */
    method Claim(id: nat, item: nat) returns (outcome: RetryOutcome)
      requires Valid() && id < |state.agents| && state.agents[id].pc == Claiming && state.agents[id].job.item == item
      modifies this
      ensures Valid() && old(acts) <= acts && id < |state.agents|
      ensures state.agents[id].job == old(state.agents[id]).job
      ensures if outcome == Sent then state.agents[id].pc == if config.kafka then Requeueing else Looking
              else state.agents[id].pc.Ended? && EndFits(outcome, state.agents[id].pc.end)
    {
      var ch := Await(id);
      if !ch.ok {
        Arrive(id, ch, state.world);
        return Thrown;
      }
      if !Claimable(state.world.dead[item].item, state.world.now - ch.leaseMs) {
        Arrive(id, ch, state.world);
        return NotMine;
      }
      Arrive(id, ch, SetClaimed(state.world, item, id));
      ch := Await(id);
      Arrive(id, ch, state.world);
      outcome := if ch.ok then Sent else Thrown;
    }

    /** Hands a claimed item to the queue, or repeats its event here. */
    method RetryItem(id: nat, item: nat, event: Event) returns (sent: bool)
      requires Valid() && id < |state.agents| && state.agents[id].job == OperatorRetry(item, event)
      requires state.agents[id].pc == if config.kafka then Requeueing else Looking
      modifies this
      ensures Valid() && old(acts) <= acts && id < |state.agents|
      ensures state.agents[id].job == OperatorRetry(item, event) && state.agents[id].pc.Ended?
      ensures EndFits(if sent then Sent else Thrown, state.agents[id].pc.end)
    {
      if config.kafka {
        var ch := Await(id);
        if ch.ok {
          Arrive(id, ch, state.world.(retries := state.world.retries + [RetryMessage(id, item, event)]));
        } else {
          Arrive(id, ch, state.world);
        }
        return ch.ok;
      }
      sent := ProcessRetry(id, event, item);
    }

    /** Claims an item and repeats its event here or through the queue. */
    method Retry(item: nat) returns (outcome: RetryOutcome, id: nat)
      requires Valid() && item < |state.world.dead|
      modifies this
      ensures Valid() && old(acts) <= acts && |old(state.agents)| <= id < |state.agents|
      ensures state.agents[id].job == OperatorRetry(item, old(state.world).dead[item].item.event)
      ensures state.agents[id].pc.Ended? && EndFits(outcome, state.agents[id].pc.end)
    {
      var event := state.world.dead[item].item.event;
      id := Begin(Action.Retry(item));
      outcome := Claim(id, item);
      if outcome == Sent {
        var sent := RetryItem(id, item, event);
        outcome := if sent then Sent else Thrown;
      }
    }

    /** The next item of the list; `ids` are the handlers of the ones before. */
    method RetryNext(item: nat, ghost ids: seq<nat>, ghost items: seq<nat>, ghost outcomes: seq<RetryOutcome>)
      returns (outcome: RetryOutcome, id: nat)
      requires Valid() && item < |state.world.dead| && Reported(state.agents, ids, items, outcomes)
      modifies this
      ensures Valid() && old(acts) <= acts && |old(state.world.dead)| <= |state.world.dead|
      ensures |old(state.agents)| <= id < |state.agents|
      ensures Reported(state.agents, ids + [id], items + [item], outcomes + [outcome])
    {
      ghost var before := acts;
      outcome, id := Retry(item);
      ReportsStay(before, ids, items, outcomes, id, item, outcome);
    }

    /** Retries the listed items one after the other and reports each outcome in the figure it belongs to. */
    method RetryMany(items: seq<nat>)
      returns (queued: nat, skipped: nat, errors: seq<nat>, ghost outcomes: seq<RetryOutcome>, ghost ids: seq<nat>)
      requires Valid() && forall k :: k in items ==> k < |state.world.dead|
      modifies this
      ensures Valid() && old(acts) <= acts
      ensures Reported(state.agents, ids, items, outcomes) && New(ids, |old(state.agents)|, |state.agents|)
      ensures Figures(items, outcomes, queued, skipped, errors)
    {
      hide Reported, New, Figures, Run, WellFormed;
      queued, skipped, errors, outcomes, ids := 0, 0, [], [], [];
      NothingReported(state.agents, items);
      for i := 0 to |items|
        invariant Valid() && old(acts) <= acts && forall k :: k in items ==> k < |state.world.dead|
        invariant |outcomes| == i && Reported(state.agents, ids, items[..i], outcomes)
        invariant |old(state.agents)| <= |state.agents| && New(ids, |old(state.agents)|, |state.agents|)
        invariant Figures(items[..i], outcomes, queued, skipped, errors)
      {
        assert items[i] in items;
        ghost var before := |state.agents|;
        var outcome, id := RetryNext(items[i], ids, items[..i], outcomes);
        OneMoreOutcome(items[..i], items[i], outcomes, outcome, queued, skipped, errors);
        NewAppend(ids, |old(state.agents)|, before, id, |state.agents|);
        assert items[..i + 1] == items[..i] + [items[i]];
        outcomes, ids := outcomes + [outcome], ids + [id];
        match outcome
        case Sent => queued := queued + 1;
        case NotMine => skipped := skipped + 1;
        case Thrown => errors := errors + [items[i]];
      }
      assert items[..|items|] == items;
    }
  }
}
