/** Where the guarantees of the delivery protocol stop, and exactly why. */
module DeliveryLimits {
  import opened Common
  import opened Events
  import opened Idempotency
  import opened Delivery
  import opened DeliveryExclusion

  /** No timely run of this deployment ever has two handlers of one key past the lock. */
  ghost predicate NeverTogether(c: Config)
    requires c.Valid()
  {
    forall rows, now, acts :: TimelyRun(c, Start(rows, now), acts) ==> Exclusive(c, Run(c, Start(rows, now), acts))
  }

  const CALM := Choice(true, true, false, Threw, 1, Plain(""), 0)
  const SAMPLE := Event("42", "user.create", "erp", "{}")

  lemma {:induction false} TimelyConcat(c: Config, s: State, xs: seq<Action>, ys: seq<Action>)
    requires c.Valid() && WellFormed(c, s) && TimelyRun(c, s, xs) && TimelyRun(c, Run(c, s, xs), ys)
    ensures Run(c, s, xs + ys) == Run(c, Run(c, s, xs), ys)
    ensures TimelyRun(c, s, xs + ys)
    decreases |xs|
  {
    if xs == [] {
      assert xs + ys == ys;
    } else {
      StepGrows(c, s, xs[0]);
      assert (xs + ys)[0] == xs[0] && (xs + ys)[1..] == xs[1..] + ys;
      TimelyConcat(c, Step(c, s, xs[0]), xs[1..], ys);
    }
  }

  lemma OneStep(c: Config, s: State, act: Action)
    requires c.Valid() && WellFormed(c, s) && Timely(c, s)
    requires WellFormed(c, Step(c, s, act)) ==> Timely(c, Step(c, s, act))
    ensures Run(c, s, [act]) == Step(c, s, act) && TimelyRun(c, s, [act])
  {
    StepGrows(c, s, act);
    var t := Step(c, s, act);
    assert Run(c, t, []) == t && TimelyRun(c, t, []);
    assert [act][1..] == [];
  }

  /** A webhook that finds no key in the store. */
  predicate Newcomer(c: Config, s: State, id: nat)
    requires c.Valid() && WellFormed(c, s)
  {
    && id < |s.agents| && s.agents[id].job.Webhook? && s.agents[id].lockedAt.None? && s.world.rows == map[]
    && (s.agents[id].pc.Locking? || (s.agents[id].pc.Checking? && s.agents[id].pc.next < |AllKeys(c, s.agents[id].job)|))
  }

  function AtLock(s: State, id: nat): State
    requires id < |s.agents|
  {
    State(s.world, s.agents[id := s.agents[id].(pc := Locking)])
  }

  /** With an empty store a newcomer passes all its lookups and nothing else happens. */
  lemma {:induction false} LookupsPass(c: Config, s: State, id: nat) returns (acts: seq<Action>)
    requires c.Valid() && WellFormed(c, s) && Timely(c, s) && Newcomer(c, s, id)
    ensures TimelyRun(c, s, acts) && Run(c, s, acts) == AtLock(s, id)
    decreases if s.agents[id].pc.Checking? then |AllKeys(c, s.agents[id].job)| - s.agents[id].pc.next else 0
  {
    acts := [];
    if s.agents[id].pc.Checking? {
      var act := Move(id, CALM);
      StepGrows(c, s, act);
      var t := Step(c, s, act);
      assert Timely(c, t) by {
        forall i | 0 <= i < |t.agents| && InFlight(c, t.agents[i])
          ensures t.world.now < t.agents[i].lockedAt.value + TTL_MS
        {
          assert i != id && InFlight(c, s.agents[i]);
        }
      }
      assert Newcomer(c, t, id);
      var rest := LookupsPass(c, t, id);
      acts := [act] + rest;
      assert acts[1..] == rest;
      assert AtLock(t, id) == AtLock(s, id);
    } else {
      assert s.agents[id := s.agents[id].(pc := Locking)] == s.agents;
    }
  }

  /** Two newcomers of one source on instances with different writing keys. */
  ghost predicate TwoNewcomers(c: Config, s: State) {
    && c.Valid() && WellFormed(c, s) && |s.agents| == 2 && s.world.rows == map[]
    && Newcomer(c, s, 0) && Newcomer(c, s, 1)
    && KeyOf(s.agents[0].job.event) == KeyOf(s.agents[1].job.event)
    && HeadOf(c, s.agents[0].job) != HeadOf(c, s.agents[1].job)
    && s.agents[0].released == {} && s.agents[1].released == {}
    && !s.agents[0].job.read && !s.agents[1].job.read
  }

  lemma NobodyInFlight(c: Config, s: State)
    requires WellFormed(c, s)
    requires forall i :: 0 <= i < |s.agents| ==> s.agents[i].lockedAt.None?
    ensures Timely(c, s)
  {
  }

  lemma ArriveBoth(c: Config, i: nat, j: nat) returns (acts: seq<Action>)
    requires c.Valid() && i < |c.nodes| && j < |c.nodes|
    requires Head(c.nodes[i], KeyOf(SAMPLE)) != Head(c.nodes[j], KeyOf(SAMPLE))
    ensures TimelyRun(c, Start(map[], 0), acts) && TwoNewcomers(c, Run(c, Start(map[], 0), acts))
  {
    var s := Start(map[], 0);
    var a, b := Receive(i, SAMPLE, false), Receive(j, SAMPLE, false);
    StepGrows(c, s, a);
    var s1 := Step(c, s, a);
    NobodyInFlight(c, s);
    NobodyInFlight(c, s1);
    OneStep(c, s, a);
    StepGrows(c, s1, b);
    var s2 := Step(c, s1, b);
    NobodyInFlight(c, s2);
    OneStep(c, s1, b);
    TimelyConcat(c, s, [a], [b]);
    acts := [a] + [b];
  }

  lemma LockStep(c: Config, s: State, id: nat)
    requires c.Valid() && WellFormed(c, s) && id < |s.agents|
    requires s.agents[id].job.Webhook? && s.agents[id].pc.Locking? && !s.agents[id].job.read
    requires s.agents[id].released == {} && HeadOf(c, s.agents[id].job) !in s.world.rows
    ensures WellFormed(c, Step(c, s, Move(id, CALM)))
    ensures var t := Step(c, s, Move(id, CALM));
            && t.agents == s.agents[id := t.agents[id]]
            && t.agents[id].job == s.agents[id].job
            && InFlight(c, t.agents[id]) && t.agents[id].lockedAt == Some(s.world.now)
            && t.world.now == s.world.now
            && forall k :: k in t.world.rows ==> k == HeadOf(c, s.agents[id].job) || k in s.world.rows
  {
    StepGrows(c, s, Move(id, CALM));
  }

  /** Both newcomers get past the lock. */
  lemma BothLock(c: Config, s: State) returns (acts: seq<Action>)
    requires TwoNewcomers(c, s) && s.agents[0].pc.Locking? && s.agents[1].pc.Locking?
    requires Timely(c, s)
    ensures TimelyRun(c, s, acts) && !Exclusive(c, Run(c, s, acts))
  {
    var a, b := Move(0, CALM), Move(1, CALM);
    LockStep(c, s, 0);
    var s1 := Step(c, s, a);
    assert Timely(c, s1);
    OneStep(c, s, a);
    LockStep(c, s1, 1);
    var s2 := Step(c, s1, b);
    assert s2.agents[0] == s1.agents[0];
    assert Timely(c, s2);
    OneStep(c, s1, b);
    TimelyConcat(c, s, [a], [b]);
    acts := [a] + [b];
    assert InFlight(c, s2.agents[0]) && InFlight(c, s2.agents[1]);
  }

  lemma DifferentHeadsMeet(c: Config, i: nat, j: nat)
    requires c.Valid() && i < |c.nodes| && j < |c.nodes|
    requires Head(c.nodes[i], KeyOf(SAMPLE)) != Head(c.nodes[j], KeyOf(SAMPLE))
    ensures !NeverTogether(c)
  {
    var start := Start(map[], 0);
    var arrive := ArriveBoth(c, i, j);
    var s := Run(c, start, arrive);
    NobodyInFlight(c, s);
    var first := LookupsPass(c, s, 0);
    var t := Run(c, s, first);
    assert TwoNewcomers(c, t);
    NobodyInFlight(c, t);
    var second := LookupsPass(c, t, 1);
    var u := Run(c, t, second);
    assert TwoNewcomers(c, u);
    NobodyInFlight(c, u);
    var last := BothLock(c, u);
    TimelyConcat(c, t, second, last);
    TimelyConcat(c, s, first, second + last);
    TimelyConcat(c, start, arrive, first + (second + last));
    var acts := arrive + (first + (second + last));
    assert TimelyRun(c, Start(map[], 0), acts) && !Exclusive(c, Run(c, Start(map[], 0), acts));
  }

  /**
   * Exactly which deployments exclude concurrent handling of one key: those whose
   * instances all write under the same active key.
   */
  lemma ExclusionIffSharedActiveKey(c: Config)
    requires c.Valid()
    ensures NeverTogether(c) <==> SharedHead(c)
  {
    if SharedHead(c) {
      forall rows, now, acts | TimelyRun(c, Start(rows, now), acts)
        ensures Exclusive(c, Run(c, Start(rows, now), acts))
      {
        MutualExclusion(c, rows, now, acts);
      }
    } else {
      var i, j :| 0 <= i < |c.nodes| && 0 <= j < |c.nodes|
                  && !(&& c.nodes[i].hmac == c.nodes[j].hmac
                       && (c.nodes[i].hmac ==> c.nodes[i].active == c.nodes[j].active));
      DifferentHeadsMeet(c, i, j);
    }
  }
}
