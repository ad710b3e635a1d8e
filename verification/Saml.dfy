/** Signed SAML request ids: each may be consumed once, and the record of consumed ids is pruned as they expire. */
module Saml {
  import opened Common

  /** What a correctly signed id carries. */
  datatype Payload = Payload(iat: int, exp: int)

  /** `signed` tells what a payload text carries when the signature text signs it. */
  type Signed = (string, string) -> Option<Payload>

  const REQUEST_ID_PREFIX := "_idmmw_"

  /** Payload and signature of a key text: the first two parts of what follows the prefix. */
  function IdOf(key: string): Option<(string, string)> {
    if !(REQUEST_ID_PREFIX <= key) then None
    else
      var parts := Split(key[|REQUEST_ID_PREFIX|..], '.');
      if |parts| < 2 || parts[0] == "" || parts[1] == "" then None else Some((parts[0], parts[1]))
  }

  function Carried(signed: Signed, key: string): Option<Payload> {
    match IdOf(key)
    case None => None
    case Some((payload, signature)) => signed(payload, signature)
  }

  function Verify(signed: Signed, key: string, now: int): Option<Payload> {
    var carried := Carried(signed, key);
    if carried.Some? && carried.value.exp >= now then carried else None
  }

  function Pruned(used: map<string, int>, now: int): map<string, int> {
    map k | k in used && used[k] >= now :: used[k]
  }

  // ----- Calls as values -----------------------------------------------------------------

  datatype Call =
    | Get(key: string, now: int, later: int)
    | Remove(id: Option<string>, now: int, later: int)

  function Apply(signed: Signed, used: map<string, int>, call: Call): (map<string, int>, Option<int>) {
    match call
    case Get(key, now, later) =>
      var payload := Verify(signed, key, now);
      if payload.None? then (used, None)
      else
        var kept := Pruned(used, later);
        (kept, if key in kept then None else Some(payload.value.iat))
    case Remove(id, now, later) =>
      if id.None? || id.value == "" then (used, None)
      else
        var payload := Verify(signed, id.value, now);
        if payload.None? then (used, None)
        else (Pruned(used, later)[id.value := payload.value.exp], Some(payload.value.iat))
  }

  /** The simple thing: a set of consumed ids that only grows. */
  function ApplyForever(signed: Signed, consumed: set<string>, call: Call): (set<string>, Option<int>) {
    match call
    case Get(key, now, _) =>
      var payload := Verify(signed, key, now);
      (consumed, if payload.None? || key in consumed then None else Some(payload.value.iat))
    case Remove(id, now, _) =>
      if id.None? || id.value == "" then (consumed, None)
      else
        var payload := Verify(signed, id.value, now);
        if payload.None? then (consumed, None)
        else (consumed + {id.value}, Some(payload.value.iat))
  }

  function Answers(signed: Signed, used: map<string, int>, calls: seq<Call>): seq<Option<int>>
    decreases |calls|
  {
    if calls == [] then []
    else
      var (after, answer) := Apply(signed, used, calls[0]);
      [answer] + Answers(signed, after, calls[1..])
  }

  function AnswersForever(signed: Signed, consumed: set<string>, calls: seq<Call>): seq<Option<int>>
    decreases |calls|
  {
    if calls == [] then []
    else
      var (after, answer) := ApplyForever(signed, consumed, calls[0]);
      [answer] + AnswersForever(signed, after, calls[1..])
  }

  /** The clock never goes back, within a call or from call to call. */
  predicate Timely(calls: seq<Call>, clock: int) {
    calls == [] || (clock <= calls[0].now <= calls[0].later && Timely(calls[1..], calls[0].later))
  }

  /** The id does not expire between the two clock readings of the call. */
  predicate OutlivesCall(signed: Signed, call: Call) {
    call.Get? && Carried(signed, call.key).Some? && call.now <= Carried(signed, call.key).value.exp
    ==> call.later <= Carried(signed, call.key).value.exp
  }

  // ----- The service --------------------------------------------------------------------

  /** `now` and `later` are the clock readings of the signature check and of the pruning. */
  class SignedSamlRequestCacheProvider {
    const signed: Signed
    var used: map<string, int>

    constructor (signed: Signed)
      ensures this.signed == signed && used == map[]
    {
      this.signed, used := signed, map[];
    }

    method Prune(now: int)
      modifies this
      ensures used == Pruned(old(used), now)
    {
      var left := used.Keys;
      while left != {}
        invariant left <= old(used).Keys
        invariant used == map k | k in old(used) && (k in left || old(used)[k] >= now) :: old(used)[k]
        decreases left
      {
        var key :| key in left;
        if used[key] < now {
          used := used - {key};
        }
        left := left - {key};
      }
    }

    method GetAsync(key: string, now: int, later: int) returns (issued: Option<int>)
      modifies this
      ensures (used, issued) == Apply(signed, old(used), Get(key, now, later))
    {
      var payload := Verify(signed, key, now);
      if payload.None? {
        return None;
      }
      Prune(later);
      if key in used {
        return None;
      }
      return Some(payload.value.iat);
    }

    method RemoveAsync(key: Option<string>, now: int, later: int) returns (issued: Option<int>)
      modifies this
      ensures (used, issued) == Apply(signed, old(used), Remove(key, now, later))
    {
      if key.None? || key.value == "" {
        return None;
      }
      var payload := Verify(signed, key.value, now);
      if payload.None? {
        return None;
      }
      Prune(later);
      used := used[key.value := payload.value.exp];
      return Some(payload.value.iat);
    }
  }

  // ----- Which texts carry one id ------------------------------------------------------------

  function IdText(payload: string, signature: string): string {
    REQUEST_ID_PREFIX + payload + "." + signature
  }

  lemma TextOfId(key: string)
    requires IdOf(key).Some?
    ensures var (payload, signature) := IdOf(key).value;
            && payload != "" && signature != "" && '.' !in payload && '.' !in signature
            && (key == IdText(payload, signature) || IdText(payload, signature) + "." <= key)
  {
    var body := key[|REQUEST_ID_PREFIX|..];
    var parts := Split(body, '.');
    JoinSplit(body, '.');
    assert key == REQUEST_ID_PREFIX + body;
    assert body == parts[0] + "." + Join(parts[1..], ".");
    if |parts| == 2 {
      assert parts[1..] == [parts[1]];
      assert key == IdText(parts[0], parts[1]);
    } else {
      var rest := Join(parts[1..][1..], ".");
      assert Join(parts[1..], ".") == parts[1] + "." + rest;
      assert key == IdText(parts[0], parts[1]) + "." + rest;
    }
  }

  /**
   * Exactly which key texts carry a given id: its two parts behind the prefix, alone
   * or followed by a dot and anything.
   */
  lemma IdTextsIff(key: string, payload: string, signature: string)
    ensures IdOf(key) == Some((payload, signature)) <==>
            && payload != "" && signature != "" && '.' !in payload && '.' !in signature
            && var id := "_idmmw_" + payload + "." + signature;
               key == id || id + "." <= key
  {
    var id := IdText(payload, signature);
    if IdOf(key) == Some((payload, signature)) {
      TextOfId(key);
    }
    if payload != "" && signature != "" && '.' !in payload && '.' !in signature {
      IdRead(payload, signature, if id + "." <= key then key[|id| + 1..] else "");
      assert id + "." <= key ==> key == id + "." + key[|id| + 1..];
    }
  }

  lemma IdRead(payload: string, signature: string, rest: string)
    requires payload != "" && signature != "" && '.' !in payload && '.' !in signature
    ensures IdOf(IdText(payload, signature)) == Some((payload, signature))
    ensures IdOf(IdText(payload, signature) + "." + rest) == Some((payload, signature))
  {
    hide Split;
    var id := IdText(payload, signature);
    SplitPrefix(signature, rest, '.');
    SplitPrefix(payload, signature, '.');
    SplitPrefix(payload, signature + "." + rest, '.');
    assert id[|REQUEST_ID_PREFIX|..] == payload + "." + signature;
    assert (id + "." + rest)[|REQUEST_ID_PREFIX|..] == payload + "." + (signature + "." + rest);
  }

  // ----- Pruning forgets only what can no longer matter ----------------------------------

  /** The pruned record holds the expiry of every consumed id that has not expired. */
  ghost predicate Agrees(signed: Signed, used: map<string, int>, consumed: set<string>, clock: int) {
    && used.Keys <= consumed
    && (forall k :: k in consumed ==> Carried(signed, k).Some?)
    && (forall k :: k in used ==> used[k] == Carried(signed, k).value.exp)
    && (forall k :: k in consumed && k !in used ==> Carried(signed, k).value.exp < clock)
  }

  lemma StepAgrees(signed: Signed, used: map<string, int>, consumed: set<string>, call: Call, clock: int)
    requires Agrees(signed, used, consumed, clock) && clock <= call.now <= call.later
    ensures Agrees(signed, Apply(signed, used, call).0, ApplyForever(signed, consumed, call).0, call.later)
  {
  }

  /** One answer differs exactly when a consumed id expires between the two clock readings of a lookup. */
  lemma AnswerAgreesIff(signed: Signed, used: map<string, int>, consumed: set<string>, call: Call, clock: int)
    requires Agrees(signed, used, consumed, clock) && clock <= call.now <= call.later
    ensures Apply(signed, used, call).1 == ApplyForever(signed, consumed, call).1 <==>
            (call.Get? && call.key in consumed ==> OutlivesCall(signed, call))
  {
    var carried := if call.Get? then Carried(signed, call.key) else None;
    if carried.Some? && call.now <= carried.value.exp && call.key in consumed {
      assert call.key in used;
      assert call.key in Pruned(used, call.later) <==> call.later <= Carried(signed, call.key).value.exp;
    }
  }

  /** Every lookup of an id consumed by then outlives its call. */
  predicate LookupsOutlive(signed: Signed, consumed: set<string>, calls: seq<Call>)
    decreases |calls|
  {
    calls != [] ==>
      && (calls[0].Get? && calls[0].key in consumed ==> OutlivesCall(signed, calls[0]))
      && LookupsOutlive(signed, ApplyForever(signed, consumed, calls[0]).0, calls[1..])
  }

  /**
   * Exactly when a whole sequence of calls is answered as by the set that is never
   * pruned: no id consumed by then expires between the two clock readings of a lookup.
   */
  lemma {:induction false} PruningIsInvisibleIff(signed: Signed, used: map<string, int>, consumed: set<string>,
                                                 calls: seq<Call>, clock: int)
    requires Agrees(signed, used, consumed, clock) && Timely(calls, clock)
    ensures Answers(signed, used, calls) == AnswersForever(signed, consumed, calls) <==>
            LookupsOutlive(signed, consumed, calls)
    decreases |calls|
  {
    if calls == [] {
    } else {
      AnswerAgreesIff(signed, used, consumed, calls[0], clock);
      StepAgrees(signed, used, consumed, calls[0], clock);
      var (usedThen, answer) := Apply(signed, used, calls[0]);
      var (consumedThen, expected) := ApplyForever(signed, consumed, calls[0]);
      PruningIsInvisibleIff(signed, usedThen, consumedThen, calls[1..], calls[0].later);
      HeadAndTail(answer, Answers(signed, usedThen, calls[1..]),
                  expected, AnswersForever(signed, consumedThen, calls[1..]));
    }
  }

  lemma HeadAndTail<T>(x: T, xs: seq<T>, y: T, ys: seq<T>)
    ensures [x] + xs == [y] + ys <==> x == y && xs == ys
  {
    assert ([x] + xs)[0] == x && ([x] + xs)[1..] == xs;
    assert ([y] + ys)[0] == y && ([y] + ys)[1..] == ys;
  }

  lemma {:induction false} OutlivingLookups(signed: Signed, consumed: set<string>, calls: seq<Call>)
    requires forall c :: c in calls ==> OutlivesCall(signed, c)
    ensures LookupsOutlive(signed, consumed, calls)
    decreases |calls|
  {
    if calls == [] {
    } else {
      OutlivingLookups(signed, ApplyForever(signed, consumed, calls[0]).0, calls[1..]);
    }
  }

  /** In particular when no id at all expires inside a lookup. */
  lemma PruningIsInvisible(signed: Signed, used: map<string, int>, consumed: set<string>, calls: seq<Call>, clock: int)
    requires Agrees(signed, used, consumed, clock) && Timely(calls, clock)
    requires forall c :: c in calls ==> OutlivesCall(signed, c)
    ensures Answers(signed, used, calls) == AnswersForever(signed, consumed, calls)
  {
    OutlivingLookups(signed, consumed, calls);
    PruningIsInvisibleIff(signed, used, consumed, calls, clock);
  }

  lemma {:induction false} ConsumedStaysRefused(signed: Signed, consumed: set<string>, calls: seq<Call>, i: nat)
    requires i < |calls| && calls[i].Get? && calls[i].key in consumed
    ensures |AnswersForever(signed, consumed, calls)| == |calls|
    ensures AnswersForever(signed, consumed, calls)[i] == None
    decreases |calls|
  {
    AnswersLength(signed, consumed, calls);
    if i == 0 {
    } else {
      ConsumedStaysRefused(signed, ApplyForever(signed, consumed, calls[0]).0, calls[1..], i - 1);
    }
  }

  lemma {:induction false} AnswersLength(signed: Signed, consumed: set<string>, calls: seq<Call>)
    ensures |AnswersForever(signed, consumed, calls)| == |calls|
    decreases |calls|
  {
    if calls == [] {
    } else {
      AnswersLength(signed, ApplyForever(signed, consumed, calls[0]).0, calls[1..]);
    }
  }

  /** After a removal that succeeds, every later lookup of the same key finds nothing. */
  lemma ConsumedOnce(signed: Signed, used: map<string, int>, consumed: set<string>, key: string, now: int, later: int,
                     calls: seq<Call>, i: nat, clock: int)
    requires Agrees(signed, used, consumed, clock) && clock <= now <= later && Timely(calls, later)
    requires forall c :: c in calls ==> OutlivesCall(signed, c)
    requires Apply(signed, used, Remove(Some(key), now, later)).1.Some?
    requires i < |calls| && calls[i].Get? && calls[i].key == key
    ensures var after := Apply(signed, used, Remove(Some(key), now, later)).0;
            |Answers(signed, after, calls)| == |calls| && Answers(signed, after, calls)[i] == None
  {
    var removal := Remove(Some(key), now, later);
    StepAgrees(signed, used, consumed, removal, clock);
    PruningIsInvisible(signed, Apply(signed, used, removal).0, ApplyForever(signed, consumed, removal).0, calls, later);
    ConsumedStaysRefused(signed, ApplyForever(signed, consumed, removal).0, calls, i);
  }

  /** The clock tick that matters: checked at the last valid instant, pruned one millisecond later. */
  lemma TickBetweenReadings(key: string)
    requires IdOf(key).Some?
    ensures var signed: Signed := (p, s) => Some(Payload(0, 600_000));
            && Answers(signed, map[], [Remove(Some(key), 1, 1), Get(key, 600_000, 600_001)]) == [Some(0), Some(0)]
            && AnswersForever(signed, {}, [Remove(Some(key), 1, 1), Get(key, 600_000, 600_001)]) == [Some(0), None]
  {
    var signed: Signed := (p, s) => Some(Payload(0, 600_000));
    var calls := [Remove(Some(key), 1, 1), Get(key, 600_000, 600_001)];
    var used: map<string, int> := map[key := 600_000];
    assert Apply(signed, map[], calls[0]) == (used, Some(0));
    assert Pruned(used, 600_001) == map[];
    assert calls[1..] == [calls[1]] && calls[1..][1..] == [];
    assert Answers(signed, used, calls[1..]) == [Some(0)];
    assert ApplyForever(signed, {}, calls[0]) == ({key}, Some(0)) by {
      assert {} + {key} == {key};
    }
    assert AnswersForever(signed, {key}, calls[1..]) == [None];
  }
}
