/**
 * Hiding secrets of a configuration and merging an edited, redacted copy back.
 * Which keys are secret is a parameter: a pattern over key names.
 */
module Redaction {
  import opened Common
  import opened Json

  type Pattern = string -> bool
  type Members = seq<Entry<Json>>

  const MASK := Str("***")
  const PLACEHOLDERS: set<string> := {"***", "*** preserved ***", "[REDACTED]"}

  predicate IsMasked(v: Json) {
    v.Str? && Trim(v.s) in PLACEHOLDERS
  }

  /** The three texts that stand for a value kept from view, with white space around them or not. */
  lemma MaskedIff(v: Json)
    ensures IsMasked(v) <==>
            v.Str? && (Trim(v.s) == "***" || Trim(v.s) == "*** preserved ***" || Trim(v.s) == "[REDACTED]")
  {
  }

  /** The keys of every object differ. */
  predicate KeysDiffer(v: Json) {
    match v
    case Arr(items) => forall i :: 0 <= i < |items| ==> KeysDiffer(items[i])
    case Obj(members) => DistinctKeys(members) && forall i :: 0 <= i < |members| ==> KeysDiffer(members[i].value)
    case _ => true
  }

  lemma OnlyObjectsClash(v: Json, items: seq<Json>)
    ensures !v.Arr? && !v.Obj? ==> KeysDiffer(v)
    ensures KeysDiffer(Arr(items)) <==> forall item :: item in items ==> KeysDiffer(item)
  {
    forall i | 0 <= i < |items|
      ensures items[i] in items
    {
    }
  }

  // ----- Redaction --------------------------------------------------------------------

  function Redact(secret: Pattern, v: Json): Json
    decreases v, 1
  {
    match v
    case Arr(items) => Arr(RedactItems(secret, items))
    case Obj(members) => Obj(RedactMembers(secret, members))
    case _ => v
  }

  function RedactItems(secret: Pattern, items: seq<Json>): (r: seq<Json>)
    ensures |r| == |items| && forall i :: 0 <= i < |items| ==> r[i] == Redact(secret, items[i])
    decreases items, 0
  {
    if items == [] then [] else [Redact(secret, items[0])] + RedactItems(secret, items[1..])
  }

  function RedactMembers(secret: Pattern, members: Members): (r: Members)
    ensures |r| == |members|
    ensures forall i :: 0 <= i < |members| ==>
              r[i].key == members[i].key
              && r[i].value == if secret(members[i].key) then MASK else Redact(secret, members[i].value)
    decreases members, 0
  {
    if members == [] then []
    else
      var m := members[0];
      [Entry(m.key, if secret(m.key) then MASK else Redact(secret, m.value))] + RedactMembers(secret, members[1..])
  }

  /** Every value under a secret key, at any depth, is the mask. */
  predicate Hidden(secret: Pattern, v: Json) {
    match v
    case Arr(items) => forall i :: 0 <= i < |items| ==> Hidden(secret, items[i])
    case Obj(members) =>
      forall i :: 0 <= i < |members| ==>
        if secret(members[i].key) then members[i].value == MASK else Hidden(secret, members[i].value)
    case _ => true
  }

  /** Redaction hides every secret, and changes nothing exactly when there is none left to hide. */
  lemma {:induction false} RedactHides(secret: Pattern, v: Json)
    ensures Hidden(secret, Redact(secret, v))
    ensures Redact(secret, v) == v <==> Hidden(secret, v)
    decreases v
  {
    match v
    case Arr(items) =>
      forall i | 0 <= i < |items|
        ensures Hidden(secret, Redact(secret, items[i]))
        ensures Redact(secret, items[i]) == items[i] <==> Hidden(secret, items[i])
      {
        RedactHides(secret, items[i]);
      }
      assert RedactItems(secret, items) == items <==>
             forall i :: 0 <= i < |items| ==> RedactItems(secret, items)[i] == items[i];
    case Obj(members) =>
      var r := RedactMembers(secret, members);
      forall i | 0 <= i < |members|
        ensures Hidden(secret, Redact(secret, members[i].value))
        ensures Redact(secret, members[i].value) == members[i].value <==> Hidden(secret, members[i].value)
      {
        RedactHides(secret, members[i].value);
      }
      assert r == members <==> forall i :: 0 <= i < |members| ==> r[i].value == members[i].value;
    case _ =>
  }

  /** What is shown of an object: the same keys in order, three asterisks for a secret, any other value redacted. */
  lemma ShownMembers(secret: Pattern, members: Members, i: nat)
    requires i < |members|
    ensures var shown := Redact(secret, Obj(members));
            && shown.Obj? && |shown.members| == |members|
            && shown.members[i] == Entry(members[i].key, if secret(members[i].key) then Str("***")
                                                         else Redact(secret, members[i].value))
  {
  }

  lemma RedactIdempotent(secret: Pattern, v: Json)
    ensures Redact(secret, Redact(secret, v)) == Redact(secret, v)
  {
    RedactHides(secret, v);
    RedactHides(secret, Redact(secret, v));
  }

  // ----- Merging ------------------------------------------------------------------------

  function Lookup(members: Members, key: string): Option<Json> {
    if members == [] then None
    else if members[0].key == key then Some(members[0].value)
    else Lookup(members[1..], key)
  }

  /** The value of one incoming key once the current configuration has been taken into account. */
  function Merged(secret: Pattern, current: Members, m: Entry<Json>): Json
    decreases m.value, 1
  {
    match Lookup(current, m.key)
    case None => m.value
    case Some(was) =>
      if secret(m.key) then (if IsMasked(m.value) then was else m.value)
      else if m.value.Obj? && was.Obj? then Obj(Merge(secret, was.members, m.value.members))
      else m.value
  }

  function MergedEach(secret: Pattern, current: Members, incoming: Members): (r: Members)
    ensures |r| == |incoming|
    ensures forall i :: 0 <= i < |incoming| ==> r[i] == Entry(incoming[i].key, Merged(secret, current, incoming[i]))
    decreases incoming, 0
  {
    if incoming == [] then []
    else [Entry(incoming[0].key, Merged(secret, current, incoming[0]))] + MergedEach(secret, current, incoming[1..])
  }

  /** Secrets of the current configuration that the incoming one does not mention. */
  function Kept(secret: Pattern, current: Members, incoming: Members): Members {
    if current == [] then []
    else
      (if secret(current[0].key) && Lookup(incoming, current[0].key).None? then [current[0]] else [])
      + Kept(secret, current[1..], incoming)
  }

  function Merge(secret: Pattern, current: Members, incoming: Members): Members
    decreases incoming, 1
  {
    MergedEach(secret, current, incoming) + Kept(secret, current, incoming)
  }

  /** Assignment to a key of an object: in place when it exists, at the end otherwise. */
  function SetKey(members: Members, key: string, v: Json): Members {
    if members == [] then [Entry(key, v)]
    else if members[0].key == key then [Entry(key, v)] + members[1..]
    else [members[0]] + SetKey(members[1..], key, v)
  }

  lemma {:induction false} LookupAt(members: Members, i: nat)
    requires DistinctKeys(members) && i < |members|
    ensures Lookup(members, members[i].key) == Some(members[i].value)
  {
    if i == 0 {
    } else {
      LookupAt(members[1..], i - 1);
    }
  }

  lemma {:induction false} LookupIff(members: Members, key: string)
    ensures Lookup(members, key).None? <==> forall i :: 0 <= i < |members| ==> members[i].key != key
    ensures Lookup(members, key).Some? ==>
              exists i :: 0 <= i < |members| && members[i] == Entry(key, Lookup(members, key).value)
  {
    if members == [] {
    } else {
      LookupIff(members[1..], key);
      if Lookup(members, key).Some? && members[0].key != key {
        var i :| 0 <= i < |members[1..]| && members[1..][i] == Entry(key, Lookup(members, key).value);
        assert members[i + 1] == Entry(key, Lookup(members, key).value);
      }
    }
  }

  lemma {:induction false} LookupAppend(members: Members, more: Members, key: string)
    ensures Lookup(members + more, key) ==
            if Lookup(members, key).Some? then Lookup(members, key) else Lookup(more, key)
  {
    if members == [] {
      assert members + more == more;
    } else {
      assert (members + more)[1..] == members[1..] + more;
      LookupAppend(members[1..], more, key);
    }
  }

  // ----- The merge loop -------------------------------------------------------------------

  lemma {:induction false} SetAt(members: Members, i: nat, v: Json)
    requires DistinctKeys(members) && i < |members|
    ensures SetKey(members, members[i].key, v) == members[i := Entry(members[i].key, v)]
  {
    if i == 0 {
    } else {
      SetAt(members[1..], i - 1, v);
      assert members[1..][i - 1 := Entry(members[i].key, v)] == members[i := Entry(members[i].key, v)][1..];
    }
  }

  lemma {:induction false} SetInFront(members: Members, more: Members, key: string, v: Json)
    requires Lookup(members, key).Some?
    ensures SetKey(members + more, key, v) == SetKey(members, key, v) + more
  {
    assert (members + more)[0] == members[0] && (members + more)[1..] == members[1..] + more;
    if members[0].key == key {
    } else {
      SetInFront(members[1..], more, key, v);
    }
  }

  lemma {:induction false} SetMissing(members: Members, key: string, v: Json)
    requires Lookup(members, key).None?
    ensures SetKey(members, key, v) == members + [Entry(key, v)]
  {
    if members == [] {
    } else {
      SetMissing(members[1..], key, v);
      assert members == [members[0]] + members[1..];
    }
  }

  lemma {:induction false} KeptAppend(secret: Pattern, current: Members, e: Entry<Json>, incoming: Members)
    ensures Kept(secret, current + [e], incoming) ==
            Kept(secret, current, incoming) + if secret(e.key) && Lookup(incoming, e.key).None? then [e] else []
  {
    if current == [] {
      assert current + [e] == [e] && [e][1..] == [];
    } else {
      assert (current + [e])[0] == current[0] && (current + [e])[1..] == current[1..] + [e];
      KeptAppend(secret, current[1..], e, incoming);
      var first := if secret(current[0].key) && Lookup(incoming, current[0].key).None? then [current[0]] else [];
      var last := if secret(e.key) && Lookup(incoming, e.key).None? then [e] else [];
      assert first + (Kept(secret, current[1..], incoming) + last) == first + Kept(secret, current[1..], incoming) + last;
    }
  }

  lemma {:induction false} KeptKeys(secret: Pattern, current: Members, incoming: Members)
    ensures forall m :: m in Kept(secret, current, incoming) ==> m in current && Lookup(incoming, m.key).None?
  {
    if current == [] {
    } else {
      KeptKeys(secret, current[1..], incoming);
    }
  }

  /** Looking at one more current entry changes at most the incoming entry of that key. */
  lemma MergedEachAppend(secret: Pattern, current: Members, e: Entry<Json>, incoming: Members, i: nat)
    requires DistinctKeys(current + [e]) && i < |incoming|
    ensures MergedEach(secret, current + [e], incoming)[i] ==
            if incoming[i].key == e.key then Entry(e.key, Merged(secret, [e], incoming[i]))
            else MergedEach(secret, current, incoming)[i]
    ensures incoming[i].key == e.key ==> MergedEach(secret, current, incoming)[i] == incoming[i]
  {
    LookupAppend(current, [e], incoming[i].key);
    LookupIff(current, e.key);
    forall j | 0 <= j < |current|
      ensures current[j].key != e.key
    {
      assert (current + [e])[j] == current[j] && (current + [e])[|current|] == e;
    }
  }

  /** What the body of the loop assigns for one current entry, if anything. */
  function Assigned(secret: Pattern, e: Entry<Json>, incoming: Members): Option<Json> {
    var found := Lookup(incoming, e.key);
    if secret(e.key) then (if found.None? || IsMasked(found.value) then Some(e.value) else None)
    else if found.Some? && found.value.Obj? && e.value.Obj? then
      Some(Obj(Merge(secret, e.value.members, found.value.members)))
    else None
  }

  lemma NotKeptYet(secret: Pattern, current: Members, e: Entry<Json>, incoming: Members)
    requires DistinctKeys(current + [e]) && Lookup(incoming, e.key).None?
    ensures Lookup(MergedEach(secret, current, incoming) + Kept(secret, current, incoming), e.key).None?
  {
    var each := MergedEach(secret, current, incoming);
    var kept: Members := Kept(secret, current, incoming);
    KeptKeys(secret, current, incoming);
    LookupIff(incoming, e.key);
    LookupIff(each + kept, e.key);
    forall i | 0 <= i < |each + kept|
      ensures (each + kept)[i].key != e.key
    {
      if i >= |each| {
        assert kept[i - |each|] in kept;
        var j: nat :| 0 <= j < |current| && current[j] == kept[i - |each|];
        assert (current + [e])[j].key != (current + [e])[|current|].key;
      }
    }
  }

  lemma MergeStepAbsent(secret: Pattern, current: Members, e: Entry<Json>, incoming: Members)
    requires DistinctKeys(current + [e]) && Lookup(incoming, e.key).None?
    ensures Merge(secret, current + [e], incoming) ==
            if secret(e.key) then SetKey(Merge(secret, current, incoming), e.key, e.value)
            else Merge(secret, current, incoming)
  {
    var each, kept := MergedEach(secret, current, incoming), Kept(secret, current, incoming);
    LookupIff(incoming, e.key);
    forall i | 0 <= i < |incoming|
      ensures MergedEach(secret, current + [e], incoming)[i] == each[i]
    {
      MergedEachAppend(secret, current, e, incoming, i);
    }
    assert MergedEach(secret, current + [e], incoming) == each;
    KeptAppend(secret, current, e, incoming);
    if secret(e.key) {
      NotKeptYet(secret, current, e, incoming);
      SetMissing(each + kept, e.key, e.value);
      assert each + (kept + [e]) == each + kept + [e];
    }
  }

  lemma OneEntryMerged(secret: Pattern, current: Members, e: Entry<Json>, incoming: Members, k: nat)
    requires DistinctKeys(current + [e]) && DistinctKeys(incoming) && k < |incoming| && incoming[k].key == e.key
    ensures MergedEach(secret, current + [e], incoming)
            == MergedEach(secret, current, incoming)[k := Entry(e.key, Merged(secret, [e], incoming[k]))]
    ensures MergedEach(secret, current, incoming)[k] == incoming[k]
  {
    var each := MergedEach(secret, current, incoming);
    var v := Merged(secret, [e], incoming[k]);
    forall i | 0 <= i < |incoming|
      ensures MergedEach(secret, current + [e], incoming)[i] == each[k := Entry(e.key, v)][i]
    {
      MergedEachAppend(secret, current, e, incoming, i);
    }
    MergedEachAppend(secret, current, e, incoming, k);
  }

  lemma MergedWithOne(secret: Pattern, e: Entry<Json>, incoming: Members, k: nat)
    requires k < |incoming| && incoming[k].key == e.key && Lookup(incoming, e.key) == Some(incoming[k].value)
    ensures Merged(secret, [e], incoming[k])
            == match Assigned(secret, e, incoming) { case None => incoming[k].value case Some(v) => v }
  {
    assert Lookup([e], e.key) == Some(e.value);
  }

  /** Assigning to a key that is there changes that entry only. */
  lemma SetWhereItIs(each: Members, kept: Members, k: nat, v: Json)
    requires DistinctKeys(each) && k < |each|
    ensures SetKey(each + kept, each[k].key, v) == each[k := Entry(each[k].key, v)] + kept
  {
    SetAt(each, k, v);
    LookupAt(each, k);
    SetInFront(each, kept, each[k].key, v);
  }

  lemma MergeStepPresent(secret: Pattern, current: Members, e: Entry<Json>, incoming: Members)
    requires DistinctKeys(current + [e]) && DistinctKeys(incoming) && Lookup(incoming, e.key).Some?
    ensures Merge(secret, current + [e], incoming) ==
            match Assigned(secret, e, incoming)
            case None => Merge(secret, current, incoming)
            case Some(v) => SetKey(Merge(secret, current, incoming), e.key, v)
  {
    hide MergedEach, Kept, Lookup;
    var each, kept := MergedEach(secret, current, incoming), Kept(secret, current, incoming);
    var each' := MergedEach(secret, current + [e], incoming);
    KeptAppend(secret, current, e, incoming);
    LookupIff(incoming, e.key);
    var k :| 0 <= k < |incoming| && incoming[k] == Entry(e.key, Lookup(incoming, e.key).value);
    OneEntryMerged(secret, current, e, incoming, k);
    MergedWithOne(secret, e, incoming, k);
    assert each[k].key == e.key && DistinctKeys(each);
    match Assigned(secret, e, incoming)
    case None => assert each' == each;
    case Some(v) => SetWhereItIs(each, kept, k, v);
  }

  lemma DistinctPrefix(members: Members, n: nat)
    requires DistinctKeys(members) && n < |members|
    ensures DistinctKeys(members[..n] + [members[n]]) && members[..n + 1] == members[..n] + [members[n]]
  {
  }

  lemma KeysDifferInside(members: Members, key: string)
    requires KeysDiffer(Obj(members)) && Lookup(members, key).Some?
    ensures KeysDiffer(Lookup(members, key).value)
    ensures Lookup(members, key).value < Obj(members)
  {
    LookupIff(members, key);
  }

  /** Starts from the incoming entries and overrides them entry by entry of the current configuration. */
  method MergeConfigPreservingSecrets(secret: Pattern, current: Members, incoming: Members) returns (merged: Members)
    requires KeysDiffer(Obj(current)) && KeysDiffer(Obj(incoming))
    ensures merged == Merge(secret, current, incoming)
    decreases Obj(current)
  {
    merged := incoming;
    MergeNothing(secret, incoming);
    for i := 0 to |current|
      invariant merged == Merge(secret, current[..i], incoming)
    {
      var e := current[i];
      DistinctPrefix(current, i);
      var found := Lookup(incoming, e.key);
      if found.None? {
        MergeStepAbsent(secret, current[..i], e, incoming);
      } else {
        MergeStepPresent(secret, current[..i], e, incoming);
      }
      if secret(e.key) {
        if found.None? || IsMasked(found.value) {
          merged := SetKey(merged, e.key, e.value);
        }
        continue;
      }
      if found.Some? && found.value.Obj? && e.value.Obj? {
        KeysDifferInside(incoming, e.key);
        var inner := MergeConfigPreservingSecrets(secret, e.value.members, found.value.members);
        merged := SetKey(merged, e.key, Obj(inner));
      }
    }
    assert current[..|current|] == current;
  }

  lemma MergeNothing(secret: Pattern, incoming: Members)
    ensures Merge(secret, [], incoming) == incoming
  {
    assert MergedEach(secret, [], incoming) == incoming;
  }

  // ----- Editing a redacted copy ------------------------------------------------------------

  /** Every array reachable through non-secret object keys hides nothing. */
  predicate ArraysPlain(secret: Pattern, v: Json) {
    match v
    case Arr(_) => Redact(secret, v) == v
    case Obj(members) => MembersPlain(secret, members)
    case _ => true
  }

  predicate MembersPlain(secret: Pattern, members: Members) {
    forall i :: 0 <= i < |members| ==> secret(members[i].key) || ArraysPlain(secret, members[i].value)
  }

  lemma MaskIsMasked()
    ensures IsMasked(MASK)
  {
    assert TrimLeft("***") == "***" && TrimRight("***") == "***";
  }

  lemma {:induction false} NothingKept(secret: Pattern, current: Members, incoming: Members)
    requires forall i :: 0 <= i < |current| ==> Lookup(incoming, current[i].key).Some?
    ensures Kept(secret, current, incoming) == []
  {
    if current == [] {
    } else {
      NothingKept(secret, current[1..], incoming);
    }
  }

  /** One member comes back unchanged exactly when it is secret or its arrays are plain. */
  lemma {:induction false} MemberRoundTrip(secret: Pattern, members: Members, i: nat)
    requires KeysDiffer(Obj(members)) && i < |members|
    ensures Merged(secret, members, RedactMembers(secret, members)[i]) == members[i].value <==>
            secret(members[i].key) || ArraysPlain(secret, members[i].value)
    decreases members[i].value, 1
  {
    LookupAt(members, i);
    MaskIsMasked();
    if !secret(members[i].key) && members[i].value.Obj? {
      var inner := members[i].value.members;
      assert KeysDiffer(members[i].value);
      EditRoundTripIff(secret, inner);
    }
  }

  /**
   * Saving a configuration as shown, with its secrets masked, changes nothing exactly
   * when no array outside the secrets contains a secret of its own.
   */
  lemma {:induction false} EditRoundTripIff(secret: Pattern, members: Members)
    requires KeysDiffer(Obj(members))
    ensures Merge(secret, members, RedactMembers(secret, members)) == members <==> MembersPlain(secret, members)
    decreases members, 0
  {
    var shown := RedactMembers(secret, members);
    forall i | 0 <= i < |members|
      ensures Lookup(shown, members[i].key).Some?
      ensures Merged(secret, members, shown[i]) == members[i].value <==>
              secret(members[i].key) || ArraysPlain(secret, members[i].value)
    {
      LookupIff(shown, members[i].key);
      assert shown[i].key == members[i].key;
      assert members[i] in members;
      MemberRoundTrip(secret, members, i);
    }
    NothingKept(secret, members, shown);
    var each := MergedEach(secret, members, shown);
    assert each == members <==> forall i :: 0 <= i < |members| ==> each[i] == members[i];
  }

  lemma {:induction false} LookupEach(secret: Pattern, current: Members, incoming: Members, key: string)
    ensures Lookup(MergedEach(secret, current, incoming), key) ==
            match Lookup(incoming, key) case None => None case Some(v) => Some(Merged(secret, current, Entry(key, v)))
  {
    if incoming == [] || incoming[0].key == key {
    } else {
      LookupEach(secret, current, incoming[1..], key);
    }
  }

  lemma {:induction false} KeptLookups(secret: Pattern, current: Members, incoming: Members, m: Entry<Json>)
    requires DistinctKeys(current) && m in Kept(secret, current, incoming)
    ensures secret(m.key) && Lookup(current, m.key) == Some(m.value)
  {
    if m !in Kept(secret, current[1..], incoming) {
    } else {
      KeptLookups(secret, current[1..], incoming, m);
      LookupIff(current[1..], m.key);
    }
  }

  lemma {:induction false} KeptHasMissing(secret: Pattern, current: Members, incoming: Members, i: nat)
    requires i < |current| && secret(current[i].key) && Lookup(incoming, current[i].key).None?
    ensures current[i] in Kept(secret, current, incoming)
  {
    if i == 0 {
    } else {
      KeptHasMissing(secret, current[1..], incoming, i - 1);
    }
  }

  /** Merging an already merged value changes it no further. */
  lemma {:induction false} MergedTwice(secret: Pattern, current: Members, m: Entry<Json>)
    requires KeysDiffer(Obj(current)) && KeysDiffer(m.value)
    ensures Merged(secret, current, Entry(m.key, Merged(secret, current, m))) == Merged(secret, current, m)
    decreases m.value, 1
  {
    var found := Lookup(current, m.key);
    if found.Some? && !secret(m.key) && m.value.Obj? && found.value.Obj? {
      KeysDifferInside(current, m.key);
      MergeTwice(secret, found.value.members, m.value.members);
    }
  }

  /** A second merge of the same configuration finds nothing left to restore. */
  lemma {:induction false} MergeTwice(secret: Pattern, current: Members, incoming: Members)
    requires KeysDiffer(Obj(current)) && KeysDiffer(Obj(incoming))
    ensures Merge(secret, current, Merge(secret, current, incoming)) == Merge(secret, current, incoming)
    decreases incoming, 0
  {
    var each, kept := MergedEach(secret, current, incoming), Kept(secret, current, incoming);
    var once := each + kept;
    forall i | 0 <= i < |once|
      ensures Merged(secret, current, once[i]) == once[i].value
    {
      if i < |each| {
        assert incoming[i] in incoming;
        MergedTwice(secret, current, incoming[i]);
      } else {
        assert once[i] in kept;
        KeptLookups(secret, current, incoming, once[i]);
      }
    }
    assert MergedEach(secret, current, once) == once;
    forall i | 0 <= i < |current| && secret(current[i].key)
      ensures Lookup(once, current[i].key).Some?
    {
      SecretsSurviveEdit(secret, current, incoming, i);
    }
    NoSecretsKept(secret, current, once);
  }

  /** Whatever the edit, a secret keeps its value unless a new, unmasked one is supplied. */
  lemma SecretsSurviveEdit(secret: Pattern, current: Members, incoming: Members, i: nat)
    requires DistinctKeys(current) && i < |current| && secret(current[i].key)
    ensures var given := Lookup(incoming, current[i].key);
            Lookup(Merge(secret, current, incoming), current[i].key) ==
            Some(if given.None? || IsMasked(given.value) then current[i].value else given.value)
  {
    var key := current[i].key;
    var each, kept := MergedEach(secret, current, incoming), Kept(secret, current, incoming);
    LookupAt(current, i);
    LookupEach(secret, current, incoming, key);
    LookupAppend(each, kept, key);
    if Lookup(incoming, key).None? {
      KeptHasMissing(secret, current, incoming, i);
      LookupIff(kept, key);
      KeptLookups(secret, current, incoming, Entry(key, Lookup(kept, key).value));
    }
  }

  lemma {:induction false} NoSecretsKept(secret: Pattern, current: Members, incoming: Members)
    requires forall i :: 0 <= i < |current| && secret(current[i].key) ==> Lookup(incoming, current[i].key).Some?
    ensures Kept(secret, current, incoming) == []
  {
    if current == [] {
    } else {
      NoSecretsKept(secret, current[1..], incoming);
    }
  }

  // ----- Secrets inside objects --------------------------------------------------------------

  /** The value at the end of a path of keys through nested objects. */
  function At(members: Members, path: seq<string>): Option<Json>
    requires path != []
    decreases |path|
  {
    var found := Lookup(members, path[0]);
    if |path| == 1 then found
    else if found.Some? && found.value.Obj? then At(found.value.members, path[1..])
    else None
  }

  /** The last key is the secret one. */
  predicate SecretPath(secret: Pattern, path: seq<string>) {
    && path != [] && secret(path[|path| - 1])
    && forall i :: 0 <= i < |path| - 1 ==> !secret(path[i])
  }

  /** Every object around the end of the path is given, and given as an object. */
  predicate Enclosed(incoming: Members, path: seq<string>)
    requires path != []
    decreases |path|
  {
    |path| > 1 ==>
      var found := Lookup(incoming, path[0]);
      found.Some? && found.value.Obj? && Enclosed(found.value.members, path[1..])
  }

  /** Paths, one key at a time. */
  lemma PathsNest(secret: Pattern, members: Members, key: string, rest: seq<string>)
    ensures At(members, [key]) == Lookup(members, key)
    ensures rest != [] && Lookup(members, key).Some? && Lookup(members, key).value.Obj? ==>
              At(members, [key] + rest) == At(Lookup(members, key).value.members, rest)
    ensures rest != [] && (Lookup(members, key).None? || !Lookup(members, key).value.Obj?) ==>
              At(members, [key] + rest) == None
    ensures SecretPath(secret, [key]) <==> secret(key)
    ensures rest != [] ==> (SecretPath(secret, [key] + rest) <==> !secret(key) && SecretPath(secret, rest))
  {
    var path := [key] + rest;
    assert path[1..] == rest;
    assert forall i :: 0 <= i < |rest| ==> path[i + 1] == rest[i];
    if rest != [] && !secret(key) && SecretPath(secret, rest) {
      forall i | 0 <= i < |path| - 1
        ensures !secret(path[i])
      {
        assert i > 0 ==> path[i] == rest[i - 1];
      }
    }
  }

  /** What the merge makes of a key that is no secret: objects are merged in turn, any other value replaces. */
  lemma PlainKeyAfterEdit(secret: Pattern, current: Members, incoming: Members, key: string)
    requires DistinctKeys(current) && !secret(key)
    ensures var was, given := Lookup(current, key), Lookup(incoming, key);
            Lookup(Merge(secret, current, incoming), key) ==
            if given.Some? && given.value.Obj? && was.Some? && was.value.Obj?
            then Some(Obj(Merge(secret, was.value.members, given.value.members))) else given
  {
    var each, kept := MergedEach(secret, current, incoming), Kept(secret, current, incoming);
    LookupEach(secret, current, incoming, key);
    LookupAppend(each, kept, key);
    LookupIff(kept, key);
    if Lookup(kept, key).Some? {
      KeptLookups(secret, current, incoming, Entry(key, Lookup(kept, key).value));
    }
  }

  /**
   * What an edit makes of a secret at any depth: it is gone unless every object around
   * it is still given as an object; then a new, unmasked value replaces it, and
   * otherwise it keeps its value.
   */
  lemma {:induction false} NestedSecretAfterEdit(secret: Pattern, current: Members, incoming: Members,
                                                 path: seq<string>)
    requires KeysDiffer(Obj(current)) && SecretPath(secret, path) && At(current, path).Some?
    ensures At(Merge(secret, current, incoming), path) ==
            if !Enclosed(incoming, path) then None
            else
              var given := At(incoming, path);
              if given.None? || IsMasked(given.value) then At(current, path) else given
    decreases |path|
  {
    hide Kept, MergedEach, Merge, IsMasked, Lookup;
    LookupIff(current, path[0]);
    var i: nat :| i < |current| && current[i] == Entry(path[0], Lookup(current, path[0]).value);
    if |path| == 1 {
      SecretsSurviveEdit(secret, current, incoming, i);
    } else {
      PlainKeyAfterEdit(secret, current, incoming, path[0]);
      var found := Lookup(incoming, path[0]);
      if found.Some? && found.value.Obj? {
        assert KeysDiffer(current[i].value);
        NestedSecretAfterEdit(secret, current[i].value.members, found.value.members, path[1..]);
      }
    }
  }

  /** Exactly when a secret at any depth survives an edit unchanged. */
  lemma NestedSecretSurvivesIff(secret: Pattern, current: Members, incoming: Members, path: seq<string>)
    requires KeysDiffer(Obj(current)) && SecretPath(secret, path) && At(current, path).Some?
    ensures At(Merge(secret, current, incoming), path) == At(current, path) <==>
            && Enclosed(incoming, path)
            && var given := At(incoming, path);
               given.None? || IsMasked(given.value) || given == At(current, path)
  {
    NestedSecretAfterEdit(secret, current, incoming, path);
  }
}
