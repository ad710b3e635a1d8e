/**
 * The canonical JSON text that requests are signed over: object keys in the order
 * of a comparator, everything else as printed.
 */
module Canonical {
  import opened Common
  import opened Json

  /** The comparator behind the sort: `le(a, b)` when `a` does not come after `b`. */
  type Order = (string, string) -> bool

  /** What any comparator must satisfy for sorting to make sense; it may tie different keys. */
  ghost predicate Preorder(le: Order) {
    && (forall a, b :: le(a, b) || le(b, a))
    && (forall a, b, c :: le(a, b) && le(b, c) ==> le(a, c))
  }

  /** The comparator ties no two different keys. */
  ghost predicate Separates(le: Order) {
    forall a, b :: le(a, b) && le(b, a) ==> a == b
  }

  // ----- Stable sorting by key ---------------------------------------------------------

  function Insert<T>(le: Order, e: Entry<T>, xs: seq<Entry<T>>): seq<Entry<T>> {
    if xs == [] then [e]
    else if le(e.key, xs[0].key) then [e] + xs
    else [xs[0]] + Insert(le, e, xs[1..])
  }

  function Sort<T>(le: Order, xs: seq<Entry<T>>): seq<Entry<T>> {
    if xs == [] then [] else Insert(le, xs[0], Sort(le, xs[1..]))
  }

  lemma {:induction false} InsertPermutes<T>(le: Order, e: Entry<T>, xs: seq<Entry<T>>)
    ensures multiset(Insert(le, e, xs)) == multiset(xs) + multiset{e}
  {
    if xs == [] {
    } else {
      assert xs == [xs[0]] + xs[1..];
      InsertPermutes(le, e, xs[1..]);
    }
  }

  lemma {:induction false} SortPermutes<T>(le: Order, xs: seq<Entry<T>>)
    ensures multiset(Sort(le, xs)) == multiset(xs)
  {
    if xs == [] {
    } else {
      SortPermutes(le, xs[1..]);
      InsertPermutes(le, xs[0], Sort(le, xs[1..]));
      assert xs == [xs[0]] + xs[1..];
    }
  }

  lemma {:induction false} InsertedFrom<T>(le: Order, e: Entry<T>, xs: seq<Entry<T>>)
    ensures forall x :: x in Insert(le, e, xs) ==> x == e || x in xs
  {
    if xs == [] {
    } else {
      InsertedFrom(le, e, xs[1..]);
    }
  }

  predicate Sorted<T>(le: Order, xs: seq<Entry<T>>) {
    forall i, j :: 0 <= i < j < |xs| ==> le(xs[i].key, xs[j].key)
  }

  lemma {:induction false} InsertSorts<T>(le: Order, e: Entry<T>, xs: seq<Entry<T>>)
    requires Preorder(le) && Sorted(le, xs)
    ensures Sorted(le, Insert(le, e, xs))
    ensures Insert(le, e, xs) != []
    ensures Insert(le, e, xs)[0] == e || (xs != [] && Insert(le, e, xs)[0] == xs[0])
  {
    if xs == [] || le(e.key, xs[0].key) {
    } else {
      InsertSorts(le, e, xs[1..]);
      InsertedFrom(le, e, xs[1..]);
      var tail := Insert(le, e, xs[1..]);
      forall j | 0 <= j < |tail|
        ensures le(xs[0].key, tail[j].key)
      {
        assert tail[j] == e || tail[j] in xs[1..];
      }
    }
  }

  lemma {:induction false} SortSorts<T>(le: Order, xs: seq<Entry<T>>)
    requires Preorder(le)
    ensures Sorted(le, Sort(le, xs))
  {
    if xs == [] {
    } else {
      SortSorts(le, xs[1..]);
      InsertSorts(le, xs[0], Sort(le, xs[1..]));
    }
  }

  lemma SortedHeadsAgree<T>(le: Order, xs: seq<Entry<T>>, ys: seq<Entry<T>>)
    requires Separates(le) && Sorted(le, xs) && Sorted(le, ys)
    requires DistinctKeys(xs) && multiset(xs) == multiset(ys) && xs != []
    ensures ys != [] && xs[0] == ys[0]
  {
    assert xs[0] in multiset(xs);
    assert ys[0] in multiset(ys);
    var i :| 0 <= i < |ys| && ys[i] == xs[0];
    var j :| 0 <= j < |xs| && xs[j] == ys[0];
  }

  lemma SameTail<T>(xs: seq<T>, ys: seq<T>)
    requires xs != [] && ys != [] && xs[0] == ys[0] && multiset(xs) == multiset(ys)
    ensures multiset(xs[1..]) == multiset(ys[1..])
  {
    assert xs == [xs[0]] + xs[1..] && ys == [ys[0]] + ys[1..];
    assert multiset(xs[1..]) == multiset(xs) - multiset{xs[0]};
    assert multiset(ys[1..]) == multiset(ys) - multiset{ys[0]};
  }

  /** A sorted list without ties is determined by its elements. */
  lemma {:induction false} SortedUnique<T>(le: Order, xs: seq<Entry<T>>, ys: seq<Entry<T>>)
    requires Separates(le) && Sorted(le, xs) && Sorted(le, ys)
    requires DistinctKeys(xs) && multiset(xs) == multiset(ys)
    ensures xs == ys
  {
    if xs == [] {
      SameLength(xs, ys);
    } else {
      SortedHeadsAgree(le, xs, ys);
      SameTail(xs, ys);
      SortedUnique(le, xs[1..], ys[1..]);
      assert xs == [xs[0]] + xs[1..] && ys == [ys[0]] + ys[1..];
    }
  }

  // ----- The printer --------------------------------------------------------------------

  function StableStringify(le: Order, v: Json): string
    decreases v, 1
  {
    match v
    case Arr(items) => "[" + StableItems(le, items) + "]"
    case Obj(members) => "{" + JoinMembers(Sort(le, StableMembers(le, members))) + "}"
    case _ => Print(v)
  }

  function StableItems(le: Order, items: seq<Json>): string
    decreases items, 0
  {
    if items == [] then ""
    else if |items| == 1 then StableStringify(le, items[0])
    else StableStringify(le, items[0]) + "," + StableItems(le, items[1..])
  }

  /** Each member with the text of its value; sorting looks at keys only. */
  function StableMembers(le: Order, members: seq<Entry<Json>>): seq<Entry<string>>
    decreases members, 0
  {
    if members == [] then []
    else [Entry(members[0].key, StableStringify(le, members[0].value))] + StableMembers(le, members[1..])
  }

  function JoinMembers(members: seq<Entry<string>>): string {
    if members == [] then ""
    else
      var first := Quoted(members[0].key) + ":" + members[0].value;
      if |members| == 1 then first else first + "," + JoinMembers(members[1..])
  }

  // ----- The canonical value ---------------------------------------------------------------

  /** The value with the keys of every object sorted and overflowed numbers replaced by null. */
  function Canon(le: Order, v: Json): Json
    decreases v, 1
  {
    match v
    case Overflow => Null
    case Arr(items) => Arr(CanonItems(le, items))
    case Obj(members) => Obj(Sort(le, CanonMembers(le, members)))
    case _ => v
  }

  function CanonItems(le: Order, items: seq<Json>): (r: seq<Json>)
    ensures |r| == |items| && forall i :: 0 <= i < |items| ==> r[i] == Canon(le, items[i])
    decreases items, 0
  {
    if items == [] then [] else [Canon(le, items[0])] + CanonItems(le, items[1..])
  }

  function CanonMembers(le: Order, members: seq<Entry<Json>>): (r: seq<Entry<Json>>)
    ensures |r| == |members|
    ensures forall i :: 0 <= i < |members| ==> r[i] == Entry(members[i].key, Canon(le, members[i].value))
    decreases members, 0
  {
    if members == [] then []
    else [Entry(members[0].key, Canon(le, members[0].value))] + CanonMembers(le, members[1..])
  }

  /** Equality up to the order of keys, defined without sorting. */
  predicate Same(a: Json, b: Json) {
    match a
    case Null => b.Null? || b.Overflow?
    case Overflow => b.Null? || b.Overflow?
    case Arr(items) =>
      b.Arr? && |items| == |b.items| && forall i :: 0 <= i < |items| ==> Same(items[i], b.items[i])
    case Obj(members) =>
      && b.Obj? && |members| == |b.members|
      && forall i :: 0 <= i < |members| ==>
           exists j :: 0 <= j < |b.members| && b.members[j].key == members[i].key
                       && Same(members[i].value, b.members[j].value)
    case _ => a == b
  }

  // ----- The text is the print of the canonical value ---------------------------------------

  function Texts(members: seq<Entry<Json>>): (r: seq<Entry<string>>)
    ensures |r| == |members| && forall i :: 0 <= i < |members| ==> r[i] == Entry(members[i].key, Print(members[i].value))
  {
    if members == [] then [] else [Entry(members[0].key, Print(members[0].value))] + Texts(members[1..])
  }

  lemma {:induction false} InsertTexts(le: Order, e: Entry<Json>, xs: seq<Entry<Json>>)
    ensures Texts(Insert(le, e, xs)) == Insert(le, Entry(e.key, Print(e.value)), Texts(xs))
  {
    if xs == [] {
    } else if le(e.key, xs[0].key) {
      assert ([e] + xs)[1..] == xs;
    } else {
      InsertTexts(le, e, xs[1..]);
      assert ([xs[0]] + Insert(le, e, xs[1..]))[1..] == Insert(le, e, xs[1..]);
    }
  }

  /** Sorting members and printing their values may be done in either order. */
  lemma {:induction false} SortTexts(le: Order, xs: seq<Entry<Json>>)
    ensures Texts(Sort(le, xs)) == Sort(le, Texts(xs))
  {
    if xs == [] {
    } else {
      SortTexts(le, xs[1..]);
      InsertTexts(le, xs[0], Sort(le, xs[1..]));
    }
  }

  lemma {:induction false} JoinTexts(members: seq<Entry<Json>>)
    ensures JoinMembers(Texts(members)) == PrintMembers(members)
  {
    if |members| <= 1 {
    } else {
      JoinTexts(members[1..]);
      assert Texts(members)[1..] == Texts(members[1..]);
    }
  }

  lemma {:induction false} StableIsPrintOfCanon(le: Order, v: Json)
    ensures StableStringify(le, v) == Print(Canon(le, v))
    decreases v, 1
  {
    match v
    case Arr(items) => StableItemsPrint(le, items);
    case Obj(members) =>
      StableMembersPrint(le, members);
      SortTexts(le, CanonMembers(le, members));
      JoinTexts(Sort(le, CanonMembers(le, members)));
    case _ =>
  }

  lemma {:induction false} StableItemsPrint(le: Order, items: seq<Json>)
    ensures StableItems(le, items) == PrintItems(CanonItems(le, items))
    decreases items, 0
  {
    if items == [] {
    } else {
      StableIsPrintOfCanon(le, items[0]);
      StableItemsPrint(le, items[1..]);
      assert CanonItems(le, items)[1..] == CanonItems(le, items[1..]);
    }
  }

  lemma {:induction false} StableMembersPrint(le: Order, members: seq<Entry<Json>>)
    ensures StableMembers(le, members) == Texts(CanonMembers(le, members))
    decreases members, 0
  {
    if members == [] {
    } else {
      StableIsPrintOfCanon(le, members[0].value);
      StableMembersPrint(le, members[1..]);
      assert CanonMembers(le, members)[1..] == CanonMembers(le, members[1..]);
    }
  }

  // ----- The canonical value is well formed -----------------------------------------------------

  lemma PermutedKeysStayDistinct<T>(xs: seq<Entry<T>>, ys: seq<Entry<T>>)
    requires multiset(xs) == multiset(ys) && DistinctKeys(xs)
    ensures DistinctKeys(ys)
  {
    forall i, j | 0 <= i < j < |ys|
      ensures ys[i].key != ys[j].key
    {
      assert ys[i] in multiset(xs) && ys[j] in multiset(xs);
      if ys[i].key == ys[j].key {
        KeyIdentifies(xs, ys[i], ys[j]);
        TwiceCounts(ys, i, j);
        OnceInDistinct(xs, ys[i]);
      }
    }
  }

  lemma KeyIdentifies<T>(xs: seq<Entry<T>>, a: Entry<T>, b: Entry<T>)
    requires DistinctKeys(xs) && a in xs && b in xs && a.key == b.key
    ensures a == b
  {
    var i :| 0 <= i < |xs| && xs[i] == a;
    var j :| 0 <= j < |xs| && xs[j] == b;
    assert i == j;
  }

  lemma TwiceCounts<T>(ys: seq<T>, i: nat, j: nat)
    requires i < j < |ys| && ys[i] == ys[j]
    ensures multiset(ys)[ys[i]] >= 2
  {
    assert ys == ys[..i] + [ys[i]] + ys[i + 1..j] + [ys[j]] + ys[j + 1..];
  }

  lemma {:induction false} OnceInDistinct<T>(xs: seq<Entry<T>>, e: Entry<T>)
    requires DistinctKeys(xs)
    ensures multiset(xs)[e] <= 1
  {
    if xs == [] {
    } else {
      OnceInDistinct(xs[1..], e);
      assert xs == [xs[0]] + xs[1..];
      if e == xs[0] {
        assert e !in xs[1..];
        assert e !in multiset(xs[1..]);
      }
    }
  }

  lemma {:induction false} CanonWellFormed(le: Order, v: Json)
    requires WellFormed(v)
    ensures WellFormed(Canon(le, v)) && Finite(Canon(le, v))
    decreases v
  {
    match v
    case Arr(items) =>
      forall i | 0 <= i < |items|
        ensures WellFormed(Canon(le, items[i])) && Finite(Canon(le, items[i]))
      {
        CanonWellFormed(le, items[i]);
      }
    case Obj(members) =>
      var xs := CanonMembers(le, members);
      var ys := Sort(le, xs);
      SortPermutes(le, xs);
      PermutedKeysStayDistinct(xs, ys);
      forall i | 0 <= i < |ys|
        ensures WellFormed(ys[i].value) && Finite(ys[i].value)
      {
        assert ys[i] in multiset(xs);
        var j :| 0 <= j < |xs| && xs[j] == ys[i];
        CanonWellFormed(le, members[j].value);
      }
    case _ =>
  }

  // ----- Equal canonical values are the same up to key order, and conversely ---------------------

  lemma {:induction false} CanonEqualIsSame(le: Order, a: Json, b: Json)
    requires Canon(le, a) == Canon(le, b)
    ensures Same(a, b)
    decreases a
  {
    hide Sort, Insert;
    match a
    case Arr(items) =>
      forall i | 0 <= i < |items|
        ensures Same(items[i], b.items[i])
      {
        assert CanonItems(le, items)[i] == CanonItems(le, b.items)[i];
        CanonEqualIsSame(le, items[i], b.items[i]);
      }
    case Obj(members) =>
      var xs, ys := CanonMembers(le, members), CanonMembers(le, b.members);
      SortedToSame(le, xs, ys);
      SameLength(xs, ys);
      forall i | 0 <= i < |members|
        ensures exists j :: 0 <= j < |b.members| && b.members[j].key == members[i].key
                            && Same(members[i].value, b.members[j].value)
      {
        var j := FindIn(xs, ys, i);
        CanonEqualIsSame(le, members[i].value, b.members[j].value);
      }
    case _ =>
  }

  lemma SortedToSame<T>(le: Order, xs: seq<Entry<T>>, ys: seq<Entry<T>>)
    requires Sort(le, xs) == Sort(le, ys)
    ensures multiset(xs) == multiset(ys)
  {
    SortPermutes(le, xs);
    SortPermutes(le, ys);
  }

  lemma FindIn<T>(xs: seq<T>, ys: seq<T>, i: nat) returns (j: nat)
    requires multiset(xs) == multiset(ys) && i < |xs|
    ensures j < |ys| && ys[j] == xs[i]
  {
    assert xs[i] in multiset(ys);
    j :| 0 <= j < |ys| && ys[j] == xs[i];
  }

  lemma SameLength<T>(xs: seq<T>, ys: seq<T>)
    requires multiset(xs) == multiset(ys)
    ensures |xs| == |ys|
  {
    assert |multiset(xs)| == |xs| && |multiset(ys)| == |ys|;
  }

  lemma TakenOut<T>(ys: seq<T>, j: nat)
    requires j < |ys|
    ensures multiset(ys) == multiset(ys[..j] + ys[j + 1..]) + multiset{ys[j]}
    ensures forall y :: y in ys && y != ys[j] ==> y in ys[..j] + ys[j + 1..]
  {
    assert ys == ys[..j] + [ys[j]] + ys[j + 1..];
    assert multiset(ys) == multiset(ys[..j]) + multiset([ys[j]]) + multiset(ys[j + 1..]);
  }

  /** Two lists of equal length with distinct keys, the first contained in the second, are permutations. */
  lemma {:induction false} ContainedIsPermutation<T>(xs: seq<Entry<T>>, ys: seq<Entry<T>>)
    requires DistinctKeys(xs) && |xs| == |ys| && forall i :: 0 <= i < |xs| ==> xs[i] in ys
    ensures multiset(xs) == multiset(ys)
  {
    if xs == [] {
    } else {
      var j :| 0 <= j < |ys| && ys[j] == xs[0];
      var rest := ys[..j] + ys[j + 1..];
      TakenOut(ys, j);
      forall i | 0 <= i < |xs[1..]|
        ensures xs[1..][i] in rest
      {
        assert xs[i + 1] in ys && xs[i + 1] != ys[j];
      }
      ContainedIsPermutation(xs[1..], rest);
      assert xs == [xs[0]] + xs[1..];
    }
  }

  lemma {:induction false} SameHasEqualCanon(le: Order, a: Json, b: Json)
    requires Preorder(le) && Separates(le) && WellFormed(a) && WellFormed(b) && Same(a, b)
    ensures Canon(le, a) == Canon(le, b)
    decreases a
  {
    match a
    case Arr(items) =>
      forall i | 0 <= i < |items|
        ensures Canon(le, items[i]) == Canon(le, b.items[i])
      {
        SameHasEqualCanon(le, items[i], b.items[i]);
      }
      assert CanonItems(le, items) == CanonItems(le, b.items);
    case Obj(members) =>
      var xs, ys := CanonMembers(le, members), CanonMembers(le, b.members);
      forall i | 0 <= i < |xs|
        ensures xs[i] in ys
      {
        var j :| 0 <= j < |b.members| && b.members[j].key == members[i].key && Same(members[i].value, b.members[j].value);
        SameHasEqualCanon(le, members[i].value, b.members[j].value);
        assert ys[j] == xs[i];
      }
      ContainedIsPermutation(xs, ys);
      SortedAgree(le, xs, ys);
    case _ =>
  }

  lemma SortedAgree<T>(le: Order, xs: seq<Entry<T>>, ys: seq<Entry<T>>)
    requires Preorder(le) && Separates(le) && DistinctKeys(xs) && multiset(xs) == multiset(ys)
    ensures Sort(le, xs) == Sort(le, ys)
  {
    SortPermutes(le, xs);
    SortPermutes(le, ys);
    SortSorts(le, xs);
    SortSorts(le, ys);
    PermutedKeysStayDistinct(xs, Sort(le, xs));
    SortedUnique(le, Sort(le, xs), Sort(le, ys));
  }

  // ----- The main results ---------------------------------------------------------------------------

  /** Equal texts mean equal values up to key order, whatever the comparator. */
  lemma EqualTextIsSame(le: Order, a: Json, b: Json)
    requires WellFormed(a) && WellFormed(b) && StableStringify(le, a) == StableStringify(le, b)
    ensures Same(a, b)
  {
    StableIsPrintOfCanon(le, a);
    StableIsPrintOfCanon(le, b);
    CanonWellFormed(le, a);
    CanonWellFormed(le, b);
    PrintInjective(Canon(le, a), Canon(le, b));
    CanonEqualIsSame(le, a, b);
  }

  /** The text identifies a value up to key order, and depends on nothing else. */
  lemma CanonicalText(le: Order, a: Json, b: Json)
    requires Preorder(le) && Separates(le) && WellFormed(a) && WellFormed(b)
    ensures StableStringify(le, a) == StableStringify(le, b) <==> Same(a, b)
  {
    if StableStringify(le, a) == StableStringify(le, b) {
      EqualTextIsSame(le, a, b);
    }
    if Same(a, b) {
      SameHasEqualCanon(le, a, b);
      StableIsPrintOfCanon(le, a);
      StableIsPrintOfCanon(le, b);
    }
  }

  /** The parser recovers the canonical value from its text followed by anything that cannot extend it. */
  lemma TextParsesBack(le: Order, v: Json, t: string)
    requires WellFormed(v) && Ends(Canon(le, v), t)
    ensures ParseValue(StableStringify(le, v) + t) == Some((Canon(le, v), t))
  {
    StableIsPrintOfCanon(le, v);
    CanonWellFormed(le, v);
    ParsePrint(Canon(le, v), t);
  }

  /** Objects with the two keys in either order. */
  function Pair(k: string, l: string): Json {
    Obj([Entry(k, Null), Entry(l, Null)])
  }

  lemma TieShowsOrder(le: Order, k: string, l: string)
    requires Preorder(le) && k != l && le(k, l) && le(l, k)
    ensures WellFormed(Pair(k, l)) && WellFormed(Pair(l, k)) && Same(Pair(k, l), Pair(l, k))
    ensures StableStringify(le, Pair(k, l)) != StableStringify(le, Pair(l, k))
  {
    hide Sort, Insert, Canon, StableStringify, Print;
    var a, b := Pair(k, l), Pair(l, k);
    var e, f := Entry(k, Null), Entry(l, Null);
    assert b.members[1] == e && b.members[0] == f;
    assert Same(a.members[0].value, b.members[1].value) && Same(a.members[1].value, b.members[0].value);
    CanonPair(le, k, l);
    CanonPair(le, l, k);
    if StableStringify(le, a) == StableStringify(le, b) {
      StableIsPrintOfCanon(le, a);
      StableIsPrintOfCanon(le, b);
      PrintInjective(a, b);
    }
  }

  /** A tied pair stays in the order in which it came. */
  lemma CanonPair(le: Order, k: string, l: string)
    requires k != l && le(k, l)
    ensures Canon(le, Pair(k, l)) == Pair(k, l)
  {
    var e, f := Entry(k, Null), Entry(l, Null);
    var xs := CanonMembers(le, Pair(k, l).members);
    assert xs == [e, f];
    assert xs[1..] == [f];
    assert Sort(le, [f]) == [f] by {
      assert [f][1..] == [];
    }
  }

  /**
   * Exactly which comparators make the text canonical when keys may be listed in any
   * order: those that tie no two different keys.
   */
  lemma CanonicalIffSeparates(le: Order)
    requires Preorder(le)
    ensures (forall a, b :: WellFormed(a) && WellFormed(b) && Same(a, b) ==>
               StableStringify(le, a) == StableStringify(le, b)) <==> Separates(le)
  {
    if Separates(le) {
      forall a, b | WellFormed(a) && WellFormed(b) && Same(a, b)
        ensures StableStringify(le, a) == StableStringify(le, b)
      {
        CanonicalText(le, a, b);
      }
    } else {
      var k, l :| le(k, l) && le(l, k) && k != l;
      TieShowsOrder(le, k, l);
    }
  }

  // ----- Keys as JavaScript lists them ---------------------------------------------------------

  predicate LexLe(a: string, b: string)
    requires |a| == |b|
  {
    a == "" || a[0] < b[0] || (a[0] == b[0] && LexLe(a[1..], b[1..]))
  }

  /** The numeric order of numerals without leading zeros. */
  predicate Ascending(a: string, b: string) {
    |a| < |b| || (|a| == |b| && LexLe(a, b))
  }

  /** A key that is an array index: a numeral without leading zeros below 2^32 - 1. */
  predicate IsIndex(key: string) {
    && key != "" && (forall i :: 0 <= i < |key| ==> Digit(key[i]))
    && (key[0] == '0' ==> key == "0")
    && Ascending(key, "4294967294")
  }

  /** A decimal numeral without leading zeros. */
  predicate Numeral(s: string) {
    s != "" && AllDigits(s) && (s[0] == '0' ==> s == "0")
  }

  /** `x` followed by `k` zeros. */
  function Shifted(x: nat, k: nat): nat {
    if k == 0 then x else 10 * Shifted(x, k - 1)
  }

  lemma {:induction false} ShiftedGrows(x: nat, y: nat, k: nat)
    requires x < y
    ensures Shifted(x, k) + Shifted(1, k) <= Shifted(y, k)
  {
    if k == 0 {
    } else {
      ShiftedGrows(x, y, k - 1);
    }
  }

  lemma {:induction false} MoreZeros(j: nat, k: nat)
    requires j <= k
    ensures Shifted(1, j) <= Shifted(1, k)
  {
    if j == k {
    } else {
      MoreZeros(j, k - 1);
    }
  }

  /** The first digit counts most. */
  lemma {:induction false} HeadCounts(s: string)
    requires s != "" && AllDigits(s)
    ensures Value(s) == Shifted(s[0] as int - '0' as int, |s| - 1) + Value(s[1..])
  {
    if |s| == 1 {
      assert s[..0] == "" && s[1..] == "";
    } else {
      var init := s[..|s| - 1];
      HeadCounts(init);
      assert s[1..][..|s[1..]| - 1] == init[1..];
    }
  }

  lemma {:induction false} ValueBounds(s: string)
    requires AllDigits(s)
    ensures 0 <= Value(s) < Shifted(1, |s|)
  {
    if s == "" {
    } else {
      ValueBounds(s[..|s| - 1]);
    }
  }

  lemma {:induction false} LexIsNumeric(a: string, b: string)
    requires |a| == |b| && AllDigits(a) && AllDigits(b)
    ensures LexLe(a, b) <==> Value(a) <= Value(b)
  {
    if a == "" {
    } else {
      HeadCounts(a);
      HeadCounts(b);
      ValueBounds(a[1..]);
      ValueBounds(b[1..]);
      LexIsNumeric(a[1..], b[1..]);
      var d, e := a[0] as int - '0' as int, b[0] as int - '0' as int;
      if d < e {
        ShiftedGrows(d, e, |a| - 1);
      } else if e < d {
        ShiftedGrows(e, d, |a| - 1);
      }
    }
  }

  lemma ShorterIsLess(a: string, b: string)
    requires Numeral(a) && Numeral(b) && |a| < |b|
    ensures Value(a) < Value(b)
  {
    ValueBounds(a);
    HeadCounts(b);
    MoreZeros(|a|, |b| - 1);
    ShiftedGrows(0, b[0] as int - '0' as int, |b| - 1);
  }

  /** The order of array indices is that of numbers. */
  lemma AscendingIsNumeric(a: string, b: string)
    requires Numeral(a) && Numeral(b)
    ensures Ascending(a, b) <==> Value(a) <= Value(b)
  {
    if |a| == |b| {
      LexIsNumeric(a, b);
    } else if |a| < |b| {
      ShorterIsLess(a, b);
    } else {
      ShorterIsLess(b, a);
    }
  }

  /** Array indices are the numerals without leading zeros of the numbers below 2^32 - 1. */
  lemma IndexIff(key: string)
    ensures IsIndex(key) <==> Numeral(key) && Value(key) < 4294967295
  {
    LargestIndex();
    if Numeral(key) {
      AscendingIsNumeric(key, "4294967294");
    }
  }

  lemma LargestIndex()
    ensures Numeral("4294967294") && Value("4294967294") == 4294967294
  {
    var s := "4294967294";
    assert Value(s[..0]) == 0;
    forall n | 0 <= n < 10
      ensures s[..n + 1][..n] == s[..n]
    {
    }
    assert Value(s[..1]) == 4;
    assert Value(s[..2]) == 42;
    assert Value(s[..3]) == 429;
    assert Value(s[..4]) == 4294;
    assert Value(s[..5]) == 42949;
    assert Value(s[..6]) == 429496;
    assert Value(s[..7]) == 4294967;
    assert Value(s[..8]) == 42949672;
    assert Value(s[..9]) == 429496729;
    assert s[..10] == s;
  }

  /** Array indices come first, in ascending order, whatever the order of insertion. */
  predicate ListedKeys<T>(members: seq<Entry<T>>) {
    forall i, j :: 0 <= i < j < |members| && IsIndex(members[j].key) ==>
                     IsIndex(members[i].key) && Ascending(members[i].key, members[j].key)
  }

  /** A value whose objects list their keys as `Object.entries` does. */
  predicate Listed(v: Json) {
    match v
    case Arr(items) => forall i :: 0 <= i < |items| ==> Listed(items[i])
    case Obj(members) => ListedKeys(members) && forall i :: 0 <= i < |members| ==> Listed(members[i].value)
    case _ => true
  }

  /** No two different keys tie unless one of them is an array index. */
  ghost predicate SeparatesOthers(le: Order) {
    forall a, b :: le(a, b) && le(b, a) && a != b ==> IsIndex(a) || IsIndex(b)
  }

  predicate ListedBefore(a: string, b: string) {
    IsIndex(a) && (IsIndex(b) ==> Ascending(a, b))
  }

  /** The comparator with its ties resolved the way keys are listed. */
  function Refined(le: Order): Order {
    (a, b) => le(a, b) && (le(b, a) && a != b ==> ListedBefore(a, b))
  }

  lemma {:induction false} LexLeOrders(a: string, b: string, c: string)
    requires |a| == |b| == |c|
    ensures LexLe(a, b) || LexLe(b, a)
    ensures LexLe(a, b) && LexLe(b, a) ==> a == b
    ensures LexLe(a, b) && LexLe(b, c) ==> LexLe(a, c)
  {
    if a == "" {
    } else {
      LexLeOrders(a[1..], b[1..], c[1..]);
      assert a == [a[0]] + a[1..] && b == [b[0]] + b[1..];
    }
  }

  lemma AscendingOrders(a: string, b: string, c: string)
    ensures Ascending(a, b) || Ascending(b, a)
    ensures Ascending(a, b) && Ascending(b, a) ==> a == b
    ensures Ascending(a, b) && Ascending(b, c) ==> Ascending(a, c)
  {
    if |a| == |b| {
      LexLeOrders(a, b, a);
      if |b| == |c| {
        LexLeOrders(a, b, c);
      }
    }
  }

  /** Resolving its ties makes the comparator separate all keys. */
  lemma RefinedSeparates(le: Order)
    requires Preorder(le) && SeparatesOthers(le)
    ensures Preorder(Refined(le)) && Separates(Refined(le))
  {
    hide IsIndex, Ascending;
    var finer := Refined(le);
    forall a, b
      ensures finer(a, b) || finer(b, a)
      ensures finer(a, b) && finer(b, a) ==> a == b
    {
      AscendingOrders(a, b, a);
      assert le(a, b) || le(b, a);
    }
    forall a, b, c | finer(a, b) && finer(b, c)
      ensures finer(a, c)
    {
      AscendingOrders(a, b, c);
      assert le(a, c);
      if le(c, a) {
        assert le(b, a) && le(c, b);
      }
    }
  }

  /** On keys that come later in the list both comparators decide alike. */
  lemma {:induction false} InsertRefined<T>(le: Order, e: Entry<T>, xs: seq<Entry<T>>)
    requires forall x :: x in xs ==> (le(e.key, x.key) <==> Refined(le)(e.key, x.key))
    ensures Insert(le, e, xs) == Insert(Refined(le), e, xs)
  {
    if xs == [] {
    } else {
      assert xs[0] in xs;
      InsertRefined(le, e, xs[1..]);
    }
  }

  lemma {:induction false} SortRefined<T>(le: Order, xs: seq<Entry<T>>)
    requires SeparatesOthers(le) && DistinctKeys(xs) && ListedKeys(xs)
    ensures Sort(le, xs) == Sort(Refined(le), xs)
  {
    hide IsIndex, Ascending;
    if xs == [] {
    } else {
      SortRefined(le, xs[1..]);
      var sorted := Sort(le, xs[1..]);
      SortPermutes(le, xs[1..]);
      forall x | x in sorted
        ensures le(xs[0].key, x.key) <==> Refined(le)(xs[0].key, x.key)
      {
        assert x in multiset(sorted);
        var j :| 0 <= j < |xs[1..]| && xs[1..][j] == x;
        assert xs[j + 1] == x && xs[0].key != x.key;
      }
      InsertRefined(le, xs[0], sorted);
    }
  }

  lemma {:induction false} CanonRefined(le: Order, v: Json)
    requires SeparatesOthers(le) && WellFormed(v) && Listed(v)
    ensures Canon(le, v) == Canon(Refined(le), v)
    decreases v
  {
    hide Sort;
    match v
    case Arr(items) =>
      forall i | 0 <= i < |items|
        ensures Canon(le, items[i]) == Canon(Refined(le), items[i])
      {
        CanonRefined(le, items[i]);
      }
      assert CanonItems(le, items) == CanonItems(Refined(le), items);
    case Obj(members) =>
      forall i | 0 <= i < |members|
        ensures Canon(le, members[i].value) == Canon(Refined(le), members[i].value)
      {
        CanonRefined(le, members[i].value);
      }
      assert CanonMembers(le, members) == CanonMembers(Refined(le), members);
      SortRefined(le, CanonMembers(le, members));
    case _ =>
  }

  /** Of values as JavaScript lists them, the text identifies a value up to key order under weaker comparators. */
  lemma ListedCanonicalText(le: Order, a: Json, b: Json)
    requires Preorder(le) && SeparatesOthers(le)
    requires WellFormed(a) && WellFormed(b) && Listed(a) && Listed(b)
    ensures StableStringify(le, a) == StableStringify(le, b) <==> Same(a, b)
  {
    RefinedSeparates(le);
    CanonicalText(Refined(le), a, b);
    forall v | v == a || v == b
      ensures StableStringify(le, v) == StableStringify(Refined(le), v)
    {
      CanonRefined(le, v);
      StableIsPrintOfCanon(le, v);
      StableIsPrintOfCanon(Refined(le), v);
    }
  }

  /**
   * Exactly which comparators make the text canonical in JavaScript, where array
   * indices are listed in ascending order: those that tie no two other keys.
   */
  lemma ListedCanonicalIff(le: Order)
    requires Preorder(le)
    ensures (forall a, b :: WellFormed(a) && WellFormed(b) && Listed(a) && Listed(b) && Same(a, b) ==>
               StableStringify(le, a) == StableStringify(le, b)) <==> SeparatesOthers(le)
  {
    if SeparatesOthers(le) {
      forall a, b | WellFormed(a) && WellFormed(b) && Listed(a) && Listed(b) && Same(a, b)
        ensures StableStringify(le, a) == StableStringify(le, b)
      {
        ListedCanonicalText(le, a, b);
      }
    } else {
      var k, l :| le(k, l) && le(l, k) && k != l && !IsIndex(k) && !IsIndex(l);
      TieShowsOrder(le, k, l);
      PairListed(k, l);
      PairListed(l, k);
    }
  }

  lemma PairListed(k: string, l: string)
    requires !IsIndex(k) && !IsIndex(l)
    ensures Listed(Pair(k, l))
  {
  }
}
