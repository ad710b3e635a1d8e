/** Small shared vocabulary: optional values and finite-sequence operations. */
module Common {

  datatype Option<+T> = None | Some(value: T)

  /** The elements of `xs` that satisfy `p`, in order. */
  function Filter<T(!new)>(xs: seq<T>, p: T -> bool): (ys: seq<T>)
    ensures forall y :: y in ys <==> y in xs && p(y)
  {
    if xs == [] then []
    else (if p(xs[0]) then [xs[0]] else []) + Filter(xs[1..], p)
  }

  predicate Distinct<T(==)>(xs: seq<T>) {
    forall i, j :: 0 <= i < j < |xs| ==> xs[i] != xs[j]
  }

  lemma {:induction false} FilterAppend<T(!new)>(xs: seq<T>, ys: seq<T>, p: T -> bool)
    ensures Filter(xs + ys, p) == Filter(xs, p) + Filter(ys, p)
  {
    if xs == [] {
      assert xs + ys == ys;
    } else {
      assert (xs + ys)[1..] == xs[1..] + ys;
      FilterAppend(xs[1..], ys, p);
    }
  }

  /** Splitting by a predicate loses and invents nothing. */
  lemma {:induction false} FilterPartition<T(!new)>(xs: seq<T>, p: T -> bool, q: T -> bool)
    requires forall x :: x in xs ==> (q(x) <==> !p(x))
    ensures multiset(Filter(xs, p)) + multiset(Filter(xs, q)) == multiset(xs)
  {
    if xs == [] {
    } else {
      FilterPartition(xs[1..], p, q);
      assert xs == [xs[0]] + xs[1..];
    }
  }

  /** `[...new Set(xs)]`: first occurrences only, in order. */
  function Dedup(xs: seq<string>): (ys: seq<string>)
    ensures forall x :: x in ys <==> x in xs
  {
    if xs == [] then []
    else
      var init := Dedup(xs[..|xs| - 1]);
      if xs[|xs| - 1] in init then init else init + [xs[|xs| - 1]]
  }

  lemma {:induction false} DedupDistinct(xs: seq<string>)
    ensures Distinct(Dedup(xs))
  {
    if xs == [] {
    } else {
      DedupDistinct(xs[..|xs| - 1]);
    }
  }

  lemma {:induction false} DedupOfDistinct(xs: seq<string>)
    requires Distinct(xs)
    ensures Dedup(xs) == xs
  {
    if xs == [] {
    } else {
      DedupOfDistinct(xs[..|xs| - 1]);
      assert xs == xs[..|xs| - 1] + [xs[|xs| - 1]];
    }
  }

  /** Where `x` occurs first. */
  function FirstAt(xs: seq<string>, x: string): (i: nat)
    ensures i <= |xs| && (i < |xs| <==> x in xs)
    ensures i < |xs| ==> xs[i] == x && x !in xs[..i]
  {
    if xs == [] || xs[0] == x then 0 else 1 + FirstAt(xs[1..], x)
  }

  lemma {:induction false} FirstInPrefix(xs: seq<string>, last: string, x: string)
    requires x in xs
    ensures FirstAt(xs + [last], x) == FirstAt(xs, x)
  {
    if xs[0] == x {
    } else {
      assert (xs + [last])[1..] == xs[1..] + [last];
      FirstInPrefix(xs[1..], last, x);
    }
  }

  /** The order of first occurrences. */
  predicate InOrder(xs: seq<string>, kept: seq<string>) {
    forall i, j :: 0 <= i < j < |kept| ==> FirstAt(xs, kept[i]) < FirstAt(xs, kept[j])
  }

  lemma OneMoreInOrder(init: seq<string>, kept: seq<string>, last: string)
    requires InOrder(init, kept) && last !in init && forall x :: x in kept ==> x in init
    ensures InOrder(init + [last], kept + [last])
  {
    assert forall i :: 0 <= i < |init| ==> (init + [last])[i] in init;
    assert FirstAt(init + [last], last) >= |init|;
    forall x | x in kept
      ensures FirstAt(init + [last], x) == FirstAt(init, x) < |init|
    {
      FirstInPrefix(init, last, x);
    }
  }

  lemma SameInOrder(init: seq<string>, kept: seq<string>, last: string)
    requires InOrder(init, kept) && forall x :: x in kept ==> x in init
    ensures InOrder(init + [last], kept)
  {
    forall x | x in kept
      ensures FirstAt(init + [last], x) == FirstAt(init, x)
    {
      FirstInPrefix(init, last, x);
    }
  }

  /** What is kept stands in the order of its first occurrences. */
  lemma {:induction false} DedupKeepsOrder(xs: seq<string>)
    ensures InOrder(xs, Dedup(xs))
  {
    hide FirstAt, InOrder;
    if xs == [] {
      NothingInOrder([]);
    } else {
      var init, last := xs[..|xs| - 1], xs[|xs| - 1];
      DedupKeepsOrder(init);
      assert xs == init + [last];
      if last in init {
        SameInOrder(init, Dedup(init), last);
      } else {
        OneMoreInOrder(init, Dedup(init), last);
      }
    }
  }

  lemma NothingInOrder(xs: seq<string>)
    ensures InOrder(xs, [])
  {
  }

  function Pow2(n: nat): (r: nat)
    ensures r > 0
  {
    if n == 0 then 1 else 2 * Pow2(n - 1)
  }

  lemma {:induction false} Pow2Grows(a: nat, b: nat)
    requires a <= b
    ensures Pow2(a) <= Pow2(b)
  {
    if a == b {
    } else {
      Pow2Grows(a, b - 1);
    }
  }

  // ----- Text ---------------------------------------------------------------------

  const NUL := 0 as char

  function Spaced(a: string, b: string): string {
    a + " " + b
  }

  /** White space and line terminators, as `String.prototype.trim` removes them. */
  predicate IsSpace(c: char) {
    var n := c as int;
    || 9 <= n <= 13 || n == 32 || n == 0xA0 || n == 0x1680 || 0x2000 <= n <= 0x200A
    || n == 0x2028 || n == 0x2029 || n == 0x202F || n == 0x205F || n == 0x3000 || n == 0xFEFF
  }

  function TrimLeft(s: string): string {
    if s != "" && IsSpace(s[0]) then TrimLeft(s[1..]) else s
  }

  function TrimRight(s: string): string {
    if s != "" && IsSpace(s[|s| - 1]) then TrimRight(s[..|s| - 1]) else s
  }

  function Trim(s: string): string {
    TrimRight(TrimLeft(s))
  }

  /** The characters that trimming takes from either end. */
  const SPACES := {9, 10, 11, 12, 13, 32, 160, 5760, 8192, 8193, 8194, 8195, 8196, 8197, 8198, 8199, 8200, 8201, 8202,
                   8232, 8233, 8239, 8287, 12288, 65279}

  /** Trimming takes white space from both ends, and no more. */
  lemma TrimIs(s: string) returns (i: nat, j: nat)
    ensures i <= j <= |s| && Trim(s) == s[i..j]
    ensures forall k :: 0 <= k < i || j <= k < |s| ==> s[k] as int in SPACES
    ensures i < j ==> s[i] as int !in SPACES && s[j - 1] as int !in SPACES
  {
    i := LeftEnd(s);
    var k := RightEnd(s[i..]);
    j := i + k;
  }

  lemma {:induction false} LeftEnd(s: string) returns (i: nat)
    ensures i <= |s| && TrimLeft(s) == s[i..]
    ensures forall k :: 0 <= k < i ==> s[k] as int in SPACES
    ensures i < |s| ==> s[i] as int !in SPACES
  {
    if s != "" && IsSpace(s[0]) {
      var k := LeftEnd(s[1..]);
      i := k + 1;
    } else {
      i := 0;
    }
  }

  lemma {:induction false} RightEnd(s: string) returns (j: nat)
    ensures j <= |s| && TrimRight(s) == s[..j]
    ensures forall k :: j <= k < |s| ==> s[k] as int in SPACES
    ensures 0 < j ==> s[j - 1] as int !in SPACES
  {
    if s != "" && IsSpace(s[|s| - 1]) {
      j := RightEnd(s[..|s| - 1]);
    } else {
      j := |s|;
    }
  }

  predicate AllDigits(s: string) {
    forall i :: 0 <= i < |s| ==> '0' <= s[i] <= '9'
  }

  /** The number a decimal numeral stands for. */
  function Value(digits: string): nat
    requires AllDigits(digits)
  {
    if digits == "" then 0 else 10 * Value(digits[..|digits| - 1]) + (digits[|digits| - 1] as int - '0' as int)
  }

  /** The trimmed text when it is there and not blank. */
  function FirstString(value: Option<string>): Option<string> {
    if value.Some? && Trim(value.value) != "" then Some(Trim(value.value)) else None
  }

  /** `String.prototype.split` with a one-character separator. */
  function Split(s: string, sep: char): (parts: seq<string>)
    ensures parts != []
  {
    if s == "" then [""]
    else
      var rest := Split(s[1..], sep);
      if s[0] == sep then [""] + rest else [[s[0]] + rest[0]] + rest[1..]
  }

  /** `Array.prototype.join`. */
  function Join(parts: seq<string>, sep: string): string {
    if parts == [] then ""
    else if |parts| == 1 then parts[0]
    else parts[0] + sep + Join(parts[1..], sep)
  }

  lemma {:induction false} SplitPrefix(p: string, s: string, sep: char)
    requires sep !in p
    ensures Split(p + [sep] + s, sep) == [p] + Split(s, sep)
    ensures Split(p, sep) == [p]
  {
    if p == "" {
      assert p + [sep] + s == [sep] + s;
      assert ([sep] + s)[1..] == s;
    } else {
      SplitPrefix(p[1..], s, sep);
      assert (p + [sep] + s)[1..] == p[1..] + [sep] + s;
      assert p[0] in p && p == [p[0]] + p[1..];
    }
  }

  /** Splitting what was joined gives the parts back when none contains the separator. */
  lemma {:induction false} SplitJoin(parts: seq<string>, sep: char)
    requires parts != [] && forall part :: part in parts ==> sep !in part
    ensures Split(Join(parts, [sep]), sep) == parts
  {
    if |parts| == 1 {
      SplitPrefix(parts[0], "", sep);
    } else {
      SplitJoin(parts[1..], sep);
      SplitPrefix(parts[0], Join(parts[1..], [sep]), sep);
      assert [parts[0]] + parts[1..] == parts;
    }
  }

  lemma {:induction false} JoinSplit(s: string, sep: char)
    ensures Join(Split(s, sep), [sep]) == s
    ensures forall part :: part in Split(s, sep) ==> sep !in part
  {
    if s == "" {
    } else {
      JoinSplit(s[1..], sep);
      var rest := Split(s[1..], sep);
      if s[0] == sep {
        JoinFirst("", rest, [sep]);
        assert [sep] + s[1..] == s;
      } else {
        JoinLonger(s[0], rest, [sep]);
      }
    }
  }

  lemma JoinFirst(part: string, rest: seq<string>, sep: string)
    requires rest != []
    ensures Join([part] + rest, sep) == part + sep + Join(rest, sep)
  {
    assert ([part] + rest)[1..] == rest;
  }

  /** A character in front of the first part is one in front of the text. */
  lemma JoinLonger(c: char, parts: seq<string>, sep: string)
    requires parts != []
    ensures Join([[c] + parts[0]] + parts[1..], sep) == [c] + Join(parts, sep)
  {
    var longer := [[c] + parts[0]] + parts[1..];
    if |parts| == 1 {
    } else {
      assert longer[1..] == parts[1..];
      assert [c] + parts[0] + sep + Join(parts[1..], sep) == [c] + (parts[0] + sep + Join(parts[1..], sep));
    }
  }
}
