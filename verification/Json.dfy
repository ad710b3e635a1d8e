/** JSON values, their compact text, and a parser that reads that text back (RFC 8259, without white space). */
module Json {
  import opened Common

  datatype Entry<+T> = Entry(key: string, value: T)

  /**
   * A parsed JSON value. Numbers are kept as the text JavaScript prints for them;
   * `Overflow` is a literal too large to be finite, which prints as `null`.
   */
  datatype Json =
    | Null
    | Overflow
    | Bool(b: bool)
    | Num(lit: string)
    | Str(s: string)
    | Arr(items: seq<Json>)
    | Obj(members: seq<Entry<Json>>)

  predicate Digit(c: char) {
    '0' <= c <= '9'
  }

  predicate NumChar(c: char) {
    Digit(c) || c == '-' || c == '+' || c == '.' || c == 'e' || c == 'E'
  }

  predicate NumChars(s: string) {
    forall i :: 0 <= i < |s| ==> NumChar(s[i])
  }

  function AfterDigits(s: string): string {
    if s != "" && Digit(s[0]) then AfterDigits(s[1..]) else s
  }

  predicate ExponentText(s: string) {
    if s == "" then true
    else
      && (s[0] == 'e' || s[0] == 'E')
      && var t := if |s| > 1 && (s[1] == '+' || s[1] == '-') then s[2..] else s[1..];
         t != "" && AfterDigits(t) == ""
  }

  predicate FractionText(s: string) {
    if s != "" && s[0] == '.' then |s| > 1 && Digit(s[1]) && ExponentText(AfterDigits(s[1..]))
    else ExponentText(s)
  }

  /** A number (section 6 of RFC 8259). */
  predicate NumText(s: string) {
    var t := if s != "" && s[0] == '-' then s[1..] else s;
    && t != "" && Digit(t[0])
    && FractionText(if t[0] == '0' then t[1..] else AfterDigits(t))
  }

  predicate SomeDigits(s: string) {
    s != "" && forall i :: 0 <= i < |s| ==> Digit(s[i])
  }

  lemma {:induction false} DigitsPass(digits: string, rest: string)
    requires forall i :: 0 <= i < |digits| ==> Digit(digits[i])
    requires rest == "" || !Digit(rest[0])
    ensures AfterDigits(digits + rest) == rest
  {
    if digits == "" {
      assert digits + rest == rest;
    } else {
      assert (digits + rest)[1..] == digits[1..] + rest;
      DigitsPass(digits[1..], rest);
    }
  }

  /** An exponent: a mark, a sign or none, and digits. */
  predicate IsExponent(s: string) {
    && |s| > 1 && s[0] in ['e', 'E']
    && (SomeDigits(s[1..]) || (s[1] in ['+', '-'] && SomeDigits(s[2..])))
  }

  lemma ExponentForms(s: string)
    requires s == "" || IsExponent(s)
    ensures ExponentText(s) && (s == "" || (!Digit(s[0]) && s[0] != '.'))
  {
    if s != "" {
      var digits := if s[1] in ['+', '-'] then s[2..] else s[1..];
      assert s[1..][0] == s[1];
      DigitsPass(digits, "");
      assert digits + "" == digits;
    }
  }

  lemma FractionForms(fraction: string, exponent: string)
    requires fraction == "" || (fraction[0] == '.' && SomeDigits(fraction[1..]))
    requires exponent == "" || IsExponent(exponent)
    ensures var s := fraction + exponent; FractionText(s) && (s == "" || !Digit(s[0]))
  {
    hide ExponentText;
    var s := fraction + exponent;
    ExponentForms(exponent);
    if fraction == "" {
      assert s == exponent;
    } else {
      DigitsPass(fraction[1..], exponent);
      assert s[1..] == fraction[1..] + exponent && s[1] == fraction[1..][0];
    }
  }

  lemma WholeForms(whole: string, rest: string)
    requires SomeDigits(whole) && (whole[0] == '0' ==> whole == "0")
    requires FractionText(rest) && (rest == "" || !Digit(rest[0]))
    ensures NumText(whole + rest) && NumText("-" + (whole + rest))
  {
    hide FractionText;
    var t := whole + rest;
    DigitsPass(whole, rest);
    assert ("-" + t)[1..] == t && t[0] == whole[0];
    if whole[0] == '0' {
      assert t[1..] == rest;
    }
  }

  /** Every form a number may take: a sign, an integer without leading zeros, a fraction and an exponent. */
  lemma NumberForms(whole: string, fraction: string, exponent: string)
    requires SomeDigits(whole) && (whole[0] == '0' ==> whole == "0")
    requires fraction == "" || (fraction[0] == '.' && SomeDigits(fraction[1..]))
    requires exponent == "" || IsExponent(exponent)
    ensures NumText(whole + (fraction + exponent)) && NumText("-" + (whole + (fraction + exponent)))
  {
    hide FractionText, NumText, IsExponent, SomeDigits;
    FractionForms(fraction, exponent);
    WholeForms(whole, fraction + exponent);
  }

  lemma {:induction false} DigitsThenChars(s: string)
    requires NumChars(AfterDigits(s))
    ensures NumChars(s)
  {
    if s == "" || !Digit(s[0]) {
    } else {
      DigitsThenChars(s[1..]);
      assert s == [s[0]] + s[1..];
    }
  }

  lemma BehindFirst(s: string)
    requires s != "" && NumChar(s[0]) && NumChars(s[1..])
    ensures NumChars(s)
  {
    assert s == [s[0]] + s[1..];
  }

  lemma ExponentChars(s: string)
    requires ExponentText(s)
    ensures NumChars(s)
  {
    if s == "" {
    } else {
      var signed := |s| > 1 && (s[1] == '+' || s[1] == '-');
      DigitsThenChars(if signed then s[2..] else s[1..]);
      if signed {
        assert s[1..][1..] == s[2..];
        BehindFirst(s[1..]);
      }
      BehindFirst(s);
    }
  }

  lemma FractionChars(s: string)
    requires FractionText(s)
    ensures NumChars(s)
  {
    if s != "" && s[0] == '.' {
      ExponentChars(AfterDigits(s[1..]));
      DigitsThenChars(s[1..]);
      BehindFirst(s);
    } else {
      ExponentChars(s);
    }
  }

  lemma NumTextChars(s: string)
    requires NumText(s)
    ensures s != "" && (Digit(s[0]) || s[0] == '-') && NumChars(s)
  {
    var t := if s[0] == '-' then s[1..] else s;
    if t[0] == '0' {
      FractionChars(t[1..]);
      BehindFirst(t);
    } else {
      FractionChars(AfterDigits(t));
      DigitsThenChars(t);
    }
    if s[0] == '-' {
      BehindFirst(s);
    }
  }

  predicate DistinctKeys<T>(members: seq<Entry<T>>) {
    forall i, j :: 0 <= i < j < |members| ==> members[i].key != members[j].key
  }

  lemma DistinctIff<T>(members: seq<Entry<T>>)
    ensures DistinctKeys(members) <==>
            forall i: nat, j: nat :: i < |members| && j < |members| && members[i].key == members[j].key ==> i == j
  {
  }

  /** Keys of an object differ; numbers have number text. */
  predicate WellFormed(v: Json) {
    match v
    case Num(lit) => NumText(lit)
    case Arr(items) => forall i :: 0 <= i < |items| ==> WellFormed(items[i])
    case Obj(members) =>
      DistinctKeys(members) && forall i :: 0 <= i < |members| ==> WellFormed(members[i].value)
    case _ => true
  }

  /** No part of the value is an overflowed number. */
  predicate Finite(v: Json) {
    match v
    case Overflow => false
    case Arr(items) => forall i :: 0 <= i < |items| ==> Finite(items[i])
    case Obj(members) => forall i :: 0 <= i < |members| ==> Finite(members[i].value)
    case _ => true
  }

  /** Both are demands on objects, numbers and what is inside only. */
  lemma ScalarsPass(v: Json)
    requires !v.Arr? && !v.Obj?
    ensures !v.Num? ==> WellFormed(v)
    ensures v != Overflow ==> Finite(v)
  {
  }

  // ----- Printing -------------------------------------------------------------------

  function HexDigit(n: nat): char
    requires n < 16
  {
    if n < 10 then '0' + (n as char) else 'a' + ((n - 10) as char)
  }

  function EscapeChar(c: char): string {
    if c == '"' then "\\\""
    else if c == '\\' then "\\\\"
    else if c as int == 8 then "\\b"
    else if c as int == 9 then "\\t"
    else if c as int == 10 then "\\n"
    else if c as int == 12 then "\\f"
    else if c as int == 13 then "\\r"
    else if c as int < 32 then "\\u00" + [HexDigit(c as int / 16), HexDigit(c as int % 16)]
    else [c]
  }

  /** How each character is written inside a string (section 7 of RFC 8259, in the form JavaScript chooses). */
  lemma EscapesAre(c: char)
    ensures EscapeChar('"') == "\\\"" && EscapeChar('\\') == "\\\\"
    ensures EscapeChar(8 as char) == "\\b" && EscapeChar(9 as char) == "\\t" && EscapeChar(10 as char) == "\\n"
    ensures EscapeChar(12 as char) == "\\f" && EscapeChar(13 as char) == "\\r"
    ensures c as int >= 32 && c != '"' && c != '\\' ==> EscapeChar(c) == [c]
    ensures c as int < 32 && c as int !in {8, 9, 10, 12, 13} ==>
              EscapeChar(c) == "\\u00" + [if c as int < 16 then '0' else '1', "0123456789abcdef"[c as int % 16]]
  {
  }

  function Escape(s: string): string {
    if s == "" then "" else EscapeChar(s[0]) + Escape(s[1..])
  }

  function Quoted(s: string): string {
    "\"" + Escape(s) + "\""
  }

  function Print(v: Json): string
    decreases v, 1
  {
    match v
    case Null => "null"
    case Overflow => "null"
    case Bool(b) => if b then "true" else "false"
    case Num(lit) => lit
    case Str(s) => Quoted(s)
    case Arr(items) => "[" + PrintItems(items) + "]"
    case Obj(members) => "{" + PrintMembers(members) + "}"
  }

  function PrintItems(items: seq<Json>): string
    decreases items, 0
  {
    if items == [] then ""
    else if |items| == 1 then Print(items[0])
    else Print(items[0]) + "," + PrintItems(items[1..])
  }

  function PrintMember(m: Entry<Json>): string
    decreases m.value, 2
  {
    Quoted(m.key) + ":" + Print(m.value)
  }

  function PrintMembers(members: seq<Entry<Json>>): string
    decreases members, 0
  {
    if members == [] then ""
    else if |members| == 1 then PrintMember(members[0])
    else PrintMember(members[0]) + "," + PrintMembers(members[1..])
  }

  /** The texts without parts. */
  lemma WordsAre(lit: string)
    ensures Print(Null) == "null" && Print(Overflow) == "null" && Print(Num(lit)) == lit
    ensures Print(Bool(true)) == "true" && Print(Bool(false)) == "false"
    ensures Print(Str("")) == "\"\"" && Print(Arr([])) == "[]" && Print(Obj([])) == "{}"
  {
  }

  // ----- Parsing --------------------------------------------------------------------

  function HexValue(c: char): Option<nat> {
    if Digit(c) then Some((c as int) - ('0' as int))
    else if 'a' <= c <= 'f' then Some((c as int) - ('a' as int) + 10)
    else None
  }

  /** The character an escape stands for and how many characters it takes after the backslash. */
  function Unescape(s: string): Option<(char, nat)> {
    if s == "" then None
    else if s[0] == '"' || s[0] == '\\' || s[0] == '/' then Some((s[0], 1))
    else if s[0] == 'b' then Some((8 as char, 1))
    else if s[0] == 't' then Some((9 as char, 1))
    else if s[0] == 'n' then Some((10 as char, 1))
    else if s[0] == 'f' then Some((12 as char, 1))
    else if s[0] == 'r' then Some((13 as char, 1))
    else if s[0] == 'u' && |s| >= 5 then
      var a, b, c, d := HexValue(s[1]), HexValue(s[2]), HexValue(s[3]), HexValue(s[4]);
      if a.Some? && b.Some? && c.Some? && d.Some? then
        var code := ((a.value * 16 + b.value) * 16 + c.value) * 16 + d.value;
        if code < 0xD800 then Some((code as char, 5)) else None
      else None
    else None
  }

  /** Reads the rest of a string whose opening quote has been read. */
  function ParseString(s: string): (r: Option<(string, string)>)
    ensures r.Some? ==> |r.value.1| < |s|
    decreases |s|
  {
    if s == "" || (s[0] as int) < 32 then None
    else if s[0] == '"' then Some(("", s[1..]))
    else if s[0] == '\\' then
      match Unescape(s[1..])
      case None => None
      case Some((c, n)) =>
        if 1 + n > |s| then None
        else
          match ParseString(s[1 + n..])
          case None => None
          case Some((text, rest)) => Some(([c] + text, rest))
    else
      match ParseString(s[1..])
      case None => None
      case Some((text, rest)) => Some(([s[0]] + text, rest))
  }

  /** Length of the longest run of number characters at the front. */
  function NumLength(s: string): (n: nat)
    ensures n <= |s|
  {
    if s == "" || !NumChar(s[0]) then 0 else 1 + NumLength(s[1..])
  }

  predicate StartsWith(s: string, p: string) {
    |p| <= |s| && s[..|p|] == p
  }

  function ParseValue(s: string): (r: Option<(Json, string)>)
    ensures r.Some? ==> |r.value.1| < |s|
    decreases |s|, 1
  {
    if s == "" then None
    else if StartsWith(s, "null") then Some((Null, s[4..]))
    else if StartsWith(s, "true") then Some((Bool(true), s[4..]))
    else if StartsWith(s, "false") then Some((Bool(false), s[5..]))
    else if s[0] == '"' then
      match ParseString(s[1..])
      case None => None
      case Some((text, rest)) => Some((Str(text), rest))
    else if s[0] == '[' then
      if |s| >= 2 && s[1] == ']' then Some((Arr([]), s[2..]))
      else
        match ParseItems(s[1..])
        case None => None
        case Some((items, rest)) => Some((Arr(items), rest))
    else if s[0] == '{' then
      if |s| >= 2 && s[1] == '}' then Some((Obj([]), s[2..]))
      else
        match ParseMembers(s[1..])
        case None => None
        case Some((members, rest)) => Some((Obj(members), rest))
    else if NumText(s[..NumLength(s)]) then
      NumTextChars(s[..NumLength(s)]);
      Some((Num(s[..NumLength(s)]), s[NumLength(s)..]))
    else None
  }

  /** At least one value, separated by commas, up to the closing bracket. */
  function ParseItems(s: string): (r: Option<(seq<Json>, string)>)
    ensures r.Some? ==> |r.value.1| < |s|
    decreases |s|, 2
  {
    match ParseValue(s)
    case None => None
    case Some((v, rest)) =>
      if rest == "" then None
      else if rest[0] == ']' then Some(([v], rest[1..]))
      else if rest[0] == ',' then
        match ParseItems(rest[1..])
        case None => None
        case Some((items, end)) => Some(([v] + items, end))
      else None
  }

  function ParseMembers(s: string): (r: Option<(seq<Entry<Json>>, string)>)
    ensures r.Some? ==> |r.value.1| < |s|
    decreases |s|, 2
  {
    if s == "" || s[0] != '"' then None
    else
      match ParseString(s[1..])
      case None => None
      case Some((key, afterKey)) =>
        if afterKey == "" || afterKey[0] != ':' then None
        else
          match ParseValue(afterKey[1..])
          case None => None
          case Some((v, rest)) =>
            if rest == "" then None
            else if rest[0] == '}' then Some(([Entry(key, v)], rest[1..]))
            else if rest[0] == ',' then
              match ParseMembers(rest[1..])
              case None => None
              case Some((members, end)) => Some(([Entry(key, v)] + members, end))
            else None
  }

  // ----- The parser reads the printed text back ---------------------------------------

  lemma EscapedCharParses(c: char, t: string)
    ensures ParseString(EscapeChar(c) + t) ==
            match ParseString(t) { case None => None case Some((text, rest)) => Some(([c] + text, rest)) }
  {
    var s := EscapeChar(c) + t;
    if s[0] == '\\' {
      var n := |EscapeChar(c)| - 1;
      assert s[1 + n..] == t;
      if |EscapeChar(c)| == 6 {
        assert s[1..][1] == '0' && s[1..][2] == '0';
        assert s[1..][3] == HexDigit(c as int / 16) && s[1..][4] == HexDigit(c as int % 16);
        assert Unescape(s[1..]) == Some((c, 5));
      } else {
        assert Unescape(s[1..]) == Some((c, 1));
      }
    } else {
      assert s[1..] == t;
    }
  }

  lemma {:induction false} StringParses(x: string, t: string)
    ensures ParseString(Escape(x) + "\"" + t) == Some((x, t))
  {
    if x == "" {
      assert Escape(x) + "\"" + t == "\"" + t;
      assert ("\"" + t)[1..] == t;
    } else {
      var rest := Escape(x[1..]) + "\"" + t;
      assert Escape(x) + "\"" + t == EscapeChar(x[0]) + rest;
      StringParses(x[1..], t);
      EscapedCharParses(x[0], rest);
      assert [x[0]] + x[1..] == x;
    }
  }

  /** `t` cannot be read as a continuation of the last token of `v`. */
  predicate Ends(v: Json, t: string) {
    v.Num? ==> t == "" || !NumChar(t[0])
  }

  lemma {:induction false} NumLengthOf(lit: string, t: string)
    requires NumChars(lit)
    requires t == "" || !NumChar(t[0])
    ensures NumLength(lit + t) == |lit|
  {
    if lit == "" {
      assert lit + t == t;
    } else {
      assert (lit + t)[1..] == lit[1..] + t;
      NumLengthOf(lit[1..], t);
    }
  }

  lemma NumberParses(lit: string, t: string)
    requires NumText(lit) && (t == "" || !NumChar(t[0]))
    ensures ParseValue(lit + t) == Some((Num(lit), t))
  {
    NumTextChars(lit);
    NumLengthOf(lit, t);
    var s := lit + t;
    assert s[0] == lit[0] && s[..|lit|] == lit && s[|lit|..] == t;
    NoKeyword(s);
  }

  lemma NoKeyword(s: string)
    requires s != "" && s[0] != 'n' && s[0] != 't' && s[0] != 'f'
    ensures !StartsWith(s, "null") && !StartsWith(s, "true") && !StartsWith(s, "false")
  {
    FirstDiffers(s, "null");
    FirstDiffers(s, "true");
    FirstDiffers(s, "false");
  }

  lemma FirstDiffers(s: string, p: string)
    requires s != "" && p != "" && s[0] != p[0]
    ensures !StartsWith(s, p)
  {
    if |p| <= |s| {
      assert s[..|p|][0] == s[0];
    }
  }

  lemma KeywordParses(v: Json, t: string)
    requires v.Null? || v.Bool?
    ensures ParseValue(Print(v) + t) == Some((v, t))
  {
    var p := Print(v);
    var s := p + t;
    assert s[..|p|] == p && s[|p|..] == t;
    if v == Bool(true) {
      FirstDiffers(s, "null");
    }
    if v == Bool(false) {
      FirstDiffers(s, "null");
      FirstDiffers(s, "true");
    }
  }

  /** No printed value starts like the end of an array or object. */
  lemma PrintStart(v: Json)
    requires WellFormed(v)
    ensures Print(v) != "" && Print(v)[0] != ']' && Print(v)[0] != '}'
  {
  }

  /** Printing then parsing gives the value back, whatever follows that cannot extend its last token. */
  lemma {:induction false} ParsePrint(v: Json, t: string)
    requires WellFormed(v) && Finite(v) && Ends(v, t)
    ensures ParseValue(Print(v) + t) == Some((v, t))
    decreases v, 1
  {
    var s := Print(v) + t;
    match v
    case Null => KeywordParses(v, t);
    case Bool(_) => KeywordParses(v, t);
    case Num(lit) => NumberParses(lit, t);
    case Str(x) =>
      NoKeyword(s);
      assert s[1..] == Escape(x) + "\"" + t;
      StringParses(x, t);
    case Arr(items) =>
      if items != [] {
        ItemsParse(items, t);
        PrintStart(items[0]);
      }
      ArrayParses(items, t);
    case Obj(members) =>
      if members != [] {
        MembersParse(members, t);
      }
      ObjectParses(members, t);
  }

  lemma ArrayStep(s: string)
    requires |s| >= 2 && s[0] == '['
    ensures ParseValue(s) == if s[1] == ']' then Some((Arr([]), s[2..]))
                             else match ParseItems(s[1..])
                                  case None => None
                                  case Some((items, rest)) => Some((Arr(items), rest))
  {
    NoKeyword(s);
  }

  lemma ArrayParses(items: seq<Json>, t: string)
    requires items != [] ==> ParseItems(PrintItems(items) + "]" + t) == Some((items, t))
    requires items != [] ==> Print(items[0]) != "" && Print(items[0])[0] != ']'
    ensures ParseValue(Print(Arr(items)) + t) == Some((Arr(items), t))
  {
    hide ParseItems, ParseMembers, PrintMembers;
    var s := Print(Arr(items)) + t;
    var inside := PrintItems(items) + "]" + t;
    assert s == "[" + inside && s[1..] == inside;
    ArrayStep(s);
    if items == [] {
      assert PrintItems(items) == "";
      assert s[1] == ']' && s[2..] == t;
    } else {
      assert s[1] == PrintItems(items)[0] == Print(items[0])[0];
    }
  }

  lemma ObjectStep(s: string)
    requires |s| >= 2 && s[0] == '{'
    ensures ParseValue(s) == if s[1] == '}' then Some((Obj([]), s[2..]))
                             else match ParseMembers(s[1..])
                                  case None => None
                                  case Some((members, rest)) => Some((Obj(members), rest))
  {
    NoKeyword(s);
  }

  lemma MembersStart(members: seq<Entry<Json>>)
    requires members != []
    ensures PrintMembers(members) != "" && PrintMembers(members)[0] == '"'
  {
  }

  lemma ObjectParses(members: seq<Entry<Json>>, t: string)
    requires members != [] ==> ParseMembers(PrintMembers(members) + "}" + t) == Some((members, t))
    ensures ParseValue(Print(Obj(members)) + t) == Some((Obj(members), t))
  {
    var s := Print(Obj(members)) + t;
    var inside := PrintMembers(members) + "}" + t;
    assert s == "{" + inside && s[1..] == inside;
    ObjectStep(s);
    if members == [] {
      assert PrintMembers(members) == "";
      assert s[1] == '}' && s[2..] == t;
    } else {
      MembersStart(members);
      assert s[1] == inside[0] == '"';
    }
  }

  lemma {:induction false} ItemsParse(items: seq<Json>, t: string)
    requires items != []
    requires forall i :: 0 <= i < |items| ==> WellFormed(items[i]) && Finite(items[i])
    ensures ParseItems(PrintItems(items) + "]" + t) == Some((items, t))
    decreases items, 0
  {
    if |items| == 1 {
      ParsePrint(items[0], "]" + t);
      LastItemParses(items, t);
    } else {
      var rest := PrintItems(items[1..]) + "]" + t;
      ParsePrint(items[0], "," + rest);
      ItemsParse(items[1..], t);
      FirstItemParses(items, t);
    }
  }

  lemma LastItemParses(items: seq<Json>, t: string)
    requires |items| == 1 && ParseValue(Print(items[0]) + ("]" + t)) == Some((items[0], "]" + t))
    ensures ParseItems(PrintItems(items) + "]" + t) == Some((items, t))
  {
    assert PrintItems(items) + "]" + t == Print(items[0]) + ("]" + t);
    assert ("]" + t)[1..] == t && [items[0]] == items;
  }

  lemma ItemsStep(s: string, v: Json, rest: string)
    requires ParseValue(s) == Some((v, "," + rest))
    ensures ParseItems(s) == match ParseItems(rest)
                             case None => None
                             case Some((items, end)) => Some(([v] + items, end))
  {
    assert ("," + rest)[1..] == rest;
  }

  lemma FirstItemParses(items: seq<Json>, t: string)
    requires |items| > 1
    requires ParseItems(PrintItems(items[1..]) + "]" + t) == Some((items[1..], t))
    requires var rest := PrintItems(items[1..]) + "]" + t;
             ParseValue(Print(items[0]) + ("," + rest)) == Some((items[0], "," + rest))
    ensures ParseItems(PrintItems(items) + "]" + t) == Some((items, t))
  {
    hide ParseValue, Print;
    var rest := PrintItems(items[1..]) + "]" + t;
    assert PrintItems(items) + "]" + t == Print(items[0]) + ("," + rest);
    ItemsStep(Print(items[0]) + ("," + rest), items[0], rest);
    assert [items[0]] + items[1..] == items;
  }

  lemma {:induction false} MembersParse(members: seq<Entry<Json>>, t: string)
    requires members != []
    requires forall i :: 0 <= i < |members| ==> WellFormed(members[i].value) && Finite(members[i].value)
    ensures ParseMembers(PrintMembers(members) + "}" + t) == Some((members, t))
    decreases members, 0
  {
    var m := members[0];
    if |members| == 1 {
      assert members == [m];
      LastMemberText(m, t);
      LastMemberParses(m, t);
    } else {
      assert members == [m] + members[1..];
      FirstMemberText(m, members[1..], t);
      MembersParse(members[1..], t);
      FirstMemberParses(m, PrintMembers(members[1..]) + "}" + t, members[1..], t);
    }
  }

  lemma LastMemberText(m: Entry<Json>, t: string)
    ensures PrintMembers([m]) + "}" + t == PrintMember(m) + ("}" + t)
  {
    Regroup(PrintMember(m), "", "", "}", t);
  }

  lemma FirstMemberText(m: Entry<Json>, rest: seq<Entry<Json>>, t: string)
    requires rest != []
    ensures PrintMembers([m] + rest) + "}" + t == PrintMember(m) + ("," + (PrintMembers(rest) + "}" + t))
  {
    var all := [m] + rest;
    assert all[0] == m && all[1..] == rest;
    assert PrintMembers(all) == PrintMember(m) + "," + PrintMembers(rest);
    Regroup(PrintMember(m), ",", PrintMembers(rest), "}", t);
  }

  lemma Regroup(a: string, b: string, c: string, d: string, e: string)
    ensures a + b + c + d + e == a + (b + (c + d + e))
  {
  }

  lemma LastMemberParses(m: Entry<Json>, t: string)
    requires WellFormed(m.value) && Finite(m.value)
    ensures ParseMembers(PrintMember(m) + ("}" + t)) == Some(([m], t))
    decreases m.value, 3
  {
    MemberParses(m, "}" + t);
    assert ("}" + t)[1..] == t;
  }

  lemma FirstMemberParses(m: Entry<Json>, rest: string, members: seq<Entry<Json>>, t: string)
    requires WellFormed(m.value) && Finite(m.value)
    requires ParseMembers(rest) == Some((members, t))
    ensures ParseMembers(PrintMember(m) + ("," + rest)) == Some(([m] + members, t))
    decreases m.value, 3
  {
    MemberParses(m, "," + rest);
    assert ("," + rest)[1..] == rest;
  }

  lemma MemberText(m: Entry<Json>, after: string)
    ensures PrintMember(m) + after == "\"" + (Escape(m.key) + "\"" + (":" + (Print(m.value) + after)))
    ensures (PrintMember(m) + after)[1..] == Escape(m.key) + "\"" + (":" + (Print(m.value) + after))
  {
    var tail := Escape(m.key) + "\"" + (":" + (Print(m.value) + after));
    assert PrintMember(m) + after == "\"" + tail;
    assert ("\"" + tail)[1..] == tail;
  }

  /** One printed member, followed by the end of the object or a comma. */
  lemma MemberParses(m: Entry<Json>, after: string)
    requires WellFormed(m.value) && Finite(m.value)
    requires after != "" && (after[0] == '}' || after[0] == ',')
    ensures var s := PrintMember(m) + after;
            var afterKey := ":" + (Print(m.value) + after);
            && s != "" && s[0] == '"'
            && ParseString(s[1..]) == Some((m.key, afterKey))
            && ParseValue(afterKey[1..]) == Some((m.value, after))
    decreases m.value, 2
  {
    var s := PrintMember(m) + after;
    var afterKey := ":" + (Print(m.value) + after);
    MemberText(m, after);
    StringParses(m.key, afterKey);
    assert afterKey[1..] == Print(m.value) + after;
    ParsePrint(m.value, after);
  }

  /** Different finite values have different texts. */
  lemma PrintInjective(a: Json, b: Json)
    requires WellFormed(a) && Finite(a) && WellFormed(b) && Finite(b)
    requires Print(a) == Print(b)
    ensures a == b
  {
    ParsePrint(a, "");
    ParsePrint(b, "");
    assert Print(a) + "" == Print(a);
    assert Print(b) + "" == Print(b);
  }
}
