/** PostgreSQL role statements: quoting, permission scopes, and the tokens a statement reads back as. */
module Sql {
  import opened Common

  // ----- Quoting --------------------------------------------------------------------

  /** `value.replace(/q/g, 'qq')`. */
  function Doubled(value: string, q: char): string {
    if value == "" then ""
    else (if value[0] == q then [q, q] else [value[0]]) + Doubled(value[1..], q)
  }

  function Quoted(value: string, q: char): string {
    [q] + Doubled(value, q) + [q]
  }

  function Ident(value: string): string {
    Quoted(value, '"')
  }

  function StringLiteral(value: string): string {
    Quoted(value, '\'')
  }

  // ----- Reading a statement ----------------------------------------------------------

  datatype Token = Word(text: string) | Name(text: string) | Text(text: string) | Dot

  predicate IsWordChar(c: char) {
    'A' <= c <= 'Z' || 'a' <= c <= 'z' || '0' <= c <= '9' || c == '_'
  }

  function WordLength(s: string): (n: nat)
    ensures n <= |s| && forall i :: 0 <= i < n ==> IsWordChar(s[i])
    ensures n < |s| ==> !IsWordChar(s[n])
  {
    if s == "" || !IsWordChar(s[0]) then 0 else 1 + WordLength(s[1..])
  }

  /** The value up to the closing quote and the text behind it; a doubled quote stands for one. */
  function ScanQuoted(s: string, q: char): (r: Option<(string, string)>)
    ensures r.Some? ==> |r.value.1| < |s| && (r.value.1 != "" ==> r.value.1[0] != q)
  {
    if s == "" || s[0] == NUL then None
    else if s[0] != q then
      var rest := ScanQuoted(s[1..], q);
      if rest.None? then None else Some(([s[0]] + rest.value.0, rest.value.1))
    else if |s| > 1 && s[1] == q then
      var rest := ScanQuoted(s[2..], q);
      if rest.None? then None else Some(([q] + rest.value.0, rest.value.1))
    else Some(("", s[1..]))
  }

  function Prepend(token: Token, tokens: Option<seq<Token>>): Option<seq<Token>> {
    if tokens.None? then None else Some([token] + tokens.value)
  }

  /**
   * Section 4.1 of the PostgreSQL documentation with standard_conforming_strings on, for the characters these
   * statements use. A word directly followed by a quote (a prefixed string) and an empty quoted name are refused.
   */
  function Lex(s: string): Option<seq<Token>>
    decreases |s|
  {
    if s == "" then Some([])
    else if s[0] == ' ' then Lex(s[1..])
    else if s[0] == '.' then Prepend(Dot, Lex(s[1..]))
    else if s[0] == '"' || s[0] == '\'' then
      var scan := ScanQuoted(s[1..], s[0]);
      if scan.None? || (s[0] == '"' && scan.value.0 == "") then None
      else Prepend(if s[0] == '"' then Name(scan.value.0) else Text(scan.value.0), Lex(scan.value.1))
    else
      var n := WordLength(s);
      if n == 0 || (n < |s| && s[n] in ['"', '\'']) then None
      else Prepend(Word(s[..n]), Lex(s[n..]))
  }

  // ----- Reading what was quoted --------------------------------------------------------

  lemma {:induction false} ScanDoubled(value: string, q: char, rest: string)
    requires q != NUL && NUL !in value && (rest != "" ==> rest[0] != q)
    ensures ScanQuoted(Doubled(value, q) + [q] + rest, q) == Some((value, rest))
  {
    var s := Doubled(value, q) + [q] + rest;
    if value == "" {
      assert s[1..] == rest;
    } else {
      ScanDoubled(value[1..], q, rest);
      var tail := Doubled(value[1..], q) + [q] + rest;
      if value[0] == q {
        assert s == [q, q] + tail && s[2..] == tail;
      } else {
        assert s == [value[0]] + tail && s[1..] == tail;
      }
      assert value == [value[0]] + value[1..];
    }
  }

  lemma {:induction false} ScanMeetsNul(value: string, q: char, rest: string)
    requires q != NUL && NUL in value
    ensures ScanQuoted(Doubled(value, q) + [q] + rest, q) == None
  {
    var s := Doubled(value, q) + [q] + rest;
    if value[0] != NUL {
      ScanMeetsNul(value[1..], q, rest);
      var tail := Doubled(value[1..], q) + [q] + rest;
      if value[0] == q {
        assert s == [q, q] + tail && s[2..] == tail;
      } else {
        assert s == [value[0]] + tail && s[1..] == tail;
      }
    } else {
      assert s[0] == NUL;
    }
  }

  function QuotedToken(q: char, value: string): Token {
    if q == '"' then Name(value) else Text(value)
  }

  lemma OneToken(token: Token)
    ensures Prepend(token, Lex("")) == Some([token])
  {
    assert [token] + [] == [token];
  }

  lemma LexQuoted(s: string)
    requires s != "" && s[0] in ['"', '\'']
    ensures Lex(s) == var scan := ScanQuoted(s[1..], s[0]);
                      if scan.None? || (s[0] == '"' && scan.value.0 == "") then None
                      else Prepend(QuotedToken(s[0], scan.value.0), Lex(scan.value.1))
  {
  }

  lemma QuotedReadsBack(value: string, q: char)
    requires q in ['"', '\'']
    ensures Lex(Quoted(value, q))
            == if NUL in value || (q == '"' && value == "") then None else Some([QuotedToken(q, value)])
  {
    var s := Quoted(value, q);
    LexQuoted(s);
    assert s[1..] == Doubled(value, q) + [q] + "";
    if NUL in value {
      ScanMeetsNul(value, q, "");
    } else {
      ScanDoubled(value, q, "");
      OneToken(QuotedToken(q, value));
    }
  }

  /** A quoted identifier reads back as exactly that name, for every name the server can hold. */
  lemma IdentReadsBack(value: string)
    ensures Lex(Ident(value)) == Some([Name(value)]) <==> value != "" && NUL !in value
  {
    QuotedReadsBack(value, '"');
  }

  lemma LiteralReadsBack(value: string)
    ensures Lex(StringLiteral(value)) == if NUL in value then None else Some([Text(value)])
  {
    QuotedReadsBack(value, '\'');
  }

  // ----- Statements read part by part -----------------------------------------------------

  function Joint(sep: char): seq<Token> {
    if sep == '.' then [Dot] else []
  }

  lemma {:induction false} ScanLonger(s: string, q: char, more: string)
    requires ScanQuoted(s, q).Some? && more != "" && more[0] != q
    ensures ScanQuoted(s + more, q) == Some((ScanQuoted(s, q).value.0, ScanQuoted(s, q).value.1 + more))
  {
    if s[0] != q {
      assert (s + more)[1..] == s[1..] + more;
      ScanLonger(s[1..], q, more);
    } else if |s| > 1 && s[1] == q {
      assert (s + more)[2..] == s[2..] + more;
      ScanLonger(s[2..], q, more);
    } else {
      assert (s + more)[1..] == s[1..] + more;
    }
  }

  lemma {:induction false} WordLonger(s: string, more: string)
    requires more != "" && !IsWordChar(more[0])
    ensures WordLength(s + more) == WordLength(s)
  {
    if s == "" {
      assert s + more == more;
    } else if IsWordChar(s[0]) {
      assert (s + more)[1..] == s[1..] + more;
      WordLonger(s[1..], more);
    }
  }

  /** How `s`, a separator and `rest` should read together. */
  function PartsRead(s: string, sep: char, rest: string): Option<seq<Token>>
    requires Lex(s).Some?
  {
    if Lex(rest).None? then None else Some(Lex(s).value + Joint(sep) + Lex(rest).value)
  }

  lemma QuotedParts(s: string, sep: char, rest: string)
    requires s != "" && s[0] in ['"', '\''] && Lex(s).Some? && sep in [' ', '.']
    ensures var behind := ScanQuoted(s[1..], s[0]).value.1;
            && Lex(behind).Some?
            && (Lex(behind + [sep] + rest) == PartsRead(behind, sep, rest) ==>
                Lex(s + [sep] + rest) == PartsRead(s, sep, rest))
  {
    LexQuoted(s);
    var all := s + [sep] + rest;
    LexQuoted(all);
    var (value, behind) := ScanQuoted(s[1..], s[0]).value;
    assert all[1..] == s[1..] + ([sep] + rest);
    ScanLonger(s[1..], s[0], [sep] + rest);
    assert behind + ([sep] + rest) == behind + [sep] + rest;
    PrependParts(QuotedToken(s[0], value), Lex(behind).value, sep, Lex(rest));
  }

  lemma WordParts(s: string, sep: char, rest: string)
    requires s != "" && s[0] !in [' ', '.', '"', '\''] && Lex(s).Some? && sep in [' ', '.']
    ensures var n := WordLength(s);
            && n > 0 && Lex(s[n..]).Some?
            && (Lex(s[n..] + [sep] + rest) == PartsRead(s[n..], sep, rest) ==>
                Lex(s + [sep] + rest) == PartsRead(s, sep, rest))
  {
    var n := WordLength(s);
    var all := s + [sep] + rest;
    assert all == s + ([sep] + rest);
    WordLonger(s, [sep] + rest);
    assert all[..n] == s[..n] && all[n..] == s[n..] + [sep] + rest;
    PrependParts(Word(s[..n]), Lex(s[n..]).value, sep, Lex(rest));
  }

  lemma EmptyParts(sep: char, rest: string)
    requires sep in [' ', '.']
    ensures Lex([sep] + rest) == PartsRead("", sep, rest)
  {
    var all := [sep] + rest;
    assert all[1..] == rest;
    if sep == ' ' {
      assert Lex(rest).Some? ==> [] + [] + Lex(rest).value == Lex(rest).value;
    } else {
      assert Lex(rest).Some? ==> [] + [Dot] + Lex(rest).value == [Dot] + Lex(rest).value;
    }
  }

  lemma LeadingParts(s: string, sep: char, rest: string)
    requires s != "" && s[0] in [' ', '.'] && Lex(s).Some? && sep in [' ', '.']
    ensures && Lex(s[1..]).Some?
            && (Lex(s[1..] + [sep] + rest) == PartsRead(s[1..], sep, rest) ==>
                Lex(s + [sep] + rest) == PartsRead(s, sep, rest))
  {
    assert (s + [sep] + rest)[1..] == s[1..] + [sep] + rest;
    PrependParts(Dot, Lex(s[1..]).value, sep, Lex(rest));
  }

  /** Text behind a space or a dot never changes how the text before it reads. */
  lemma {:induction false} LexParts(s: string, sep: char, rest: string)
    requires Lex(s).Some? && sep in [' ', '.']
    ensures Lex(s + [sep] + rest) == PartsRead(s, sep, rest)
    decreases |s|
  {
    if s == "" {
      EmptyParts(sep, rest);
      assert s + [sep] + rest == [sep] + rest;
    } else if s[0] in [' ', '.'] {
      LeadingParts(s, sep, rest);
      LexParts(s[1..], sep, rest);
    } else if s[0] in ['"', '\''] {
      QuotedParts(s, sep, rest);
      LexParts(ScanQuoted(s[1..], s[0]).value.1, sep, rest);
    } else {
      WordParts(s, sep, rest);
      LexParts(s[WordLength(s)..], sep, rest);
    }
  }

  lemma PrependParts(token: Token, tokens: seq<Token>, sep: char, rest: Option<seq<Token>>)
    ensures Prepend(token, if rest.None? then None else Some(tokens + Joint(sep) + rest.value))
            == if rest.None? then None else Some([token] + tokens + Joint(sep) + rest.value)
  {
    if rest.Some? {
      assert [token] + (tokens + Joint(sep) + rest.value) == [token] + tokens + Joint(sep) + rest.value;
    }
  }

  lemma SpacedReads(a: string, b: string, left: seq<Token>, right: Option<seq<Token>>)
    requires Lex(a) == Some(left) && Lex(b) == right
    ensures Lex(Spaced(a, b)) == if right.None? then None else Some(left + right.value)
  {
    LexParts(a, ' ', b);
    assert right.Some? ==> left + [] + right.value == left + right.value;
  }

  predicate IsWord(w: string) {
    w != "" && forall i :: 0 <= i < |w| ==> IsWordChar(w[i])
  }

  lemma WordReadsBack(w: string)
    requires IsWord(w)
    ensures Lex(w) == Some([Word(w)])
  {
    var n := WordLength(w);
    assert n == |w| && w[..n] == w && w[n..] == "";
    assert IsWordChar(w[0]);
    OneToken(Word(w));
  }

  lemma WordThen(w: string, rest: string)
    requires IsWord(w)
    ensures Lex(Spaced(w, rest)) == Prepend(Word(w), Lex(rest))
  {
    WordReadsBack(w);
    SpacedReads(w, rest, [Word(w)], Lex(rest));
  }

  lemma NameThen(name: string, rest: string)
    requires ValidIdentifier(name)
    ensures Lex(Spaced(Ident(name), rest)) == Prepend(Name(name), Lex(rest))
  {
    NameReadsBack(name);
    SpacedReads(Ident(name), rest, [Name(name)], Lex(rest));
  }

  // ----- Permission scopes ------------------------------------------------------------------

  datatype Scope = Database | Schema(name: string) | Object(kind: string, schema: string, relation: string)

  const KINDS := ["TABLE", "SEQUENCE", "FUNCTION"]
  const PREFIXES := ["SCHEMA::", "TABLE::", "SEQUENCE::", "FUNCTION::"]
  const KEYWORDS := [("TABLE::", "TABLE"), ("SEQUENCE::", "SEQUENCE"), ("FUNCTION::", "FUNCTION")]

  predicate IsIdentifierChar(c: char) {
    IsWordChar(c) || c in ['@', '$', '.', '-']
  }

  predicate ValidIdentifier(s: string) {
    && 1 <= |s| <= 63 && IsWordChar(s[0]) && !('0' <= s[0] <= '9')
    && forall i :: 0 <= i < |s| ==> IsIdentifierChar(s[i])
  }

  /** Code points of letters and underscore, which begin a name, and of what may follow. */
  predicate FirstOfName(c: int) {
    65 <= c <= 90 || 97 <= c <= 122 || c == 95
  }

  /** At most 63 characters, each a letter, a digit or one of underscore, @, $, dot and dash; the first as above. */
  lemma ValidIdentifierIff(s: string)
    ensures ValidIdentifier(s) <==>
            && 0 < |s| < 64 && FirstOfName(s[0] as int)
            && forall c :: c in s ==> FirstOfName(c as int) || 48 <= c as int <= 57 || c as int in {64, 36, 46, 45}
  {
    forall i | 0 <= i < |s|
      ensures s[i] in s
    {
    }
  }

  predicate ValidScope(scope: Scope) {
    match scope
    case Database => true
    case Schema(name) => ValidIdentifier(name)
    case Object(kind, schema, relation) =>
      kind in KINDS && ValidIdentifier(schema) && ValidIdentifier(relation) && '.' !in schema && '.' !in relation
  }

  /** The text of a scope. */
  function ScopeText(scope: Scope): string {
    match scope
    case Database => "DATABASE"
    case Schema(name) => "SCHEMA::" + name
    case Object(kind, schema, relation) => kind + "::" + schema + "." + relation
  }

  ghost predicate IsScopeText(text: string) {
    exists scope :: ValidScope(scope) && ScopeText(scope) == text
  }

  predicate StartsWith(s: string, prefix: string) {
    prefix <= s
  }

  /** The parts behind a prefix name a schema, or a schema and an object. */
  predicate ValidBehind(prefix: string, identifier: string) {
    if prefix == "SCHEMA::" then ValidIdentifier(identifier)
    else
      var parts := Split(identifier, '.');
      |parts| == 2 && ValidIdentifier(parts[0]) && ValidIdentifier(parts[1])
  }

  lemma OnlyOnePrefix(text: string, i: nat, j: nat)
    requires i < |PREFIXES| && j < |PREFIXES| && StartsWith(text, PREFIXES[i]) && StartsWith(text, PREFIXES[j])
    ensures i == j
  {
    assert text[0] == PREFIXES[i][0] == PREFIXES[j][0];
    assert text[1] == PREFIXES[i][1] == PREFIXES[j][1];
  }

  lemma ScopeThenBehind(text: string, i: nat)
    requires i < |PREFIXES| && StartsWith(text, PREFIXES[i]) && IsScopeText(text)
    ensures ValidBehind(PREFIXES[i], text[|PREFIXES[i]|..])
  {
    var scope :| ValidScope(scope) && ScopeText(scope) == text;
    ScopePrefix(scope, i);
    if i > 0 {
      ObjectParts(scope.schema, scope.relation);
    }
  }

  lemma ObjectParts(schema: string, relation: string)
    requires '.' !in schema && '.' !in relation
    ensures Split(schema + "." + relation, '.') == [schema, relation]
  {
    SplitPrefix(schema, relation, '.');
    SplitPrefix(relation, "", '.');
    assert [schema] + [relation] == [schema, relation];
  }

  lemma BehindThenScope(text: string, i: nat)
    requires i < |PREFIXES| && StartsWith(text, PREFIXES[i]) && ValidBehind(PREFIXES[i], text[|PREFIXES[i]|..])
    ensures IsScopeText(text)
  {
    var behind := text[|PREFIXES[i]|..];
    assert text == PREFIXES[i] + behind;
    if i == 0 {
      assert ValidScope(Schema(behind)) && ScopeText(Schema(behind)) == text;
    } else {
      assert PREFIXES[i] == KINDS[i - 1] + "::";
      var parts := Split(behind, '.');
      JoinSplit(behind, '.');
      TwoParts(parts);
      ObjectScope(KINDS[i - 1], parts[0], parts[1]);
    }
  }

  lemma TwoParts(parts: seq<string>)
    requires |parts| == 2
    ensures Join(parts, ".") == parts[0] + "." + parts[1]
  {
    assert parts[1..] == [parts[1]];
  }

  lemma ObjectScope(kind: string, schema: string, relation: string)
    requires ValidScope(Object(kind, schema, relation))
    ensures IsScopeText(kind + "::" + (schema + "." + relation))
  {
    var scope := Object(kind, schema, relation);
    assert ScopeText(scope) == kind + "::" + (schema + "." + relation);
  }

  /** A text with one of the prefixes is a scope exactly when what follows the prefix is valid. */
  lemma ScopeBehindPrefix(text: string, i: nat)
    requires i < |PREFIXES| && StartsWith(text, PREFIXES[i])
    ensures IsScopeText(text) <==> ValidBehind(PREFIXES[i], text[|PREFIXES[i]|..])
  {
    if IsScopeText(text) {
      ScopeThenBehind(text, i);
    }
    if ValidBehind(PREFIXES[i], text[|PREFIXES[i]|..]) {
      BehindThenScope(text, i);
    }
  }

  lemma ScopePrefix(scope: Scope, i: nat)
    requires ValidScope(scope) && i < |PREFIXES| && StartsWith(ScopeText(scope), PREFIXES[i])
    ensures i == 0 ==> scope.Schema? && ScopeText(scope)[8..] == scope.name
    ensures i > 0 ==> && scope.Object? && scope.kind == KINDS[i - 1]
                      && ScopeText(scope)[|PREFIXES[i]|..] == scope.schema + "." + scope.relation
  {
    var text := ScopeText(scope);
    assert text[0] == PREFIXES[i][0];
    match scope
    case Database =>
    case Schema(name) =>
      assert StartsWith(text, PREFIXES[0]);
      OnlyOnePrefix(text, i, 0);
    case Object(kind, schema, relation) =>
      var j: nat :| j < 3 && KINDS[j] == kind;
      assert PREFIXES[j + 1] == kind + "::";
      assert text == PREFIXES[j + 1] + (schema + "." + relation);
      OnlyOnePrefix(text, i, j + 1);
  }

  lemma ScopeHasPrefix(scope: Scope)
    requires ValidScope(scope) && scope != Database
    ensures exists i: nat :: i < |PREFIXES| && StartsWith(ScopeText(scope), PREFIXES[i])
  {
    var text := ScopeText(scope);
    if scope.Schema? {
      assert StartsWith(text, PREFIXES[0]);
    } else {
      var j: nat :| j < 3 && KINDS[j] == scope.kind;
      assert PREFIXES[j + 1] == scope.kind + "::";
      assert text == PREFIXES[j + 1] + (scope.schema + "." + scope.relation);
      assert StartsWith(text, PREFIXES[j + 1]);
    }
  }

  /** Different scopes have different texts. */
  lemma ScopeTextInjective(a: Scope, b: Scope)
    requires ValidScope(a) && ValidScope(b) && ScopeText(a) == ScopeText(b)
    ensures a == b
  {
    if a == Database {
      if b != Database {
        ScopeHasPrefix(b);
        var i: nat :| i < |PREFIXES| && StartsWith(ScopeText(b), PREFIXES[i]);
        ScopePrefix(a, i);
      }
    } else {
      ScopeHasPrefix(a);
      var i: nat :| i < |PREFIXES| && StartsWith(ScopeText(a), PREFIXES[i]);
      ScopePrefix(a, i);
      ScopePrefix(b, i);
      if i > 0 {
        ObjectParts(a.schema, a.relation);
        ObjectParts(b.schema, b.relation);
      }
    }
  }

  /** Checks a scope given by a caller; `None` stands for the thrown error. */
  method PermissionScopeValue(value: Option<string>) returns (r: Option<string>)
    ensures var text := if FirstString(value).Some? then FirstString(value).value else "DATABASE";
            r == if IsScopeText(text) then Some(text) else None
  {
    var first := FirstString(value);
    var scope := if first.Some? then first.value else "DATABASE";
    if scope == "DATABASE" {
      assert ValidScope(Database) && ScopeText(Database) == scope;
      return Some(scope);
    }
    for i := 0 to |PREFIXES|
      invariant forall j :: 0 <= j < i ==> !StartsWith(scope, PREFIXES[j])
    {
      if StartsWith(scope, PREFIXES[i]) {
        ScopeBehindPrefix(scope, i);
        var identifier := scope[|PREFIXES[i]|..];
        if PREFIXES[i] == "SCHEMA::" {
          if !ValidIdentifier(identifier) {
            return None;
          }
          return Some(scope);
        }
        var parts := Split(identifier, '.');
        if |parts| != 2 {
          return None;
        }
        if !ValidIdentifier(parts[0]) || !ValidIdentifier(parts[1]) {
          return None;
        }
        return Some(scope);
      }
    }
    assert !IsScopeText(scope) by {
      if IsScopeText(scope) {
        var s :| ValidScope(s) && ScopeText(s) == scope;
        ScopeHasPrefix(s);
      }
    }
    r := None;
  }

  /** The clause a scope stands for; `database` is the current database's name, or nothing when it is unknown. */
  function OnClause(scope: Scope, database: Option<string>): Option<string> {
    match scope
    case Database => if database.None? then None else Some(Spaced("ON", Spaced("DATABASE", Ident(database.value))))
    case Schema(name) => Some(Spaced("ON", Spaced("SCHEMA", Ident(name))))
    case Object(kind, schema, relation) =>
      Some(Spaced("ON", Spaced(kind, Ident(schema) + "." + Ident(relation))))
  }

  /** The clause of an object, from the parts behind its prefix. */
  lemma ObjectClause(scope: Scope, i: nat, database: Option<string>)
    requires ValidScope(scope) && i < |KEYWORDS| && StartsWith(ScopeText(scope), KEYWORDS[i].0)
    ensures var parts := Split(ScopeText(scope)[|KEYWORDS[i].0|..], '.');
            && |parts| == 2
            && OnClause(scope, database)
               == Some(Spaced("ON", Spaced(KEYWORDS[i].1, Ident(parts[0]) + "." + Ident(parts[1]))))
  {
    assert KEYWORDS[i].0 == PREFIXES[i + 1] && KEYWORDS[i].1 == KINDS[i];
    ScopePrefix(scope, i + 1);
    ObjectParts(scope.schema, scope.relation);
  }

  method PermissionScope(text: string, database: Option<string>) returns (r: Option<string>)
    requires IsScopeText(text)
    ensures forall scope :: ValidScope(scope) && ScopeText(scope) == text ==> r == OnClause(scope, database)
  {
    hide Ident, ValidIdentifier, Split;
    ghost var scope :| ValidScope(scope) && ScopeText(scope) == text;
    forall other | ValidScope(other) && ScopeText(other) == text
      ensures other == scope
    {
      ScopeTextInjective(other, scope);
    }
    if text == "DATABASE" {
      ScopeTextInjective(Database, scope);
      if database.None? {
        return None;
      }
      return Some(Spaced("ON", Spaced("DATABASE", Ident(database.value))));
    }
    if StartsWith(text, "SCHEMA::") {
      assert PREFIXES[0] == "SCHEMA::";
      ScopePrefix(scope, 0);
      return Some(Spaced("ON", Spaced("SCHEMA", Ident(text[8..]))));
    }
    ScopeHasPrefix(scope);
    ghost var k: nat :| k < |PREFIXES| && StartsWith(text, PREFIXES[k]);
    for i := 0 to |KEYWORDS|
      invariant i < k
    {
      assert KEYWORDS[i].0 == PREFIXES[i + 1];
      if StartsWith(text, KEYWORDS[i].0) {
        ObjectClause(scope, i, database);
        var parts := Split(text[|KEYWORDS[i].0|..], '.');
        return Some(Spaced("ON", Spaced(KEYWORDS[i].1, Ident(parts[0]) + "." + Ident(parts[1]))));
      }
    }
    assert false;
  }

  // ----- Whole statements ---------------------------------------------------------------------

  function ScopeTokens(scope: Scope, database: string): seq<Token> {
    match scope
    case Database => [Word("ON"), Word("DATABASE"), Name(database)]
    case Schema(name) => [Word("ON"), Word("SCHEMA"), Name(name)]
    case Object(kind, schema, relation) => [Word("ON"), Word(kind), Name(schema), Dot, Name(relation)]
  }

  lemma NameReadsBack(value: string)
    requires ValidIdentifier(value)
    ensures Lex(Ident(value)) == Some([Name(value)])
  {
    IdentReadsBack(value);
    forall i | 0 <= i < |value|
      ensures value[i] != NUL
    {
    }
  }

  /** The clause names exactly the schema and object of the scope. */
  lemma ClauseReadsBack(scope: Scope, database: string)
    requires ValidScope(scope) && ValidIdentifier(database)
    ensures Lex(OnClause(scope, Some(database)).value) == Some(ScopeTokens(scope, database))
  {
    hide Lex, Ident;
    match scope
    case Database =>
      NameReadsBack(database);
      OnReadsBack("DATABASE", Ident(database), [Name(database)]);
      assert [Word("ON"), Word("DATABASE")] + [Name(database)] == ScopeTokens(scope, database);
    case Schema(name) =>
      NameReadsBack(name);
      OnReadsBack("SCHEMA", Ident(name), [Name(name)]);
      assert [Word("ON"), Word("SCHEMA")] + [Name(name)] == ScopeTokens(scope, database);
    case Object(kind, schema, relation) =>
      NameReadsBack(schema);
      NameReadsBack(relation);
      LexParts(Ident(schema), '.', Ident(relation));
      var names := [Name(schema)] + [Dot] + [Name(relation)];
      OnReadsBack(kind, Ident(schema) + "." + Ident(relation), names);
      assert [Word("ON"), Word(kind)] + names == ScopeTokens(scope, database);
  }

  lemma OnReadsBack(kind: string, what: string, tokens: seq<Token>)
    requires IsWord(kind) && Lex(what) == Some(tokens)
    ensures Lex(Spaced("ON", Spaced(kind, what))) == Some([Word("ON"), Word(kind)] + tokens)
  {
    WordReadsBack("ON");
    WordReadsBack(kind);
    SpacedReads(kind, what, [Word(kind)], Some(tokens));
    SpacedReads("ON", Spaced(kind, what), [Word("ON")], Some([Word(kind)] + tokens));
    assert [Word("ON")] + ([Word(kind)] + tokens) == [Word("ON"), Word(kind)] + tokens;
  }

  datatype Action = GRANT | REVOKE

  function ActionText(action: Action): string {
    if action == GRANT then "GRANT" else "REVOKE"
  }

  function Direction(action: Action): string {
    if action == REVOKE then "FROM" else "TO"
  }

  predicate ValidPermission(p: string) {
    && 1 <= |p| <= 64 && 'A' <= p[0] <= 'Z'
    && forall i :: 0 <= i < |p| ==> 'A' <= p[i] <= 'Z' || '0' <= p[i] <= '9' || p[i] in ['_', ' ']
  }

  /** A capital letter followed by at most 63 capital letters, digits, underscores and spaces. */
  lemma ValidPermissionIff(p: string)
    ensures ValidPermission(p) <==>
            && 0 < |p| < 65 && 65 <= p[0] as int <= 90
            && forall c :: c in p ==> 65 <= c as int <= 90 || 48 <= c as int <= 57 || c == '_' || c == ' '
  {
    forall i | 0 <= i < |p|
      ensures p[i] in p
    {
    }
  }

  /** The statement of one permission change. */
  function PermissionStatement(action: Action, permission: string, clause: string, login: string): string {
    Spaced(ActionText(action), Spaced(permission, Spaced(clause, Spaced(Direction(action), Ident(login)))))
  }

  lemma {:induction false} PermissionIsWords(p: string)
    requires forall i :: 0 <= i < |p| ==> 'A' <= p[i] <= 'Z' || '0' <= p[i] <= '9' || p[i] in ['_', ' ']
    ensures Lex(p).Some? && forall token :: token in Lex(p).value ==> token.Word?
    decreases |p|
  {
    if p == "" {
    } else {
      if p[0] == ' ' {
        PermissionIsWords(p[1..]);
      } else {
        PermissionIsWords(p[WordLength(p)..]);
      }
    }
  }

  /** A permission statement reads as the action, the permission's words, the scope, and the login, nothing else. */
  lemma StatementReadsBack(action: Action, permission: string, scope: Scope, database: string, login: string)
    requires ValidPermission(permission) && ValidScope(scope) && ValidIdentifier(database) && ValidIdentifier(login)
    ensures Lex(permission).Some?
    ensures Lex(PermissionStatement(action, permission, OnClause(scope, Some(database)).value, login))
            == Some([Word(if action == GRANT then "GRANT" else "REVOKE")] + Lex(permission).value
                    + ScopeTokens(scope, database)
                    + ([Word(if action == GRANT then "TO" else "FROM")] + [Name(login)]))
  {
    hide Lex, ScopeTokens, ValidScope, ValidIdentifier;
    PermissionIsWords(permission);
    ClauseReadsBack(scope, database);
    NameReadsBack(login);
    FiveParts(ActionText(action), permission, OnClause(scope, Some(database)).value, Direction(action), Ident(login),
              Lex(permission).value, ScopeTokens(scope, database), [Name(login)]);
    Associate([Word(ActionText(action))], Lex(permission).value, ScopeTokens(scope, database),
              [Word(Direction(action))] + [Name(login)]);
  }

  lemma FiveParts(a: string, p: string, c: string, d: string, n: string,
                  pt: seq<Token>, ct: seq<Token>, nt: seq<Token>)
    requires IsWord(a) && IsWord(d) && Lex(p) == Some(pt) && Lex(c) == Some(ct) && Lex(n) == Some(nt)
    ensures Lex(Spaced(a, Spaced(p, Spaced(c, Spaced(d, n))))) == Some([Word(a)] + (pt + (ct + ([Word(d)] + nt))))
  {
    var end := [Word(d)] + nt;
    WordThen(d, n);
    SpacedReads(c, Spaced(d, n), ct, Some(end));
    SpacedReads(p, Spaced(c, Spaced(d, n)), pt, Some(ct + end));
    WordThen(a, Spaced(p, Spaced(c, Spaced(d, n))));
  }

  lemma Associate(x: seq<Token>, y: seq<Token>, z: seq<Token>, end: seq<Token>)
    ensures x + (y + (z + end)) == x + y + z + end
  {
  }

  /** The statement that creates a role with a password. */
  function CreateRoleStatement(login: string, option: string, password: string): string {
    Spaced("CREATE", Spaced("ROLE", Spaced(Ident(login), Spaced(option, Spaced("PASSWORD", StringLiteral(password))))))
  }

  lemma CreateRoleReadsBack(login: string, option: string, password: string)
    requires ValidIdentifier(login) && option in ["LOGIN", "NOLOGIN"]
    ensures Lex(CreateRoleStatement(login, option, password))
            == (if NUL in password then None
                else Some([Word("CREATE"), Word("ROLE"), Name(login), Word(option), Word("PASSWORD"), Text(password)]))
  {
    LiteralReadsBack(password);
    CreateRoleChain(login, option, StringLiteral(password), "CREATE", "ROLE", "PASSWORD");
    if NUL !in password {
      assert [Word("CREATE")] + ([Word("ROLE")] + ([Name(login)] + ([Word(option)]
             + ([Word("PASSWORD")] + [Text(password)]))))
             == [Word("CREATE"), Word("ROLE"), Name(login), Word(option), Word("PASSWORD"), Text(password)];
    }
  }

  lemma CreateRoleChain(login: string, option: string, text: string, c: string, r: string, p: string)
    requires ValidIdentifier(login) && IsWord(option) && IsWord(c) && IsWord(r) && IsWord(p)
    ensures Lex(Spaced(c, Spaced(r, Spaced(Ident(login), Spaced(option, Spaced(p, text))))))
            == Prepend(Word(c), Prepend(Word(r), Prepend(Name(login), Prepend(Word(option),
                       Prepend(Word(p), Lex(text))))))
  {
    WordThen(p, text);
    WordThen(option, Spaced(p, text));
    NameThen(login, Spaced(option, Spaced(p, text)));
    WordThen(r, Spaced(Ident(login), Spaced(option, Spaced(p, text))));
    WordThen(c, Spaced(r, Spaced(Ident(login), Spaced(option, Spaced(p, text)))));
  }

  // ----- The allow list ------------------------------------------------------------------------

  function PermissionKey(action: Action, permission: string, scope: string): string {
    ActionText(action) + ":" + permission + ":" + scope
  }

  lemma ColonSplit(a: string, b: string, s: string, t: string)
    requires ':' !in a && ':' !in b && a + ":" + s == b + ":" + t
    ensures a == b && s == t
  {
    SplitPrefix(a, s, ':');
    SplitPrefix(b, t, ':');
    assert ([a] + Split(s, ':'))[0] == a && ([b] + Split(t, ':'))[0] == b;
    assert (a + ":" + s)[|a| + 1..] == s;
    assert (b + ":" + t)[|b| + 1..] == t;
  }

  /** Comparing keys is comparing the permissions they stand for. */
  lemma PermissionKeyInjective(a: Action, p: string, s: string, b: Action, q: string, t: string)
    requires ValidPermission(p) && ValidPermission(q)
    ensures PermissionKey(a, p, s) == PermissionKey(b, q, t) <==> a == b && p == q && s == t
  {
    if PermissionKey(a, p, s) == PermissionKey(b, q, t) {
      assert PermissionKey(a, p, s) == ActionText(a) + ":" + (p + ":" + s);
      assert PermissionKey(b, q, t) == ActionText(b) + ":" + (q + ":" + t);
      ColonSplit(ActionText(a), ActionText(b), p + ":" + s, q + ":" + t);
      ColonSplit(p, q, s, t);
    }
  }
}
