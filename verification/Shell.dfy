/** Linux account commands: quoting for the shell, and the argument vector a command reads back as. */
module Shell {
  import opened Common

  // ----- Quoting --------------------------------------------------------------------

  /** `value.replace(/'/g, "'\\''")`. */
  function Escaped(value: string): string {
    if value == "" then ""
    else (if value[0] == '\'' then "'\\''" else [value[0]]) + Escaped(value[1..])
  }

  function Arg(value: string): string {
    "'" + Escaped(value) + "'"
  }

  // ----- The shell's reading of a command ----------------------------------------------

  predicate IsBlank(c: char) {
    c == ' ' || c == '\t'
  }

  /** Characters that stand for themselves outside quotes. */
  predicate IsPlain(c: char) {
    'A' <= c <= 'Z' || 'a' <= c <= 'z' || '0' <= c <= '9' || c in ['_', '-', '.', '/', ',', ':', '@', '+']
  }

  /**
   * One word and the text behind it, outside quotes: sections 2.2.1 and 2.2.2 of the Shell Command Language volume of
   * IEEE Std 1003.1. Operators, expansions, double quotes and NUL are refused.
   */
  function Word(s: string): (r: Option<(string, string)>)
    ensures r.Some? ==> |r.value.1| <= |s| && (r.value.1 != "" ==> IsBlank(r.value.1[0]))
    ensures r.Some? && s != "" && !IsBlank(s[0]) ==> |r.value.1| < |s|
    decreases |s|
  {
    if s == "" || IsBlank(s[0]) then Some(("", s))
    else if s[0] == '\'' then InQuotes(s[1..])
    else if s[0] == '\\' then
      if |s| == 1 || s[1] == NUL then None
      else if s[1] == '\n' then Word(s[2..])
      else Prefixed(s[1], Word(s[2..]))
    else if IsPlain(s[0]) then Prefixed(s[0], Word(s[1..]))
    else None
  }

  /** The rest of a word from inside single quotes. */
  function InQuotes(s: string): (r: Option<(string, string)>)
    ensures r.Some? ==> |r.value.1| <= |s| && (r.value.1 != "" ==> IsBlank(r.value.1[0]))
    decreases |s|
  {
    if s == "" || s[0] == NUL then None
    else if s[0] == '\'' then Word(s[1..])
    else Prefixed(s[0], InQuotes(s[1..]))
  }

  function Prefixed(c: char, r: Option<(string, string)>): Option<(string, string)> {
    if r.None? then None else Some(([c] + r.value.0, r.value.1))
  }

  /** The words of a simple command: section 2.3, where a backslash before a line end joins the lines. */
  function Lex(s: string): Option<seq<string>>
    decreases |s|
  {
    if s == "" then Some([])
    else if IsBlank(s[0]) then Lex(s[1..])
    else if s[0] == '\\' && |s| > 1 && s[1] == '\n' then Lex(s[2..])
    else
      var word := Word(s);
      if word.None? then None else Then(word.value.0, Lex(word.value.1))
  }

  function Then(word: string, words: Option<seq<string>>): Option<seq<string>> {
    if words.None? then None else Some([word] + words.value)
  }

  /** Outside quotes, what the shell would act upon is refused, as is the white space that ends a command. */
  lemma OperatorsRefused(c: char, rest: string)
    requires c in {';', '&', '|', '<', '>', '(', ')', '$', '`', '"', '*', '?', '[', ']', '{', '}', '#', '~', '=', '%',
                   '!', '^', '\n', '\r'}
    ensures Lex([c] + rest) == None
  {
    Unquotable([c] + rest);
  }

  lemma Unquotable(s: string)
    requires s != "" && !IsPlain(s[0]) && !IsBlank(s[0]) && s[0] != '\\' && s[0] != '\''
    ensures Lex(s) == None
  {
  }

  // ----- Reading what was quoted ----------------------------------------------------------

  /** Closing, an escaped quote, and opening again: one quote, still inside. */
  lemma QuoteInside(tail: string)
    ensures InQuotes("'\\''" + tail) == Prefixed('\'', InQuotes(tail))
  {
    var s := "'\\''" + tail;
    assert s[1..] == "\\''" + tail && s[1..][2..] == "'" + tail && ("'" + tail)[1..] == tail;
    assert Word("'" + tail) == InQuotes(tail);
    assert Word(s[1..]) == Prefixed('\'', Word("'" + tail));
  }

  lemma {:induction false} EscapedReadsBack(value: string, rest: string)
    requires rest != "" ==> IsBlank(rest[0])
    ensures InQuotes(Escaped(value) + "'" + rest) == if NUL in value then None else Some((value, rest))
  {
    var s := Escaped(value) + "'" + rest;
    if value == "" {
      assert s == "'" + rest && s[1..] == rest;
    } else {
      EscapedReadsBack(value[1..], rest);
      var tail := Escaped(value[1..]) + "'" + rest;
      assert value == [value[0]] + value[1..];
      if value[0] == '\'' {
        assert s == "'\\''" + tail;
        QuoteInside(tail);
      } else {
        assert s == [value[0]] + tail && s[1..] == tail;
      }
    }
  }

  lemma ArgThen(value: string, rest: string)
    requires rest != "" ==> IsBlank(rest[0])
    ensures Lex(Arg(value) + rest) == if NUL in value then None else Then(value, Lex(rest))
  {
    var s := Arg(value) + rest;
    assert s[0] == '\'' && s[1..] == Escaped(value) + "'" + rest;
    EscapedReadsBack(value, rest);
  }

  /** Quoting keeps a value one word, unchanged, for every text without NUL. */
  lemma ArgReadsBack(value: string)
    ensures Lex(Arg(value)) == if NUL in value then None else Some([value])
  {
    ArgThen(value, "");
    assert Arg(value) + "" == Arg(value);
    assert [value] + [] == [value];
  }

  predicate IsPlainWord(w: string) {
    w != "" && forall i :: 0 <= i < |w| ==> IsPlain(w[i])
  }

  lemma {:induction false} PlainWord(w: string, rest: string)
    requires (forall i :: 0 <= i < |w| ==> IsPlain(w[i])) && (rest != "" ==> IsBlank(rest[0]))
    ensures Word(w + rest) == Some((w, rest))
  {
    if w == "" {
      assert w + rest == rest;
    } else {
      PlainWord(w[1..], rest);
      assert (w + rest)[1..] == w[1..] + rest;
      assert w == [w[0]] + w[1..];
    }
  }

  // ----- Commands put together with spaces ----------------------------------------------

  lemma ArgSpaced(value: string, rest: string)
    ensures Lex(Spaced(Arg(value), rest)) == if NUL in value then None else Then(value, Lex(rest))
  {
    ArgThen(value, " " + rest);
    assert Spaced(Arg(value), rest) == Arg(value) + (" " + rest);
    assert (" " + rest)[1..] == rest;
  }

  lemma PlainSpaced(w: string, rest: string)
    requires IsPlainWord(w)
    ensures Lex(Spaced(w, rest)) == Then(w, Lex(rest))
  {
    PlainWord(w, " " + rest);
    assert Spaced(w, rest) == w + (" " + rest);
    assert (" " + rest)[1..] == rest;
    assert IsPlain(w[0]);
  }

  /** One element of a command: a plain word, a quoted value, or a flag with a quoted value. */
  datatype Part = Plain(word: string) | Value(value: string) | Flag(flag: string, value: string)

  predicate ValidPart(p: Part) {
    match p
    case Plain(word) => IsPlainWord(word)
    case Value(_) => true
    case Flag(flag, _) => IsPlainWord(flag)
  }

  function PartText(p: Part): string {
    match p
    case Plain(word) => word
    case Value(value) => Arg(value)
    case Flag(flag, value) => Spaced(flag, Arg(value))
  }

  function PartWords(p: Part): seq<string> {
    match p
    case Plain(word) => [word]
    case Value(value) => [value]
    case Flag(flag, value) => [flag, value]
  }

  predicate HasNul(p: Part) {
    !p.Plain? && NUL in p.value
  }

  function Texts(parts: seq<Part>): seq<string> {
    if parts == [] then [] else [PartText(parts[0])] + Texts(parts[1..])
  }

  function Words(parts: seq<Part>): seq<string> {
    if parts == [] then [] else PartWords(parts[0]) + Words(parts[1..])
  }

  lemma PartSpaced(p: Part, rest: string)
    requires ValidPart(p)
    ensures Lex(Spaced(PartText(p), rest))
            == if HasNul(p) || Lex(rest).None? then None else Some(PartWords(p) + Lex(rest).value)
  {
    hide Lex, Arg;
    match p
    case Plain(word) => PlainSpaced(word, rest);
    case Value(value) => ArgSpaced(value, rest);
    case Flag(flag, value) =>
      assert Spaced(PartText(p), rest) == Spaced(flag, Spaced(Arg(value), rest));
      PlainSpaced(flag, Spaced(Arg(value), rest));
      ArgSpaced(value, rest);
      if Lex(rest).Some? {
        assert [flag] + ([value] + Lex(rest).value) == [flag, value] + Lex(rest).value;
      }
  }

  /** Parts joined by spaces read back as the words of the parts, in order. */
  lemma {:induction false} JoinedReadsBack(parts: seq<Part>, last: string)
    requires forall p :: p in parts ==> ValidPart(p)
    ensures Lex(Join(Texts(parts) + [Arg(last)], " "))
            == if NUL in last || exists p :: p in parts && HasNul(p) then None else Some(Words(parts) + [last])
  {
    hide Lex, Arg, ValidPart, PartText;
    if parts == [] {
      ArgReadsBack(last);
      assert Texts(parts) + [Arg(last)] == [Arg(last)];
      assert Words(parts) + [last] == [last];
    } else {
      JoinedReadsBack(parts[1..], last);
      var all := Texts(parts) + [Arg(last)];
      var rest := Join(Texts(parts[1..]) + [Arg(last)], " ");
      assert all[1..] == Texts(parts[1..]) + [Arg(last)];
      assert Join(all, " ") == Spaced(PartText(parts[0]), rest);
      PartSpaced(parts[0], rest);
      assert parts == [parts[0]] + parts[1..];
      assert (exists p :: p in parts && HasNul(p)) <==> HasNul(parts[0]) || exists p :: p in parts[1..] && HasNul(p);
      assert PartWords(parts[0]) + (Words(parts[1..]) + [last]) == Words(parts) + [last];
    }
  }

  // ----- Group lists ---------------------------------------------------------------------

  /** What a caller may send where names are expected. */
  datatype Given = Text(text: string) | List(items: seq<Option<string>>) | Other

  predicate NotBlank(item: string) {
    Trim(item) != ""
  }

  predicate NotEmpty(item: string) {
    item != ""
  }

  /** The strings of a list, `None` standing for an element of another type. */
  function Strings(items: seq<Option<string>>): seq<string> {
    if items == [] then []
    else (if items[0].Some? then [items[0].value] else []) + Strings(items[1..])
  }

  function TrimAll(items: seq<string>): (r: seq<string>)
    ensures |r| == |items| && forall i :: 0 <= i < |r| ==> r[i] == Trim(items[i])
  {
    if items == [] then [] else [Trim(items[0])] + TrimAll(items[1..])
  }

  function Names(given: Given): seq<string> {
    match given
    case List(items) => Filter(Strings(items), NotBlank)
    case Text(text) => Filter(TrimAll(Split(text, ',')), NotEmpty)
    case Other => []
  }

  function Concat<T>(lists: seq<seq<T>>): seq<T> {
    if lists == [] then [] else Concat(lists[..|lists| - 1]) + lists[|lists| - 1]
  }

  lemma {:induction false} ConcatIff<T>(lists: seq<seq<T>>, x: T)
    ensures x in Concat(lists) <==> exists i :: 0 <= i < |lists| && x in lists[i]
  {
    if lists == [] {
    } else {
      ConcatIff(lists[..|lists| - 1], x);
    }
  }

  function NamesOf(values: seq<Given>): (r: seq<seq<string>>)
    ensures |r| == |values| && forall i :: 0 <= i < |r| ==> r[i] == Names(values[i])
  {
    seq(|values|, i requires 0 <= i < |values| => Names(values[i]))
  }

  function AllNames(values: seq<Given>): seq<string> {
    Concat(NamesOf(values))
  }

  lemma AllNamesIff(values: seq<Given>, name: string)
    ensures name in AllNames(values) <==> exists i :: 0 <= i < |values| && name in NamesOf(values)[i]
  {
    ConcatIff(NamesOf(values), name);
  }

  /** Collects the names and drops repetitions. */
  method StringArray(values: seq<Given>) returns (r: seq<string>)
    ensures r == Dedup(AllNames(values)) && Distinct(r)
    ensures forall name :: name in r <==> exists i :: 0 <= i < |values| && name in NamesOf(values)[i]
    ensures InOrder(AllNames(values), r)
  {
    var result: seq<string> := [];
    for i := 0 to |values|
      invariant result == AllNames(values[..i])
    {
      assert NamesOf(values[..i + 1])[..i] == NamesOf(values[..i]);
      match values[i] {
        case List(items) => result := result + Filter(Strings(items), NotBlank);
        case Text(text) => result := result + Filter(TrimAll(Split(text, ',')), NotEmpty);
        case Other =>
      }
    }
    assert values[..|values|] == values;
    DedupDistinct(result);
    DedupKeepsOrder(result);
    forall name
      ensures name in AllNames(values) <==> exists i :: 0 <= i < |values| && name in NamesOf(values)[i]
    {
      AllNamesIff(values, name);
    }
    r := Dedup(result);
  }

  predicate ValidGroup(name: string) {
    && 1 <= |name| <= 32
    && ('A' <= name[0] <= 'Z' || 'a' <= name[0] <= 'z' || name[0] == '_')
    && forall i :: 0 <= i < |name| ==>
      'A' <= name[i] <= 'Z' || 'a' <= name[i] <= 'z' || '0' <= name[i] <= '9' || name[i] in ['_', '-']
  }

  datatype Config = Config(
    defaultShell: Option<string>,
    defaultHomeBase: Option<string>,
    defaultGroups: seq<Option<string>>)

  datatype UserData = UserData(shell: Option<string>, homeDirectory: Option<string>, posixGroups: Given, groups: Given)

  /** `mapped` holds the mapped group names when group mapping is on. */
  function Requested(config: Config, data: UserData, mapped: Option<seq<string>>): seq<string> {
    var payload := if mapped.None? then [data.posixGroups, data.groups]
                   else [data.posixGroups, List(Present(mapped.value))];
    TrimAll(Filter(Strings(config.defaultGroups) + Dedup(AllNames(payload)), NotBlank))
  }

  function Present(items: seq<string>): (r: seq<Option<string>>)
    ensures |r| == |items|
  {
    if items == [] then [] else [Some(items[0])] + Present(items[1..])
  }

  /** A name in one of the forms a caller may send. */
  ghost predicate Sent(given: Given, name: string) {
    match given
    case List(items) => exists i :: 0 <= i < |items| && items[i] == Some(name) && Trim(name) != ""
    case Text(text) => name != "" && exists i :: 0 <= i < |Split(text, ',')| && Trim(Split(text, ',')[i]) == name
    case Other => false
  }

  lemma {:induction false} StringsIff(items: seq<Option<string>>, name: string)
    ensures name in Strings(items) <==> exists i :: 0 <= i < |items| && items[i] == Some(name)
  {
    if items == [] {
    } else {
      StringsIff(items[1..], name);
      if exists i :: 0 <= i < |items| && items[i] == Some(name) {
        var i :| 0 <= i < |items| && items[i] == Some(name);
        assert i == 0 || items[1..][i - 1] == Some(name);
      }
      if name in Strings(items[1..]) {
        var i :| 0 <= i < |items[1..]| && items[1..][i] == Some(name);
        assert items[i + 1] == Some(name);
      }
    }
  }

  lemma {:induction false} FilterIff(items: seq<string>, p: string -> bool, name: string)
    ensures name in Filter(items, p) <==> name in items && p(name)
  {
    if items == [] {
    } else {
      FilterIff(items[1..], p, name);
    }
  }

  lemma SentIff(given: Given, name: string)
    ensures name in Names(given) <==> Sent(given, name)
  {
    match given
    case List(items) =>
      StringsIff(items, name);
      FilterIff(Strings(items), NotBlank, name);
    case Text(text) =>
      FilterIff(TrimAll(Split(text, ',')), NotEmpty, name);
      if name in TrimAll(Split(text, ',')) {
        var i :| 0 <= i < |TrimAll(Split(text, ','))| && TrimAll(Split(text, ','))[i] == name;
        assert Trim(Split(text, ',')[i]) == name;
      }
      if exists i :: 0 <= i < |Split(text, ',')| && Trim(Split(text, ',')[i]) == name {
        var i :| 0 <= i < |Split(text, ',')| && Trim(Split(text, ',')[i]) == name;
        assert TrimAll(Split(text, ','))[i] == name;
      }
    case Other =>
  }

  /** Some default, or some name sent, is this group once trimmed. */
  ghost predicate Asked(config: Config, data: UserData, mapped: Option<seq<string>>, group: string) {
    exists name ::
      && Trim(name) == group && group != ""
      && (|| Some(name) in config.defaultGroups
          || Sent(data.posixGroups, name)
          || (if mapped.Some? then name in mapped.value else Sent(data.groups, name)))
  }

  lemma TrimmedIff(items: seq<string>, group: string)
    ensures group in TrimAll(items) <==> exists name :: name in items && Trim(name) == group
  {
    if group in TrimAll(items) {
      var i :| 0 <= i < |TrimAll(items)| && TrimAll(items)[i] == group;
      assert items[i] in items;
    }
    if name :| name in items && Trim(name) == group {
      var i :| 0 <= i < |items| && items[i] == name;
      assert TrimAll(items)[i] == group;
    }
  }

  lemma PresentSent(items: seq<string>, name: string)
    ensures Sent(List(Present(items)), name) <==> name in items && Trim(name) != ""
  {
    PresentAt(items);
    if name in items {
      var i :| 0 <= i < |items| && items[i] == name;
      assert Present(items)[i] == Some(name);
    }
  }

  lemma {:induction false} PresentAt(items: seq<string>)
    ensures forall i :: 0 <= i < |items| ==> Present(items)[i] == Some(items[i])
  {
    if items == [] {
    } else {
      PresentAt(items[1..]);
    }
  }

  function SecondList(data: UserData, mapped: Option<seq<string>>): Given {
    if mapped.None? then data.groups else List(Present(mapped.value))
  }

  lemma SecondListSent(data: UserData, mapped: Option<seq<string>>, name: string)
    ensures Sent(SecondList(data, mapped), name) <==>
            if mapped.Some? then name in mapped.value && Trim(name) != "" else Sent(data.groups, name)
  {
    if mapped.Some? {
      PresentSent(mapped.value, name);
    }
  }

  lemma PayloadIff(first: Given, second: Given, name: string)
    ensures name in Dedup(AllNames([first, second])) <==> Sent(first, name) || Sent(second, name)
  {
    AllNamesIff([first, second], name);
    SentIff(first, name);
    SentIff(second, name);
    assert NamesOf([first, second])[0] == Names(first) && NamesOf([first, second])[1] == Names(second);
  }

  lemma CollectedIff(defaults: seq<Option<string>>, first: Given, second: Given, name: string)
    ensures name in Filter(Strings(defaults) + Dedup(AllNames([first, second])), NotBlank) <==>
            Trim(name) != "" && (Some(name) in defaults || Sent(first, name) || Sent(second, name))
  {
    hide Filter, Strings, Dedup, AllNames, Sent, Trim;
    FilterIff(Strings(defaults) + Dedup(AllNames([first, second])), NotBlank, name);
    StringsIff(defaults, name);
    PayloadIff(first, second, name);
  }

  /** Exactly the groups an account is given: the defaults and the names sent, trimmed, none of them blank. */
  lemma RequestedIff(config: Config, data: UserData, mapped: Option<seq<string>>, group: string)
    ensures group in Requested(config, data, mapped) <==> Asked(config, data, mapped, group)
  {
    hide Filter, Strings, Dedup, AllNames, Sent, Trim, TrimAll;
    var second := SecondList(data, mapped);
    var kept := Filter(Strings(config.defaultGroups) + Dedup(AllNames([data.posixGroups, second])), NotBlank);
    assert Requested(config, data, mapped) == TrimAll(kept);
    TrimmedIff(kept, group);
    forall name
      ensures name in kept <==>
              Trim(name) != ""
              && (|| Some(name) in config.defaultGroups || Sent(data.posixGroups, name)
                  || (if mapped.Some? then name in mapped.value && Trim(name) != "" else Sent(data.groups, name)))
    {
      CollectedIff(config.defaultGroups, data.posixGroups, second, name);
      SecondListSent(data, mapped, name);
    }
  }

  /** `None` stands for the error thrown on an invalid name. */
  function Groups(config: Config, data: UserData, mapped: Option<seq<string>>): (r: Option<seq<string>>)
    ensures r.Some? ==> forall g :: g in r.value ==> ValidGroup(g)
  {
    var requested := Requested(config, data, mapped);
    if forall g :: g in requested ==> ValidGroup(g) then Some(requested) else None
  }

  /**
   * The command is refused exactly when some group asked for is not a letter or underscore
   * followed by at most 31 letters, digits, underscores and dashes.
   */
  lemma GroupsRefusedIff(config: Config, data: UserData, mapped: Option<seq<string>>)
    ensures Groups(config, data, mapped).None? <==> exists g :: Asked(config, data, mapped, g) && !GroupForm(g)
    ensures Groups(config, data, mapped).Some? ==> Groups(config, data, mapped).value == Requested(config, data, mapped)
  {
    hide Requested, Asked, ValidGroup, GroupForm;
    forall g
      ensures g in Requested(config, data, mapped) <==> Asked(config, data, mapped, g)
      ensures ValidGroup(g) <==> GroupForm(g)
    {
      RequestedIff(config, data, mapped, g);
      GroupFormIff(g);
    }
  }

  /** The code points of letters, digits, underscore and dash. */
  predicate GroupChar(c: int) {
    65 <= c <= 90 || 97 <= c <= 122 || 48 <= c <= 57 || c == 95 || c == 45
  }

  predicate GroupForm(g: string) {
    && g != "" && |g| < 33
    && (forall c :: c in g ==> GroupChar(c as int))
    && g[0] != '-' && !('0' <= g[0] <= '9')
  }

  lemma GroupFormIff(g: string)
    ensures ValidGroup(g) <==> GroupForm(g)
  {
    if GroupForm(g) {
      assert g[0] in g;
      forall i | 0 <= i < |g|
        ensures GroupChar(g[i] as int)
      {
        assert g[i] in g;
      }
    }
  }

  lemma GroupsStayApart(groups: seq<string>)
    requires groups != [] && forall g :: g in groups ==> ValidGroup(g)
    ensures Split(Join(groups, ","), ',') == groups && NUL !in Join(groups, ",")
  {
    forall g | g in groups
      ensures ',' !in g
    {
    }
    SplitJoin(groups, ',');
    NoNulInJoin(groups);
  }

  lemma {:induction false} NoNulInJoin(groups: seq<string>)
    requires forall g :: g in groups ==> ValidGroup(g)
    ensures NUL !in Join(groups, ",")
  {
    if |groups| == 1 {
      assert ValidGroup(groups[0]);
    } else if |groups| > 1 {
      assert ValidGroup(groups[0]);
      NoNulInJoin(groups[1..]);
    }
  }

  // ----- The commands ---------------------------------------------------------------------

  function Or(value: Option<string>, fallback: string): string {
    if value.Some? then value.value else fallback
  }

  function ShellOf(config: Config, data: UserData): string {
    Or(FirstString(data.shell), Or(config.defaultShell, "/bin/bash"))
  }

  function HomeOf(config: Config, login: string, data: UserData): string {
    Or(FirstString(data.homeDirectory), Or(config.defaultHomeBase, "/home") + "/" + login)
  }

  /** What the new account gets: the value sent, trimmed, else the configured default, else the built-in one. */
  lemma AccountDefaults(config: Config, login: string, data: UserData)
    ensures data.shell.Some? && Trim(data.shell.value) != "" ==> ShellOf(config, data) == Trim(data.shell.value)
    ensures data.shell.None? || Trim(data.shell.value) == "" ==>
              ShellOf(config, data) == match config.defaultShell case Some(shell) => shell case None => "/bin/bash"
    ensures data.homeDirectory.Some? && Trim(data.homeDirectory.value) != "" ==>
              HomeOf(config, login, data) == Trim(data.homeDirectory.value)
    ensures data.homeDirectory.None? || Trim(data.homeDirectory.value) == "" ==>
              HomeOf(config, login, data) ==
              (match config.defaultHomeBase case Some(base) => base case None => "/home") + "/" + login
  {
  }

  /** `parts.filter(Boolean)`. */
  function Truthy(parts: seq<string>): seq<string> {
    if parts == [] then [] else (if parts[0] == "" then [] else [parts[0]]) + Truthy(parts[1..])
  }

  function UserAddCommand(config: Config, login: string, data: UserData, mapped: Option<seq<string>>): Option<string> {
    var groups := Groups(config, data, mapped);
    if groups.None? then None
    else
      var parts := [
        "sudo useradd",
        "-m",
        "-d " + Arg(HomeOf(config, login, data)),
        "-s " + Arg(ShellOf(config, data)),
        if groups.value != [] then "-G " + Arg(Join(groups.value, ",")) else "",
        Arg(login)
      ];
      Some(Join(Truthy(parts), " "))
  }

  lemma {:induction false} TruthyTail(head: seq<string>, middle: string, last: string)
    requires last != "" && forall i :: 0 <= i < |head| ==> head[i] != ""
    ensures Truthy(head + [middle, last]) == head + (if middle == "" then [last] else [middle, last])
  {
    if head == [] {
      assert head + [middle, last] == [middle, last];
      assert [middle, last][1..] == [last] && [last][1..] == [];
      assert Truthy([last]) == [last];
    } else {
      TruthyTail(head[1..], middle, last);
      assert (head + [middle, last])[1..] == head[1..] + [middle, last];
    }
  }

  lemma {:induction false} TextsAppend(a: seq<Part>, b: seq<Part>)
    ensures Texts(a + b) == Texts(a) + Texts(b)
  {
    if a == [] {
      assert a + b == b;
    } else {
      TextsAppend(a[1..], b);
      assert (a + b)[0] == a[0] && (a + b)[1..] == a[1..] + b;
    }
  }

  lemma Associate(x: seq<string>, y: seq<string>, z: seq<string>)
    ensures x + (y + z) == x + y + z
  {
  }

  lemma {:induction false} WordsAppend(a: seq<Part>, b: seq<Part>)
    ensures Words(a + b) == Words(a) + Words(b)
  {
    if a == [] {
      assert a + b == b;
    } else {
      WordsAppend(a[1..], b);
      assert (a + b)[0] == a[0] && (a + b)[1..] == a[1..] + b;
      Associate(PartWords(a[0]), Words(a[1..]), Words(b));
    }
  }

  lemma PartsAppend(a: seq<Part>, p: Part)
    ensures Texts(a + [p]) == Texts(a) + [PartText(p)] && Words(a + [p]) == Words(a) + PartWords(p)
  {
    TextsAppend(a, [p]);
    WordsAppend(a, [p]);
    OnePart(p);
  }

  lemma OnePart(p: Part)
    ensures Texts([p]) == [PartText(p)] && Words([p]) == PartWords(p)
  {
  }

  /** A first part of two words splits like two parts. */
  lemma SudoReads(name: string, list: seq<Part>, tail: seq<string>, login: string)
    requires tail != [] && Texts(list) + [Arg(login)] == [name] + tail
    requires forall p :: p in list ==> ValidPart(p)
    ensures Lex(Join(["sudo " + name] + tail, " "))
            == if NUL in login || exists p :: p in list && HasNul(p) then None
               else Some(["sudo"] + Words(list) + [login])
  {
    hide Lex, Words, Texts, Arg, ValidPart, HasNul;
    JoinedReadsBack(list, login);
    var rest := Join([name] + tail, " ");
    assert ([name] + tail)[1..] == tail && (["sudo " + name] + tail)[1..] == tail;
    assert Join(["sudo " + name] + tail, " ") == Spaced("sudo", rest);
    PlainSpaced("sudo", rest);
    assert ["sudo"] + (Words(list) + [login]) == ["sudo"] + Words(list) + [login];
  }

  /** The two flags that both commands may carry. */
  function GroupFlag(groups: seq<string>): seq<string> {
    if groups == [] then [] else ["-G", Join(groups, ",")]
  }

  /** The new account's arguments arrive as given, whatever characters they hold; NUL alone is refused. */
  lemma UserAddReadsBack(config: Config, login: string, data: UserData, mapped: Option<seq<string>>)
    ensures var groups := Groups(config, data, mapped);
            var command := UserAddCommand(config, login, data, mapped);
            var home, shell := HomeOf(config, login, data), ShellOf(config, data);
            && (command.None? <==> groups.None?)
            && (groups.Some? ==>
                  && (groups.value != [] ==> Split(Join(groups.value, ","), ',') == groups.value)
                  && Lex(command.value)
                     == if NUL in home || NUL in shell || NUL in login then None
                        else Some(["sudo", "useradd", "-m", "-d", home, "-s", shell]
                                  + (if groups.value == [] then [] else ["-G", Join(groups.value, ",")]) + [login]))
  {
    var groups := Groups(config, data, mapped);
    if groups.Some? {
      AddParts(HomeOf(config, login, data), ShellOf(config, data), groups.value, login);
    }
  }

  lemma AddParts(home: string, shell: string, groups: seq<string>, login: string)
    requires forall g :: g in groups ==> ValidGroup(g)
    ensures var parts := ["sudo useradd", "-m", "-d " + Arg(home), "-s " + Arg(shell),
                          if groups != [] then "-G " + Arg(Join(groups, ",")) else "", Arg(login)];
            && (groups != [] ==> Split(Join(groups, ","), ',') == groups)
            && Lex(Join(Truthy(parts), " "))
               == if NUL in home || NUL in shell || NUL in login then None
                  else Some(["sudo", "useradd", "-m", "-d", home, "-s", shell] + GroupFlag(groups) + [login])
  {
    hide Lex, Split, GroupFlag, AddedParts, ValidPart, HasNul;
    var joined := Join(groups, ",");
    var middle := if groups != [] then "-G " + Arg(joined) else "";
    var head := ["sudo useradd", "-m", "-d " + Arg(home), "-s " + Arg(shell)];
    if groups != [] {
      GroupsStayApart(groups);
    }
    AddedWords(home, shell, groups, login);
    AddedValid(home, shell, groups);
    TruthyTail(head, middle, Arg(login));
    assert head + [middle, Arg(login)]
           == ["sudo useradd", "-m", "-d " + Arg(home), "-s " + Arg(shell), middle, Arg(login)];
    var tail := head[1..] + (if middle == "" then [Arg(login)] else [middle, Arg(login)]);
    SudoReads("useradd", AddedParts(home, shell, groups), tail, login);
    assert "sudo " + "useradd" == "sudo useradd";
    assert ["sudo useradd"] + tail == head + (if middle == "" then [Arg(login)] else [middle, Arg(login)]);
  }

  function GroupParts(groups: seq<string>): seq<Part> {
    if groups == [] then [] else [Flag("-G", Join(groups, ","))]
  }

  function AddedParts(home: string, shell: string, groups: seq<string>): seq<Part> {
    [Plain("useradd"), Plain("-m"), Flag("-d", home), Flag("-s", shell)] + GroupParts(groups)
  }

  lemma GroupPart(parts: seq<Part>, groups: seq<string>)
    ensures Texts(parts + GroupParts(groups))
            == Texts(parts) + if groups == [] then [] else ["-G " + Arg(Join(groups, ","))]
    ensures Words(parts + GroupParts(groups)) == Words(parts) + GroupFlag(groups)
  {
    if groups == [] {
      assert parts + [] == parts;
    } else {
      PartsAppend(parts, Flag("-G", Join(groups, ",")));
      FlagText("-G ", "-G", Join(groups, ","));
    }
  }

  lemma AddedWords(home: string, shell: string, groups: seq<string>, login: string)
    ensures var list := AddedParts(home, shell, groups);
            && Texts(list) + [Arg(login)]
               == ["useradd", "-m", "-d " + Arg(home), "-s " + Arg(shell)]
                  + (if groups == [] then [Arg(login)] else ["-G " + Arg(Join(groups, ",")), Arg(login)])
            && ["sudo"] + Words(list) + [login]
               == ["sudo", "useradd", "-m", "-d", home, "-s", shell] + GroupFlag(groups) + [login]
  {
    AccountParts(home, shell);
    GroupPart([Plain("useradd"), Plain("-m"), Flag("-d", home), Flag("-s", shell)], groups);
  }

  lemma AddedValid(home: string, shell: string, groups: seq<string>)
    requires forall g :: g in groups ==> ValidGroup(g)
    ensures var list := AddedParts(home, shell, groups);
            && (forall p :: p in list ==> ValidPart(p))
            && ((exists p :: p in list && HasNul(p)) <==> NUL in home || NUL in shell)
  {
    var account := [Plain("useradd"), Plain("-m"), Flag("-d", home), Flag("-s", shell)];
    NoNulInJoin(groups);
    var list := AddedParts(home, shell, groups);
    assert list[2] == Flag("-d", home) && list[3] == Flag("-s", shell);
    assert list[2] in list && list[3] in list;
    assert (HasNul(list[2]) <==> NUL in home) && (HasNul(list[3]) <==> NUL in shell);
    forall p | p in list
      ensures ValidPart(p) && (HasNul(p) ==> NUL in home || NUL in shell)
    {
      assert p in account || p in GroupParts(groups);
    }
  }

  lemma FlagText(spaced: string, flag: string, value: string)
    requires spaced == flag + " "
    ensures PartText(Flag(flag, value)) == spaced + Arg(value)
  {
  }

  lemma AccountParts(home: string, shell: string)
    ensures var account := [Plain("useradd"), Plain("-m"), Flag("-d", home), Flag("-s", shell)];
            && Texts(account) == ["useradd", "-m", "-d " + Arg(home), "-s " + Arg(shell)]
            && Words(account) == ["useradd", "-m", "-d", home, "-s", shell]
  {
    var p0: seq<Part> := [Plain("useradd")];
    OnePart(Plain("useradd"));
    PartsAppend(p0, Plain("-m"));
    PartsAppend(p0 + [Plain("-m")], Flag("-d", home));
    PartsAppend(p0 + [Plain("-m")] + [Flag("-d", home)], Flag("-s", shell));
    FlagText("-d ", "-d", home);
    FlagText("-s ", "-s", shell);
    assert p0 + [Plain("-m")] + [Flag("-d", home)] + [Flag("-s", shell)]
           == [Plain("useradd"), Plain("-m"), Flag("-d", home), Flag("-s", shell)];
  }

  /** What `usermod` is asked to change. */
  function ModifyArgv(login: string, shell: Option<string>, groups: seq<string>): seq<string> {
    ["sudo", "usermod"] + (if shell.None? then [] else ["-s", shell.value]) + GroupFlag(groups) + [login]
  }

  function ModifiedParts(shell: Option<string>, groups: seq<string>): seq<Part> {
    ShellParts(shell) + GroupParts(groups)
  }

  function ShellParts(shell: Option<string>): seq<Part> {
    [Plain("usermod")] + if shell.None? then [] else [Flag("-s", shell.value)]
  }

  lemma ShellPart(shell: Option<string>)
    ensures Texts(ShellParts(shell)) == ["usermod"] + if shell.None? then [] else ["-s " + Arg(shell.value)]
    ensures Words(ShellParts(shell)) == ["usermod"] + if shell.None? then [] else ["-s", shell.value]
  {
    OnePart(Plain("usermod"));
    if shell.None? {
      assert [Plain("usermod")] + [] == [Plain("usermod")];
    } else {
      PartsAppend([Plain("usermod")], Flag("-s", shell.value));
      FlagText("-s ", "-s", shell.value);
    }
  }

  lemma ModifyList(shell: Option<string>, groups: seq<string>, login: string)
    requires forall g :: g in groups ==> ValidGroup(g)
    ensures var list := ModifiedParts(shell, groups);
            && Texts(list) == ["usermod"] + (if shell.None? then [] else ["-s " + Arg(shell.value)])
                              + (if groups == [] then [] else ["-G " + Arg(Join(groups, ","))])
            && ["sudo"] + Words(list) + [login] == ModifyArgv(login, shell, groups)
  {
    ShellPart(shell);
    GroupPart(ShellParts(shell), groups);
  }

  lemma ModifyValid(shell: Option<string>, groups: seq<string>)
    requires forall g :: g in groups ==> ValidGroup(g)
    ensures var list := ModifiedParts(shell, groups);
            && (forall p :: p in list ==> ValidPart(p))
            && ((exists p :: p in list && HasNul(p)) <==> shell.Some? && NUL in shell.value)
  {
    NoNulInJoin(groups);
    var list := ModifiedParts(shell, groups);
    if shell.Some? {
      assert list[1] == Flag("-s", shell.value) && list[1] in list && (HasNul(list[1]) <==> NUL in shell.value);
    }
    forall p | p in list && HasNul(p)
      ensures shell.Some? && NUL in shell.value
    {
      assert p in ShellParts(shell) || p in GroupParts(groups);
    }
  }

  /** A command that reads as `usermod` with these arguments, and whose group list splits back. */
  predicate IsModifyCommand(command: string, login: string, shell: Option<string>, groups: seq<string>) {
    && (groups != [] ==> Split(Join(groups, ","), ',') == groups)
    && Lex(command) == if NUL in login || (shell.Some? && NUL in shell.value) then None
                       else Some(["sudo", "usermod"] + (if shell.None? then [] else ["-s", shell.value])
                                 + (if groups == [] then [] else ["-G", Join(groups, ",")]) + [login])
  }

  function GroupText(groups: seq<string>): seq<string> {
    if groups == [] then [] else ["-G " + Arg(Join(groups, ","))]
  }

  lemma ModifyReads(parts: seq<string>, shell: Option<string>, groups: seq<string>, login: string)
    requires forall g :: g in groups ==> ValidGroup(g)
    requires parts == ["sudo usermod"] + (if shell.None? then [] else ["-s " + Arg(shell.value)])
                      + GroupText(groups) + [Arg(login)]
    ensures IsModifyCommand(Join(parts, " "), login, shell, groups)
  {
    hide Lex, Arg, ModifiedParts;
    if groups != [] {
      GroupsStayApart(groups);
    }
    ModifyList(shell, groups, login);
    ModifyValid(shell, groups);
    var list := ModifiedParts(shell, groups);
    assert Texts(list) + [Arg(login)] == ["usermod"] + parts[1..];
    SudoReads("usermod", list, parts[1..], login);
    assert "sudo " + "usermod" == "sudo usermod";
    assert parts == ["sudo usermod"] + parts[1..];
  }

  /** The command that changes an account pushes one part after another. */
  method UserModifyCommand(config: Config, login: string, data: UserData, mapped: Option<seq<string>>)
    returns (command: Option<string>)
    ensures var groups := Groups(config, data, mapped);
            && (command.None? <==> groups.None?)
            && (groups.Some? ==> IsModifyCommand(command.value, login, FirstString(data.shell), groups.value))
  {
    var parts := ["sudo usermod"];
    var shell := FirstString(data.shell);
    if shell.Some? {
      parts := parts + ["-s " + Arg(shell.value)];
    }
    var groups := Groups(config, data, mapped);
    if groups.None? {
      return None;
    }
    if groups.value != [] {
      parts := parts + ["-G " + Arg(Join(groups.value, ","))];
    }
    parts := parts + [Arg(login)];
    ModifyReads(parts, shell, groups.value, login);
    command := Some(Join(parts, " "));
  }
}
