/** The text of the staging evidence plan: lists of environment names are printed into Markdown lines by one program and
    parsed back out of them by another. */
module PlanText {
  import opened Text

  // ---- lines ----

  /** The characters at which Python's `splitlines` ends a line. */
  predicate Break(c: char) {
    || '\U{000A}' <= c <= '\U{000D}' || '\U{001C}' <= c <= '\U{001E}'
    || c == '\U{0085}' || c == '\U{2028}' || c == '\U{2029}'
  }

  /** The ten line boundaries. */
  lemma BreaksAre(c: char)
    ensures Break(c) <==> c as int in {0x0A, 0x0B, 0x0C, 0x0D, 0x1C, 0x1D, 0x1E, 0x85, 0x2028, 0x2029}
  {
  }

  predicate OneLine(s: string) {
    forall i :: 0 <= i < |s| ==> !Break(s[i])
  }

  function LineEnd(s: string): (end: nat)
    ensures end <= |s| && OneLine(s[..end])
    ensures end < |s| ==> Break(s[end])
  {
    if s == "" || Break(s[0]) then 0
    else
      var rest := LineEnd(s[1..]);
      assert forall i :: 1 <= i < rest + 1 ==> s[i] == s[1..][..rest][i - 1];
      1 + rest
  }

  /** A carriage return and the line feed after it end one line. */
  function AfterLine(s: string): (rest: string)
    requires LineEnd(s) < |s|
    ensures |rest| < |s|
  {
    var end := LineEnd(s);
    if s[end] == '\r' && end + 1 < |s| && s[end + 1] == '\n' then s[end + 2..] else s[end + 1..]
  }

  /** `s.splitlines()` */
  function SplitLines(s: string): seq<string>
    decreases |s|
  {
    if s == "" then []
    else if LineEnd(s) == |s| then [s]
    else [s[..LineEnd(s)]] + SplitLines(AfterLine(s))
  }

  lemma {:induction false} LineEndIs(s: string, end: nat)
    requires end <= |s| && OneLine(s[..end]) && (end < |s| ==> Break(s[end]))
    ensures LineEnd(s) == end
  {
    if end > 0 {
      assert s[..end][0] == s[0];
      assert s[1..][..end - 1] == s[..end][1..];
      LineEndIs(s[1..], end - 1);
    }
  }

  // ---- reading the names back ----

  const PREFIX := "- Missing env:"
  const NO_NAMES := "`none`"

  function CommaAt(s: string): (at: nat)
    ensures at <= |s| && (at < |s| ==> s[at] == ',')
    ensures forall i :: 0 <= i < at ==> s[i] != ','
  {
    if s == "" || s[0] == ',' then 0 else 1 + CommaAt(s[1..])
  }

  /** `s.split(",")` */
  function SplitCommas(s: string): seq<string>
    decreases |s|
  {
    if CommaAt(s) == |s| then [s] else [s[..CommaAt(s)]] + SplitCommas(s[CommaAt(s) + 1..])
  }

  function TicksLeft(s: string): (r: string)
    ensures |r| <= |s|
    ensures r != "" ==> r[0] != '`'
  {
    if s != "" && s[0] == '`' then TicksLeft(s[1..]) else s
  }

  lemma {:induction false} TicksLeftSuffix(s: string)
    ensures TicksLeft(s) == s[|s| - |TicksLeft(s)|..]
  {
    if s != "" && s[0] == '`' {
      TicksLeftSuffix(s[1..]);
      assert s == [s[0]] + s[1..];
    }
  }

  function TicksRight(s: string): (r: string)
    ensures r <= s
    ensures r != "" ==> r[|r| - 1] != '`'
  {
    if s != "" && s[|s| - 1] == '`' then TicksRight(s[..|s| - 1]) else s
  }

  /** One token without outer whitespace, then without outer backticks. */
  function Normalize(token: string): string {
    TicksRight(TicksLeft(Strip(token)))
  }

  /** `{n for x in xs for n in names(x)}` */
  function Collect(names: string -> set<string>, xs: seq<string>): set<string> {
    if xs == [] then {} else names(xs[0]) + Collect(names, xs[1..])
  }

  lemma {:induction false} CollectSnoc(names: string -> set<string>, xs: seq<string>, x: string)
    ensures Collect(names, xs + [x]) == Collect(names, xs) + names(x)
  {
    if xs == [] {
      assert [] + [x] == [x] && [x][1..] == [];
    } else {
      CollectSnoc(names, xs[1..], x);
      assert (xs + [x])[1..] == xs[1..] + [x];
    }
  }

  lemma CollectTake(names: string -> set<string>, xs: seq<string>, i: nat)
    requires i < |xs|
    ensures Collect(names, xs[..i + 1]) == Collect(names, xs[..i]) + names(xs[i])
  {
    assert xs[..i + 1] == xs[..i] + [xs[i]];
    CollectSnoc(names, xs[..i], xs[i]);
  }

  lemma CollectCons(names: string -> set<string>, x: string, xs: seq<string>)
    ensures Collect(names, [x] + xs) == names(x) + Collect(names, xs)
  {
    assert ([x] + xs)[1..] == xs;
  }

  lemma CollectOne(names: string -> set<string>, x: string)
    ensures Collect(names, [x]) == names(x)
  {
    assert [x][1..] == [];
  }

  function NonEmpty(name: string): set<string> {
    if name != "" then {name} else {}
  }

  function TokenName(token: string): set<string> {
    NonEmpty(Normalize(token))
  }

  /** The names a line of the plan lists, if it is a line that lists names. */
  function NamesIn(line: string): set<string> {
    var stripped := Strip(line);
    if !(PREFIX <= stripped) then {}
    else
      var value := Strip(stripped[|PREFIX|..]);
      if value == NO_NAMES then {} else Collect(TokenName, SplitCommas(value))
  }

  /** What the lines of a text list. */
  function InLines(names: string -> set<string>, content: string): set<string> {
    Collect(names, SplitLines(content))
  }

  method AddName(missing: set<string>, normalized: string) returns (all: set<string>)
    ensures all == missing + NonEmpty(normalized)
  {
    all := if normalized != "" then missing + {normalized} else missing;
  }

  method AddNames(missing: set<string>, tokens: seq<string>) returns (all: set<string>)
    ensures all == missing + Collect(TokenName, tokens)
  {
    all := missing;
    for i := 0 to |tokens|
      invariant all == missing + Collect(TokenName, tokens[..i])
    {
      CollectTake(TokenName, tokens, i);
      all := AddName(all, Normalize(tokens[i]));
    }
    assert tokens[..|tokens|] == tokens;
  }

  method AddLine(missing: set<string>, line: string) returns (all: set<string>)
    ensures all == missing + NamesIn(line)
  {
    var stripped := Strip(line);
    if !(PREFIX <= stripped) {
      return missing;
    }
    var value := Strip(stripped[|PREFIX|..]);
    if value == NO_NAMES {
      return missing;
    }
    all := AddNames(missing, SplitCommas(value));
  }

  /** `_missing_env_from_staging_plan` */
  method MissingEnvFromStagingPlan(content: string) returns (missing: seq<string>)
    ensures missing == SortedSet(InLines(NamesIn, content))
    ensures Ascending(missing) && forall name :: name in missing <==> name in InLines(NamesIn, content)
  {
    SortedSetAscends(InLines(NamesIn, content));
    var all := {};
    var lines := SplitLines(content);
    for i := 0 to |lines|
      invariant all == Collect(NamesIn, lines[..i])
    {
      CollectTake(NamesIn, lines, i);
      all := AddLine(all, lines[i]);
    }
    assert lines[..|lines|] == lines;
    missing := SortedSet(all);
  }

  // ---- lines joined and stripped ----

  /** What is found in two texts joined by a line feed is what is found in either. */
  lemma {:induction false} AcrossLineFeed(names: string -> set<string>, a: string, b: string)
    requires names("") == {}
    ensures InLines(names, a + "\n" + b) == InLines(names, a) + InLines(names, b)
    decreases |a|
  {
    if LineEnd(a) == |a| {
      assert a[..|a|] == a;
      FirstLineEnds(names, a, b);
    } else {
      LaterLineEnds(a, b);
      CollectCons(names, a[..LineEnd(a)], SplitLines(AfterLine(a)));
      CollectCons(names, a[..LineEnd(a)], SplitLines(AfterLine(a + "\n" + b)));
      if AfterLine(a + "\n" + b) == AfterLine(a) + "\n" + b {
        AcrossLineFeed(names, AfterLine(a), b);
      }
    }
  }

  lemma LineEndKept(s: string, t: string)
    requires LineEnd(s) < |s|
    ensures LineEnd(s + t) == LineEnd(s) && (s + t)[..LineEnd(s)] == s[..LineEnd(s)]
  {
    assert (s + t)[..LineEnd(s)] == s[..LineEnd(s)] && (s + t)[LineEnd(s)] == s[LineEnd(s)];
    LineEndIs(s + t, LineEnd(s));
  }

  lemma DropOfConcat(s: string, t: string, k: nat)
    requires k <= |s|
    ensures (s + t)[k..] == s[k..] + t
  {
  }

  lemma AppendedBehindLine(s: string, t: string)
    requires LineEnd(s) < |s| && LineEnd(s + t) == LineEnd(s) && LineEnd(s) + 1 < |s|
    ensures AfterLine(s + t) == AfterLine(s) + t
  {
    var end := LineEnd(s);
    assert (s + t)[end] == s[end] && (s + t)[end + 1] == s[end + 1];
    DropOfConcat(s, t, end + 1);
    DropOfConcat(s, t, end + 2);
  }

  lemma AppendedAtLineEnd(s: string, t: string)
    requires LineEnd(s) < |s| && LineEnd(s + t) == LineEnd(s) && LineEnd(s) + 1 == |s| && t != ""
    ensures AfterLine(s) == ""
    ensures AfterLine(s + t) == t || (t[0] == '\n' && AfterLine(s + t) == t[1..])
  {
    var end := LineEnd(s);
    assert (s + t)[end] == s[end] && (s + t)[end + 1] == t[0];
    DropOfConcat(s, t, end + 1);
    assert s[end + 1..] == "" && "" + t == t;
    assert (s + t)[end + 2..] == t[1..];
  }

  /** Appending to a text with a line end changes what follows that line, unless the line feed appended completes it. */
  lemma AfterLineAppended(s: string, t: string)
    requires LineEnd(s) < |s| && t != ""
    ensures LineEnd(s + t) == LineEnd(s) && (s + t)[..LineEnd(s)] == s[..LineEnd(s)]
    ensures AfterLine(s + t) == AfterLine(s) + t || (AfterLine(s) == "" && t[0] == '\n' && AfterLine(s + t) == t[1..])
  {
    LineEndKept(s, t);
    if LineEnd(s) + 1 < |s| {
      AppendedBehindLine(s, t);
    } else {
      AppendedAtLineEnd(s, t);
      assert "" + t == t;
    }
  }

  lemma LaterLineEnds(a: string, b: string)
    requires LineEnd(a) < |a|
    ensures LineEnd(a + "\n" + b) == LineEnd(a)
    ensures (a + "\n" + b)[..LineEnd(a)] == a[..LineEnd(a)]
    ensures || AfterLine(a + "\n" + b) == AfterLine(a) + "\n" + b
            || (AfterLine(a) == "" && AfterLine(a + "\n" + b) == b)
  {
    var t := "\n" + b;
    assert a + "\n" + b == a + t && AfterLine(a) + "\n" + b == AfterLine(a) + t && t[1..] == b;
    AfterLineAppended(a, t);
  }

  lemma FirstLineEnds(names: string -> set<string>, a: string, b: string)
    requires names("") == {} && OneLine(a)
    ensures InLines(names, a + "\n" + b) == InLines(names, a) + InLines(names, b)
  {
    var all := a + "\n" + b;
    assert all[..|a|] == a && all[|a|] == '\n';
    LineEndIs(all, |a|);
    assert AfterLine(all) == b;
    CollectCons(names, a, SplitLines(b));
    OneLineAlone(names, a);
  }

  lemma OneLineAlone(names: string -> set<string>, a: string)
    requires names("") == {} && OneLine(a)
    ensures InLines(names, a) == names(a)
  {
    assert a[..|a|] == a;
    LineEndIs(a, |a|);
    CollectOne(names, a);
  }

  ghost predicate IgnoresTrailing(names: string -> set<string>) {
    names("") == {} && forall x, c :: Space(c) ==> names(x + [c]) == names(x)
  }

  lemma LaterLineGrows(s: string, c: char)
    requires LineEnd(s) < |s|
    ensures LineEnd(s + [c]) == LineEnd(s) && (s + [c])[..LineEnd(s)] == s[..LineEnd(s)]
    ensures AfterLine(s + [c]) == AfterLine(s) + [c] || (AfterLine(s) == "" && AfterLine(s + [c]) == "")
  {
    AfterLineAppended(s, [c]);
  }

  lemma OnlyLineGrows(names: string -> set<string>, s: string, c: char)
    requires IgnoresTrailing(names) && Space(c) && OneLine(s)
    ensures InLines(names, s + [c]) == InLines(names, s)
  {
    var all := s + [c];
    OneLineAlone(names, s);
    assert all[..|s|] == s && all[|s|] == c;
    if Break(c) {
      LineEndIs(all, |s|);
      assert AfterLine(all) == "" && SplitLines("") == [];
      assert SplitLines(all) == [s] + [] == [s];
      CollectOne(names, s);
    } else {
      OneLineAlone(names, all);
    }
  }

  /** White space at the end of a text changes nothing. */
  lemma {:induction false} TrailingSpace(names: string -> set<string>, s: string, c: char)
    requires IgnoresTrailing(names) && Space(c)
    ensures InLines(names, s + [c]) == InLines(names, s)
    decreases |s|
  {
    if LineEnd(s) == |s| {
      assert s[..|s|] == s;
      OnlyLineGrows(names, s, c);
    } else {
      LaterLineGrows(s, c);
      CollectCons(names, s[..LineEnd(s)], SplitLines(AfterLine(s)));
      CollectCons(names, s[..LineEnd(s)], SplitLines(AfterLine(s + [c])));
      if AfterLine(s + [c]) == AfterLine(s) + [c] {
        TrailingSpace(names, AfterLine(s), c);
      }
    }
  }

  lemma LastSpaceDropped(names: string -> set<string>, s: string)
    requires IgnoresTrailing(names) && s != "" && Space(s[|s| - 1])
    ensures InLines(names, s) == InLines(names, s[..|s| - 1])
  {
    assert s[..|s| - 1] + [s[|s| - 1]] == s;
    TrailingSpace(names, s[..|s| - 1], s[|s| - 1]);
  }

  lemma {:induction false} StrippedListsSame(names: string -> set<string>, s: string)
    requires IgnoresTrailing(names)
    ensures InLines(names, StripRight(s)) == InLines(names, s)
    decreases |s|
  {
    if s != "" && Space(s[|s| - 1]) {
      var shorter := s[..|s| - 1];
      LastSpaceDropped(names, s);
      StrippedListsSame(names, shorter);
      assert StripRight(s) == StripRight(shorter);
    }
  }

  /** `"\n".join(lines)` */
  function Join(lines: seq<string>): string {
    if |lines| == 0 then "" else if |lines| == 1 then lines[0] else lines[0] + "\n" + Join(lines[1..])
  }

  /** `lines` may themselves hold line breaks. */
  lemma {:induction false} JoinedLists(names: string -> set<string>, each: string -> set<string>, lines: seq<string>)
    requires names("") == {} && forall x :: each(x) == InLines(names, x)
    ensures InLines(names, Join(lines)) == Collect(each, lines)
  {
    if |lines| == 0 {
      assert SplitLines("") == [];
    } else if |lines| == 1 {
      assert lines == [lines[0]];
      CollectOne(each, lines[0]);
    } else {
      JoinedLists(names, each, lines[1..]);
      AcrossLineFeed(names, lines[0], Join(lines[1..]));
    }
  }

  /** The rendered file: the lines joined, stripped at the end, and ended by a line feed. */
  function Content(lines: seq<string>): string {
    StripRight(Join(lines)) + "\n"
  }

  lemma ContentLists(names: string -> set<string>, each: string -> set<string>, lines: seq<string>)
    requires IgnoresTrailing(names) && forall x :: each(x) == InLines(names, x)
    ensures InLines(names, Content(lines)) == Collect(each, lines)
  {
    TrailingSpace(names, StripRight(Join(lines)), '\n');
    StrippedListsSame(names, Join(lines));
    JoinedLists(names, each, lines);
  }

  lemma {:induction false} StripLeftSnoc(x: string, c: char)
    requires Space(c)
    ensures StripLeft(x + [c]) == if StripLeft(x) == "" then "" else StripLeft(x) + [c]
  {
    if x == "" {
      assert x + [c] == [c] && [c][1..] == "";
    } else {
      assert (x + [c])[1..] == x[1..] + [c] && (x + [c])[0] == x[0];
      StripLeftSnoc(x[1..], c);
    }
  }

  lemma StripSnoc(x: string, c: char)
    requires Space(c)
    ensures Strip(x + [c]) == Strip(x)
  {
    StripLeftSnoc(x, c);
    var left := StripLeft(x);
    assert (left + [c])[..|left|] == left;
  }

  lemma NamesInIgnoresTrailing()
    ensures IgnoresTrailing(NamesIn)
  {
    assert Strip("") == "";
    forall x, c | Space(c) ensures NamesIn(x + [c]) == NamesIn(x) {
      StripSnoc(x, c);
    }
  }

  // ---- printing the names ----

  function Ticked(value: string): string {
    "`" + value + "`"
  }

  function Joined(values: seq<string>): (r: string)
    requires values != []
    ensures r != "" && r[0] == '`' && r[|r| - 1] == '`'
  {
    if |values| == 1 then Ticked(values[0]) else Ticked(values[0]) + ", " + Joined(values[1..])
  }

  /** `_inline_list` */
  function InlineList(values: seq<string>): (r: string)
    ensures r != "" && r[0] == '`' && r[|r| - 1] == '`'
  {
    if values == [] then NO_NAMES else Joined(values)
  }

  /** A name that survives being listed between commas and backticks on one line. White space around it does. */
  predicate Printable(name: string) {
    && name != "" && OneLine(name)
    && (forall i :: 0 <= i < |name| ==> name[i] != ',')
    && name[0] != '`' && name[|name| - 1] != '`'
  }

  lemma StripKeeps(s: string)
    requires s != "" && !Space(s[0]) && !Space(s[|s| - 1])
    ensures Strip(s) == s && Strip(" " + s) == s
  {
    assert (" " + s)[1..] == s;
  }

  lemma TicksOff(name: string)
    requires name != "" && name[0] != '`' && name[|name| - 1] != '`'
    ensures TicksRight(TicksLeft(Ticked(name))) == name
  {
    assert Ticked(name)[1..] == name + "`";
    assert TicksLeft(name + "`") == name + "`";
    assert (name + "`")[..|name|] == name;
    assert TicksRight(name) == name;
  }

  lemma StrippedToken(token: string, name: string)
    requires Strip(token) == Ticked(name) && name != "" && name[0] != '`' && name[|name| - 1] != '`'
    ensures TokenName(token) == {name}
  {
    TicksOff(name);
  }

  lemma TickedToken(name: string)
    requires Printable(name)
    ensures TokenName(Ticked(name)) == {name} && TokenName(" " + Ticked(name)) == {name}
  {
    StripKeeps(Ticked(name));
    StrippedToken(Ticked(name), name);
    StrippedToken(" " + Ticked(name), name);
  }

  lemma {:induction false} CommaAtIs(s: string, at: nat)
    requires at <= |s| && (at < |s| ==> s[at] == ',') && forall i :: 0 <= i < at ==> s[i] != ','
    ensures CommaAt(s) == at
  {
    if at > 0 {
      CommaAtIs(s[1..], at - 1);
    }
  }

  lemma SplitAtComma(token: string, rest: string)
    requires forall i :: 0 <= i < |token| ==> token[i] != ','
    ensures SplitCommas(token + "," + rest) == [token] + SplitCommas(rest)
    ensures SplitCommas(token) == [token]
  {
    var all := token + "," + rest;
    CommaAtIs(all, |token|);
    CommaAtIs(token, |token|);
    assert all[..|token|] == token && all[|token| + 1..] == rest;
  }

  ghost predicate Reads(name: string -> set<string>, values: seq<string>) {
    forall i :: 0 <= i < |values| ==> name(Ticked(values[i])) == {values[i]} && name(" " + Ticked(values[i])) == {values[i]}
  }

  /** After `lead`, the listed names are read back one by one. */
  lemma {:induction false} ListReadBack(name: string -> set<string>, lead: string, values: seq<string>)
    requires values != [] && Reads(name, values) && (lead == "" || lead == " ")
    requires forall i :: 0 <= i < |values| ==> Printable(values[i])
    ensures Collect(name, SplitCommas(lead + Joined(values))) == set x | x in values
    decreases |values|
  {
    var token := lead + Ticked(values[0]);
    assert name(token) == {values[0]} by {
      assert "" + Ticked(values[0]) == Ticked(values[0]);
    }
    SetOfCons(values);
    if |values| == 1 {
      SplitAtComma(token, "");
      CollectOne(name, token);
    } else {
      ListSplits(lead, values);
      ListReadBack(name, " ", values[1..]);
      CollectCons(name, token, SplitCommas(" " + Joined(values[1..])));
    }
  }

  lemma SetOfCons(values: seq<string>)
    requires values != []
    ensures (set x | x in values) == {values[0]} + set x | x in values[1..]
  {
    assert values == [values[0]] + values[1..];
  }

  lemma ListSplits(lead: string, values: seq<string>)
    requires |values| > 1 && Printable(values[0]) && (lead == "" || lead == " ")
    ensures SplitCommas(lead + Joined(values)) == [lead + Ticked(values[0])] + SplitCommas(" " + Joined(values[1..]))
  {
    var token, rest := lead + Ticked(values[0]), " " + Joined(values[1..]);
    assert lead + Joined(values) == token + "," + rest;
    SplitAtComma(token, rest);
  }

  lemma NamesReadBack(names: seq<string>)
    requires names != [] && forall i :: 0 <= i < |names| ==> Printable(names[i])
    ensures Collect(TokenName, SplitCommas(InlineList(names))) == set x | x in names
  {
    forall i | 0 <= i < |names|
      ensures TokenName(Ticked(names[i])) == {names[i]} && TokenName(" " + Ticked(names[i])) == {names[i]}
    {
      TickedToken(names[i]);
    }
    ListReadBack(TokenName, "", names);
    assert "" + Joined(names) == Joined(names);
  }

  /** The line of a gate. */
  function MissingLine(names: seq<string>): string {
    PREFIX + " " + InlineList(names)
  }

  /** The one list that cannot be read back: it looks like the list of no names. */
  const NONE_ALONE := ["none"]

  lemma OnlyNoneLooksEmpty(names: seq<string>)
    requires names != [] && forall i :: 0 <= i < |names| ==> Printable(names[i])
    ensures InlineList(names) == NO_NAMES <==> names == NONE_ALONE
  {
    var printed := InlineList(names);
    if |names| == 1 {
      assert printed[1..|printed| - 1] == names[0];
      assert NO_NAMES[1..5] == "none";
      assert names == [names[0]];
    } else {
      assert printed[|names[0]| + 2] == ',';
      assert |printed| == 6 ==> printed[0] == printed[5] == '`';
    }
  }

  lemma EdgesStripped(line: string, first: char, last: char)
    requires line != "" && line[0] == first && line[|line| - 1] == last && !Space(first) && !Space(last)
    ensures Strip(line) == line && Strip(" " + line) == line
  {
    StripKeeps(line);
  }

  lemma TitleDropped(title: string, list: string)
    ensures title <= title + " " + list && (title + " " + list)[|title|..] == " " + list
  {
  }

  lemma {:induction false} JoinedOneLine(values: seq<string>)
    requires values != [] && forall i :: 0 <= i < |values| ==> OneLine(values[i])
    ensures OneLine(Joined(values))
  {
    if |values| > 1 {
      JoinedOneLine(values[1..]);
    }
  }

  lemma MissingLineOneLine(names: seq<string>)
    requires forall i :: 0 <= i < |names| ==> OneLine(names[i])
    ensures OneLine(MissingLine(names))
  {
    if names != [] {
      JoinedOneLine(names);
    }
  }

  lemma MissingLineValue(names: seq<string>)
    ensures Strip(MissingLine(names)) == MissingLine(names)
    ensures PREFIX <= MissingLine(names) && Strip(MissingLine(names)[|PREFIX|..]) == InlineList(names)
  {
    TitleDropped(PREFIX, InlineList(names));
    EdgesStripped(MissingLine(names), '-', '`');
    EdgesStripped(InlineList(names), '`', '`');
  }

  lemma NamesOfLine(line: string, value: string)
    requires Strip(line) == line && PREFIX <= line && Strip(line[|PREFIX|..]) == value
    ensures NamesIn(line) == if value == NO_NAMES then {} else Collect(TokenName, SplitCommas(value))
  {
  }

  lemma ListedNames(names: seq<string>)
    requires forall i :: 0 <= i < |names| ==> Printable(names[i])
    ensures (if InlineList(names) == NO_NAMES then {} else Collect(TokenName, SplitCommas(InlineList(names)))) ==
            if names == NONE_ALONE then {} else set x | x in names
  {
    if names != [] {
      OnlyNoneLooksEmpty(names);
      NamesReadBack(names);
    }
  }

  lemma MissingLineNames(names: seq<string>)
    requires forall i :: 0 <= i < |names| ==> Printable(names[i])
    ensures NamesIn(MissingLine(names)) == if names == NONE_ALONE then {} else set x | x in names
  {
    MissingLineValue(names);
    NamesOfLine(MissingLine(names), InlineList(names));
    ListedNames(names);
  }

  /** What the line of a gate lists when read back. */
  lemma MissingLineReadBack(names: seq<string>)
    requires forall i :: 0 <= i < |names| ==> Printable(names[i])
    ensures InLines(NamesIn, MissingLine(names)) == if names == NONE_ALONE then {} else set x | x in names
  {
    MissingLineNames(names);
    NamesInIgnoresTrailing();
    MissingLineOneLine(names);
    OneLineAlone(NamesIn, MissingLine(names));
  }

  // ---- what can be read back at all ----

  predicate Plain(s: string) {
    OneLine(s) && forall i :: 0 <= i < |s| ==> s[i] != ','
  }

  lemma {:induction false} LinesAreLines(s: string, i: nat)
    requires i < |SplitLines(s)|
    ensures OneLine(SplitLines(s)[i])
    decreases |s|
  {
    if LineEnd(s) == |s| {
      assert s[..|s|] == s;
    } else if i > 0 {
      LinesAreLines(AfterLine(s), i - 1);
    }
  }

  lemma {:induction false} TokensArePlain(s: string, i: nat)
    requires OneLine(s) && i < |SplitCommas(s)|
    ensures Plain(SplitCommas(s)[i])
    decreases |s|
  {
    if CommaAt(s) == |s| {
      assert s[..|s|] == s;
    } else if i > 0 {
      TokensArePlain(s[CommaAt(s) + 1..], i - 1);
    }
  }

  lemma PlainSuffix(s: string, r: string)
    requires Plain(s) && |r| <= |s| && r == s[|s| - |r|..]
    ensures Plain(r)
  {
    assert forall i :: 0 <= i < |r| ==> r[i] == s[|s| - |r| + i];
  }

  lemma PlainPrefix(s: string, r: string)
    requires Plain(s) && r <= s
    ensures Plain(r)
  {
    assert forall i :: 0 <= i < |r| ==> r[i] == s[i];
  }

  lemma StripPlain(s: string)
    requires Plain(s)
    ensures Plain(Strip(s))
  {
    StripLeftSuffix(s);
    PlainSuffix(s, StripLeft(s));
    PlainPrefix(StripLeft(s), Strip(s));
  }

  lemma SuffixOneLine(s: string, k: nat)
    requires OneLine(s) && k <= |s|
    ensures OneLine(s[k..])
  {
    assert forall i :: 0 <= i < |s| - k ==> s[k..][i] == s[k + i];
  }

  lemma PrefixOneLine(s: string, r: string)
    requires OneLine(s) && r <= s
    ensures OneLine(r)
  {
    assert forall i :: 0 <= i < |r| ==> r[i] == s[i];
  }

  lemma StripOneLine(s: string)
    requires OneLine(s)
    ensures OneLine(Strip(s))
  {
    StripLeftSuffix(s);
    SuffixOneLine(s, |s| - |StripLeft(s)|);
    PrefixOneLine(StripLeft(s), Strip(s));
  }

  lemma TrimmedPrintable(token: string, left: string, name: string)
    requires Plain(token) && left == TicksLeft(token) && name == TicksRight(left) && name != ""
    ensures Printable(name)
  {
    TicksLeftSuffix(token);
    PlainSuffix(token, left);
    PlainPrefix(left, name);
    assert name[0] == left[0];
  }

  lemma NormalizedPrintable(token: string)
    requires Plain(token) && Normalize(token) != ""
    ensures Printable(Normalize(token))
  {
    StripPlain(token);
    TrimmedPrintable(Strip(token), TicksLeft(Strip(token)), Normalize(token));
  }

  lemma {:induction false} Collected(names: string -> set<string>, xs: seq<string>, n: string) returns (i: nat)
    requires n in Collect(names, xs)
    ensures i < |xs| && n in names(xs[i])
  {
    if n in names(xs[0]) {
      i := 0;
    } else {
      var j := Collected(names, xs[1..], n);
      i := j + 1;
    }
  }

  lemma TokensPrintable(value: string, n: string)
    requires OneLine(value) && n in Collect(TokenName, SplitCommas(value))
    ensures Printable(n)
  {
    var i := Collected(TokenName, SplitCommas(value), n);
    TokensArePlain(value, i);
    NormalizedPrintable(SplitCommas(value)[i]);
  }

  lemma ValuePrintable(value: string, n: string)
    requires OneLine(value) && n in Collect(TokenName, SplitCommas(Strip(value)))
    ensures Printable(n)
  {
    StripOneLine(value);
    TokensPrintable(Strip(value), n);
  }

  lemma NamesInPrintable(line: string, n: string)
    requires OneLine(line) && n in NamesIn(line)
    ensures Printable(n)
  {
    StripOneLine(line);
    SuffixOneLine(Strip(line), |PREFIX|);
    ValuePrintable(Strip(line)[|PREFIX|..], n);
  }

  /** Whatever the text, only printable names are ever read out of it. */
  lemma OnlyPrintableRead(content: string, n: string)
    requires n in InLines(NamesIn, content)
    ensures Printable(n)
  {
    var i := Collected(NamesIn, SplitLines(content), n);
    LinesAreLines(content, i);
    NamesInPrintable(SplitLines(content)[i], n);
  }

  // ---- finding text in the file ----

  predicate Contains(content: string, snippet: string) {
    exists i :: 0 <= i <= |content| && snippet <= content[i..]
  }

  lemma {:induction false} StripRightKeeps(p: string, q: string)
    requires p != "" && !Space(p[|p| - 1])
    ensures p <= StripRight(p + q)
    decreases |q|
  {
    if q == "" {
      assert p + q == p;
    } else {
      StripRightKeeps(p, q[..|q| - 1]);
      assert (p + q)[..|p + q| - 1] == p + q[..|q| - 1];
    }
  }

  lemma {:induction false} JoinHas(lines: seq<string>, i: nat) returns (before: string, after: string)
    requires i < |lines|
    ensures Join(lines) == before + lines[i] + after
  {
    if |lines| == 1 {
      before, after := "", "";
    } else if i == 0 {
      before, after := "", "\n" + Join(lines[1..]);
      assert "" + lines[0] + after == lines[0] + "\n" + Join(lines[1..]);
    } else {
      var b, a := JoinHas(lines[1..], i - 1);
      before, after := lines[0] + "\n" + b, a;
      assert before + lines[i] + after == lines[0] + "\n" + (b + lines[i] + a);
    }
  }

  lemma {:induction false} JoinStarts(run: seq<string>, rest: seq<string>) returns (after: string)
    requires run != []
    ensures Join(run + rest) == Join(run) + after
  {
    if |run| == 1 {
      assert run + rest == [run[0]] + rest && (run + rest)[1..] == rest;
      after := if rest == [] then "" else "\n" + Join(rest);
    } else {
      var a := JoinStarts(run[1..], rest);
      after := a;
      assert (run + rest)[0] == run[0] && (run + rest)[1..] == run[1..] + rest;
      assert run[0] + "\n" + (Join(run[1..]) + a) == run[0] + "\n" + Join(run[1..]) + a;
    }
  }

  lemma {:induction false} JoinParts(lead: seq<string>, run: seq<string>, rest: seq<string>) returns (before: string, after: string)
    requires run != []
    ensures Join(lead + run + rest) == before + Join(run) + after
  {
    if lead == [] {
      after := JoinStarts(run, rest);
      before := "";
      assert [] + run + rest == run + rest;
    } else {
      var b, a := JoinParts(lead[1..], run, rest);
      before, after := lead[0] + "\n" + b, a;
      var lines := lead + run + rest;
      assert lines[0] == lead[0] && lines[1..] == lead[1..] + run + rest;
      assert lead[0] + "\n" + (b + Join(run) + a) == before + Join(run) + after;
    }
  }

  /** Consecutive lines that do not end in white space are in the file as they are. */
  lemma RunInContent(lead: seq<string>, run: seq<string>, rest: seq<string>)
    requires run != [] && Join(run) != "" && !Space(Join(run)[|Join(run)| - 1])
    ensures Contains(Content(lead + run + rest), Join(run))
  {
    var before, after := JoinParts(lead, run, rest);
    var p := before + Join(run);
    assert p[|p| - 1] == Join(run)[|Join(run)| - 1];
    StripRightKeeps(p, after);
    assert "" + Join(run) + "" == Join(run);
    SnippetAt(Content(lead + run + rest), p, before, "", Join(run), "");
  }

  /** A line that does not end in white space is in the file, and so is everything in it. */
  lemma LineInContent(lines: seq<string>, i: nat, lead: string, snippet: string, tail: string)
    requires i < |lines| && lines[i] == lead + snippet + tail && lines[i] != "" && !Space(lines[i][|lines[i]| - 1])
    ensures Contains(Content(lines), snippet)
  {
    var before, after := JoinHas(lines, i);
    var p := before + lines[i];
    assert p[|p| - 1] == lines[i][|lines[i]| - 1];
    StripRightKeeps(p, after);
    SnippetAt(Content(lines), p, before, lead, snippet, tail);
  }

  lemma SnippetAt(content: string, p: string, before: string, lead: string, snippet: string, tail: string)
    requires p <= content && p == before + (lead + snippet + tail)
    ensures Contains(content, snippet)
  {
    var at := |before| + |lead|;
    assert content[at..at + |snippet|] == p[at..at + |snippet|] == snippet;
    assert snippet <= content[at..];
  }
}
