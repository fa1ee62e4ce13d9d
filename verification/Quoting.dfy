/** Windows argument quoting, in its two implementations, against the rules that take a command line apart. */
module Quoting {
  import opened Common

  const BACKSLASH := '\\'
  const QUOTE := '\"'

  /** The pattern that decides when to quote: any class of white space that has the blank and the tab. */
  ghost predicate SpaceClass(space: char -> bool) {
    space(' ') && space('\t')
  }

  function Repeat(n: nat): (s: string)
    ensures |s| == n
  {
    if n == 0 then [] else [BACKSLASH] + Repeat(n - 1)
  }

  predicate NeedsQuotes(value: string, space: char -> bool) {
    value == [] || exists c :: c in value && (c == QUOTE || space(c))
  }

  /** The text between the quotes, `slashes` backslashes being held back. */
  function Body(value: string, slashes: nat): string {
    if value == [] then Repeat(slashes * 2)
    else if value[0] == BACKSLASH then Body(value[1..], slashes + 1)
    else if value[0] == QUOTE then Repeat(slashes * 2 + 1) + [QUOTE] + Body(value[1..], 0)
    else Repeat(slashes) + [value[0]] + Body(value[1..], 0)
  }

  function Quote(value: string, space: char -> bool): string {
    if !NeedsQuotes(value, space) then value else [QUOTE] + Body(value, 0) + [QUOTE]
  }

  function Join(args: seq<string>, space: char -> bool): string {
    if args == [] then []
    else if |args| == 1 then Quote(args[0], space)
    else Join(args[..|args| - 1], space) + " " + Quote(args[|args| - 1], space)
  }

  // ---------- Taking a command line apart ----------

  /** What a quote right after the quote that closes a quoted stretch does: parsers differ. */
  datatype Dialect = Reopens | AddsQuoteAndCloses | AddsQuoteAndStays

  predicate Blank(c: char) {
    c == ' ' || c == '\t'
  }

  /** One argument and what is left: 2n backslashes before a quote are n and a delimiter, 2n + 1 are n and a quote,
      any others stand for themselves. */
  function ParseOne(line: string, quoted: bool, slashes: nat, dialect: Dialect): (string, string)
    decreases |line|
  {
    if line == [] then (Repeat(slashes), [])
    else
      var c, rest := line[0], line[1..];
      if c == '\\' then ParseOne(rest, quoted, slashes + 1, dialect)
      else if c == '\"' && slashes % 2 == 0 && quoted && rest != [] && rest[0] == '\"' && !dialect.Reopens? then
        var (arg, left) := ParseOne(rest[1..], dialect.AddsQuoteAndStays?, 0, dialect);
        (Repeat(slashes / 2) + ['\"'] + arg, left)
      else if c == '\"' then
        var (arg, left) := ParseOne(rest, if slashes % 2 == 0 then !quoted else quoted, 0, dialect);
        (Repeat(slashes / 2) + (if slashes % 2 == 0 then [] else ['\"']) + arg, left)
      else if Blank(c) && !quoted then (Repeat(slashes), line)
      else
        var (arg, left) := ParseOne(rest, quoted, 0, dialect);
        (Repeat(slashes) + [c] + arg, left)
  }

  lemma {:induction false} ParseOneShrinks(line: string, quoted: bool, slashes: nat, dialect: Dialect)
    ensures |ParseOne(line, quoted, slashes, dialect).1| <= |line|
    ensures line != [] && (!Blank(line[0]) || quoted) ==> |ParseOne(line, quoted, slashes, dialect).1| < |line|
    decreases |line|
  {
    if line != [] {
      var rest := line[1..];
      ParseOneShrinks(rest, quoted, slashes + 1, dialect);
      ParseOneShrinks(rest, quoted, 0, dialect);
      ParseOneShrinks(rest, !quoted, 0, dialect);
      if rest != [] {
        ParseOneShrinks(rest[1..], dialect.AddsQuoteAndStays?, 0, dialect);
      }
    }
  }

  /** The arguments of a command line after the program name. */
  function ParseArgs(line: string, dialect: Dialect): seq<string>
    decreases |line|
  {
    if line == [] then []
    else if Blank(line[0]) then ParseArgs(line[1..], dialect)
    else
      ParseOneShrinks(line, false, 0, dialect);
      var (arg, rest) := ParseOne(line, false, 0, dialect);
      [arg] + ParseArgs(rest, dialect)
  }

  // ---------- Quoting, then parsing ----------

  lemma {:induction false} ParseSlashes(k: nat, line: string, quoted: bool, slashes: nat, dialect: Dialect)
    ensures ParseOne(Repeat(k) + line, quoted, slashes, dialect) == ParseOne(line, quoted, slashes + k, dialect)
    decreases k
  {
    if k == 0 {
      assert Repeat(k) + line == line;
    } else {
      assert (Repeat(k) + line)[1..] == Repeat(k - 1) + line;
      ParseSlashes(k - 1, line, quoted, slashes + 1, dialect);
    }
  }

  lemma {:induction false} RepeatAdd(m: nat, n: nat)
    ensures Repeat(m) + Repeat(n) == Repeat(m + n)
  {
    if m == 0 {
      assert Repeat(m) + Repeat(n) == Repeat(n);
    } else {
      RepeatAdd(m - 1, n);
      assert Repeat(m) + Repeat(n) == [BACKSLASH] + (Repeat(m - 1) + Repeat(n));
    }
  }

  /** A place where an argument ends. */
  predicate EndsHere(tail: string) {
    tail == [] || Blank(tail[0])
  }

  lemma ParseTail(tail: string, slashes: nat, dialect: Dialect)
    requires EndsHere(tail)
    ensures ParseOne(tail, false, slashes, dialect) == (Repeat(slashes), tail)
  {}

  lemma ParseClose(n: nat, tail: string, dialect: Dialect)
    requires EndsHere(tail)
    ensures ParseOne(Repeat(n * 2) + [QUOTE] + tail, true, 0, dialect) == (Repeat(n), tail)
  {
    assert Repeat(n * 2) + [QUOTE] + tail == Repeat(n * 2) + ([QUOTE] + tail);
    ParseSlashes(n * 2, [QUOTE] + tail, true, 0, dialect);
    assert ([QUOTE] + tail)[1..] == tail;
    ParseTail(tail, 0, dialect);
    assert Repeat(n) + [] + [] == Repeat(n);
  }

  lemma ParseQuote(n: nat, more: string, dialect: Dialect)
    ensures var (arg, left) := ParseOne(more, true, 0, dialect);
            ParseOne(Repeat(n * 2 + 1) + [QUOTE] + more, true, 0, dialect) == (Repeat(n) + [QUOTE] + arg, left)
  {
    assert Repeat(n * 2 + 1) + [QUOTE] + more == Repeat(n * 2 + 1) + ([QUOTE] + more);
    ParseSlashes(n * 2 + 1, [QUOTE] + more, true, 0, dialect);
    assert ([QUOTE] + more)[1..] == more;
  }

  lemma ParsePlain(n: nat, c: char, more: string, quoted: bool, dialect: Dialect)
    requires c != BACKSLASH && c != QUOTE && (quoted || !Blank(c))
    ensures var (arg, left) := ParseOne(more, quoted, 0, dialect);
            ParseOne(Repeat(n) + [c] + more, quoted, 0, dialect) == (Repeat(n) + [c] + arg, left)
  {
    assert Repeat(n) + [c] + more == Repeat(n) + ([c] + more);
    ParseSlashes(n, [c] + more, quoted, 0, dialect);
    assert ([c] + more)[1..] == more;
  }

  /** A quoted value, the backslashes held back included, parses to itself. */
  lemma {:induction false} BodyParses(value: string, slashes: nat, tail: string, dialect: Dialect)
    requires EndsHere(tail)
    ensures ParseOne(Body(value, slashes) + [QUOTE] + tail, true, 0, dialect) == (Repeat(slashes) + value, tail)
    decreases |value|
  {
    hide ParseOne;
    if value == [] {
      ParseClose(slashes, tail, dialect);
      assert Repeat(slashes) + value == Repeat(slashes);
    } else if value[0] == BACKSLASH {
      BodyParses(value[1..], slashes + 1, tail, dialect);
      RepeatAdd(slashes, 1);
      assert Repeat(1) == [BACKSLASH];
      assert Repeat(slashes + 1) + value[1..] == Repeat(slashes) + value;
    } else {
      var more := Body(value[1..], 0) + [QUOTE] + tail;
      BodyParses(value[1..], 0, tail, dialect);
      assert Repeat(0) + value[1..] == value[1..];
      if value[0] == QUOTE {
        ParseQuote(slashes, more, dialect);
        assert Body(value, slashes) + [QUOTE] + tail == Repeat(slashes * 2 + 1) + [QUOTE] + more;
      } else {
        ParsePlain(slashes, value[0], more, true, dialect);
        assert Body(value, slashes) + [QUOTE] + tail == Repeat(slashes) + [value[0]] + more;
      }
      assert Repeat(slashes) + [value[0]] + value[1..] == Repeat(slashes) + value;
    }
  }

  predicate Bare(value: string) {
    forall c :: c in value ==> c != QUOTE && !Blank(c)
  }

  lemma BareRest(value: string)
    requires Bare(value) && value != []
    ensures Bare(value[1..]) && value[0] != QUOTE && !Blank(value[0])
  {
    assert value[0] in value;
    assert forall c :: c in value[1..] ==> c in value;
  }

  lemma BareChar(n: nat, c: char, more: string, tail: string, dialect: Dialect)
    requires c != BACKSLASH && c != QUOTE && !Blank(c)
    requires ParseOne(Repeat(0) + more + tail, false, 0, dialect) == (Repeat(0) + more, tail)
    ensures ParseOne(Repeat(n) + ([c] + more) + tail, false, 0, dialect) == (Repeat(n) + ([c] + more), tail)
  {
    hide ParseOne;
    assert Repeat(0) + more == more;
    ParsePlain(n, c, more + tail, false, dialect);
    hide Repeat;
    Pieces(Repeat(n), [c], more, tail);
  }

  lemma Pieces(a: string, b: string, c: string, d: string)
    ensures a + (b + c) + d == a + b + (c + d) && a + (b + c) == a + b + c
  {}

  lemma MoreSlashes(n: nat, more: string)
    ensures Repeat(n) + ([BACKSLASH] + more) == Repeat(n + 1) + more
  {
    RepeatAdd(n, 1);
    assert Repeat(1) == [BACKSLASH];
    assert Repeat(n) + ([BACKSLASH] + more) == Repeat(n) + [BACKSLASH] + more;
  }

  /** A value that needs no quotes, after backslashes, parses to itself. */
  lemma {:induction false} BareParses(value: string, slashes: nat, tail: string, dialect: Dialect)
    requires EndsHere(tail) && Bare(value)
    ensures ParseOne(Repeat(slashes) + value + tail, false, 0, dialect) == (Repeat(slashes) + value, tail)
    decreases |value|
  {
    hide ParseOne, Repeat;
    if value == [] {
      assert Repeat(slashes) + value + tail == Repeat(slashes) + tail && Repeat(slashes) + value == Repeat(slashes);
      ParseSlashes(slashes, tail, false, 0, dialect);
      ParseTail(tail, slashes, dialect);
    } else {
      var more := value[1..];
      BareRest(value);
      assert value == [value[0]] + more;
      hide Bare, EndsHere;
      if value[0] == BACKSLASH {
        BareParses(more, slashes + 1, tail, dialect);
        MoreSlashes(slashes, more);
      } else {
        BareParses(more, 0, tail, dialect);
        BareChar(slashes, value[0], more, tail, dialect);
      }
    }
  }

  /** A quoted argument followed by a blank or the end parses to the argument. */
  lemma {:induction false} QuotedParses(value: string, tail: string, space: char -> bool, dialect: Dialect)
    requires SpaceClass(space) && EndsHere(tail)
    ensures ParseOne(Quote(value, space) + tail, false, 0, dialect) == (value, tail)
    ensures Quote(value, space) != [] && !Blank(Quote(value, space)[0])
  {
    if NeedsQuotes(value, space) {
      var inner := Body(value, 0) + [QUOTE] + tail;
      assert Quote(value, space) + tail == [QUOTE] + inner;
      assert ([QUOTE] + inner)[1..] == inner;
      BodyParses(value, 0, tail, dialect);
      assert Repeat(0) + value == value;
      assert [] + [] + value == value;
    } else {
      assert value[0] in value;
      BareParses(value, 0, tail, dialect);
      assert Repeat(0) + value == value && Repeat(0) + value + tail == value + tail;
    }
  }

  lemma ArgumentThenRest(value: string, tail: string, space: char -> bool, dialect: Dialect)
    requires SpaceClass(space) && EndsHere(tail)
    ensures ParseArgs(Quote(value, space) + tail, dialect) == [value] + ParseArgs(tail, dialect)
  {
    QuotedParses(value, tail, space, dialect);
    hide ParseOne, Quote;
    assert (Quote(value, space) + tail)[0] == Quote(value, space)[0];
  }

  lemma BlankThenRest(line: string, dialect: Dialect)
    ensures ParseArgs(" " + line, dialect) == ParseArgs(line, dialect)
  {
    hide ParseOne;
    assert (" " + line)[1..] == line;
  }

  /** The line with more text after it. */
  lemma {:induction false} JoinParses(args: seq<string>, tail: string, space: char -> bool, dialect: Dialect)
    requires SpaceClass(space) && EndsHere(tail) && args != []
    ensures ParseArgs(Join(args, space) + tail, dialect) == args + ParseArgs(tail, dialect)
    decreases |args|
  {
    hide ParseArgs, Quote, SpaceClass;
    var n := |args| - 1;
    ArgumentThenRest(args[n], tail, space, dialect);
    if n > 0 {
      var after := " " + (Quote(args[n], space) + tail);
      assert Join(args, space) + tail == Join(args[..n], space) + after;
      JoinParses(args[..n], after, space, dialect);
      BlankThenRest(Quote(args[n], space) + tail, dialect);
      assert args == args[..n] + [args[n]];
    }
  }

  /** For every list of arguments: joined, quoted and taken apart again, it is the same list. */
  lemma {:induction false} CommandLineRoundTrip(args: seq<string>, space: char -> bool, dialect: Dialect)
    requires SpaceClass(space)
    ensures ParseArgs(Join(args, space), dialect) == args
  {
    if args != [] {
      JoinParses(args, [], space, dialect);
      assert Join(args, space) + [] == Join(args, space);
      assert args + ParseArgs([], dialect) == args;
    }
  }

  // ---------- The two implementations ----------

  method HasSpaceOrQuote(value: string, space: char -> bool) returns (found: bool)
    ensures found <==> exists c :: c in value && (c == QUOTE || space(c))
  {
    for i := 0 to |value|
      invariant forall c :: c in value[..i] ==> c != QUOTE && !space(c)
    {
      if value[i] == QUOTE || space(value[i]) {
        assert value[i] in value;
        return true;
      }
      assert value[..i + 1] == value[..i] + [value[i]];
    }
    assert value[..|value|] == value;
    found := false;
  }

  lemma BodyStep(value: string, i: nat, slashes: nat)
    requires i < |value|
    ensures Body(value[i..], slashes) ==
            if value[i] == BACKSLASH then Body(value[i + 1..], slashes + 1)
            else if value[i] == QUOTE then Repeat(slashes * 2 + 1) + [QUOTE] + Body(value[i + 1..], 0)
            else Repeat(slashes) + [value[i]] + Body(value[i + 1..], 0)
  {
    assert value[i..][1..] == value[i + 1..];
  }

  /** quoteWindowsCommandLineArg */
  method QuoteWindowsCommandLineArg(value: string, space: char -> bool) returns (quoted: string)
    ensures quoted == Quote(value, space)
  {
    var found := HasSpaceOrQuote(value, space);
    if |value| > 0 && !found {
      return value;
    }
    quoted := [QUOTE];
    var backslashes := 0;
    assert value[0..] == value;
    for i := 0 to |value|
      invariant 0 <= backslashes && quoted + Body(value[i..], backslashes) == [QUOTE] + Body(value, 0)
    {
      BodyStep(value, i, backslashes);
      hide Body;
      ghost var rest := Body(value[i + 1..], 0);
      if value[i] == BACKSLASH {
        backslashes := backslashes + 1;
      } else if value[i] == QUOTE {
        assert quoted + (Repeat(backslashes * 2 + 1) + [QUOTE] + rest) ==
            quoted + (Repeat(backslashes * 2 + 1) + [QUOTE]) + rest;
        quoted := quoted + (Repeat(backslashes * 2 + 1) + [QUOTE]);
        backslashes := 0;
      } else {
        assert quoted + (Repeat(backslashes) + [value[i]] + rest) == quoted + (Repeat(backslashes) + [value[i]]) + rest;
        quoted := quoted + (Repeat(backslashes) + [value[i]]);
        backslashes := 0;
      }
    }
    assert Body(value[|value|..], backslashes) == Repeat(backslashes * 2);
    quoted := quoted + Repeat(backslashes * 2) + [QUOTE];
  }

  /** The worker's Quote: the count of backslashes and the character are appended in one place. */
  method WorkerQuote(value: string, space: char -> bool) returns (result: string)
    ensures result == Quote(value, space)
  {
    var found := HasSpaceOrQuote(value, space);
    if |value| > 0 && !found {
      return value;
    }
    result := [QUOTE];
    var slashes := 0;
    assert value[0..] == value;
    for i := 0 to |value|
      invariant 0 <= slashes && result + Body(value[i..], slashes) == [QUOTE] + Body(value, 0)
    {
      BodyStep(value, i, slashes);
      hide Body;
      if value[i] == BACKSLASH {
        slashes := slashes + 1;
        continue;
      }
      var held := if value[i] == QUOTE then slashes * 2 + 1 else slashes;
      ghost var rest := Body(value[i + 1..], 0);
      assert result + (Repeat(held) + [value[i]] + rest) == result + Repeat(held) + [value[i]] + rest;
      result := result + Repeat(held) + [value[i]];
      slashes := 0;
    }
    assert Body(value[|value|..], slashes) == Repeat(slashes * 2);
    result := result + Repeat(slashes * 2) + [QUOTE];
  }

  /** The worker's command line, argument by argument. */
  method WorkerCommandLine(executable: string, args: seq<string>, space: char -> bool) returns (command: string)
    ensures command == Join([executable] + args, space)
  {
    hide Quote;
    command := WorkerQuote(executable, space);
    ghost var all := [executable] + args;
    assert all[..1] == [executable];
    for i := 0 to |args|
      invariant command == Join(all[..i + 1], space)
    {
      var quoted := WorkerQuote(args[i], space);
      command := command + " " + quoted;
      assert all[..i + 2][..i + 1] == all[..i + 1] && all[i + 1] == args[i];
    }
    assert all[..|args| + 1] == all;
  }
}
