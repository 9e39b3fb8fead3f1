/** Building a command line (quote_argument and its call site) against the published rules by which
    a C program's arguments are parsed from one. */
module CommandLine {
  import opened Texts

  const TAB: char := '\t'
  const LINE_FEED: char := '\n'
  const VERTICAL_TAB: char := '\U{0B}'
  const QUOTE: char := '\"'
  const BACKSLASH: char := '\\'

  // The characters that make quote_argument quote an argument.
  predicate NeedsQuoting(c: char) {
    c == ' ' || c == TAB || c == LINE_FEED || c == VERTICAL_TAB || c == QUOTE
  }

  predicate Plain(arg: Text) {
    arg != [] && forall i :: 0 <= i < |arg| ==> !NeedsQuoting(arg[i])
  }

  function Backslashes(n: nat): (s: Text)
    ensures |s| == n
  {
    if n == 0 then [] else [BACKSLASH] + Backslashes(n - 1)
  }

  /* What quote_argument appends */

  // How many backslashes s starts with.
  function Run(s: Text): (n: nat)
    ensures n <= |s|
  {
    if s != [] && s[0] == BACKSLASH then 1 + Run(s[1..]) else 0
  }

  // What one turn of the quoting loop appends: a run of backslashes and the character after it, if any.
  function Piece(arg: Text): Text {
    var n := Run(arg);
    if n == |arg| then Backslashes(2 * n)
    else (if arg[n] == QUOTE then Backslashes(2 * n + 1) else Backslashes(n)) + [arg[n]]
  }

  // The inside of a quoted argument.
  function Escaped(arg: Text): Text
    decreases |arg|
  {
    if Run(arg) == |arg| then Piece(arg) else Piece(arg) + Escaped(arg[Run(arg) + 1..])
  }

  function Quoted(arg: Text, force: bool): Text {
    if !force && Plain(arg) then arg else [QUOTE] + Escaped(arg) + [QUOTE]
  }

  function Line(args: seq<Text>, force: bool): Text {
    if args == [] then [] else Line(args[..|args| - 1], force) + Quoted(args[|args| - 1], force) + " "
  }

  /* The parsing rules of "Parsing C command-line arguments" for ordinary arguments */

  predicate Delimits(c: char) {
    c == ' ' || c == TAB
  }

  // One argument and what follows it; `quoted` says whether the position is inside a quoted string.
  function ParseArgument(s: Text, quoted: bool): (r: (Text, Text))
    ensures |r.1| <= |s|
    decreases |s|
  {
    var n := Run(s);
    if s == [] then ([], [])
    else if n > 0 then
      // Backslashes are literal unless they stand before a quotation mark; there, each pair of them is one
      // backslash, and an odd one makes the mark literal.
      var marked := n < |s| && s[n] == QUOTE;
      var odd := marked && n % 2 == 1;
      var (arg, rest) := ParseArgument(if odd then s[n + 1..] else s[n..], quoted);
      (Backslashes(if marked then n / 2 else n) + (if odd then [QUOTE] else []) + arg, rest)
    else if s[0] == QUOTE then
      // A pair of quotation marks inside a quoted string is one literal mark; any other mark begins or ends the string.
      if quoted && |s| > 1 && s[1] == QUOTE then
        var (arg, rest) := ParseArgument(s[2..], true);
        ([QUOTE] + arg, rest)
      else ParseArgument(s[1..], !quoted)
    else if !quoted && Delimits(s[0]) then ([], s)
    else
      var (arg, rest) := ParseArgument(s[1..], quoted);
      ([s[0]] + arg, rest)
  }

  function SkipDelimiters(s: Text): (t: Text)
    ensures |t| <= |s| && (t == [] || !Delimits(t[0]))
  {
    if s != [] && Delimits(s[0]) then SkipDelimiters(s[1..]) else s
  }

  lemma ParseArgumentAdvances(s: Text)
    requires s != [] && !Delimits(s[0])
    ensures |ParseArgument(s, false).1| < |s|
  {
  }

  function Parse(s: Text): seq<Text>
    decreases |s|
  {
    var t := SkipDelimiters(s);
    if t == [] then []
    else
      ParseArgumentAdvances(t);
      var (arg, rest) := ParseArgument(t, false);
      [arg] + Parse(rest)
  }

  /* Round trip */

  lemma {:induction false} RunOfBackslashes(n: nat, s: Text)
    requires s == [] || s[0] != BACKSLASH
    ensures Run(Backslashes(n) + s) == n
  {
    if n > 0 {
      assert (Backslashes(n) + s)[1..] == Backslashes(n - 1) + s;
      RunOfBackslashes(n - 1, s);
    } else {
      assert Backslashes(n) + s == s;
    }
  }

  lemma {:induction false} RunSplits(s: Text)
    ensures s[..Run(s)] == Backslashes(Run(s))
    ensures Run(s) < |s| ==> s[Run(s)] != BACKSLASH
  {
    if s != [] && s[0] == BACKSLASH {
      RunSplits(s[1..]);
      assert s[..Run(s)] == [BACKSLASH] + s[1..][..Run(s[1..])];
    }
  }

  // One round of the parser at a run of n backslashes.
  lemma ParseRun(n: nat, s: Text, quoted: bool)
    requires n > 0 && s != [] && s[0] != BACKSLASH
    ensures var marked := s[0] == QUOTE;
            var odd := marked && n % 2 == 1;
            var (arg, rest) := ParseArgument(if odd then s[1..] else s, quoted);
            ParseArgument(Backslashes(n) + s, quoted)
            == (Backslashes(if marked then n / 2 else n) + (if odd then [QUOTE] else []) + arg, rest)
  {
    var t := Backslashes(n) + s;
    RunOfBackslashes(n, s);
    assert t[n] == s[0] && t[n..] == s && t[n + 1..] == s[1..];
  }

  // Backslashes that do not stand before a quotation mark.
  lemma LiteralBackslashes(n: nat, s: Text, quoted: bool)
    requires s != [] && s[0] != BACKSLASH && s[0] != QUOTE
    ensures var (arg, rest) := ParseArgument(s, quoted);
            ParseArgument(Backslashes(n) + s, quoted) == (Backslashes(n) + arg, rest)
  {
    var arg := ParseArgument(s, quoted).0;
    if n == 0 {
      assert Backslashes(n) + s == s && Backslashes(n) + arg == arg;
    } else {
      ParseRun(n, s, quoted);
      assert Backslashes(n) + [] + arg == Backslashes(n) + arg;
    }
  }

  // Backslashes before a quotation mark: a literal mark.
  lemma EscapedMark(n: nat, s: Text, quoted: bool)
    ensures var (arg, rest) := ParseArgument(s, quoted);
            ParseArgument(Backslashes(2 * n + 1) + ([QUOTE] + s), quoted) == (Backslashes(n) + [QUOTE] + arg, rest)
  {
    var m := 2 * n + 1;
    assert m / 2 == n && m % 2 == 1;
    assert ([QUOTE] + s)[1..] == s;
    ParseRun(m, [QUOTE] + s, quoted);
  }

  // Backslashes before a quotation mark that ends the string and the argument.
  lemma ClosingMark(n: nat, tail: Text)
    requires tail != [] && Delimits(tail[0])
    ensures ParseArgument(Backslashes(2 * n) + ([QUOTE] + tail), true) == (Backslashes(n), tail)
  {
    assert ([QUOTE] + tail)[1..] == tail;
    assert ParseArgument(tail, false) == ([], tail);
    assert ParseArgument([QUOTE] + tail, true) == ([], tail);
    if n == 0 {
      assert Backslashes(2 * n) + ([QUOTE] + tail) == [QUOTE] + tail;
    } else {
      var m := 2 * n;
      assert m / 2 == n && m % 2 == 0;
      ParseRun(m, [QUOTE] + tail, true);
      assert Backslashes(n) + [] + [] == Backslashes(n);
    }
  }

  // An ordinary character, and any character but the closing mark inside a quoted string, stands for itself.
  lemma LiteralCharacter(c: char, s: Text, quoted: bool)
    requires c != BACKSLASH && c != QUOTE && (quoted || !Delimits(c))
    ensures var (arg, rest) := ParseArgument(s, quoted); ParseArgument([c] + s, quoted) == ([c] + arg, rest)
  {
    assert ([c] + s)[1..] == s;
  }

  lemma Assoc(a: Text, b: Text, c: Text)
    ensures a + b + c == a + (b + c)
  {
  }

  lemma Regroup(a: Text, b: Text, c: Text, d: Text)
    ensures a + b + c + d == a + (b + (c + d))
  {
  }

  lemma MarkParsesBack(n: nat, escaped: Text, rest: Text, end: Text, tail: Text)
    requires ParseArgument(escaped + end, true) == (rest, tail)
    ensures ParseArgument(Backslashes(2 * n + 1) + [QUOTE] + escaped + end, true)
         == (Backslashes(n) + [QUOTE] + rest, tail)
  {
    Regroup(Backslashes(2 * n + 1), [QUOTE], escaped, end);
    EscapedMark(n, escaped + end, true);
  }

  lemma CharacterParsesBack(n: nat, c: char, escaped: Text, rest: Text, end: Text, tail: Text, quoted: bool)
    requires c != BACKSLASH && c != QUOTE && (quoted || !Delimits(c))
    requires ParseArgument(escaped + end, quoted) == (rest, tail)
    ensures ParseArgument(Backslashes(n) + [c] + escaped + end, quoted) == (Backslashes(n) + [c] + rest, tail)
  {
    Regroup(Backslashes(n), [c], escaped, end);
    LiteralCharacter(c, escaped + end, quoted);
    LiteralBackslashes(n, [c] + (escaped + end), quoted);
    Assoc(Backslashes(n), [c], rest);
  }

  lemma {:induction false} EscapedParsesBack(arg: Text, tail: Text)
    requires tail != [] && Delimits(tail[0])
    ensures ParseArgument(Escaped(arg) + ([QUOTE] + tail), true) == (arg, tail)
    decreases |arg|
  {
    var n := Run(arg);
    RunSplits(arg);
    if n == |arg| {
      assert arg == arg[..n];
      ClosingMark(n, tail);
    } else {
      var c, rest := arg[n], arg[n + 1..];
      assert arg == Backslashes(n) + [c] + rest;
      EscapedParsesBack(rest, tail);
      if c == QUOTE {
        MarkParsesBack(n, Escaped(rest), rest, [QUOTE] + tail, tail);
      } else {
        CharacterParsesBack(n, c, Escaped(rest), rest, [QUOTE] + tail, tail, true);
      }
    }
  }

  lemma {:induction false} PlainParsesBack(arg: Text, tail: Text)
    requires forall i :: 0 <= i < |arg| ==> !NeedsQuoting(arg[i])
    requires tail != [] && Delimits(tail[0])
    ensures ParseArgument(arg + tail, false) == (arg, tail)
    decreases |arg|
  {
    var n := Run(arg);
    RunSplits(arg);
    if n == |arg| {
      assert arg == arg[..n];
      assert ParseArgument(tail, false) == ([], tail);
      LiteralBackslashes(n, tail, false);
      assert Backslashes(n) + [] == arg;
    } else {
      var c, rest := arg[n], arg[n + 1..];
      assert arg == Backslashes(n) + [c] + rest;
      PlainParsesBack(rest, tail);
      CharacterParsesBack(n, c, rest, rest, tail, tail, false);
    }
  }

  lemma QuotedParsesBack(arg: Text, force: bool, tail: Text)
    requires tail != [] && Delimits(tail[0])
    ensures ParseArgument(Quoted(arg, force) + tail, false) == (arg, tail)
  {
    if !force && Plain(arg) {
      PlainParsesBack(arg, tail);
    } else {
      var inner := Escaped(arg) + ([QUOTE] + tail);
      assert Quoted(arg, force) + tail == [QUOTE] + inner;
      assert ([QUOTE] + inner)[1..] == inner;
      EscapedParsesBack(arg, tail);
    }
  }

  lemma {:induction false} LineCons(arg: Text, args: seq<Text>, force: bool)
    ensures Line([arg] + args, force) == Quoted(arg, force) + " " + Line(args, force)
  {
    var all := [arg] + args;
    if args == [] {
      assert all[..|all| - 1] == [];
      assert Line(all, force) == [] + Quoted(arg, force) + " ";
    } else {
      var front, last := args[..|args| - 1], args[|args| - 1];
      assert all[..|all| - 1] == [arg] + front;
      LineCons(arg, front, force);
      var head := Quoted(arg, force) + " ";
      var line, end := Line(front, force), Quoted(last, force);
      assert Line(all, force) == (head + line) + end + " ";
      assert (head + line) + end == head + (line + end);
      assert head + (line + end) + " " == head + (line + end + " ");
    }
  }

  lemma {:induction false} LineParsesBack(args: seq<Text>, force: bool)
    ensures Parse(Line(args, force)) == args
  {
    if args != [] {
      var arg, rest := args[0], args[1..];
      assert args == [arg] + rest;
      var tail := " " + Line(rest, force);
      LineCons(arg, rest, force);
      assert Line(args, force) == Quoted(arg, force) + tail;
      QuotedParsesBack(arg, force, tail);
      assert tail[1..] == Line(rest, force);
      assert Parse(tail) == Parse(Line(rest, force));
      LineParsesBack(rest, force);
    }
  }

  /* The command line is passed on as a C string */

  function CString(s: Text): Text {
    if s == [] || s[0] == NUL then [] else [s[0]] + CString(s[1..])
  }

  predicate NulFree(s: Text) {
    NUL !in s
  }

  lemma {:induction false} CStringIsNulFree(s: Text)
    ensures NulFree(CString(s)) && (NulFree(s) ==> CString(s) == s)
  {
    if s != [] && s[0] != NUL {
      CStringIsNulFree(s[1..]);
    }
  }

  lemma {:induction false} BackslashesNulFree(n: nat)
    ensures NulFree(Backslashes(n))
  {
    if n > 0 {
      BackslashesNulFree(n - 1);
    }
  }

  lemma {:induction false} EscapedNulFree(arg: Text)
    requires NulFree(arg)
    ensures NulFree(Escaped(arg))
    decreases |arg|
  {
    var n := Run(arg);
    BackslashesNulFree(n);
    BackslashesNulFree(2 * n);
    BackslashesNulFree(2 * n + 1);
    if n < |arg| {
      EscapedNulFree(arg[n + 1..]);
    }
  }

  lemma {:induction false} LineNulFree(args: seq<Text>, force: bool)
    requires forall i :: 0 <= i < |args| ==> NulFree(args[i])
    ensures NulFree(Line(args, force))
  {
    if args != [] {
      LineNulFree(args[..|args| - 1], force);
      EscapedNulFree(args[|args| - 1]);
    }
  }

  // What the parser makes of a run of backslashes, and what follows.
  lemma RunNulFree(n: nat, odd: bool, arg: Text)
    requires NulFree(arg)
    ensures NulFree(Backslashes(n) + (if odd then [QUOTE] else []) + arg)
  {
    BackslashesNulFree(n);
  }

  lemma {:induction false} ParseArgumentNulFree(s: Text, quoted: bool)
    requires NulFree(s)
    ensures NulFree(ParseArgument(s, quoted).0) && NulFree(ParseArgument(s, quoted).1)
    decreases |s|
  {
    var n := Run(s);
    if s == [] {
    } else if n > 0 {
      var marked := n < |s| && s[n] == QUOTE;
      var odd := marked && n % 2 == 1;
      var rest := if odd then s[n + 1..] else s[n..];
      ParseArgumentNulFree(rest, quoted);
      RunNulFree(if marked then n / 2 else n, odd, ParseArgument(rest, quoted).0);
    } else if s[0] == QUOTE {
      if quoted && |s| > 1 && s[1] == QUOTE {
        ParseArgumentNulFree(s[2..], true);
      } else {
        ParseArgumentNulFree(s[1..], !quoted);
      }
    } else if quoted || !Delimits(s[0]) {
      ParseArgumentNulFree(s[1..], quoted);
    }
  }

  lemma {:induction false} SkipNulFree(s: Text)
    requires NulFree(s)
    ensures NulFree(SkipDelimiters(s))
  {
    if s != [] && Delimits(s[0]) {
      SkipNulFree(s[1..]);
    }
  }

  lemma {:induction false} ParsedNulFree(s: Text)
    requires NulFree(s)
    ensures forall i :: 0 <= i < |Parse(s)| ==> NulFree(Parse(s)[i])
    decreases |s|
  {
    var t := SkipDelimiters(s);
    SkipNulFree(s);
    if t != [] {
      ParseArgumentNulFree(t, false);
      ParseArgumentAdvances(t);
      ParsedNulFree(ParseArgument(t, false).1);
    }
  }

  /** Quoting round trip: parsing the command line gives the arguments back, with or without `force` and whatever empty
      arguments, blanks, quotation marks and backslashes they hold, exactly when no argument contains a NUL. */
  lemma RoundTrip(args: seq<Text>, force: bool)
    ensures Parse(CString(Line(args, force))) == args <==> forall i :: 0 <= i < |args| ==> NulFree(args[i])
  {
    CStringIsNulFree(Line(args, force));
    ParsedNulFree(CString(Line(args, force)));
    if forall i :: 0 <= i < |args| ==> NulFree(args[i]) {
      LineNulFree(args, force);
      LineParsesBack(args, force);
    }
  }

  /* What the line looks like */

  lemma {:induction false} EscapedIsLonger(arg: Text)
    ensures |Escaped(arg)| >= |arg|
    decreases |arg|
  {
    if Run(arg) < |arg| {
      EscapedIsLonger(arg[Run(arg) + 1..]);
    }
  }

  /** An argument is left as it is exactly when quoting is not forced and it is not empty and holds no blank, tab, line
      feed, vertical tab or quotation mark; any other stands between quotation marks. */
  lemma LeftAloneExactlyThen(arg: Text, force: bool)
    ensures Quoted(arg, force) == arg <==>
              && !force && arg != ""
              && forall i :: 0 <= i < |arg| ==>
                   arg[i] != ' ' && arg[i] != '\t' && arg[i] != '\n' && arg[i] != '\U{0B}' && arg[i] != '\"'
    ensures Quoted(arg, force) != arg ==> Quoted(arg, force) == "\"" + Escaped(arg) + "\""
  {
    EscapedIsLonger(arg);
  }

  /** Between quotation marks, an argument that holds no mark and no backslash is left as it is. */
  lemma {:induction false} NothingToEscape(arg: Text)
    requires forall i :: 0 <= i < |arg| ==> arg[i] != '\"' && arg[i] != '\\'
    ensures Escaped(arg) == arg
  {
    if arg != [] {
      NothingToEscape(arg[1..]);
      assert Piece(arg) == arg[..1];
    }
  }

  lemma {:induction false} BackslashesAre(n: nat)
    ensures forall i :: 0 <= i < n ==> Backslashes(n)[i] == '\\'
  {
    if n > 0 {
      BackslashesAre(n - 1);
    }
  }

  /** A run of backslashes is doubled at the end of the argument and before a mark, which gets one more, and is left as
      it is before any other character. */
  lemma RunsAreEscaped(n: nat, c: char, rest: Text)
    requires c != '\\'
    ensures Escaped(Backslashes(n)) == Backslashes(2 * n)
    ensures Escaped(Backslashes(n) + [c] + rest)
         == Backslashes(if c == '\"' then 2 * n + 1 else n) + [c] + Escaped(rest)
  {
    RunOfBackslashes(n, []);
    assert Backslashes(n) + [] == Backslashes(n);
    var arg := Backslashes(n) + ([c] + rest);
    RunOfBackslashes(n, [c] + rest);
    assert Backslashes(n) + [c] + rest == arg && arg[n] == c && arg[n + 1..] == rest;
  }

  // The words, each followed by one blank.
  function Spaced(words: seq<Text>): Text {
    if words == [] then "" else words[0] + " " + Spaced(words[1..])
  }

  lemma {:induction false} SpacedSnoc(words: seq<Text>, word: Text)
    ensures Spaced(words + [word]) == Spaced(words) + word + " "
  {
    if words == [] {
      assert [word][1..] == [];
    } else {
      SpacedSnoc(words[1..], word);
      assert (words + [word])[1..] == words[1..] + [word];
      Assoc(words[0] + " ", Spaced(words[1..]), word + " ");
    }
  }

  /** The line is the quoted arguments in their order, each followed by one blank. */
  lemma {:induction false} LineIsSpaced(args: seq<Text>, words: seq<Text>, force: bool)
    requires |args| == |words| && forall i :: 0 <= i < |args| ==> words[i] == Quoted(args[i], force)
    ensures Line(args, force) == Spaced(words)
  {
    if args != [] {
      var n := |args| - 1;
      LineIsSpaced(args[..n], words[..n], force);
      SpacedSnoc(words[..n], words[n]);
      assert words == words[..n] + [words[n]];
    }
  }

  /* The loops of the program */

  method CountBackslashes(argument: Text, start: nat) returns (it: nat)
    requires start <= |argument|
    ensures it == start + Run(argument[start..])
  {
    it := start;
    while it < |argument| && argument[it] == BACKSLASH
      invariant start <= it <= |argument|
      invariant Run(argument[start..]) == it - start + Run(argument[it..])
    {
      assert argument[it..][1..] == argument[it + 1..];
      it := it + 1;
    }
  }

  // The body of the quoting loop, for the argument from `start` on.
  method AppendPiece(argument: Text, start: nat, line: Text) returns (longer: Text, next: nat, atEnd: bool)
    requires start <= |argument|
    ensures longer == line + Piece(argument[start..])
    ensures var n := Run(argument[start..]);
            atEnd == (start + n == |argument|) && next == start + n + if atEnd then 0 else 1
  {
    ghost var rest := argument[start..];
    next := CountBackslashes(argument, start);
    var backslashes := next - start;
    atEnd := next == |argument|;
    if atEnd {
      longer := line + Backslashes(2 * backslashes);
    } else {
      assert rest[backslashes] == argument[next];
      var escapes := if argument[next] == QUOTE then 2 * backslashes + 1 else backslashes;
      Assoc(line, Backslashes(escapes), [argument[next]]);
      longer := line + Backslashes(escapes);
      longer := longer + [argument[next]];
      next := next + 1;
    }
  }

  // One turn of the quoting loop moves a piece of what is still to come to the line.
  lemma NextPiece(argument: Text, start: nat, line: Text, longer: Text, next: nat, atEnd: bool)
    requires start <= |argument| && longer == line + Piece(argument[start..])
    requires atEnd == (start + Run(argument[start..]) == |argument|)
    requires next == start + Run(argument[start..]) + if atEnd then 0 else 1
    ensures line + Escaped(argument[start..]) == if atEnd then longer else longer + Escaped(argument[next..])
  {
    if !atEnd {
      assert argument[start..][next - start..] == argument[next..];
      Assoc(line, Piece(argument[start..]), Escaped(argument[next..]));
    }
  }

  // The quoting loop.
  method AppendEscaped(argument: Text, line: Text) returns (longer: Text)
    ensures longer == line + Escaped(argument)
  {
    longer := line;
    var it, atEnd := 0, false;
    assert argument[it..] == argument;
    while !atEnd
      invariant it <= |argument|
      invariant line + Escaped(argument) == if atEnd then longer else longer + Escaped(argument[it..])
      decreases !atEnd, |argument| - it
    {
      ghost var from, before := it, longer;
      longer, it, atEnd := AppendPiece(argument, it, longer);
      NextPiece(argument, from, before, longer, it, atEnd);
    }
  }

  method QuoteArgument(argument: Text, commandLine: Text, force: bool) returns (line: Text)
    ensures line == commandLine + Quoted(argument, force)
  {
    if !force && Plain(argument) {
      line := commandLine + argument;
    } else {
      line := commandLine + [QUOTE];
      line := AppendEscaped(argument, line);
      line := line + [QUOTE];
      Enclosed(commandLine, Escaped(argument));
    }
  }

  lemma Enclosed(a: Text, b: Text)
    ensures a + [QUOTE] + b + [QUOTE] == a + ([QUOTE] + b + [QUOTE])
  {
  }

  // The loop of execute_process over the arguments.
  method BuildCommandLine(args: seq<Text>) returns (line: Text)
    ensures line == Line(args, false)
  {
    line := [];
    for i := 0 to |args|
      invariant line == Line(args[..i], false)
    {
      assert args[..i + 1][..i] == args[..i];
      line := QuoteArgument(args[i], line, false);
      line := line + " ";
    }
    assert args[..|args|] == args;
  }
}
