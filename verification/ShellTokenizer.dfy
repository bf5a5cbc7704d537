/** Splitting a command line into tokens: shell_tokenize in `src/cmd/cmd.cpp`. */
module ShellTokenizer {
  import opened Strings

  predicate IsQuote(c: char) {
    c == '\'' || c == '"'
  }

  datatype Mode = Normal | SingleQuoted | DoubleQuoted | Escaped

  /** The variables of the loop: the mode, the token being built and the tokens pushed. */
  datatype Lexer = Lexer(mode: Mode, cur: string, out: seq<string>)

  const START := Lexer(Normal, "", [])

  /** Ends the token being built, if any. */
  function Flush(l: Lexer): Lexer {
    if l.cur == "" then l else l.(cur := "", out := l.out + [l.cur])
  }

  /** One character. A backslash outside quotes stands for itself: the mode it sets consumes the backslash. */
  function Feed(l: Lexer, ch: char): Lexer {
    match l.mode
    case SingleQuoted => if ch == '\'' then l.(mode := Normal) else l.(cur := l.cur + [ch])
    case DoubleQuoted => if ch == '"' then l.(mode := Normal) else l.(cur := l.cur + [ch])
    case _ =>
      if IsSpace(ch) then Flush(l)
      else if ch == '\'' then l.(mode := SingleQuoted)
      else if ch == '"' then l.(mode := DoubleQuoted)
      else l.(cur := l.cur + [ch])
  }

  function FeedAll(l: Lexer, s: string): Lexer {
    if s == "" then l else Feed(FeedAll(l, s[..|s| - 1]), s[|s| - 1])
  }

  function Tokenized(s: string): seq<string> {
    Flush(FeedAll(START, s)).out
  }

  lemma {:induction false} NeverEscaped(l: Lexer, s: string)
    requires !l.mode.Escaped?
    ensures !FeedAll(l, s).mode.Escaped?
  {
    if s != "" {
      NeverEscaped(l, s[..|s| - 1]);
    }
  }

  /** shell_tokenize appends the tokens of `str` to `output`. */
  method ShellTokenize(str: string, output: seq<string>) returns (out: seq<string>)
    ensures out == output + Tokenized(str)
  {
    out := output;
    var curStr := "";
    var mode := Normal;
    ghost var l := START;
    for i := 0 to |str|
      invariant l == FeedAll(START, str[..i])
      invariant mode == l.mode && !mode.Escaped? && curStr == l.cur && out == output + l.out
    {
      var ch := str[i];
      if mode == Normal {
        if IsSpace(ch) {
          if curStr != "" {
            out := out + [curStr];
            curStr := "";
          }
        } else if ch == '\\' {
          mode := Escaped;
        } else if ch == '\'' {
          mode := SingleQuoted;
        } else if ch == '"' {
          mode := DoubleQuoted;
        } else {
          curStr := curStr + [ch];
        }
      } else if mode == SingleQuoted {
        if ch == '\'' {
          mode := Normal;
        } else {
          curStr := curStr + [ch];
        }
      } else if mode == DoubleQuoted {
        if ch == '"' {
          mode := Normal;
        } else {
          curStr := curStr + [ch];
        }
      }
      if mode == Escaped {
        curStr := curStr + [ch];
        mode := Normal;
      }
      assert str[..i + 1][..i] == str[..i];
      l := Feed(l, ch);
    }
    assert str[..|str|] == str;
    if curStr != "" {
      out := out + [curStr];
    }
  }

  // ---- Composition ----

  lemma {:induction false} FeedAppend(l: Lexer, a: string, b: string)
    ensures FeedAll(l, a + b) == FeedAll(FeedAll(l, a), b)
  {
    if b == "" {
      assert a + b == a;
    } else {
      assert (a + b)[..|a + b| - 1] == a + b[..|b| - 1];
      FeedAppend(l, a, b[..|b| - 1]);
    }
  }

  /** Tokens pushed earlier make no difference to what is pushed later. */
  lemma {:induction false} EarlierTokens(l: Lexer, before: seq<string>, s: string)
    ensures FeedAll(l.(out := before + l.out), s) == (var r := FeedAll(l, s); r.(out := before + r.out))
  {
    if s != "" {
      EarlierTokens(l, before, s[..|s| - 1]);
      var r := FeedAll(l, s[..|s| - 1]);
      assert before + r.out + [r.cur] == before + (r.out + [r.cur]);
    }
  }

  predicate EndsOutsideQuotes(s: string) {
    FeedAll(START, s).mode.Normal?
  }

  /** Tokenizing two texts with white space between them is tokenizing each, if the first ends outside quotes. */
  lemma TokenizeConcatenation(a: string, ws: char, b: string)
    requires EndsOutsideQuotes(a) && IsSpace(ws)
    ensures Tokenized(a + [ws] + b) == Tokenized(a) + Tokenized(b)
    ensures EndsOutsideQuotes(a + [ws] + b) <==> EndsOutsideQuotes(b)
  {
    FeedAppend(START, a + [ws], b);
    AfterSpace(a, ws);
    EarlierTokens(START, Tokenized(a), b);
    FlushBehind(Tokenized(a), FeedAll(START, b));
  }

  lemma FlushBehind(before: seq<string>, l: Lexer)
    ensures Flush(l.(out := before + l.out)).out == before + Flush(l).out
  {
    assert before + l.out + [l.cur] == before + (l.out + [l.cur]);
  }

  /** White space outside quotes ends the token, and reading starts afresh. */
  lemma AfterSpace(a: string, ws: char)
    requires EndsOutsideQuotes(a) && IsSpace(ws)
    ensures FeedAll(START, a + [ws]) == START.(out := Tokenized(a) + [])
  {
    assert (a + [ws])[..|a|] == a;
  }

  // ---- Joining with spaces, as the TIMER command does ----

  function Join(args: seq<string>): string {
    if args == [] then ""
    else if |args| == 1 then args[0]
    else Join(args[..|args| - 1]) + " " + args[|args| - 1]
  }

  /** The loop in cmd_timer over the arguments from index 1 on. */
  method JoinArguments(params: seq<string>) returns (cmdStr: string)
    requires params != []
    ensures cmdStr == Join(params[1..])
  {
    cmdStr := "";
    for i := 1 to |params|
      invariant cmdStr == (if 1 < i < |params| then Join(params[1..i]) + " " else Join(params[1..i]))
    {
      assert params[1..i + 1][..i - 1] == params[1..i];
      cmdStr := cmdStr + params[i];
      if i + 1 < |params| {
        cmdStr := cmdStr + " ";
      }
    }
    assert params[1..|params|] == params[1..];
  }

  /** What stands between the arguments is one space. */
  lemma JoinOfTwo(x: string, y: string)
    ensures Join([x, y]) == x + " " + y
  {
    assert [x, y][..1] == [x];
  }

  /** A token that means itself: not empty, with neither white space nor quotes in it. */
  predicate IsWord(s: string) {
    s != "" && forall i :: 0 <= i < |s| ==> !IsSpace(s[i]) && !IsQuote(s[i])
  }

  lemma {:induction false} WordTokenizes(s: string)
    requires forall i :: 0 <= i < |s| ==> !IsSpace(s[i]) && !IsQuote(s[i])
    ensures FeedAll(START, s) == Lexer(Normal, s, [])
  {
    if s != "" {
      WordTokenizes(s[..|s| - 1]);
    }
  }

  lemma {:induction false} WordsTokenize(args: seq<string>)
    requires forall k :: 0 <= k < |args| ==> IsWord(args[k])
    ensures Tokenized(Join(args)) == args && EndsOutsideQuotes(Join(args))
  {
    if |args| == 1 {
      WordAlone(args[0]);
    } else if args != [] {
      var n := |args| - 1;
      WordAlone(args[n]);
      WordsTokenize(args[..n]);
      TokenizeConcatenation(Join(args[..n]), ' ', args[n]);
      assert args == args[..n] + [args[n]];
    }
  }

  lemma WordAlone(s: string)
    requires IsWord(s)
    ensures Tokenized(s) == [s] && EndsOutsideQuotes(s)
  {
    WordTokenizes(s);
  }

  // ---- Counting characters, for the converse ----

  function TotalLength(ss: seq<string>): nat {
    if ss == [] then 0 else TotalLength(ss[..|ss| - 1]) + |ss[|ss| - 1]|
  }

  /** White space that ends tokens: read outside quotes. */
  function Breaks(s: string): nat {
    if s == "" then 0
    else
      var t, c := s[..|s| - 1], s[|s| - 1];
      Breaks(t) + (if FeedAll(START, t).mode.Normal? && IsSpace(c) then 1 else 0)
  }

  /** Quotes that open or close. */
  function Delimiters(s: string): nat {
    if s == "" then 0
    else
      var t, c := s[..|s| - 1], s[|s| - 1];
      Delimiters(t) + (match FeedAll(START, t).mode
                       case Normal => if IsQuote(c) then 1 else 0
                       case SingleQuoted => if c == '\'' then 1 else 0
                       case DoubleQuoted => if c == '"' then 1 else 0
                       case Escaped => 0)
  }

  function Spaces(s: string): nat {
    if s == "" then 0 else Spaces(s[..|s| - 1]) + (if IsSpace(s[|s| - 1]) then 1 else 0)
  }

  predicate HasQuote(s: string) {
    exists i :: 0 <= i < |s| && IsQuote(s[i])
  }

  /** Every character is in a token, a break or a delimiter; every token but the last needed a break. */
  lemma {:induction false} EveryCharacterCounts(s: string)
    ensures var l := FeedAll(START, s);
            && !l.mode.Escaped?
            && TotalLength(l.out) + |l.cur| + Breaks(s) + Delimiters(s) == |s|
            && |l.out| <= Breaks(s)
            && (forall k :: 0 <= k < |l.out| ==> l.out[k] != "")
  {
    if s != "" {
      var t := s[..|s| - 1];
      EveryCharacterCounts(t);
      var l := FeedAll(START, t);
      assert (l.out + [l.cur])[..|l.out|] == l.out;
    }
  }

  /** With no delimiter the text has no quotes and every space is a break. */
  lemma {:induction false} NoDelimiters(s: string)
    requires Delimiters(s) == 0
    ensures FeedAll(START, s).mode.Normal? && !HasQuote(s) && Breaks(s) == Spaces(s)
  {
    if s != "" {
      NoDelimiters(s[..|s| - 1]);
      forall i | 0 <= i < |s| ensures !IsQuote(s[i]) {
        if i < |s| - 1 { assert s[i] == s[..|s| - 1][i]; }
      }
    }
  }

  lemma {:induction false} SpacesAppend(a: string, b: string)
    ensures Spaces(a + b) == Spaces(a) + Spaces(b)
  {
    if b == "" {
      assert a + b == a;
    } else {
      assert (a + b)[..|a + b| - 1] == a + b[..|b| - 1];
      SpacesAppend(a, b[..|b| - 1]);
    }
  }

  lemma {:induction false} NoSpaces(s: string)
    requires Spaces(s) == 0
    ensures forall i :: 0 <= i < |s| ==> !IsSpace(s[i])
  {
    if s != "" {
      NoSpaces(s[..|s| - 1]);
      forall i | 0 <= i < |s| ensures !IsSpace(s[i]) {
        if i < |s| - 1 { assert s[i] == s[..|s| - 1][i]; }
      }
    }
  }

  lemma SpacesOfJoin(before: string, arg: string)
    ensures Spaces(before + " " + arg) == Spaces(before) + 1 + Spaces(arg)
  {
    SpacesAppend(before + " ", arg);
    SpacesAppend(before, " ");
    assert Spaces(" ") == 1 by { assert " "[..0] == ""; }
  }

  lemma QuotesOfJoin(before: string, arg: string)
    requires !HasQuote(before + " " + arg)
    ensures !HasQuote(before) && !HasQuote(arg)
  {
    var s := before + " " + arg;
    forall i | 0 <= i < |before| ensures !IsQuote(before[i]) { assert s[i] == before[i]; }
    forall i | 0 <= i < |arg| ensures !IsQuote(arg[i]) { assert s[|before| + 1 + i] == arg[i]; }
  }

  /** Length, spaces and quotes of a joined text. */
  lemma {:induction false} JoinCounts(args: seq<string>)
    requires args != []
    ensures |Join(args)| == TotalLength(args) + |args| - 1
    ensures Spaces(Join(args)) >= |args| - 1
    ensures Spaces(Join(args)) == |args| - 1 ==> forall k :: 0 <= k < |args| ==> Spaces(args[k]) == 0
    ensures !HasQuote(Join(args)) ==> forall k :: 0 <= k < |args| ==> !HasQuote(args[k])
  {
    var n := |args| - 1;
    if n > 0 {
      JoinCounts(args[..n]);
      SpacesOfJoin(Join(args[..n]), args[n]);
      if !HasQuote(Join(args)) {
        QuotesOfJoin(Join(args[..n]), args[n]);
      }
    } else {
      assert args[..0] == [];
    }
  }

  /** Arguments joined with spaces tokenize to themselves exactly when each of them is a word. */
  lemma JoinRoundTripIff(args: seq<string>)
    ensures Tokenized(Join(args)) == args <==> forall k :: 0 <= k < |args| ==> IsWord(args[k])
  {
    if forall k :: 0 <= k < |args| ==> IsWord(args[k]) {
      WordsTokenize(args);
    } else if Tokenized(Join(args)) == args {
      var s := Join(args);
      var l := FeedAll(START, s);
      EveryCharacterCounts(s);
      JoinCounts(args);
      assert (l.out + [l.cur])[..|l.out|] == l.out;
      assert TotalLength(args) == TotalLength(l.out) + |l.cur|;
      assert Delimiters(s) == 0;
      NoDelimiters(s);
      forall k | 0 <= k < |args| ensures IsWord(args[k]) {
        NoSpaces(args[k]);
        assert !HasQuote(args[k]);
      }
    }
  }
}
