/** Option parsing: the ParamList constructor in `src/cmd/cmd.cpp`. */
module ParamList {
  import opened Wrappers
  import opened Strings

  datatype Params = Params(command: string, args: seq<string>, options: map<char, seq<string>>)

  datatype OptionError = MissingArgument(c: char) | UnknownOption(c: char)

  predicate IsTerminator(tok: string) {
    tok == "--"
  }

  /** A token read as a cluster of option letters. */
  predicate IsCluster(tok: string) {
    |tok| > 1 && tok[0] == '-' && tok[1] != '-'
  }

  /** A token that cannot be an option's argument. */
  predicate LooksLikeOption(tok: string) {
    |tok| > 1 && tok[0] == '-' && tok[1] != '-' && tok[1] != ':'
  }

  predicate Known(opts: string, c: char) {
    c != ':' && c in opts
  }

  predicate TakesArgument(opts: string, c: char) {
    Find(opts, c).Some? && At(opts, Find(opts, c).value + 1) == ':'
  }

  function Values(options: map<char, seq<string>>, c: char): seq<string> {
    if c in options then options[c] else []
  }

  /** _options[c].push_back(value) */
  function Push(options: map<char, seq<string>>, c: char, value: string): map<char, seq<string>> {
    options[c := Values(options, c) + [value]]
  }

  // ---- What parsing does ----

  /** The options after a cluster, and how many tokens it used: its own and perhaps an argument. */
  datatype ClusterEnd = ClusterEnd(options: map<char, seq<string>>, used: nat)

  /** The letters of tokens[n] from position i on. */
  function ParseCluster(tokens: seq<string>, n: nat, i: nat, opts: string, options: map<char, seq<string>>)
      : (r: Result<ClusterEnd, OptionError>)
    requires n < |tokens| && i <= |tokens[n]|
    ensures r.Ok? ==> 1 <= r.value.used <= 2 && n + r.value.used <= |tokens|
    decreases |tokens[n]| - i
  {
    var tok := tokens[n];
    if i == |tok| then Ok(ClusterEnd(options, 1))
    else
      var c := tok[i];
      if !Known(opts, c) then Err(UnknownOption(c))
      else if !TakesArgument(opts, c) then ParseCluster(tokens, n, i + 1, opts, Push(options, c, ""))
      else if i + 1 != |tok| || n + 1 == |tokens| || LooksLikeOption(tokens[n + 1]) then Err(MissingArgument(c))
      else Ok(ClusterEnd(Push(options, c, tokens[n + 1]), 2))
  }

  /** The tokens from n on; `parseOpts` is false once "--" has been seen. */
  function ParseFrom(tokens: seq<string>, n: nat, opts: string, parseOpts: bool, p: Params): Result<Params, OptionError>
    requires n <= |tokens|
    decreases |tokens| - n
  {
    if n == |tokens| then Ok(p)
    else if parseOpts && IsTerminator(tokens[n]) then ParseFrom(tokens, n + 1, opts, false, p)
    else if parseOpts && IsCluster(tokens[n]) then
      match ParseCluster(tokens, n, 1, opts, p.options)
      case Err(e) => Err(e)
      case Ok(end) => ParseFrom(tokens, n + end.used, opts, true, p.(options := end.options))
    else ParseFrom(tokens, n + 1, opts, parseOpts, p.(args := p.args + [tokens[n]]))
  }

  function Parsed(tokens: seq<string>, opts: string): Result<Params, OptionError>
    requires tokens != []
  {
    ParseFrom(tokens, 1, opts, true, Params(tokens[0], [], map[]))
  }

  /** The inner loop of the constructor, over the letters of one cluster. */
  method ReadCluster(tokens: seq<string>, start: nat, opts: string, before: map<char, seq<string>>)
      returns (r: Result<ClusterEnd, OptionError>)
    requires start < |tokens| && IsCluster(tokens[start])
    ensures r == ParseCluster(tokens, start, 1, opts, before)
  {
    var tokNum, options := start, before;
    var tok := tokens[tokNum];
    var i := 1;
    while i < |tok|
      invariant 1 <= i <= |tok| && tok == tokens[start]
      invariant tokNum == start || (tokNum == start + 1 && i == |tok| && tokNum < |tokens|)
      invariant ParseCluster(tokens, start, 1, opts, before) ==
                if tokNum == start then ParseCluster(tokens, start, i, opts, options) else Ok(ClusterEnd(options, 2))
    {
      var curOpt := tok[i];
      var pos := Find(opts, curOpt);
      if curOpt != ':' && pos.Some? {
        if At(opts, pos.value + 1) == ':' {
          if i + 1 != |tok| || tokNum + 1 == |tokens| {
            return Err(MissingArgument(curOpt));
          }
          tokNum := tokNum + 1;
          var optarg := tokens[tokNum];
          if At(optarg, 0) == '-' && |optarg| > 1 && optarg[1] != '-' && optarg[1] != ':' {
            return Err(MissingArgument(curOpt));
          }
          options := Push(options, curOpt, optarg);
        } else {
          options := Push(options, curOpt, "");
        }
      } else {
        return Err(UnknownOption(curOpt));
      }
      i := i + 1;
    }
    return Ok(ClusterEnd(options, tokNum - start + 1));
  }

  /** The constructor; an error is a thrown exception. */
  method Parse(tokens: seq<string>, opts: string) returns (r: Result<Params, OptionError>)
    requires tokens != []
    ensures r == Parsed(tokens, opts)
  {
    var p := Params(tokens[0], [], map[]);
    var parseOpts := true;
    var tokNum := 1;
    while tokNum < |tokens|
      invariant 1 <= tokNum <= |tokens|
      invariant Parsed(tokens, opts) == ParseFrom(tokens, tokNum, opts, parseOpts, p)
    {
      var tok := tokens[tokNum];
      if parseOpts && At(tok, 0) == '-' && |tok| == 2 && tok[1] == '-' {
        parseOpts := false;
      } else if parseOpts && At(tok, 0) == '-' && |tok| > 1 && tok[1] != '-' {
        var end := ReadCluster(tokens, tokNum, opts, p.options);
        if end.Err? {
          return Err(end.error);
        }
        p := p.(options := end.value.options);
        tokNum := tokNum + end.value.used - 1;
      } else {
        p := p.(args := p.args + [tok]);
      }
      tokNum := tokNum + 1;
    }
    return Ok(p);
  }

  // ---- Accounting for every token ----

  datatype Kind = Positional | Cluster | OptionArgument | Terminator

  /** The tokens of one kind, in order. */
  function OfKind(tokens: seq<string>, kinds: seq<Kind>, kind: Kind): seq<string>
    requires |tokens| == |kinds|
  {
    if tokens == [] then []
    else (if kinds[0] == kind then [tokens[0]] else []) + OfKind(tokens[1..], kinds[1..], kind)
  }

  /** One value for each occurrence of c in a cluster from position i on; `next` is the token after the cluster. */
  function ValuesInCluster(tok: string, i: nat, next: string, opts: string, c: char): seq<string>
    requires i <= |tok|
    decreases |tok| - i
  {
    if i == |tok| then []
    else
      var here := if tok[i] == c then [if TakesArgument(opts, c) then next else ""] else [];
      here + ValuesInCluster(tok, i + 1, next, opts, c)
  }

  /** One value for each occurrence of option c in the clusters, in order. */
  function ValuesOf(tokens: seq<string>, kinds: seq<Kind>, opts: string, c: char): seq<string>
    requires |tokens| == |kinds|
  {
    if tokens == [] then []
    else
      var next := if |tokens| > 1 then tokens[1] else "";
      var here := if kinds[0].Cluster? && tokens[0] != "" then ValuesInCluster(tokens[0], 1, next, opts, c) else [];
      here + ValuesOf(tokens[1..], kinds[1..], opts, c)
  }

  /** Whether the cluster takes the token after it as its argument. */
  predicate WantsArgument(tok: string, opts: string) {
    tok != "" && TakesArgument(opts, tok[|tok| - 1])
  }

  /** From position i on all letters are known options, and none before the last takes an argument. */
  predicate GoodLetters(tok: string, i: nat, opts: string) {
    && (forall k :: i <= k < |tok| ==> Known(opts, tok[k]))
    && (forall k :: i <= k < |tok| - 1 ==> !TakesArgument(opts, tok[k]))
  }

  /**
   * The grammar of a command's arguments, with the kind of each token; `parseOpts` as in the constructor.
   * Before a "--" every token of a cluster's form must be a good cluster, followed by its argument if it takes one.
   */
  predicate WellSorted(tokens: seq<string>, kinds: seq<Kind>, opts: string, parseOpts: bool)
    requires |tokens| == |kinds|
  {
    tokens == [] ||
    match kinds[0]
    case Positional =>
      && !(parseOpts && (IsTerminator(tokens[0]) || IsCluster(tokens[0])))
      && WellSorted(tokens[1..], kinds[1..], opts, parseOpts)
    case Terminator => parseOpts && IsTerminator(tokens[0]) && WellSorted(tokens[1..], kinds[1..], opts, false)
    case OptionArgument => false
    case Cluster =>
      && parseOpts && IsCluster(tokens[0]) && GoodLetters(tokens[0], 1, opts)
      && if WantsArgument(tokens[0], opts)
         then |tokens| > 1 && kinds[1].OptionArgument? && !LooksLikeOption(tokens[1])
             && WellSorted(tokens[2..], kinds[2..], opts, true)
         else WellSorted(tokens[1..], kinds[1..], opts, true)
  }

  function NextToken(tokens: seq<string>, n: nat): string {
    if n + 1 < |tokens| then tokens[n + 1] else ""
  }

  lemma PushedValues(options: map<char, seq<string>>, d: char, value: string, c: char)
    ensures Values(Push(options, d, value), c) == Values(options, c) + (if c == d then [value] else [])
  {
  }

  /** Pushing first and adding the rest afterwards, or all at once. */
  lemma ValuesRegrouped(a: seq<string>, b: seq<string>, rest: seq<string>)
    ensures (a + b) + rest == a + (b + rest)
  {
  }

  /** A cluster that parses adds one value per occurrence of a letter. */
  lemma {:induction false} ClusterPushes(tokens: seq<string>, n: nat, i: nat, opts: string,
                                         options: map<char, seq<string>>, c: char)
    requires n < |tokens| && i <= |tokens[n]| && ParseCluster(tokens, n, i, opts, options).Ok?
    ensures Values(ParseCluster(tokens, n, i, opts, options).value.options, c)
         == Values(options, c) + ValuesInCluster(tokens[n], i, NextToken(tokens, n), opts, c)
    decreases |tokens[n]| - i
  {
    var tok, next := tokens[n], NextToken(tokens, n);
    if i < |tok| {
      var d := tok[i];
      var v := if TakesArgument(opts, d) then next else "";
      PushedValues(options, d, v, c);
      ValuesRegrouped(Values(options, c), if c == d then [v] else [], ValuesInCluster(tok, i + 1, next, opts, c));
      if TakesArgument(opts, d) {
        assert ValuesInCluster(tok, i + 1, next, opts, c) == [];
      } else {
        ClusterPushes(tokens, n, i + 1, opts, Push(options, d, v), c);
      }
    }
  }

  /** A cluster parses exactly when its letters are good and an argument it wants is there. */
  lemma {:induction false} ClusterParsesIff(tokens: seq<string>, n: nat, i: nat, opts: string, options: map<char,
      seq<string>>)
    requires n < |tokens| && i < |tokens[n]|
    ensures ParseCluster(tokens, n, i, opts, options).Ok? <==>
            && GoodLetters(tokens[n], i, opts)
            && (WantsArgument(tokens[n], opts) ==> n + 1 < |tokens| && !LooksLikeOption(tokens[n + 1]))
    ensures var r := ParseCluster(tokens, n, i, opts, options);
            r.Ok? ==> r.value.used == if WantsArgument(tokens[n], opts) then 2 else 1
    decreases |tokens[n]| - i
  {
    var tok := tokens[n];
    var d := tok[i];
    if i + 1 < |tok| && !TakesArgument(opts, d) {
      ClusterParsesIff(tokens, n, i + 1, opts, Push(options, d, ""));
      assert GoodLetters(tok, i, opts) <==> Known(opts, d) && GoodLetters(tok, i + 1, opts);
    } else if i + 1 < |tok| {
      assert !GoodLetters(tok, i, opts);
    } else {
      assert GoodLetters(tok, i, opts) <==> Known(opts, d);
    }
  }

  ghost predicate NoEmptyLists(options: map<char, seq<string>>) {
    forall d :: d in options ==> options[d] != []
  }

  lemma {:induction false} ClusterKeepsLists(tokens: seq<string>, n: nat, i: nat, opts: string, options: map<char,
      seq<string>>)
    requires n < |tokens| && i <= |tokens[n]| && ParseCluster(tokens, n, i, opts, options).Ok? && NoEmptyLists(options)
    ensures NoEmptyLists(ParseCluster(tokens, n, i, opts, options).value.options)
    decreases |tokens[n]| - i
  {
    if i < |tokens[n]| && !TakesArgument(opts, tokens[n][i]) {
      ClusterKeepsLists(tokens, n, i + 1, opts, Push(options, tokens[n][i], ""));
    }
  }

  lemma {:induction false} ListsStay(tokens: seq<string>, n: nat, opts: string, parseOpts: bool, p: Params)
    requires n <= |tokens| && ParseFrom(tokens, n, opts, parseOpts, p).Ok? && NoEmptyLists(p.options)
    ensures NoEmptyLists(ParseFrom(tokens, n, opts, parseOpts, p).value.options)
    decreases |tokens| - n
  {
    if n == |tokens| {
    } else if parseOpts && IsTerminator(tokens[n]) {
      ListsStay(tokens, n + 1, opts, false, p);
    } else if parseOpts && IsCluster(tokens[n]) {
      var end := ParseCluster(tokens, n, 1, opts, p.options).value;
      ClusterKeepsLists(tokens, n, 1, opts, p.options);
      ListsStay(tokens, n + end.used, opts, true, p.(options := end.options));
    } else {
      ListsStay(tokens, n + 1, opts, parseOpts, p.(args := p.args + [tokens[n]]));
    }
  }

  /** Parsing succeeds only on tokens of the grammar, and here are their kinds. */
  lemma {:induction false} TokensSorted(tokens: seq<string>, n: nat, opts: string, parseOpts: bool, p: Params)
      returns (kinds: seq<Kind>)
    requires n <= |tokens| && ParseFrom(tokens, n, opts, parseOpts, p).Ok?
    ensures |kinds| == |tokens| - n && WellSorted(tokens[n..], kinds, opts, parseOpts)
    decreases |tokens| - n
  {
    if n == |tokens| {
      kinds := [];
    } else if parseOpts && IsTerminator(tokens[n]) {
      var rest := TokensSorted(tokens, n + 1, opts, false, p);
      kinds := [Terminator] + rest;
      assert tokens[n..][1..] == tokens[n + 1..] && kinds[1..] == rest;
    } else if parseOpts && IsCluster(tokens[n]) {
      var end := ParseCluster(tokens, n, 1, opts, p.options).value;
      var rest := TokensSorted(tokens, n + end.used, opts, true, p.(options := end.options));
      ClusterParsesIff(tokens, n, 1, opts, p.options);
      kinds := ClusterSorted(tokens[n..], end.used, rest, opts) by {
        assert tokens[n..][end.used..] == tokens[n + end.used..];
      }
    } else {
      var rest := TokensSorted(tokens, n + 1, opts, parseOpts, p.(args := p.args + [tokens[n]]));
      kinds := [Positional] + rest;
      assert tokens[n..][1..] == tokens[n + 1..] && kinds[1..] == rest;
    }
  }

  /** A good cluster with the argument it wants, in front of sorted tokens. */
  lemma ClusterSorted(tokens: seq<string>, used: nat, rest: seq<Kind>, opts: string) returns (kinds: seq<Kind>)
    requires tokens != [] && IsCluster(tokens[0]) && GoodLetters(tokens[0], 1, opts)
    requires used == (if WantsArgument(tokens[0], opts) then 2 else 1) && used <= |tokens|
    requires used == 2 ==> !LooksLikeOption(tokens[1])
    requires |rest| == |tokens| - used && WellSorted(tokens[used..], rest, opts, true)
    ensures |kinds| == |tokens| && WellSorted(tokens, kinds, opts, true)
  {
    if used == 2 {
      kinds := [Cluster, OptionArgument] + rest;
      assert kinds[2..] == rest;
    } else {
      kinds := [Cluster] + rest;
      assert kinds[1..] == rest;
    }
  }

  /** Tokens of the grammar parse, positionals to arguments in order. */
  lemma {:induction false} SortedParses(tokens: seq<string>, n: nat, kinds: seq<Kind>, opts: string, parseOpts: bool,
      p: Params)
    requires n <= |tokens| && |kinds| == |tokens| - n && WellSorted(tokens[n..], kinds, opts, parseOpts)
    ensures ParseFrom(tokens, n, opts, parseOpts, p).Ok?
    ensures var q := ParseFrom(tokens, n, opts, parseOpts, p).value;
            q.command == p.command && q.args == p.args + OfKind(tokens[n..], kinds, Positional)
    decreases |tokens| - n
  {
    if n < |tokens| {
      assert tokens[n..][1..] == tokens[n + 1..];
      if kinds[0].Terminator? {
        SortedParses(tokens, n + 1, kinds[1..], opts, false, p);
      } else if kinds[0].Cluster? {
        SortedClusterParses(tokens, n, kinds, opts, p);
      } else {
        var p' := p.(args := p.args + [tokens[n]]);
        SortedParses(tokens, n + 1, kinds[1..], opts, parseOpts, p');
        ValuesRegrouped(p.args, [tokens[n]], OfKind(tokens[n + 1..], kinds[1..], Positional));
      }
    } else {
      assert p.args + [] == p.args;
    }
  }

  lemma {:induction false} SortedClusterParses(tokens: seq<string>, n: nat, kinds: seq<Kind>, opts: string, p: Params)
    requires n < |tokens| && |kinds| == |tokens| - n && WellSorted(tokens[n..], kinds, opts, true) && kinds[0].Cluster?
    ensures ParseFrom(tokens, n, opts, true, p).Ok?
    ensures var q := ParseFrom(tokens, n, opts, true, p).value;
            q.command == p.command && q.args == p.args + OfKind(tokens[n..], kinds, Positional)
    decreases |tokens| - n, 0
  {
    ClusterParsesIff(tokens, n, 1, opts, p.options);
    var end := ParseCluster(tokens, n, 1, opts, p.options).value;
    assert tokens[n..][end.used..] == tokens[n + end.used..];
    SortedParses(tokens, n + end.used, kinds[end.used..], opts, true, p.(options := end.options));
    ClusterKind(tokens[n..], kinds, end.used);
  }

  /** The same tokens give every option its values in order. */
  lemma {:induction false} SortedValues(tokens: seq<string>, n: nat, kinds: seq<Kind>, opts: string, parseOpts: bool,
      p: Params, c: char)
    requires n <= |tokens| && |kinds| == |tokens| - n && WellSorted(tokens[n..], kinds, opts, parseOpts)
    requires ParseFrom(tokens, n, opts, parseOpts, p).Ok?
    ensures Values(ParseFrom(tokens, n, opts, parseOpts, p).value.options, c) == Values(p.options, c)
            + ValuesOf(tokens[n..], kinds, opts, c)
    decreases |tokens| - n
  {
    if n < |tokens| {
      assert tokens[n..][1..] == tokens[n + 1..];
      if kinds[0].Terminator? {
        SortedValues(tokens, n + 1, kinds[1..], opts, false, p, c);
      } else if kinds[0].Cluster? {
        SortedClusterValues(tokens, n, kinds, opts, p, c);
      } else {
        SortedValues(tokens, n + 1, kinds[1..], opts, parseOpts, p.(args := p.args + [tokens[n]]), c);
      }
    }
  }

  lemma {:induction false} SortedClusterValues(tokens: seq<string>, n: nat, kinds: seq<Kind>, opts: string,
      p: Params, c: char)
    requires n < |tokens| && |kinds| == |tokens| - n && WellSorted(tokens[n..], kinds, opts, true) && kinds[0].Cluster?
    requires ParseFrom(tokens, n, opts, true, p).Ok?
    ensures Values(ParseFrom(tokens, n, opts, true, p).value.options, c) == Values(p.options, c)
            + ValuesOf(tokens[n..], kinds, opts, c)
    decreases |tokens| - n, 0
  {
    ClusterParsesIff(tokens, n, 1, opts, p.options);
    var end := ParseCluster(tokens, n, 1, opts, p.options).value;
    assert tokens[n..][end.used..] == tokens[n + end.used..];
    SortedValues(tokens, n + end.used, kinds[end.used..], opts, true, p.(options := end.options), c);
    ClusterPushes(tokens, n, 1, opts, p.options, c);
    ClusterValues(tokens[n..], kinds, end.used, opts, c);
    ValuesRegrouped(Values(p.options, c), ValuesInCluster(tokens[n], 1, NextToken(tokens, n), opts, c),
                    ValuesOf(tokens[n + end.used..], kinds[end.used..], opts, c));
  }

  /** Neither a cluster nor its argument is positional. */
  lemma ClusterKind(tokens: seq<string>, kinds: seq<Kind>, used: nat)
    requires |tokens| == |kinds| && 1 <= used <= 2 && used <= |tokens|
    requires kinds[0].Cluster? && (used == 2 ==> kinds[1].OptionArgument?)
    ensures OfKind(tokens, kinds, Positional) == OfKind(tokens[used..], kinds[used..], Positional)
  {
    if used == 2 {
      assert tokens[1..][1..] == tokens[2..] && kinds[1..][1..] == kinds[2..];
    }
  }

  lemma ClusterValues(tokens: seq<string>, kinds: seq<Kind>, used: nat, opts: string, c: char)
    requires |tokens| == |kinds| && 1 <= used <= 2 && used <= |tokens| && tokens[0] != ""
    requires kinds[0].Cluster? && (used == 2 ==> kinds[1].OptionArgument?)
    ensures ValuesOf(tokens, kinds, opts, c)
         == ValuesInCluster(tokens[0], 1, NextToken(tokens, 0), opts, c)
             + ValuesOf(tokens[used..], kinds[used..], opts, c)
  {
    if used == 2 {
      assert tokens[1..][1..] == tokens[2..] && kinds[1..][1..] == kinds[2..];
      assert ValuesOf(tokens[1..], kinds[1..], opts, c) == ValuesOf(tokens[2..], kinds[2..], opts, c);
    }
  }

  // ---- The accounting ----

  /** The constructor succeeds exactly on the grammar. */
  lemma {:induction false} ParsesIff(tokens: seq<string>, opts: string)
    requires tokens != []
    ensures Parsed(tokens, opts).Ok? <==>
            exists kinds: seq<Kind> :: |kinds| == |tokens| - 1 && WellSorted(tokens[1..], kinds, opts, true)
  {
    var p := Params(tokens[0], [], map[]);
    if Parsed(tokens, opts).Ok? {
      var kinds := TokensSorted(tokens, 1, opts, true, p);
    } else {
      forall kinds: seq<Kind> | |kinds| == |tokens| - 1 ensures !WellSorted(tokens[1..], kinds, opts, true) {
        if WellSorted(tokens[1..], kinds, opts, true) {
          SortedParses(tokens, 1, kinds, opts, true, p);
        }
      }
    }
  }

  /**
   * When it succeeds every token has one kind: the arguments are the positionals in order, and each option has
   * one value per occurrence, in order, and no list without any.
   */
  lemma EveryTokenCounts(tokens: seq<string>, kinds: seq<Kind>, opts: string)
    requires tokens != [] && |kinds| == |tokens| - 1 && WellSorted(tokens[1..], kinds, opts, true)
    ensures Parsed(tokens, opts).Ok?
    ensures var q := Parsed(tokens, opts).value;
            && q.command == tokens[0]
            && q.args == OfKind(tokens[1..], kinds, Positional)
            && (forall c :: Values(q.options, c) == ValuesOf(tokens[1..], kinds, opts, c))
            && (forall c :: c in q.options <==> ValuesOf(tokens[1..], kinds, opts, c) != [])
  {
    var p := Params(tokens[0], [], map[]);
    SortedParses(tokens, 1, kinds, opts, true, p);
    ListsStay(tokens, 1, opts, true, p);
    forall c ensures Values(Parsed(tokens, opts).value.options, c) == ValuesOf(tokens[1..], kinds, opts, c) {
      SortedValues(tokens, 1, kinds, opts, true, p, c);
    }
  }

  /** Each token has only one possible kind. */
  lemma {:induction false} KindsAreUnique(tokens: seq<string>, kinds: seq<Kind>, others: seq<Kind>, opts: string,
      parseOpts: bool)
    requires |kinds| == |tokens| == |others|
    requires WellSorted(tokens, kinds, opts, parseOpts) && WellSorted(tokens, others, opts, parseOpts)
    ensures kinds == others
    decreases |tokens|
  {
    if tokens != [] {
      assert kinds[0] == others[0];
      if kinds[0].Cluster? && WantsArgument(tokens[0], opts) {
        KindsAreUnique(tokens[2..], kinds[2..], others[2..], opts, true);
        assert kinds == kinds[..2] + kinds[2..] && others == others[..2] + others[2..];
        assert kinds[..2] == others[..2];
      } else {
        KindsAreUnique(tokens[1..], kinds[1..], others[1..], opts, parseOpts && !kinds[0].Terminator?);
        assert kinds == [kinds[0]] + kinds[1..] && others == [others[0]] + others[1..];
      }
    }
  }

  /** Everything after the first "--" is kept verbatim, whatever it looks like. */
  lemma VerbatimAfterTerminator(before: seq<string>, kinds: seq<Kind>, after: seq<string>, opts: string)
    requires before != [] && |kinds| == |before| - 1 && WellSorted(before[1..], kinds, opts, true)
    requires Terminator !in kinds
    ensures Parsed(before, opts).Ok?
    ensures var p := Parsed(before, opts).value;
            Parsed(before + ["--"] + after, opts) == Ok(p.(args := p.args + after))
  {
    var tokens := before + ["--"] + after;
    var p := Params(before[0], [], map[]);
    SortedParses(before, 1, kinds, opts, true, p);
    UpToTerminator(before, 1, kinds, after, opts, p);
  }

  lemma {:induction false} UpToTerminator(before: seq<string>, n: nat, kinds: seq<Kind>, after: seq<string>,
      opts: string, p: Params)
    requires n <= |before| && |kinds| == |before| - n && WellSorted(before[n..], kinds, opts, true)
            && Terminator !in kinds
    ensures ParseFrom(before, n, opts, true, p).Ok?
    ensures var q := ParseFrom(before, n, opts, true, p).value;
            ParseFrom(before + ["--"] + after, n, opts, true, p) == Ok(q.(args := q.args + after))
    decreases |before| - n
  {
    var tokens := before + ["--"] + after;
    if n == |before| {
      assert tokens[n + 1..] == after;
      AllVerbatim(tokens, n + 1, opts, p);
    } else {
      assert before[n..][1..] == before[n + 1..] && tokens[n] == before[n];
      if kinds[0].Cluster? {
        ClusterParsesIff(before, n, 1, opts, p.options);
        var end := ParseCluster(before, n, 1, opts, p.options).value;
        assert before[n..][end.used..] == before[n + end.used..];
        UpToTerminator(before, n + end.used, kinds[end.used..], after, opts, p.(options := end.options));
        SameCluster(before, tokens, n, 1, opts, p.options);
      } else {
        UpToTerminator(before, n + 1, kinds[1..], after, opts, p.(args := p.args + [before[n]]));
      }
    }
  }

  lemma {:induction false} SameCluster(before: seq<string>, tokens: seq<string>, n: nat, i: nat, opts: string,
      options: map<char, seq<string>>)
    requires before <= tokens && n < |before| && i <= |before[n]| && ParseCluster(before, n, i, opts, options).Ok?
    ensures ParseCluster(tokens, n, i, opts, options) == ParseCluster(before, n, i, opts, options)
    decreases |before[n]| - i
  {
    assert tokens[n] == before[n];
    if i < |before[n]| && !TakesArgument(opts, before[n][i]) {
      SameCluster(before, tokens, n, i + 1, opts, Push(options, before[n][i], ""));
    } else if n + 1 < |before| {
      assert tokens[n + 1] == before[n + 1];
    }
  }

  lemma {:induction false} AllVerbatim(tokens: seq<string>, n: nat, opts: string, p: Params)
    requires n <= |tokens|
    ensures ParseFrom(tokens, n, opts, false, p) == Ok(p.(args := p.args + tokens[n..]))
    decreases |tokens| - n
  {
    if n < |tokens| {
      AllVerbatim(tokens, n + 1, opts, p.(args := p.args + [tokens[n]]));
      assert p.args + [tokens[n]] + tokens[n + 1..] == p.args + tokens[n..];
    } else {
      assert p.args + tokens[n..] == p.args;
    }
  }

  // ---- Errors, and which tokens are what ----

  /** A declared letter takes an argument exactly if a colon follows its first mention. */
  lemma DeclaredOption(a: string, c: char, b: string)
    requires c !in a && c != ':'
    ensures Known(a + [c] + b, c)
    ensures TakesArgument(a + [c] + b, c) <==> b != "" && b[0] == ':'
  {
    FindAfter(a, c, b);
    var opts := a + [c] + b;
    assert b != "" ==> opts[|a| + 1] == b[0];
    assert opts[|a|] == c;
  }

  /** The first letter of a cluster that is unknown or takes an argument decides how it ends. */
  lemma {:induction false} ClusterDecidedAt(tokens: seq<string>, n: nat, i: nat, k: nat, opts: string,
                                            options: map<char, seq<string>>)
    requires n < |tokens| && i <= k < |tokens[n]|
    requires forall j :: i <= j < k ==> Known(opts, tokens[n][j]) && !TakesArgument(opts, tokens[n][j])
    requires !Known(opts, tokens[n][k]) || TakesArgument(opts, tokens[n][k])
    ensures var r, tok := ParseCluster(tokens, n, i, opts, options), tokens[n];
            && (!Known(opts, tok[k]) ==> r == Err(UnknownOption(tok[k])))
            && (Known(opts, tok[k]) && (k + 1 < |tok| || n + 1 == |tokens| || LooksLikeOption(tokens[n + 1])) ==>
                  r == Err(MissingArgument(tok[k])))
            && (Known(opts, tok[k]) && k + 1 == |tok| && n + 1 < |tokens| && !LooksLikeOption(tokens[n + 1]) ==>
                  r.Ok? && r.value.used == 2)
    decreases k - i
  {
    if i < k {
      ClusterDecidedAt(tokens, n, i + 1, k, opts, Push(options, tokens[n][i], ""));
    }
  }

  /** Letter i of token k is what the error says. */
  predicate Explains(tokens: seq<string>, opts: string, e: OptionError, k: nat, i: nat) {
    && 0 < k < |tokens| && IsCluster(tokens[k]) && 0 < i < |tokens[k]| && tokens[k][i] == e.c
    && match e
       case UnknownOption(c) => !Known(opts, c)
       case MissingArgument(c) =>
         && Known(opts, c) && TakesArgument(opts, c)
         && (i + 1 < |tokens[k]| || k + 1 == |tokens| || LooksLikeOption(tokens[k + 1]))
  }

  lemma {:induction false} ClusterErrorExplained(tokens: seq<string>, n: nat, i: nat, opts: string,
                                                 options: map<char, seq<string>>) returns (k: nat)
    requires 0 < n < |tokens| && IsCluster(tokens[n]) && 0 < i <= |tokens[n]|
    requires ParseCluster(tokens, n, i, opts, options).Err?
    ensures Explains(tokens, opts, ParseCluster(tokens, n, i, opts, options).error, n, k)
    decreases |tokens[n]| - i
  {
    var c := tokens[n][i];
    if Known(opts, c) && !TakesArgument(opts, c) {
      k := ClusterErrorExplained(tokens, n, i + 1, opts, Push(options, c, ""));
    } else {
      k := i;
    }
  }

  lemma {:induction false} ErrorFrom(tokens: seq<string>, n: nat, opts: string, parseOpts: bool, p: Params)
      returns (k: nat, i: nat)
    requires 0 < n <= |tokens| && ParseFrom(tokens, n, opts, parseOpts, p).Err?
    ensures Explains(tokens, opts, ParseFrom(tokens, n, opts, parseOpts, p).error, k, i)
    decreases |tokens| - n
  {
    if parseOpts && IsTerminator(tokens[n]) {
      k, i := ErrorFrom(tokens, n + 1, opts, false, p);
    } else if parseOpts && IsCluster(tokens[n]) {
      var r := ParseCluster(tokens, n, 1, opts, p.options);
      if r.Err? {
        i := ClusterErrorExplained(tokens, n, 1, opts, p.options);
        k := n;
      } else {
        k, i := ErrorFrom(tokens, n + r.value.used, opts, true, p.(options := r.value.options));
      }
    } else {
      k, i := ErrorFrom(tokens, n + 1, opts, parseOpts, p.(args := p.args + [tokens[n]]));
    }
  }

  /** A letter is only reported as unknown if it is, and as missing its argument if it takes one and has none. */
  lemma ErrorExplained(tokens: seq<string>, opts: string)
    requires tokens != [] && Parsed(tokens, opts).Err?
    ensures exists k, i :: Explains(tokens, opts, Parsed(tokens, opts).error, k, i)
  {
    var k, i := ErrorFrom(tokens, 1, opts, true, Params(tokens[0], [], map[]));
  }

  /** An option with the token behind it: one of the form of a cluster is refused, but not one that starts with "-:". */
  lemma ArgumentTakenIff(command: string, c: char, x: string, opts: string)
    requires Known(opts, c) && TakesArgument(opts, c) && c != '-'
    ensures Parsed([command, ['-', c], x], opts)
         == if |x| > 1 && x[0] == '-' && x[1] != '-' && x[1] != ':' then Err(MissingArgument(c))
            else Ok(Params(command, [], map[c := [x]]))
  {
    var tokens := [command, ['-', c], x];
    assert ParseCluster(tokens, 1, 1, opts, map[])
        == if LooksLikeOption(x) then Err(MissingArgument(c)) else Ok(ClusterEnd(Push(map[], c, x), 2));
    if !LooksLikeOption(x) {
      assert [] + [x] == [x];
      assert Push(map[], c, x) == map[c := [x]];
      assert ParseFrom(tokens, 3, opts, true, Params(command, [], map[c := [x]]))
          == Ok(Params(command, [], map[c := [x]]));
    }
  }

  /** One letter in a cluster: unknown if it is not declared or a colon, and with no value if it takes none. */
  lemma LoneLetter(command: string, c: char, opts: string)
    requires c != '-'
    ensures c == ':' || c !in opts ==> Parsed([command, ['-', c]], opts) == Err(UnknownOption(c))
    ensures Known(opts, c) && !TakesArgument(opts, c) ==>
              Parsed([command, ['-', c]], opts) == Ok(Params(command, [], map[c := [""]]))
    ensures Known(opts, c) && TakesArgument(opts, c) ==>
              Parsed([command, ['-', c]], opts) == Err(MissingArgument(c))
  {
    var tokens := [command, ['-', c]];
    assert [] + [""] == [""];
    assert Push(map[], c, "") == map[c := [""]];
    var p := Params(command, [], map[c := [""]]);
    assert ParseFrom(tokens, 2, opts, true, p) == Ok(p);
    assert ParseCluster(tokens, 1, 2, opts, p.options) == Ok(ClusterEnd(p.options, 1));
  }

  /** A token alone: two dashes are the terminator; a dash alone, and more behind two dashes, are arguments. */
  lemma LoneToken(command: string, x: string, opts: string)
    ensures x == "--" ==> Parsed([command, x], opts) == Ok(Params(command, [], map[]))
    ensures |x| <= 1 || x[0] != '-' || (x[1] == '-' && |x| > 2) ==>
              Parsed([command, x], opts) == Ok(Params(command, [x], map[]))
  {
    var tokens := [command, x];
    assert [] + [x] == [x];
    assert ParseFrom(tokens, 2, opts, true, Params(command, [x], map[])) == Ok(Params(command, [x], map[]));
    assert ParseFrom(tokens, 2, opts, false, Params(command, [], map[])) == Ok(Params(command, [], map[]));
  }
}
