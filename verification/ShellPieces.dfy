/**
 What a command line means: every text is a sequence of bare stretches, quoted stretches and white space, with at most
 one quote left open at its end, and the tokens are what stands between the white space, without the quotes.
 */
module ShellPieces {
  import opened Wrappers
  import opened Strings
  import opened ShellTokenizer

  datatype Piece =
    | Bare(text: string)
    | InSingle(text: string)
    | InDouble(text: string)
    | Gap(space: char)

  predicate IsPlain(s: string) {
    forall i :: 0 <= i < |s| ==> !IsSpace(s[i]) && !IsQuote(s[i])
  }

  predicate Proper(p: Piece) {
    match p
    case Bare(text) => IsPlain(text)
    case InSingle(text) => '\'' !in text
    case InDouble(text) => '"' !in text
    case Gap(space) => IsSpace(space)
  }

  predicate AllProper(ps: seq<Piece>) {
    forall k :: 0 <= k < |ps| ==> Proper(ps[k])
  }

  function Written(p: Piece): string {
    match p
    case Bare(text) => text
    case InSingle(text) => "'" + text + "'"
    case InDouble(text) => "\"" + text + "\""
    case Gap(space) => [space]
  }

  function WrittenAll(ps: seq<Piece>): string {
    if ps == [] then "" else WrittenAll(ps[..|ps| - 1]) + Written(ps[|ps| - 1])
  }

  /** A quote that is opened and not closed; anything else is no such piece and writes nothing. */
  function WrittenOpen(open: Option<Piece>): string {
    match open
    case Some(InSingle(text)) => "'" + text
    case Some(InDouble(text)) => "\"" + text
    case _ => ""
  }

  predicate ProperOpen(open: Option<Piece>) {
    open.Some? ==> (open.value.InSingle? || open.value.InDouble?) && Proper(open.value)
  }

  function Closed(open: Option<Piece>): seq<Piece> {
    if open.Some? then [open.value] else []
  }

  /** What stands between the gaps; two gaps in a row have an empty field between them. */
  function Fields(ps: seq<Piece>): (fields: seq<string>)
    ensures fields != []
  {
    if ps == [] then [""]
    else
      var fields, p := Fields(ps[..|ps| - 1]), ps[|ps| - 1];
      if p.Gap? then fields + [""] else fields[..|fields| - 1] + [fields[|fields| - 1] + p.text]
  }

  function NonEmpty(fields: seq<string>): seq<string> {
    if fields == [] then []
    else NonEmpty(fields[..|fields| - 1]) + (if fields[|fields| - 1] == "" then [] else [fields[|fields| - 1]])
  }

  // ---- The tokens of pieces ----

  /** Quoted text is taken as it is. */
  lemma {:induction false} QuotedContent(l: Lexer, q: string)
    requires (l.mode.SingleQuoted? && '\'' !in q) || (l.mode.DoubleQuoted? && '"' !in q)
    ensures FeedAll(l, q) == l.(cur := l.cur + q)
  {
    if q != "" {
      QuotedContent(l, q[..|q| - 1]);
      assert q == q[..|q| - 1] + [q[|q| - 1]];
      assert l.cur + q == l.cur + q[..|q| - 1] + [q[|q| - 1]];
    }
  }

  /** So is text without white space and quotes. */
  lemma {:induction false} BareContent(l: Lexer, s: string)
    requires l.mode.Normal? && IsPlain(s)
    ensures FeedAll(l, s) == l.(cur := l.cur + s)
  {
    if s != "" {
      BareContent(l, s[..|s| - 1]);
      assert s == s[..|s| - 1] + [s[|s| - 1]];
      assert l.cur + s == l.cur + s[..|s| - 1] + [s[|s| - 1]];
    }
  }

  lemma FeedOne(l: Lexer, c: char)
    ensures FeedAll(l, [c]) == Feed(l, c)
  {
    assert [c][..0] == "";
    assert FeedAll(l, [c]) == Feed(FeedAll(l, [c][..0]), c);
  }

  lemma OpenContent(l: Lexer, p: Piece)
    requires l.mode.Normal? && ProperOpen(Some(p))
    ensures FeedAll(l, WrittenOpen(Some(p)))
         == l.(mode := if p.InSingle? then SingleQuoted else DoubleQuoted, cur := l.cur + p.text)
  {
    var quote := if p.InSingle? then '\'' else '"';
    FeedAppend(l, [quote], p.text);
    FeedOne(l, quote);
    QuotedContent(Feed(l, quote), p.text);
  }

  lemma PieceContent(l: Lexer, p: Piece)
    requires l.mode.Normal? && Proper(p)
    ensures FeedAll(l, Written(p)) == if p.Gap? then Flush(l) else l.(cur := l.cur + p.text)
  {
    match p
    case Bare(text) => BareContent(l, text);
    case Gap(space) => FeedOne(l, space);
    case _ => ClosedContent(l, p);
  }

  lemma ClosedContent(l: Lexer, p: Piece)
    requires l.mode.Normal? && ProperOpen(Some(p))
    ensures FeedAll(l, Written(p)) == l.(cur := l.cur + p.text)
  {
    var quote := if p.InSingle? then '\'' else '"';
    OpenContent(l, p);
    assert Written(p) == WrittenOpen(Some(p)) + [quote];
    FeedAppend(l, WrittenOpen(Some(p)), [quote]);
    FeedOne(FeedAll(l, WrittenOpen(Some(p))), quote);
  }

  /** Between pieces the lexer has pushed the fields that are finished, but for empty ones. */
  function LexerAt(fields: seq<string>): Lexer
    requires fields != []
  {
    Lexer(Normal, fields[|fields| - 1], NonEmpty(fields[..|fields| - 1]))
  }

  lemma Appended(fields: seq<string>, f: string)
    ensures NonEmpty(fields + [f]) == NonEmpty(fields) + if f == "" then [] else [f]
  {
    assert (fields + [f])[..|fields|] == fields;
  }

  lemma {:induction false} PiecesContent(ps: seq<Piece>)
    requires AllProper(ps)
    ensures FeedAll(START, WrittenAll(ps)) == LexerAt(Fields(ps))
  {
    if ps != [] {
      var before, p := ps[..|ps| - 1], ps[|ps| - 1];
      PiecesContent(before);
      FeedAppend(START, WrittenAll(before), Written(p));
      PieceContent(LexerAt(Fields(before)), p);
      NextField(Fields(before), p);
    }
  }

  lemma NextField(fields: seq<string>, p: Piece)
    requires fields != []
    ensures p.Gap? ==> LexerAt(fields + [""]) == Flush(LexerAt(fields))
    ensures var l := LexerAt(fields);
            !p.Gap? ==> LexerAt(fields[..|fields| - 1] + [l.cur + p.text]) == l.(cur := l.cur + p.text)
  {
    var n := |fields| - 1;
    assert fields == fields[..n] + [fields[n]];
    Appended(fields[..n], fields[n]);
    assert (fields + [""])[..n + 1] == fields;
    if !p.Gap? {
      assert (fields[..n] + [fields[n] + p.text])[..n] == fields[..n];
    }
  }

  lemma FlushAt(fields: seq<string>)
    requires fields != []
    ensures Flush(LexerAt(fields)).out == NonEmpty(fields)
  {
    var n := |fields| - 1;
    assert fields == fields[..n] + [fields[n]];
    Appended(fields[..n], fields[n]);
  }

  /** The tokens of pieces are their fields but for the empty ones; an open quote counts as closed at the end. */
  lemma TokensOfPieces(ps: seq<Piece>, open: Option<Piece>)
    requires AllProper(ps) && ProperOpen(open)
    ensures Tokenized(WrittenAll(ps) + WrittenOpen(open)) == NonEmpty(Fields(ps + Closed(open)))
  {
    if open.Some? {
      TokensWithOpen(ps, open.value);
    } else {
      assert ps + [] == ps && WrittenAll(ps) + "" == WrittenAll(ps);
      PiecesContent(ps);
      FlushAt(Fields(ps));
    }
  }

  lemma TokensWithOpen(ps: seq<Piece>, p: Piece)
    requires AllProper(ps) && ProperOpen(Some(p))
    ensures Tokenized(WrittenAll(ps) + WrittenOpen(Some(p))) == NonEmpty(Fields(ps + [p]))
  {
    PiecesContent(ps);
    FeedAppend(START, WrittenAll(ps), WrittenOpen(Some(p)));
    OpenContent(LexerAt(Fields(ps)), p);
    LastField(ps, p);
    NextField(Fields(ps), p);
    FlushAt(Fields(ps + [p]));
  }

  lemma LastField(ps: seq<Piece>, p: Piece)
    requires !p.Gap?
    ensures var fields := Fields(ps);
            Fields(ps + [p]) == fields[..|fields| - 1] + [fields[|fields| - 1] + p.text]
  {
    assert (ps + [p])[..|ps|] == ps;
  }

  // ---- Every text is such pieces ----

  lemma OnePiece(ps: seq<Piece>, p: Piece)
    ensures WrittenAll(ps + [p]) == WrittenAll(ps) + Written(p)
  {
    assert (ps + [p])[..|ps|] == ps;
  }

  lemma NextCharacter(ps: seq<Piece>, open: Option<Piece>, c: char) returns (ps': seq<Piece>, open': Option<Piece>)
    requires AllProper(ps) && ProperOpen(open)
    ensures AllProper(ps') && ProperOpen(open')
    ensures WrittenAll(ps') + WrittenOpen(open') == WrittenAll(ps) + WrittenOpen(open) + [c]
  {
    if open.Some? {
      ps', open' := NextInQuotes(ps, open.value, c);
    } else if IsQuote(c) {
      ps', open' := ps, Some(if c == '\'' then InSingle("") else InDouble(""));
      Regroup(WrittenAll(ps), "", [c]);
    } else {
      var p := if IsSpace(c) then Gap(c) else Bare([c]);
      ps', open' := ps + [p], None;
      OnePiece(ps, p);
      Regroup(WrittenAll(ps), "", [c]);
    }
  }

  lemma NextInQuotes(ps: seq<Piece>, p: Piece, c: char) returns (ps': seq<Piece>, open': Option<Piece>)
    requires AllProper(ps) && ProperOpen(Some(p))
    ensures AllProper(ps') && ProperOpen(open')
    ensures WrittenAll(ps') + WrittenOpen(open') == WrittenAll(ps) + WrittenOpen(Some(p)) + [c]
  {
    Regroup(WrittenAll(ps), WrittenOpen(Some(p)), [c]);
    if c == if p.InSingle? then '\'' else '"' {
      ps', open' := ps + [p], None;
      OnePiece(ps, p);
      ClosingQuote(p, c);
      Regroup(WrittenAll(ps), Written(p), "");
    } else {
      ps', open' := ps, Some(p.(text := p.text + [c]));
      QuotedOn(p, c);
    }
  }

  lemma ClosingQuote(p: Piece, c: char)
    requires ProperOpen(Some(p)) && c == if p.InSingle? then '\'' else '"'
    ensures Written(p) == WrittenOpen(Some(p)) + [c]
  {
  }

  lemma QuotedOn(p: Piece, c: char)
    requires p.InSingle? || p.InDouble?
    ensures WrittenOpen(Some(p.(text := p.text + [c]))) == WrittenOpen(Some(p)) + [c]
  {
  }

  lemma Regroup(a: string, b: string, c: string)
    ensures a + b + c == a + (b + c) && a + "" == a
  {
  }

  lemma OneMoreCharacter(s: string, before: string, after: string)
    requires s != "" && before == s[..|s| - 1] && after == before + [s[|s| - 1]]
    ensures s == after
  {
  }

  /** Nothing is left out: every text is pieces and at most one open quote. */
  lemma {:induction false} EveryTextIsPieces(s: string) returns (ps: seq<Piece>, open: Option<Piece>)
    ensures AllProper(ps) && ProperOpen(open) && s == WrittenAll(ps) + WrittenOpen(open)
  {
    if s == "" {
      ps, open := [], None;
    } else {
      var ps0, open0 := EveryTextIsPieces(s[..|s| - 1]);
      ps, open := NextCharacter(ps0, open0, s[|s| - 1]);
      OneMoreCharacter(s, WrittenAll(ps0) + WrittenOpen(open0), WrittenAll(ps) + WrittenOpen(open));
    }
  }
}
