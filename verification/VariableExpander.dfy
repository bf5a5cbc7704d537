/**
 The variable expander of `src/util/var.cpp`: `$NAME` is replaced by the value of NAME, and a
 backslash escapes a dollar sign or another backslash.
 */
module VariableExpander {
  import opened Wrappers
  import opened Strings

  predicate IsIdentifierChar(c: char) {
    'A' <= c <= 'Z' || 'a' <= c <= 'z' || c == '_' || IsDigit(c)
  }

  type Values = map<string, string>

  function ValueOf(values: Values, name: string): string {
    if name in values then values[name] else ""
  }

  // ---- What expansion means ----

  datatype Token =
    | Plain(c: char)
    | Escape(c: char)        // a backslash and the character after it
    | Variable(name: string)

  /** find_first_not_of(IDENTIFIER_CHARS, pos), with the length of the text for npos. */
  function IdentifierEnd(s: string, pos: nat): (e: nat)
    requires pos <= |s|
    ensures pos <= e <= |s|
    decreases |s| - pos
  {
    if pos == |s| || !IsIdentifierChar(s[pos]) then pos else IdentifierEnd(s, pos + 1)
  }

  predicate StartsVariable(s: string, pos: nat) {
    pos + 1 < |s| && s[pos] == '$' && IsIdentifierChar(s[pos + 1]) && !IsDigit(s[pos + 1])
  }

  predicate StartsEscape(s: string, pos: nat) {
    pos + 1 < |s| && s[pos] == '\\'
  }

  /** Where the token at pos ends. */
  function TokenEnd(s: string, pos: nat): (e: nat)
    requires pos < |s|
    ensures pos < e <= |s|
  {
    if StartsEscape(s, pos) then pos + 2
    else if StartsVariable(s, pos) then IdentifierEnd(s, pos + 1)
    else pos + 1
  }

  function TokenAt(s: string, pos: nat): Token
    requires pos < |s|
  {
    if StartsEscape(s, pos) then Escape(s[pos + 1])
    else if StartsVariable(s, pos) then Variable(s[pos + 1..TokenEnd(s, pos)])
    else Plain(s[pos])
  }

  /** The tokens of a text from pos on, from left to right. */
  function Tokens(s: string, pos: nat): seq<Token>
    requires pos <= |s|
    decreases |s| - pos
  {
    if pos == |s| then [] else [TokenAt(s, pos)] + Tokens(s, TokenEnd(s, pos))
  }

  function SourceOf(t: Token): string {
    match t
    case Plain(c) => [c]
    case Escape(c) => ['\\', c]
    case Variable(name) => "$" + name
  }

  function Source(ts: seq<Token>): string {
    if ts == [] then "" else SourceOf(ts[0]) + Source(ts[1..])
  }

  /** Every variable is replaced by its value, everything else stays as it stands. */
  function RenderedAs(t: Token, values: Values): string {
    match t
    case Variable(name) => ValueOf(values, name)
    case _ => SourceOf(t)
  }

  function Rendered(ts: seq<Token>, values: Values): string {
    if ts == [] then "" else RenderedAs(ts[0], values) + Rendered(ts[1..], values)
  }

  /** One left-to-right substitution of the variables of the text itself; values are not looked at again. */
  function Substituted(s: string, values: Values): string {
    Rendered(Tokens(s, 0), values)
  }

  lemma FirstToken(s: string, pos: nat)
    requires pos < |s|
    ensures SourceOf(TokenAt(s, pos)) == s[pos..TokenEnd(s, pos)]
    ensures TokenAt(s, pos).Variable? <==> StartsVariable(s, pos)
  {
    if StartsVariable(s, pos) {
      var e := IdentifierEnd(s, pos + 1);
      assert "$" + s[pos + 1..e] == s[pos..e];
    } else if StartsEscape(s, pos) {
      assert s[pos..pos + 2] == ['\\', s[pos + 1]];
    } else {
      assert s[pos..pos + 1] == [s[pos]];
    }
  }

  lemma SourceOfMore(t: Token, ts: seq<Token>)
    ensures Source([t] + ts) == SourceOf(t) + Source(ts)
  {
    assert ([t] + ts)[1..] == ts;
  }

  lemma RenderedOfMore(t: Token, ts: seq<Token>, values: Values)
    ensures Rendered([t] + ts, values) == RenderedAs(t, values) + Rendered(ts, values)
  {
    assert ([t] + ts)[1..] == ts;
  }

  /** The tokens are a way of reading the text: nothing is lost or added. */
  lemma {:induction false} SourceOfTokens(s: string, pos: nat)
    requires pos <= |s|
    ensures Source(Tokens(s, pos)) == s[pos..]
    decreases |s| - pos
  {
    if pos < |s| {
      var e := TokenEnd(s, pos);
      FirstToken(s, pos);
      SourceOfMore(TokenAt(s, pos), Tokens(s, e));
      SourceOfTokens(s, e);
      Joined(s, pos, e);
    }
  }

  lemma Joined(s: string, pos: nat, e: nat)
    requires pos <= e <= |s|
    ensures s[pos..e] + s[e..] == s[pos..]
  {
  }

  // ---- Which characters are escaped ----

  /** Reading from `from` on, the character at i is escaped: an unescaped backslash stands before it. */
  predicate IsEscaped(s: string, from: nat, i: nat)
    requires from <= i <= |s|
  {
    i > from && s[i - 1] == '\\' && !IsEscaped(s, from, i - 1)
  }

  /** An unescaped dollar sign with a digit after it, which the expander cannot get past. */
  predicate DollarDigitAt(s: string, from: nat, i: nat) {
    from <= i && i + 1 < |s| && s[i] == '$' && !IsEscaped(s, from, i) && IsDigit(s[i + 1])
  }

  predicate NoDollarDigit(s: string, from: nat) {
    forall i: nat :: from <= i && i + 1 < |s| ==> !DollarDigitAt(s, from, i)
  }

  /** Reading can restart at any unescaped position. */
  lemma {:induction false} EscapedFromLater(s: string, from: nat, k: nat, i: nat)
    requires from <= k <= i <= |s| && !IsEscaped(s, from, k)
    ensures IsEscaped(s, k, i) == IsEscaped(s, from, i)
  {
    if i > k {
      EscapedFromLater(s, from, k, i - 1);
    }
  }

  lemma NoDollarDigitLater(s: string, from: nat, k: nat)
    requires from <= k <= |s| && !IsEscaped(s, from, k) && NoDollarDigit(s, from)
    ensures NoDollarDigit(s, k)
  {
    forall i: nat | k <= i && i + 1 < |s| ensures !DollarDigitAt(s, k, i) {
      EscapedFromLater(s, from, k, i);
      assert !DollarDigitAt(s, from, i);
    }
  }

  /** Only the text from `from` on matters. */
  lemma {:induction false} EscapedInSuffix(s: string, from: nat, s': string, from': nat, i: nat)
    requires from <= |s| && from' <= |s'| && s[from..] == s'[from'..] && i <= |s| - from
    ensures IsEscaped(s, from, from + i) == IsEscaped(s', from', from' + i)
  {
    if i > 0 {
      EscapedInSuffix(s, from, s', from', i - 1);
      assert s[from + i - 1] == s[from..][i - 1] == s'[from'..][i - 1];
    }
  }

  lemma NoDollarDigitInSuffix(s: string, from: nat, s': string, from': nat)
    requires from <= |s| && from' <= |s'| && s[from..] == s'[from'..] && NoDollarDigit(s, from)
    ensures NoDollarDigit(s', from')
  {
    forall i: nat | from' <= i && i + 1 < |s'| ensures !DollarDigitAt(s', from', i) {
      var k := i - from';
      EscapedInSuffix(s, from, s', from', k);
      assert s'[i] == s'[from'..][k] == s[from..][k] && s'[i + 1] == s'[from'..][k + 1] == s[from..][k + 1];
      assert !DollarDigitAt(s, from, from + k);
    }
  }

  // ---- find_unescaped and find_next_variable ----

  /** The first unescaped needle at or after pos, reading pos as unescaped unless told otherwise. */
  function NextUnescaped(s: string, needle: char, pos: nat, escaped: bool): (r: Option<nat>)
    requires pos <= |s|
    ensures r.Some? ==> pos <= r.value < |s| && s[r.value] == needle
    decreases |s| - pos
  {
    if pos == |s| then None
    else if s[pos] == '\\' && !escaped then NextUnescaped(s, needle, pos + 1, true)
    else if s[pos] == needle && !escaped then Some(pos)
    else NextUnescaped(s, needle, pos + 1, false)
  }

  /** The needle stands at i, unescaped when reading from `from` on. */
  predicate UnescapedAt(s: string, needle: char, from: nat, i: nat)
    requires from <= i < |s|
  {
    s[i] == needle && !IsEscaped(s, from, i)
  }

  /** The first unescaped needle at or after pos; a backslash is never one. */
  method FindUnescaped(search: string, needle: char, pos: nat) returns (r: Option<nat>)
    requires pos <= |search|
    ensures r.Some? ==> pos <= r.value < |search| && UnescapedAt(search, needle, pos, r.value)
    ensures needle != '\\' ==>
              forall i :: pos <= i < (if r.Some? then r.value else |search|) ==> !UnescapedAt(search, needle, pos, i)
    ensures r == NextUnescaped(search, needle, pos, false)
  {
    var escaped := false;
    for i := pos to |search|
      invariant escaped == IsEscaped(search, pos, i)
      invariant needle != '\\' ==> forall k :: pos <= k < i ==> !UnescapedAt(search, needle, pos, k)
      invariant NextUnescaped(search, needle, pos, false) == NextUnescaped(search, needle, i, escaped)
    {
      if search[i] == '\\' && !escaped {
        escaped := true;
      } else if search[i] == needle && !escaped {
        return Some(i);
      } else if escaped {
        escaped := false;
      }
    }
    return None;
  }

  /** What one look for a variable finds. */
  datatype Finding = NoVariable | Found(pos: nat, end: nat)   // the text from pos up to end

  /** The first variable token at or after pos. */
  function FirstVariable(s: string, pos: nat): (f: Finding)
    requires pos <= |s|
    ensures f.Found? ==> pos <= f.pos && StartsVariable(s, f.pos) && f.end == IdentifierEnd(s, f.pos + 1)
    decreases |s| - pos
  {
    if pos == |s| then NoVariable
    else if StartsEscape(s, pos) then FirstVariable(s, pos + 2)
    else if StartsVariable(s, pos) then Found(pos, IdentifierEnd(s, pos + 1))
    else FirstVariable(s, pos + 1)
  }

  /** The unescaped dollar sign the scan stops at is where the search for a variable can go on. */
  lemma {:induction false} SkipToDollar(s: string, from: nat, pos: nat)
    requires from <= pos <= |s| && !IsEscaped(s, from, pos)
    ensures var q := NextUnescaped(s, '$', pos, false);
            if q.Some? then FirstVariable(s, pos) == FirstVariable(s, q.value) && !IsEscaped(s, from, q.value)
            else FirstVariable(s, pos).NoVariable?
    decreases |s| - pos
  {
    if pos == |s| {
    } else if s[pos] == '\\' {
      if pos + 1 < |s| {
        assert IsEscaped(s, from, pos + 1) && !IsEscaped(s, from, pos + 2);
        assert NextUnescaped(s, '$', pos, false) == NextUnescaped(s, '$', pos + 2, false);
        SkipToDollar(s, from, pos + 2);
      }
    } else if s[pos] != '$' {
      SkipToDollar(s, from, pos + 1);
    }
  }

  /** What the scan learns at the next unescaped dollar sign. */
  lemma AtDollar(s: string, from: nat, pos: nat, q: nat)
    requires from <= pos <= |s| && !IsEscaped(s, from, pos) && NoDollarDigit(s, from)
    requires NextUnescaped(s, '$', pos, false) == Some(q) && q + 1 < |s|
    ensures !IsEscaped(s, from, q)
    ensures var e := IdentifierEnd(s, q + 1);
            if e > q + 1 then FirstVariable(s, pos) == Found(q, e)
            else FirstVariable(s, pos) == FirstVariable(s, q + 1) && !IsEscaped(s, from, q + 1)
  {
    SkipToDollar(s, from, pos);
    assert !DollarDigitAt(s, from, q);
  }

  lemma NoDollar(s: string, from: nat, pos: nat)
    requires from <= pos <= |s| && !IsEscaped(s, from, pos)
    requires var q := NextUnescaped(s, '$', pos, false); q.None? || q.value + 1 == |s|
    ensures FirstVariable(s, pos).NoVariable?
  {
    SkipToDollar(s, from, pos);
  }

  method FindNextVariable(text: string, start: nat) returns (f: Finding)
    requires start <= |text| && NoDollarDigit(text, start)
    ensures f == FirstVariable(text, start)
    ensures f.Found? ==> !IsEscaped(text, start, f.pos)
  {
    var pos := start;
    while true
      invariant start <= pos <= |text| && !IsEscaped(text, start, pos)
      invariant FirstVariable(text, start) == FirstVariable(text, pos)
      decreases |text| - pos
    {
      var q := FindUnescaped(text, '$', pos);
      if q.None? || q.value >= |text| - 1 {
        NoDollar(text, start, pos);
        return NoVariable;
      }
      AtDollar(text, start, pos, q.value);
      pos := q.value;
      var nonIdent := IdentifierEnd(text, pos + 1);
      if nonIdent > pos + 1 {
        return Found(pos, nonIdent);
      }
      pos := pos + 1;
    }
  }

  // ---- expand_variables ----

  lemma RenderedToken(s: string, pos: nat, values: Values)
    requires pos < |s|
    ensures var e := TokenEnd(s, pos);
            Rendered(Tokens(s, pos), values) ==
              (if StartsVariable(s, pos) then ValueOf(values, s[pos + 1..e]) else s[pos..e])
                  + Rendered(Tokens(s, e), values)
  {
    FirstToken(s, pos);
    RenderedOfMore(TokenAt(s, pos), Tokens(s, TokenEnd(s, pos)), values);
  }

  /** The text from pos, with the variable found replaced by `value` and what follows it by `rest`. */
  function Around(s: string, pos: nat, f: Finding, value: string, rest: string): string
    requires pos <= |s| && (f.Found? ==> pos <= f.pos <= |s|)
  {
    if f.NoVariable? then s[pos..] else s[pos..f.pos] + (value + rest)
  }

  lemma AroundLater(s: string, pos: nat, e: nat, f: Finding, value: string, rest: string)
    requires pos <= e <= |s| && (f.Found? ==> e <= f.pos <= |s|)
    ensures Around(s, pos, f, value, rest) == s[pos..e] + Around(s, e, f, value, rest)
  {
    if f.Found? {
      assert s[pos..e] + s[e..f.pos] == s[pos..f.pos];
    } else {
      assert s[pos..e] + s[e..] == s[pos..];
    }
  }

  lemma FirstVariableLater(s: string, pos: nat)
    requires pos < |s| && !StartsVariable(s, pos)
    ensures FirstVariable(s, pos) == FirstVariable(s, TokenEnd(s, pos))
  {
  }

  /** The text up to the first variable, its value, and the tokens after it. */
  lemma {:induction false} RenderedByFirst(s: string, pos: nat, values: Values, f: Finding, value: string, rest: string)
    requires pos <= |s| && f == FirstVariable(s, pos)
    requires f.Found? ==> value == ValueOf(values, s[f.pos + 1..f.end]) && rest == Rendered(Tokens(s, f.end), values)
    ensures Rendered(Tokens(s, pos), values) == Around(s, pos, f, value, rest)
    decreases |s| - pos
  {
    if pos < |s| {
      RenderedToken(s, pos, values);
      if StartsVariable(s, pos) {
        assert s[pos..pos] + (value + rest) == value + rest;
      } else {
        var e := TokenEnd(s, pos);
        FirstVariableLater(s, pos);
        RenderedByFirst(s, e, values, f, value, rest);
        AroundLater(s, pos, e, f, value, rest);
      }
    }
  }

  /** Only the text from the position on matters. */
  lemma {:induction false} TokensOfSuffix(s: string, pos: nat, s': string, pos': nat)
    requires pos <= |s| && pos' <= |s'| && s[pos..] == s'[pos'..]
    ensures Tokens(s, pos) == Tokens(s', pos')
    decreases |s| - pos
  {
    if pos < |s| {
      TokenOfSuffix(s, pos, s', pos');
      SameSuffix(s, pos, s', pos', TokenEnd(s, pos) - pos);
      TokensOfSuffix(s, TokenEnd(s, pos), s', TokenEnd(s', pos'));
    }
  }

  lemma TokenOfSuffix(s: string, pos: nat, s': string, pos': nat)
    requires pos < |s| && pos' <= |s'| && s[pos..] == s'[pos'..]
    ensures pos' < |s'| && TokenAt(s, pos) == TokenAt(s', pos') && TokenEnd(s, pos) - pos == TokenEnd(s', pos') - pos'
  {
    SameSuffix(s, pos, s', pos', 0);
    if pos + 1 < |s| {
      SameSuffix(s, pos, s', pos', 1);
    }
    if StartsVariable(s, pos) {
      IdentifierOfSuffix(s, pos + 1, s', pos' + 1);
      SameSlice(s, pos, s', pos', 1, IdentifierEnd(s, pos + 1) - pos);
    }
  }

  lemma SameSlice(s: string, pos: nat, s': string, pos': nat, k: nat, m: nat)
    requires pos <= |s| && pos' <= |s'| && s[pos..] == s'[pos'..] && k <= m <= |s| - pos
    ensures m <= |s'| - pos' && s[pos + k..pos + m] == s'[pos' + k..pos' + m]
  {
    assert |s| - pos == |s[pos..]| == |s'| - pos';
    SliceOfDrop(s, pos, k, m);
    SliceOfDrop(s', pos', k, m);
  }

  lemma SliceOfDrop(s: string, pos: nat, k: nat, m: nat)
    requires pos <= |s| && k <= m <= |s| - pos
    ensures s[pos..][k..m] == s[pos + k..pos + m]
  {
  }

  lemma SameSuffix(s: string, pos: nat, s': string, pos': nat, k: nat)
    requires pos <= |s| && pos' <= |s'| && s[pos..] == s'[pos'..] && pos + k <= |s|
    ensures |s| - pos == |s'| - pos' && s[pos + k..] == s'[pos' + k..]
    ensures pos + k < |s| ==> s[pos + k] == s'[pos' + k]
  {
    assert s[pos..][k..] == s[pos + k..] && s'[pos'..][k..] == s'[pos' + k..];
    if pos + k < |s| {
      assert s[pos..][k] == s'[pos'..][k];
    }
  }

  lemma {:induction false} IdentifierOfSuffix(s: string, pos: nat, s': string, pos': nat)
    requires pos <= |s| && pos' <= |s'| && s[pos..] == s'[pos'..]
    ensures IdentifierEnd(s, pos) - pos == IdentifierEnd(s', pos') - pos'
    decreases |s| - pos
  {
    if pos < |s| {
      SameSuffix(s, pos, s', pos', 0);
      SameSuffix(s, pos, s', pos', 1);
      IdentifierOfSuffix(s, pos + 1, s', pos' + 1);
    }
  }

  lemma {:induction false} LastOfIdentifier(s: string, pos: nat)
    requires pos <= |s|
    ensures IdentifierEnd(s, pos) > pos ==> s[IdentifierEnd(s, pos) - 1] != '\\'
    decreases |s| - pos
  {
    if pos < |s| {
      LastOfIdentifier(s, pos + 1);
    }
  }

  /** After a variable reading goes on unescaped. */
  lemma AfterVariable(s: string, from: nat, f: Finding)
    requires from <= |s| && NoDollarDigit(s, from)
    requires f.Found? && from <= f.pos && f.pos + 1 < |s| && s[f.pos] == '$' && !IsEscaped(s, from, f.pos)
    requires f.end == IdentifierEnd(s, f.pos + 1)
    ensures NoDollarDigit(s, f.end)
  {
    LastOfIdentifier(s, f.pos + 1);
    NoDollarDigitLater(s, from, f.end);
  }

  lemma Replaced(s: string, p: nat, val: string, end: nat)
    requires p <= end <= |s|
    ensures var s' := s[..p] + val + s[end..]; s'[p + |val|..] == s[end..] && s'[..p + |val|] == s[..p] + val
  {
  }

  /** Going on behind the value, the same text is ahead as behind the variable. */
  lemma ReplacementKeeps(text: string, pos: nat, f: Finding, text': string, pos': nat)
    requires pos <= |text| && NoDollarDigit(text, pos)
    requires f.Found? && pos <= f.pos && f.pos + 1 < |text| && text[f.pos] == '$' && !IsEscaped(text, pos, f.pos)
    requires f.end == IdentifierEnd(text, f.pos + 1) && pos' <= |text'| && text'[pos'..] == text[f.end..]
    ensures NoDollarDigit(text', pos') && |text'| - pos' < |text| - pos
  {
    AfterVariable(text, pos, f);
    NoDollarDigitInSuffix(text, f.end, text', pos');
    assert |text'[pos'..]| == |text[f.end..]|;
  }

  /** What is done and what is still to be rendered together stay the same. */
  lemma ReplacementRenders(values: Values, text: string, pos: nat, f: Finding, val: string, text': string, pos': nat)
    requires pos <= |text| && f == FirstVariable(text, pos) && f.Found?
            && val == ValueOf(values, text[f.pos + 1..f.end])
    requires pos' <= |text'| && text'[pos'..] == text[f.end..] && text'[..pos'] == text[..f.pos] + val
    ensures text[..pos] + Rendered(Tokens(text, pos), values) == text'[..pos'] + Rendered(Tokens(text', pos'), values)
  {
    var rest := Rendered(Tokens(text, f.end), values);
    RenderedByFirst(text, pos, values, f, val, rest);
    TokensOfSuffix(text, f.end, text', pos');
    Regrouped(text, pos, f.pos, val, rest);
  }

  lemma Regrouped(s: string, pos: nat, p: nat, val: string, rest: string)
    requires pos <= p <= |s|
    ensures s[..pos] + (s[pos..p] + (val + rest)) == s[..p] + val + rest
  {
  }

  /**
   expand_variables: replaces in place, from left to right, and equals one substitution of the
   original text. A value is never looked at again, whatever it contains.
   */
  method ExpandVariables(values: Values, original: string) returns (text: string)
    requires NoDollarDigit(original, 0)
    ensures text == Substituted(original, values)
  {
    text := original;
    var pos := 0;
    while true
      invariant 0 <= pos <= |text|
      invariant NoDollarDigit(text, pos)
      invariant Substituted(original, values) == text[..pos] + Rendered(Tokens(text, pos), values)
      decreases |text| - pos
    {
      var f := FindNextVariable(text, pos);
      if f.NoVariable? {
        RenderedByFirst(text, pos, values, f, "", "");
        assert text[..pos] + text[pos..] == text;
        return;
      }
      var val := ValueOf(values, text[f.pos + 1..f.end]);
      ghost var before, from := text, pos;
      Replaced(text, f.pos, val, f.end);
      text := text[..f.pos] + val + text[f.end..];
      pos := f.pos + |val|;
      ReplacementKeeps(before, from, f, text, pos);
      ReplacementRenders(values, before, from, f, val, text, pos);
    }
  }

  // ---- When expand_variables ends ----

  datatype Loop = Scanning(text: string, pos: nat) | Finished(text: string)

  /** One turn of the loop in find_next_variable, with the replacement when it finds a variable. */
  function Turn(values: Values, text: string, pos: nat): (next: Loop)
    requires pos <= |text|
    ensures next.Scanning? ==> next.pos <= |next.text|
  {
    var q := NextUnescaped(text, '$', pos, false);
    if q.None? || q.value + 1 == |text| then Finished(text)
    else if IsDigit(text[q.value + 1]) then Scanning(text, q.value)
    else
      var e := IdentifierEnd(text, q.value + 1);
      if e > q.value + 1 then
        var val := ValueOf(values, text[q.value + 1..e]);
        Scanning(text[..q.value] + val + text[e..], q.value + |val|)
      else Scanning(text, q.value + 1)
  }

  function Turns(values: Values, loop: Loop, n: nat): Loop
    requires loop.Scanning? ==> loop.pos <= |loop.text|
    decreases n
  {
    if n == 0 || loop.Finished? then loop else Turns(values, Turn(values, loop.text, loop.pos), n - 1)
  }

  /** The scan stops no later than at an unescaped dollar sign. */
  lemma {:induction false} StopsBy(s: string, from: nat, pos: nat, i: nat)
    requires from <= pos <= i < |s| && s[i] == '$' && !IsEscaped(s, from, pos) && !IsEscaped(s, from, i)
    ensures var q := NextUnescaped(s, '$', pos, false); q.Some? && q.value <= i && !IsEscaped(s, from, q.value)
    decreases i - pos
  {
    if s[pos] == '\\' {
      assert IsEscaped(s, from, pos + 1) && !IsEscaped(s, from, pos + 2);
      StopsBy(s, from, pos + 2, i);
      assert NextUnescaped(s, '$', pos, false) == NextUnescaped(s, '$', pos + 2, false);
    } else if s[pos] != '$' {
      StopsBy(s, from, pos + 1, i);
    }
  }

  /** A turn goes on with what follows the name after the dollar sign, which may be empty. */
  lemma TurnAtDollar(values: Values, text: string, pos: nat, q: nat)
    requires pos <= |text| && NextUnescaped(text, '$', pos, false) == Some(q) && q + 1 < |text| && !IsDigit(text[q + 1])
    ensures var next := Turn(values, text, pos);
            next.Scanning? && next.text[next.pos..] == text[IdentifierEnd(text, q + 1)..]
  {
    var e := IdentifierEnd(text, q + 1);
    if e > q + 1 {
      Replaced(text, q, ValueOf(values, text[q + 1..e]), e);
    }
  }

  /** A turn keeps a dollar sign before a digit ahead of the scan, so no turn ends the loop. */
  lemma TurnKeepsDollarDigit(values: Values, text: string, pos: nat, i: nat) returns (next: Loop, k: nat)
    requires pos <= |text| && DollarDigitAt(text, pos, i)
    ensures next == Turn(values, text, pos)
    ensures next.Scanning? && next.pos <= |next.text| && DollarDigitAt(next.text, next.pos, k)
  {
    var q := DollarAhead(text, pos, i);
    if IsDigit(text[q + 1]) {
      next, k := Scanning(text, q), q;
    } else {
      TurnAtDollar(values, text, pos, q);
      next := Turn(values, text, pos);
      k := AheadOfNext(text, pos, q, i, next.text, next.pos);
    }
  }

  lemma DollarAhead(text: string, pos: nat, i: nat) returns (q: nat)
    requires pos <= |text| && DollarDigitAt(text, pos, i)
    ensures NextUnescaped(text, '$', pos, false) == Some(q) && pos <= q <= i && text[q] == '$'
            && !IsEscaped(text, pos, q)
    ensures IsDigit(text[q + 1]) ==> DollarDigitAt(text, q, q)
  {
    StopsBy(text, pos, pos, i);
    q := NextUnescaped(text, '$', pos, false).value;
  }

  lemma AheadOfNext(text: string, pos: nat, q: nat, i: nat, text': string, pos': nat) returns (k: nat)
    requires pos <= q <= i && DollarDigitAt(text, pos, i) && text[q] == '$' && !IsEscaped(text, pos, q)
            && !IsDigit(text[q + 1])
    requires pos' <= |text'| && text'[pos'..] == text[IdentifierEnd(text, q + 1)..]
    ensures DollarDigitAt(text', pos', k)
  {
    StillAhead(text, pos, q, i);
    DollarDigitInSuffix(text, IdentifierEnd(text, q + 1), text', pos', i);
    k := pos' + (i - IdentifierEnd(text, q + 1));
  }

  lemma StillAhead(text: string, pos: nat, q: nat, i: nat)
    requires pos <= q < i && DollarDigitAt(text, pos, i) && text[q] == '$' && !IsEscaped(text, pos, q)
    ensures DollarDigitAt(text, IdentifierEnd(text, q + 1), i)
  {
    var e := IdentifierEnd(text, q + 1);
    NotInIdentifier(text, q + 1, i);
    LastOfIdentifier(text, q + 1);
    EscapedFromLater(text, pos, e, i);
  }

  lemma {:induction false} NotInIdentifier(s: string, pos: nat, i: nat)
    requires pos <= i < |s| && s[i] == '$'
    ensures i >= IdentifierEnd(s, pos)
    decreases |s| - pos
  {
    if pos < i {
      NotInIdentifier(s, pos + 1, i);
    }
  }

  lemma DollarDigitInSuffix(s: string, from: nat, s': string, from': nat, i: nat)
    requires from <= |s| && from' <= |s'| && s[from..] == s'[from'..] && DollarDigitAt(s, from, i)
    ensures DollarDigitAt(s', from', from' + (i - from))
  {
    var k := i - from;
    EscapedInSuffix(s, from, s', from', k);
    assert s'[from' + k] == s'[from'..][k] == s[from..][k]
        && s'[from' + k + 1] == s'[from'..][k + 1] == s[from..][k + 1];
  }

  lemma TurnBehind(values: Values, text: string, pos: nat, i: nat) returns (next: Loop, k: nat)
    requires pos <= |text| && DollarDigitAt(text, pos, i)
    ensures next.Scanning? && next.pos <= |next.text| && DollarDigitAt(next.text, next.pos, k)
    ensures forall n: nat :: Turns(values, Scanning(text, pos), n + 1) == Turns(values, next, n)
  {
    next, k := TurnKeepsDollarDigit(values, text, pos, i);
  }

  lemma {:induction false} NeverEnds(values: Values, text: string, pos: nat, i: nat, n: nat)
    requires pos <= |text| && DollarDigitAt(text, pos, i)
    ensures Turns(values, Scanning(text, pos), n).Scanning?
    decreases n
  {
    if n > 0 {
      var next, k := TurnBehind(values, text, pos, i);
      NeverEnds(values, next.text, next.pos, k, n - 1);
      assert Turns(values, Scanning(text, pos), (n - 1) + 1) == Turns(values, next, n - 1);
    }
  }

  /** Without such a dollar sign each turn leaves less text to scan. */
  lemma TurnAdvances(values: Values, text: string, pos: nat)
    requires pos <= |text| && NoDollarDigit(text, pos)
    ensures var next := Turn(values, text, pos);
            next.Scanning? ==> NoDollarDigit(next.text, next.pos) && |next.text| - next.pos < |text| - pos
  {
    var next := Turn(values, text, pos);
    if next.Scanning? {
      var q := NextUnescaped(text, '$', pos, false).value;
      AtDollar(text, pos, pos, q);
      assert !DollarDigitAt(text, pos, q);
      TurnAtDollar(values, text, pos, q);
      AheadKeeps(text, pos, q, next.text, next.pos);
    }
  }

  lemma AheadKeeps(text: string, pos: nat, q: nat, text': string, pos': nat)
    requires pos <= q && q + 1 < |text| && NoDollarDigit(text, pos) && text[q] == '$' && !IsEscaped(text, pos, q)
    requires pos' <= |text'| && text'[pos'..] == text[IdentifierEnd(text, q + 1)..]
    ensures NoDollarDigit(text', pos') && |text'| - pos' < |text| - pos
  {
    var e := IdentifierEnd(text, q + 1);
    LastOfIdentifier(text, q + 1);
    NoDollarDigitLater(text, pos, e);
    NoDollarDigitInSuffix(text, e, text', pos');
    assert |text'[pos'..]| == |text[e..]|;
  }

  lemma TurnAhead(values: Values, text: string, pos: nat) returns (next: Loop)
    requires pos <= |text| && NoDollarDigit(text, pos)
    ensures next == Turn(values, text, pos)
    ensures next.Scanning? ==> next.pos <= |next.text| && NoDollarDigit(next.text, next.pos)
                               && |next.text| - next.pos < |text| - pos
    ensures forall n: nat :: Turns(values, Scanning(text, pos), n + 1) == Turns(values, next, n)
  {
    TurnAdvances(values, text, pos);
    next := Turn(values, text, pos);
  }

  lemma {:induction false} Ends(values: Values, text: string, pos: nat) returns (n: nat)
    requires pos <= |text| && NoDollarDigit(text, pos)
    ensures Turns(values, Scanning(text, pos), n).Finished?
    decreases |text| - pos
  {
    var next := TurnAhead(values, text, pos);
    n := 0;
    if next.Scanning? {
      n := Ends(values, next.text, next.pos);
    }
    assert Turns(values, next, n).Finished?;
    n := n + 1;
  }

  /** Around a variable that is not there the text itself is left. */
  lemma NothingToRender(values: Values, text: string, pos: nat)
    requires pos <= |text| && FirstVariable(text, pos).NoVariable?
    ensures text[..pos] + Rendered(Tokens(text, pos), values) == text
  {
    RenderedByFirst(text, pos, values, NoVariable, "", "");
    assert text[..pos] + text[pos..] == text;
  }

  /** Going past a dollar sign that starts no variable changes nothing. */
  lemma PastDollar(values: Values, text: string, pos: nat, k: nat)
    requires pos <= k <= |text| && FirstVariable(text, pos) == FirstVariable(text, k)
    ensures text[..pos] + Rendered(Tokens(text, pos), values) == text[..k] + Rendered(Tokens(text, k), values)
  {
    var f := FirstVariable(text, k);
    var value := if f.Found? then ValueOf(values, text[f.pos + 1..f.end]) else "";
    var rest := if f.Found? then Rendered(Tokens(text, f.end), values) else "";
    RenderedByFirst(text, pos, values, f, value, rest);
    RenderedByFirst(text, k, values, f, value, rest);
    AroundPast(text, pos, k, f, value, rest);
  }

  lemma AroundPast(text: string, pos: nat, k: nat, f: Finding, value: string, rest: string)
    requires pos <= k <= |text| && (f.Found? ==> k <= f.pos <= |text|)
    ensures text[..pos] + Around(text, pos, f, value, rest) == text[..k] + Around(text, k, f, value, rest)
  {
    AroundLater(text, pos, k, f, value, rest);
    Pieces(text, pos, k, Around(text, k, f, value, rest));
  }

  lemma Pieces(text: string, pos: nat, k: nat, rest: string)
    requires pos <= k <= |text|
    ensures text[..pos] + (text[pos..k] + rest) == text[..k] + rest
  {
  }

  /** What is done and what is left to be rendered. */
  function Whole(values: Values, loop: Loop): string
    requires loop.Scanning? ==> loop.pos <= |loop.text|
  {
    if loop.Finished? then loop.text else loop.text[..loop.pos] + Rendered(Tokens(loop.text, loop.pos), values)
  }

  /** What a turn has done and what it leaves to be rendered are together the same as before. */
  lemma TurnRenders(values: Values, text: string, pos: nat)
    requires pos <= |text| && NoDollarDigit(text, pos)
    ensures Whole(values, Turn(values, text, pos)) == Whole(values, Scanning(text, pos))
  {
    var q := NextUnescaped(text, '$', pos, false);
    if q.None? || q.value + 1 == |text| {
      NoDollar(text, pos, pos);
      NothingToRender(values, text, pos);
    } else {
      AtDollar(text, pos, pos, q.value);
      assert !DollarDigitAt(text, pos, q.value);
      if IdentifierEnd(text, q.value + 1) > q.value + 1 {
        VariableTurn(values, text, pos, q.value);
      } else {
        PastDollar(values, text, pos, q.value + 1);
      }
    }
  }

  /** A turn that finds a variable puts its value in its place and goes on behind it. */
  lemma TurnReplaces(values: Values, text: string, pos: nat, q: nat)
    requires pos <= |text| && NextUnescaped(text, '$', pos, false) == Some(q) && q + 1 < |text| && !IsDigit(text[q + 1])
    requires IdentifierEnd(text, q + 1) > q + 1
    ensures var next, e := Turn(values, text, pos), IdentifierEnd(text, q + 1);
            && next.Scanning? && next.text[next.pos..] == text[e..]
            && next.text[..next.pos] == text[..q] + ValueOf(values, text[q + 1..e])
  {
    Replaced(text, q, ValueOf(values, text[q + 1..IdentifierEnd(text, q + 1)]), IdentifierEnd(text, q + 1));
  }

  lemma VariableTurn(values: Values, text: string, pos: nat, q: nat)
    requires pos <= |text| && NextUnescaped(text, '$', pos, false) == Some(q) && q + 1 < |text| && !IsDigit(text[q + 1])
    requires var e := IdentifierEnd(text, q + 1); e > q + 1 && FirstVariable(text, pos) == Found(q, e)
    ensures Whole(values, Turn(values, text, pos)) == Whole(values, Scanning(text, pos))
  {
    TurnReplaces(values, text, pos, q);
    var next, e := Turn(values, text, pos), IdentifierEnd(text, q + 1);
    ReplacementRenders(values, text, pos, Found(q, e), ValueOf(values, text[q + 1..e]), next.text, next.pos);
  }

  /** Turn by turn, the loop ends with the substitution of the original text. */
  lemma {:induction false} TurnsSubstitute(values: Values, text: string, pos: nat) returns (n: nat)
    requires pos <= |text| && NoDollarDigit(text, pos)
    ensures Turns(values, Scanning(text, pos), n) == Finished(Whole(values, Scanning(text, pos)))
    decreases |text| - pos
  {
    TurnRenders(values, text, pos);
    var next := TurnAhead(values, text, pos);
    n := 0;
    if next.Scanning? {
      n := TurnsSubstitute(values, next.text, next.pos);
    }
    assert Turns(values, Scanning(text, pos), n + 1) == Turns(values, next, n);
    n := n + 1;
  }

  lemma ExpansionEndsInSubstitution(values: Values, text: string)
    requires NoDollarDigit(text, 0)
    ensures exists n: nat :: Turns(values, Scanning(text, 0), n) == Finished(Substituted(text, values))
  {
    var n := TurnsSubstitute(values, text, 0);
    assert text[..0] + Substituted(text, values) == Substituted(text, values);
  }

  /**
   The expansion of a text ends if and only if no unescaped dollar sign stands directly before a
   digit, whatever the variables.
   */
  lemma ExpansionEndsIff(values: Values, text: string)
    ensures NoDollarDigit(text, 0) <==> exists n: nat :: Turns(values, Scanning(text, 0), n).Finished?
  {
    if NoDollarDigit(text, 0) {
      var n := Ends(values, text, 0);
    } else {
      var i: nat :| i + 1 < |text| && DollarDigitAt(text, 0, i);
      forall n: nat ensures Turns(values, Scanning(text, 0), n).Scanning? {
        NeverEnds(values, text, 0, i, n);
      }
    }
  }

  // ---- remove_escapes ----

  predicate Escapable(c: char) {
    c == '\\' || c == '$'
  }

  function Prepended(prefix: string, r: Result<string, char>): Result<string, char> {
    match r
    case Ok(s) => Ok(prefix + s)
    case Err(c) => Err(c)
  }

  /** Escaping backslashes removed; an error is the character a backslash may not escape. */
  function Unescaped(s: string, pos: nat): Result<string, char>
    requires pos <= |s|
    decreases |s| - pos
  {
    if pos == |s| then Ok("")
    else if s[pos] == '\\' then AfterBackslash(s, pos + 1)
    else Prepended([s[pos]], Unescaped(s, pos + 1))
  }

  function AfterBackslash(s: string, pos: nat): Result<string, char>
    requires pos <= |s|
    decreases |s| - pos
  {
    if pos == |s| then Ok("")
    else if Escapable(s[pos]) then Prepended([s[pos]], Unescaped(s, pos + 1))
    else Err(s[pos])
  }

  lemma PrependedNothing(r: Result<string, char>)
    ensures Prepended("", r) == r
  {
    if r.Ok? {
      assert "" + r.value == r.value;
    }
  }

  lemma PrependedTwice(a: string, b: string, r: Result<string, char>)
    ensures Prepended(a, Prepended(b, r)) == Prepended(a + b, r)
  {
    if r.Ok? {
      assert a + (b + r.value) == (a + b) + r.value;
    }
  }

  /** remove_escapes: erases each escaping backslash in place. */
  method RemoveEscapes(original: string) returns (r: Result<string, char>)
    ensures r == Unescaped(original, 0)
  {
    var text, escaped, iter := original, false, 0;
    ghost var k := 0;   // how much of the original has been read
    assert text[0..] == original[0..];
    PrependedNothing(Unescaped(original, 0));
    while iter < |text|
      invariant iter <= |text| && k <= |original| && text[iter..] == original[k..]
      invariant Unescaped(original, 0)
             == Prepended(text[..iter], if escaped then AfterBackslash(original, k) else Unescaped(original, k))
      decreases |original| - k
    {
      assert text[iter] == text[iter..][0] == original[k] && text[iter + 1..] == text[iter..][1..] == original[k + 1..];
      assert text[..iter + 1] == text[..iter] + [text[iter]];
      if !escaped {
        if text[iter] == '\\' {
          escaped := true;
          text := text[..iter] + text[iter + 1..];
        } else {
          PrependedTwice(text[..iter], [text[iter]], Unescaped(original, k + 1));
          iter := iter + 1;
        }
      } else {
        if !Escapable(text[iter]) {
          return Err(text[iter]);
        }
        PrependedTwice(text[..iter], [text[iter]], Unescaped(original, k + 1));
        escaped := false;
        iter := iter + 1;
      }
      k := k + 1;
    }
    assert k == |original| && text[..iter] == text && text + "" == text;
    return Ok(text);
  }

  /** A backslash that escapes a character it may not escape. */
  predicate BadEscapeAt(s: string, from: nat, i: nat) {
    from <= i && i + 1 < |s| && s[i] == '\\' && !IsEscaped(s, from, i) && !Escapable(s[i + 1])
  }

  /** remove_escapes fails exactly when an escaping backslash stands before anything but a backslash or dollar sign. */
  lemma {:induction false} UnescapeFailsIff(s: string, from: nat, pos: nat)
    requires from <= pos <= |s| && !IsEscaped(s, from, pos)
    ensures Unescaped(s, pos).Err? <==> exists i :: pos <= i && BadEscapeAt(s, from, i)
    decreases |s| - pos
  {
    if pos == |s| {
    } else if s[pos] == '\\' {
      if pos + 1 < |s| {
        assert IsEscaped(s, from, pos + 1) && !IsEscaped(s, from, pos + 2);
        if Escapable(s[pos + 1]) {
          UnescapeFailsIff(s, from, pos + 2);
          assert !BadEscapeAt(s, from, pos) && !BadEscapeAt(s, from, pos + 1);
          if i :| pos <= i && BadEscapeAt(s, from, i) {
            assert pos + 2 <= i;
          }
        } else {
          assert BadEscapeAt(s, from, pos);
        }
      }
    } else {
      UnescapeFailsIff(s, from, pos + 1);
      if i :| pos <= i && BadEscapeAt(s, from, i) {
        assert pos + 1 <= i;
      }
    }
  }

  // ---- Escaping and expanding ----

  /** A backslash before every backslash and every dollar sign. */
  function Escaped(s: string): string {
    if s == "" then ""
    else (if Escapable(s[0]) then ['\\', s[0]] else [s[0]]) + Escaped(s[1..])
  }

  lemma AfterEscape(s: string, pos: nat)
    requires pos + 1 < |s| && s[pos] == '\\'
    ensures IsEscaped(s, pos, pos + 1) && !IsEscaped(s, pos, pos + 2)
  {
    assert IsEscaped(s, pos, pos + 1);
  }

  /** An escaped text holds no variable, and unescaping it gives the text back. */
  lemma {:induction false} EscapedInPlace(before: string, s: string)
    ensures var text, pos := before + Escaped(s), |before|;
            FirstVariable(text, pos).NoVariable? && NoDollarDigit(text, pos) && Unescaped(text, pos) == Ok(s)
    decreases |s|
  {
    var text, pos := before + Escaped(s), |before|;
    if s != "" {
      var piece := if Escapable(s[0]) then ['\\', s[0]] else [s[0]];
      assert text == (before + piece) + Escaped(s[1..]);
      EscapedInPlace(before + piece, s[1..]);
      assert s == [s[0]] + s[1..];
      var k := pos + |piece|;
      if Escapable(s[0]) {
        assert text[pos] == '\\' && text[pos + 1] == s[0];
        AfterEscape(text, pos);
      } else {
        assert text[pos] == s[0];
        assert !IsEscaped(text, pos, k);
      }
      forall i: nat | pos <= i && i + 1 < |text| ensures !DollarDigitAt(text, pos, i) {
        if k <= i {
          EscapedFromLater(text, pos, k, i);
          assert !DollarDigitAt(text, k, i);
        }
      }
    }
  }

  /** The result of expand: one substitution, then the escapes removed. */
  function Expanded(text: string, values: Values): Result<string, char> {
    Unescaped(Substituted(text, values), 0)
  }

  /** Expanding an escaped text gives the text back, under any variables. */
  lemma EscapeRoundTrip(s: string, values: Values)
    ensures NoDollarDigit(Escaped(s), 0)
    ensures Expanded(Escaped(s), values) == Ok(s)
  {
    EscapedInPlace("", s);
    assert "" + Escaped(s) == Escaped(s);
    RenderedByFirst(Escaped(s), 0, values, NoVariable, "", "");
    assert Escaped(s)[0..] == Escaped(s);
  }

  // ---- The expander itself ----

  /** The storage of a variable; an external one belongs to somebody else. */
  class Cell {
    var value: string

    constructor (value: string)
      ensures this.value == value
    {
      this.value := value;
    }
  }

  datatype Item = Item(external: bool, cell: Cell)

  datatype Refusal = BadName | AlreadyExists | DoesNotExist | IsExternal | IsNotExternal

  /** is_valid_identifier; like the original it lets the empty name through. */
  predicate IsValidIdentifier(name: string) {
    (name == "" || !IsDigit(name[0])) && IdentifierEnd(name, 0) == |name|
  }

  class Expander {
    var substitutions: map<string, Item>

    /** No internal variable shares its storage with another variable. */
    ghost predicate Valid()
      reads this
    {
      forall m, n :: m in substitutions && n in substitutions && m != n && !substitutions[m].external ==>
        substitutions[m].cell != substitutions[n].cell
    }

    ghost function Cells(): set<Cell>
      reads this
    {
      set n | n in substitutions :: substitutions[n].cell
    }

    /** What each variable is worth now. */
    ghost function View(): Values
      reads this, Cells()
    {
      map n | n in substitutions :: substitutions[n].cell.value
    }

    ghost function Externals(): set<string>
      reads this
    {
      set n | n in substitutions && substitutions[n].external
    }

    constructor ()
      ensures Valid() && View() == map[] && Externals() == {}
    {
      substitutions := map[];
    }

    method RegisterInternal(name: string) returns (r: Option<Refusal>)
      requires Valid()
      modifies this
      ensures Valid()
      ensures r == if !IsValidIdentifier(name) then Some(BadName)
                   else if name in old(substitutions) then Some(AlreadyExists) else None
      ensures View() == if r.None? then old(View())[name := ""] else old(View())
      ensures Externals() == old(Externals())
    {
      if !IsValidIdentifier(name) {
        return Some(BadName);
      }
      if name in substitutions {
        return Some(AlreadyExists);
      }
      var cell := new Cell("");
      substitutions := substitutions[name := Item(false, cell)];
      return None;
    }

    method UnregisterInternal(name: string) returns (r: Option<Refusal>)
      requires Valid()
      modifies this
      ensures Valid()
      ensures r == if name in old(Externals()) then Some(IsExternal) else None
      ensures View() == if r.None? then old(View()) - {name} else old(View())
      ensures Externals() == old(Externals())
    {
      if name !in substitutions {
        assert View() - {name} == View();
        return None;
      }
      if substitutions[name].external {
        return Some(IsExternal);
      }
      substitutions := substitutions - {name};
      return None;
    }

    /** The storage handed in is not the private storage of an internal variable. */
    method RegisterExternal(name: string, cell: Cell) returns (r: Option<Refusal>)
      requires Valid()
      requires forall n :: n in substitutions && !substitutions[n].external ==> substitutions[n].cell != cell
      modifies this
      ensures Valid()
      ensures r == if !IsValidIdentifier(name) then Some(BadName)
                   else if name in old(substitutions) then Some(AlreadyExists) else None
      ensures View() == if r.None? then old(View())[name := cell.value] else old(View())
      ensures Externals() == old(Externals()) + (if r.None? then {name} else {})
    {
      if !IsValidIdentifier(name) {
        return Some(BadName);
      }
      if name in substitutions {
        return Some(AlreadyExists);
      }
      substitutions := substitutions[name := Item(true, cell)];
      return None;
    }

    method UnregisterExternal(name: string) returns (r: Option<Refusal>)
      requires Valid()
      modifies this
      ensures Valid()
      ensures r == if name in old(substitutions) && name !in old(Externals()) then Some(IsNotExternal) else None
      ensures View() == if r.None? then old(View()) - {name} else old(View())
      ensures Externals() == if r.None? then old(Externals()) - {name} else old(Externals())
    {
      if name !in substitutions {
        assert View() - {name} == View();
        return None;
      }
      if !substitutions[name].external {
        return Some(IsNotExternal);
      }
      substitutions := substitutions - {name};
      return None;
    }

    /** Writes through the variable's own storage; no other variable changes. */
    method SetValue(name: string, value: string) returns (r: Option<Refusal>)
      requires Valid()
      modifies Cells()
      ensures Valid()
      ensures r == if name !in old(substitutions) then Some(DoesNotExist)
                   else if name in old(Externals()) then Some(IsExternal) else None
      ensures View() == if r.None? then old(View())[name := value] else old(View())
    {
      if name !in substitutions {
        return Some(DoesNotExist);
      }
      if substitutions[name].external {
        return Some(IsExternal);
      }
      substitutions[name].cell.value := value;
      return None;
    }

    method GetValue(name: string) returns (value: string)
      ensures value == ValueOf(View(), name)
    {
      if name !in substitutions {
        return "";
      }
      value := substitutions[name].cell.value;
    }

    /** expand: substitutes the variables, then removes the escapes. */
    method Expand(text: string) returns (r: Result<string, char>)
      requires NoDollarDigit(text, 0)
      ensures r == Expanded(text, View())
    {
      var values := map n | n in substitutions :: substitutions[n].cell.value;
      var expanded := ExpandVariables(values, text);
      r := RemoveEscapes(expanded);
      assert values == View();
    }
  }
}
