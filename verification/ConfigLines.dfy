/** What each form of line in a configuration file means, and when a whole file is refused. */
module ConfigLines {
  import opened Wrappers
  import opened Strings
  import Alphabets
  import opened OrderedStrings
  import opened ConfigFile
  import opened ConfigWriter
  import opened ConfigRoundTrip
  import Numerals

  // ---- Lists of values ----

  lemma {:induction false} PaddedIs(values: seq<string>, n: nat)
    ensures Padded(values, n) == values + Blanks(if n > |values| then n - |values| else 0)
    decreases n - |values|
  {
    if |values| < n {
      PaddedIs(values + [""], n);
      assert values + [""] + Blanks(n - |values| - 1) == values + Blanks(n - |values|);
    } else {
      assert values + [] == values;
    }
  }

  function Blanks(n: nat): (blanks: seq<string>)
    ensures |blanks| == n && forall j :: 0 <= j < n ==> blanks[j] == ""
  {
    seq(n, j requires 0 <= j < n => "")
  }

  /** Value i is set and all others are as they were; what lies between the old end and i is empty. */
  predicate SetAt(before: seq<string>, i: nat, value: string, after: seq<string>) {
    && |after| == (if |before| > i then |before| else i + 1)
    && after[i] == value
    && (forall j :: 0 <= j < |before| && j != i ==> after[j] == before[j])
    && (forall j :: |before| <= j < i ==> after[j] == "")
  }

  /** An explicit index sets that value; without one the value comes behind all others. */
  lemma WithValueSets(values: seq<string>, index: Option<nat>, value: string)
    ensures SetAt(values, if index.Some? then index.value else |values|, value, WithValue(values, index, value))
  {
    if index.Some? {
      PaddedIs(values, index.value + 1);
    }
  }

  /** In the current section, which may be new, value i of the key is set; nothing else changes. */
  ghost predicate Stored(st: Progress, key: string, index: Option<nat>, value: string, st': Progress) {
    && st'.section == st.section && st'.ok == st.ok
    && st'.config.Keys == st.config.Keys + {st.section}
    && (forall n :: n in st.config && n != st.section ==> st'.config[n] == st.config[n])
    && var before, after := SectionOf(st.config, st.section), st'.config[st.section];
       && after.name == before.name
       && after.entries.Keys == before.entries.Keys + {key}
       && (forall k :: k in before.entries && k != key ==> after.entries[k] == before.entries[k])
       && var values := ValuesOf(before.entries, key);
          SetAt(values, if index.Some? then index.value else |values|, value, after.entries[key])
  }

  lemma WithPairStores(st: Progress, pair: Pair)
    ensures Stored(st, pair.key, pair.index, pair.value, st.(config := WithPair(st.config, st.section, pair)))
  {
    WithValueSets(ValuesOf(SectionOf(st.config, st.section).entries, pair.key), pair.index, pair.value);
  }

  // ---- Values ----

  /** What the text of a value means: quotes at both ends are taken off, and one quote alone is both. */
  predicate Means(text: string, value: string) {
    || text == "\"" + value + "\""
    || (text == "\"" && value == "")
    || (text == value && !(text != "" && text[0] == '"' && text[|text| - 1] == '"'))
  }

  lemma MeansUnquoted(text: string, value: string)
    requires Means(text, value)
    ensures Unquoted(text) == value
  {
    if text == "\"" + value + "\"" {
      assert text[1..|text| - 1] == value;
    }
  }

  // ---- Lines ----

  /** A comment, or nothing. */
  predicate IsComment(s: string) {
    s != "" ==> s[0] == '#'
  }

  lemma CommentCut(s: string, comment: string)
    requires '#' !in s && IsComment(comment)
    ensures UpTo(s + comment, '#') == s
  {
    UpToAfter(s, comment, '#');
    if comment != "" {
      assert comment == "" + ['#'] + comment[1..];
      FindAfter("", '#', comment[1..]);
    }
  }

  /** What counts of a line is between the blanks at its start and the blanks and the comment at its end. */
  lemma StripsTo(lead: string, t: string, trail: string, comment: string)
    requires AllBlank(lead) && AllBlank(trail) && IsTrimmed(t) && '#' !in t && IsComment(comment)
    ensures Stripped(lead + t + trail + comment) == t
  {
    CommentCut(lead + t + trail, comment);
    TrimOf(lead, t, trail);
  }

  lemma BlankLineMeans(st: Progress, lead: string, comment: string)
    requires AllBlank(lead) && IsComment(comment)
    ensures AfterLine(st, lead + comment) == st
  {
    StripsTo(lead, "", "", comment);
    assert lead + "" + "" + comment == lead + comment;
  }

  /** A header in any letter case begins its section anew. */
  lemma HeaderLineMeans(st: Progress, lead: string, name: string, trail: string, comment: string)
    requires AllBlank(lead) && AllBlank(trail) && IsComment(comment) && IsIdentifier(Upper(name))
    ensures AfterLine(st, lead + ("[" + name + "]") + trail + comment)
         == Progress(st.config[Upper(name) := Section(Upper(name), map[])], Upper(name), st.ok)
  {
    var t := "[" + name + "]";
    UpperKeeps(name, '#');
    StripsTo(lead, t, trail, comment);
    assert t[1..|t| - 1] == name;
  }

  /** Characters that are no identifier characters, and no letters, stay what they are in upper case. */
  lemma UpperKeeps(s: string, c: char)
    requires IsIdentifier(Upper(s)) && !IsIdentifierChar(c) && UpperChar(c) == c
    ensures c !in s
  {
    forall i | 0 <= i < |s| ensures s[i] != c {
      assert IsIdentifierChar(Upper(s)[i]);
    }
  }

  lemma NoBlankEnds(key: string)
    requires key != "" && IsIdentifier(Upper(key))
    ensures IsTrimmed(key) && !IsBlank(key[0]) && !IsBlank(key[|key| - 1])
  {
    UpperKeeps(key, ' ');
    UpperKeeps(key, '\t');
    UpperKeeps(key, '\r');
    UpperKeeps(key, '\n');
  }

  /** The text before the equals sign; the index, if any, stands in brackets. */
  datatype KeyText = KeyText(key: string, index: Option<(string, string, string, string)>)

  function KeyWritten(k: KeyText): string {
    k.key + match k.index
            case None => ""
            case Some((a, b, digits, c)) => a + "[" + (b + digits + c) + "]"
  }

  predicate ProperKey(k: KeyText) {
    && k.key != "" && IsIdentifier(Upper(k.key))
    && match k.index
       case None => true
       case Some((a, b, digits, c)) =>
         && AllBlank(a) && AllBlank(b) && AllBlank(c)
         && digits != "" && Numerals.AllDigits(digits) && Numerals.Value(digits) <= MAX_INDEX
  }

  function IndexOf(k: KeyText): Option<nat> {
    match k.index
    case Some((_, _, digits, _)) => if Numerals.AllDigits(digits) then Some(Numerals.Value(digits)) else None
    case None => None
  }

  lemma KeyTextRead(k: KeyText)
    requires ProperKey(k)
    ensures KeyAndIndex(KeyWritten(k)) == Ok((k.key, IndexOf(k)))
  {
    NoBlankEnds(k.key);
    UpperKeeps(k.key, '[');
    match k.index
    case None => assert KeyWritten(k) == k.key;
    case Some((a, b, digits, c)) => BracketedRead(k.key, a, b, digits, c);
  }

  lemma BracketedRead(key: string, a: string, b: string, digits: string, c: string)
    requires IsTrimmed(key) && '[' !in key && AllBlank(a) && AllBlank(b) && AllBlank(c)
    requires digits != "" && Numerals.AllDigits(digits) && Numerals.Value(digits) <= MAX_INDEX
    ensures KeyAndIndex(key + (a + "[" + (b + digits + c) + "]")) == Ok((key, Some(Numerals.Value(digits))))
  {
    BracketBlanks(key, a, b + digits + c);
    TrimOf(b, digits, c);
    TrimOf("", key, a);
    assert "" + key + a == key + a;
    IndexInBrackets(key + a, b + digits + c);
  }

  lemma IndexInBrackets(front: string, d: string)
    requires '[' !in front && ParseIndex(Trim(d)).Ok?
    ensures KeyAndIndex(front + "[" + d + "]") == Ok((Trim(front), Some(ParseIndex(Trim(d)).value)))
  {
    BracketsRead(front, d);
  }

  lemma BracketBlanks(key: string, a: string, d: string)
    ensures key + (a + "[" + d + "]") == key + a + "[" + d + "]"
  {
  }

  lemma KeyTextChars(k: KeyText)
    requires ProperKey(k)
    ensures var h := KeyWritten(k);
            && h != "" && h[0] != '[' && !IsBlank(h[0]) && !IsBlank(h[|h| - 1])
            && '=' !in h && '#' !in h
  {
    NoBlankEnds(k.key);
    UpperKeeps(k.key, '[');
    UpperKeeps(k.key, '=');
    UpperKeeps(k.key, '#');
  }

  /** Splitting at the first equals sign. */
  lemma EqualsRead(h: string, gap: string, rest: string, key: string, index: Option<nat>)
    requires h != "" && h[0] != '[' && IsTrimmed(h) && '=' !in h && AllBlank(gap)
    requires KeyAndIndex(h) == Ok((key, index)) && key != "" && IsIdentifier(Upper(key))
    ensures var line := h + gap + "=" + rest;
            && !IsHeader(line) && '=' in line
            && ReadPair(line) == Ok(Pair(Upper(key), index, Unquoted(Trim(rest))))
  {
    var line := h + gap + "=" + rest;
    assert line == (h + gap) + ['='] + rest;
    FindAfter(h + gap, '=', rest);
    assert line[..|h + gap|] == h + gap && line[|h + gap| + 1..] == rest;
    TrimOf("", h, gap);
    assert "" + h + gap == h + gap;
    assert line[0] == h[0];
  }

  lemma PairText(h: string, gap: string, before: string, text: string)
    requires h != "" && IsTrimmed(h) && AllBlank(gap) && AllBlank(before) && IsTrimmed(text)
    requires '#' !in h && '#' !in text
    ensures var rest := if text == "" then "" else before + text;
            && Trim(rest) == text
            && IsTrimmed(h + gap + "=" + rest) && '#' !in h + gap + "=" + rest
  {
    TrimOf(before, text, "");
    assert before + text + "" == before + text;
    TrimWhole("");
  }

  /**
   A line with a key in any letter case, an index or none, a value with or without quotes, blanks where they may
   stand and a comment behind it, sets what it says.
   */
  lemma PairLineMeans(st: Progress, lead: string, k: KeyText, gap: string, before: string, text: string, value: string,
                      trail: string, comment: string)
    requires ProperKey(k) && IsTrimmed(text) && '#' !in text && Means(text, value)
    requires AllBlank(lead) && AllBlank(gap) && AllBlank(before) && AllBlank(trail) && IsComment(comment)
    ensures var line := lead + (KeyWritten(k) + gap + "=" + before + text) + trail + comment;
            Stored(st, Upper(k.key), IndexOf(k), value, AfterLine(st, line))
  {
    var h := KeyWritten(k);
    KeyTextRead(k);
    KeyTextChars(k);
    PairText(h, gap, before, text);
    var rest := if text == "" then "" else before + text;
    var blanks := if text == "" then before else "";
    PairBlanks(lead, h + gap + "=", before, text, trail, comment);
    StripsTo(lead, h + gap + "=" + rest, blanks + trail, comment);
    EqualsRead(h, gap, rest, k.key, IndexOf(k));
    MeansUnquoted(text, value);
    WithPairStores(st, Pair(Upper(k.key), IndexOf(k), value));
  }

  lemma PairBlanks(lead: string, head: string, before: string, text: string, trail: string, comment: string)
    ensures var rest, blanks := if text == "" then "" else before + text, if text == "" then before else "";
            lead + (head + before + text) + trail + comment == lead + (head + rest) + (blanks + trail) + comment
  {
  }

  // ---- Keys that are refused ----

  /** The characters of keys and section names in upper case. */
  lemma IdentifierCharsAre(c: char)
    ensures IsIdentifierChar(c) <==> c in "$_" || c in Alphabets.CAPITALS || c in Alphabets.DIGITS
  {
    Alphabets.LettersAndDigits(c);
  }

  lemma SplitsAt(h: string, rest: string)
    requires '=' !in h
    ensures var line := h + "=" + rest;
            Find(line, '=') == Some(|h|) && line[..|h|] == h && line[|h| + 1..] == rest
  {
    assert h + "=" + rest == h + ['='] + rest;
    FindAfter(h, '=', rest);
  }

  /** Not digits, or more than an int can hold. */
  predicate IsNoIndex(t: string) {
    !Numerals.AllDigits(t) || t == "" || Numerals.Value(t) > MAX_INDEX
  }

  lemma BracketedRefused(key: string, b: string, t: string, c: string)
    requires '[' !in key && AllBlank(b) && AllBlank(c) && IsTrimmed(t) && IsNoIndex(t)
    ensures KeyAndIndex(key + "[" + (b + t + c) + "]") == Err(BadIndex)
  {
    BracketsRead(key, b + t + c);
    TrimOf(b, t, c);
  }

  /** Between the brackets there must be digits and nothing else, and a number an int can hold. */
  lemma BadIndexRefused(key: string, b: string, t: string, c: string, rest: string)
    requires IsTrimmed(key) && key != "" && '[' !in key && '=' !in key && '=' !in t
    requires AllBlank(b) && AllBlank(c) && IsTrimmed(t) && IsNoIndex(t)
    ensures ReadPair(key + "[" + (b + t + c) + "]" + "=" + rest) == Err(BadIndex)
  {
    var h := key + "[" + (b + t + c) + "]";
    BracketedRefused(key, b, t, c);
    assert IsTrimmed(h) && '=' !in h;
    RefusedAtEquals(h, rest, BadIndex);
  }

  lemma RefusedAtEquals(h: string, rest: string, e: LineError)
    requires IsTrimmed(h) && '=' !in h && KeyAndIndex(h) == Err(e)
    ensures ReadPair(h + "=" + rest) == Err(e)
  {
    SplitsAt(h, rest);
    TrimWhole(h);
  }

  /** Without an index in brackets the whole text before the equals sign is the key, and must be an identifier. */
  lemma BadKeyRefused(key: string, gap: string, rest: string)
    requires IsTrimmed(key) && '=' !in key && AllBlank(gap)
    requires '[' !in key || key[|key| - 1] != ']'
    ensures key == "" ==> ReadPair(key + gap + "=" + rest) == Err(BlankKey)
    ensures key != "" && !IsIdentifier(Upper(key)) ==> ReadPair(key + gap + "=" + rest) == Err(BadIdentifier)
  {
    SplitsAt(key + gap, rest);
    TrimOf("", key, gap);
    assert "" + key + gap == key + gap;
  }

  // ---- Whole files ----

  /** A line that is neither blank, nor a header with an identifier, nor a readable pair. */
  predicate Bad(line: string) {
    var s := Stripped(line);
    s != "" &&
    if IsHeader(s) then !IsIdentifier(Upper(s[1..|s| - 1]))
    else '=' !in s || ReadPair(s).Err?
  }

  function Unlines(lines: seq<string>): string {
    if lines == [] then "" else lines[0] + "\n" + Unlines(lines[1..])
  }

  function AfterLines(st: Progress, lines: seq<string>): Progress
    decreases |lines|
  {
    if lines == [] then st else AfterLines(AfterLine(st, lines[0]), lines[1..])
  }

  /** Complete lines are read one by one; a tail without a newline is not. */
  lemma {:induction false} TextIsLines(st: Progress, lines: seq<string>, tail: string)
    requires '\n' !in tail && forall n :: 0 <= n < |lines| ==> '\n' !in lines[n]
    ensures AfterText(st, Unlines(lines) + tail) == AfterLines(st, lines)
    decreases |lines|
  {
    if lines == [] {
      assert "" + tail == tail;
    } else {
      LineThen(st, lines[0], Unlines(lines[1..]) + tail);
      Regroup(lines[0] + "\n", Unlines(lines[1..]), tail);
      TextIsLines(AfterLine(st, lines[0]), lines[1..], tail);
    }
  }

  lemma {:induction false} OkIff(st: Progress, lines: seq<string>)
    ensures AfterLines(st, lines).ok <==> st.ok && forall n :: 0 <= n < |lines| ==> !Bad(lines[n])
    decreases |lines|
  {
    if lines != [] {
      assert AfterLine(st, lines[0]).ok <==> st.ok && !Bad(lines[0]);
      OkIff(AfterLine(st, lines[0]), lines[1..]);
      assert forall n :: 0 < n < |lines| ==> lines[n] == lines[1..][n - 1];
      assert forall n :: 0 <= n < |lines| - 1 ==> lines[1..][n] == lines[n + 1];
    }
  }

  /** Loading is all or nothing: it fails if and only if some complete line is bad, wherever it stands. */
  lemma LoadFailsIff(lines: seq<string>, tail: string)
    requires '\n' !in tail && forall n :: 0 <= n < |lines| ==> '\n' !in lines[n]
    ensures Loaded(Unlines(lines) + tail).None? <==> exists n :: 0 <= n < |lines| && Bad(lines[n])
  {
    TextIsLines(Progress(map[], "", true), lines, tail);
    OkIff(Progress(map[], "", true), lines);
  }

  // ---- An example ----

  /** The only section has the only key. */
  function OnlyKey(key: string, values: seq<string>): Progress {
    Progress(map["" := Section("", map[key := values])], "", true)
  }

  lemma SetAtIsUnique(before: seq<string>, i: nat, value: string, a: seq<string>, b: seq<string>)
    requires SetAt(before, i, value, a) && SetAt(before, i, value, b)
    ensures a == b
  {
    assert forall j :: 0 <= j < |a| ==> a[j] == b[j];
  }

  lemma StoredInOnlyKey(st: Progress, key: string, i: nat, value: string, st': Progress, values: seq<string>,
                        after: seq<string>)
    requires Stored(st, key, Some(i), value, st') && SetAt(values, i, value, after)
    requires st == OnlyKey(key, values) || (st == Progress(map[], "", true) && values == [])
    ensures st' == OnlyKey(key, after)
  {
    SetAtIsUnique(values, i, value, st'.config[""].entries[key], after);
    assert st'.config[""].entries == map[key := after];
    assert st'.config == map["" := Section("", map[key := after])];
  }

  function IndexedText(digit: char, v: char): string {
    "K[" + [digit] + "] = " + [v]
  }

  function IndexedKey(digit: char): KeyText {
    KeyText("K", Some(("", "", [digit], "")))
  }

  lemma IndexedKeyText(digit: char)
    ensures KeyWritten(IndexedKey(digit)) == "K[" + [digit] + "]"
  {
  }

  lemma IndexedTextIs(h: string, v: string)
    ensures "" + (h + " " + "=" + " " + v) + "" + "" == h + " = " + v
  {
  }

  lemma IndexedTextParts(digit: char, v: char)
    ensures IndexedText(digit, v) == "K[" + [digit] + "]" + " = " + [v]
    ensures digit != '\n' && v != '\n' ==> '\n' !in IndexedText(digit, v)
  {
  }

  lemma IndexedLine(st: Progress, digit: char, i: nat, v: char)
    requires IsDigit(digit) && i == digit as int - '0' as int && !IsBlank(v) && v != '#' && v != '"'
    ensures Stored(st, "K", Some(i), [v], AfterLine(st, IndexedText(digit, v)))
  {
    var k := IndexedKey(digit);
    OneDigit(digit);
    assert Upper("K") == "K";
    PairLineMeans(st, "", k, " ", " ", [v], [v], "", "");
    IndexedKeyText(digit);
    IndexedTextParts(digit, v);
    IndexedTextIs(KeyWritten(k), [v]);
  }

  /** Indices in any order, with one left out. */
  lemma IndexedLines(lines: seq<string>)
    requires lines == [IndexedText('2', 'c'), IndexedText('0', 'a')]
    ensures Loaded(Unlines(lines)) == Some(map["" := Section("", map["K" := ["a", "", "c"]])])
  {
    var st, st1, st2 := Progress(map[], "", true), OnlyKey("K", ["", "", "c"]), OnlyKey("K", ["a", "", "c"]);
    FirstThenSecond(st, st1, st2);
    IndexedTextParts('2', 'c');
    IndexedTextParts('0', 'a');
    TwoLinesLoaded(lines, st1, st2);
  }

  lemma TwoLinesLoaded(lines: seq<string>, st1: Progress, st2: Progress)
    requires |lines| == 2 && '\n' !in lines[0] && '\n' !in lines[1]
    requires AfterLine(Progress(map[], "", true), lines[0]) == st1 && AfterLine(st1, lines[1]) == st2
    ensures Loaded(Unlines(lines)) == Outcome(st2)
  {
    TwoLines(Progress(map[], "", true), lines);
  }

  lemma FirstThenSecond(st: Progress, st1: Progress, st2: Progress)
    requires st == Progress(map[], "", true)
    requires st1 == OnlyKey("K", ["", "", "c"]) && st2 == OnlyKey("K", ["a", "", "c"])
    ensures AfterLine(st, IndexedText('2', 'c')) == st1
    ensures AfterLine(st1, IndexedText('0', 'a')) == st2
  {
    IndexedLineAfter(st, '2', 2, 'c', [], ["", "", "c"]);
    IndexedLineAfter(st1, '0', 0, 'a', ["", "", "c"], ["a", "", "c"]);
  }

  lemma IndexedLineAfter(st: Progress, digit: char, i: nat, v: char, values: seq<string>, after: seq<string>)
    requires IsDigit(digit) && i == digit as int - '0' as int && !IsBlank(v) && v != '#' && v != '"'
    requires st == OnlyKey("K", values) || (st == Progress(map[], "", true) && values == [])
    requires SetAt(values, i, [v], after)
    ensures AfterLine(st, IndexedText(digit, v)) == OnlyKey("K", after)
  {
    IndexedLine(st, digit, i, v);
    StoredInOnlyKey(st, "K", i, [v], AfterLine(st, IndexedText(digit, v)), values, after);
  }

  lemma TwoLines(st: Progress, lines: seq<string>)
    requires |lines| == 2 && '\n' !in lines[0] && '\n' !in lines[1]
    ensures AfterText(st, Unlines(lines)) == AfterLine(AfterLine(st, lines[0]), lines[1])
  {
    TextIsLines(st, lines, "");
    WithoutTail(Unlines(lines));
    TwoInTurn(st, lines);
  }

  lemma WithoutTail(text: string)
    ensures text + "" == text
  {
  }

  lemma TwoInTurn(st: Progress, lines: seq<string>)
    requires |lines| == 2
    ensures AfterLines(st, lines) == AfterLine(AfterLine(st, lines[0]), lines[1])
  {
    var rest := lines[1..];
    assert rest[0] == lines[1] && rest[1..] == [];
    var st1 := AfterLine(st, lines[0]);
    assert AfterLines(st1, rest) == AfterLines(AfterLine(st1, rest[0]), rest[1..]);
  }

  lemma OneDigit(c: char)
    requires IsDigit(c)
    ensures Numerals.AllDigits([c]) && Numerals.Value([c]) == c as int - '0' as int
  {
    assert [c][..0] == "";
  }
}
