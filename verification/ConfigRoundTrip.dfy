/** What loading a saved configuration gives back. */
module ConfigRoundTrip {
  import opened Wrappers
  import opened Strings
  import opened OrderedStrings
  import opened ConfigFile
  import opened ConfigWriter
  import Numerals

  // ---- One value ----

  /** What is read back for a value without newlines. */
  function Reread(v: string): string {
    Unquoted(Trim(UpTo(Written(v), '#')))
  }

  /** A value that comes back as it was. */
  predicate Survives(v: string) {
    && '#' !in v && '\n' !in v
    && ((v != "" && (v[0] == ' ' || v[0] == '\t')) || (Trim(v) == v && !IsQuoted(v)))
  }

  predicate IsPart(t: string, s: string) {
    exists i, j :: 0 <= i <= j <= |s| && t == s[i..j]
  }

  lemma TrimIsPart(s: string)
    ensures IsPart(Trim(s), s) && |Trim(s)| <= |s|
    ensures |Trim(s)| == |s| ==> Trim(s) == s
    ensures forall c :: c in Trim(s) ==> c in s
  {
    var a, b := TrimSplits(s);
    assert Trim(s) == s[|a|..|a| + |Trim(s)|];
  }

  lemma UnquotedIsPart(s: string)
    ensures |Unquoted(s)| <= |s| && (IsQuoted(s) ==> |Unquoted(s)| < |s|)
    ensures forall c :: c in Unquoted(s) ==> c in s
  {
  }

  /** Quoting protects a value with a blank front. */
  lemma QuotedIsReread(v: string)
    requires '#' !in v
    ensures Unquoted(Trim(UpTo("\"" + v + "\"", '#'))) == v
  {
    var w := "\"" + v + "\"";
    TrimOf("", w, "");
    assert "" + w + "" == w;
  }

  /** A value without newlines is read back exactly when it survives. */
  lemma RereadIff(v: string)
    requires '\n' !in v
    ensures Reread(v) == v <==> Survives(v)
  {
    var w := UpTo(Written(v), '#');
    TrimIsPart(w);
    UnquotedIsPart(Trim(w));
    assert '#' !in Reread(v);
    if '#' !in v {
      if v != "" && (v[0] == ' ' || v[0] == '\t') {
        QuotedIsReread(v);
      } else {
        assert w == v;
      }
    }
  }

  // ---- One line ----

  predicate IsKey(k: string) {
    k != "" && IsIdentifier(k)
  }

  lemma KeyChars(k: string, c: char)
    requires IsIdentifier(k) && !IsIdentifierChar(c)
    ensures c !in k
  {
  }

  lemma UpperOfIdentifier(k: string)
    requires IsIdentifier(k)
    ensures Upper(k) == k
  {
  }

  lemma DecimalChars(i: nat, c: char)
    requires !IsDigit(c)
    ensures c !in Numerals.Decimal(i)
  {
    Numerals.DecimalRoundTrip(i);
  }

  /** The part of a line before " = ": a key, perhaps with an index. */
  function Head(k: string, many: bool, i: nat): string {
    k + IndexText(many, i)
  }

  lemma HeadChars(k: string, many: bool, i: nat)
    requires IsKey(k)
    ensures var h := Head(k, many, i);
            h != "" && IsIdentifierChar(h[0]) && !IsBlank(h[|h| - 1]) && '#' !in h && '=' !in h && '\n' !in h
  {
    KeyChars(k, '#');
    KeyChars(k, '=');
    KeyChars(k, '\n');
    DecimalChars(i, '#');
    DecimalChars(i, '=');
    DecimalChars(i, '\n');
  }

  lemma TrimWhole(t: string)
    requires IsTrimmed(t)
    ensures Trim(t) == t
  {
    TrimOf("", t, "");
    assert "" + t + "" == t;
  }

  lemma DecimalRead(i: nat)
    requires i <= MAX_INDEX
    ensures ParseIndex(Trim(Numerals.Decimal(i))) == Ok(i)
  {
    Numerals.DecimalRoundTrip(i);
    TrimWhole(Numerals.Decimal(i));
  }

  lemma BracketsRead(k: string, d: string)
    requires '[' !in k
    ensures var h := k + "[" + d + "]";
            Find(h, '[') == Some(|k|) && h[|h| - 1] == ']' && h[|k| + 1..|h| - 1] == d && h[..|k|] == k
  {
    assert k + "[" + d + "]" == k + ['['] + (d + "]");
    FindAfter(k, '[', d + "]");
  }

  lemma HeadRead(k: string, many: bool, i: nat)
    requires IsKey(k) && i <= MAX_INDEX
    ensures KeyAndIndex(Head(k, many, i)) == Ok((k, if many then Some(i) else None))
  {
    KeyChars(k, '[');
    if many {
      var d := Numerals.Decimal(i);
      assert Head(k, many, i) == k + "[" + d + "]";
      BracketsRead(k, d);
      DecimalRead(i);
      TrimWhole(k);
    } else {
      assert Head(k, many, i) == k;
    }
  }

  /** Cutting the comment and the blanks at the ends of a line, with x the written value. */
  lemma LineStripped(h: string, x: string) returns (y: string)
    requires h != "" && !IsBlank(h[0]) && '#' !in h
    ensures Stripped(h + " = " + x) == h + " =" + y && Trim(y) == Trim(UpTo(x, '#'))
  {
    var u := UpTo(x, '#');
    UpToAfter(h + " = ", x, '#');
    var a, b := TrimSplits(u);
    y := if Trim(u) == "" then "" else " " + a + Trim(u);
    if Trim(u) == "" {
      LineEndsBlank(h, u, a, b);
      TrimWhole("");
    } else {
      LineEndsTrimmed(h, u, a, Trim(u), b);
      TrimOf(" " + a, Trim(u), "");
      assert y == (" " + a) + Trim(u) + "";
    }
  }

  lemma LineEndsBlank(h: string, u: string, a: string, b: string)
    requires h != "" && !IsBlank(h[0]) && u == a + "" + b && AllBlank(a) && AllBlank(b)
    ensures Trim(h + " = " + u) == h + " =" + ""
  {
    assert h + " = " + u == "" + (h + " =") + (" " + a + b);
    TrimOf("", h + " =", " " + a + b);
  }

  lemma LineEndsTrimmed(h: string, u: string, a: string, t: string, b: string)
    requires h != "" && !IsBlank(h[0]) && u == a + t + b && AllBlank(b) && t != "" && IsTrimmed(t)
    ensures Trim(h + " = " + u) == h + " =" + (" " + a + t)
  {
    assert h + " = " + u == "" + (h + " =" + (" " + a + t)) + b;
    TrimOf("", h + " =" + (" " + a + t), b);
  }

  /** A line with a value says what it was written for. */
  lemma LineRead(k: string, many: bool, i: nat, v: string)
    requires IsKey(k) && i <= MAX_INDEX
    ensures var line := Stripped(ValueLine(k, many, i, v));
            && line != "" && !IsHeader(line) && '=' in line
            && ReadPair(line) == Ok(Pair(k, if many then Some(i) else None, Reread(v)))
  {
    var h := Head(k, many, i);
    HeadChars(k, many, i);
    var y := LineStripped(h, Written(v));
    PairRead(h, y, k, if many then Some(i) else None) by { HeadRead(k, many, i); }
  }

  lemma PairRead(h: string, y: string, k: string, index: Option<nat>)
    requires h != "" && IsIdentifierChar(h[0]) && !IsBlank(h[|h| - 1]) && '=' !in h
    requires KeyAndIndex(h) == Ok((k, index)) && IsKey(k)
    ensures var line := h + " =" + y;
            && line != "" && !IsHeader(line) && '=' in line
            && ReadPair(line) == Ok(Pair(k, index, Unquoted(Trim(y))))
  {
    SplitAtEquals(h, y);
    TrimBefore(h);
    UpperOfIdentifier(k);
    assert (h + " =" + y)[0] == h[0];
  }

  lemma SplitAtEquals(h: string, y: string)
    requires '=' !in h
    ensures var line := h + " =" + y;
            Find(line, '=') == Some(|h| + 1) && line[..|h| + 1] == h + " " && line[|h| + 2..] == y
  {
    assert h + " =" + y == (h + " ") + ['='] + y;
    FindAfter(h + " ", '=', y);
  }

  lemma TrimBefore(h: string)
    requires h != "" && !IsBlank(h[0]) && !IsBlank(h[|h| - 1])
    ensures Trim(h + " ") == h
  {
    assert h + " " == "" + h + " ";
    TrimOf("", h, " ");
  }

  // ---- Texts ----

  lemma LineThen(st: Progress, line: string, rest: string)
    requires '\n' !in line
    ensures AfterText(st, line + "\n" + rest) == AfterText(AfterLine(st, line), rest)
  {
    var text := line + "\n" + rest;
    assert text == line + ['\n'] + rest;
    FindAfter(line, '\n', rest);
    assert text[..|line|] == line && text[|line| + 1..] == rest;
  }

  lemma ValueLineIsOneLine(k: string, many: bool, i: nat, v: string)
    requires IsKey(k) && '\n' !in v
    ensures '\n' !in ValueLine(k, many, i, v)
  {
    HeadChars(k, many, i);
    assert ValueLine(k, many, i, v) == Head(k, many, i) + " = " + Written(v);
  }

  function Rereads(values: seq<string>): (r: seq<string>)
    ensures |r| == |values| && forall j :: 0 <= j < |values| ==> r[j] == Reread(values[j])
  {
    seq(|values|, j requires 0 <= j < |values| => Reread(values[j]))
  }

  function RereadEntries(entries: map<string, seq<string>>, keys: set<string>): map<string, seq<string>> {
    map k | k in entries && k in keys :: Rereads(entries[k])
  }

  /** One line saved from a list, read when the values before it have been. */
  lemma ValueAdded(st: Progress, k: string, values: seq<string>, i: nat)
    requires IsKey(k) && i < |values| <= MAX_INDEX + 1
    requires ValuesOf(SectionOf(st.config, st.section).entries, k) == Rereads(values[..i])
    ensures AfterLine(st, ValueLine(k, |values| > 1, i, values[i]))
         == st.(config := WithList(st.config, st.section, k, Rereads(values[..i + 1])))
  {
    LineRead(k, |values| > 1, i, values[i]);
    OneMoreValue(Rereads(values[..i]), if |values| > 1 then Some(i) else None, Reread(values[i]));
    assert Rereads(values[..i + 1]) == Rereads(values[..i]) + [Reread(values[i])];
  }

  lemma OneMoreValue(before: seq<string>, index: Option<nat>, value: string)
    requires index == None || index == Some(|before|)
    ensures WithValue(before, index, value) == before + [value]
  {
    assert index.Some? ==> Padded(before, |before| + 1) == Padded(before + [""], |before| + 1) == before + [""];
  }

  function WithList(config: Config, name: string, k: string, values: seq<string>): Config {
    var sec := SectionOf(config, name);
    config[name := sec.(entries := sec.entries[k := values])]
  }

  lemma {:induction false} ValuesRead(st: Progress, k: string, values: seq<string>, i: nat, rest: string)
    requires IsKey(k) && i < |values| <= MAX_INDEX + 1 && forall v :: v in values ==> '\n' !in v
    requires ValuesOf(SectionOf(st.config, st.section).entries, k) == Rereads(values[..i])
    ensures AfterText(st, ValuesText(k, values, i) + rest)
         == AfterText(st.(config := WithList(st.config, st.section, k, Rereads(values))), rest)
    decreases |values| - i
  {
    var line := ValueLine(k, |values| > 1, i, values[i]);
    var st' := st.(config := WithList(st.config, st.section, k, Rereads(values[..i + 1])));
    ValueLineIsOneLine(k, |values| > 1, i, values[i]);
    LineThen(st, line, ValuesText(k, values, i + 1) + rest);
    ValueAdded(st, k, values, i);
    Regroup(line + "\n", ValuesText(k, values, i + 1), rest);
    if i + 1 == |values| {
      assert values[..i + 1] == values && "" + rest == rest;
    } else {
      ValuesRead(st', k, values, i + 1, rest);
      ListReplaced(st.config, st.section, k, Rereads(values[..i + 1]), Rereads(values));
    }
  }

  lemma ListReplaced(config: Config, name: string, k: string, some: seq<string>, all: seq<string>)
    ensures WithList(WithList(config, name, k, some), name, k, all) == WithList(config, name, k, all)
  {
    var sec := SectionOf(config, name);
    assert sec.entries[k := some][k := all] == sec.entries[k := all];
  }

  // ---- Sections ----

  /** Keys, lists and values as a saved section needs them; an int counts the values when saving. */
  ghost predicate SavableEntries(entries: map<string, seq<string>>) {
    forall k :: k in entries ==>
      IsKey(k) && 0 < |entries[k]| <= MAX_INDEX + 1 && forall v :: v in entries[k] ==> '\n' !in v
  }

  /** The entries added to a section, which is created for the first. */
  function WithEntries(config: Config, name: string, more: map<string, seq<string>>): Config {
    var sec := SectionOf(config, name);
    if more == map[] then config else config[name := sec.(entries := sec.entries + more)]
  }

  lemma {:induction false} EntriesRead(st: Progress, entries: map<string, seq<string>>, keys: set<string>, rest: string)
    requires SavableEntries(entries) && keys <= entries.Keys && keys !! SectionOf(st.config, st.section).entries.Keys
    ensures AfterText(st, EntriesText(entries, keys) + rest)
         == AfterText(st.(config := WithEntries(st.config, st.section, RereadEntries(entries, keys))), rest)
    decreases |keys|
  {
    if keys == {} {
      assert "" + rest == rest;
    } else {
      var k := First(keys);
      var left := EntriesText(entries, keys - {k});
      var st' := st.(config := WithList(st.config, st.section, k, Rereads(entries[k])));
      Regroup(ValuesText(k, entries[k], 0), left, rest);
      ValuesRead(st, k, entries[k], 0, left + rest);
      EntriesRead(st', entries, keys - {k}, rest);
      EntryThenOthers(st.config, st.section, entries, keys, k);
    }
  }

  lemma EntryThenOthers(config: Config, name: string, entries: map<string, seq<string>>, keys: set<string>, k: string)
    requires k in keys && keys <= entries.Keys && keys !! SectionOf(config, name).entries.Keys
    ensures WithEntries(WithList(config, name, k, Rereads(entries[k])), name, RereadEntries(entries, keys - {k}))
         == WithEntries(config, name, RereadEntries(entries, keys))
  {
    var sec, list := SectionOf(config, name), Rereads(entries[k]);
    var some, all := RereadEntries(entries, keys - {k}), RereadEntries(entries, keys);
    assert k in all;
    AddedOneByOne(sec.entries, k, list, some, all);
    var after := config[name := sec.(entries := sec.entries + all)];
    assert config[name := sec.(entries := sec.entries[k := list])][name := sec.(entries := sec.entries + all)] == after;
  }

  lemma AddedOneByOne(entries: map<string, seq<string>>, k: string, list: seq<string>,
                      some: map<string, seq<string>>, all: map<string, seq<string>>)
    requires all == some[k := list] && k !in some
    ensures entries[k := list] + some == entries + all
    ensures some == map[] ==> entries[k := list] == entries + all
  {
  }

  lemma BlankLine(st: Progress, rest: string)
    ensures AfterText(st, "\n" + rest) == AfterText(st, rest)
  {
    LineThen(st, "", rest);
    assert "" + "\n" + rest == "\n" + rest;
  }

  function RereadSection(name: string, sec: Section): Section {
    Section(name, RereadEntries(sec.entries, sec.entries.Keys))
  }

  lemma HeaderRead(st: Progress, name: string)
    requires IsKey(name)
    ensures '\n' !in HeaderText(name)
    ensures AfterLine(st, HeaderText(name)) == Progress(st.config[name := Section(name, map[])], name, st.ok)
  {
    KeyChars(name, '#');
    KeyChars(name, '\n');
    UpperOfIdentifier(name);
    var h := HeaderText(name);
    TrimWhole(h);
    assert h[1..|h| - 1] == name;
  }

  lemma SectionRead(st: Progress, name: string, sec: Section, rest: string)
    requires IsKey(name) && SavableEntries(sec.entries)
    ensures AfterText(st, HeaderText(name) + "\n" + (SectionText(sec) + ("\n" + rest)))
         == AfterText(Progress(st.config[name := RereadSection(name, sec)], name, st.ok), rest)
  {
    var begun := Progress(st.config[name := Section(name, map[])], name, st.ok);
    HeaderRead(st, name);
    LineThen(st, HeaderText(name), SectionText(sec) + ("\n" + rest));
    EntriesRead(begun, sec.entries, sec.entries.Keys, "\n" + rest);
    FilledSection(st.config, name, RereadEntries(sec.entries, sec.entries.Keys));
    BlankLine(Progress(st.config[name := RereadSection(name, sec)], name, st.ok), rest);
  }

  lemma FilledSection(config: Config, name: string, more: map<string, seq<string>>)
    ensures WithEntries(config[name := Section(name, map[])], name, more) == config[name := Section(name, more)]
  {
    assert map[] + more == more;
    assert config[name := Section(name, map[])][name := Section(name, more)] == config[name := Section(name, more)];
  }

  ghost predicate Savable(config: Config) {
    forall n :: n in config ==> IsIdentifier(n) && SavableEntries(config[n].entries)
  }

  function RereadSections(config: Config, names: set<string>): Config {
    map n | n in config && n in names :: RereadSection(n, config[n])
  }

  lemma SectionThenOthers(read: Config, config: Config, names: set<string>, n: string)
    requires n in names && names <= config.Keys && n !in read
    ensures read[n := RereadSection(n, config[n])] + RereadSections(config, names - {n}) == read
            + RereadSections(config, names)
  {
  }

  /** The sections saved with a header are read as they stand; the config before does not have them. */
  lemma {:induction false} SectionsRead(st: Progress, config: Config, names: set<string>)
    requires Savable(config) && names <= config.Keys && "" !in names && names !! st.config.Keys
    ensures Outcome(AfterText(st, SectionsText(config, names)))
            == Outcome(st.(config := st.config + RereadSections(config, names)))
    decreases |names|
  {
    if names == {} {
      assert st.config + RereadSections(config, names) == st.config;
    } else {
      var n := First(names);
      SectionRead(st, n, config[n], SectionsText(config, names - {n}));
      SectionsRead(Progress(st.config[n := RereadSection(n, config[n])], n, st.ok), config, names - {n});
      SectionThenOthers(st.config, config, names, n);
    }
  }

  // ---- The whole file ----

  /** A blank section without entries leaves no trace. */
  function RereadConfig(config: Config): Config {
    map n | n in config && (n != "" || config[n].entries != map[]) :: RereadSection(n, config[n])
  }

  /** What loading a saved config gives: every section under its name, and every value as it is read back. */
  lemma LoadOfSave(config: Config)
    requires Savable(config)
    ensures Loaded(Saved(config)) == Some(RereadConfig(config))
  {
    var rest := SectionsText(config, config.Keys - {""});
    if "" in config {
      LoadOfBlank(config[""].entries, rest);
      var st := Progress(BlankSection(config[""].entries), "", true);
      SectionsRead(st, config, config.Keys - {""});
    } else {
      assert Saved(config) == "" + rest == rest;
      SectionsRead(Progress(map[], "", true), config, config.Keys - {""});
    }
    AllSections(config);
  }

  /** What the lines before the first header give. */
  function BlankSection(entries: map<string, seq<string>>): Config {
    WithEntries(map[], "", RereadEntries(entries, entries.Keys))
  }

  lemma AllSections(config: Config)
    ensures var blank := if "" in config then BlankSection(config[""].entries) else map[];
            blank + RereadSections(config, config.Keys - {""}) == RereadConfig(config)
  {
    if "" in config {
      var entries := config[""].entries;
      var more := RereadEntries(entries, entries.Keys);
      assert more.Keys == entries.Keys;
      assert map[] + more == more;
    }
  }

  lemma LoadOfBlank(entries: map<string, seq<string>>, rest: string)
    requires SavableEntries(entries)
    ensures AfterText(Progress(map[], "", true), EntriesText(entries, entries.Keys) + "\n" + rest)
         == AfterText(Progress(BlankSection(entries), "", true), rest)
  {
    var text := EntriesText(entries, entries.Keys);
    assert text + "\n" + rest == text + ("\n" + rest);
    EntriesRead(Progress(map[], "", true), entries, entries.Keys, "\n" + rest);
    BlankLine(Progress(BlankSection(entries), "", true), rest);
  }

  // ---- Which configs come back ----

  predicate IsClean(v: string) {
    '#' !in v && '\n' !in v
  }

  predicate CleanEntries(entries: map<string, seq<string>>) {
    forall k :: k in entries ==> IsKey(k) && entries[k] != [] && forall v :: v in entries[k] ==> IsClean(v)
  }

  /** What every loaded config is like. */
  predicate CleanConfig(config: Config) {
    forall n :: n in config ==> IsIdentifier(n) && config[n].name == n && CleanEntries(config[n].entries)
  }

  predicate CleanProgress(st: Progress) {
    st.ok ==> CleanConfig(st.config) && (st.section in st.config || st.section == "")
  }

  lemma PairIsClean(line: string)
    requires IsClean(line) && '=' in line && ReadPair(line).Ok?
    ensures IsKey(ReadPair(line).value.key) && IsClean(ReadPair(line).value.value)
  {
    var val := line[Find(line, '=').value + 1..];
    TrimIsPart(val);
    UnquotedIsPart(Trim(val));
  }

  lemma WithValueIsClean(values: seq<string>, index: Option<nat>, value: string)
    requires IsClean(value) && forall v :: v in values ==> IsClean(v)
    ensures WithValue(values, index, value) != [] && forall v :: v in WithValue(values, index, value) ==> IsClean(v)
  {
    if index.Some? {
      PaddedIsClean(values, index.value + 1);
    }
  }

  lemma {:induction false} PaddedIsClean(values: seq<string>, n: nat)
    requires forall v :: v in values ==> IsClean(v)
    ensures forall v :: v in Padded(values, n) ==> IsClean(v)
    decreases n - |values|
  {
    if |values| < n {
      PaddedIsClean(values + [""], n);
    }
  }

  lemma WithPairIsClean(config: Config, name: string, pair: Pair)
    requires CleanConfig(config) && (name in config || name == "") && IsKey(pair.key) && IsClean(pair.value)
    ensures CleanConfig(WithPair(config, name, pair))
  {
    var sec := SectionOf(config, name);
    assert CleanEntries(sec.entries);
    WithValueIsClean(ValuesOf(sec.entries, pair.key), pair.index, pair.value);
  }

  lemma LineKeepsClean(st: Progress, line: string)
    requires CleanProgress(st) && '\n' !in line
    ensures CleanProgress(AfterLine(st, line))
  {
    var s := Stripped(line);
    TrimIsPart(UpTo(line, '#'));
    if st.ok && s != "" && !IsHeader(s) && '=' in s && ReadPair(s).Ok? {
      PairIsClean(s);
      WithPairIsClean(st.config, st.section, ReadPair(s).value);
    }
  }

  lemma {:induction false} TextKeepsClean(st: Progress, text: string)
    requires CleanProgress(st)
    ensures CleanProgress(AfterText(st, text))
    decreases |text|
  {
    if Find(text, '\n').Some? {
      var p := Find(text, '\n').value;
      LineKeepsClean(st, text[..p]);
      TextKeepsClean(AfterLine(st, text[..p]), text[p + 1..]);
    }
  }

  /** The lists are no longer than the int that counts them when saving. */
  ghost predicate Countable(config: Config) {
    forall n, k :: n in config && k in config[n].entries ==> |config[n].entries[k]| <= MAX_INDEX + 1
  }

  /** Identifiers for names and keys, no empty list, a blank section only with entries, and values that survive. */
  ghost predicate Storable(config: Config) {
    forall n :: n in config ==>
      && IsIdentifier(n) && config[n].name == n && (n == "" ==> config[n].entries != map[])
      && StorableEntries(config[n].entries)
  }

  ghost predicate StorableEntries(entries: map<string, seq<string>>) {
    forall k :: k in entries ==> IsKey(k) && entries[k] != [] && forall v :: v in entries[k] ==> Survives(v)
  }

  lemma RereadsSame(values: seq<string>)
    requires forall v :: v in values ==> '\n' !in v
    ensures Rereads(values) == values <==> forall v :: v in values ==> Survives(v)
  {
    forall j | 0 <= j < |values| ensures Reread(values[j]) == values[j] <==> Survives(values[j]) {
      RereadIff(values[j]);
    }
    if Rereads(values) == values {
      forall v | v in values ensures Survives(v) {
        var j :| 0 <= j < |values| && values[j] == v;
        assert Rereads(values)[j] == Reread(values[j]);
      }
    }
  }

  lemma EntriesComeBack(entries: map<string, seq<string>>)
    requires StorableEntries(entries)
    ensures RereadEntries(entries, entries.Keys) == entries
  {
    forall k | k in entries ensures Rereads(entries[k]) == entries[k] {
      RereadsSame(entries[k]);
    }
  }

  lemma StorableComesBack(config: Config)
    requires Countable(config) && Storable(config)
    ensures Loaded(Saved(config)) == Some(config)
  {
    StorableIsSavable(config);
    LoadOfSave(config);
    RereadOfStorable(config);
  }

  lemma RereadOfStorable(config: Config)
    requires Storable(config)
    ensures RereadConfig(config) == config
  {
    forall n | n in config ensures RereadSection(n, config[n]) == config[n] {
      EntriesComeBack(config[n].entries);
    }
  }

  lemma StorableIsSavable(config: Config)
    requires Countable(config) && Storable(config)
    ensures Savable(config)
  {
  }

  lemma ComesBackIsStorable(config: Config)
    requires Countable(config) && Loaded(Saved(config)) == Some(config)
    ensures Storable(config)
  {
    TextKeepsClean(Progress(map[], "", true), Saved(config));
    assert CleanConfig(config);
    assert Savable(config);
    LoadOfSave(config);
    forall n | n in config
      ensures n == "" ==> config[n].entries != map[]
      ensures forall k :: k in config[n].entries ==> forall v :: v in config[n].entries[k] ==> Survives(v)
    {
      assert n in RereadConfig(config);
      assert config[n] == RereadSection(n, config[n]);
      forall k | k in config[n].entries ensures forall v :: v in config[n].entries[k] ==> Survives(v) {
        assert config[n].entries[k] == Rereads(config[n].entries[k]);
        RereadsSame(config[n].entries[k]);
      }
    }
  }

  /** A config is saved and loaded without change exactly when it is storable. */
  lemma RoundTripIff(config: Config)
    requires Countable(config)
    ensures Loaded(Saved(config)) == Some(config) <==> Storable(config)
  {
    if Storable(config) {
      StorableComesBack(config);
    }
    if Loaded(Saved(config)) == Some(config) {
      ComesBackIsStorable(config);
    }
  }
}
