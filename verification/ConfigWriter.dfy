/** Saving configuration files: `save` and `write_section` of `src/cfg/cfg.cpp`. */
module ConfigWriter {
  import opened ConfigFile
  import opened OrderedStrings
  import Numerals

  /** A value that starts with a blank is put in quotes. */
  function Written(v: string): string {
    if v != "" && (v[0] == ' ' || v[0] == '\t') then "\"" + v + "\"" else v
  }

  function IndexText(many: bool, i: nat): string {
    if many then "[" + Numerals.Decimal(i) + "]" else ""
  }

  function ValueLine(k: string, many: bool, i: nat, v: string): string {
    k + IndexText(many, i) + " = " + Written(v)
  }

  /** The lines for the values from the i-th on. */
  function ValuesText(k: string, values: seq<string>, i: nat): string
    requires i <= |values|
    decreases |values| - i
  {
    if i == |values| then "" else ValueLine(k, |values| > 1, i, values[i]) + "\n" + ValuesText(k, values, i + 1)
  }

  /** The entries with these keys, in the order of the map. */
  function EntriesText(entries: map<string, seq<string>>, keys: set<string>): string
    requires keys <= entries.Keys
    decreases |keys|
  {
    if keys == {} then ""
    else
      var k := First(keys);
      ValuesText(k, entries[k], 0) + EntriesText(entries, keys - {k})
  }

  function SectionText(sec: Section): string {
    EntriesText(sec.entries, sec.entries.Keys)
  }

  function HeaderText(name: string): string {
    "[" + name + "]"
  }

  /** The sections with these names, each with a header. */
  function SectionsText(config: Config, names: set<string>): string
    requires names <= config.Keys
    decreases |names|
  {
    if names == {} then ""
    else
      var n := First(names);
      HeaderText(n) + "\n" + (SectionText(config[n]) + ("\n" + SectionsText(config, names - {n})))
  }

  /** The blank section comes first and without a header. */
  function Saved(config: Config): string {
    (if "" in config then SectionText(config[""]) + "\n" else "") + SectionsText(config, config.Keys - {""})
  }

  lemma Regroup(a: string, b: string, c: string)
    ensures a + (b + c) == a + b + c
  {
  }

  /** write_section, with the text so far. */
  method WriteSection(before: string, sec: Section) returns (out: string)
    ensures out == before + SectionText(sec)
  {
    out := before;
    var it := sec.entries.Keys;
    while it != {}
      invariant it <= sec.entries.Keys
      invariant before + SectionText(sec) == out + EntriesText(sec.entries, it)
      decreases |it|
    {
      var k := First(it);
      Regroup(out, ValuesText(k, sec.entries[k], 0), EntriesText(sec.entries, it - {k}));
      out := WriteValues(out, k, sec.entries[k]);
      it := it - {k};
    }
    assert out + "" == out;
  }

  /** The inner loop of write_section. */
  method WriteValues(before: string, k: string, values: seq<string>) returns (out: string)
    ensures out == before + ValuesText(k, values, 0)
  {
    out := before;
    var includeIndex := |values| > 1;
    var index := 0;
    while index < |values|
      invariant 0 <= index <= |values|
      invariant before + ValuesText(k, values, 0) == out + ValuesText(k, values, index)
    {
      var v := values[index];
      ghost var line := ValueLine(k, includeIndex, index, v);
      ghost var start := out;
      out := out + k;
      if includeIndex {
        out := out + ("[" + Numerals.Decimal(index) + "]");
      }
      out := out + " = ";
      if v != "" && (v[0] == ' ' || v[0] == '\t') {
        out := out + ("\"" + v + "\"");
      } else {
        out := out + v;
      }
      LineAppended(start, k, IndexText(includeIndex, index), Written(v));
      out := out + "\n";
      AppendedAndRest(start, line, ValuesText(k, values, index + 1));
      index := index + 1;
    }
    assert out + "" == out;
  }

  lemma LineAppended(start: string, k: string, index: string, value: string)
    ensures start + k + index + " = " + value == start + (k + index + " = " + value)
    ensures start + k + "" == start + k
  {
  }

  lemma AppendedAndRest(start: string, line: string, rest: string)
    ensures start + (line + "\n" + rest) == start + line + "\n" + rest
  {
  }

  /** save */
  method Save(config: Config) returns (out: string)
    ensures out == Saved(config)
  {
    out := SaveBlank(config);
    ghost var blank := out;
    var it := config.Keys - {""};
    while it != {}
      invariant it <= config.Keys - {""}
      invariant blank + SectionsText(config, config.Keys - {""}) == out + SectionsText(config, it)
      decreases |it|
    {
      var n := First(it);
      ghost var start := out;
      out := SaveSection(out, n, config[n]);
      SectionAppended(start, HeaderText(n) + "\n", SectionText(config[n]), SectionsText(config, it - {n}));
      it := it - {n};
    }
    assert out + "" == out;
  }

  method SaveBlank(config: Config) returns (out: string)
    ensures out == if "" in config then SectionText(config[""]) + "\n" else ""
  {
    out := "";
    if "" in config {
      out := WriteSection(out, config[""]);
      assert "" + SectionText(config[""]) == SectionText(config[""]);
      out := out + "\n";
    }
  }

  method SaveSection(before: string, name: string, sec: Section) returns (out: string)
    ensures out == before + (HeaderText(name) + "\n") + SectionText(sec) + "\n"
  {
    out := before + (HeaderText(name) + "\n");
    out := WriteSection(out, sec);
    out := out + "\n";
  }

  lemma SectionAppended(start: string, header: string, body: string, rest: string)
    ensures start + (header + (body + ("\n" + rest))) == start + header + body + "\n" + rest
  {
  }

  // ---- The form of the file ----

  lemma NumeralsOfFirst()
    ensures Numerals.Decimal(0) == "0" && Numerals.Decimal(1) == "1"
  {
  }

  lemma LastValue(k: string, values: seq<string>, i: nat)
    requires |values| == i + 1
    ensures ValuesText(k, values, i) == ValueLine(k, i > 0, i, values[i]) + "\n"
  {
    assert ValuesText(k, values, i + 1) == "";
    assert ValueLine(k, i > 0, i, values[i]) + "\n" + "" == ValueLine(k, i > 0, i, values[i]) + "\n";
  }

  lemma LineForms(k: string, v: string)
    requires v != "" ==> v[0] != ' ' && v[0] != '\t'
    ensures ValueLine(k, false, 0, v) == k + " = " + v
    ensures ValueLine(k, true, 0, v) == k + "[0] = " + v && ValueLine(k, true, 1, v) == k + "[1] = " + v
  {
    NumeralsOfFirst();
    assert IndexText(true, 0) == "[0]" && IndexText(true, 1) == "[1]";
    assert k + "" == k;
  }

  /** One value has no index, several have theirs. */
  lemma ValueForms(k: string, v: string, w: string)
    requires (v != "" ==> v[0] != ' ' && v[0] != '\t') && (w != "" ==> w[0] != ' ' && w[0] != '\t')
    ensures ValuesText(k, [v], 0) == k + " = " + v + "\n"
    ensures ValuesText(k, [v, w], 0) == k + "[0] = " + v + "\n" + (k + "[1] = " + w + "\n")
  {
    LineForms(k, v);
    LineForms(k, w);
    LastValue(k, [v], 0);
    LastValue(k, [v, w], 1);
  }

  /** The blank section stands first and without a header, and an empty line follows each section. */
  lemma FileForm(blank: Section, name: string, sec: Section)
    requires name != ""
    ensures Saved(map["" := blank, name := sec])
         == SectionText(blank) + "\n" + ("[" + name + "]\n" + SectionText(sec) + "\n")
  {
    var config := map["" := blank, name := sec];
    assert config.Keys - {""} == {name} && First({name}) == name && {name} - {name} == {};
    SectionAppended("", HeaderText(name) + "\n", SectionText(sec), SectionsText(config, {}));
    HeaderForm(name, SectionText(sec));
    assert SectionsText(config, {name})
        == HeaderText(name) + "\n" + (SectionText(sec) + ("\n" + SectionsText(config, {})));
  }

  /** Sections and keys come in the order of their names. */
  lemma InOrder(config: Config, a: string, b: string, entries: map<string, seq<string>>)
    requires Less(a, b) && {a, b} <= config.Keys && {a, b} <= entries.Keys
    ensures SectionsText(config, {a, b})
         == HeaderText(a) + "\n" + (SectionText(config[a]) + ("\n" + SectionsText(config, {b})))
    ensures EntriesText(entries, {a, b}) == ValuesText(a, entries[a], 0) + EntriesText(entries, {b})
  {
    Asymmetric(a, b);
    assert IsFirst(a, {a, b});
    FirstIsUnique(a, First({a, b}), {a, b});
    assert {a, b} - {a} == {b};
  }

  lemma HeaderForm(name: string, body: string)
    ensures HeaderText(name) + "\n" + (body + ("\n" + "")) == "[" + name + "]\n" + body + "\n"
  {
    assert HeaderText(name) + "\n" == "[" + name + "]\n";
  }
}
