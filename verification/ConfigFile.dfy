/** Loading and saving configuration files: `src/cfg/cfg.cpp`. */
module ConfigFile {
  import opened Wrappers
  import opened Strings
  import Numerals

  datatype Section = Section(name: string, entries: map<string, seq<string>>)

  type Config = map<string, Section>

  datatype LineError = BadFormat | BadIndex | BlankKey | BadIdentifier

  // ---- One line ----

  predicate IsIdentifierChar(c: char) {
    c == '$' || c == '_' || 'A' <= c <= 'Z' || '0' <= c <= '9'
  }

  /** check_is_identifier; it lets the empty string pass. */
  predicate IsIdentifier(s: string) {
    (s != "" ==> !('0' <= s[0] <= '9')) && forall i :: 0 <= i < |s| ==> IsIdentifierChar(s[i])
  }

  /** Both ends are quotes; the front of an empty string is its terminating null. */
  predicate IsQuoted(v: string) {
    v != "" && v[0] == '"' && v[|v| - 1] == '"'
  }

  /** A single quote character is both ends, and gives the empty string. */
  function Unquoted(v: string): string {
    if !IsQuoted(v) then v else if |v| == 1 then "" else v[1..|v| - 1]
  }

  /** INT_MAX */
  const MAX_INDEX := 2147483647

  /** std::stoi of a string of digits. */
  function ParseIndex(s: string): Result<nat, LineError> {
    if !Numerals.AllDigits(s) || s == "" || Numerals.Value(s) > MAX_INDEX then Err(BadIndex) else Ok(Numerals.Value(s))
  }

  /** The key and, where it ends in brackets, the index. */
  function KeyAndIndex(key: string): Result<(string, Option<nat>), LineError> {
    match Find(key, '[')
    case None => Ok((key, None))
    case Some(p) =>
      if key[|key| - 1] != ']' then Ok((key, None))
      else match ParseIndex(Trim(key[p + 1..|key| - 1]))
        case Err(e) => Err(e)
        case Ok(index) => Ok((Trim(key[..p]), Some(index)))
  }

  function CheckedKey(key: string): Result<string, LineError> {
    if key == "" then Err(BlankKey)
    else if !IsIdentifier(Upper(key)) then Err(BadIdentifier)
    else Ok(Upper(key))
  }

  /** What a line with a key and a value says. */
  datatype Pair = Pair(key: string, index: Option<nat>, value: string)

  function ReadPair(line: string): Result<Pair, LineError>
    requires '=' in line
  {
    var at := Find(line, '=').value;
    match KeyAndIndex(Trim(line[..at]))
    case Err(e) => Err(e)
    case Ok((key, index)) =>
      match CheckedKey(key)
      case Err(e) => Err(e)
      case Ok(name) => Ok(Pair(name, index, Unquoted(Trim(line[at + 1..]))))
  }

  predicate IsHeader(line: string) {
    line != "" && line[0] == '[' && line[|line| - 1] == ']'
  }

  function HeaderName(line: string): string
    requires IsHeader(line)
  {
    Upper(line[1..|line| - 1])
  }

  /** What counts of a line: no comment, no blanks at the ends. */
  function Stripped(line: string): string {
    Trim(UpTo(line, '#'))
  }

  // ---- The config ----

  function Padded(values: seq<string>, n: nat): (padded: seq<string>)
    ensures |padded| == if |values| < n then n else |values|
    decreases n - |values|
  {
    if |values| < n then Padded(values + [""], n) else values
  }

  function WithValue(values: seq<string>, index: Option<nat>, value: string): seq<string> {
    match index
    case None => values + [value]
    case Some(i) => Padded(values, i + 1)[i := value]
  }

  function ValuesOf(entries: map<string, seq<string>>, key: string): seq<string> {
    if key in entries then entries[key] else []
  }

  /** config[name], which creates it. */
  function SectionOf(config: Config, name: string): Section {
    if name in config then config[name] else Section("", map[])
  }

  function WithPair(config: Config, name: string, pair: Pair): Config {
    var sec := SectionOf(config, name);
    var values := WithValue(ValuesOf(sec.entries, pair.key), pair.index, pair.value);
    config[name := sec.(entries := sec.entries[pair.key := values])]
  }

  /** The config so far, the current section, and whether there was no error. */
  datatype Progress = Progress(config: Config, section: string, ok: bool)

  /** interpret, for a line that is not empty; a bad header still changes the current section. */
  function Interpreted(st: Progress, line: string): Progress {
    if IsHeader(line) then
      var name := HeaderName(line);
      if IsIdentifier(name) then Progress(st.config[name := Section(name, map[])], name, st.ok)
      else Progress(st.config, name, false)
    else if '=' in line then
      match ReadPair(line)
      case Err(_) => st.(ok := false)
      case Ok(pair) => st.(config := WithPair(st.config, st.section, pair))
    else st.(ok := false)
  }

  function AfterLine(st: Progress, line: string): Progress {
    if Stripped(line) == "" then st else Interpreted(st, Stripped(line))
  }

  /** The lines of a text up to its last newline; what follows is ignored. */
  function AfterText(st: Progress, text: string): Progress
    decreases |text|
  {
    match Find(text, '\n')
    case None => st
    case Some(p) => AfterText(AfterLine(st, text[..p]), text[p + 1..])
  }

  function Loaded(text: string): Option<Config> {
    var st := AfterText(Progress(map[], "", true), text);
    Outcome(st)
  }

  /** load and what it calls, on an object that holds the config while it is read. */
  class Loader {
    var config: Config
    var sectionName: string

    constructor ()
      ensures config == map[] && sectionName == ""
    {
      config, sectionName := map[], "";
    }

    method Interpret(line: string) returns (error: Option<LineError>)
      requires line != ""
      modifies this
      ensures Progress(config, sectionName, error.None?)
              == Interpreted(Progress(old(config), old(sectionName), true), line)
    {
      if line[0] == '[' && line[|line| - 1] == ']' {
        error := ReadSectionHeader(line);
      } else if Find(line, '=').Some? {
        error := ReadKvPair(line);
      } else {
        error := Some(BadFormat);
      }
    }

    method ReadSectionHeader(line: string) returns (error: Option<LineError>)
      requires IsHeader(line)
      modifies this
      ensures Progress(config, sectionName, error.None?)
              == Interpreted(Progress(old(config), old(sectionName), true), line)
    {
      sectionName := Upper(line[1..|line| - 1]);
      if !IsIdentifier(sectionName) {
        return Some(BadIdentifier);
      }
      config := config[sectionName := Section(sectionName, map[])];
      return None;
    }

    method ReadKvPair(line: string) returns (error: Option<LineError>)
      requires '=' in line
      modifies this`config
      ensures match ReadPair(line)
              case Err(e) => error == Some(e) && config == old(config)
              case Ok(pair) => error == None && config == WithPair(old(config), sectionName, pair)
    {
      var splitAt := Find(line, '=').value;
      var key, val := Trim(line[..splitAt]), Trim(line[splitAt + 1..]);
      var r := SplitIndex(key);
      if r.Err? {
        return Some(r.error);
      }
      var index: int := if r.value.1.Some? then r.value.1.value else -1;
      key := r.value.0;
      if key == "" {
        return Some(BlankKey);
      }
      key := Upper(key);
      if !IsIdentifier(key) {
        return Some(BadIdentifier);
      }
      if IsQuoted(val) {
        val := Unquoted(val);
      }
      Store(key, index, val);
      return None;
    }

    /** The part of read_kv_pair that takes an index off the key. */
    method SplitIndex(key: string) returns (r: Result<(string, Option<nat>), LineError>)
      ensures r == KeyAndIndex(key)
    {
      var bracketPos := Find(key, '[');
      if bracketPos.Some? && key[|key| - 1] == ']' {
        var idx := ParseIndex(Trim(key[bracketPos.value + 1..|key| - 1]));
        if idx.Err? {
          return Err(idx.error);
        }
        return Ok((Trim(key[..bracketPos.value]), Some(idx.value)));
      }
      return Ok((key, None));
    }

    /** The end of read_kv_pair: the key is created, and the list padded up to an explicit index. */
    method Store(key: string, index: int, val: string)
      requires index >= -1
      modifies this`config
      ensures config == WithPair(old(config), sectionName, Pair(key, if index == -1 then None else Some(index), val))
    {
      var sec := SectionOf(config, sectionName);
      var values := ValuesOf(sec.entries, key);
      if index != -1 {
        var i: nat := index;
        while |values| < i + 1
          invariant Padded(values, i + 1) == Padded(ValuesOf(sec.entries, key), i + 1)
          decreases i + 1 - |values|
        {
          values := values + [""];
        }
        values := values[i := val];
      } else {
        values := values + [val];
      }
      config := config[sectionName := sec.(entries := sec.entries[key := values])];
    }
  }

  function Outcome(st: Progress): Option<Config> {
    if st.ok then Some(st.config) else None
  }

  /** An error is not forgotten, and does not change how the next line is read. */
  lemma ErrorsStay(st: Progress, line: string)
    ensures AfterLine(st, line) == var next := AfterLine(st.(ok := true), line); next.(ok := st.ok && next.ok)
  {
  }

  /** load: all or nothing, but every line is read. */
  method Load(text: string) returns (r: Option<Config>)
    ensures r == Loaded(text)
  {
    var loader := new Loader();
    var noErrors, rest := true, text;
    var end := Find(rest, '\n');
    while end.Some?
      invariant end == Find(rest, '\n')
      invariant Loaded(text) == Outcome(AfterText(Progress(loader.config, loader.sectionName, noErrors), rest))
      decreases |rest|
    {
      ghost var st := Progress(loader.config, loader.sectionName, noErrors);
      ErrorsStay(st, rest[..end.value]);
      var ok := LoadLine(loader, rest[..end.value]);
      noErrors := noErrors && ok;
      rest := rest[end.value + 1..];
      end := Find(rest, '\n');
    }
    return if noErrors then Some(loader.config) else None;
  }

  /** The body of the loop of load; false for an error. */
  method LoadLine(loader: Loader, text: string) returns (ok: bool)
    modifies loader
    ensures Progress(loader.config, loader.sectionName, ok)
            == AfterLine(Progress(old(loader.config), old(loader.sectionName), true), text)
  {
    ok := true;
    var line := Trim(UpTo(text, '#'));
    if line != "" {
      var error := loader.Interpret(line);
      ok := error.None?;
    }
  }
}
