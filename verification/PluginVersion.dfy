/** Plugin versions: parsing and printing, `src/plugin/plugin.hpp`. */
module PluginVersion {
  import opened Wrappers
  import opened Strings
  import opened Numerals

  const UINT32: nat := 0x1_0000_0000
  const SIZE_T: nat := 0x1_0000_0000_0000_0000

  datatype Version = Version(major: nat, minor: nat, debug: nat, build: nat)

  const ZERO := Version(0, 0, 0, 0)

  predicate IsUint32(n: nat) {
    n < UINT32
  }

  /** The fields are uint32_t. */
  predicate Valid(v: Version) {
    IsUint32(v.major) && IsUint32(v.minor) && IsUint32(v.debug) && IsUint32(v.build)
  }

  /** (uint32_t) of a long */
  function ToUint32(n: int): (r: nat)
    ensures IsUint32(r)
  {
    n % UINT32
  }

  /** The guard after each part: fewer than two characters would be left, or the separator is missing. */
  predicate StopsAfter(ver: string, pos: nat, separator: char)
    requires |ver| < SIZE_T
  {
    pos >= (if |ver| >= 2 then |ver| - 2 else |ver| - 2 + SIZE_T) || At(ver, pos) != separator
  }

  function WithPart(v: Version, index: nat, part: nat): Version {
    if index == 0 then v.(major := part)
    else if index == 1 then v.(minor := part)
    else if index == 2 then v.(debug := part)
    else v.(build := part)
  }

  /** The parts from `ver` on, given the ones before; `index` counts the parts read. */
  function ParseParts(ver: string, index: nat, v: Version): Result<Version, ParseError>
    requires |ver| < SIZE_T && index <= 3
    decreases 3 - index
  {
    match ParseLong(ver)
    case Err(e) => Err(e)
    case Ok(n) =>
      var v' := WithPart(v, index, ToUint32(n.value));
      if index == 3 || StopsAfter(ver, n.end, if index == 2 then 'b' else '.') then Ok(v')
      else if n.end < |ver| then ParseParts(ver[n.end + 1..], index + 1, v')
      else Ok(v')
  }

  /** After a part with its separator, parsing goes on behind the separator. */
  lemma NextPart(ver: string, index: nat, v: Version, n: Number)
    requires |ver| < SIZE_T && index < 3 && ParseLong(ver) == Ok(n) && n.end < |ver|
    requires !StopsAfter(ver, n.end, if index == 2 then 'b' else '.')
    ensures ParseParts(ver, index, v) == ParseParts(ver[n.end + 1..], index + 1, WithPart(v, index, ToUint32(n.value)))
  {
  }

  function WithoutV(s: string): (r: string)
    ensures |r| <= |s|
  {
    if At(s, 0) == 'v' || At(s, 0) == 'V' then s[1..] else s
  }

  /** What the constructor makes of a text; an error is an exception of stol. */
  function Parsed(s: string): Result<Version, ParseError>
    requires |s| < SIZE_T
  {
    ParseParts(WithoutV(s), 0, ZERO)
  }

  /** version_type(const std::string &) */
  method Parse(verStr: string) returns (r: Result<Version, ParseError>)
    requires |verStr| < SIZE_T
    ensures r == Parsed(verStr)
  {
    var ver := verStr;
    if At(ver, 0) == 'v' || At(ver, 0) == 'V' {
      ver := ver[1..];
    }
    r := ParseMajorAndMinor(ver);
  }

  method ParseMajorAndMinor(ver: string) returns (r: Result<Version, ParseError>)
    requires |ver| < SIZE_T
    ensures r == ParseParts(ver, 0, ZERO)
  {
    var n := ParseLong(ver);
    if n.Err? {
      return Err(n.error);
    }
    var v := ZERO.(major := ToUint32(n.value.value));
    if StopsAfter(ver, n.value.end, '.') {
      StopsHere(ver, 0, ZERO, n.value);
      return Ok(v);
    }
    NextPart(ver, 0, ZERO, n.value);
    r := ParseMinor(ver[n.value.end + 1..], v);
  }

  method ParseMinor(ver: string, version: Version) returns (r: Result<Version, ParseError>)
    requires |ver| < SIZE_T
    ensures r == ParseParts(ver, 1, version)
  {
    var n := ParseLong(ver);
    if n.Err? {
      return Err(n.error);
    }
    var v := version.(minor := ToUint32(n.value.value));
    if StopsAfter(ver, n.value.end, '.') {
      StopsHere(ver, 1, version, n.value);
      return Ok(v);
    }
    NextPart(ver, 1, version, n.value);
    r := ParseDebugAndBuild(ver[n.value.end + 1..], v);
  }

  method ParseDebugAndBuild(verStr: string, version: Version) returns (r: Result<Version, ParseError>)
    requires |verStr| < SIZE_T
    ensures r == ParseParts(verStr, 2, version)
  {
    var v, ver := version, verStr;
    var n := ParseLong(ver);
    if n.Err? {
      return Err(n.error);
    }
    v := v.(debug := ToUint32(n.value.value));
    if StopsAfter(ver, n.value.end, 'b') {
      return Ok(v);
    }
    NextPart(ver, 2, version, n.value);
    ver := ver[n.value.end + 1..];
    n := ParseLong(ver);
    if n.Err? {
      return Err(n.error);
    }
    v := v.(build := ToUint32(n.value.value));
    return Ok(v);
  }

  function BuildSuffix(v: Version): string {
    if v.build != 0 then "b" + Decimal(v.build) else ""
  }

  function Printed(v: Version): string {
    "v" + Decimal(v.major) + "." + Decimal(v.minor) + "." + Decimal(v.debug) + BuildSuffix(v)
  }

  method ToString(v: Version) returns (out: string)
    ensures out == Printed(v)
  {
    out := "v" + Decimal(v.major) + "." + Decimal(v.minor) + "." + Decimal(v.debug);
    out := out + (if v.build != 0 then "b" + Decimal(v.build) else "");
  }

  /** The versions that survive printing and parsing. */
  predicate Survives(v: Version) {
    v.build >= 10 || (v.build == 0 && (v.debug == 0 || v.debug >= 10))
  }

  /** One part and its separator are read, and the rest is left for the next part. */
  lemma PartRead(n: nat, separator: char, rest: string)
    requires IsUint32(n) && !IsDigit(separator) && |Decimal(n)| + 1 + |rest| < SIZE_T
    ensures var ver := Decimal(n) + [separator] + rest;
            && ParseLong(ver) == Ok(Number(n, |Decimal(n)|)) && ToUint32(n) == n
            && ver[|Decimal(n)| + 1..] == rest
            && (StopsAfter(ver, |Decimal(n)|, separator) <==> |rest| <= 1)
  {
    var ver := Decimal(n) + [separator] + rest;
    SeparatorAt(Decimal(n), separator, rest);
    ParseDecimal(n, [separator] + rest);
  }

  lemma SeparatorAt(part: string, separator: char, rest: string)
    ensures var ver := part + [separator] + rest;
            ver == part + ([separator] + rest) && ver[|part|] == separator && ver[|part| + 1..] == rest
  {
  }

  /** A part at the end of the text is read, and the guard stops there. */
  lemma LastRead(n: nat, separator: char)
    requires IsUint32(n) && separator != 0 as char && |Decimal(n)| < SIZE_T
    ensures var ver := Decimal(n);
            && ParseLong(ver) == Ok(Number(n, |ver|)) && ToUint32(n) == n && StopsAfter(ver, |ver|, separator)
  {
    ParseDecimal(n, "");
    assert Decimal(n) + "" == Decimal(n);
  }

  /** A part followed by at most one character is the last one read. */
  lemma StopsHere(ver: string, index: nat, v: Version, n: Number)
    requires |ver| < SIZE_T && index < 3 && ParseLong(ver) == Ok(n)
    requires StopsAfter(ver, n.end, if index == 2 then 'b' else '.')
    ensures ParseParts(ver, index, v) == Ok(WithPart(v, index, ToUint32(n.value)))
  {
  }

  lemma FourthPart(v: Version)
    requires Valid(v) && |Decimal(v.build)| < SIZE_T
    ensures ParseParts(Decimal(v.build), 3, v.(build := 0)) == Ok(v)
  {
    LastRead(v.build, '.');
  }

  /** Reading the last two parts: a build of one digit is lost. */
  lemma ThirdPart(v: Version)
    requires Valid(v) && |Decimal(v.debug) + BuildSuffix(v)| < SIZE_T
    ensures ParseParts(Decimal(v.debug) + BuildSuffix(v), 2, Version(v.major, v.minor, 0, 0))
         == Ok(if v.build >= 10 then v else v.(build := 0))
  {
    var v2 := Version(v.major, v.minor, 0, 0);
    DecimalRoundTrip(v.build);
    if v.build != 0 {
      var ver := Decimal(v.debug) + ['b'] + Decimal(v.build);
      assert Decimal(v.debug) + BuildSuffix(v) == ver;
      PartRead(v.debug, 'b', Decimal(v.build));
      var n := Number(v.debug, |Decimal(v.debug)|);
      if v.build >= 10 {
        NextPart(ver, 2, v2, n);
        FourthPart(v);
      } else {
        StopsHere(ver, 2, v2, n);
      }
    } else {
      assert Decimal(v.debug) + BuildSuffix(v) == Decimal(v.debug);
      LastRead(v.debug, 'b');
      StopsHere(Decimal(v.debug), 2, v2, Number(v.debug, |Decimal(v.debug)|));
    }
  }

  /** Reading the last three parts: with no build, a debug of one digit is lost as well. */
  lemma SecondPart(v: Version, third: string)
    requires Valid(v) && third == Decimal(v.debug) + BuildSuffix(v) && |Decimal(v.minor) + ['.'] + third| < SIZE_T
    ensures ParseParts(Decimal(v.minor) + ['.'] + third, 1, Version(v.major, 0, 0, 0))
         == Ok(if v.build >= 10 then v
               else if v.build != 0 || v.debug >= 10 then v.(build := 0)
               else v.(debug := 0, build := 0))
  {
    var v1, ver := Version(v.major, 0, 0, 0), Decimal(v.minor) + ['.'] + third;
    var n := Number(v.minor, |Decimal(v.minor)|);
    PartRead(v.minor, '.', third);
    DecimalRoundTrip(v.debug);
    assert |third| <= 1 <==> v.build == 0 && v.debug < 10;
    if |third| <= 1 {
      StopsHere(ver, 1, v1, n);
    } else {
      NextPart(ver, 1, v1, n);
      ThirdPart(v);
    }
  }

  lemma PrintedBehindV(v: Version)
    ensures WithoutV(Printed(v)) == Decimal(v.major) + ['.']
            + (Decimal(v.minor) + ['.'] + (Decimal(v.debug) + BuildSuffix(v)))
  {
    assert Printed(v) == ['v']
        + (Decimal(v.major) + ['.'] + (Decimal(v.minor) + ['.'] + (Decimal(v.debug) + BuildSuffix(v))));
  }

  /** What is left of a version after printing and parsing. */
  lemma PrintedThenParsed(v: Version)
    requires Valid(v) && |Printed(v)| < SIZE_T
    ensures Parsed(Printed(v)) == Ok(if v.build >= 10 then v
                                     else if v.build != 0 || v.debug >= 10 then v.(build := 0)
                                     else v.(debug := 0, build := 0))
  {
    var third := Decimal(v.debug) + BuildSuffix(v);
    var second := Decimal(v.minor) + ['.'] + third;
    var first := Decimal(v.major) + ['.'] + second;
    PrintedBehindV(v);
    PartRead(v.major, '.', second);
    NextPart(first, 0, ZERO, Number(v.major, |Decimal(v.major)|));
    SecondPart(v, third);
  }

  /** Printing and parsing give a version back exactly when it survives. */
  lemma RoundTripIff(v: Version)
    requires Valid(v) && |Printed(v)| < SIZE_T
    ensures Parsed(Printed(v)) == Ok(v) <==> Survives(v)
  {
    PrintedThenParsed(v);
  }

  /** The constructor reads on exactly if the separator is there and at least two characters follow it. */
  lemma GoesOnIff(ver: string, index: nat, v: Version)
    requires |ver| < SIZE_T && index < 3 && ParseLong(ver).Ok?
    ensures var n, separator := ParseLong(ver).value, if index == 2 then 'b' else '.';
            ParseParts(ver, index, v) ==
            if n.end + 2 < |ver| && ver[n.end] == separator
            then ParseParts(ver[n.end + 1..], index + 1, WithPart(v, index, ToUint32(n.value)))
            else Ok(WithPart(v, index, ToUint32(n.value)))
  {
  }

  /** One leading v of either case is skipped. */
  lemma LeadingV(s: string)
    requires |s| + 1 < SIZE_T && (s != "" ==> s[0] != 'v' && s[0] != 'V')
    ensures Parsed("v" + s) == Parsed("V" + s) == Parsed(s) == ParseParts(s, 0, ZERO)
  {
    assert ("v" + s)[1..] == s && ("V" + s)[1..] == s;
  }

  /** The cast keeps the number modulo 2^32, for negative ones too. */
  lemma ToUint32IsCongruent(n: int)
    ensures (n - ToUint32(n)) % UINT32 == 0
  {
    assert n - ToUint32(n) == UINT32 * (n / UINT32);
  }

  /** The order of the parts. */
  lemma Example()
    ensures var v := Version(1, 2, 34, 56); Printed(v) == "v1.2.34b56" && Parsed("v1.2.34b56") == Ok(v)
  {
    var v := Version(1, 2, 34, 56);
    assert Decimal(34) == "34" && Decimal(56) == "56";
    assert Printed(v) == "v1.2.34b56";
    PrintedThenParsed(v);
  }
}
