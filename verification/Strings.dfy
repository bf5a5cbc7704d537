/** Trimming, upper case and searching, as `src/util/string.cpp` and the standard string class have them. */
module Strings {
  import opened Wrappers

  predicate IsDigit(c: char) {
    '0' <= c <= '9'
  }

  /** std::isspace in the C locale. */
  predicate IsSpace(c: char) {
    c == ' ' || c == '\t' || c == '\n' || c == '\r' || c == 11 as char || c == 12 as char
  }

  /** s[i], which is the terminating null at the end. */
  function At(s: string, i: nat): char {
    if i < |s| then s[i] else 0 as char
  }

  function AsSet(strings: seq<string>): set<string> {
    set s | s in strings
  }

  /** default_ws */
  predicate IsBlank(c: char) {
    c == ' ' || c == '\t' || c == '\r' || c == '\n'
  }

  predicate AllBlank(s: string) {
    forall i :: 0 <= i < |s| ==> IsBlank(s[i])
  }

  function LeftTrim(s: string): string {
    if s != "" && IsBlank(s[0]) then LeftTrim(s[1..]) else s
  }

  function RightTrim(s: string): string {
    if s != "" && IsBlank(s[|s| - 1]) then RightTrim(s[..|s| - 1]) else s
  }

  function Trim(s: string): string {
    RightTrim(LeftTrim(s))
  }

  /** Neither end is blank. */
  predicate IsTrimmed(s: string) {
    s != "" ==> !IsBlank(s[0]) && !IsBlank(s[|s| - 1])
  }

  lemma {:induction false} LeftTrimSplits(s: string) returns (a: string)
    ensures s == a + LeftTrim(s) && AllBlank(a)
    ensures LeftTrim(s) != "" ==> !IsBlank(LeftTrim(s)[0])
  {
    if s != "" && IsBlank(s[0]) {
      var rest := LeftTrimSplits(s[1..]);
      a := [s[0]] + rest;
      assert s == [s[0]] + s[1..];
    } else {
      a := "";
    }
  }

  lemma {:induction false} RightTrimSplits(s: string) returns (b: string)
    ensures s == RightTrim(s) + b && AllBlank(b)
    ensures RightTrim(s) != "" ==> !IsBlank(RightTrim(s)[|RightTrim(s)| - 1])
  {
    if s != "" && IsBlank(s[|s| - 1]) {
      var rest := RightTrimSplits(s[..|s| - 1]);
      b := rest + [s[|s| - 1]];
      assert s == s[..|s| - 1] + [s[|s| - 1]];
    } else {
      b := "";
      assert s + "" == s;
    }
  }

  /** Trimming takes off blanks at both ends, and all of them. */
  lemma TrimSplits(s: string) returns (a: string, b: string)
    ensures s == a + Trim(s) + b && AllBlank(a) && AllBlank(b) && IsTrimmed(Trim(s))
  {
    a := LeftTrimSplits(s);
    b := RightTrimSplits(LeftTrim(s));
    assert a + (Trim(s) + b) == a + Trim(s) + b;
    if Trim(s) != "" {
      assert LeftTrim(s)[0] == Trim(s)[0];
    }
  }

  lemma {:induction false} LeftTrimOf(a: string, t: string)
    requires AllBlank(a) && (t != "" ==> !IsBlank(t[0]))
    ensures LeftTrim(a + t) == t
    decreases |a|
  {
    if a == "" {
      assert a + t == t;
    } else {
      assert (a + t)[1..] == a[1..] + t;
      LeftTrimOf(a[1..], t);
    }
  }

  lemma {:induction false} RightTrimOf(t: string, b: string)
    requires AllBlank(b) && (t != "" ==> !IsBlank(t[|t| - 1]))
    ensures RightTrim(t + b) == t
    decreases |b|
  {
    if b == "" {
      assert t + b == t;
    } else {
      assert (t + b)[..|t + b| - 1] == t + b[..|b| - 1];
      RightTrimOf(t, b[..|b| - 1]);
    }
  }

  /** Nothing else is what is left. */
  lemma TrimOf(a: string, t: string, b: string)
    requires AllBlank(a) && AllBlank(b) && IsTrimmed(t)
    ensures Trim(a + t + b) == t
  {
    if t == "" {
      assert a + t + b == (a + b) + "";
      LeftTrimOf(a + b, "");
    } else {
      assert a + t + b == a + (t + b);
      LeftTrimOf(a, t + b);
      RightTrimOf(t, b);
    }
  }

  // ---- Upper case ----

  /** toupper in the C locale. */
  function UpperChar(c: char): char {
    if 'a' <= c <= 'z' then (c as int - 32) as char else c
  }

  function Upper(s: string): (u: string)
    ensures |u| == |s| && forall i :: 0 <= i < |s| ==> u[i] == UpperChar(s[i])
  {
    seq(|s|, i requires 0 <= i < |s| => UpperChar(s[i]))
  }

  // ---- Searching ----

  /** s.find(c) */
  function Find(s: string, c: char): (p: Option<nat>)
    ensures p.Some? ==> p.value < |s| && s[p.value] == c && forall i :: 0 <= i < p.value ==> s[i] != c
    ensures p.None? <==> c !in s
  {
    if s == "" then None
    else if s[0] == c then Some(0)
    else match Find(s[1..], c)
      case None => None
      case Some(p) => Some(p + 1)
  }

  lemma FindAfter(a: string, c: char, b: string)
    requires c !in a
    ensures Find(a + [c] + b, c) == Some(|a|)
  {
    var s := a + [c] + b;
    assert s[|a|] == c;
    assert forall i :: 0 <= i < |a| ==> s[i] == a[i] && a[i] != c;
  }

  /** s up to the first c, or all of it. */
  function UpTo(s: string, c: char): (t: string)
    ensures c !in t && t <= s && (c !in s ==> t == s)
  {
    if Find(s, c).Some? then s[..Find(s, c).value] else s
  }

  lemma UpToAfter(a: string, b: string, c: char)
    requires c !in a
    ensures UpTo(a + b, c) == a + UpTo(b, c)
  {
    if c in b {
      var p := Find(b, c).value;
      assert a + b == (a + b[..p]) + [c] + b[p + 1..];
      FindAfter(a + b[..p], c, b[p + 1..]);
    }
  }
}
