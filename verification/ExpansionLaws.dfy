/**
 Expansion said without positions: what each form of text at the front of another contributes. Every text begins with
 exactly one of these forms, so the laws leave no other result.
 */
module ExpansionLaws {
  import opened Wrappers
  import opened Strings
  import opened Alphabets
  import opened VariableExpander

  const IDENTIFIER_CHARS := CAPITALS + SMALLS + "_" + DIGITS

  /** 26 capitals, 26 small letters, the underscore and the digits. */
  lemma IdentifierCharsAre(c: char)
    ensures IsIdentifierChar(c) <==> c in IDENTIFIER_CHARS
  {
    LettersAndDigits(c);
    InParts(CAPITALS, SMALLS, "_", DIGITS, c);
  }

  lemma InParts(a: string, b: string, d: string, e: string, c: char)
    ensures c in a + b + d + e <==> c in a || c in b || c in d || c in e
  {
  }

  predicate IsName(name: string) {
    name != "" && !IsDigit(name[0]) && forall i :: 0 <= i < |name| ==> name[i] in IDENTIFIER_CHARS
  }

  /** The character does not go on with a name. */
  predicate EndsName(rest: string) {
    rest == "" || rest[0] !in IDENTIFIER_CHARS
  }

  lemma AllIdentifierChars(name: string)
    requires forall i :: 0 <= i < |name| ==> name[i] in IDENTIFIER_CHARS
    ensures forall i :: 0 <= i < |name| ==> IsIdentifierChar(name[i])
  {
    forall i | 0 <= i < |name| ensures IsIdentifierChar(name[i]) {
      IdentifierCharsAre(name[i]);
    }
  }

  lemma {:induction false} NameEnds(before: string, name: string, rest: string, k: nat)
    requires k <= |name| && EndsName(rest)
    requires forall i :: 0 <= i < |name| ==> IsIdentifierChar(name[i])
    ensures IdentifierEnd(before + name + rest, |before| + k) == |before| + |name|
    decreases |name| - k
  {
    var s := before + name + rest;
    if k == |name| {
      if rest != "" {
        IdentifierCharsAre(rest[0]);
        assert s[|before| + k] == rest[0];
      }
    } else {
      assert s[|before| + k] == name[k];
      NameEnds(before, name, rest, k + 1);
    }
  }

  /** A name that can be registered: an identifier, or empty. */
  lemma ValidIdentifierIff(name: string)
    ensures IsValidIdentifier(name) <==> name == "" || IsName(name)
  {
    if forall i :: 0 <= i < |name| ==> name[i] in IDENTIFIER_CHARS {
      AllIdentifierChars(name);
      NameEnds("", name, "", 0);
      assert "" + name + "" == name;
    } else {
      var i :| 0 <= i < |name| && name[i] !in IDENTIFIER_CHARS;
      IdentifierCharsAre(name[i]);
      StopsBefore(name, 0, i);
    }
  }

  lemma {:induction false} StopsBefore(s: string, pos: nat, i: nat)
    requires pos <= i < |s| && !IsIdentifierChar(s[i])
    ensures IdentifierEnd(s, pos) <= i
    decreases i - pos
  {
    if pos < i && IsIdentifierChar(s[pos]) { StopsBefore(s, pos + 1, i); }
  }

  /** The first token and the substitution of what follows it. */
  lemma FrontAndRest(front: string, rest: string, values: Values)
    requires front != "" && TokenEnd(front + rest, 0) == |front|
    ensures Substituted(front + rest, values)
         == RenderedAs(TokenAt(front + rest, 0), values) + Substituted(rest, values)
  {
    var s := front + rest;
    RenderedOfMore(TokenAt(s, 0), Tokens(s, |front|), values);
    assert s[|front|..] == rest[0..];
    TokensOfSuffix(s, |front|, rest, 0);
  }

  lemma PlainFirst(c: char, rest: string, values: Values)
    requires c != '$' && c != '\\'
    ensures Substituted([c] + rest, values) == [c] + Substituted(rest, values)
  {
    FrontAndRest([c], rest, values);
  }

  /** A dollar sign before anything that is no identifier character stands for itself. */
  lemma DollarFirst(rest: string, values: Values)
    requires EndsName(rest)
    ensures Substituted("$" + rest, values) == "$" + Substituted(rest, values)
  {
    if rest != "" {
      IdentifierCharsAre(rest[0]);
      assert ("$" + rest)[1] == rest[0];
    }
    FrontAndRest("$", rest, values);
  }

  /** A backslash keeps the character behind it from being read; both stay until the escapes are removed. */
  lemma EscapeFirst(c: char, rest: string, values: Values)
    ensures Substituted(['\\', c] + rest, values) == ['\\', c] + Substituted(rest, values)
  {
    assert (['\\', c] + rest)[1] == c;
    FrontAndRest(['\\', c], rest, values);
  }

  lemma LastBackslash(values: Values)
    ensures Substituted("\\", values) == "\\" && Substituted("", values) == ""
  {
    FrontAndRest("\\", "", values);
    assert "\\" + "" == "\\";
  }

  lemma NameToken(s: string, name: string)
    requires IsName(name) && "$" + name <= s && IdentifierEnd(s, 1) == |name| + 1
    ensures TokenAt(s, 0) == Variable(name) && TokenEnd(s, 0) == |name| + 1
  {
    AllIdentifierChars(name);
    assert s[0] == '$' && s[1] == name[0] && s[1..|name| + 1] == name;
  }

  /** A name reaches as far as it can, and its value is put in unread; without a variable of the name nothing is. */
  lemma VariableFirst(name: string, rest: string, values: Values)
    requires IsName(name) && EndsName(rest)
    ensures Substituted("$" + name + rest, values)
         == (if name in values then values[name] else "") + Substituted(rest, values)
  {
    AllIdentifierChars(name);
    NameEnds("$", name, rest, 0);
    NameToken("$" + name + rest, name);
    FrontAndRest("$" + name, rest, values);
  }

  // ---- Removing escapes ----

  lemma {:induction false} UnescapedOfSuffix(s: string, pos: nat, s': string, pos': nat)
    requires pos <= |s| && pos' <= |s'| && s[pos..] == s'[pos'..]
    ensures Unescaped(s, pos) == Unescaped(s', pos')
    decreases |s| - pos
  {
    if pos < |s| {
      SameSuffix(s, pos, s', pos', 0);
      SameSuffix(s, pos, s', pos', 1);
      if s[pos] != '\\' {
        UnescapedOfSuffix(s, pos + 1, s', pos' + 1);
      } else if pos + 1 < |s| {
        SameSuffix(s, pos, s', pos', 2);
        UnescapedOfSuffix(s, pos + 2, s', pos' + 2);
      }
    }
  }

  lemma FrontUnescaped(front: string, rest: string)
    ensures Unescaped(front + rest, |front|) == Unescaped(rest, 0)
  {
    assert (front + rest)[|front|..] == rest[0..];
    UnescapedOfSuffix(front + rest, |front|, rest, 0);
  }

  /**
   Everything but a backslash stays, a dollar sign too; a backslash goes, and the backslash or dollar sign behind it
   stays; before anything else it is an error, and at the end it is dropped.
   */
  lemma UnescapingLaws(c: char, rest: string)
    ensures c != '\\' ==> Unescaped([c] + rest, 0) == Prepended([c], Unescaped(rest, 0))
    ensures c == '\\' || c == '$' ==> Unescaped(['\\', c] + rest, 0) == Prepended([c], Unescaped(rest, 0))
    ensures c != '\\' && c != '$' ==> Unescaped(['\\', c] + rest, 0) == Err(c)
    ensures Unescaped("\\", 0) == Ok("") && Unescaped("", 0) == Ok("")
  {
    FrontUnescaped([c], rest);
    FrontUnescaped(['\\', c], rest);
    assert (['\\', c] + rest)[1] == c;
  }

  /** One variable in a text that is plain otherwise. */
  lemma {:induction false} OneVariable(a: string, name: string, b: string, values: Values)
    requires IsName(name) && EndsName(b)
    requires forall i :: 0 <= i < |a| ==> a[i] != '$' && a[i] != '\\'
    ensures Substituted(a + ("$" + name + b), values)
         == a + ((if name in values then values[name] else "") + Substituted(b, values))
    decreases |a|
  {
    if a == "" {
      VariableFirst(name, b, values);
      assert a + ("$" + name + b) == "$" + name + b;
    } else {
      OneVariable(a[1..], name, b, values);
      PlainFirst(a[0], a[1..] + ("$" + name + b), values);
      Regroup([a[0]], a[1..], "$" + name + b);
      Regroup([a[0]], a[1..], (if name in values then values[name] else "") + Substituted(b, values));
      assert [a[0]] + a[1..] == a;
    }
  }

  lemma Regroup(a: string, b: string, c: string)
    ensures a + (b + c) == (a + b) + c
  {
  }
}
