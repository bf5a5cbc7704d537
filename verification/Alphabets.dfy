/** The sets of characters the text engines tell apart, spelled out. */
module Alphabets {
  import opened Strings

  const CAPITALS := "ABCDEFGHIJKLM" + "NOPQRSTUVWXYZ"
  const SMALLS := "abcdefghijklm" + "nopqrstuvwxyz"
  const DIGITS := "0123456789"

  /** n characters in a row. */
  function Row(first: char, n: nat): (row: string)
    requires first as int + n <= 128
    ensures |row| == n
  {
    if n == 0 then "" else Row(first, n - 1) + [(first as int + (n - 1)) as char]
  }

  lemma {:induction false} InRow(first: char, n: nat, c: char)
    requires first as int + n <= 128
    ensures c in Row(first, n) <==> first as int <= c as int < first as int + n
  {
    if n > 0 { InRow(first, n - 1, c); }
  }

  lemma {:induction false} RowAt(first: char, n: nat, i: nat)
    requires first as int + n <= 128 && i < n
    ensures Row(first, n)[i] as int == first as int + i
  {
    if i < n - 1 { RowAt(first, n - 1, i); }
  }

  lemma {:induction false} RowInTwo(first: char, n: nat, m: nat)
    requires first as int + n + m <= 128
    ensures Row(first, n + m) == Row(first, n) + Row((first as int + n) as char, m)
  {
    if m > 0 { RowInTwo(first, n, m - 1); }
  }

  lemma HalfCapitals()
    ensures Row('A', 13) == "ABCDEFGHIJKLM"
    ensures Row('N', 13) == "NOPQRSTUVWXYZ"
  {
  }

  lemma HalfSmalls()
    ensures Row('a', 13) == "abcdefghijklm"
    ensures Row('n', 13) == "nopqrstuvwxyz"
  {
  }

  lemma CapitalsAre()
    ensures CAPITALS == Row('A', 26)
  {
    RowInTwo('A', 13, 13);
    HalfCapitals();
  }

  lemma SmallsAre()
    ensures SMALLS == Row('a', 26)
  {
    RowInTwo('a', 13, 13);
    HalfSmalls();
  }

  lemma LettersAndDigits(c: char)
    ensures c in CAPITALS <==> 'A' <= c <= 'Z'
    ensures c in SMALLS <==> 'a' <= c <= 'z'
    ensures c in DIGITS <==> IsDigit(c)
  {
    CapitalsAre();
    SmallsAre();
    InRow('A', 26, c);
    InRow('a', 26, c);
  }

  /** toupper takes each small letter to the capital at the same place, and nothing else anywhere. */
  lemma UpperOfLetters(c: char)
    ensures forall i :: 0 <= i < 26 && SMALLS[i] == c ==> UpperChar(c) == CAPITALS[i]
    ensures c !in SMALLS ==> UpperChar(c) == c
  {
    CapitalsAre();
    SmallsAre();
    UpperInRows(CAPITALS, SMALLS, c);
  }

  lemma UpperInRows(capitals: string, smalls: string, c: char)
    requires capitals == Row('A', 26) && smalls == Row('a', 26)
    ensures forall i :: 0 <= i < 26 && smalls[i] == c ==> UpperChar(c) == capitals[i]
    ensures c !in smalls ==> UpperChar(c) == c
  {
    InRow('a', 26, c);
    forall i | 0 <= i < 26 && smalls[i] == c ensures UpperChar(c) == capitals[i] {
      UpperAt(i);
    }
  }

  lemma UpperAt(i: nat)
    requires i < 26
    ensures UpperChar(Row('a', 26)[i]) == Row('A', 26)[i]
  {
    RowAt('A', 26, i);
    RowAt('a', 26, i);
  }

  /** default_ws, and the white space of the C locale, which also has the vertical tab and the form feed. */
  lemma BlanksAndSpaces(c: char)
    ensures IsBlank(c) <==> c in " \t\r\n"
    ensures IsSpace(c) <==> c in " \t\r\n" || c in [11 as char, 12 as char]
  {
  }
}
