/**
  `humanizeNumber`: the text of a number with a separator between groups of
  three digits of its integer part. The separator is put wherever the pattern
  `\B(?=(\d{3})+(?!\d))` matches: not at a word boundary, and followed by a run
  of digits whose length is a positive multiple of three.
*/
module NumberFormat {
  import opened Text

  /** The separator is "," or ".". */
  type Separator = c: char | c == ',' || c == '.' witness ','

  /** The separator used when none is given. */
  const DefaultSeparator: Separator := ','

  /** A character `\w` matches. */
  predicate IsWordChar(c: char) {
    'a' <= c <= 'z' || 'A' <= c <= 'Z' || IsDigit(c) || c == '_'
  }

  /** The length of the run of digits starting at `i`. */
  function DigitRun(s: string, i: nat): nat
    requires i <= |s|
    decreases |s| - i
  {
    if i < |s| && IsDigit(s[i]) then 1 + DigitRun(s, i + 1) else 0
  }

  /** The pattern matches at position `i` of `s` (before `s[i]`): the characters on
      both sides are word characters (so no boundary; the lookahead needs a digit at
      `i`, and a position at either end has a non-word side) and the digits from `i`
      come in whole groups of three. */
  predicate SeparatorAt(s: string, i: nat)
    requires i < |s|
  {
    0 < i && IsWordChar(s[i - 1]) && IsWordChar(s[i]) &&
    DigitRun(s, i) > 0 && DigitRun(s, i) % 3 == 0
  }

  /** The first `n` characters of `s` with the separator put before each position
      where the pattern matches. */
  function Grouped(s: string, sep: char, n: nat): string
    requires n <= |s|
  {
    if n == 0 then []
    else Grouped(s, sep, n - 1) + (if SeparatorAt(s, n - 1) then [sep] else []) + [s[n - 1]]
  }

  /** `integerPart.replace(/\B(?=(\d{3})+(?!\d))/g, separator)` */
  function GroupIntegerPart(s: string, sep: Separator): string {
    Grouped(s, sep, |s|)
  }

  /** `humanizeNumber` given `num.toString()`: the integer part before the first "."
      is grouped, and a non-empty part after it is put back after a ".". */
  function Humanize(numText: string, sep: Separator): (r: string)
    ensures '.' !in numText ==> r == GroupIntegerPart(numText, sep)
  {
    var pieces := Split(numText, '.');
    assert '.' !in numText ==> pieces == [numText] by {
      if '.' !in numText {
        SplitWithoutSeparator(numText, '.');
      }
    }
    var formatted := GroupIntegerPart(pieces[0], sep);
    if |pieces| > 1 && pieces[1] != [] then formatted + "." + pieces[1] else formatted
  }

  /** `humanizeNumber` on an integer. */
  function HumanizeInt(n: int, sep: Separator): string {
    Humanize(IntToString(n), sep)
  }

  // ------------------------------------------------------------ reference

  /** Digit grouping as usually defined: a group of three from the right, then the
      rest grouped the same way. */
  function GroupDigits(ds: string, sep: char): string
    requires AllDigits(ds)
  {
    if |ds| <= 3 then ds else GroupDigits(ds[..|ds| - 3], sep) + [sep] + ds[|ds| - 3..]
  }

  /** `s` without any occurrence of `c`. */
  function Without(s: string, c: char): string
  {
    if s == [] then [] else (if s[0] == c then [] else [s[0]]) + Without(s[1..], c)
  }

  lemma {:induction false} WithoutAbsent(s: string, c: char)
    requires forall i :: 0 <= i < |s| ==> s[i] != c
    ensures Without(s, c) == s
  {
    if s != [] {
      WithoutAbsent(s[1..], c);
    }
  }

  lemma {:induction false} WithoutAppend(a: string, b: string, c: char)
    ensures Without(a + b, c) == Without(a, c) + Without(b, c)
  {
    if a != [] {
      assert (a + b)[1..] == a[1..] + b;
      WithoutAppend(a[1..], b, c);
    } else {
      assert a + b == b;
    }
  }

  // ------------------------------------------------- the pattern on digits

  /** Where no separator goes before `n`, the grouped prefix is the plain prefix. */
  lemma {:induction false} GroupedPlain(s: string, sep: char, n: nat)
    requires n <= |s|
    requires forall j :: 0 <= j < n ==> !SeparatorAt(s, j)
    ensures Grouped(s, sep, n) == s[..n]
  {
    if n > 0 {
      GroupedPlain(s, sep, n - 1);
      assert s[..n] == s[..n - 1] + [s[n - 1]];
    }
  }

  /** Where only digits follow `i`, the run from `i` reaches the end. */
  lemma {:induction false} DigitRunOfDigits(ds: string, i: nat)
    requires i <= |ds| && forall j :: i <= j < |ds| ==> IsDigit(ds[j])
    ensures DigitRun(ds, i) == |ds| - i
    decreases |ds| - i
  {
    if i < |ds| {
      DigitRunOfDigits(ds, i + 1);
    }
  }

  /** In a string of digits the pattern matches after the first digit wherever a
      multiple of three digits follows. */
  lemma SeparatorAtDigits(ds: string, i: nat)
    requires AllDigits(ds) && i < |ds|
    ensures SeparatorAt(ds, i) <==> 0 < i && (|ds| - i) % 3 == 0
  {
    DigitRunOfDigits(ds, i);
    assert IsDigit(ds[i]);
    assert i > 0 ==> IsDigit(ds[i - 1]);
  }

  /** Two strings that agree on their first `n` characters and on where the pattern
      matches among them are grouped alike up to `n`. */
  lemma {:induction false} GroupedAgree(s: string, t: string, sep: char, n: nat)
    requires n <= |s| && n <= |t|
    requires forall i :: 0 <= i < n ==> s[i] == t[i] && SeparatorAt(s, i) == SeparatorAt(t, i)
    ensures Grouped(s, sep, n) == Grouped(t, sep, n)
  {
    if n > 0 {
      GroupedAgree(s, t, sep, n - 1);
    }
  }

  /** Dropping the last group of three digits does not move the separators before it. */
  lemma GroupedDropGroup(ds: string, sep: char)
    requires AllDigits(ds) && 3 <= |ds|
    ensures Grouped(ds, sep, |ds| - 3) == Grouped(ds[..|ds| - 3], sep, |ds| - 3)
  {
    var front := ds[..|ds| - 3];
    assert AllDigits(front);
    forall i | 0 <= i < |front| ensures ds[i] == front[i] && SeparatorAt(ds, i) == SeparatorAt(front, i) {
      SeparatorAtDigits(ds, i);
      SeparatorAtDigits(front, i);
    }
    GroupedAgree(ds, front, sep, |front|);
  }

  /** On a string of digits the pattern groups exactly as `GroupDigits` does. */
  lemma {:induction false} GroupedDigits(ds: string, sep: char)
    requires AllDigits(ds)
    ensures Grouped(ds, sep, |ds|) == GroupDigits(ds, sep)
    decreases |ds|
  {
    if |ds| <= 3 {
      forall j | 0 <= j < |ds| ensures !SeparatorAt(ds, j) {
        DigitRunOfDigits(ds, j);
      }
      GroupedPlain(ds, sep, |ds|);
      assert ds[..|ds|] == ds;
    } else {
      var m := |ds| - 3;
      GroupedDropGroup(ds, sep);
      GroupedDigits(ds[..m], sep);
      LastGroupSeparators(ds);
      GroupedThree(ds, sep, m);
    }
  }

  /** In a digit string longer than three, the pattern matches three digits from
      the end and not after that. */
  lemma LastGroupSeparators(ds: string)
    requires AllDigits(ds) && |ds| > 3
    ensures SeparatorAt(ds, |ds| - 3) && !SeparatorAt(ds, |ds| - 2) && !SeparatorAt(ds, |ds| - 1)
  {
    var m := |ds| - 3;
    DigitRunOfDigits(ds, m);
    DigitRunOfDigits(ds, m + 1);
    DigitRunOfDigits(ds, m + 2);
    assert IsDigit(ds[m - 1]) && IsDigit(ds[m]);
  }

  /** Where the pattern matches three characters from the end and not after, the
      last three come after a separator. */
  lemma GroupedThree(s: string, sep: char, m: nat)
    requires m + 3 == |s|
    requires SeparatorAt(s, m) && !SeparatorAt(s, m + 1) && !SeparatorAt(s, m + 2)
    ensures Grouped(s, sep, |s|) == Grouped(s, sep, m) + [sep] + s[m..]
  {
    var g1 := Grouped(s, sep, m + 1);
    assert g1 == Grouped(s, sep, m) + [sep] + [s[m]];
    var g2 := Grouped(s, sep, m + 2);
    assert g2 == g1 + [s[m + 1]];
    assert Grouped(s, sep, m + 3) == g2 + [s[m + 2]];
    assert s[m..] == [s[m], s[m + 1], s[m + 2]];
  }

  /** A leading minus sign is a word boundary: nothing goes between it and the digits. */
  lemma {:induction false} GroupedAfterMinus(ds: string, sep: char, n: nat)
    requires AllDigits(ds) && n <= |ds|
    ensures Grouped("-" + ds, sep, n + 1) == "-" + Grouped(ds, sep, n)
  {
    var s := "-" + ds;
    if n > 0 {
      GroupedAfterMinus(ds, sep, n - 1);
      assert s[n..] == ds[n - 1..];
      assert s[n] == ds[n - 1];
      assert n > 1 ==> s[n - 1] == ds[n - 2];
      DigitRunOfDigits(s, n);
      DigitRunOfDigits(ds, n - 1);
      assert SeparatorAt(s, n) == SeparatorAt(ds, n - 1);
    }
  }

  // ------------------------------------------------------------ properties

  lemma {:induction false} SplitWithoutSeparator(s: string, c: char)
    requires c !in s
    ensures Split(s, c) == [s]
  {
    if s != [] {
      SplitWithoutSeparator(s[1..], c);
      assert [s[0]] + s[1..] == s;
    }
  }

  lemma {:induction false} SplitAppend(x: string, c: char, y: string)
    requires c !in y
    ensures Split(x + [c] + y, c) == Split(x, c) + [y]
  {
    if x == [] {
      assert x + [c] + y == [c] + y;
      assert ([c] + y)[1..] == y;
      SplitWithoutSeparator(y, c);
    } else {
      assert (x + [c] + y)[1..] == x[1..] + [c] + y;
      SplitAppend(x[1..], c, y);
    }
  }

  lemma DigitsLackSeparators(ds: string)
    requires AllDigits(ds)
    ensures '.' !in ds && ',' !in ds
  {
    assert forall i :: 0 <= i < |ds| ==> ds[i] != '.' && ds[i] != ',';
  }

  /** An integer is grouped as its digits are, after any minus sign. */
  lemma HumanizeIntGroupsDigits(n: int, sep: Separator)
    ensures n >= 0 ==> HumanizeInt(n, sep) == GroupDigits(NatToString(n), sep)
    ensures n < 0 ==> HumanizeInt(n, sep) == "-" + GroupDigits(NatToString(-n), sep)
  {
    var text := IntToString(n);
    var ds := NatToString(if n < 0 then -n else n);
    DigitsLackSeparators(ds);
    assert '.' !in text;
    SplitWithoutSeparator(text, '.');
    GroupedDigits(ds, sep);
    if n < 0 {
      GroupedAfterMinus(ds, sep, |ds|);
    }
  }

  lemma {:induction false} WithoutGroupDigits(ds: string, sep: Separator)
    requires AllDigits(ds)
    ensures Without(GroupDigits(ds, sep), sep) == ds
    decreases |ds|
  {
    if |ds| <= 3 {
      WithoutAbsent(ds, sep);
    } else {
      var m := |ds| - 3;
      var g := GroupDigits(ds[..m], sep);
      var tail := ds[m..];
      assert AllDigits(tail);
      WithoutGroupDigits(ds[..m], sep);
      WithoutAppend(g + [sep], tail, sep);
      WithoutAppend(g, [sep], sep);
      WithoutAbsent(tail, sep);
      assert Without([sep], sep) == [];
      assert ds[..m] + tail == ds;
    }
  }

  /** Deleting every separator from a humanized integer gives back its plain text. */
  lemma HumanizeIntRoundTrip(n: int, sep: Separator)
    ensures Without(HumanizeInt(n, sep), sep) == IntToString(n)
  {
    HumanizeIntGroupsDigits(n, sep);
    var ds := NatToString(if n < 0 then -n else n);
    WithoutGroupDigits(ds, sep);
    if n < 0 {
      WithoutAppend("-", GroupDigits(ds, sep), sep);
    }
  }

  lemma NatToStringShort(m: nat)
    requires m < 1000
    ensures |NatToString(m)| <= 3
  {
    if m >= 10 {
      assert NatToString(m) == NatToString(m / 10) + [DigitChar(m % 10)];
      if m >= 100 {
        assert NatToString(m / 10) == NatToString(m / 100) + [DigitChar(m / 10 % 10)];
      }
    }
  }

  /** An integer with at most three digits comes back unchanged. */
  lemma ShortIntUnchanged(n: int, sep: Separator)
    requires -1000 < n < 1000
    ensures HumanizeInt(n, sep) == IntToString(n)
  {
    HumanizeIntGroupsDigits(n, sep);
    NatToStringShort(if n < 0 then -n else n);
  }

  /** Groups as `humanizeNumber` leaves them: a leading group of one to three digits,
      then groups of exactly three. */
  predicate WellGrouped(pieces: seq<string>) {
    |pieces| >= 1 && 1 <= |pieces[0]| <= 3 && AllDigits(pieces[0]) &&
    forall k :: 1 <= k < |pieces| ==> |pieces[k]| == 3 && AllDigits(pieces[k])
  }

  lemma WellGroupedExtend(pieces: seq<string>, group: string)
    requires WellGrouped(pieces) && |group| == 3 && AllDigits(group)
    ensures WellGrouped(pieces + [group])
  {
    var p' := pieces + [group];
    assert p'[0] == pieces[0];
    forall k | 1 <= k < |p'| ensures |p'[k]| == 3 && AllDigits(p'[k]) {
      if k < |pieces| {
        assert p'[k] == pieces[k];
      }
    }
  }

  /** Splitting the grouped digits at the separators gives well-formed groups. */
  lemma {:induction false} GroupDigitsPieces(ds: string, sep: Separator)
    requires AllDigits(ds) && ds != []
    ensures WellGrouped(Split(GroupDigits(ds, sep), sep))
    decreases |ds|
  {
    if |ds| <= 3 {
      DigitsLackSeparators(ds);
      SplitWithoutSeparator(ds, sep);
    } else {
      var m := |ds| - 3;
      var tail := ds[m..];
      assert AllDigits(tail);
      DigitsLackSeparators(tail);
      GroupDigitsPieces(ds[..m], sep);
      SplitAppend(GroupDigits(ds[..m], sep), sep, tail);
      WellGroupedExtend(Split(GroupDigits(ds[..m], sep), sep), tail);
    }
  }

  /** No separator follows the minus sign of a negative number. */
  lemma NoSeparatorAfterMinus(n: int, sep: Separator)
    requires n < 0
    ensures var r := HumanizeInt(n, sep); |r| >= 2 && r[0] == '-' && r[1] != sep
  {
    HumanizeIntGroupsDigits(n, sep);
    var ds := NatToString(-n);
    DigitsLackSeparators(ds);
    var g := GroupDigits(ds, sep);
    if |ds| <= 3 {
      assert g[0] == ds[0];
    } else {
      GroupDigitsStartsWithDigit(ds, sep);
    }
  }

  lemma {:induction false} GroupDigitsStartsWithDigit(ds: string, sep: Separator)
    requires AllDigits(ds) && ds != []
    ensures GroupDigits(ds, sep) != [] && IsDigit(GroupDigits(ds, sep)[0])
    decreases |ds|
  {
    if |ds| > 3 {
      GroupDigitsStartsWithDigit(ds[..|ds| - 3], sep);
    }
  }

  /** A decimal part is put back unchanged after a "." once the integer part is grouped. */
  lemma DecimalPartKept(integerPart: string, decimalPart: string, sep: Separator)
    requires '.' !in integerPart && '.' !in decimalPart && decimalPart != []
    ensures Humanize(integerPart + "." + decimalPart, sep)
            == GroupIntegerPart(integerPart, sep) + "." + decimalPart
  {
    SplitAppend(integerPart, '.', decimalPart);
    SplitWithoutSeparator(integerPart, '.');
  }
}
