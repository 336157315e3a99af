/** The CPF (Brazilian national identifier) mask of the search box: `formatCPF` keeps the digits
    of what was typed, at most eleven of them, and lays them out as `ddd.ddd.ddd-dd`. */
module Cpf {
  import opened Seqs

  /** A character `/\D/` does not match: one of the ASCII digits. */
  predicate IsDigit(c: char) {
    '0' <= c <= '9'
  }

  predicate AllDigits(s: string) {
    forall i :: 0 <= i < |s| ==> IsDigit(s[i])
  }

  /** `value.replace(/\D/g, '')`: the digits of `value`, in order. */
  function Digits(value: string): (d: string)
    ensures AllDigits(d)
    ensures |d| <= |value|
    ensures forall c :: c in d <==> c in value && IsDigit(c)
  {
    var d := Filter(value, IsDigit);
    assert forall i :: 0 <= i < |d| ==> d[i] in d;
    d
  }

  function Min(a: int, b: int): int {
    if a <= b then a else b
  }

  /** `formatCPF`: the digits typed, laid out by the mask. */
  function FormatCpf(value: string): (r: string)
    ensures forall i :: 0 <= i < |r| ==> IsDigit(r[i]) || r[i] == '.' || r[i] == '-'
  {
    Mask(Digits(value))
  }

  /** The layout `formatCPF` gives a string of digits: its first three digits as they are, and
      otherwise nothing but characters of `d` and the two separators. */
  function Mask(d: string): (r: string)
    ensures Min(3, |d|) <= |r| && r[..Min(3, |d|)] == d[..Min(3, |d|)]
    ensures forall i :: 0 <= i < |r| ==> r[i] in d || r[i] == '.' || r[i] == '-'
  {
    if |d| <= 3 then d
    else if |d| <= 6 then d[..3] + "." + d[3..]
    else if |d| <= 9 then d[..3] + "." + d[3..6] + "." + d[6..]
    else d[..3] + "." + d[3..6] + "." + d[6..9] + "-" + d[9..Min(11, |d|)]
  }

  /** The positions the mask puts a separator at, for a key of `n` digits. */
  function SeparatorPositions(n: nat): set<nat> {
    if n <= 3 then {}
    else if n <= 6 then {3}
    else if n <= 9 then {3, 7}
    else {3, 7, 11}
  }

  lemma DigitsAppend(a: string, b: string)
    ensures Digits(a + b) == Digits(a) + Digits(b)
  {
    FilterAppend(a, b, IsDigit);
  }

  lemma DigitsOfDigits(d: string)
    requires AllDigits(d)
    ensures Digits(d) == d
  {
    FilterKeepsAll(d, IsDigit);
  }

  /** Joining with a separator adds no digit. */
  lemma DigitsJoin(a: string, c: char, b: string)
    requires !IsDigit(c) && AllDigits(b)
    ensures Digits(a + [c] + b) == Digits(a) + b
  {
    DigitsAppend(a + [c], b);
    DigitsAppend(a, [c]);
    DigitsOfDigits(b);
  }

  lemma MaskDigitsShort(d: string)
    requires AllDigits(d) && |d| <= 3
    ensures Digits(Mask(d)) == d
  {
    DigitsOfDigits(d);
  }

  lemma MaskDigitsOneDot(d: string)
    requires AllDigits(d) && 3 < |d| <= 6
    ensures Digits(Mask(d)) == d
  {
    DigitsOfDigits(d[..3]);
    DigitsJoin(d[..3], '.', d[3..]);
    assert d[..3] + d[3..] == d;
  }

  lemma MaskDigitsTwoDots(d: string)
    requires AllDigits(d) && 6 < |d| <= 9
    ensures Digits(Mask(d)) == d
  {
    DigitsOfDigits(d[..3]);
    DigitsJoin(d[..3], '.', d[3..6]);
    DigitsJoin(d[..3] + "." + d[3..6], '.', d[6..]);
    assert d[..3] + d[3..6] + d[6..] == d;
  }

  lemma MaskDigitsFull(d: string)
    requires AllDigits(d) && 9 < |d|
    ensures Digits(Mask(d)) == d[..Min(11, |d|)]
  {
    DigitsOfSlices(d, Min(11, |d|));
  }

  lemma DigitsOfSlices(d: string, m: nat)
    requires AllDigits(d) && 9 < m <= |d|
    ensures Digits(d[..3] + "." + d[3..6] + "." + d[6..9] + "-" + d[9..m]) == d[..m]
  {
    AllDigitsSlice(d, 0, 3);
    AllDigitsSlice(d, 3, 6);
    AllDigitsSlice(d, 6, 9);
    AllDigitsSlice(d, 9, m);
    DigitsOfParts(d[..3], d[3..6], d[6..9], d[9..m]);
    assert d[..3] + d[3..6] + d[6..9] + d[9..m] == d[..m];
  }

  /** The separators of a full mask add no digit. */
  lemma DigitsOfParts(a: string, b: string, c: string, e: string)
    requires AllDigits(a) && AllDigits(b) && AllDigits(c) && AllDigits(e)
    ensures Digits(a + "." + b + "." + c + "-" + e) == a + b + c + e
  {
    DigitsOfDigits(a);
    DigitsJoin(a, '.', b);
    DigitsJoin(a + "." + b, '.', c);
    DigitsJoin(a + "." + b + "." + c, '-', e);
  }

  lemma AllDigitsSlice(d: string, i: nat, j: nat)
    requires AllDigits(d) && i <= j <= |d|
    ensures AllDigits(d[i..j])
  {
  }

  /** The digits of the formatted key are the first (at most eleven) digits typed: every other
      character typed is dropped, and the mask adds no digit of its own. */
  lemma FormatCpfDigits(value: string)
    ensures Digits(FormatCpf(value)) == Digits(value)[..Min(11, |Digits(value)|)]
  {
    var d := Digits(value);
    if |d| <= 3 {
      MaskDigitsShort(d);
    } else if |d| <= 6 {
      MaskDigitsOneDot(d);
    } else if |d| <= 9 {
      MaskDigitsTwoDots(d);
    } else {
      MaskDigitsFull(d);
    }
  }

  /** The shape of the mask: how long it is and where its separators stand depends only on how
      many digits were typed — none up to 3, one `.` after 3 up to 6, `.` after 3 and 6 up to 9,
      and `ddd.ddd.ddd-d[d]` from 10 on. Every other position holds a digit. */
  lemma FormatCpfShape(value: string)
    ensures var n := |Digits(value)|; var f := FormatCpf(value);
      && |f| == (if n <= 3 then n else if n <= 6 then n + 1 else if n <= 9 then n + 2 else Min(11, n) + 3)
      && (forall i :: 0 <= i < |f| ==> (!IsDigit(f[i]) <==> i in SeparatorPositions(n)))
      && (n > 3 ==> f[3] == '.')
      && (n > 6 ==> f[7] == '.')
      && (n > 9 ==> f[11] == '-')
  {
  }

  /** The mask never produces more than 14 characters, so the length check of the change
      handler always lets the formatted value through. */
  lemma FormatCpfAtMost14(value: string)
    ensures |FormatCpf(value)| <= 14
  {
    FormatCpfShape(value);
  }

  /** A formatted key is at least 11 characters long exactly when it holds at least 9 digits. */
  lemma FormatCpfLongEnough(value: string)
    ensures |FormatCpf(value)| >= 11 <==> |Digits(value)| >= 9
  {
    FormatCpfShape(value);
  }

  /** The mask depends on the typed text only through its digits. */
  lemma FormatCpfSameDigits(a: string, b: string)
    requires Digits(a)[..Min(11, |Digits(a)|)] == Digits(b)[..Min(11, |Digits(b)|)]
    ensures FormatCpf(a) == FormatCpf(b)
  {
    var da, db := Digits(a), Digits(b);
    assert Min(11, |da|) == Min(11, |db|) by {
      assert |da[..Min(11, |da|)]| == |db[..Min(11, |db|)]|;
    }
    var m := Min(11, |da|);
    if |da| <= 9 || |db| <= 9 {
      assert da == da[..m] && db == db[..m];
    } else {
      assert da[..3] == da[..m][..3] && db[..3] == db[..m][..3];
      assert da[3..6] == da[..m][3..6] && db[3..6] == db[..m][3..6];
      assert da[6..9] == da[..m][6..9] && db[6..9] == db[..m][6..9];
      assert da[9..m] == da[..m][9..m] && db[9..m] == db[..m][9..m];
    }
  }

  /** Formatting an already formatted key changes nothing. */
  lemma FormatCpfIdempotent(value: string)
    ensures FormatCpf(FormatCpf(value)) == FormatCpf(value)
  {
    var f := FormatCpf(value);
    FormatCpfDigits(value);
    var d := Digits(value);
    var m := Min(11, |d|);
    assert Digits(f) == d[..m];
    assert Digits(f)[..Min(11, |Digits(f)|)] == d[..m];
    assert d[..m][..m] == d[..m];
    FormatCpfSameDigits(f, value);
  }

  /** Eleven typed digits are all digits. */
  lemma ElevenDigitsAreDigits()
    ensures AllDigits("12345678909")
  {
  }

  /** The mask puts the separators of a full CPF into eleven digits. */
  lemma MaskElevenDigits()
    ensures Mask("12345678909") == "123.456.789-09"
  {
    var d := "12345678909";
    assert d[..3] == "123" && d[3..6] == "456" && d[6..9] == "789" && d[9..11] == "09";
  }

  /** Typing eleven digits shows them as a full, punctuated CPF. */
  lemma ElevenDigitMask()
    ensures FormatCpf("12345678909") == "123.456.789-09"
  {
    ElevenDigitsAreDigits();
    DigitsOfDigits("12345678909");
    MaskElevenDigits();
  }

  /** The digits of the full CPF typed as eleven digits are those digits. */
  lemma ElevenDigitDigits(f: string)
    requires f == FormatCpf("12345678909")
    ensures Digits(f) == "12345678909"
  {
    ElevenDigitsAreDigits();
    DigitsOfDigits("12345678909");
    FormatCpfDigits("12345678909");
  }
}
