/** The string operations the modelled scripts use: decimal numbers, split, join and strip. */
module Text {
  import opened Arithmetic
  import opened Results
  import opened Sequences

  // ---------------------------------------------------------------- decimal numbers

  predicate IsDigit(c: char) {
    '0' <= c <= '9'
  }

  predicate AllDigits(s: string) {
    forall i :: 0 <= i < |s| ==> IsDigit(s[i])
  }

  function DigitChar(d: nat): (c: char)
    requires d < 10
    ensures IsDigit(c) && DigitValue(c) == d
  {
    "0123456789"[d]
  }

  function DigitValue(c: char): (d: nat)
    requires IsDigit(c)
    ensures d < 10
  {
    (c as int) - ('0' as int)
  }

  /** `str(n)` for a natural number. */
  function Decimal(n: nat): (s: string)
    ensures s != [] && AllDigits(s)
  {
    if n < 10 then [DigitChar(n)] else Decimal(n / 10) + [DigitChar(n % 10)]
  }

  function Value(s: string): nat
    requires AllDigits(s)
  {
    if s == [] then 0 else 10 * Value(s[..|s| - 1]) + DigitValue(s[|s| - 1])
  }

  /** `int(s)` for a string of digits; any other string is an error. */
  function ParseNat(s: string): Option<nat> {
    if s != [] && AllDigits(s) then Some(Value(s)) else None
  }

  lemma {:induction false} ValueOfDecimal(n: nat)
    ensures Value(Decimal(n)) == n
  {
    if n < 10 {
      assert [DigitChar(n)][..0] == [];
    } else {
      ValueOfDecimal(n / 10);
      assert Decimal(n)[..|Decimal(n)| - 1] == Decimal(n / 10);
    }
  }

  /** Printing and parsing a number are inverse, so different numbers print differently. */
  lemma {:induction false} ParseOfDecimal(n: nat)
    ensures ParseNat(Decimal(n)) == Some(n)
  {
    ValueOfDecimal(n);
  }

  /** `str(i).zfill(n)`. */
  function Zfill(i: nat, n: nat): string {
    Zeros(n - |Decimal(i)|) + Decimal(i)
  }

  function Zeros(k: int): (s: string)
    ensures |s| == (if k < 0 then 0 else k) && AllDigits(s)
  {
    if k <= 0 then "" else Zeros(k - 1) + "0"
  }

  lemma {:induction false} ValueAppend(s: string, c: char)
    requires AllDigits(s) && IsDigit(c)
    ensures AllDigits(s + [c]) && Value(s + [c]) == 10 * Value(s) + DigitValue(c)
  {
    assert (s + [c])[..|s|] == s;
  }

  lemma {:induction false} ValueOfOneMore(s: string)
    requires AllDigits(s) && Value(s) == 0
    ensures AllDigits(s + "0") && Value(s + "0") == 0
  {
    ValueAppend(s, '0');
  }

  lemma {:induction false} ValueOfZeros(k: int)
    ensures Value(Zeros(k)) == 0
  {
    if k <= 0 {
      assert Zeros(k) == "";
    } else {
      ValueOfZeros(k - 1);
      ValueOfOneMore(Zeros(k - 1));
    }
  }

  lemma {:induction false} ValueOfPadded(k: int, s: string)
    requires AllDigits(s)
    ensures AllDigits(Zeros(k) + s) && Value(Zeros(k) + s) == Value(s)
  {
    if s == [] {
      ValueOfZeros(k);
      assert Zeros(k) + s == Zeros(k);
    } else {
      var n := |s| - 1;
      ValueOfPadded(k, s[..n]);
      ValueAppend(Zeros(k) + s[..n], s[n]);
      assert Zeros(k) + s == Zeros(k) + s[..n] + [s[n]];
    }
  }

  lemma {:induction false} ZfillValue(i: nat, n: nat)
    ensures ParseNat(Zfill(i, n)) == Some(i)
  {
    ValueOfPadded(n - |Decimal(i)|, Decimal(i));
    ValueOfDecimal(i);
  }

  lemma {:induction false} ZfillInjective(i: nat, j: nat, n: nat)
    requires Zfill(i, n) == Zfill(j, n)
    ensures i == j
  {
    ZfillValue(i, n);
    ZfillValue(j, n);
  }

  lemma {:induction false} DecimalLength(i: nat, j: nat)
    requires i <= j
    ensures |Decimal(i)| <= |Decimal(j)|
  {
    if i >= 10 {
      DivMonotone(i, j, 10);
      DecimalLength(i / 10, j / 10);
    }
  }

  // ---------------------------------------------------------------- split and join

  /** `s.split(c)`. */
  function Split(s: string, c: char): (parts: seq<string>)
    ensures parts != []
  {
    if s == [] then [[]]
    else
      var rest := Split(s[1..], c);
      if s[0] == c then [[]] + rest else [[s[0]] + rest[0]] + rest[1..]
  }

  /** `c.join(parts)`. */
  function Join(parts: seq<string>, c: char): string {
    if parts == [] then []
    else if |parts| == 1 then parts[0]
    else parts[0] + [c] + Join(parts[1..], c)
  }

  lemma {:induction false} SplitWhole(s: string, c: char)
    requires c !in s
    ensures Split(s, c) == [s]
  {
    if s != [] {
      SplitWhole(s[1..], c);
      assert s == [s[0]] + s[1..];
    }
  }

  lemma {:induction false} SplitFirst(a: string, c: char, rest: string)
    requires c !in a
    ensures Split(a + [c] + rest, c) == [a] + Split(rest, c)
  {
    var s := a + [c] + rest;
    if a == [] {
      assert s[0] == c && s[1..] == rest;
    } else {
      assert s[0] == a[0] && s[1..] == a[1..] + [c] + rest;
      SplitFirst(a[1..], c, rest);
      assert a == [a[0]] + a[1..];
    }
  }

  /** Splitting undoes joining when no part contains the separator. */
  lemma {:induction false} SplitOfJoin(parts: seq<string>, c: char)
    requires parts != [] && forall i :: 0 <= i < |parts| ==> c !in parts[i]
    ensures Split(Join(parts, c), c) == parts
  {
    if |parts| == 1 {
      SplitWhole(parts[0], c);
    } else {
      SplitOfJoin(parts[1..], c);
      SplitFirst(parts[0], c, Join(parts[1..], c));
    }
  }

  // ---------------------------------------------------------------- strip

  /** The ASCII white space that `str.strip` removes. */
  predicate IsSpace(c: char) {
    9 <= c as int <= 13 || 28 <= c as int <= 32
  }

  function StripLeft(s: string): string {
    if s != [] && IsSpace(s[0]) then StripLeft(s[1..]) else s
  }

  function StripRight(s: string): string {
    if s != [] && IsSpace(s[|s| - 1]) then StripRight(s[..|s| - 1]) else s
  }

  /** `s.strip()`. */
  function Strip(s: string): string {
    StripRight(StripLeft(s))
  }

  /** Nothing is stripped from a string that starts and ends with something else. */
  lemma {:induction false} StripNothing(s: string)
    requires s == [] || (!IsSpace(s[0]) && !IsSpace(s[|s| - 1]))
    ensures Strip(s) == s
  {
  }

  /** A final newline, and only it, is stripped. */
  lemma {:induction false} StripNewline(s: string)
    requires s != [] && !IsSpace(s[0]) && !IsSpace(s[|s| - 1])
    ensures Strip(s + "\n") == s
  {
    var t := s + "\n";
    assert t[0] == s[0] && t[|s|] == '\n' && t[..|s|] == s;
    assert StripLeft(t) == t && StripRight(t) == StripRight(s);
  }

  predicate Blank(s: string) {
    forall i :: 0 <= i < |s| ==> s[i] == ' ' || s[i] == '\t' || s[i] == '\n' || s[i] == '\r'
  }

  lemma {:induction false} StripLeftBlanks(a: string, s: string)
    requires Blank(a) && s != [] && !IsSpace(s[0])
    ensures StripLeft(a + s) == s
  {
    if a == [] {
      assert a + s == s;
    } else {
      assert (a + s)[1..] == a[1..] + s;
      StripLeftBlanks(a[1..], s);
    }
  }

  lemma {:induction false} StripRightBlanks(s: string, b: string)
    requires Blank(b) && s != [] && !IsSpace(s[|s| - 1])
    ensures StripRight(s + b) == s
  {
    if b == [] {
      assert s + b == s;
    } else {
      assert (s + b)[..|s + b| - 1] == s + b[..|b| - 1];
      StripRightBlanks(s, b[..|b| - 1]);
    }
  }

  /** Blanks around a text are stripped, and nothing of the text. */
  lemma {:induction false} StripBlanks(a: string, s: string, b: string)
    requires Blank(a) && Blank(b) && s != [] && !IsSpace(s[0]) && !IsSpace(s[|s| - 1])
    ensures Strip(a + (s + b)) == s
  {
    assert (s + b)[0] == s[0];
    StripLeftBlanks(a, s + b);
    StripRightBlanks(s, b);
  }

  // ---------------------------------------------------------------- order

  /** `a < b` for strings: the first differing character decides, a proper prefix comes first. */
  predicate Less(a: string, b: string) {
    b != [] && (a == [] || a[0] < b[0] || (a[0] == b[0] && Less(a[1..], b[1..])))
  }
}
