/**
 Decimal notation as fmt's %d and %010d, strconv.FormatInt and strconv.Atoi write and read it.
 Keys, timestamps and hash fields are all built from it.
 */
module Decimal {
  import opened Lex
  import opened Wrappers

  const MIN_INT64: int := -0x8000_0000_0000_0000
  const MAX_INT64: int := 0x7FFF_FFFF_FFFF_FFFF

  predicate IsInt64(n: int)
  {
    MIN_INT64 <= n <= MAX_INT64
  }

  predicate IsDigit(c: char)
  {
    '0' <= c <= '9'
  }

  predicate AllDigits(s: string)
  {
    forall i :: 0 <= i < |s| ==> IsDigit(s[i])
  }

  function Digit(d: nat): char
    requires d < 10
  {
    '0' + d as char
  }

  /** %d of a non-negative number. */
  function Dec(n: nat): (s: string)
    ensures |s| > 0 && AllDigits(s)
  {
    if n < 10 then [Digit(n)] else Dec(n / 10) + [Digit(n % 10)]
  }

  function Zeros(w: nat): (s: string)
    ensures |s| == w && AllDigits(s)
  {
    seq(w, _ => '0')
  }

  /** %0<w>d of a non-negative number: at least `w` digits, wider when the number needs it. */
  function Padded(w: nat, n: nat): (s: string)
    ensures |s| >= w && |s| > 0 && AllDigits(s)
  {
    var d := Dec(n);
    if |d| >= w then d else Zeros(w - |d|) + d
  }

  /** strconv.FormatInt(n, 10). */
  function FormatInt(n: int): string
  {
    if n < 0 then "-" + Dec(-n) else Dec(n)
  }

  /** The number a string of digits denotes. */
  function Value(s: string): nat
    requires AllDigits(s)
  {
    if |s| == 0 then 0 else 10 * Value(s[..|s| - 1]) + (s[|s| - 1] as int - '0' as int)
  }

  /** strconv.Atoi on a 64-bit platform; None stands for its error. */
  function Atoi(s: string): (r: Option<int>)
    ensures r.Some? ==> IsInt64(r.value)
  {
    var digits := if |s| > 0 && (s[0] == '-' || s[0] == '+') then s[1..] else s;
    if |digits| == 0 || !AllDigits(digits) then None
    else
      var n: int := if s[0] == '-' then -(Value(digits) as int) else Value(digits) as int;
      if IsInt64(n) then Some(n) else None
  }

  function Pow10(w: nat): (p: nat)
    ensures p >= 1
  {
    if w == 0 then 1 else 10 * Pow10(w - 1)
  }

  lemma {:induction false} ValueOfDec(n: nat)
    ensures Value(Dec(n)) == n
  {
    if n >= 10 {
      ValueOfDec(n / 10);
      assert Dec(n)[..|Dec(n)| - 1] == Dec(n / 10);
    } else {
      assert Value(Dec(n)[..0]) == 0;
    }
  }

  lemma {:induction false} ValueOfLeadingZeros(w: nat, s: string)
    requires AllDigits(s)
    ensures AllDigits(Zeros(w) + s) && Value(Zeros(w) + s) == Value(s)
  {
    var z := Zeros(w) + s;
    if |s| > 0 {
      assert z[..|z| - 1] == Zeros(w) + s[..|s| - 1];
      ValueOfLeadingZeros(w, s[..|s| - 1]);
    } else if w > 0 {
      assert z[..|z| - 1] == Zeros(w - 1) + s;
      ValueOfLeadingZeros(w - 1, s);
    }
  }

  /** Padding loses nothing, at any width. */
  lemma ValueOfPadded(w: nat, n: nat)
    ensures Value(Padded(w, n)) == n
  {
    var d := Dec(n);
    ValueOfDec(n);
    if |d| < w {
      ValueOfLeadingZeros(w - |d|, d);
    }
  }

  lemma PaddedInjective(w: nat, m: nat, n: nat)
    requires Padded(w, m) == Padded(w, n)
    ensures m == n
  {
    ValueOfPadded(w, m);
    ValueOfPadded(w, n);
  }

  /** A number below 10^w fits in w digits, and only such a number does. */
  lemma {:induction false} DecWidth(w: nat, n: nat)
    requires w > 0
    ensures |Dec(n)| <= w <==> n < Pow10(w)
  {
    if n >= 10 && w > 1 {
      DecWidth(w - 1, n / 10);
    }
  }

  lemma PaddedWidth(w: nat, n: nat)
    requires w > 0
    ensures |Padded(w, n)| == w <==> n < Pow10(w)
  {
    DecWidth(w, n);
  }

  /** Among digit strings of one width, byte order is numeric order. */
  lemma {:induction false} FixedWidthOrder(a: string, b: string)
    requires AllDigits(a) && AllDigits(b) && |a| == |b|
    ensures Less(a, b) <==> Value(a) < Value(b)
    decreases |a|
  {
    if |a| > 0 {
      var k := |a| - 1;
      FixedWidthOrder(a[..k], b[..k]);
      FixedWidthOrder(b[..k], a[..k]);
      LessTotal(a[..k], b[..k]);
      LessConcat(a[..k], [a[k]], b[..k], [b[k]]);
      assert a == a[..k] + [a[k]] && b == b[..k] + [b[k]];
      LessIrreflexive(a[..k]);
    }
  }

  /** Zero-padded numbers that fit the padding sort numerically. */
  lemma PaddedOrder(w: nat, m: nat, n: nat)
    requires w > 0 && m < Pow10(w) && n < Pow10(w)
    ensures Less(Padded(w, m), Padded(w, n)) <==> m < n
  {
    PaddedWidth(w, m);
    PaddedWidth(w, n);
    ValueOfPadded(w, m);
    ValueOfPadded(w, n);
    FixedWidthOrder(Padded(w, m), Padded(w, n));
  }

  predicate SignedDigits(s: string, sign: string, d: string, n: int)
  {
    && sign in {"", "+", "-"} && |d| > 0 && AllDigits(d) && s == sign + d
    && n == (if sign == "-" then -(Value(d) as int) else Value(d))
  }

  lemma AcceptedIsSigned(s: string, n: int) returns (sign: string, d: string)
    requires Atoi(s) == Some(n)
    ensures SignedDigits(s, sign, d, n)
  {
    var k := if s[0] == '-' || s[0] == '+' then 1 else 0;
    sign, d := s[..k], s[k..];
    assert s == sign + d && (k == 1 ==> sign == [s[0]]);
  }

  lemma SignedIsAccepted(s: string, sign: string, d: string, n: int)
    requires SignedDigits(s, sign, d, n) && IsInt64(n)
    ensures Atoi(s) == Some(n)
  {
    assert IsDigit(d[0]);
    if sign == "" {
      assert s == d;
    } else {
      assert s[1..] == d;
    }
  }

  /** What strconv.Atoi accepts: digits after at most one sign, if the number is an int64; nothing else. */
  lemma AtoiAccepts(s: string, n: int)
    ensures Atoi(s) == Some(n) <==> IsInt64(n) && exists sign, d :: SignedDigits(s, sign, d, n)
  {
    if Atoi(s) == Some(n) {
      var sign, d := AcceptedIsSigned(s, n);
    }
    if sign, d :| IsInt64(n) && SignedDigits(s, sign, d, n) {
      SignedIsAccepted(s, sign, d, n);
    }
  }

  /** strconv.Atoi reads back what strconv.FormatInt printed, for every int64. */
  lemma AtoiOfFormatInt(n: int)
    requires IsInt64(n)
    ensures Atoi(FormatInt(n)) == Some(n)
  {
    var d := Dec(if n < 0 then -n else n);
    ValueOfDec(if n < 0 then -n else n);
    assert d[0] != '-' && d[0] != '+' by { assert IsDigit(d[0]); }
    if n < 0 {
      assert FormatInt(n)[1..] == d;
    }
  }

  /** The printed form: a minus sign if need be, and digits that denote the size, none of them a leading zero. */
  lemma FormatIntShape(n: int)
    ensures var s := FormatInt(n); var d := if n < 0 then s[1..] else s;
            && |s| > 0 && (n < 0 <==> s[0] == '-')
            && |d| > 0 && AllDigits(d) && Value(d) == (if n < 0 then -n else n)
            && (d[0] == '0' ==> d == "0")
  {
    var m := if n < 0 then -n else n;
    ValueOfDec(m);
    NoLeadingZero(m);
    assert IsDigit(Dec(m)[0]);
    assert n < 0 ==> FormatInt(n)[1..] == Dec(m);
  }

  lemma {:induction false} NoLeadingZero(n: nat)
    ensures Dec(n)[0] == '0' <==> n == 0
  {
    if n >= 10 {
      NoLeadingZero(n / 10);
      assert Dec(n)[0] == Dec(n / 10)[0];
    }
  }

  /** Distinct numbers never share a hash field. */
  lemma FormatIntInjective(m: int, n: int)
    requires FormatInt(m) == FormatInt(n)
    ensures m == n
  {
    ValueOfDec(if m < 0 then -m else m);
    ValueOfDec(if n < 0 then -n else n);
    assert IsDigit(Dec(if m < 0 then -m else m)[0]) && IsDigit(Dec(if n < 0 then -n else n)[0]);
    if m < 0 && n < 0 {
      assert Dec(-m) == FormatInt(m)[1..] == FormatInt(n)[1..] == Dec(-n);
    }
  }
}
