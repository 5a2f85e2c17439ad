/**
 The timestamps of nowRFC3339: time.RFC3339Nano in UTC, whose fraction drops trailing zeros and
 disappears with its point when it is zero. Strings of that form are what ListSessions sorts by.
 */
module Timestamps {
  import opened Decimal
  import opened Lex

  /** A UTC instant; which days a month has plays no part in formatting or in the order. */
  datatype Instant = Instant(year: nat, month: nat, day: nat, hour: nat, minute: nat, second: nat, nano: nat)
  {
    predicate Valid()
    {
      year < 10_000 && month < 100 && day < 100 && hour < 24 && minute < 60 && second < 60 && nano < 1_000_000_000
    }
  }

  /** Same whole second. */
  predicate SameSecond(t: Instant, u: Instant)
  {
    t.(nano := 0) == u.(nano := 0)
  }

  predicate EarlierSecond(t: Instant, u: Instant)
  {
    if t.year != u.year then t.year < u.year
    else if t.month != u.month then t.month < u.month
    else if t.day != u.day then t.day < u.day
    else if t.hour != u.hour then t.hour < u.hour
    else if t.minute != u.minute then t.minute < u.minute
    else t.second < u.second
  }

  /** `t` is before `u` in time. */
  predicate Before(t: Instant, u: Instant)
  {
    EarlierSecond(t, u) || (SameSecond(t, u) && t.nano < u.nano)
  }

  /** A zero-padded number and the text that follows it. */
  datatype Slot = Slot(width: nat, value: nat, after: string)

  function Join(slots: seq<Slot>): string
  {
    if |slots| == 0 then ""
    else Padded(slots[0].width, slots[0].value) + (slots[0].after + Join(slots[1..]))
  }

  function Slots(t: Instant): seq<Slot>
  {
    [Slot(4, t.year, "-"), Slot(2, t.month, "-"), Slot(2, t.day, "T"),
     Slot(2, t.hour, ":"), Slot(2, t.minute, ":"), Slot(2, t.second, "")]
  }

  /** 2006-01-02T15:04:05 */
  function Clock(t: Instant): string
  {
    Join(Slots(t))
  }

  function TrimZeros(s: string): string
  {
    if |s| > 0 && s[|s| - 1] == '0' then TrimZeros(s[..|s| - 1]) else s
  }

  /** The digits of the fraction that are printed. */
  function Digits(nano: nat): string
  {
    TrimZeros(Padded(9, nano))
  }

  function Fraction(nano: nat): string
  {
    if Digits(nano) == "" then "" else "." + Digits(nano)
  }

  function Format(t: Instant): string
  {
    Clock(t) + (Fraction(t.nano) + "Z")
  }

  predicate ProperPrefix(p: string, s: string)
  {
    p < s
  }

  lemma Widths()
    ensures Pow10(2) == 100 && Pow10(4) == 10_000 && Pow10(9) == 1_000_000_000
  {
    assert Pow10(9) == 10 * (10 * (10 * (10 * (10 * Pow10(4)))));
  }

  /** Two layouts of the same fields, each number within its width. */
  predicate SameLayout(a: seq<Slot>, b: seq<Slot>)
  {
    && |a| == |b|
    && forall i :: 0 <= i < |a| ==>
         && a[i].width == b[i].width > 0 && a[i].after == b[i].after
         && a[i].value < Pow10(a[i].width) && b[i].value < Pow10(b[i].width)
  }

  predicate LexLess(a: seq<Slot>, b: seq<Slot>)
    requires |a| == |b|
  {
    |a| > 0 && (a[0].value < b[0].value || (a[0].value == b[0].value && LexLess(a[1..], b[1..])))
  }

  lemma {:induction false} JoinOrder(a: seq<Slot>, b: seq<Slot>)
    requires SameLayout(a, b)
    ensures |Join(a)| == |Join(b)|
    ensures Less(Join(a), Join(b)) <==> LexLess(a, b)
    ensures Join(a) == Join(b) <==> a == b
  {
    if |a| > 0 {
      JoinOrder(a[1..], b[1..]);
      assert Join(a) == Padded(a[0].width, a[0].value) + (a[0].after + Join(a[1..]));
      assert Join(b) == Padded(b[0].width, b[0].value) + (b[0].after + Join(b[1..]));
      SlotOrder(a[0].width, a[0].value, b[0].value, a[0].after, Join(a[1..]), Join(b[1..]));
      assert a == [a[0]] + a[1..] && b == [b[0]] + b[1..];
    }
  }

  lemma SlotOrder(w: nat, m: nat, n: nat, after: string, r: string, r': string)
    requires w > 0 && m < Pow10(w) && n < Pow10(w) && |r| == |r'|
    ensures var a, b := Padded(w, m) + (after + r), Padded(w, n) + (after + r');
            && |a| == |b|
            && (Less(a, b) <==> m < n || (m == n && Less(r, r')))
            && (a == b <==> m == n && r == r')
  {
    PaddedWidth(w, m);
    PaddedWidth(w, n);
    PaddedOrder(w, m, n);
    LessIrreflexive(after);
    LessConcat(after, r, after, r');
    SplitEqual(after, r, after, r');
    LessConcat(Padded(w, m), after + r, Padded(w, n), after + r');
    SplitEqual(Padded(w, m), after + r, Padded(w, n), after + r');
    if Padded(w, m) == Padded(w, n) {
      PaddedInjective(w, m, n);
    }
  }

  lemma SplitEqual(a: string, b: string, c: string, d: string)
    requires |a| == |c|
    ensures a + b == c + d <==> a == c && b == d
  {
    assert (a + b)[..|a|] == a && (a + b)[|a|..] == b;
    assert (c + d)[..|a|] == c && (c + d)[|a|..] == d;
  }

  lemma ClockOrder(t: Instant, u: Instant)
    requires t.Valid() && u.Valid()
    ensures |Clock(t)| == |Clock(u)|
    ensures Less(Clock(t), Clock(u)) <==> EarlierSecond(t, u)
    ensures Clock(t) == Clock(u) <==> SameSecond(t, u)
  {
    var a, b := Slots(t), Slots(u);
    Widths();
    JoinOrder(a, b);
    LexLessStep(a, b);
    LexLessStep(a[1..], b[1..]);
    LexLessStep(a[2..], b[2..]);
    LexLessStep(a[3..], b[3..]);
    LexLessStep(a[4..], b[4..]);
    LexLessStep(a[5..], b[5..]);
  }

  lemma LexLessStep(a: seq<Slot>, b: seq<Slot>)
    requires |a| == |b| > 0
    ensures forall k :: 1 <= k < |a| ==> a[1..][k..] == a[k + 1..] && b[1..][k..] == b[k + 1..]
    ensures LexLess(a, b) <==> a[0].value < b[0].value || (a[0].value == b[0].value && LexLess(a[1..], b[1..]))
  {
  }

  /** Trimming removes a run of zeros and nothing else. */
  lemma {:induction false} TrimmedShape(s: string)
    ensures var f := TrimZeros(s);
            && f <= s
            && (f == "" || f[|f| - 1] != '0')
            && forall i :: |f| <= i < |s| ==> s[i] == '0'
  {
    if |s| > 0 && s[|s| - 1] == '0' {
      TrimmedShape(s[..|s| - 1]);
    }
  }

  lemma PaddedNanos(nano: nat)
    requires nano < 1_000_000_000
    ensures |Padded(9, nano)| == 9
  {
    Widths();
    PaddedWidth(9, nano);
  }

  /** The first digit in which two nanosecond counts differ is a printed digit of the larger one. */
  lemma FirstDigit(m: nat, n: nat) returns (k: nat)
    requires m < n < 1_000_000_000
    ensures k < |Digits(n)| && IsDigit(Digits(n)[k])
    ensures if k < |Digits(m)| then SmallerAt(Digits(m), Digits(n), k) && Digits(m)[k] < Digits(n)[k]
            else ProperPrefix(Digits(m), Digits(n)) && IsDigit(Digits(n)[|Digits(m)|])
    ensures k < |Digits(m)| ==> !ProperPrefix(Digits(m), Digits(n))
  {
    var p, q := Padded(9, m), Padded(9, n);
    PaddedNanos(m);
    PaddedNanos(n);
    Widths();
    PaddedOrder(9, m, n);
    k := FirstDifference(p, q);
    TrimmedShape(p);
    TrimmedShape(q);
    assert IsDigit(p[k]) && IsDigit(q[k]);
    var f, g := Digits(m), Digits(n);
    if k < |f| {
      assert f[..k] == p[..k] == q[..k] == g[..k];
    } else {
      assert f == p[..k][..|f|] == q[..k][..|f|] == g[..|f|];
      assert IsDigit(q[|f|]);
    }
  }

  /** Ending `f` with a Z makes it larger than what continues it with a digit, and changes nothing else. */
  lemma TerminatedOrder(f: string, g: string, k: nat)
    requires k < |g| && g[k] < 'Z'
    requires if k < |f| then SmallerAt(f, g, k) && f[k] < g[k] else k == |f| && f <= g
    ensures if k < |f| then Less(f + "Z", g + "Z") else Less(g + "Z", f + "Z")
  {
    var a, b := f + "Z", g + "Z";
    assert a[..k] == f[..k] && b[..k] == g[..k];
    if k < |f| {
      LessAt(a, b, k);
    } else {
      LessAt(b, a, k);
    }
  }

  lemma PointOrder(a: string, b: string)
    ensures Less("." + a, "." + b) <==> Less(a, b)
    ensures Less("." + b, "." + a) <==> Less(b, a)
  {
    LessIrreflexive(".");
    LessConcat(".", a, ".", b);
    LessConcat(".", b, ".", a);
  }

  lemma EmptyFractionOrder(m: nat, n: nat)
    requires m < n < 1_000_000_000 && Digits(m) == ""
    ensures ProperPrefix(Digits(m), Digits(n)) && Less(Fraction(n) + "Z", Fraction(m) + "Z")
  {
    var k := FirstDigit(m, n);
    var g := Digits(n);
    assert Fraction(n) + "Z" == "." + (g + "Z");
    LessAt("." + (g + "Z"), "Z", 0);
  }

  lemma FractionText(nano: nat)
    requires Digits(nano) != ""
    ensures Fraction(nano) + "Z" == "." + (Digits(nano) + "Z")
  {
  }

  lemma PrintedOrder(f: string, g: string, k: nat)
    requires k < |g| && IsDigit(g[k])
    requires if k < |f| then SmallerAt(f, g, k) && f[k] < g[k] && !ProperPrefix(f, g)
             else ProperPrefix(f, g) && IsDigit(g[|f|])
    ensures var a, b := "." + (f + "Z"), "." + (g + "Z"); if ProperPrefix(f, g) then Less(b, a) else Less(a, b)
  {
    TerminatedOrder(f, g, if k < |f| then k else |f|);
    PointOrder(f + "Z", g + "Z");
  }

  lemma TwoFractionsOrder(m: nat, n: nat)
    requires m < n < 1_000_000_000 && Digits(m) != ""
    ensures var a, b := Fraction(m) + "Z", Fraction(n) + "Z";
            if ProperPrefix(Digits(m), Digits(n)) then Less(b, a) else Less(a, b)
  {
    var k := FirstDigit(m, n);
    FractionText(m);
    FractionText(n);
    PrintedOrder(Digits(m), Digits(n), k);
  }

  /** Within one second the strings disagree with the clock exactly on a proper prefix. */
  lemma FractionOrder(m: nat, n: nat)
    requires m < n < 1_000_000_000
    ensures var a, b := Fraction(m) + "Z", Fraction(n) + "Z";
            if ProperPrefix(Digits(m), Digits(n)) then Less(b, a) else Less(a, b)
  {
    if Digits(m) == "" {
      EmptyFractionOrder(m, n);
    } else {
      TwoFractionsOrder(m, n);
    }
  }

  /**
   When string order is time order. For t before u the strings are never equal, and they are in
   the wrong order if and only if both fall in one whole second and the printed fraction of t,
   possibly empty, is a proper prefix of the printed fraction of u.
   */
  lemma StringOrderVersusTime(t: Instant, u: Instant)
    requires t.Valid() && u.Valid() && Before(t, u)
    ensures Less(Format(u), Format(t)) <==> SameSecond(t, u) && ProperPrefix(Digits(t.nano), Digits(u.nano))
    ensures Less(Format(t), Format(u)) <==> !(SameSecond(t, u) && ProperPrefix(Digits(t.nano), Digits(u.nano)))
  {
    var a, b := Fraction(t.nano) + "Z", Fraction(u.nano) + "Z";
    ClockOrder(t, u);
    ClockOrder(u, t);
    LessConcat(Clock(t), a, Clock(u), b);
    LessConcat(Clock(u), b, Clock(t), a);
    if SameSecond(t, u) {
      LessIrreflexive(Clock(t));
      FractionOrder(t.nano, u.nano);
      if Less(a, b) {
        LessAsymmetric(a, b);
      } else {
        LessAsymmetric(b, a);
      }
    }
  }

  /** A fraction whose digits are a proper prefix of another's is the smaller one. */
  lemma ProperPrefixIsEarlier(m: nat, n: nat)
    requires m < 1_000_000_000 && n < 1_000_000_000 && ProperPrefix(Digits(m), Digits(n))
    ensures m < n
  {
    if n < m {
      var k := FirstDigit(n, m);
    }
  }

  /** Section 5.1 of RFC 3339: with fractions of one length, string order is time order. */
  lemma EqualFractionsSortByTime(t: Instant, u: Instant)
    requires t.Valid() && u.Valid() && |Digits(t.nano)| == |Digits(u.nano)|
    ensures Less(Format(t), Format(u)) <==> Before(t, u)
  {
    BeforeIsTotal(t, u);
    if Before(t, u) {
      StringOrderVersusTime(t, u);
    } else if Before(u, t) {
      StringOrderVersusTime(u, t);
      LessAsymmetric(Format(u), Format(t));
    } else {
      LessIrreflexive(Format(t));
    }
  }

  lemma BeforeIsTotal(t: Instant, u: Instant)
    ensures Before(t, u) || t == u || Before(u, t)
  {
  }

  /** A stored timestamp names one instant. */
  lemma FormatInjective(t: Instant, u: Instant)
    requires t.Valid() && u.Valid()
    ensures Format(t) == Format(u) ==> t == u
  {
    BeforeIsTotal(t, u);
    LessIrreflexive(Format(t));
    if Before(t, u) {
      StringOrderVersusTime(t, u);
    } else if Before(u, t) {
      StringOrderVersusTime(u, t);
    }
  }

  /** A piece of a timestamp: `w` digits that denote `n`. */
  predicate Numeral(p: string, w: nat, n: nat)
  {
    |p| == w && AllDigits(p) && Value(p) == n
  }

  lemma PaddedNumeral(w: nat, n: nat)
    requires w > 0 && n < Pow10(w)
    ensures Numeral(Padded(w, n), w, n)
  {
    PaddedWidth(w, n);
    ValueOfPadded(w, n);
  }

  lemma JoinStep(slots: seq<Slot>, i: nat)
    requires i < |slots|
    ensures Join(slots[i..]) == Padded(slots[i].width, slots[i].value) + (slots[i].after + Join(slots[i + 1..]))
  {
    assert slots[i..][1..] == slots[i + 1..];
  }

  lemma ClockText(t: Instant)
    ensures Clock(t) == Padded(4, t.year) + ("-" + (Padded(2, t.month) + ("-" + (Padded(2, t.day) + ("T" +
              (Padded(2, t.hour) + (":" + (Padded(2, t.minute) + (":" + Padded(2, t.second))))))))))
  {
    var s := Slots(t);
    assert s[0..] == s && s[6..] == [];
    JoinStep(s, 0);
    JoinStep(s, 1);
    JoinStep(s, 2);
    JoinStep(s, 3);
    JoinStep(s, 4);
    JoinStep(s, 5);
    assert Padded(2, t.second) + ("" + "") == Padded(2, t.second);
  }

  /** 2006-01-02T15:04:05: four digits and five times two, with fixed characters in between. */
  lemma ClockLayout(t: Instant) returns (year: string, month: string, day: string,
                                         hour: string, minute: string, second: string)
    requires t.Valid()
    ensures Numeral(year, 4, t.year) && Numeral(month, 2, t.month) && Numeral(day, 2, t.day)
    ensures Numeral(hour, 2, t.hour) && Numeral(minute, 2, t.minute) && Numeral(second, 2, t.second)
    ensures Clock(t) == year + ("-" + (month + ("-" + (day + ("T" +
                          (hour + (":" + (minute + (":" + second)))))))))
  {
    Widths();
    ClockText(t);
    year, month, day := Padded(4, t.year), Padded(2, t.month), Padded(2, t.day);
    hour, minute, second := Padded(2, t.hour), Padded(2, t.minute), Padded(2, t.second);
    PaddedNumeral(4, t.year);
    PaddedNumeral(2, t.month);
    PaddedNumeral(2, t.day);
    PaddedNumeral(2, t.hour);
    PaddedNumeral(2, t.minute);
    PaddedNumeral(2, t.second);
  }

  lemma TenTimes(v: nat, p: nat)
    ensures 10 * (v * p) == v * (10 * p)
  {
  }

  /** The printed digits of the fraction, filled up with zeros to nine, are the nanoseconds. */
  lemma {:induction false} TrimmedValue(s: string)
    requires AllDigits(s)
    ensures TrimZeros(s) <= s && AllDigits(TrimZeros(s))
    ensures Value(s) == Value(TrimZeros(s)) * Pow10(|s| - |TrimZeros(s)|)
  {
    if |s| > 0 && s[|s| - 1] == '0' {
      var r := s[..|s| - 1];
      TrimmedValue(r);
      TenTimes(Value(TrimZeros(r)), Pow10(|r| - |TrimZeros(r)|));
    } else {
      assert Value(s) * Pow10(0) == Value(s);
    }
  }

  lemma WholeSecondPrintsNoFraction()
    ensures Digits(0) == ""
  {
    TrimmedShape(Padded(9, 0));
    assert Padded(9, 0) == Zeros(8) + "0";
  }

  lemma DigitsLayout(nano: nat)
    requires nano < 1_000_000_000
    ensures var d := Digits(nano);
            && AllDigits(d) && |d| <= 9 && (d == "" <==> nano == 0) && (d != "" ==> d[|d| - 1] != '0')
            && nano == Value(d) * Pow10(9 - |d|)
  {
    var p := Padded(9, nano);
    PaddedNanos(nano);
    ValueOfPadded(9, nano);
    TrimmedShape(p);
    TrimmedValue(p);
    WholeSecondPrintsNoFraction();
  }

  /**
   The fraction: nothing for a whole second, and else a point and up to nine digits that do not end in
   zero and, filled up with zeros to nine, are the nanoseconds. A Z ends the timestamp.
   */
  lemma FormatLayout(t: Instant) returns (f: string)
    requires t.Valid()
    ensures Format(t) == Clock(t) + ((if f == "" then "" else "." + f) + "Z")
    ensures AllDigits(f) && |f| <= 9 && (f == "" <==> t.nano == 0) && (f != "" ==> f[|f| - 1] != '0')
    ensures t.nano == Value(f) * Pow10(9 - |f|)
  {
    f := Digits(t.nano);
    DigitsLayout(t.nano);
  }

  /** The disagreement is real: a whole second sorts after its own first half. */
  lemma WholeSecondSortsLate(t: Instant, u: Instant)
    requires t.Valid() && u == t.(nano := 500_000_000) && t.nano == 0
    ensures Before(t, u) && Less(Format(u), Format(t))
  {
    WholeSecondPrintsNoFraction();
    var k := FirstDigit(0, 500_000_000);
    StringOrderVersusTime(t, u);
  }
}
