/**
 The key scheme of agent/backend/store.go: "session:<id>" and "msg:<session>:<seq>", with seq padded
 to ten digits, and the ids it is meant for.
 */
module Keys {
  import opened Decimal
  import opened Lex
  import opened Wrappers

  const SEQ_DIGITS: nat := 10
  const MAX_PADDED_SEQ: nat := 9_999_999_999

  type Octet = n: nat | n < 256

  predicate ColonFree(s: Bytes)
  {
    ':' !in s
  }

  function SessionKey(id: Bytes): Bytes
  {
    "session:" + id
  }

  function MessagePrefix(id: Bytes): Bytes
  {
    "msg:" + id + ":"
  }

  function MessageKey(id: Bytes, n: nat): Bytes
  {
    "msg:" + id + ":" + Padded(SEQ_DIGITS, n)
  }

  function HexDigit(d: nat): char
    requires d < 16
  {
    "0123456789abcdef"[d]
  }

  /** hex.EncodeToString. */
  function HexEncode(b: seq<Octet>): string
  {
    if |b| == 0 then "" else [HexDigit(b[0] / 16), HexDigit(b[0] % 16)] + HexEncode(b[1..])
  }

  /** newID: sixteen random bytes in hex, or the clock in decimal when the random source failed. */
  function NewId(random: Option<seq<Octet>>, unixNano: int): Bytes
  {
    match random
    case Some(b) => HexEncode(b)
    case None => FormatInt(unixNano)
  }

  lemma {:induction false} HexEncodeShape(b: seq<Octet>)
    ensures |HexEncode(b)| == 2 * |b| && ColonFree(HexEncode(b))
  {
    if |b| > 0 {
      HexEncodeShape(b[1..]);
    }
  }

  /** What a lower-case hexadecimal digit stands for. */
  function HexValue(c: char): int
  {
    if '0' <= c <= '9' then c as int - '0' as int else if 'a' <= c <= 'f' then c as int - 'a' as int + 10 else -1
  }

  lemma HexDigitReads(d: nat)
    requires d < 16
    ensures HexValue(HexDigit(d)) == d
  {
  }

  lemma {:induction false} HexEncodeAt(b: seq<Octet>, i: nat)
    requires i < |b|
    ensures |HexEncode(b)| == 2 * |b|
    ensures HexEncode(b)[2 * i] == HexDigit(b[i] / 16) && HexEncode(b)[2 * i + 1] == HexDigit(b[i] % 16)
  {
    HexEncodeShape(b);
    if i > 0 {
      HexEncodeAt(b[1..], i - 1);
      var pair := [HexDigit(b[0] / 16), HexDigit(b[0] % 16)];
      assert (pair + HexEncode(b[1..]))[2 * i] == HexEncode(b[1..])[2 * (i - 1)];
      assert (pair + HexEncode(b[1..]))[2 * i + 1] == HexEncode(b[1..])[2 * (i - 1) + 1];
    }
  }

  /** Each byte can be read off its two digits. */
  lemma HexEncodeReads(b: seq<Octet>, i: nat)
    requires i < |b|
    ensures |HexEncode(b)| == 2 * |b|
    ensures b[i] == 16 * HexValue(HexEncode(b)[2 * i]) + HexValue(HexEncode(b)[2 * i + 1])
    ensures 0 <= HexValue(HexEncode(b)[2 * i]) < 16 && 0 <= HexValue(HexEncode(b)[2 * i + 1]) < 16
  {
    HexEncodeAt(b, i);
    HexDigitReads(b[i] / 16);
    HexDigitReads(b[i] % 16);
  }

  lemma HexDigitInjective(c: nat, d: nat)
    requires c < 16 && d < 16 && HexDigit(c) == HexDigit(d)
    ensures c == d
  {
  }

  lemma HexPairInjective(m: Octet, n: Octet)
    requires HexDigit(m / 16) == HexDigit(n / 16) && HexDigit(m % 16) == HexDigit(n % 16)
    ensures m == n
  {
    HexDigitInjective(m / 16, n / 16);
    HexDigitInjective(m % 16, n % 16);
  }

  lemma {:induction false} HexEncodeInjective(a: seq<Octet>, b: seq<Octet>)
    requires HexEncode(a) == HexEncode(b)
    ensures a == b
  {
    HexEncodeShape(a);
    HexEncodeShape(b);
    if |a| > 0 {
      assert HexEncode(a)[2..] == HexEncode(a[1..]) && HexEncode(b)[2..] == HexEncode(b[1..]);
      HexEncodeInjective(a[1..], b[1..]);
      HexPairInjective(a[0], b[0]);
      assert a == [a[0]] + a[1..] && b == [b[0]] + b[1..];
    }
  }

  /** Both forms of a new id are usable in a key, and different random bytes give different ids. */
  lemma NewIdIsUsable(random: Option<seq<Octet>>, unixNano: int)
    requires random.Some? ==> |random.value| == 16
    ensures NewId(random, unixNano) != "" && ColonFree(NewId(random, unixNano))
    ensures forall other: seq<Octet> ::
              random.Some? && NewId(Some(other), unixNano) == NewId(random, unixNano) ==> random.value == other
    // sixteen bytes as pairs of digits, or the clock in decimal
    ensures random.Some? ==>
              var id := NewId(random, unixNano);
              |id| == 32
              && forall i :: 0 <= i < 16 ==> random.value[i] == 16 * HexValue(id[2 * i]) + HexValue(id[2 * i + 1])
    ensures random.None? && IsInt64(unixNano) ==> Atoi(NewId(random, unixNano)) == Some(unixNano)
  {
    if random.None? && IsInt64(unixNano) {
      AtoiOfFormatInt(unixNano);
    }
    if random.Some? {
      HexEncodeShape(random.value);
      forall i | 0 <= i < 16
        ensures random.value[i] ==
                16 * HexValue(HexEncode(random.value)[2 * i]) + HexValue(HexEncode(random.value)[2 * i + 1])
      {
        HexEncodeReads(random.value, i);
      }
      HexEncodeShape(random.value);
      forall other: seq<Octet> | HexEncode(other) == HexEncode(random.value) ensures random.value == other {
        HexEncodeInjective(random.value, other);
      }
    }
  }

  lemma SessionKeyInjective(s: Bytes, t: Bytes)
    ensures SessionKey(s) == SessionKey(t) <==> s == t
  {
    assert SessionKey(s)[8..] == s && SessionKey(t)[8..] == t;
  }

  /** The layout of the keys on disk. */
  lemma KeyLayout(id: Bytes, n: nat)
    ensures SessionKey(id)[..8] == "session:" && SessionKey(id)[8..] == id
    ensures var key, k := MessageKey(id, n), 4 + |id|;
            && |key| >= k + 11 && key[..4] == "msg:" && key[4..k] == id && key[k] == ':'
            && AllDigits(key[k + 1..]) && Value(key[k + 1..]) == n
            && (|key[k + 1..]| == 10 <==> n <= MAX_PADDED_SEQ)
    ensures MessagePrefix(id) == MessageKey(id, n)[..5 + |id|]
  {
    var key := MessageKey(id, n);
    assert key[5 + |id|..] == Padded(SEQ_DIGITS, n);
    ValueOfPadded(SEQ_DIGITS, n);
    PaddedWidth(SEQ_DIGITS, n);
    PaddingHoldsMaxSeq();
  }

  /**
   One session's scan never sees another session's keys: for any string `s` whatever, colons
   included, a key of a colon-free id starts with the prefix of `s` only if `s` is that id.
   */
  lemma PrefixBelongsToOneSession(id: Bytes, n: nat, s: Bytes)
    requires ColonFree(id)
    ensures HasPrefix(MessageKey(id, n), MessagePrefix(s)) <==> s == id
  {
    var key, p := MessageKey(id, n), MessagePrefix(s);
    var digits := Padded(SEQ_DIGITS, n);
    if s == id {
      assert key == p + digits;
    }
    if HasPrefix(key, p) {
      assert key[4 + |s|] == ':';
      assert forall i | 0 <= i < |digits| :: key[5 + |id| + i] == digits[i];
      assert forall i | 0 <= i < |id| :: key[4 + i] == id[i];
      assert |s| == |id|;
      assert s == key[4..4 + |s|];
    }
  }

  /** No two messages share a key, even once sequence numbers outgrow the padding. */
  lemma MessageKeyInjective(id: Bytes, m: nat, id': Bytes, n: nat)
    requires ColonFree(id) && ColonFree(id')
    ensures MessageKey(id, m) == MessageKey(id', n) <==> id == id' && m == n
  {
    if MessageKey(id, m) == MessageKey(id', n) {
      PrefixBelongsToOneSession(id', n, id');
      PrefixBelongsToOneSession(id, m, id');
      assert MessageKey(id, m)[|MessagePrefix(id)|..] == Padded(SEQ_DIGITS, m);
      assert MessageKey(id, n)[|MessagePrefix(id)|..] == Padded(SEQ_DIGITS, n);
      PaddedInjective(SEQ_DIGITS, m, n);
    }
  }

  lemma MessageKeyLess(id: Bytes, m: nat, n: nat)
    ensures Less(MessageKey(id, m), MessageKey(id, n)) <==> Less(Padded(SEQ_DIGITS, m), Padded(SEQ_DIGITS, n))
  {
    LessConcat(MessagePrefix(id), Padded(SEQ_DIGITS, m), MessagePrefix(id), Padded(SEQ_DIGITS, n));
    LessIrreflexive(MessagePrefix(id));
  }

  lemma PaddingHoldsMaxSeq()
    ensures Pow10(SEQ_DIGITS) == MAX_PADDED_SEQ + 1
  {
    assert Pow10(5) == 100_000;
    assert Pow10(10) == 10 * (10 * (10 * (10 * (10 * Pow10(5)))));
  }

  /** Within the padding, key order is sequence order. */
  lemma KeyOrderIsSeqOrder(id: Bytes, m: nat, n: nat)
    requires m <= MAX_PADDED_SEQ && n <= MAX_PADDED_SEQ
    ensures Less(MessageKey(id, m), MessageKey(id, n)) <==> m < n
  {
    PaddingHoldsMaxSeq();
    MessageKeyLess(id, m, n);
    PaddedOrder(SEQ_DIGITS, m, n);
  }

  lemma {:induction false} DecAppendsDigit(n: nat, d: nat)
    requires n > 0 && d < 10
    ensures Dec(10 * n + d) == Dec(n) + [Digit(d)]
  {
  }

  /** The bound is tight: the very next sequence number sorts before a smaller one. */
  lemma KeyOrderBreaksAfterPadding(id: Bytes)
    ensures Less(MessageKey(id, MAX_PADDED_SEQ + 1), MessageKey(id, 1_000_000_001))
  {
    var wide, narrow := Padded(SEQ_DIGITS, MAX_PADDED_SEQ + 1), Padded(SEQ_DIGITS, 1_000_000_001);
    DecAppendsDigit(1_000_000_000, 0);
    DecAppendsDigit(100_000_000, 0);
    DecAppendsDigit(100_000_000, 1);
    PaddingHoldsMaxSeq();
    DecWidth(9, 100_000_000);
    DecWidth(8, 100_000_000);
    assert Pow10(8) == 100_000_000 && Pow10(9) == 1_000_000_000;
    var stem := Dec(100_000_000);
    assert |stem| == 9;
    assert wide == stem + ['0'] + ['0'] && narrow == stem + ['1'];
    LessAt(wide, narrow, 9);
    MessageKeyLess(id, MAX_PADDED_SEQ + 1, 1_000_000_001);
  }
}
