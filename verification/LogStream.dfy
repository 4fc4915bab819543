/** base/LogStream.h and base/LogStream.cpp: the fixed buffer and the integer formatter. */
module LogStream {
  // ---------------------------------------------------------------- truncating division

  /** C++ division by 10 truncates towards zero. */
  function Quot10(i: int): int {
    if i >= 0 then i / 10 else -((-i) / 10)
  }

  /** C++ remainder: it has the sign of the dividend. */
  function Rem10(i: int): int {
    i - 10 * Quot10(i)
  }

  lemma QuotRem(i: int)
    ensures -9 <= Rem10(i) <= 9
    ensures i >= 0 ==> Rem10(i) == i % 10 && Quot10(i) == i / 10
    ensures i < 0 ==> Rem10(i) == -((-i) % 10) && Quot10(i) == -((-i) / 10)
    ensures (i >= 0 ==> 0 <= Quot10(i) <= i) && (i <= 0 ==> i <= Quot10(i) <= 0)
  {
  }

  // ---------------------------------------------------------------- decimal numerals

  const DIGITS := "9876543210123456789"

  /** The table, entry by entry: down to '0' in its middle and up again. */
  function TableAt(k: nat): char
    requires k < 19
  {
    ('0' as int + if k <= 9 then 9 - k else k - 9) as char
  }

  lemma TableIsDigits(k: nat)
    requires k < |DIGITS|
    ensures |DIGITS| == 19 && DIGITS[k] == TableAt(k)
  {
  }

  /** zero[lsd]: the table is read from its middle, to the left for a negative remainder. */
  function DigitChar(lsd: int): char
    requires -9 <= lsd <= 9
  {
    TableAt(9 + lsd)
  }

  predicate IsDigit(c: char) {
    '0' <= c <= '9'
  }

  function DigitValue(c: char): nat
    requires IsDigit(c)
  {
    c as int - '0' as int
  }

  lemma TableIsSymmetric(lsd: int)
    requires -9 <= lsd <= 9
    ensures IsDigit(DigitChar(lsd)) && DigitValue(DigitChar(lsd)) == if lsd >= 0 then lsd else -lsd
  {
  }

  function Abs(v: int): nat {
    if v >= 0 then v else -v
  }

  function Numeral(n: nat): string {
    if n < 10 then [DigitChar(n)] else Numeral(n / 10) + [DigitChar(n % 10)]
  }

  function Decimal(v: int): string {
    if v < 0 then "-" + Numeral(-v) else Numeral(v)
  }

  // ---------------------------------------------------------------- what a numeral means

  predicate AllDigits(s: string) {
    forall k :: 0 <= k < |s| ==> IsDigit(s[k])
  }

  function NatValue(s: string): nat
    requires AllDigits(s)
  {
    if s == "" then 0 else 10 * NatValue(s[..|s| - 1]) + DigitValue(s[|s| - 1])
  }

  /** At least one digit, and no leading zero except in "0". */
  predicate CanonicalNat(s: string) {
    s != "" && AllDigits(s) && (|s| > 1 ==> s[0] != '0')
  }

  /** A canonical integer has no "-0". */
  predicate Canonical(s: string) {
    if s != "" && s[0] == '-' then CanonicalNat(s[1..]) && s[1] != '0' else CanonicalNat(s)
  }

  function Value(s: string): int
    requires Canonical(s)
  {
    if s[0] == '-' then 0 - NatValue(s[1..]) else NatValue(s)
  }

  lemma {:induction false} NumeralIsCanonical(n: nat)
    ensures CanonicalNat(Numeral(n)) && NatValue(Numeral(n)) == n
    ensures n > 0 ==> Numeral(n)[0] != '0'
  {
    if n < 10 {
      TableIsSymmetric(n);
      assert [DigitChar(n)][..0] == "";
    } else {
      NumeralIsCanonical(n / 10);
      TableIsSymmetric(n % 10);
      var s := Numeral(n);
      assert s[..|s| - 1] == Numeral(n / 10);
    }
  }

  lemma {:induction false} CanonicalIsNumeral(s: string)
    requires CanonicalNat(s)
    ensures Numeral(NatValue(s)) == s
    ensures |s| > 1 ==> NatValue(s) >= 10
  {
    var init, c := s[..|s| - 1], s[|s| - 1];
    assert s == init + [c];
    if init == "" {
      assert DigitChar(DigitValue(c)) == c;
    } else {
      CanonicalIsNumeral(init);
      if |init| == 1 {
        assert init[..0] == "";
        assert NatValue(init) == DigitValue(init[0]) > 0;
      }
      assert NatValue(s) / 10 == NatValue(init) && NatValue(s) % 10 == DigitValue(c);
      assert DigitChar(DigitValue(c)) == c;
    }
  }

  /** Reading the text back gives the value, and the text is the only canonical one with that value. */
  lemma DecimalRoundTrip(v: int)
    ensures Canonical(Decimal(v)) && Value(Decimal(v)) == v
  {
    NumeralIsCanonical(Abs(v));
    if v < 0 {
      assert Decimal(v)[1..] == Numeral(-v);
    } else {
      assert IsDigit(Numeral(v)[0]);
    }
  }

  lemma NegativeRoundTrip(digits: string)
    requires CanonicalNat(digits) && digits[0] != '0'
    ensures Decimal(0 - NatValue(digits)) == "-" + digits
  {
    CanonicalIsNumeral(digits);
    NumeralIsCanonical(NatValue(digits));
    assert Numeral(0) == [DigitChar(0)];
  }

  lemma CanonicalRoundTrip(s: string)
    requires Canonical(s)
    ensures Decimal(Value(s)) == s
  {
    if s[0] == '-' {
      NegativeRoundTrip(s[1..]);
      assert s == "-" + s[1..];
    } else {
      CanonicalIsNumeral(s);
    }
  }

  function Pow10(k: nat): nat {
    if k == 0 then 1 else 10 * Pow10(k - 1)
  }

  lemma {:induction false} NumeralLength(n: nat, k: nat)
    requires k > 0 && n < Pow10(k)
    ensures |Numeral(n)| <= k
  {
    if n >= 10 {
      NumeralLength(n / 10, k - 1);
    }
  }

  const INT64_MIN: int := -0x8000_0000_0000_0000
  const UINT64_MAX: int := 0xFFFF_FFFF_FFFF_FFFF

  lemma Pow10OfTwenty()
    ensures Pow10(19) == 10_000_000_000_000_000_000 && Pow10(20) == 100_000_000_000_000_000_000
  {
    assert Pow10(5) == 100_000;
    assert Pow10(10) == 10_000_000_000;
    assert Pow10(15) == 1_000_000_000_000_000;
    assert Pow10(19) == 10_000_000_000_000_000_000;
  }

  /** 64 bits need at most 20 characters, so a slot of kMaxNumbericSize is always wide enough. */
  lemma DecimalLength(v: int)
    requires INT64_MIN <= v <= UINT64_MAX
    ensures 1 <= |Decimal(v)| <= 20
  {
    Pow10OfTwenty();
    if v < 0 {
      NumeralLength(-v, 19);
    } else {
      NumeralLength(v, 20);
    }
    NumeralIsCanonical(Abs(v));
  }

  // ---------------------------------------------------------------- convert

  function Reversed(s: string): string {
    if s == "" then "" else Reversed(s[1..]) + [s[0]]
  }

  lemma {:induction false} ReversedAt(s: string)
    ensures |Reversed(s)| == |s|
    ensures forall k :: 0 <= k < |s| ==> Reversed(s)[k] == s[|s| - 1 - k]
  {
    if s != "" {
      ReversedAt(s[1..]);
      forall k | 0 <= k < |s| ensures Reversed(s)[k] == s[|s| - 1 - k] {
        if k < |s| - 1 {
          assert Reversed(s)[k] == Reversed(s[1..])[k];
        }
      }
    }
  }

  lemma {:induction false} ReversedSnoc(s: string, c: char)
    ensures Reversed(s + [c]) == [c] + Reversed(s)
  {
    if s != "" {
      ReversedSnoc(s[1..], c);
      assert (s + [c])[1..] == s[1..] + [c];
    }
  }

  lemma {:induction false} ReversedTwice(s: string)
    ensures Reversed(Reversed(s)) == s
  {
    ReversedAt(s);
    ReversedAt(Reversed(s));
  }

  /** std::reverse on buf[lo..hi]. */
  method Reverse(buf: array<char>, lo: nat, hi: nat)
    requires lo <= hi <= buf.Length
    modifies buf
    ensures buf[lo..hi] == Reversed(old(buf[lo..hi]))
    ensures forall k :: 0 <= k < lo || hi <= k < buf.Length ==> buf[k] == old(buf[k])
  {
    hide Reversed;
    var i, j := lo, hi;
    while i + 1 < j
      invariant lo <= i <= j <= hi && i - lo == hi - j
      invariant forall k :: lo <= k < i || j <= k < hi ==> buf[k] == old(buf[lo + hi - 1 - k])
      invariant forall k :: i <= k < j || 0 <= k < lo || hi <= k < buf.Length ==> buf[k] == old(buf[k])
    {
      j := j - 1;
      buf[i], buf[j] := buf[j], buf[i];
      i := i + 1;
    }
    ReversedAt(old(buf[lo..hi]));
    forall k | 0 <= k < hi - lo ensures buf[lo..hi][k] == Reversed(old(buf[lo..hi]))[k] {
      assert buf[lo + k] == old(buf[lo + hi - 1 - (lo + k)]);
    }
    assert buf[lo..hi] == Reversed(old(buf[lo..hi]));
  }

  /** The digits of n as the loop writes them: the last one first. */
  function Backwards(n: nat): string {
    Reversed(Numeral(n))
  }

  lemma BackwardsStep(n: nat)
    ensures n >= 10 ==> Backwards(n) == [DigitChar(n % 10)] + Backwards(n / 10)
    ensures n < 10 ==> Backwards(n) == [DigitChar(n)]
  {
    if n >= 10 {
      ReversedSnoc(Numeral(n / 10), DigitChar(n % 10));
    } else {
      assert [DigitChar(n)][1..] == "";
      assert Reversed("") == "";
    }
  }

  /** What one turn of the loop writes and what it leaves, without ever negating i. */
  lemma DigitStep(i: int)
    ensures Backwards(Abs(i)) ==
            [DigitChar(Rem10(i))] + if Quot10(i) == 0 then "" else Backwards(Abs(Quot10(i)))
  {
    QuotRem(i);
    BackwardsStep(Abs(i));
    TableIsSymmetric(Rem10(i));
    TableIsSymmetric(-Rem10(i));
  }

  /** The loop variable after k turns. */
  function Shift(i: int, k: nat): int {
    if k == 0 then i else Quot10(Shift(i, k - 1))
  }

  lemma {:induction false} ShiftFront(i: int, k: nat)
    ensures Shift(i, k + 1) == Shift(Quot10(i), k)
  {
    if k > 0 {
      ShiftFront(i, k - 1);
    }
  }

  /** The k-th character, counted from the last digit, is the remainder of the k-th turn, and the
      variable becomes 0 exactly in the last turn. */
  lemma {:induction false} ShiftDigit(i: int, k: nat)
    requires k < |Backwards(Abs(i))|
    ensures Backwards(Abs(i))[k] == DigitChar(Rem10(Shift(i, k)))
    ensures Shift(i, k + 1) == 0 <==> k + 1 == |Backwards(Abs(i))|
    decreases k
  {
    DigitStep(i);
    ReversedAt(Numeral(Abs(Quot10(i))));
    if k > 0 {
      ShiftDigit(Quot10(i), k - 1);
      ShiftFront(i, k - 1);
      ShiftFront(i, k);
    }
  }

  /** The do-while loop of convert, for an integer type with the range lo..hi: every intermediate
      value stays in the range, also at the minimum, whose negation does not. */
  method WriteDigits(buf: array<char>, at: nat, value: int, lo: int, hi: int) returns (p: nat)
    requires lo <= 0 <= hi && lo <= value <= hi
    requires at + |Backwards(Abs(value))| <= buf.Length
    modifies buf
    ensures p == at + |Backwards(Abs(value))|
    ensures buf[at..p] == Backwards(Abs(value))
    ensures forall k :: 0 <= k < at || p <= k < buf.Length ==> buf[k] == old(buf[k])
  {
    var i := value;
    p := at;
    var more := true;
    ghost var all := Backwards(Abs(value));
    ReversedAt(Numeral(Abs(value)));
    while more
      invariant at <= p <= at + |all|
      invariant lo <= i <= hi && i == Shift(value, p - at)
      invariant more <==> p < at + |all|
      invariant forall k :: at <= k < p ==> buf[k] == all[k - at]
      invariant forall k :: 0 <= k < at || p <= k < buf.Length ==> buf[k] == old(buf[k])
      decreases at + |all| - p
    {
      ShiftDigit(value, p - at);
      QuotRem(i);
      var lsd := Rem10(i);
      i := Quot10(i);
      buf[p] := DigitChar(lsd);
      p := p + 1;
      more := i != 0;
    }
  }

  lemma DecimalIsReversed(value: int)
    ensures Decimal(value) == Reversed(Backwards(Abs(value)) + if value < 0 then "-" else "")
    ensures |Decimal(value)| == |Backwards(Abs(value))| + if value < 0 then 1 else 0
  {
    var written := Backwards(Abs(value));
    ReversedAt(Numeral(Abs(value)));
    ReversedTwice(Numeral(Abs(value)));
    ReversedSnoc(written, '-');
    assert written + "" == written;
  }

  /** The sign and the closing NUL. */
  method CloseText(buf: array<char>, at: nat, end: nat, negative: bool) returns (p: nat)
    requires at <= end && end + (if negative then 1 else 0) < buf.Length
    modifies buf
    ensures p == end + if negative then 1 else 0
    ensures buf[at..p] == old(buf[at..end]) + (if negative then "-" else "") && buf[p] == '\0'
    ensures forall k :: 0 <= k < at || p < k < buf.Length ==> buf[k] == old(buf[k])
  {
    p := end;
    if negative {
      buf[p] := '-';
      p := p + 1;
    }
    buf[p] := '\0';
    assert buf[at..end] == old(buf[at..end]);
  }

  /** convert: the text of the value, in place, closed by a NUL; the rest of the array stays. */
  method Convert(buf: array<char>, at: nat, value: int, lo: int, hi: int) returns (len: nat)
    requires lo <= 0 <= hi && lo <= value <= hi
    requires at + |Decimal(value)| < buf.Length
    modifies buf
    ensures len == |Decimal(value)|
    ensures buf[at..at + len] == Decimal(value) && buf[at + len] == '\0'
    ensures forall k :: 0 <= k < at || at + len < k < buf.Length ==> buf[k] == old(buf[k])
  {
    DecimalIsReversed(value);
    var end := WriteDigits(buf, at, value, lo, hi);
    var p := CloseText(buf, at, end, value < 0);
    Reverse(buf, at, p);
    len := p - at;
  }

  // ---------------------------------------------------------------- the fixed buffer

  function Flat(pieces: seq<string>): string {
    if pieces == [] then "" else Flat(pieces[..|pieces| - 1]) + pieces[|pieces| - 1]
  }

  function Max(a: nat, b: nat): nat {
    if a < b then b else a
  }

  /** FixedBuffer<SIZE>.  bytes is what lies between data_ and cur_, also where cur_ has passed the
      end of the array; pieces records the appends that made it, and reach how far behind data_ anything
      was ever written. */
  class FixedBuffer {
    const size: nat
    var bytes: string
    ghost var pieces: seq<string>
    ghost var reach: nat

    ghost predicate Valid()
      reads this
    {
      bytes == Flat(pieces) && |bytes| <= reach
    }

    /** Nothing was ever written behind the end of the array. */
    ghost predicate Inside()
      reads this
    {
      reach <= size
    }

    constructor (size: nat)
      ensures Valid() && pieces == [] && this.size == size && Inside()
    {
      this.size := size;
      bytes, pieces, reach := "", [], 0;
    }

    /** end() - data_: the size of the array, whatever it holds. */
    function Avail(): nat {
      size
    }

    function Length(): nat
      reads this
    {
      |bytes|
    }

    /** The piece, and this much behind it, has been written at the end. */
    method Add(piece: string, ghost behind: nat)
      requires Valid()
      modifies this
      ensures Valid() && pieces == old(pieces) + [piece] && bytes == old(bytes) + piece
      ensures reach == Max(old(reach), |bytes| + behind)
    {
      bytes, pieces := bytes + piece, pieces + [piece];
      reach := Max(reach, |bytes| + behind);
    }

    method Append(piece: string)
      requires Valid()
      modifies this
      ensures Valid()
      ensures pieces == old(pieces) + if size > |piece| then [piece] else []
      ensures bytes == old(bytes) + if size > |piece| then piece else ""
      ensures Inside() <==> old(Inside()) && (size > |piece| ==> old(|bytes|) + |piece| <= size)
    {
      if Avail() > |piece| {
        Add(piece, 0);
      }
    }

    method Reset()
      modifies this
      ensures Valid() && pieces == [] && Length() == 0
    {
      bytes, pieces := "", [];
    }
  }

  const MAX_NUMERIC_SIZE := 32

  /** formatInteger: the decimal text of v goes to the end of the buffer, converted in a slot of
      kMaxNumbericSize characters.  It stays inside the array if and only if the text and its NUL fit behind
      what is there, which the guard does not look at. */
  method FormatInteger(buffer: FixedBuffer, v: int, lo: int, hi: int)
    requires buffer.Valid()
    requires INT64_MIN <= lo <= 0 <= hi <= UINT64_MAX && lo <= v <= hi
    modifies buffer
    ensures buffer.Valid()
    ensures buffer.bytes == old(buffer.bytes) + if buffer.size >= MAX_NUMERIC_SIZE then Decimal(v) else ""
    ensures buffer.Inside() <==>
            && old(buffer.Inside())
            && (buffer.size >= MAX_NUMERIC_SIZE ==> old(|buffer.bytes|) + |Decimal(v)| + 1 <= buffer.size)
  {
    if buffer.Avail() >= MAX_NUMERIC_SIZE {
      var slot := new char[MAX_NUMERIC_SIZE];
      DecimalLength(v);
      var len := Convert(slot, 0, v, lo, hi);
      assert slot[0..0 + len] == slot[..len];
      buffer.Add(slot[..len], 1);
    }
  }
}
