/** Formatted integer input and output as the C++ streams perform it:
    `is >> n` on an `int` skips white space, takes an optional sign and the
    longest run of decimal digits, and fails when there is no digit or the
    value does not fit in 32 bits; `%d` prints the shortest decimal form. */
module IntText {
  import opened Wrappers

  const INT_MIN: int := -0x8000_0000
  const INT_MAX: int := 0x7fff_ffff

  predicate IsSpace(c: char) {
    c == ' ' || c == '\t' || c == '\n' || c == '\r' || c == '\U{0B}' || c == '\U{0C}'
  }

  predicate IsDigit(c: char) { '0' <= c <= '9' }

  function DigitVal(c: char): nat
    requires IsDigit(c)
  {
    (c as int) - ('0' as int)
  }

  function DigitChar(d: nat): (c: char)
    requires d < 10
    ensures IsDigit(c) && DigitVal(c) == d
  {
    ('0' as int + d) as char
  }

  predicate AllDigits(s: seq<char>) {
    forall i :: 0 <= i < |s| ==> IsDigit(s[i])
  }

  /** Value of a decimal digit string, most significant digit first. */
  function DigitsValue(s: seq<char>): nat
    requires AllDigits(s)
  {
    if |s| == 0 then 0 else DigitsValue(s[..|s| - 1]) * 10 + DigitVal(s[|s| - 1])
  }

  /** The input left after skipping leading white space. */
  function SkipSpace(s: seq<char>): (r: seq<char>)
    ensures |r| <= |s|
    ensures r != [] ==> !IsSpace(r[0])
  {
    if s == [] || !IsSpace(s[0]) then s else SkipSpace(s[1..])
  }

  /** Length of the run of digits at the front of `s`. */
  function DigitRunLen(s: seq<char>): (n: nat)
    ensures n <= |s| && AllDigits(s[..n])
    ensures n < |s| ==> !IsDigit(s[n])
  {
    if s == [] || !IsDigit(s[0]) then 0
    else
      var n := 1 + DigitRunLen(s[1..]);
      assert s[..n] == [s[0]] + s[1..][..n - 1];
      n
  }

  /** A successful integer read: the value and the input left after its last
      digit. The read ran into the end of the input (setting eofbit) exactly
      when nothing is left. */
  datatype IntScan = IntScan(value: int, rest: seq<char>)

  /** The longest run of digits at the front of `s`, if there is one, and
      the input after it. */
  function ScanDigits(s: seq<char>): (r: Option<(nat, seq<char>)>)
    ensures r.Some? ==> |r.value.1| < |s|
    ensures r.Some? && r.value.1 != [] ==> !IsDigit(r.value.1[0])
  {
    var n := DigitRunLen(s);
    if n == 0 then None else Some((DigitsValue(s[..n]), s[n..]))
  }

  /** The read once white space is skipped: an optional sign, then digits. */
  function ScanSigned(q: seq<char>): (r: Option<IntScan>)
    ensures r.Some? ==> |r.value.rest| < |q|
    ensures r.Some? ==> INT_MIN <= r.value.value <= INT_MAX
    ensures r.Some? && r.value.rest != [] ==> !IsDigit(r.value.rest[0])
  {
    if q == [] then None
    else
      var body := if q[0] == '-' || q[0] == '+' then q[1..] else q;
      match ScanDigits(body)
      case None => None
      case Some((m, rest)) =>
        var mag: int := m;
        var v := if q[0] == '-' then -mag else mag;
        if v < INT_MIN || v > INT_MAX then None
        else Some(IntScan(v, rest))
  }

  function ScanInt(s: seq<char>): (r: Option<IntScan>)
    ensures r.Some? ==> |r.value.rest| < |s|
    ensures r.Some? ==> INT_MIN <= r.value.value <= INT_MAX
    ensures r.Some? && r.value.rest != [] ==> !IsDigit(r.value.rest[0])
  {
    ScanSigned(SkipSpace(s))
  }

  /** The value `is >> n` leaves in `n` when white space is skipped and
      something is left (C++11 `num_get`): the number read on success, 0
      when no digit follows the optional sign, and `INT_MIN` or `INT_MAX`,
      by sign, when the digits do not fit. At the end of the input the read
      fails before it starts and `n` keeps whatever it held: `None`. */
  function StoredInt(s: seq<char>): (r: Option<int>)
    ensures r.None? <==> SkipSpace(s) == []
    ensures r.Some? ==> INT_MIN <= r.value <= INT_MAX
    ensures ScanInt(s).Some? ==> r == Some(ScanInt(s).value.value)
    ensures r.Some? && ScanInt(s).None? ==> r.value == 0 || r.value == INT_MIN || r.value == INT_MAX
  {
    var q := SkipSpace(s);
    if q == [] then None
    else
      var body := if q[0] == '-' || q[0] == '+' then q[1..] else q;
      var n := DigitRunLen(body);
      if n == 0 then Some(0)
      else
        var mag: int := DigitsValue(body[..n]);
        var v := if q[0] == '-' then -mag else mag;
        Some(if v < INT_MIN then INT_MIN else if v > INT_MAX then INT_MAX else v)
  }

  /** A read that meets neither a sign nor a digit fails and stores 0. */
  lemma StoredIntNoDigits(s: seq<char>)
    requires s != [] && !IsSpace(s[0]) && !IsDigit(s[0]) && s[0] != '-' && s[0] != '+'
    ensures ScanInt(s).None? && StoredInt(s) == Some(0)
  {
    assert SkipSpace(s) == s;
  }

  /** Digits whose value exceeds `INT_MAX` fail the read and store
      `INT_MAX`. */
  lemma StoredIntTooLarge(digits: seq<char>, tail: seq<char>)
    requires |digits| > 0 && AllDigits(digits) && DigitsValue(digits) > INT_MAX
    requires tail == [] || !IsDigit(tail[0])
    ensures ScanInt(digits + tail).None? && StoredInt(digits + tail) == Some(INT_MAX)
  {
    var t := digits + tail;
    assert t[0] == digits[0] && IsDigit(t[0]);
    assert SkipSpace(t) == t;
    DigitRunOfShown(digits, tail);
    assert t[..|digits|] == digits;
  }

  /** Decimal digits of a natural number, without leading zeros. */
  function NatDigits(n: nat): (s: seq<char>)
    ensures |s| > 0 && AllDigits(s)
    ensures DigitsValue(s) == n
    ensures n > 0 ==> s[0] != '0'
  {
    if n < 10 then [DigitChar(n)]
    else
      var s := NatDigits(n / 10) + [DigitChar(n % 10)];
      assert s[..|s| - 1] == NatDigits(n / 10);
      s
  }

  /** `%d` / `operator<<` on an integer. */
  function Show(n: int): (s: string)
    ensures |s| > 0 && (s[0] == '-' || IsDigit(s[0]))
  {
    if n < 0 then "-" + NatDigits(-n) else NatDigits(n)
  }

  lemma DigitRunOfShown(s: seq<char>, tail: seq<char>)
    requires AllDigits(s)
    requires tail == [] || !IsDigit(tail[0])
    ensures DigitRunLen(s + tail) == |s|
  {
    if |s| > 0 {
      assert (s + tail)[1..] == s[1..] + tail;
      DigitRunOfShown(s[1..], tail);
    }
  }

  /** Reading back what `Show` printed yields the same number and stops right
      after it whenever no digit follows. */
  lemma ScanDigitsShown(digits: seq<char>, tail: seq<char>)
    requires |digits| > 0 && AllDigits(digits)
    requires tail == [] || !IsDigit(tail[0])
    ensures ScanDigits(digits + tail) == Some((DigitsValue(digits), tail))
  {
    var body := digits + tail;
    DigitRunOfShown(digits, tail);
    assert body[..|digits|] == digits;
    assert body[|digits|..] == tail;
  }

  lemma ScanShowNeg(n: int, tail: seq<char>)
    requires INT_MIN <= n < 0
    requires tail == [] || !IsDigit(tail[0])
    ensures ScanSigned(Show(n) + tail) == Some(IntScan(n, tail))
  {
    var t := Show(n) + tail;
    var digits := NatDigits(-n);
    var body := digits + tail;
    ScanDigitsShown(digits, tail);
    assert t == ['-'] + body;
    assert t[1..] == body;
  }

  lemma ScanShowNonNeg(n: int, tail: seq<char>)
    requires 0 <= n <= INT_MAX
    requires tail == [] || !IsDigit(tail[0])
    ensures ScanSigned(Show(n) + tail) == Some(IntScan(n, tail))
  {
    var digits := NatDigits(n);
    ScanDigitsShown(digits, tail);
    assert IsDigit(digits[0]);
  }

  lemma ScanShow(n: int, tail: seq<char>)
    requires INT_MIN <= n <= INT_MAX
    requires tail == [] || !IsDigit(tail[0])
    ensures ScanInt(Show(n) + tail) == Some(IntScan(n, tail))
  {
    var t := Show(n) + tail;
    assert !IsSpace(t[0]);
    if n < 0 {
      ScanShowNeg(n, tail);
    } else {
      ScanShowNonNeg(n, tail);
    }
  }

  /** White space in front of a read is skipped. */
  lemma {:induction false} SkipSpacePrefix(ws: seq<char>, s: seq<char>)
    requires forall k :: 0 <= k < |ws| ==> IsSpace(ws[k])
    requires s == [] || !IsSpace(s[0])
    ensures SkipSpace(ws + s) == s
    decreases |ws|
  {
    if ws == [] {
      assert ws + s == s;
    } else {
      var t := ws + s;
      assert t[0] == ws[0] && IsSpace(t[0]);
      assert t[1..] == ws[1..] + s;
      SkipSpacePrefix(ws[1..], s);
    }
  }

  lemma ScanAfterSpace(ws: seq<char>, s: seq<char>)
    requires forall k :: 0 <= k < |ws| ==> IsSpace(ws[k])
    requires s == [] || !IsSpace(s[0])
    ensures ScanInt(ws + s) == ScanInt(s)
  {
    SkipSpacePrefix(ws, s);
    SkipSpacePrefix([], s);
    assert [] + s == s;
    assert SkipSpace(ws + s) == SkipSpace(s);
  }

  /** `" " + Show(n)` reads back as `n`. */
  lemma ScanSpacedShow(n: int, tail: seq<char>)
    requires INT_MIN <= n <= INT_MAX
    requires tail == [] || !IsDigit(tail[0])
    ensures ScanInt(" " + Show(n) + tail) == Some(IntScan(n, tail))
  {
    assert " " + Show(n) + tail == " " + (Show(n) + tail);
    ScanAfterSpace(" ", Show(n) + tail);
    ScanShow(n, tail);
  }
}
