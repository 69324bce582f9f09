/** The ten-byte length header: a decimal number printed by `snprintf`, read back by `atoi`. */
module Header {
  type Byte = x: int | 0 <= x < 256

  datatype Option<+T> = None | Some(value: T)

  const HEADER_SIZE: nat := 10
  const MORE_TO_COME: nat := 0
  // the largest length whose decimal form leaves room for the terminator
  const MAX_PRINTABLE: nat := 999_999_999

  /** Ten bytes of uninitialised stack memory. */
  type Stale = s: seq<Byte> | |s| == HEADER_SIZE witness [0, 0, 0, 0, 0, 0, 0, 0, 0, 0]

  const MINUS: Byte := '-' as int
  const PLUS: Byte := '+' as int
  const ZERO: Byte := '0' as int
  const NINE: Byte := '9' as int

  predicate IsDigit(b: Byte) { ZERO <= b <= NINE }

  predicate IsSpace(b: Byte) { b == 32 || 9 <= b <= 13 }

  // ---------------------------------------------------------------- printing

  /** The decimal digits of a number, most significant first. */
  function Digits(n: nat): (s: seq<Byte>)
    ensures |s| > 0 && forall i :: 0 <= i < |s| ==> IsDigit(s[i])
  {
    if n < 10 then [ZERO + n] else Digits(n / 10) + [ZERO + n % 10]
  }

  /** The cast `(int)len` of a `size_t`, on a 32-bit two's-complement `int`. */
  function ToInt32(len: nat): (i: int)
    ensures -0x8000_0000 <= i < 0x8000_0000 && (len - i) % 0x1_0000_0000 == 0
  {
    var m := len % 0x1_0000_0000;
    if m < 0x8000_0000 then m else m - 0x1_0000_0000
  }

  function PrintInt(i: int): seq<Byte> {
    if i < 0 then [MINUS] + Digits(-i) else Digits(i)
  }

  /** The header `snprintf` leaves behind: at most nine characters, a terminator, and past it
      whatever bytes the uninitialised local variable held (`stale`). */
  function PrintHeader(len: nat, stale: Stale): (h: seq<Byte>)
    ensures |h| == HEADER_SIZE
  {
    var p := PrintInt(ToInt32(len));
    var kept := if |p| < HEADER_SIZE then p else p[..HEADER_SIZE - 1];
    kept + [0] + stale[|kept| + 1..]
  }

  // ----------------------------------------------------------------- reading

  function SkipSpaces(s: seq<Byte>): (t: seq<Byte>)
    ensures |t| <= |s|
  {
    if s != [] && IsSpace(s[0]) then SkipSpaces(s[1..]) else s
  }

  /** Reads digits up to the first other byte. `None`: the digits run off the end of the field,
      where C reads past the array. */
  function ScanDigits(s: seq<Byte>, acc: nat): Option<nat> {
    if s == [] then None
    else if IsDigit(s[0]) then ScanDigits(s[1..], 10 * acc + (s[0] - ZERO))
    else Some(acc)
  }

  function Atoi(h: seq<Byte>): Option<int> {
    var t := SkipSpaces(h);
    if t == [] then None
    else if t[0] == MINUS then
      var magnitude := ScanDigits(t[1..], 0);
      if magnitude.None? then None else var v: int := magnitude.value; Some(-v)
    else if t[0] == PLUS then ScanDigits(t[1..], 0)
    else ScanDigits(t, 0)
  }

  /** The whole length of a frame as its header announces it. `None` for a header whose reading C
      leaves undefined, or whose negative value wraps around in the unsigned sum. */
  function FrameLen(h: seq<Byte>): (r: Option<nat>)
    ensures r.Some? ==> r.value >= HEADER_SIZE
  {
    match Atoi(h)
    case Some(v) => if v >= 0 then Some(v + HEADER_SIZE) else None
    case None => None
  }

  // -------------------------------------------------------------- round trip

  function Pow10(k: nat): (p: nat)
    ensures p > 0
  {
    if k == 0 then 1 else 10 * Pow10(k - 1)
  }

  lemma {:induction false} DigitsLength(n: nat, k: nat)
    requires 0 < k && n < Pow10(k)
    ensures |Digits(n)| <= k
  {
    if n >= 10 {
      DigitsLength(n / 10, k - 1);
    }
  }

  /** Characters '0' to '9' only. */
  predicate Numeral(s: seq<Byte>) { forall i :: 0 <= i < |s| ==> '0' as int <= s[i] <= '9' as int }

  /** The number a numeral stands for. */
  function Decimal(s: seq<Byte>): nat
    requires Numeral(s)
  {
    if s == [] then 0 else 10 * Decimal(s[..|s| - 1]) + (s[|s| - 1] - '0' as int)
  }

  /** What is printed is the decimal numeral of the number, without leading zeros. */
  lemma {:induction false} DigitsAre(n: nat)
    ensures Numeral(Digits(n)) && Decimal(Digits(n)) == n
    ensures n > 0 ==> Digits(n)[0] != '0' as int
  {
    if n < 10 {
      assert Digits(n)[..0] == [];
    } else {
      DigitsAre(n / 10);
      assert Digits(n)[..|Digits(n)| - 1] == Digits(n / 10);
    }
  }

  /** What is scanned is the number that the leading numeral stands for. */
  lemma {:induction false} NumeralScanned(s: seq<Byte>, rest: seq<Byte>)
    requires Numeral(s)
    ensures ScanDigits(s + rest, 0) == ScanDigits(rest, Decimal(s))
    decreases |s|
  {
    if s == [] {
      assert s + rest == rest;
    } else {
      var most, last := s[..|s| - 1], [s[|s| - 1]];
      assert s + rest == most + (last + rest);
      NumeralScanned(most, last + rest);
      assert (last + rest)[1..] == rest;
    }
  }

  /** `atoi` on any field: after white space and a sign, the leading numeral up to the first character
      that is not a digit; 0 if there is none. A field that ends before that has no defined reading. */
  lemma NumeralRead(s: seq<Byte>, rest: seq<Byte>)
    requires Numeral(s) && (rest == [] || !('0' as int <= rest[0] <= '9' as int))
    requires s == [] ==> rest == [] || rest[0] !in [9, 10, 11, 12, 13, 32, '+' as int, '-' as int]
    ensures var n: Option<int> := if rest == [] then None else Some(Decimal(s));
            && Atoi(s + rest) == n && (s + rest != [] ==> Atoi(['+' as int] + (s + rest)) == n)
            && Atoi(['-' as int] + (s + rest)) == if n.None? then None else Some(-n.value)
  {
    var h := s + rest;
    NumeralScanned(s, rest);
    assert (['+' as int] + h)[1..] == h && (['-' as int] + h)[1..] == h;
    if h != [] { assert h[0] == if s == [] then rest[0] else s[0]; }
  }

  lemma ScanDigitsOf(n: nat, rest: seq<Byte>)
    ensures ScanDigits(Digits(n) + rest, 0) == ScanDigits(rest, n)
  {
    DigitsAre(n);
    NumeralScanned(Digits(n), rest);
  }

  lemma {:induction false} ScanDigitsBound(s: seq<Byte>, acc: nat)
    ensures ScanDigits(s, acc).Some? ==>
              |s| > 0 && ScanDigits(s, acc).value < (acc + 1) * Pow10(|s| - 1)
  {
    if s != [] && IsDigit(s[0]) {
      var next := 10 * acc + (s[0] - ZERO);
      ScanDigitsBound(s[1..], next);
      if |s| > 1 {
        var p := Pow10(|s| - 2);
        assert (next + 1) * p <= (10 * acc + 10) * p == (acc + 1) * (10 * p);
      }
    } else if s != [] {
      assert acc < (acc + 1) * Pow10(|s| - 1) by {
        assert (acc + 1) * 1 <= (acc + 1) * Pow10(|s| - 1);
      }
    }
  }

  lemma {:induction false} Pow10Monotone(j: nat, k: nat)
    requires j <= k
    ensures Pow10(j) <= Pow10(k)
  {
    if j < k { Pow10Monotone(j, k - 1); }
  }

  lemma NineDigits()
    ensures Pow10(9) == MAX_PRINTABLE + 1
  {
    assert Pow10(3) == 1000;
    assert Pow10(6) == 1000 * Pow10(3);
    assert Pow10(9) == 1000 * Pow10(6);
  }

  lemma ScanInHeader(s: seq<Byte>)
    requires |s| <= HEADER_SIZE
    ensures ScanDigits(s, 0).Some? ==> ScanDigits(s, 0).value <= MAX_PRINTABLE
  {
    ScanDigitsBound(s, 0);
    NineDigits();
    if ScanDigits(s, 0).Some? { Pow10Monotone(|s| - 1, 9); }
  }

  /** No header announces more than nine digits of payload. */
  lemma FrameLenBound(h: seq<Byte>)
    requires |h| == HEADER_SIZE
    ensures FrameLen(h).Some? ==> HEADER_SIZE <= FrameLen(h).value <= MAX_PRINTABLE + HEADER_SIZE
  {
    var t := SkipSpaces(h);
    ScanInHeader(t);
    if t != [] { ScanInHeader(t[1..]); }
  }

  /** Reading stops at the terminator, so the stale bytes past it do not matter. */
  lemma PrintedIsRead(len: nat, tail: seq<Byte>)
    ensures Atoi(Digits(len) + [0] + tail) == Some(len)
  {
    var h := Digits(len) + ([0] + tail);
    assert h == Digits(len) + [0] + tail;
    assert h[0] == Digits(len)[0];
    ScanDigitsOf(len, [0] + tail);
  }

  lemma NineDigitsAtMost(len: nat)
    requires len <= MAX_PRINTABLE
    ensures |Digits(len)| <= 9
  {
    NineDigits();
    DigitsLength(len, 9);
  }

  lemma Int32OfSmall(len: nat)
    requires len <= MAX_PRINTABLE
    ensures ToInt32(len) == len
  {
  }

  lemma ShortHeader(len: nat, stale: Stale)
    requires ToInt32(len) == len && |Digits(len)| <= 9
    ensures PrintHeader(len, stale) == Digits(len) + [0] + stale[|Digits(len)| + 1..]
  {
  }

  /** The header survives the trip exactly when the payload length has at most nine digits,
      whatever bytes follow the terminator. */
  lemma HeaderRoundTrip(len: nat, stale: Stale)
    ensures FrameLen(PrintHeader(len, stale)) == Some(len + HEADER_SIZE) <==> len <= MAX_PRINTABLE
  {
    if len <= MAX_PRINTABLE {
      NineDigitsAtMost(len);
      Int32OfSmall(len);
      ShortHeader(len, stale);
      PrintedIsRead(len, stale[|Digits(len)| + 1..]);
    } else {
      FrameLenBound(PrintHeader(len, stale));
    }
  }

  // ------------------------------------------------------- every length, every number

  lemma {:induction false} DigitsAtLeast(n: nat, k: nat)
    requires n >= Pow10(k)
    ensures |Digits(n)| > k
  {
    if k > 0 {
      DigitsAtLeast(n / 10, k - 1);
    }
  }

  /** What is printed is read back, sign included, whatever follows the terminator. */
  lemma PrintedIntIsRead(i: int, tail: seq<Byte>)
    ensures Atoi(PrintInt(i) + [0] + tail) == Some(i)
  {
    if i >= 0 {
      PrintedIsRead(i, tail);
    } else {
      var h := PrintInt(i) + [0] + tail;
      assert h[1..] == Digits(-i) + ([0] + tail);
      ScanDigitsOf(-i, [0] + tail);
    }
  }

  /** Leading white space, as C counts it, does not matter. */
  lemma SpaceSkipped(c: char, h: seq<Byte>)
    requires c in {' ', '\t', '\n', '\r', 11 as char, 12 as char}
    ensures Atoi([c as int] + h) == Atoi(h)
  {
    assert ([c as int] + h)[1..] == h;
  }

  /** Of a number that does not fit, `snprintf` keeps the first nine characters. */
  lemma CutHeader(len: nat, stale: Stale)
    requires |PrintInt(ToInt32(len))| >= HEADER_SIZE
    ensures PrintHeader(len, stale) == PrintInt(ToInt32(len))[..HEADER_SIZE - 1] + [0]
  {
    assert stale[HEADER_SIZE..] == [];
  }

  lemma TenDigits(i: nat)
    requires MAX_PRINTABLE < i < 0x8000_0000
    ensures |Digits(i)| == HEADER_SIZE && Digits(i)[..HEADER_SIZE - 1] == Digits(i / 10)
  {
    NineDigits();
    DigitsLength(i, 10);
    DigitsAtLeast(i, 9);
    assert Digits(i) == Digits(i / 10) + [ZERO + i % 10];
  }

  /** A number cut after its minus sign and some digits, the first of them not zero. */
  lemma {:induction false} ScanGrows(s: seq<Byte>, acc: nat)
    ensures ScanDigits(s, acc).Some? ==> ScanDigits(s, acc).value >= acc
  {
    if s != [] && IsDigit(s[0]) { ScanGrows(s[1..], 10 * acc + (s[0] - ZERO)); }
  }

  lemma NegativeHeader(len: nat, stale: Stale)
    requires ToInt32(len) < 0
    ensures FrameLen(PrintHeader(len, stale)).None?
  {
    var h, m := PrintHeader(len, stale), -ToInt32(len);
    DigitsAre(m);
    assert h[0] == MINUS && h[1] == Digits(m)[0];
    ScanGrows(h[1..][1..], h[1] - ZERO);
  }

  /** What the receiver makes of the header of any message: the `int` cast of its length, of which a
      ten-digit number loses its last digit, and a negative one is no length. */
  lemma AnyHeaderRead(len: nat, stale: Stale)
    ensures var i := ToInt32(len);
            FrameLen(PrintHeader(len, stale))
            == if i < 0 then None else if i <= MAX_PRINTABLE then Some(i + HEADER_SIZE) else Some(i / 10 + HEADER_SIZE)
  {
    var i := ToInt32(len);
    if i < 0 {
      NegativeHeader(len, stale);
    } else if i <= MAX_PRINTABLE {
      NineDigitsAtMost(i);
      PrintedIntIsRead(i, stale[|Digits(i)| + 1..]);
    } else {
      TenDigits(i);
      CutHeader(len, stale);
      PrintedIntIsRead(i / 10, []);
      assert PrintHeader(len, stale) == Digits(i / 10) + [0] + [];
    }
  }
}
