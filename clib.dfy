/**
 * Fixed-width C integer types and the few C library routines the modem
 * driver and the sample rely on: `strlen`, `atoi` (decimal digits only),
 * `strncpy`, and the implicit integer conversions of C.
 */
module CLib {

  type uint8 = x: int | 0 <= x < 0x100
  type uint16 = x: int | 0 <= x < 0x1_0000
  type uint32 = x: int | 0 <= x < 0x1_0000_0000
  type int32 = x: int | -0x8000_0000 <= x < 0x8000_0000

  /** The contents of a `char` buffer, one byte per element. */
  type Bytes = seq<uint8>

  const Nul: uint8 := 0
  const AsciiZero: uint8 := 48   // '0'

  /** Conversion of an integer to `uint8_t`: reduction modulo 2^8. */
  function ToUint8(x: int): (r: uint8)
    ensures (x - r) % 0x100 == 0
  {
    x % 0x100
  }

  /** Conversion of an integer to `uint32_t`: reduction modulo 2^32. */
  function ToUint32(x: int): (r: uint32)
    ensures (x - r) % 0x1_0000_0000 == 0
  {
    x % 0x1_0000_0000
  }

  /**
   * Conversion of an `int` to `size_t` on the 32-bit targets the sample
   * runs on: the usual arithmetic conversions turn a negative value into
   * a large unsigned one.
   */
  function ToSizeT(x: int32): (r: uint32)
    ensures x >= 0 ==> r == x
    ensures x < 0 ==> r >= 0x8000_0000
  {
    if x >= 0 then x else x + 0x1_0000_0000
  }

  /**
   * The `&` of two unsigned values, taken bit by bit from the least
   * significant; the result has no bit either operand lacks.
   */
  function BitAnd(a: nat, b: nat): (r: nat)
    ensures r <= a && r <= b
    decreases a
  {
    if a == 0 || b == 0 then 0
    else 2 * BitAnd(a / 2, b / 2) + (if a % 2 == 1 && b % 2 == 1 then 1 else 0)
  }

  /** A mask made of low one bits only: 0, 1, 3, 7, ..., 0xFF, ... */
  predicate LowOnes(m: nat)
    decreases m
  {
    m == 0 || (m % 2 == 1 && LowOnes(m / 2))
  }

  /** Masking with m low one bits keeps the value modulo m + 1: `x & 0xFF` is `x % 256`. */
  lemma {:induction false} BitAndLowOnes(a: nat, m: nat)
    requires LowOnes(m)
    ensures BitAnd(a, m) == a % (m + 1)
    decreases m
  {
    if a > 0 && m > 0 {
      var p := m / 2 + 1;
      BitAndLowOnes(a / 2, m / 2);
      assert BitAnd(a, m) == 2 * ((a / 2) % p) + a % 2;
      HalvingModulus(a, p);
      assert m + 1 == 2 * p;
    } else if a == 0 {
      ModUnique(a, m + 1, 0, 0);
    } else {
      ModUnique(a, 1, a, 0);
    }
  }

  /** A value written as q multiples of n plus a remainder in range has that remainder modulo n. */
  lemma ModUnique(a: int, n: int, q: int, r: int)
    requires n > 0 && a == n * q + r && 0 <= r < n
    ensures a % n == r
  {
    var q', r' := a / n, a % n;
    assert a == n * q' + r';
    var k := q - q';
    assert n * k == n * q - n * q';
    assert n * k == r' - r;
  }

  /** Reducing modulo 2p is halving modulo p and putting the low bit back. */
  lemma HalvingModulus(a: nat, p: nat)
    requires p >= 1
    ensures a % (2 * p) == 2 * ((a / 2) % p) + a % 2
  {
    var h := a / 2;
    var q, r := h / p, h % p;
    assert h == p * q + r;
    assert a == 2 * h + a % 2;
    assert a == (2 * p) * q + (2 * r + a % 2);
    ModUnique(a, 2 * p, q, 2 * r + a % 2);
  }

  predicate IsDigit(b: uint8) {
    AsciiZero <= b <= AsciiZero + 9
  }

  /** `strlen`: the index of the first NUL byte, or the whole length when there is none. */
  function Strlen(s: Bytes): (n: nat)
    ensures n <= |s|
    ensures forall i :: 0 <= i < n ==> s[i] != Nul
    ensures n < |s| ==> s[n] == Nul
  {
    if s == [] || s[0] == Nul then 0 else 1 + Strlen(s[1..])
  }

  /** The C string a buffer holds: the bytes before its first NUL. */
  function CString(buf: Bytes): Bytes {
    buf[..Strlen(buf)]
  }

  /** A NUL at index k, with no NUL before it, makes k the length of the string. */
  lemma {:induction false} StrlenAt(s: Bytes, k: nat)
    requires k < |s| && s[k] == Nul
    requires forall i :: 0 <= i < k ==> s[i] != Nul
    ensures Strlen(s) == k
  {
    if k > 0 {
      StrlenAt(s[1..], k - 1);
    }
  }

  /** The length of the run of decimal digits a string starts with. */
  function DigitPrefix(s: Bytes): (n: nat)
    ensures n <= |s|
    ensures forall i :: 0 <= i < n ==> IsDigit(s[i])
    ensures n < |s| ==> !IsDigit(s[n])
  {
    if s == [] || !IsDigit(s[0]) then 0 else 1 + DigitPrefix(s[1..])
  }

  predicate AllDigits(d: Bytes) {
    forall i :: 0 <= i < |d| ==> IsDigit(d[i])
  }

  /** The number a string of decimal digits denotes, most significant first. */
  function DecimalValue(d: Bytes): nat
    requires AllDigits(d)
  {
    if d == [] then 0 else 10 * DecimalValue(d[..|d| - 1]) + (d[|d| - 1] - AsciiZero)
  }

  /**
   * `atoi` restricted to strings without leading white space or sign: the
   * value of the leading run of decimal digits, 0 when there is none.
   */
  function Atoi(s: Bytes): (r: nat)
    ensures s == [] || !IsDigit(s[0]) ==> r == 0
    ensures AllDigits(s) ==> r == DecimalValue(s)
  {
    assert AllDigits(s) ==> DigitPrefix(s) == |s| && s[..|s|] == s;
    DecimalValue(s[..DigitPrefix(s)])
  }

  /** `atoi` followed by the implicit conversion to a `uint8_t` field. */
  function AtoiUint8(s: Bytes): (r: uint8)
    ensures Atoi(s) < 0x100 ==> r == Atoi(s)
  {
    ToUint8(Atoi(s))
  }

  /** The decimal rendering of a natural number, without leading zeros. */
  function Decimal(n: nat): (r: Bytes)
    ensures |r| > 0 && AllDigits(r)
    decreases n
  {
    if n < 10 then [AsciiZero + n] else Decimal(n / 10) + [AsciiZero + n % 10]
  }

  lemma {:induction false} DecimalValueOfDecimal(n: nat)
    ensures DecimalValue(Decimal(n)) == n
    decreases n
  {
    if n >= 10 {
      var d := Decimal(n);
      assert d[..|d| - 1] == Decimal(n / 10);
      DecimalValueOfDecimal(n / 10);
    }
  }

  /**
   * `atoi` reads back every number written in decimal, alone or followed by
   * the NUL terminator and any bytes after it.
   */
  lemma AtoiOfDecimal(n: nat, tail: Bytes)
    ensures Atoi(Decimal(n)) == n
    ensures Atoi(Decimal(n) + [Nul] + tail) == n
  {
    var d := Decimal(n);
    var s := d + [Nul] + tail;
    assert DigitPrefix(d) == |d|;
    assert d[..|d|] == d;
    assert s[|d|] == Nul;
    assert s[..|d|] == d;
    DecimalValueOfDecimal(n);
  }

  /**
   * A field that fits in a `uint8_t` survives rendering and parsing
   * unchanged, alone or followed by the NUL terminator and any bytes.
   */
  lemma AtoiUint8OfDecimal(n: nat, tail: Bytes)
    requires n < 0x100
    ensures AtoiUint8(Decimal(n)) == n
    ensures AtoiUint8(Decimal(n) + [Nul] + tail) == n
  {
    AtoiOfDecimal(n, tail);
  }

  /**
   * `strncpy(dest, src, n)`: the first n bytes of dest receive src up to its
   * terminator and are then padded with NUL; the bytes from n on keep their value.
   */
  function Strncpy(dest: Bytes, src: Bytes, n: nat): (r: Bytes)
    requires n <= |dest|
    ensures |r| == |dest|
    ensures r[n..] == dest[n..]
  {
    seq(|dest|, i requires 0 <= i < |dest| => StrncpyByte(dest, src, n, i))
  }

  /** The byte strncpy leaves at index i of the destination. */
  function StrncpyByte(dest: Bytes, src: Bytes, n: nat, i: nat): uint8
    requires i < |dest|
  {
    if i < n then (if i < Strlen(src) then src[i] else Nul) else dest[i]
  }

  /**
   * When the byte at index n of the destination is a NUL that strncpy does
   * not touch, the destination afterwards holds src truncated to n bytes.
   */
  lemma StrncpyReadsBack(dest: Bytes, src: Bytes, n: nat)
    requires n < |dest| && dest[n] == Nul
    ensures CString(Strncpy(dest, src, n)) == CString(src)[..if Strlen(src) < n then Strlen(src) else n]
  {
    var r := Strncpy(dest, src, n);
    var k := if Strlen(src) < n then Strlen(src) else n;
    assert r[k] == Nul;
    StrlenAt(r, k);
  }
}
