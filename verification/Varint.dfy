/** Zig-zag variable-length integers (avro/devices/avro/io.py, read_long and write_long). */
module Varint {
  import opened Basics

  const INT_MIN := -0x8000_0000
  const INT_MAX := 0x7fff_ffff
  const LONG_MIN := -0x8000_0000_0000_0000
  const LONG_MAX := 0x7fff_ffff_ffff_ffff

  /** Maps 0, -1, 1, -2, ... to 0, 1, 2, 3, ... */
  function ZigZag(n: int): nat {
    if n >= 0 then 2 * n else -2 * n - 1
  }

  function UnZigZag(z: nat): int {
    if z % 2 == 0 then z / 2 else -(z / 2) - 1
  }

  /** Base-128 digits, least significant first; every byte but the last has its high bit set. */
  function Digits(z: nat): (bs: seq<byte>)
    ensures |bs| > 0
  {
    if z < 128 then [z] else [z % 128 + 128] + Digits(z / 128)
  }

  function ReadDigits(bs: seq<byte>): (r: Parsed<nat>)
    ensures r.Success? ==> |r.value.1| < |bs| && r.value.1 == bs[|bs| - |r.value.1|..]
  {
    if bs == [] then Failure(EndOfInput)
    else if bs[0] < 128 then Success((bs[0], bs[1..]))
    else
      var (z, rest) :- ReadDigits(bs[1..]);
      Success((bs[0] % 128 + 128 * z, rest))
  }

  /** The encoding the Avro specification gives an int or long. */
  function Long(n: int): (bs: seq<byte>)
    ensures |bs| > 0
  {
    Digits(ZigZag(n))
  }

  function ReadLong(bs: seq<byte>): (r: Parsed<int>)
    ensures r.Success? ==> |r.value.1| < |bs| && r.value.1 == bs[|bs| - |r.value.1|..]
  {
    var (z, rest) :- ReadDigits(bs);
    Success((UnZigZag(z), rest))
  }

  function Pow128(k: nat): (p: nat)
    ensures p > 0
  {
    if k == 0 then 1 else 128 * Pow128(k - 1)
  }

  lemma {:induction false} DigitsRoundTrip(z: nat, suffix: seq<byte>)
    ensures ReadDigits(Digits(z) + suffix) == Success((z, suffix))
  {
    if z < 128 {
      assert ([z] + suffix)[1..] == suffix;
    } else {
      var bs := Digits(z) + suffix;
      assert bs[1..] == Digits(z / 128) + suffix;
      DigitsRoundTrip(z / 128, suffix);
      assert bs[0] == z % 128 + 128;
    }
  }

  lemma LongRoundTrip(n: int, suffix: seq<byte>)
    ensures ReadLong(Long(n) + suffix) == Success((n, suffix))
  {
    DigitsRoundTrip(ZigZag(n), suffix);
    assert UnZigZag(ZigZag(n)) == n;
  }

  /** No encoding is a proper prefix of another, so a stream of longs splits in one way only. */
  lemma LongPrefixFree(a: int, b: int)
    requires Long(a) <= Long(b)
    ensures a == b
  {
    var tail := Long(b)[|Long(a)|..];
    assert Long(a) + tail == Long(b) + [];
    LongRoundTrip(a, tail);
    LongRoundTrip(b, []);
  }

  lemma {:induction false} DigitsLength(z: nat, k: nat)
    ensures |Digits(z)| <= k + 1 <==> z < Pow128(k + 1)
    decreases k
  {
    assert Pow128(k + 1) == 128 * Pow128(k);
    if k > 0 && z >= 128 {
      DigitsLength(z / 128, k - 1);
    }
  }

  lemma {:induction false} ReadDigitsBound(bs: seq<byte>)
    requires ReadDigits(bs).Success?
    ensures var (z, rest) := ReadDigits(bs).value; z < Pow128(|bs| - |rest|)
  {
    if bs[0] < 128 {
      assert Pow128(1) == 128 * Pow128(0);
    } else {
      ReadDigitsBound(bs[1..]);
      var (z, rest) := ReadDigits(bs[1..]).value;
      assert Pow128(|bs| - |rest|) == 128 * Pow128(|bs[1..]| - |rest|);
    }
  }

  /** Of all byte strings that decode to n, the one written is the shortest. */
  lemma LongIsShortest(bs: seq<byte>, n: int)
    requires ReadLong(bs).Success? && ReadLong(bs).value.0 == n
    ensures |Long(n)| <= |bs| - |ReadLong(bs).value.1|
  {
    ReadDigitsBound(bs);
    var (z, rest) := ReadDigits(bs).value;
    assert ZigZag(UnZigZag(z)) == z;
    DigitsLength(z, |bs| - |rest| - 1);
  }

  /** Ten bytes hold every 64-bit value and five every 32-bit value, and no fewer would do. */
  lemma LongWidth(n: int)
    ensures LONG_MIN <= n <= LONG_MAX ==> |Long(n)| <= 10
    ensures INT_MIN <= n <= INT_MAX ==> |Long(n)| <= 5
    ensures |Long(LONG_MIN)| == |Long(LONG_MAX)| == 10
    ensures |Long(INT_MIN)| == |Long(INT_MAX)| == 5
  {
    assert Pow128(5) == 0x8_0000_0000 by { Pow128Values(); }
    assert Pow128(4) == 0x1000_0000 by { Pow128Values(); }
    assert Pow128(9) == 0x8000_0000_0000_0000 by { Pow128Values(); }
    assert Pow128(10) == 0x40_0000_0000_0000_0000 by { Pow128Values(); }
    DigitsLength(ZigZag(n), 4);
    DigitsLength(ZigZag(n), 9);
    DigitsLength(ZigZag(LONG_MIN), 8);
    DigitsLength(ZigZag(LONG_MAX), 8);
    DigitsLength(ZigZag(LONG_MIN), 9);
    DigitsLength(ZigZag(LONG_MAX), 9);
    DigitsLength(ZigZag(INT_MIN), 3);
    DigitsLength(ZigZag(INT_MAX), 3);
    DigitsLength(ZigZag(INT_MIN), 4);
    DigitsLength(ZigZag(INT_MAX), 4);
  }

  lemma Pow128Values()
    ensures Pow128(4) == 0x1000_0000 && Pow128(5) == 0x8_0000_0000
    ensures Pow128(9) == 0x8000_0000_0000_0000 && Pow128(10) == 0x40_0000_0000_0000_0000
  {
    assert Pow128(2) == 0x4000;
    assert Pow128(4) == 128 * (128 * Pow128(2));
    assert Pow128(6) == 128 * (128 * Pow128(4));
    assert Pow128(8) == 128 * (128 * Pow128(6));
    assert Pow128(9) == 128 * Pow128(8);
  }

  /** Numbers alternate in sign, and one further from zero never comes before one nearer. */
  lemma ZigZagOrder(m: int, n: int)
    ensures ZigZag(0) == 0 && (ZigZag(n) % 2 == 0 <==> n >= 0)
    ensures n > 0 ==> ZigZag(n) == ZigZag(-n) + 1
    ensures n >= 0 && m >= 0 && m < n ==> ZigZag(m) < ZigZag(-n)
  {
  }

  /** The table of the "Binary Encoding" section of the Avro specification, and the widest values. */
  lemma SpecificationTable()
    ensures Long(0) == [0x00] && Long(-1) == [0x01] && Long(1) == [0x02] && Long(-2) == [0x03] && Long(2) == [0x04]
    ensures Long(-64) == [0x7f] && Long(64) == [0x80, 0x01]
    ensures Long(INT_MAX) == [0xfe, 0xff, 0xff, 0xff, 0x0f] && Long(INT_MIN) == [0xff, 0xff, 0xff, 0xff, 0x0f]
  {
    assert Digits(128) == [128] + Digits(1);
    FiveDigits(0xffff_fffe, 0x7e);
    FiveDigits(0xffff_ffff, 0x7f);
  }

  lemma FiveDigits(z: nat, low: nat)
    requires low < 128 && z == 0xffff_ff80 + low
    ensures Digits(z) == [low + 128, 0xff, 0xff, 0xff, 0x0f]
  {
    assert Digits(0xf) == [0x0f];
    assert Digits(0x7ff) == [0xff] + Digits(0xf);
    assert Digits(0x3_ffff) == [0xff] + Digits(0x7ff);
    assert Digits(0x1ff_ffff) == [0xff] + Digits(0x3_ffff);
    assert Digits(z) == [low + 128] + Digits(0x1ff_ffff);
  }
}
