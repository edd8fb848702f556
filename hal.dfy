/** Machine integers, pin levels and the byte-order helpers the firmware takes
    from its crates (`byteorder`, the CRC-16 of `pruefung`, the GPIO output pins). */
module Hal {

  type u8 = x: int | 0 <= x < 0x100
  type u16 = x: int | 0 <= x < 0x1_0000
  type u32 = x: int | 0 <= x < 0x1_0000_0000

  /** The CRC-16 hasher fed with a byte string and truncated to 16 bits
      (`hasher.finish() as u16`). Its polynomial is not part of this model:
      every operation that hashes takes the checksum as a parameter. */
  type Crc16 = seq<u8> -> u16

  datatype Option<T> = None | Some(value: T)

  /** Unsigned 32-bit multiplication whose operands the caller has shown not to
      overflow (a Rust `u32` product that overflows panics in a debug build). */
  function MulU32(a: u32, b: u32): (p: u32)
    requires a * b < 0x1_0000_0000
    ensures b > 0 ==> p / b == a && p % b == 0
    ensures a > 0 ==> p / a == b && p % a == 0
  {
    ExactQuotient(a, b);
    ExactQuotient(b, a);
    a * b
  }

  /** A product divided by a non-zero factor leaves no remainder and gives
      back the other factor. */
  lemma ExactQuotient(a: nat, b: nat)
    ensures b > 0 ==> (a * b) / b == a && (a * b) % b == 0
  {
    if b > 0 {
      DivisionUnique(a * b, b, a, 0);
    }
  }

  /** Euclidean division has one quotient and one remainder. */
  lemma DivisionUnique(x: nat, b: nat, q: nat, r: nat)
    requires b > 0 && r < b && x == q * b + r
    ensures x / b == q && x % b == r
  {
    var q', r' := x / b, x % b;
    if q' > q {
      MulStep(q' - q - 1, b);
    } else if q' < q {
      MulStep(q - q' - 1, b);
    }
  }

  lemma MulStep(k: nat, b: nat)
    ensures (k + 1) * b >= b
  {
  }

  /** Level of a push-pull output pin (the on-board LED on PC13). */
  datatype Level = Low | High

  /** `x as u8`: keeps the low eight bits. */
  function TruncateU8(x: nat): (r: u8)
    ensures x < 0x100 ==> r == x
    ensures (x - r) % 0x100 == 0
  {
    x % 0x100
  }

  /** `LittleEndian::write_u16`: low byte first. */
  function LeU16(x: u16): (r: seq<u8>)
    ensures |r| == 2
    ensures r[0] as int + 0x100 * r[1] as int == x
  {
    [x % 0x100, x / 0x100]
  }

  /** `BigEndian::write_u16`: high byte first. */
  function BeU16(x: u16): (r: seq<u8>)
    ensures |r| == 2
    ensures 0x100 * r[0] as int + r[1] as int == x
  {
    [x / 0x100, x % 0x100]
  }

  /** `BigEndian::read_u32` of the first four bytes. */
  function ReadBeU32(s: seq<u8>): (x: u32)
    requires |s| >= 4
  {
    ((s[0] as int * 0x100 + s[1]) * 0x100 + s[2]) * 0x100 + s[3]
  }

  /** `BigEndian::write_u32`: most significant byte first. */
  function BeU32(x: u32): (r: seq<u8>)
    ensures |r| == 4
    ensures ReadBeU32(r) == x
  {
    var b0, rest0 := x / 0x100_0000, x % 0x100_0000;
    var b1, rest1 := rest0 / 0x1_0000, rest0 % 0x1_0000;
    var b2, b3 := rest1 / 0x100, rest1 % 0x100;
    [b0, b1, b2, b3]
  }

  /** Reading back any four bytes and writing them again gives the same bytes:
      `BeU32` is a bijection between u32 and four-byte strings. */
  lemma BeU32OfRead(s: seq<u8>)
    requires |s| == 4
    ensures BeU32(ReadBeU32(s)) == s
  {
    var x := ReadBeU32(s);
    var r := BeU32(x);
    var low := (s[1] as int * 0x100 + s[2]) * 0x100 + s[3];
    assert x == s[0] as int * 0x100_0000 + low;
    assert r[0] == s[0];
    var low2 := s[2] as int * 0x100 + s[3];
    assert low == s[1] as int * 0x1_0000 + low2;
    assert r[1] == s[1];
    assert r[2] == s[2] && r[3] == s[3];
  }
}
