/** Bytes and little-endian numbers. */
module LittleEndian {
  import opened Base

  newtype Byte = n: int | 0 <= n < 256

  function U32Bytes(n: nat): (r: seq<Byte>)
    ensures |r| == 4
  {
    [(n % 256) as Byte, (n / 0x100 % 256) as Byte, (n / 0x1_0000 % 256) as Byte, (n / 0x100_0000 % 256) as Byte]
  }

  function U32From(b: seq<Byte>): (n: nat)
    requires |b| == 4
    ensures n < U32_MODULUS
  {
    b[0] as int + 0x100 * b[1] as int + 0x1_0000 * b[2] as int + 0x100_0000 * b[3] as int
  }

  lemma ByteByByte(n: nat)
    ensures n / 0x1_0000 == n / 0x100 / 0x100 && n / 0x100_0000 == n / 0x100 / 0x100 / 0x100
  {
  }

  lemma FourDigits(n: nat, a: nat, b: nat, c: nat)
    requires a == n / 0x100 && b == a / 0x100 && c == b / 0x100
    ensures n == n % 256 + 0x100 * (a % 256) + 0x1_0000 * (b % 256) + 0x100_0000 * (c % 256) + U32_MODULUS * (c / 256)
  {
  }

  lemma RemainderIs(n: nat, r: nat, k: nat)
    requires n == r + U32_MODULUS * k && r < U32_MODULUS
    ensures AsU32(n) == r
  {
  }

  lemma U32RoundTrip(n: nat)
    ensures U32From(U32Bytes(n)) == AsU32(n)
  {
    ByteByByte(n);
    var a := n / 0x100;
    var b := a / 0x100;
    var c := b / 0x100;
    FourDigits(n, a, b, c);
    RemainderIs(n, U32From(U32Bytes(n)), c / 256);
  }
}
