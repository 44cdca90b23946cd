/** Java's 32-bit `int`, its `byte`, and the big-endian layout `ByteBuffer.putInt`/`getInt` use. */
module JavaInt {

  /** A Java `int` as its two's-complement bit pattern: `+` on it wraps exactly as Java's does. */
  type Int32 = bv32

  /** One byte of a Java `byte[]`, read as unsigned. */
  newtype Byte = b: int | 0 <= b < 0x100

  /** A Java `byte[]`. */
  type Bytes = seq<Byte>

  /** `Integer.MAX_VALUE`. */
  const MaxInt: int := 0x7FFF_FFFF

  /** Java's `n + 1` on an `int`: wraps from `Integer.MAX_VALUE` to `Integer.MIN_VALUE`. */
  function Succ(n: Int32): Int32 {
    n + 1
  }

  /** Distinct nonces have distinct successors, so an echo `n + 1` names exactly one `n`. */
  lemma SuccInjective(a: Int32, b: Int32)
    ensures Succ(a) == Succ(b) <==> a == b
  {
  }

  /** `ByteBuffer.putInt(n)` for a non-negative `int` `n`, in the buffer's default big-endian order. */
  function BigEndian(n: nat): (b: Bytes)
    requires n <= MaxInt
    ensures |b| == 4
  {
    [(n / 0x100_0000) as Byte, (n / 0x1_0000 % 0x100) as Byte, (n / 0x100 % 0x100) as Byte, (n % 0x100) as Byte]
  }

  /** `ByteBuffer.getInt()` in big-endian order: the signed value of four bytes. */
  function FromBigEndian(b: Bytes): (n: int)
    requires |b| == 4
    ensures -MaxInt - 1 <= n <= MaxInt
    ensures n < 0 <==> b[0] >= 0x80
  {
    var u := b[0] as int * 0x100_0000 + b[1] as int * 0x1_0000 + b[2] as int * 0x100 + b[3] as int;
    if u > MaxInt then u - 0x1_0000_0000 else u
  }

  /** A length written with `putInt` reads back with `getInt` unchanged. */
  lemma BigEndianRoundTrip(n: nat)
    requires n <= MaxInt
    ensures FromBigEndian(BigEndian(n)) == n
  {
    var b := BigEndian(n);
    assert n / 0x1_0000 / 0x100 == n / 0x100_0000;
    assert n / 0x100 / 0x100 == n / 0x1_0000;
    assert n / 0x1_0000 == b[0] as int * 0x100 + b[1] as int;
    assert n / 0x100 == (b[0] as int * 0x100 + b[1] as int) * 0x100 + b[2] as int;
    assert n == ((b[0] as int * 0x100 + b[1] as int) * 0x100 + b[2] as int) * 0x100 + b[3] as int;
  }

  /** Four bytes that `getInt` reads as a non-negative length are the ones `putInt` writes for it. */
  lemma FromBigEndianRoundTrip(b: Bytes)
    requires |b| == 4 && FromBigEndian(b) >= 0
    ensures BigEndian(FromBigEndian(b)) == b
  {
    var low := b[1] as int * 0x1_0000 + b[2] as int * 0x100 + b[3] as int;
    var n := FromBigEndian(b);
    assert n == b[0] as int * 0x100_0000 + low && 0 <= low < 0x100_0000;
    assert n / 0x100_0000 == b[0] as int;
    assert n / 0x1_0000 == b[0] as int * 0x100 + b[1] as int;
    assert n / 0x100 == b[0] as int * 0x1_0000 + b[1] as int * 0x100 + b[2] as int;
  }
}
