/** Octets, options and the fixed-width integers that the programs copy in and out of buffers. */
module Bytes {
  type byte = x: int | 0 <= x < 256
  type Bytes = seq<byte>

  datatype Option<+T> = None | Some(value: T)

  const TWO31: int := 0x8000_0000
  const TWO32: int := 0x1_0000_0000
  const TWO64: int := 0x1_0000_0000_0000_0000

  predicate IsInt32(n: int) { -TWO31 <= n < TWO31 }

  /** The low 32 bits of n, read as a two's complement int. */
  function ToInt32(n: int): (r: int)
    ensures IsInt32(r)
    ensures IsInt32(n) ==> r == n
  {
    var m := n % TWO32;
    if m < TWO31 then m else m - TWO32
  }

  /** A signed value sign-extended to 64 bits, as an unsigned number. */
  function SignExtend64(n: int): (u: nat)
    requires IsInt32(n)
    ensures u < TWO64
  {
    if n < 0 then n + TWO64 else n
  }

  lemma SignExtendRoundTrip(n: int)
    requires IsInt32(n)
    ensures ToInt32(SignExtend64(n)) == n
  {
    if n < 0 {
      assert SignExtend64(n) == (TWO32 - 1) * TWO32 + (n + TWO32);
    }
  }

  /** The four octets of a 32-bit word, least significant first (memcpy of an int). */
  function LittleEndian32(v: nat): (b: Bytes)
    requires v < TWO32
    ensures |b| == 4
  {
    [v % 256, v / 256 % 256, v / 65536 % 256, v / 16777216]
  }

  function FromLittleEndian32(b: Bytes): (v: nat)
    requires |b| == 4
    ensures v < TWO32
  {
    b[0] as int + 256 * (b[1] as int) + 65536 * (b[2] as int) + 16777216 * (b[3] as int)
  }

  /** The four octets of a 32-bit word, most significant first (htonl). */
  function BigEndian32(v: nat): (b: Bytes)
    requires v < TWO32
    ensures |b| == 4
  {
    [v / 16777216, v / 65536 % 256, v / 256 % 256, v % 256]
  }

  function FromBigEndian32(b: Bytes): (v: nat)
    requires |b| == 4
    ensures v < TWO32
  {
    16777216 * (b[0] as int) + 65536 * (b[1] as int) + 256 * (b[2] as int) + b[3] as int
  }

  lemma Word32RoundTrip(v: nat)
    requires v < TWO32
    ensures FromLittleEndian32(LittleEndian32(v)) == v
    ensures FromBigEndian32(BigEndian32(v)) == v
  {
    assert v / 256 / 256 == v / 65536;
    assert v / 65536 / 256 == v / 16777216;
  }

  /** What each octet of a word weighs: the last one least in network order, the first one in memory. */
  lemma OctetWeights(v: nat)
    requires v < TWO32
    ensures var b := BigEndian32(v);
            16777216 * (b[0] as int) + 65536 * (b[1] as int) + 256 * (b[2] as int) + b[3] as int == v
    ensures var b := LittleEndian32(v);
            b[0] as int + 256 * (b[1] as int) + 65536 * (b[2] as int) + 16777216 * (b[3] as int) == v
  {
    Word32RoundTrip(v);
  }

  lemma WordAt(d: Bytes, at: nat, v: nat)
    requires v < TWO32 && at + 4 <= |d| && d[at..at + 4] == LittleEndian32(v)
    ensures d[at] as int + 256 * (d[at + 1] as int) + 65536 * (d[at + 2] as int) + 16777216 * (d[at + 3] as int) == v
  {
    OctetWeights(v);
    var w := d[at..at + 4];
    assert w[0] == d[at] && w[1] == d[at + 1] && w[2] == d[at + 2] && w[3] == d[at + 3];
    hide LittleEndian32;
  }

  /** The C string starting at b: everything before the first zero octet. */
  function CString(b: Bytes): (c: Bytes)
    ensures 0 !in c
    ensures c <= b
    ensures 0 !in b ==> c == b
  {
    if b == [] || b[0] == 0 then [] else [b[0]] + CString(b[1..])
  }

  /** A C string that is not all of b ends at a zero octet. */
  lemma {:induction false} CStringEndsAtZero(b: Bytes)
    ensures |CString(b)| < |b| ==> b[|CString(b)|] == 0
    decreases |b|
  {
    if b != [] && b[0] != 0 { CStringEndsAtZero(b[1..]); }
  }

  /** Slices of four parts put together. */
  lemma FourParts(a: Bytes, b: Bytes, c: Bytes, d: Bytes)
    requires |a| == 4 && |c| == 4
    ensures var all := a + b + c + d;
            && all[..4] == a && all[4..4 + |b|] == b
            && all[4 + |b|..8 + |b|] == c && all[8 + |b|..8 + |b| + |d|] == d
  {
  }
}
