/** Machine words: bytes, the limits of wider words, and C ints. */
module Words {

  type Byte = b: int | 0 <= b < 256

  // one more than the largest double word and quad word
  const DWORD: nat := 0x1_0000_0000
  const QWORD: nat := 0x1_0000_0000_0000_0000

  /** The C int of 32 bits that holds the bit pattern of `n`: any number outside its range wraps around. */
  function Int32(n: int): (r: int)
    ensures -0x8000_0000 <= r < 0x8000_0000
    ensures -0x8000_0000 <= n < 0x8000_0000 ==> r == n
  {
    var u := n % DWORD;
    if u < 0x8000_0000 then u else u - DWORD
  }

  function Zeros(n: nat): (z: seq<Byte>)
    ensures |z| == n && forall k :: 0 <= k < n ==> z[k] == 0
  {
    seq(n, _ => 0)
  }

  // ---------------------------------------------------------------- little-endian double words

  function Dword(b: seq<Byte>): (n: nat)
    requires |b| == 4
    ensures n < DWORD
  {
    b[0] as int + 256 * (b[1] as int) + 65536 * (b[2] as int) + 16777216 * (b[3] as int)
  }

  function Split(u: nat): (b: seq<Byte>)
    requires u < DWORD
    ensures |b| == 4
  {
    var v := u / 256;
    var w := v / 256;
    [u % 256, v % 256, w % 256, w / 256]
  }

  /** A C int as it is stored: its two's complement double word. */
  function Bytes(n: int): (b: seq<Byte>)
    ensures |b| == 4
  {
    Split(n % DWORD)
  }

  lemma DwordBytes(n: int)
    requires 0 <= n < DWORD
    ensures Dword(Bytes(n)) == n
  {
    assert n % DWORD == n;
  }

  /** A C int, stored in a DWORD and read back. */
  lemma IntBytes(n: int)
    requires -0x8000_0000 <= n < 0x8000_0000
    ensures Int32(Dword(Bytes(n))) == n
  {
    hide Dword, Split;
    var u := n % DWORD;
    assert u == if n < 0 then n + DWORD else n;
    assert Bytes(u) == Split(u);
    DwordBytes(u);
  }
}
