/** Bytes, big-endian numbers, and the growable byte slice that Go's append works on. */
module Bytes {

  type Byte = b: int | 0 <= b < 256

  const U8: int := 0x100
  const U16: int := 0x1_0000
  const U24: int := 0x100_0000
  const U32: int := 0x1_0000_0000
  const U64: int := 0x1_0000_0000_0000_0000

  /** n modulo 2^(8k) as k bytes, most significant first: the effect of the shift-and-truncate
      idioms, of pack('n'), pack('N') and pack('J') and of binary.BigEndian.Put. */
  function BE(n: int, k: nat): (r: seq<Byte>)
    ensures |r| == k
    decreases k
  {
    if k == 0 then [] else BE(n / 256, k - 1) + [n % 256]
  }

  function Pow256(k: nat): (r: int)
    ensures r > 0
  {
    if k == 0 then 1 else 256 * Pow256(k - 1)
  }

  /** The unsigned number that big-endian bytes stand for. */
  function FromBE(b: seq<Byte>): (r: int)
    ensures 0 <= r < Pow256(|b|)
  {
    if b == [] then 0 else FromBE(b[..|b| - 1]) * 256 + b[|b| - 1]
  }

  /** Reading k written bytes back gives the number modulo 2^(8k), also for a negative number. */
  lemma {:induction false} BEModulo(n: int, k: nat)
    ensures FromBE(BE(n, k)) == n % Pow256(k)
    decreases k
  {
    if k > 0 {
      BEModulo(n / 256, k - 1);
      assert BE(n, k)[..k - 1] == BE(n / 256, k - 1);
      ModStep(n / 256, n % 256, Pow256(k - 1));
    }
  }

  lemma ModStep(m: int, r: int, p: int)
    requires 0 <= r < 256 && p > 0
    ensures (256 * m + r) % (256 * p) == 256 * (m % p) + r
  {
    var q := m / p;
    assert 256 * (p * q) == (256 * p) * q;
    ModUnique(256 * m + r, 256 * p, q, 256 * (m % p) + r);
  }

  lemma {:induction false} MulGrows(p: int, d: nat)
    requires p > 0 && d > 0
    ensures p * d >= p
  {
    if d > 1 {
      MulGrows(p, d - 1);
      assert p * d == p * (d - 1) + p;
    }
  }

  lemma ModUnique(x: int, p: int, q: int, r: int)
    requires p > 0 && 0 <= r < p && x == p * q + r
    ensures x % p == r
  {
    var d := x / p - q;
    assert p * d == p * (x / p) - p * q;
    if d > 0 { MulGrows(p, d); }
    if d < 0 { MulGrows(p, -d); }
  }

  lemma {:induction false} FromBERoundTrip(b: seq<Byte>)
    ensures BE(FromBE(b), |b|) == b
  {
    if b != [] {
      var front := b[..|b| - 1];
      FromBERoundTrip(front);
      assert FromBE(b) / 256 == FromBE(front) && FromBE(b) % 256 == b[|b| - 1];
    }
  }

  /** A number that fits comes back unchanged. */
  lemma BERoundTrip(n: int, k: nat)
    requires 0 <= n < Pow256(k)
    ensures FromBE(BE(n, k)) == n
  {
    BEModulo(n, k);
    ModUnique(n, Pow256(k), 0, n);
  }

  lemma Pows()
    ensures Pow256(1) == U8 && Pow256(2) == U16 && Pow256(3) == U24 && Pow256(4) == U32 && Pow256(8) == U64
  {
    assert Pow256(1) == 256 * Pow256(0);
    assert Pow256(5) == 256 * Pow256(4);
    assert Pow256(6) == 256 * Pow256(5);
    assert Pow256(7) == 256 * Pow256(6);
  }
}
