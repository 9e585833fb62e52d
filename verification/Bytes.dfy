/** Bytes as the wire carries them, and the big-endian integers built from them. */
module Bytes {
  type Byte = x: int | 0 <= x < 256

  type U32 = x: int | 0 <= x < 0x1_0000_0000

  type U64 = x: int | 0 <= x < 0x1_0000_0000_0000_0000

  function Pow256(w: nat): nat {
    if w == 0 then 1 else 256 * Pow256(w - 1)
  }

  /** The low `w` bytes of `n`, most significant first. */
  function ToBE(n: nat, w: nat): (s: seq<Byte>)
    ensures |s| == w
  {
    if w == 0 then [] else ToBE(n / 256, w - 1) + [n % 256]
  }

  /** The number that `s` spells, most significant byte first. */
  function FromBE(s: seq<Byte>): nat {
    if s == [] then 0 else FromBE(s[..|s| - 1]) * 256 + s[|s| - 1]
  }

  /** Writing `w` bytes keeps exactly the residue modulo 256^w. */
  lemma {:induction false} FromToBE(n: nat, w: nat)
    ensures Pow256(w) > 0
    ensures FromBE(ToBE(n, w)) == n % Pow256(w)
  {
    if w == 0 {
    } else {
      FromToBE(n / 256, w - 1);
      var s := ToBE(n / 256, w - 1) + [n % 256];
      assert s[..|s| - 1] == ToBE(n / 256, w - 1);
      ModSplit(n, Pow256(w - 1));
    }
  }

  lemma ModSplit(n: nat, p: nat)
    requires p > 0
    ensures n % (256 * p) == (n / 256 % p) * 256 + n % 256
  {
    var q, r := n / 256, n % 256;
    var k, m := q / p, q % p;
    assert q == k * p + m;
    assert n == k * (256 * p) + (m * 256 + r) by {
      assert n == q * 256 + r;
      assert q * 256 == k * p * 256 + m * 256;
    }
    DivModUnique(n, 256 * p, k, m * 256 + r);
  }

  lemma DivModUnique(n: int, d: int, k: int, r: int)
    requires 0 <= r < d
    requires n == k * d + r
    ensures n / d == k
    ensures n % d == r
  {
    var k', r' := n / d, n % d;
    assert k' * d + r' == n;
    if k < k' {
      MulAtLeast(k' - k, d);
    } else if k' < k {
      MulAtLeast(k - k', d);
    }
  }

  lemma MulAtLeast(a: int, d: int)
    requires a >= 1 && d >= 0
    ensures a * d >= d
  {
    assert (a - 1) * d >= 0;
  }

  /** `s` is what writing the number it spells produces. */
  lemma {:induction false} ToFromBE(s: seq<Byte>)
    ensures FromBE(s) < Pow256(|s|)
    ensures ToBE(FromBE(s), |s|) == s
  {
    if s == [] {
    } else {
      ToFromBE(s[..|s| - 1]);
      assert s == s[..|s| - 1] + [s[|s| - 1]];
    }
  }

  lemma Pow256Values()
    ensures Pow256(4) == 0x1_0000_0000
    ensures Pow256(8) == 0x1_0000_0000_0000_0000
  {
    assert Pow256(2) == 0x1_0000;
    assert Pow256(4) == 256 * (256 * Pow256(2));
    assert Pow256(6) == 256 * (256 * Pow256(4));
  }

  /** The first byte is the most significant. */
  lemma FromBE3(a: Byte, b: Byte, c: Byte)
    ensures FromBE([a, b, c]) == 0x1_0000 * a + 0x100 * b + c
  {
    assert [a][..0] == [] && FromBE([a]) == a;
    assert [a, b][..1] == [a] && FromBE([a, b]) == FromBE([a]) * 256 + b;
    assert [a, b, c][..2] == [a, b] && FromBE([a, b, c]) == FromBE([a, b]) * 256 + c;
  }

  lemma FromBE4(a: Byte, b: Byte, c: Byte, d: Byte)
    ensures FromBE([a, b, c, d]) == 0x100_0000 * a + 0x1_0000 * b + 0x100 * c + d
  {
    FromBE3(a, b, c);
    assert [a, b, c, d][..3] == [a, b, c];
  }

  /** A 32-bit field read back is the 32-bit number written. */
  lemma U32RoundTrip(n: nat)
    ensures FromBE(ToBE(n, 4)) == n % 0x1_0000_0000
  {
    FromToBE(n, 4);
    Pow256Values();
  }

  lemma U64RoundTrip(n: U64)
    ensures FromBE(ToBE(n, 8)) == n
  {
    FromToBE(n, 8);
    Pow256Values();
  }
}
