/** Bytes and the big-endian words QDataStream puts on the wire. */
module Words {
  type byte = b: int | 0 <= b < 256

  function Pow256(width: nat): (p: nat)
    ensures p > 0
  {
    if width == 0 then 1 else 256 * Pow256(width - 1)
  }

  lemma Pow256Values()
    ensures Pow256(1) == 0x100
    ensures Pow256(2) == 0x1_0000
    ensures Pow256(4) == 0x1_0000_0000
    ensures Pow256(8) == 0x1_0000_0000_0000_0000
  {
    assert Pow256(1) == 256 * Pow256(0);
    assert Pow256(2) == 256 * Pow256(1);
    assert Pow256(3) == 256 * Pow256(2);
    assert Pow256(4) == 256 * Pow256(3);
    assert Pow256(5) == 256 * Pow256(4);
    assert Pow256(6) == 256 * Pow256(5);
    assert Pow256(7) == 256 * Pow256(6);
    assert Pow256(8) == 256 * Pow256(7);
  }

  function BigEndian(n: nat, width: nat): (s: seq<byte>)
    requires n < Pow256(width)
    ensures |s| == width
  {
    if width == 0 then [] else BigEndian(n / 256, width - 1) + [n % 256]
  }

  function FromBigEndian(s: seq<byte>): (n: nat)
    ensures n < Pow256(|s|)
  {
    if s == [] then 0 else 256 * FromBigEndian(s[..|s| - 1]) + s[|s| - 1]
  }

  lemma {:induction false} WordRoundTrip(n: nat, width: nat)
    requires n < Pow256(width)
    ensures FromBigEndian(BigEndian(n, width)) == n
  {
    if width > 0 {
      WordRoundTrip(n / 256, width - 1);
      assert BigEndian(n, width)[..width - 1] == BigEndian(n / 256, width - 1);
    }
  }

  lemma {:induction false} BytesRoundTrip(s: seq<byte>)
    ensures BigEndian(FromBigEndian(s), |s|) == s
  {
    if s != [] {
      var init, d := s[..|s| - 1], s[|s| - 1];
      BytesRoundTrip(init);
      LastDigit(FromBigEndian(init), |init|, d);
      assert s == init + [d];
    }
  }

  lemma LastDigit(n: nat, width: nat, d: byte)
    requires n < Pow256(width)
    ensures 256 * n + d < Pow256(width + 1) && BigEndian(256 * n + d, width + 1) == BigEndian(n, width) + [d]
  {
    assert (256 * n + d) / 256 == n && (256 * n + d) % 256 == d;
  }

  // ---------------------------------------------------------------- the most significant byte first

  lemma OneQuotient(d: int, q: int, r: int, k: int, m: int)
    requires d * q + r == d * k + m && 0 <= r < d && 0 <= m < d
    ensures q == k
  {
    if q < k { Multiple(d, k - q); } else if k < q { Multiple(d, q - k); }
  }

  lemma Multiple(d: int, x: int)
    requires d > 0 && x >= 1
    ensures d * x >= d
  {
  }

  lemma Divided(n: int, d: int)
    requires d > 0
    ensures n == d * (n / d) + n % d && 0 <= n % d < d
  {
  }

  lemma DivideTwice(n: nat, p: nat)
    requires p > 0
    ensures n / 256 / p == n / (256 * p)
  {
    var q := n / 256;
    var r := q / p;
    Divided(q, p);
    Divided(n, 256 * p);
    Nested(n, p, r, q % p);
    OneQuotient(256 * p, r, 256 * (q % p) + n % 256, n / (256 * p), n % (256 * p));
  }

  lemma Nested(n: nat, p: nat, r: nat, m: nat)
    requires n / 256 == p * r + m
    ensures n == 256 * p * r + (256 * m + n % 256)
  {
    assert 256 * (p * r + m) == 256 * (p * r) + 256 * m;
    assert 256 * (p * r) == 256 * p * r;
  }

  /** Byte `i` of a word is its digit of weight 256 to the power of the bytes after it. */
  lemma {:induction false} BigEndianDigit(n: nat, width: nat, i: nat)
    requires n < Pow256(width) && i < width
    ensures BigEndian(n, width)[i] == n / Pow256(width - 1 - i) % 256
  {
    if i < width - 1 {
      BigEndianDigit(n / 256, width - 1, i);
      DivideTwice(n, Pow256(width - 2 - i));
      assert Pow256(width - 1 - i) == 256 * Pow256(width - 2 - i);
    }
  }

  /** The first byte read has the greatest weight. */
  lemma {:induction false} FirstByteWeighsMost(s: seq<byte>)
    requires s != []
    ensures FromBigEndian(s) == s[0] * Pow256(|s| - 1) + FromBigEndian(s[1..])
  {
    if |s| == 1 {
      assert s[..0] == [] && s[1..] == [];
    } else {
      var init := s[..|s| - 1];
      FirstByteWeighsMost(init);
      assert s[1..][..|s| - 2] == init[1..];
      Shifted(s[0], Pow256(|s| - 2), FromBigEndian(init[1..]));
    }
  }

  // ---------------------------------------------------------------- words of one, two, four and eight bytes

  /** Two, four and eight bytes as a number, written out. */
  function U16(s: seq<byte>): nat
    requires |s| >= 2
  {
    0x100 * (s[0] as int) + s[1]
  }

  function U32(s: seq<byte>): nat
    requires |s| >= 4
  {
    0x100_0000 * (s[0] as int) + 0x1_0000 * (s[1] as int) + 0x100 * (s[2] as int) + s[3]
  }

  function U64(s: seq<byte>): nat
    requires |s| >= 8
  {
    0x1_0000_0000 * U32(s) + U32(s[4..])
  }

  lemma WeighedTwice(s: seq<byte>)
    requires |s| >= 2
    ensures FromBigEndian(s[..2]) == U16(s)
  {
    var w := s[..2];
    assert w[..1] == [s[0]] && [s[0]][..0] == [];
    assert FromBigEndian([s[0]]) == s[0];
  }

  lemma {:induction false} FromBigEndianJoined(a: seq<byte>, b: seq<byte>)
    ensures FromBigEndian(a + b) == FromBigEndian(a) * Pow256(|b|) + FromBigEndian(b)
    decreases |b|
  {
    if b == [] {
      assert a + b == a;
    } else {
      var last := |b| - 1;
      FromBigEndianJoined(a, b[..last]);
      assert (a + b)[..|a + b| - 1] == a + b[..last];
      Shifted(FromBigEndian(a), Pow256(last), FromBigEndian(b[..last]));
    }
  }

  lemma Shifted(a: nat, p: nat, b: nat)
    ensures 256 * (a * p + b) == a * (256 * p) + 256 * b
  {
    assert 256 * (a * p) == a * (256 * p);
  }

  lemma Weighed(s: seq<byte>)
    ensures |s| >= 2 ==> FromBigEndian(s[..2]) == U16(s)
    ensures |s| >= 4 ==> FromBigEndian(s[..4]) == U32(s)
    ensures |s| >= 8 ==> FromBigEndian(s[..8]) == U64(s)
  {
    Pow256Values();
    if |s| >= 2 { WeighedTwice(s); }
    if |s| >= 4 { WeighedFour(s); }
    if |s| >= 8 {
      WeighedFour(s[4..]);
      FromBigEndianJoined(s[..4], s[4..][..4]);
      assert s[..8] == s[..4] + s[4..][..4];
    }
  }

  lemma WeighedFour(s: seq<byte>)
    requires |s| >= 4
    ensures FromBigEndian(s[..4]) == U32(s)
  {
    Pow256Values();
    WeighedTwice(s);
    WeighedTwice(s[2..]);
    FromBigEndianJoined(s[..2], s[2..][..2]);
    assert s[..4] == s[..2] + s[2..][..2];
  }
}
