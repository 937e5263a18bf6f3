/** Bytes, exclusive or, and integers as bytes in either order. */
module ByteOrder {

  type Byte = x: int | 0 <= x < 256

  type Bytes = seq<Byte>

  function Two(k: nat): nat { if k == 0 then 1 else 2 * Two(k - 1) }

  /** Exclusive or of the last k bits. */
  function XorBits(a: nat, b: nat, k: nat): (r: nat)
    ensures r < Two(k)
  {
    if k == 0 then 0 else 2 * XorBits(a / 2, b / 2, k - 1) + (a + b) % 2
  }

  function Xor(a: Byte, b: Byte): Byte {
    assert Two(8) == 256;
    XorBits(a, b, 8)
  }

  lemma {:induction false} BitsTwice(a: nat, b: nat, k: nat)
    requires a < Two(k)
    ensures XorBits(XorBits(a, b, k), b, k) == a
  {
    if k > 0 {
      var x := XorBits(a / 2, b / 2, k - 1);
      BitsTwice(a / 2, b / 2, k - 1);
      Parity(a, b, x);
      calc {
        XorBits(XorBits(a, b, k), b, k);
        2 * XorBits(x, b / 2, k - 1) + (2 * x + (a + b) % 2 + b) % 2;
        2 * (a / 2) + a % 2;
        a;
      }
    }
  }

  lemma Parity(a: nat, b: nat, x: nat)
    ensures (2 * x + (a + b) % 2) / 2 == x && (2 * x + (a + b) % 2 + b) % 2 == a % 2
  {
    assert (a + b) % 2 == if a % 2 == b % 2 then 0 else 1;
  }

  lemma {:induction false} BitsZero(b: nat, k: nat)
    requires b < Two(k)
    ensures XorBits(0, b, k) == b
  {
    if k > 0 {
      BitsZero(b / 2, k - 1);
    }
  }

  lemma XorTwice(a: Byte, b: Byte)
    ensures Xor(Xor(a, b), b) == a
  {
    hide XorBits;
    assert Two(8) == 256;
    BitsTwice(a, b, 8);
  }

  lemma XorZero(b: Byte)
    ensures Xor(0, b) == b
  {
    hide XorBits;
    assert Two(8) == 256;
    BitsZero(b, 8);
  }

  lemma DivideTwice(y: nat, m: nat)
    requires m > 0
    ensures y / (2 * m) == y / 2 / m
  {
    var q, r := y / 2 / m, y / 2 % m;
    assert y / 2 == q * m + r;
    assert y == q * (2 * m) + (2 * r + y % 2) && 2 * r + y % 2 < 2 * m;
    Quotient(y, 2 * m, q, 2 * r + y % 2);
  }

  lemma Quotient(y: nat, m: nat, q: nat, r: nat)
    requires m > 0 && y == q * m + r && r < m
    ensures y / m == q
  {
    var d := y / m - q;
    assert d * m == r - y % m;
    if d != 0 {
      Multiple(d, m);
    }
  }

  lemma Multiple(d: int, m: int)
    requires d != 0 && m > 0
    ensures d * m >= m || d * m <= -m
  {
    if d > 0 {
      assert (d - 1) * m >= 0;
    } else {
      assert (-d - 1) * m >= 0;
    }
  }

  lemma {:induction false} BitsAt(a: nat, b: nat, k: nat, i: nat)
    requires i < k
    ensures Two(i) > 0 && XorBits(a, b, k) / Two(i) % 2 == (a / Two(i) + b / Two(i)) % 2
  {
    if i == 0 {
      Parity(a, b, XorBits(a / 2, b / 2, k - 1));
    } else {
      BitsAt(a / 2, b / 2, k - 1, i - 1);
      BitAbove(a, b, k, Two(i - 1));
    }
  }

  /** A bit but the last is one of the halves. */
  lemma BitAbove(a: nat, b: nat, k: nat, w: nat)
    requires k > 0 && w > 0
    ensures XorBits(a, b, k) / (2 * w) == XorBits(a / 2, b / 2, k - 1) / w
    ensures a / (2 * w) == a / 2 / w && b / (2 * w) == b / 2 / w
  {
    var x := XorBits(a / 2, b / 2, k - 1);
    Parity(a, b, x);
    DivideTwice(2 * x + (a + b) % 2, w);
    DivideTwice(a, w);
    DivideTwice(b, w);
  }

  /** Exclusive or, bit by bit: a bit is set exactly when it is set in one of the two bytes and not in both. */
  lemma XorAt(a: Byte, b: Byte, w: nat)
    requires w in {1, 2, 4, 8, 16, 32, 64, 128}
    ensures Xor(a, b) / w % 2 == 1 <==> (a / w % 2 == 1) != (b / w % 2 == 1)
  {
    hide XorBits;
    var i :| 0 <= i < 8 && Two(i) == w by { PlaceValues(); }
    BitsAt(a, b, 8, i);
  }

  lemma FourBits(a: nat, b: nat, k: nat)
    requires k >= 4
    ensures XorBits(a, b, k) == 16 * XorBits(a / 16, b / 16, k - 4) + (a + b) % 2 + 2 * ((a / 2 + b / 2) % 2) +
                                4 * ((a / 4 + b / 4) % 2) + 8 * ((a / 8 + b / 8) % 2)
  {
    assert a / 2 / 2 == a / 4 && a / 4 / 2 == a / 8 && a / 8 / 2 == a / 16;
    assert b / 2 / 2 == b / 4 && b / 4 / 2 == b / 8 && b / 8 / 2 == b / 16;
    assert XorBits(a / 8, b / 8, k - 3) == 2 * XorBits(a / 16, b / 16, k - 4) + (a / 8 + b / 8) % 2;
    assert XorBits(a / 4, b / 4, k - 2) == 2 * XorBits(a / 8, b / 8, k - 3) + (a / 4 + b / 4) % 2;
    assert XorBits(a / 2, b / 2, k - 1) == 2 * XorBits(a / 4, b / 4, k - 2) + (a / 2 + b / 2) % 2;
    assert XorBits(a, b, k) == 2 * XorBits(a / 2, b / 2, k - 1) + (a + b) % 2;
  }

  /** The sum of its bits. */
  lemma XorSum(a: Byte, b: Byte)
    ensures var low := (a + b) % 2 + 2 * ((a / 2 + b / 2) % 2) + 4 * ((a / 4 + b / 4) % 2) + 8 * ((a / 8 + b / 8) % 2);
            var c, d := a / 16, b / 16;
            var high := (c + d) % 2 + 2 * ((c / 2 + d / 2) % 2) + 4 * ((c / 4 + d / 4) % 2) + 8 * ((c / 8 + d / 8) % 2);
            Xor(a, b) == 16 * high + low
  {
    FourBits(a, b, 8);
    LastBits(a / 16, b / 16);
    hide XorBits;
  }

  lemma LastBits(c: nat, d: nat)
    ensures XorBits(c, d, 4) ==
            (c + d) % 2 + 2 * ((c / 2 + d / 2) % 2) + 4 * ((c / 4 + d / 4) % 2) + 8 * ((c / 8 + d / 8) % 2)
  {
    FourBits(c, d, 4);
    assert XorBits(c / 16, d / 16, 0) == 0;
    hide XorBits;
  }

  lemma PlaceValues()
    ensures Two(0) == 1 && Two(1) == 2 && Two(2) == 4 && Two(3) == 8
    ensures Two(4) == 16 && Two(5) == 32 && Two(6) == 64 && Two(7) == 128
  {
  }

  /** The number of values of a k-byte integer. */
  function Values(k: nat): (r: nat)
    ensures r > 0
  {
    if k == 0 then 1 else 256 * Values(k - 1)
  }

  /** The last k bytes of n, most significant first. */
  function BigEndian(n: nat, k: nat): (s: Bytes)
    ensures |s| == k
  {
    if k == 0 then [] else BigEndian(n / 256, k - 1) + [n % 256]
  }

  function FromBigEndian(s: Bytes): nat {
    if s == [] then 0 else 256 * FromBigEndian(s[..|s| - 1]) + s[|s| - 1]
  }

  /** The bytes of a k-byte integer in the memory of a little-endian machine. */
  function LittleEndian(n: nat, k: nat): (s: Bytes)
    ensures |s| == k
  {
    if k == 0 then [] else [n % 256] + LittleEndian(n / 256, k - 1)
  }

  function FromLittleEndian(s: Bytes): nat {
    if s == [] then 0 else s[0] + 256 * FromLittleEndian(s[1..])
  }

  function Reverse(s: Bytes): (r: Bytes)
    ensures |r| == |s|
  {
    if s == [] then [] else Reverse(s[1..]) + [s[0]]
  }

  /** The k-byte integer whose memory is that of n with its bytes reversed. */
  function ByteSwap(n: nat, k: nat): nat { FromLittleEndian(Reverse(LittleEndian(n, k))) }

  lemma {:induction false} ReverseLittle(n: nat, k: nat)
    ensures Reverse(LittleEndian(n, k)) == BigEndian(n, k)
  {
    if k > 0 {
      ReverseLittle(n / 256, k - 1);
      assert LittleEndian(n, k)[1..] == LittleEndian(n / 256, k - 1);
    }
  }

  lemma {:induction false} LittleRound(s: Bytes)
    ensures LittleEndian(FromLittleEndian(s), |s|) == s
  {
    if s != [] {
      LittleRound(s[1..]);
      assert (s[0] + 256 * FromLittleEndian(s[1..])) / 256 == FromLittleEndian(s[1..]);
    }
  }

  /** An integer that is swapped and then copied from memory arrives most significant byte first. */
  lemma SwappedMemory(n: nat, k: nat)
    ensures LittleEndian(ByteSwap(n, k), k) == BigEndian(n, k)
  {
    ReverseLittle(n, k);
    LittleRound(Reverse(LittleEndian(n, k)));
  }

  lemma {:induction false} BigRound(n: nat, k: nat)
    requires n < Values(k)
    ensures FromBigEndian(BigEndian(n, k)) == n
  {
    if k > 0 {
      BigRound(n / 256, k - 1);
      assert BigEndian(n, k)[..k - 1] == BigEndian(n / 256, k - 1);
    }
  }

  lemma {:induction false} FromLittleReverse(s: Bytes)
    ensures FromLittleEndian(Reverse(s)) == FromBigEndian(s)
    decreases |s|
  {
    if s != [] {
      var n := |s| - 1;
      ReverseSnoc(s[..n], s[n]);
      assert s == s[..n] + [s[n]];
      assert Reverse(s)[1..] == Reverse(s[..n]);
      FromLittleReverse(s[..n]);
    }
  }

  lemma {:induction false} ReverseSnoc(s: seq<Byte>, b: Byte)
    ensures Reverse(s + [b]) == [b] + Reverse(s)
  {
    if s == [] {
      assert s + [b] == [b];
    } else {
      assert (s + [b])[1..] == s[1..] + [b];
      ReverseSnoc(s[1..], b);
    }
  }

  /** Memory that arrived most significant byte first holds, once swapped, the number sent. */
  lemma SwapLoads(s: Bytes)
    ensures ByteSwap(FromLittleEndian(s), |s|) == FromBigEndian(s)
  {
    LittleRound(s);
    FromLittleReverse(s);
  }

  /** Swapping twice gives the integer back. */
  lemma SwapTwice(n: nat, k: nat)
    requires n < Values(k)
    ensures ByteSwap(ByteSwap(n, k), k) == n
  {
    ReverseLittle(n, k);
    SwapLoads(BigEndian(n, k));
    BigRound(n, k);
  }
}
