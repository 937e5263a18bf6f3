/** Base64 (section 4 of RFC 4648). */
module Base64 {
  import opened ByteOrder
  import T = ByteClasses

  const PAD: Byte := '=' as int

  /** The alphabet. */
  function Symbol(n: nat): Byte
    requires n < 64
  {
    if n < 26 then 'A' as int + n
    else if n < 52 then 'a' as int + n - 26
    else if n < 62 then '0' as int + n - 52
    else if n == 62 then '+' as int
    else '/' as int
  }

  function Value(b: Byte): (n: nat)
    ensures n < 64
  {
    if 'A' as int <= b <= 'Z' as int then b - 'A' as int
    else if 'a' as int <= b <= 'z' as int then b - 'a' as int + 26
    else if '0' as int <= b <= '9' as int then b - '0' as int + 52
    else if b == '+' as int then 62
    else 63
  }

  lemma SymbolRound(n: nat)
    requires n < 64
    ensures Value(Symbol(n)) == n && Symbol(n) != PAD
  {
  }

  /** Four symbols for 24 bits. */
  function Quad(packed: nat): (q: Bytes)
    requires packed < 0x1000000
    ensures |q| == 4
  {
    [Symbol(packed / 262144), Symbol(packed / 4096 % 64), Symbol(packed / 64 % 64), Symbol(packed % 64)]
  }

  /** Three bytes in 24 bits. */
  function Pack(a: int, b: int, c: int): int { a * 65536 + b * 256 + c }

  /** The symbols of a group of one to three bytes, with padding. */
  function Group(g: Bytes): (q: Bytes)
    requires 1 <= |g| <= 3
    ensures |q| == 4
  {
    if |g| == 3 then Quad(Pack(g[0], g[1], g[2]))
    else if |g| == 2 then Quad(Pack(g[0], g[1], 0))[..3] + [PAD]
    else Quad(Pack(g[0], 0, 0))[..2] + [PAD, PAD]
  }

  function Encoded(s: Bytes): Bytes {
    if s == [] then [] else if |s| <= 3 then Group(s) else Group(s[..3]) + Encoded(s[3..])
  }

  /** 24 bits of four symbols; padding counts as zero. */
  function Unpack(q: Bytes): (n: nat)
    requires |q| == 4
  {
    Value(q[0]) * 262144 + Value(q[1]) * 4096 + (if q[2] == PAD then 0 else Value(q[2]) * 64) +
    if q[3] == PAD then 0 else Value(q[3])
  }

  function Ungroup(q: Bytes): Bytes
    requires |q| == 4
  {
    var n := Unpack(q);
    var all: Bytes := [n / 65536 % 256, n / 256 % 256, n % 256];
    if q[2] == PAD then all[..1] else if q[3] == PAD then all[..2] else all
  }

  /** Four symbols at a time. */
  function Decoded(s: Bytes): Bytes {
    if |s| < 4 then [] else Ungroup(s[..4]) + Decoded(s[4..])
  }

  lemma Sextets(n: nat)
    requires n < 0x1000000
    ensures n == n / 262144 * 262144 + n / 4096 % 64 * 4096 + n / 64 % 64 * 64 + n % 64
  {
    assert n / 4096 == n / 64 / 64 && n / 262144 == n / 4096 / 64;
    assert n / 4096 == n / 262144 * 64 + n / 4096 % 64;
    assert n / 64 == n / 4096 * 64 + n / 64 % 64;
  }

  lemma Octets(a: Byte, b: Byte, c: Byte)
    ensures var n := Pack(a, b, c); n / 65536 % 256 == a && n / 256 % 256 == b && n % 256 == c
  {
    var n := Pack(a, b, c);
    assert n / 256 == a as int * 256 + b as int;
    assert n / 65536 == a;
  }

  /** The bits that padding stands for are zero. */
  lemma ShortGroup(a: Byte, b: Byte)
    ensures Pack(a, b, 0) % 64 == 0 && Pack(a, 0, 0) % 64 == 0 && Pack(a, 0, 0) / 64 % 64 == 0
  {
    var x, y: int := a, b;
    Multiple(x * 1024 + y * 4);
    Multiple(x * 1024);
    Multiple(x * 16);
    assert Pack(x, y, 0) == 64 * (x * 1024 + y * 4) && Pack(x, 0, 0) == 64 * (x * 1024) && x * 1024 == 64 * (x * 16);
  }

  lemma Multiple(k: int)
    ensures 64 * k % 64 == 0 && 64 * k / 64 == k
  {
  }

  lemma QuadRound(packed: nat)
    requires packed < 0x1000000
    ensures var q := Quad(packed);
            && Value(q[0]) == packed / 262144 && Value(q[1]) == packed / 4096 % 64
            && Value(q[2]) == packed / 64 % 64 && Value(q[3]) == packed % 64
            && q[2] != PAD && q[3] != PAD
  {
    hide Symbol, Value;
    SymbolRound(packed / 262144);
    SymbolRound(packed / 4096 % 64);
    SymbolRound(packed / 64 % 64);
    SymbolRound(packed % 64);
  }

  lemma GroupRound(g: Bytes)
    requires 1 <= |g| <= 3
    ensures Ungroup(Group(g)) == g
  {
    hide Symbol, Value, Quad, Pack, Unpack;
    var n := GroupBits(g);
    GroupUnpacked(g);
    Octets(g[0], if |g| > 1 then g[1] else 0, if |g| > 2 then g[2] else 0);
    QuadRound(n);
  }

  lemma GroupUnpacked(g: Bytes)
    requires 1 <= |g| <= 3
    ensures Unpack(Group(g)) == GroupBits(g)
  {
    hide Symbol, Value, Quad, Pack;
    var n := GroupBits(g);
    QuadRound(n);
    Sextets(n);
    ShortGroup(g[0], if |g| > 1 then g[1] else 0);
  }

  /** Decoding inverts encoding, for every byte string. */
  lemma {:induction false} RoundTrip(s: Bytes)
    ensures Decoded(Encoded(s)) == s
    decreases |s|
  {
    hide Group, Ungroup;
    if s != [] {
      var g := if |s| <= 3 then s else s[..3];
      GroupRound(g);
      if |s| <= 3 {
        assert Group(s)[..4] == Group(s) && Group(s)[4..] == [];
      } else {
        RoundTrip(s[3..]);
        var e := Encoded(s);
        assert e[..4] == Group(g) && e[4..] == Encoded(s[3..]);
      }
    }
  }

  /** The 24 bits of a group: the bytes it lacks are zero. */
  function GroupBits(g: Bytes): (n: nat)
    requires 1 <= |g| <= 3
    ensures n < 0x1000000
  {
    Pack(g[0], if |g| > 1 then g[1] else 0, if |g| > 2 then g[2] else 0)
  }

  /** Packs up to three bytes from ptr on, and zeros for those that lack. */
  method PackGroup(data: Bytes, ptr: nat) returns (packed: nat, count: nat)
    requires ptr < |data|
    ensures 1 <= count <= 3 && ptr + count <= |data| && (count < 3 ==> ptr + count == |data|)
    ensures packed == GroupBits(data[ptr..ptr + count])
  {
    packed := 0;
    var i := 0;
    while i < 3 && ptr + i < |data|
      invariant 0 <= i <= 3 && ptr + i <= |data|
      invariant packed == match i
                          case 0 => 0
                          case 1 => Pack(0, 0, data[ptr])
                          case 2 => Pack(0, data[ptr], data[ptr + 1])
                          case _ => Pack(data[ptr], data[ptr + 1], data[ptr + 2])
    {
      packed := packed * 256 + data[ptr + i];
      i := i + 1;
    }
    count := i;
    while i < 3
      invariant count <= i <= 3
      invariant packed * (if i == 1 then 65536 else if i == 2 then 256 else 1) == GroupBits(data[ptr..ptr + count])
    {
      packed := packed * 256;
      i := i + 1;
    }
  }

  /** The symbols of the group that starts at ptr, and its size. */
  method EncodeGroup(data: Bytes, ptr: nat) returns (q: Bytes, i: nat)
    requires ptr < |data|
    ensures 1 <= i <= 3 && ptr + i <= |data| && (i < 3 ==> ptr + i == |data|)
    ensures q == Group(data[ptr..ptr + i])
  {
    hide Symbol, Pack, Encoded;
    var packed;
    packed, i := PackGroup(data, ptr);
    var padding := if i == 2 then 1 else if i == 1 then 2 else 0;
    q := [Symbol(packed / 262144), Symbol(packed / 4096 % 64)];
    if padding != 2 {
      q := q + [Symbol(packed / 64 % 64)];
    }
    if padding == 0 {
      q := q + [Symbol(packed % 64)];
    }
    q := q + seq(padding, _ => PAD);
  }

  /** base64encode: up to three bytes are packed into 24 bits, then unpacked as symbols. */
  method Encode(data: Bytes) returns (ret: Bytes)
    ensures ret == Encoded(data)
  {
    hide Group, Encoded;
    ret := [];
    var ptr := 0;
    assert data[ptr..] == data;
    while ptr < |data|
      invariant 0 <= ptr <= |data| && ret + Encoded(data[ptr..]) == Encoded(data)
    {
      var q, i := EncodeGroup(data, ptr);
      EncodedNext(data, ptr, ptr + i);
      Regroup(ret, q, Encoded(data[ptr + i..]));
      ret := ret + q;
      ptr := ptr + i;
    }
    assert data[ptr..] == [];
    EncodedNone();
  }

  lemma Regroup(a: Bytes, b: Bytes, c: Bytes)
    ensures a + (b + c) == a + b + c
  {
  }

  lemma EncodedNone()
    ensures Encoded([]) == []
  {
  }

  lemma EncodedNext(s: Bytes, i: nat, j: nat)
    requires i < j <= |s| && j - i <= 3 && (j < |s| ==> j - i == 3)
    ensures Encoded(s[i..]) == Group(s[i..j]) + Encoded(s[j..])
  {
    hide Group;
    if j == |s| {
      assert s[i..] == s[i..j];
    } else {
      assert s[i..][..3] == s[i..j] && s[i..][3..] == s[j..];
    }
  }

  // The characters themselves

  /** The alphabet of section 4 of RFC 4648: the capital letters, the small ones, the digits and two marks. */
  const ALPHABET := T.CAPITAL + T.SMALL + "0123456789+/"

  lemma SymbolExact(n: nat)
    requires n < 64
    ensures |ALPHABET| == 64 && Symbol(n) == ALPHABET[n] as int
  {
    hide Symbol;
    PartSizes();
    Thirds(T.CAPITAL, T.SMALL, "0123456789+/", n);
    if n < 26 {
      CapitalSymbol(n);
    } else if n < 52 {
      SmallSymbol(n - 26);
    } else {
      MarkSymbol(n - 52);
    }
  }

  lemma PartSizes()
    ensures |T.CAPITAL| == |T.SMALL| == 26 && |"0123456789+/"| == 12
  {
  }

  lemma CapitalSymbol(k: nat)
    requires k < 26
    ensures Symbol(k) == T.CAPITAL[k] as int
  {
    T.LetterPlace(k);
  }

  lemma SmallSymbol(k: nat)
    requires k < 26
    ensures Symbol(26 + k) == T.SMALL[k] as int
  {
    T.LetterPlace(k);
  }

  lemma Thirds(a: string, b: string, c: string, n: nat)
    requires |a| == 26 && |b| == 26 && |c| == 12 && n < 64
    ensures |a + b + c| == 64
    ensures (a + b + c)[n] == if n < 26 then a[n] else if n < 52 then b[n - 26] else c[n - 52]
  {
  }

  lemma MarkSymbol(k: nat)
    requires k < 12
    ensures Symbol(52 + k) == "0123456789+/"[k] as int
  {
  }

  /** Three bytes are four characters of the alphabet, six bits each; two bytes are three and one pad, one byte is
      two and two pads. */
  lemma GroupExact(a: Byte, b: Byte, c: Byte)
    ensures |ALPHABET| == 64
    ensures Encoded([a, b, c]) == [ALPHABET[a / 4] as int, ALPHABET[a % 4 * 16 + b / 16] as int,
                                   ALPHABET[b % 16 * 4 + c / 64] as int, ALPHABET[c % 64] as int]
    ensures Encoded([a, b]) == [ALPHABET[a / 4] as int, ALPHABET[a % 4 * 16 + b / 16] as int,
                                ALPHABET[b % 16 * 4] as int, '=' as int]
    ensures Encoded([a]) == [ALPHABET[a / 4] as int, ALPHABET[a % 4 * 16] as int, '=' as int, '=' as int]
  {
    hide Quad, Pack, ALPHABET;
    SixBits(a, b, c);
    SixBits(a, b, 0);
    SixBits(a, 0, 0);
  }

  lemma SixBits(a: Byte, b: Byte, c: Byte)
    ensures |ALPHABET| == 64
    ensures Quad(Pack(a, b, c)) == [ALPHABET[a / 4] as int, ALPHABET[a % 4 * 16 + b / 16] as int,
                                    ALPHABET[b % 16 * 4 + c / 64] as int, ALPHABET[c % 64] as int]
  {
    hide Symbol;
    var n := Pack(a, b, c);
    Sixths(a, b, c);
    SymbolExact(n / 262144);
    SymbolExact(n / 4096 % 64);
    SymbolExact(n / 64 % 64);
    SymbolExact(n % 64);
    hide Pack;
  }

  lemma Sixths(a: Byte, b: Byte, c: Byte)
    ensures var n := Pack(a, b, c);
            && n / 262144 == a / 4 && n / 4096 % 64 == a % 4 * 16 + b / 16
            && n / 64 % 64 == b % 16 * 4 + c / 64 && n % 64 == c % 64
  {
    var n := Pack(a, b, c);
    Quotient(n, 262144, a / 4, a % 4 * 65536 + b * 256 + c);
    Quotient(n, 4096, a * 16 + b / 16, b % 16 * 256 + c);
    Quotient(n, 64, a * 1024 + b * 4 + c / 64, c % 64);
  }

  /** Longer strings are encoded group by group. */
  lemma GroupsExact(s: Bytes)
    requires |s| >= 3
    ensures Encoded(s) == Encoded(s[..3]) + Encoded(s[3..])
  {
    if |s| == 3 {
      assert s[..3] == s;
    }
  }

  /** The last two characters of the alphabet, and padding. */
  lemma SlashAndPad()
    ensures Encoded([0xfb, 0xff, 0xff, 0xff]) ==
            ['+' as int, '/' as int, '/' as int, '/' as int, '/' as int, 'w' as int, '=' as int, '=' as int]
  {
    var s: Bytes := [0xfb, 0xff, 0xff, 0xff];
    GroupsExact(s);
    assert s[..3] == [0xfb, 0xff, 0xff] && s[3..] == [0xff];
    GroupExact(0xfb, 0xff, 0xff);
    GroupExact(0xff, 0, 0);
    hide Encoded;
  }
}
