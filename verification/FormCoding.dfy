/** URL coding, and the parameters of a query, a form or a cookie header. */
module FormCoding {
  import opened ByteOrder

  const SPACE: Byte := 32
  const PERCENT: Byte := 37
  const AMPERSAND: Byte := 38
  const PLUS: Byte := 43
  const SEMICOLON: Byte := 59
  const EQUALS: Byte := 61

  /** Bytes that are sent as they are: letters, digits, - . _ ~ and, which RFC 3986 does not list, =. */
  predicate Unreserved(b: Byte) {
    'A' as int <= b <= 'Z' as int || 'a' as int <= b <= 'z' as int || '0' as int <= b <= '9' as int ||
    b == '-' as int || b == '.' as int || b == '_' as int || b == '~' as int || b == EQUALS
  }

  function HexDigit(n: nat): Byte
    requires n < 16
  {
    if n < 10 then '0' as int + n else 'A' as int + n - 10
  }

  predicate IsHexDigit(b: Byte) {
    '0' as int <= b <= '9' as int || 'A' as int <= b <= 'F' as int || 'a' as int <= b <= 'f' as int
  }

  function HexValue(b: Byte): (n: nat)
    ensures n < 16
  {
    if '0' as int <= b <= '9' as int then b - '0' as int
    else if 'A' as int <= b <= 'F' as int then b - 'A' as int + 10
    else if 'a' as int <= b <= 'f' as int then b - 'a' as int + 10
    else 0
  }

  lemma HexRound(n: nat)
    requires n < 16
    ensures IsHexDigit(HexDigit(n)) && HexValue(HexDigit(n)) == n
  {
  }

  /** The code of one byte. */
  function Code(b: Byte, plus: bool): Bytes {
    if Unreserved(b) then [b]
    else if b == SPACE && plus then [PLUS]
    else [PERCENT, HexDigit(b / 16), HexDigit(b % 16)]
  }

  function Encoded(s: Bytes, plus: bool): Bytes {
    if s == [] then [] else Encoded(s[..|s| - 1], plus) + Code(s[|s| - 1], plus)
  }

  predicate Escape(s: Bytes) { |s| >= 3 && s[0] == PERCENT && IsHexDigit(s[1]) && IsHexDigit(s[2]) }

  function Decoded(s: Bytes, plus: bool): Bytes
    decreases |s|
  {
    if s == [] then []
    else if s[0] == PLUS && plus then [SPACE] + Decoded(s[1..], plus)
    else if Escape(s) then [HexValue(s[1]) * 16 + HexValue(s[2])] + Decoded(s[3..], plus)
    else [s[0]] + Decoded(s[1..], plus)
  }

  datatype Buffer = Unused | Used(bytes: Bytes)

  /** A buffer is used from the first byte on that has to be encoded. */
  method UrlEncode(str: Bytes, plus: bool) returns (r: Bytes)
    ensures r == Encoded(str, plus)
  {
    hide Encoded, Unreserved, HexDigit;
    var ss := Unused;
    var c := 0;
    EncodedNone(plus);
    while c < |str|
      invariant 0 <= c <= |str|
      invariant Encoded(str[..c], plus) == SoFar(ss, str, c)
    {
      EncodedNext(str, c, plus);
      var b := str[c];
      if !Unreserved(b) {
        if ss.Unused? {
          ss := Used(str[..c]);
        }
        if b == SPACE && plus {
          ss := Used(ss.bytes + [PLUS]);
        } else {
          Join3(ss.bytes, PERCENT, HexDigit(b / 16), HexDigit(b % 16));
          ss := Used(ss.bytes + [PERCENT] + [HexDigit(b / 16)] + [HexDigit(b % 16)]);
        }
      } else if ss.Used? {
        ss := Used(ss.bytes + [b]);
      }
      c := c + 1;
    }
    assert str[..c] == str;
    r := if ss.Unused? then str else ss.bytes;
  }

  lemma EncodedNone(plus: bool)
    ensures Encoded([], plus) == []
  {
  }

  lemma EncodedNext(s: Bytes, c: nat, plus: bool)
    requires c < |s|
    ensures Encoded(s[..c + 1], plus) == Encoded(s[..c], plus) + Code(s[c], plus)
    ensures s[..c] + [s[c]] == s[..c + 1]
  {
    assert s[..c + 1][..c] == s[..c];
  }

  lemma Join3(s: Bytes, a: Byte, b: Byte, c: Byte)
    ensures s + [a] + [b] + [c] == s + [a, b, c]
  {
  }

  method UrlDecode(str: Bytes, plus: bool) returns (r: Bytes)
    ensures r == Decoded(str, plus)
  {
    hide Decoded, HexValue, IsHexDigit;
    var ss := Unused;
    var c := 0;
    assert str[c..] == str;
    while c < |str|
      invariant 0 <= c <= |str|
      invariant Decoded(str, plus) == SoFar(ss, str, c) + Decoded(str[c..], plus)
    {
      ghost var done := SoFar(ss, str, c);
      DecodedNext(str, c, plus);
      var b := str[c];
      if b == PLUS && plus {
        if ss.Unused? {
          ss := Used(str[..c]);
        }
        ss := Used(ss.bytes + [SPACE]);
        Append(done, SPACE, Decoded(str[c + 1..], plus));
      } else if b == PERCENT && c + 2 < |str| && IsHexDigit(str[c + 1]) && IsHexDigit(str[c + 2]) {
        if ss.Unused? {
          ss := Used(str[..c]);
        }
        var x := HexValue(str[c + 1]) * 16 + HexValue(str[c + 2]);
        ss := Used(ss.bytes + [x]);
        Append(done, x, Decoded(str[c + 3..], plus));
        c := c + 2;
      } else {
        if ss.Used? {
          ss := Used(ss.bytes + [b]);
        }
        Append(done, b, Decoded(str[c + 1..], plus));
      }
      c := c + 1;
    }
    DecodedNone(plus);
    assert str[c..] == [] && str[..c] == str;
    r := if ss.Unused? then str else ss.bytes;
  }

  /** What has been decoded when c bytes have been read. */
  ghost function SoFar(ss: Buffer, str: Bytes, c: nat): Bytes
    requires c <= |str|
  {
    if ss.Unused? then str[..c] else ss.bytes
  }

  lemma Append(done: Bytes, b: Byte, rest: Bytes)
    ensures done + ([b] + rest) == done + [b] + rest
  {
  }

  lemma DecodedNone(plus: bool)
    ensures Decoded([], plus) == []
  {
  }

  /** The three cases of decoding, by position. */
  lemma DecodedNext(s: Bytes, c: nat, plus: bool)
    requires c < |s|
    ensures Decoded(s[c..], plus) ==
            if s[c] == PLUS && plus then [SPACE] + Decoded(s[c + 1..], plus)
            else if s[c] == PERCENT && c + 2 < |s| && IsHexDigit(s[c + 1]) && IsHexDigit(s[c + 2]) then
              [HexValue(s[c + 1]) * 16 + HexValue(s[c + 2])] + Decoded(s[c + 3..], plus)
            else [s[c]] + Decoded(s[c + 1..], plus)
  {
    hide HexValue, IsHexDigit;
    assert s[c..][1..] == s[c + 1..];
    if c + 2 < |s| {
      assert s[c..][3..] == s[c + 3..];
    }
  }

  // Round trip

  /** A byte that is not escaped is one byte, which is no escape. */
  lemma PlainCode(b: Byte, plus: bool)
    requires Unreserved(b) || (b == SPACE && plus)
    ensures var c := Code(b, plus);
            |c| == 1 && c[0] != PERCENT && (if c[0] == PLUS && plus then b == SPACE else b == c[0])
  {
  }

  lemma EscapedCode(b: Byte, plus: bool)
    requires !Unreserved(b) && !(b == SPACE && plus)
    ensures var c := Code(b, plus);
            && |c| == 3 && c[0] == PERCENT && IsHexDigit(c[1]) && IsHexDigit(c[2])
            && HexValue(c[1]) * 16 + HexValue(c[2]) == b
  {
    hide HexDigit, HexValue, IsHexDigit;
    HexRound(b / 16);
    HexRound(b % 16);
  }

  lemma DecodedCode(b: Byte, plus: bool, t: Bytes)
    ensures Decoded(Code(b, plus) + t, plus) == [b] + Decoded(t, plus)
  {
    var s := Code(b, plus) + t;
    if Unreserved(b) || (b == SPACE && plus) {
      assert s[1..] == t;
      PlainCode(b, plus);
      hide Code, Unreserved, Escape;
      assert s[0] == Code(b, plus)[0];
    } else {
      EscapedCode(b, plus);
      hide Code, Unreserved, HexDigit, HexValue, IsHexDigit;
      var c := Code(b, plus);
      assert s[0] == c[0] && s[1] == c[1] && s[2] == c[2] && s[3..] == t;
    }
  }

  lemma {:induction false} DecodedEncoded(s: Bytes, plus: bool, t: Bytes)
    ensures Decoded(Encoded(s, plus) + t, plus) == s + Decoded(t, plus)
    decreases |s|
  {
    hide Code, Decoded;
    if s == [] {
      assert Encoded(s, plus) + t == t;
    } else {
      var front, b := s[..|s| - 1], s[|s| - 1];
      assert Encoded(s, plus) + t == Encoded(front, plus) + (Code(b, plus) + t);
      DecodedEncoded(front, plus, Code(b, plus) + t);
      DecodedCode(b, plus, t);
      assert front + ([b] + Decoded(t, plus)) == s + Decoded(t, plus);
    }
  }

  /** Decoding inverts encoding, for every byte string, when both treat spaces alike. */
  lemma UrlRoundTrip(s: Bytes, plus: bool)
    ensures Decoded(Encoded(s, plus), plus) == s
  {
    DecodedEncoded(s, plus, []);
    assert Encoded(s, plus) + [] == Encoded(s, plus);
  }

  // The characters themselves

  const SMALL_DIGITS := "0123456789abcdef"

  const CAPITAL_DIGITS := "0123456789ABCDEF"

  /** A percent sign and two hexadecimal digits, each in either case, are the byte whose digits they are. */
  lemma DecodeEscape(x: nat, y: nat, c: Byte, d: Byte, tail: Bytes, plus: bool)
    requires x < 16 && (c as char == SMALL_DIGITS[x] || c as char == CAPITAL_DIGITS[x])
    requires y < 16 && (d as char == SMALL_DIGITS[y] || d as char == CAPITAL_DIGITS[y])
    ensures Decoded(['%' as int, c, d] + tail, plus) == [16 * x + y] + Decoded(tail, plus)
  {
    DigitPlace(x, c);
    DigitPlace(y, d);
    hide IsHexDigit, HexValue;
    assert (['%' as int, c, d] + tail)[3..] == tail;
  }

  lemma DigitPlace(x: nat, c: Byte)
    requires x < 16 && (c as char == SMALL_DIGITS[x] || c as char == CAPITAL_DIGITS[x])
    ensures IsHexDigit(c) && HexValue(c) == x
  {
  }

  /** A byte that is no percent sign, and no plus sign that stands for a space, is kept; a plus sign is a space if
      it is to be one. */
  lemma DecodeKept(b: Byte, tail: Bytes, plus: bool)
    requires b as char != '%'
    ensures Decoded([b] + tail, plus) == [if b as char == '+' && plus then ' ' as int else b] + Decoded(tail, plus)
  {
    assert ([b] + tail)[1..] == tail;
  }

  /** So is a percent sign that two hexadecimal digits do not follow. */
  lemma DecodePercent(tail: Bytes, plus: bool)
    requires |tail| < 2 || !HexText(tail[0]) || !HexText(tail[1])
    ensures Decoded(['%' as int] + tail, plus) == ['%' as int] + Decoded(tail, plus)
  {
    var s := ['%' as int] + tail;
    assert s[1..] == tail;
    if |tail| >= 2 {
      DigitText(tail[0]);
      DigitText(tail[1]);
      assert s[1] == tail[0] && s[2] == tail[1];
    }
    hide IsHexDigit, HexText;
  }

  predicate HexText(b: Byte) { b as char in "0123456789abcdefABCDEF" }

  lemma DigitText(b: Byte)
    ensures HexText(b) <==> IsHexDigit(b)
  {
  }

  /** Letters, digits and five marks are sent as they are, a space perhaps as a plus sign, and any other byte as
      a percent sign with its two digits, letters being capital. */
  lemma EncodeExact(b: Byte, s: Bytes, plus: bool)
    ensures Encoded(s + [b], plus) ==
            Encoded(s, plus) +
            if PlainText(b as char) then [b]
            else if b as char == ' ' && plus then ['+' as int]
            else ['%' as int, CAPITAL_DIGITS[b / 16] as int, CAPITAL_DIGITS[b % 16] as int]
  {
    assert (s + [b])[..|s|] == s;
    DigitWritten(b / 16);
    DigitWritten(b % 16);
    PlainExact(b);
    hide HexDigit, Unreserved, PlainText;
  }

  predicate PlainText(c: char) { 'a' <= c <= 'z' || 'A' <= c <= 'Z' || '0' <= c <= '9' || c in "-._~=" }

  lemma PlainExact(b: Byte)
    ensures PlainText(b as char) <==> Unreserved(b)
  {
  }

  lemma DigitWritten(n: nat)
    requires n < 16
    ensures HexDigit(n) == CAPITAL_DIGITS[n] as int
  {
  }

  // Parameters

  predicate Blank(b: Byte) { b == SPACE || b == 9 || b == 13 || b == 10 }

  /** The string without blanks at its ends. */
  function Trimmed(s: Bytes): Bytes
    decreases |s|
  {
    if s == [] then []
    else if Blank(s[0]) then Trimmed(s[1..])
    else if Blank(s[|s| - 1]) then Trimmed(s[..|s| - 1])
    else s
  }

  method Trim(str: Bytes) returns (r: Bytes)
    ensures r == Trimmed(str)
  {
    var begin := 0;
    while begin < |str| && Blank(str[begin])
      invariant 0 <= begin <= |str| && Trimmed(str) == Trimmed(str[begin..])
    {
      assert str[begin..][1..] == str[begin + 1..];
      begin := begin + 1;
    }
    if begin == |str| {
      return [];
    }
    var end := |str|;
    assert str[begin..end] == str[begin..];
    while Blank(str[end - 1])
      invariant begin < end <= |str| && !Blank(str[begin]) && Trimmed(str) == Trimmed(str[begin..end])
      decreases end
    {
      assert str[begin..end][..end - begin - 1] == str[begin..end - 1];
      end := end - 1;
    }
    r := str[begin..end];
  }

  /** What is cut off at both ends are spaces, tabs and the ends of lines, and all of them. */
  lemma {:induction false} TrimExact(s: Bytes) returns (i: nat, j: nat)
    ensures i <= j <= |s| && Trimmed(s) == s[i..j]
    ensures forall k :: 0 <= k < i || j <= k < |s| ==> s[k] as char in " \t\r\n"
    ensures i < j ==> s[i] as char !in " \t\r\n" && s[j - 1] as char !in " \t\r\n"
    decreases |s|
  {
    i, j := TrimEnds(s);
    forall k | 0 <= k < i || j <= k < |s| ensures s[k] as char in " \t\r\n" {
      BlankText(s[k]);
    }
    if i < j {
      BlankText(s[i]);
      BlankText(s[j - 1]);
    }
  }

  lemma {:induction false} TrimEnds(s: Bytes) returns (i: nat, j: nat)
    ensures i <= j <= |s| && Trimmed(s) == s[i..j]
    ensures forall k :: 0 <= k < i || j <= k < |s| ==> Blank(s[k])
    ensures i < j ==> !Blank(s[i]) && !Blank(s[j - 1])
    decreases |s|
  {
    hide Blank;
    i, j := 0, |s|;
    if s != [] && Blank(s[0]) {
      i, j := TrimEnds(s[1..]);
      assert s[1..][i..j] == s[i + 1..j + 1];
      assert forall k :: 1 <= k < |s| ==> s[k] == s[1..][k - 1];
      i, j := i + 1, j + 1;
    } else if s != [] && Blank(s[|s| - 1]) {
      i, j := TrimEnds(s[..|s| - 1]);
      assert s[..|s| - 1][i..j] == s[i..j];
    }
  }

  lemma BlankText(b: Byte)
    ensures Blank(b) <==> b as char in " \t\r\n"
  {
  }

  /** The first position of a byte from a given one on, or the length. */
  function Find(s: Bytes, b: Byte, from: nat): (i: nat)
    requires from <= |s|
    ensures from <= i <= |s| && (i < |s| ==> s[i] == b)
    ensures forall j :: from <= j < i ==> s[j] != b
    decreases |s| - from
  {
    if from == |s| || s[from] == b then from else Find(s, b, from + 1)
  }

  /** The parameters a string adds to a map: what is before an = is the name, what is behind it up to the
      next separator is the value. */
  function Params(s: Bytes, flag: Byte, m: map<Bytes, Bytes>): map<Bytes, Bytes>
    requires flag != EQUALS
    decreases |s|
  {
    var key := Find(s, EQUALS, 0);
    if key == |s| then m
    else
      var pos := Find(s, flag, key);
      var t := Entered(m, s[..key], s[key + 1..pos]);
      if pos == |s| then t else Params(s[pos + 1..], flag, t)
  }

  /** A map with one parameter entered, from its name and value as they stand in the string. */
  function Entered(m: map<Bytes, Bytes>, name: Bytes, value: Bytes): map<Bytes, Bytes> {
    m[Decoded(Trimmed(name), true) := Decoded(Trimmed(value), true)]
  }

  /** Searching the rest of a string is searching the string from there. */
  lemma {:induction false} FindRest(s: Bytes, b: Byte, base: nat, from: nat)
    requires base <= from <= |s|
    ensures Find(s[base..], b, from - base) + base == Find(s, b, from)
    decreases |s| - from
  {
    if from < |s| && s[from] != b {
      FindRest(s, b, base, from + 1);
    }
  }

  /** One turn of the loop, by position. */
  lemma ParamsNext(s: Bytes, last: nat, flag: Byte, m: map<Bytes, Bytes>)
    requires flag != EQUALS && last <= |s|
    ensures Params(s[last..], flag, m) ==
            var key := Find(s, EQUALS, last);
            if key == |s| then m
            else
              var pos := Find(s, flag, key);
              var t := Entered(m, s[last..key], s[key + 1..pos]);
              if pos == |s| then t else Params(s[pos + 1..], flag, t)
  {
    hide Entered, Find, Params;
    var key := Find(s, EQUALS, last);
    var pos := if key < |s| then Find(s, flag, key) else key;
    FindRest(s, EQUALS, last, last);
    if key < |s| {
      FindRest(s, flag, last, key);
      Slices(s, last, 0, key - last);
      Slices(s, last, key - last + 1, pos - last);
      if pos < |s| {
        Slices(s, last, pos - last + 1, |s| - last);
      }
    }
    ParamsHead(s[last..], flag, m, key - last, pos - last);
  }

  /** The definition of the parameters, with the two positions given. */
  lemma ParamsHead(s: Bytes, flag: Byte, m: map<Bytes, Bytes>, key: nat, pos: nat)
    requires flag != EQUALS && key == Find(s, EQUALS, 0) && (key < |s| ==> pos == Find(s, flag, key))
    ensures Params(s, flag, m) ==
            if key == |s| then m
            else
              var t := Entered(m, s[..key], s[key + 1..pos]);
              if pos == |s| then t else Params(s[pos + 1..], flag, t)
  {
    hide Entered, Find;
  }

  lemma Slices(s: Bytes, base: nat, i: nat, j: nat)
    requires base <= |s| && i <= j <= |s| - base
    ensures s[base..][i..j] == s[base + i..base + j]
    ensures j == |s| - base ==> s[base..][i..] == s[base + i..]
  {
  }

  /** The loop of PARSE_PARAM. */
  method ParseParam(str: Bytes, flag: Byte, data: map<Bytes, Bytes>) returns (r: map<Bytes, Bytes>)
    requires flag != EQUALS
    ensures r == Params(str, flag, data)
  {
    hide Decoded, Trimmed, Params, Find;
    r := data;
    var pos := 0;
    assert str[pos..] == str;
    while true
      invariant 0 <= pos <= |str| && Params(str[pos..], flag, r) == Params(str, flag, data)
      decreases |str| - pos
    {
      ParamsNext(str, pos, flag, r);
      var last := pos;
      pos := Find(str, EQUALS, pos);
      if pos == |str| {
        break;
      }
      var key := pos;
      pos := Find(str, flag, pos);
      var name := Trim(str[last..key]);
      name := UrlDecode(name, true);
      var value := Trim(str[key + 1..pos]);
      value := UrlDecode(value, true);
      r := r[name := value];
      if pos == |str| {
        break;
      }
      pos := pos + 1;
    }
  }

  // Round trip of a form

  type Pair = (Bytes, Bytes)

  function EncodePair(p: Pair): Bytes { Encoded(p.0, true) + ['=' as int] + Encoded(p.1, true) }

  function Joined(ps: seq<Pair>, flag: Byte): Bytes
    requires ps != []
  {
    if |ps| == 1 then EncodePair(ps[0]) else EncodePair(ps[0]) + [flag] + Joined(ps[1..], flag)
  }

  function Inserted(m: map<Bytes, Bytes>, ps: seq<Pair>): map<Bytes, Bytes>
    decreases |ps|
  {
    if ps == [] then m
    else Inserted(m[ps[0].0 := ps[0].1], ps[1..])
  }

  /** Bytes an encoded string never contains. */
  predicate Clean(s: Bytes) {
    forall i :: 0 <= i < |s| ==> !Blank(s[i]) && s[i] != AMPERSAND && s[i] != SEMICOLON
  }

  lemma {:induction false} EncodedClean(s: Bytes, plus: bool)
    ensures Clean(Encoded(s, plus))
    ensures EQUALS !in s ==> EQUALS !in Encoded(s, plus)
  {
    if s != [] {
      EncodedClean(s[..|s| - 1], plus);
    }
  }

  lemma CleanTrimmed(s: Bytes)
    requires Clean(s)
    ensures Trimmed(s) == s
  {
  }

  lemma FindAt(s: Bytes, b: Byte, from: nat, at: nat)
    requires from <= at <= |s| && (at < |s| ==> s[at] == b) && b !in s[from..at]
    ensures Find(s, b, from) == at
  {
    var i := Find(s, b, from);
    assert forall j :: from <= j < at ==> s[j] == s[from..at][j - from];
  }

  lemma EnteredEncoded(p: Pair, m: map<Bytes, Bytes>)
    ensures Entered(m, Encoded(p.0, true), Encoded(p.1, true)) == m[p.0 := p.1]
  {
    EncodedClean(p.0, true);
    EncodedClean(p.1, true);
    CleanTrimmed(Encoded(p.0, true));
    CleanTrimmed(Encoded(p.1, true));
    UrlRoundTrip(p.0, true);
    UrlRoundTrip(p.1, true);
  }

  /** One encoded pair, at the end of the string or in front of a separator. */
  lemma PairParsed(p: Pair, flag: Byte, tail: Bytes, m: map<Bytes, Bytes>)
    requires EQUALS !in p.0 && flag in {AMPERSAND, SEMICOLON}
    ensures Params(EncodePair(p), flag, m) == m[p.0 := p.1]
    ensures Params(EncodePair(p) + [flag] + tail, flag, m) == Params(tail, flag, m[p.0 := p.1])
  {
    hide Encoded, Entered, Find;
    var k, v := Encoded(p.0, true), Encoded(p.1, true);
    EncodedClean(p.0, true);
    EncodedClean(p.1, true);
    EnteredEncoded(p, m);
    var s := EncodePair(p);
    var t := s + [flag] + tail;
    assert s[..|k|] == k && s[|k|..|s|] == [EQUALS] + v && s[|k| + 1..|s|] == v;
    assert t[..|k|] == k && t[|k|..|s|] == [EQUALS] + v && t[|k| + 1..|s|] == v && t[|s| + 1..] == tail;
    FindAt(s, EQUALS, 0, |k|);
    FindAt(s, flag, |k|, |s|);
    FindAt(t, EQUALS, 0, |k|);
    FindAt(t, flag, |k|, |s|);
  }

  /** A form whose names contain no = is read back, later pairs taking the place of earlier ones of the same
      name. */
  lemma {:induction false} FormRoundTrip(ps: seq<Pair>, flag: Byte, m: map<Bytes, Bytes>)
    requires ps != [] && flag in {AMPERSAND, SEMICOLON} && forall i :: 0 <= i < |ps| ==> EQUALS !in ps[i].0
    ensures Params(Joined(ps, flag), flag, m) == Inserted(m, ps)
    decreases |ps|
  {
    hide Params, EncodePair;
    if |ps| == 1 {
      PairParsed(ps[0], flag, [], m);
      assert ps[1..] == [];
    } else {
      PairParsed(ps[0], flag, Joined(ps[1..], flag), m);
      FormRoundTrip(ps[1..], flag, m[ps[0].0 := ps[0].1]);
    }
  }

  /** Cookies as they are sent, with a semicolon and a space between them. */
  function CookieList(ps: seq<Pair>): Bytes
    requires ps != []
  {
    if |ps| == 1 then EncodePair(ps[0]) else EncodePair(ps[0]) + [';' as int] + ([' ' as int] + CookieList(ps[1..]))
  }

  /** A space in front of a name is cut off. */
  lemma SpaceDropped(s: Bytes, m: map<Bytes, Bytes>)
    ensures Params([SPACE] + s, SEMICOLON, m) == Params(s, SEMICOLON, m)
  {
    hide Params, Find, Entered;
    var t := [SPACE] + s;
    assert t[1..] == s;
    var key := Find(s, EQUALS, 0);
    FindBehind(t, EQUALS);
    ParamsNext(t, 0, SEMICOLON, m);
    ParamsNext(t, 1, SEMICOLON, m);
    assert t[0..] == t;
    if key < |s| {
      SpaceEntered(m, t[1..key + 1], t[key + 2..Find(t, SEMICOLON, key + 1)]);
      assert t[0..key + 1] == [SPACE] + t[1..key + 1];
    }
  }

  lemma FindBehind(t: Bytes, b: Byte)
    requires t != [] && t[0] == SPACE && b != SPACE
    ensures Find(t, b, 0) == Find(t, b, 1) == Find(t[1..], b, 0) + 1
  {
    FindRest(t, b, 1, 1);
  }

  lemma SpaceEntered(m: map<Bytes, Bytes>, name: Bytes, value: Bytes)
    ensures Entered(m, [SPACE] + name, value) == Entered(m, name, value)
  {
    assert ([SPACE] + name)[1..] == name;
  }

  /** A list of cookies is read back, the space behind each semicolon belonging to no name. */
  lemma {:induction false} CookieRoundTrip(ps: seq<Pair>, m: map<Bytes, Bytes>)
    requires ps != [] && forall i :: 0 <= i < |ps| ==> '=' as int !in ps[i].0
    ensures Params(CookieList(ps), ';' as int, m) == Inserted(m, ps)
    decreases |ps|
  {
    hide Params, EncodePair;
    if |ps| == 1 {
      PairParsed(ps[0], SEMICOLON, [], m);
      assert ps[1..] == [];
    } else {
      var rest := CookieList(ps[1..]);
      PairParsed(ps[0], SEMICOLON, [SPACE] + rest, m);
      SpaceDropped(rest, m[ps[0].0 := ps[0].1]);
      CookieRoundTrip(ps[1..], m[ps[0].0 := ps[0].1]);
    }
  }

  /** The first = of a string divides it. */
  lemma {:induction false} FirstEquals(s: Bytes) returns (j: nat)
    requires EQUALS in s
    ensures j < |s| && s[j] == EQUALS && EQUALS !in s[..j]
  {
    j := Find(s, EQUALS, 0);
    assert forall i :: 0 <= i < j ==> s[..j][i] == s[i];
  }

  lemma {:induction false} EncodedSplit(a: Bytes, b: Bytes)
    ensures Encoded(a + b, true) == Encoded(a, true) + Encoded(b, true)
    decreases |b|
  {
    if b == [] {
      assert a + b == a;
    } else {
      assert (a + b)[..|a + b| - 1] == a + b[..|b| - 1];
      EncodedSplit(a, b[..|b| - 1]);
    }
  }

  /** The restriction on names is needed: = is not encoded, so a pair is read back exactly when its name does
      not contain it. */
  lemma PairRoundTrip(p: Pair, flag: Byte)
    requires flag in {AMPERSAND, SEMICOLON}
    ensures Params(EncodePair(p), flag, map[]) == map[p.0 := p.1] <==> EQUALS !in p.0
  {
    hide Params, Encoded, EncodePair;
    if EQUALS in p.0 {
      var j := FirstEquals(p.0);
      var name, more := p.0[..j], p.0[j + 1..];
      EqualsName(name, more, p.1, flag);
      assert p.0 == name + [EQUALS] + more;
      assert name in map[name := more + [EQUALS] + p.1] && |name| != |p.0|;
      assert p.0 !in map[name := more + [EQUALS] + p.1];
    } else {
      PairParsed(p, flag, [], map[]);
    }
  }

  /** What is behind the first = of a name is read as part of the value. */
  lemma EqualsName(name: Bytes, more: Bytes, value: Bytes, flag: Byte)
    requires EQUALS !in name && flag in {AMPERSAND, SEMICOLON}
    ensures Params(EncodePair((name + [EQUALS] + more, value)), flag, map[]) ==
            map[name := more + [EQUALS] + value]
  {
    hide Params, Encoded;
    EncodedSplit(name + [EQUALS], more);
    EncodedSplit(name, [EQUALS]);
    EncodedSplit(more + [EQUALS], value);
    EncodedSplit(more, [EQUALS]);
    EncodedEquals();
    var e := Encoded(more, true);
    assert EncodePair((name + [EQUALS] + more, value)) == EncodePair((name, more + [EQUALS] + value));
    PairParsed((name, more + [EQUALS] + value), flag, [], map[]);
  }

  lemma EncodedEquals()
    ensures Encoded([EQUALS], true) == [EQUALS]
  {
    assert [EQUALS][..0] == [];
  }

  // Requests

  /** The parts of a request its parameters come from, and the parameters found so far. */
  class Request {
    var query: Bytes
    var body: Bytes
    var formEncoded: bool   // Content-Type is application/x-www-form-urlencoded
    var cookie: Bytes
    var params: map<Bytes, Bytes>
    var cookies: map<Bytes, Bytes>
    var queryDone: bool
    var bodyDone: bool
    var cookiesDone: bool

    method InitQueryParam()
      modifies `params, `queryDone
      ensures queryDone && params == if old(queryDone) then old(params) else Params(query, '&' as int, old(params))
    {
      if queryDone {
        return;
      }
      params := ParseParam(query, AMPERSAND, params);
      queryDone := true;
    }

    method InitBodyParam()
      modifies `params, `bodyDone
      ensures bodyDone
      ensures params == if old(bodyDone) || !formEncoded then old(params) else Params(body, '&' as int, old(params))
    {
      if bodyDone {
        return;
      }
      if formEncoded {
        params := ParseParam(body, AMPERSAND, params);
      }
      bodyDone := true;
    }

    method InitCookies()
      modifies `cookies, `cookiesDone
      ensures cookiesDone
      ensures cookies == if old(cookiesDone) || cookie == [] then old(cookies)
                         else Params(cookie, ';' as int, old(cookies))
    {
      if cookiesDone {
        return;
      }
      if cookie == [] {
        cookiesDone := true;
        return;
      }
      cookies := ParseParam(cookie, SEMICOLON, cookies);
      cookiesDone := true;
    }
  }
}
