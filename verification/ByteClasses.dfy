/** What the byte classes of the request parser and of the URL splitter contain, byte by byte, against the
    characters that section 3 of RFC 3986 and section 3.2.6 of RFC 7230 list. */
module ByteClasses {
  import opened HttpTypes
  import H = UrlHost

  const SMALL: Bytes := "abcdefghijklmnopqrstuvwxyz"

  const CAPITAL: Bytes := "ABCDEFGHIJKLMNOPQRSTUVWXYZ"

  predicate Letter(c: Byte) { 'a' <= c <= 'z' || 'A' <= c <= 'Z' }

  predicate Figure(c: Byte) { '0' <= c <= '9' }

  predicate Unreserved(c: Byte) { Letter(c) || Figure(c) || c in "-._~" }

  predicate SubDelimiter(c: Byte) { c in "!$&'()*+,;=" }

  /** The bytes of pchar, that of a percent escape among them. */
  predicate PathChar(c: Byte) { Unreserved(c) || SubDelimiter(c) || c in "%:@" }

  /** Bytes that no part of a URL may have, and that are accepted all the same. */
  predicate Tolerated(c: Byte) { c in "\"<>[\\]^`{|}" }

  /** A path, a query and a fragment may contain exactly what the standard allows, and these. */
  lemma UrlCharExact(c: Byte)
    ensures IsUrlChar(c) <==> PathChar(c) || c == '/' || Tolerated(c)
  {
  }

  /** User information may contain exactly what the standard allows. */
  lemma UserinfoExact(c: Byte)
    ensures IsUserinfoChar(c) <==> Unreserved(c) || SubDelimiter(c) || c in "%:"
  {
  }

  /** A host name may contain these only; of the bytes of a registered name the others are refused. */
  lemma HostCharExact(c: Byte)
    ensures IsHostChar(c) <==> Letter(c) || Figure(c) || c in ".-"
  {
  }

  lemma AddressCharExact(c: Byte)
    ensures H.AddressChar(c) <==> Figure(c) || c in "abcdefABCDEF:."
  {
  }

  /** A zone may contain exactly what RFC 6874 allows. */
  lemma ZoneCharExact(c: Byte)
    ensures H.ZoneChar(c) <==> Unreserved(c) || c == '%'
  {
  }

  lemma LetterExact(c: Byte)
    ensures IsAlpha(c) <==> Letter(c)
    ensures IsNum(c) <==> Figure(c)
  {
  }

  /** A header name consists of the bytes of tchar. */
  lemma TokenExact(c: Byte)
    ensures IsToken(c) <==> Letter(c) || Figure(c) || c in "!#$%&'*+-.^_`|~"
  {
  }

  /** A header value may contain the visible bytes, those above US-ASCII, blanks, and the ends of lines. */
  lemma HeaderCharExact(c: Byte)
    ensures IsHeaderChar(c) <==> ' ' <= c <= '~' || c as int >= 128 || c in "\t\r\n"
  {
  }

  /** A capital letter is compared as the small one at its place, and other bytes of a name as they are. */
  lemma LowerExact(k: nat)
    requires k < 26
    ensures Lower(CAPITAL[k]) == SMALL[k] == Lower(SMALL[k])
    ensures TokenChar(CAPITAL[k]) == SMALL[k] == TokenChar(SMALL[k])
  {
    LetterPlace(k);
  }

  lemma LetterPlace(k: nat)
    requires k < 26
    ensures CAPITAL[k] as int == 'A' as int + k && SMALL[k] as int == 'a' as int + k
  {
  }

  lemma OtherExact(c: Byte)
    requires !Letter(c)
    ensures TokenChar(c) == c && !Letter(Lower(c))
  {
  }

  lemma DigitExact(k: nat)
    requires k < 10
    ensures IsNum("0123456789"[k]) && Digit("0123456789"[k]) == k
  {
  }
}
