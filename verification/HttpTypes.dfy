/** The vocabulary of the HTTP/1.1 request parser: bytes, character classes, parser states, header
    states, flags, error codes, and the trace of callbacks. */
module HttpTypes {

  /** A byte, written as the character with that code.  No definition below depends on the code being
      under 256, so the theorems cover all bytes. */
  type Byte = char

  type Bytes = seq<Byte>

  const CR: Byte := '\r'
  const LF: Byte := '\n'

  /** Largest number of header bytes, HTTP_MAX_HEADER_SIZE. */
  const MAX_HEADER_SIZE: nat := 81920

  /** The content length of a message that has none, ULLONG_MAX. */
  const NO_LENGTH: nat := 0xFFFF_FFFF_FFFF_FFFF

  /** Two to the power of the width of the running header byte count. */
  const TWO_32: nat := 0x1_0000_0000

  // Character classes (strict mode)

  /** Sets bit 5, as LOWER does; on a letter this is the lower-case letter. */
  function Lower(c: Byte): Byte {
    if c as int < 256 && (c as int / 32) % 2 == 0 then (c as int + 32) as char else c
  }

  predicate IsNum(c: Byte) { '0' <= c <= '9' }

  predicate IsAlpha(c: Byte) { 'a' <= Lower(c) <= 'z' }

  predicate IsAlphaNum(c: Byte) { IsAlpha(c) || IsNum(c) }

  predicate IsHex(c: Byte) { IsNum(c) || 'a' <= Lower(c) <= 'f' }

  predicate IsMark(c: Byte) { c in "-_.!~*'()" }

  predicate IsUserinfoChar(c: Byte) { IsAlphaNum(c) || IsMark(c) || c in "%;:&=+$," }

  predicate IsHostChar(c: Byte) { IsAlphaNum(c) || c == '.' || c == '-' }

  predicate IsUrlChar(c: Byte) { '!' <= c <= '~' && c != '#' && c != '?' }

  /** Visible US-ASCII, the bytes above it, tab, CR and LF. */
  predicate IsHeaderChar(c: Byte) { c == CR || c == LF || c == '\t' || (c as int > 31 && c as int != 127) }

  /** Bytes that may stand in a header name (section 3.2.6 of RFC 7230). */
  predicate IsToken(c: Byte) { IsAlphaNum(c) || c in "!#$%&'*+-.^_`|~" }

  /** The value of a hexadecimal digit, or -1.  The table behind it spells out its first 128 entries
      only; the other 128 are 0, so a byte above US-ASCII reads as the digit zero. */
  function Unhex(c: Byte): int {
    if IsNum(c) then c as int - '0' as int
    else if 'a' <= c <= 'f' then c as int - 'a' as int + 10
    else if 'A' <= c <= 'F' then c as int - 'A' as int + 10
    else if 128 <= c as int < 256 then 0
    else -1
  }

  /** The entry of a header name byte in the token table: letters come out in lower case. */
  function TokenChar(c: Byte): Byte { if IsAlpha(c) then Lower(c) else c }

  function Digit(c: Byte): nat
    requires IsNum(c)
  {
    c as int - '0' as int
  }

  // Parser states of a request parser

  datatype State =
    | Dead
    | StartReq
    | ReqMethod
    | ReqSpacesBeforeUrl
    | ReqSchema
    | ReqSchemaSlash
    | ReqSchemaSlashSlash
    | ReqServerStart
    | ReqServer
    | ReqServerWithAt
    | ReqPath
    | ReqQueryStringStart
    | ReqQueryString
    | ReqFragmentStart
    | ReqFragment
    | ReqHttpStart
    | ReqHttpH
    | ReqHttpHT
    | ReqHttpHTT
    | ReqHttpHTTP
    | ReqHttpI
    | ReqHttpIC
    | ReqHttpMajor
    | ReqHttpDot
    | ReqHttpMinor
    | ReqHttpEnd
    | ReqLineAlmostDone
    | HeaderFieldStart
    | HeaderField
    | HeaderValueDiscardWs
    | HeaderValueDiscardWsAlmostDone
    | HeaderValueDiscardLws
    | HeaderValueStart
    | HeaderValue
    | HeaderValueLws
    | HeaderAlmostDone
    | ChunkSizeStart
    | ChunkSize
    | ChunkParameters
    | ChunkSizeAlmostDone
    | HeadersAlmostDone
    | HeadersDone
    | ChunkData
    | ChunkDataAlmostDone
    | ChunkDataDone
    | BodyIdentity
    | MessageDone

  /** Bytes read in these states count towards the header size limit. */
  predicate ParsingHeader(s: State) {
    !(s.ChunkData? || s.ChunkDataAlmostDone? || s.ChunkDataDone? || s.BodyIdentity? || s.MessageDone?)
  }

  /** The states in which the bytes of a request target are collected. */
  predicate UrlState(s: State) {
    s.ReqSchema? || s.ReqSchemaSlash? || s.ReqSchemaSlashSlash? || s.ReqServerStart? || s.ReqServer? ||
    s.ReqServerWithAt? || s.ReqPath? || s.ReqQueryStringStart? || s.ReqQueryString? ||
    s.ReqFragmentStart? || s.ReqFragment?
  }

  /** The states of the HTTP version, and the end of the request line. */
  predicate VersionState(s: State) {
    s.ReqHttpStart? || s.ReqHttpH? || s.ReqHttpHT? || s.ReqHttpHTT? || s.ReqHttpHTTP? || s.ReqHttpI? ||
    s.ReqHttpIC? || s.ReqHttpMajor? || s.ReqHttpDot? || s.ReqHttpMinor? || s.ReqHttpEnd? || s.ReqLineAlmostDone?
  }

  datatype HeaderState =
    | General
    | C
    | CO
    | CON
    | MatchingConnection
    | MatchingProxyConnection
    | MatchingContentLength
    | MatchingTransferEncoding
    | MatchingUpgrade
    | Connection
    | ContentLength
    | ContentLengthNum
    | ContentLengthWs
    | TransferEncoding
    | Upgrade
    | MatchingTransferEncodingChunked
    | MatchingConnectionTokenStart
    | MatchingConnectionKeepAlive
    | MatchingConnectionClose
    | MatchingConnectionUpgrade
    | MatchingConnectionToken
    | TransferEncodingChunked
    | ConnectionKeepAlive
    | ConnectionClose
    | ConnectionUpgrade

  /** One field per flag bit; F_SKIPBODY is set by callbacks only and has no field. */
  datatype Flags = Flags(chunked: bool, keepAlive: bool, close: bool, connectionUpgrade: bool,
                         trailing: bool, upgrade: bool, contentLength: bool)

  const NO_FLAGS := Flags(false, false, false, false, false, false, false)

  datatype Errno =
    | OK
    | INVALID_EOF_STATE
    | HEADER_OVERFLOW
    | CLOSED_CONNECTION
    | INVALID_VERSION
    | INVALID_METHOD
    | INVALID_URL
    | LF_EXPECTED
    | INVALID_HEADER_TOKEN
    | INVALID_CONTENT_LENGTH
    | UNEXPECTED_CONTENT_LENGTH
    | INVALID_CHUNK_SIZE
    | INVALID_CONSTANT
    | INVALID_INTERNAL_STATE
    | STRICT

  datatype Method =
    | DELETE | GET | HEAD | POST | PUT
    | CONNECT | OPTIONS | TRACE
    | COPY | LOCK | MKCOL | MOVE | PROPFIND | PROPPATCH | SEARCH | UNLOCK | BIND | REBIND | UNBIND | ACL
    | REPORT | MKACTIVITY | CHECKOUT | MERGE
    | MSEARCH | NOTIFY | SUBSCRIBE | UNSUBSCRIBE
    | PATCH | PURGE
    | MKCALENDAR
    | LINK | UNLINK
    | SOURCE

  function MethodName(m: Method): Bytes {
    match m
    case DELETE => "DELETE" case GET => "GET" case HEAD => "HEAD" case POST => "POST" case PUT => "PUT"
    case CONNECT => "CONNECT" case OPTIONS => "OPTIONS" case TRACE => "TRACE"
    case COPY => "COPY" case LOCK => "LOCK" case MKCOL => "MKCOL" case MOVE => "MOVE"
    case PROPFIND => "PROPFIND" case PROPPATCH => "PROPPATCH" case SEARCH => "SEARCH" case UNLOCK => "UNLOCK"
    case BIND => "BIND" case REBIND => "REBIND" case UNBIND => "UNBIND" case ACL => "ACL"
    case REPORT => "REPORT" case MKACTIVITY => "MKACTIVITY" case CHECKOUT => "CHECKOUT" case MERGE => "MERGE"
    case MSEARCH => "M-SEARCH" case NOTIFY => "NOTIFY" case SUBSCRIBE => "SUBSCRIBE"
    case UNSUBSCRIBE => "UNSUBSCRIBE"
    case PATCH => "PATCH" case PURGE => "PURGE"
    case MKCALENDAR => "MKCALENDAR"
    case LINK => "LINK" case UNLINK => "UNLINK"
    case SOURCE => "SOURCE"
  }

  // The callback trace

  /** One callback.  Data callbacks carry the bytes they were given. */
  datatype Event =
    | MessageBegin
    | Url(bytes: Bytes)
    | Field(bytes: Bytes)
    | Value(bytes: Bytes)
    | HeadersComplete
    | Body(bytes: Bytes)
    | MessageComplete
    | ChunkHeader
    | ChunkComplete
  {
    predicate IsData() { Url? || Field? || Value? || Body? }

    predicate SameKind(e: Event) {
      (Url? && e.Url?) || (Field? && e.Field?) || (Value? && e.Value?) || (Body? && e.Body?)
    }

    /** This data callback followed by the bytes of another one of the same kind. */
    function Join(e: Event): Event
      requires SameKind(e)
    {
      match this
      case Url(b) => Url(b + e.bytes)
      case Field(b) => Field(b + e.bytes)
      case Value(b) => Value(b + e.bytes)
      case Body(b) => Body(b + e.bytes)
    }
  }

  type Trace = seq<Event>

  /** Adds a callback to a trace, concatenating it with a preceding fragment of the same callback. */
  function Push(t: Trace, e: Event): Trace {
    if |t| > 0 && t[|t| - 1].SameKind(e) then t[..|t| - 1] + [t[|t| - 1].Join(e)] else t + [e]
  }

  /** A raw sequence of callbacks with adjacent fragments of one callback concatenated. */
  function Canon(cbs: seq<Event>): Trace {
    if cbs == [] then [] else Push(Canon(cbs[..|cbs| - 1]), cbs[|cbs| - 1])
  }

  /** The last callback is a fragment of the same kind as e. */
  predicate LastIs(t: Trace, e: Event) { |t| > 0 && t[|t| - 1].SameKind(e) }

  lemma CanonPush(cbs: seq<Event>, e: Event)
    ensures Canon(cbs + [e]) == Push(Canon(cbs), e)
  {
    assert (cbs + [e])[..|cbs|] == cbs;
  }

  lemma PushJoin(t: Trace, e: Event, f: Event)
    requires e.SameKind(f)
    ensures Push(Push(t, e), f) == Push(t, e.Join(f))
  {
    var u := Push(t, e);
    assert u[|u| - 1].SameKind(f);
    if |t| > 0 && t[|t| - 1].SameKind(e) {
      assert u[..|u| - 1] == t[..|t| - 1];
      var l := t[|t| - 1];
      assert l.Join(e).Join(f) == l.Join(e.Join(f)) by {
        assert (l.bytes + e.bytes) + f.bytes == l.bytes + (e.bytes + f.bytes);
      }
    } else {
      assert u[..|u| - 1] == t;
    }
  }

  lemma PushEmpty(t: Trace, e: Event)
    requires LastIs(t, e) && e.bytes == []
    ensures Push(t, e) == t
  {
    var l := t[|t| - 1];
    assert l.bytes + [] == l.bytes;
    assert l.Join(e) == l;
    assert t[..|t| - 1] + [l] == t;
  }

  lemma PushLast(t: Trace, e: Event)
    ensures |Push(t, e)| > 0
    ensures e.IsData() ==> LastIs(Push(t, e), e)
  {
  }
}
