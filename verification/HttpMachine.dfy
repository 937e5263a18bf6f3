/** The request parser as a machine that consumes one byte at a time and has no buffers: the
    specification that HttpParser is proved against.  Callbacks return 0 and parsing is strict. */
module HttpMachine {
  import opened HttpTypes

  datatype Machine = Machine(
    state: State,
    headerState: HeaderState,
    index: nat,
    flags: Flags,
    nread: nat,
    contentLength: nat,
    major: nat,
    minor: nat,
    requestMethod: Method,
    upgrade: bool,
    errno: Errno,
    exited: bool,   // the message just completed hands the connection to another protocol
    trace: Trace)

  const INIT := Machine(StartReq, General, 0, NO_FLAGS, 0, 0, 0, 0, DELETE, false, OK, false, [])

  predicate Stopped(m: Machine) { m.errno != OK || m.exited }

  function Fail(m: Machine, e: Errno): Machine { m.(errno := e) }

  function Emit(m: Machine, e: Event): Machine { m.(trace := Push(m.trace, e)) }

  // The request target

  function ParseUrlChar(s: State, ch: Byte): State {
    if ch in " \r\n\t" || ch as int == 12 then Dead
    else match s
      case ReqSpacesBeforeUrl =>
        if ch == '/' || ch == '*' then ReqPath else if IsAlpha(ch) then ReqSchema else Dead
      case ReqSchema => if IsAlpha(ch) then s else if ch == ':' then ReqSchemaSlash else Dead
      case ReqSchemaSlash => if ch == '/' then ReqSchemaSlashSlash else Dead
      case ReqSchemaSlashSlash => if ch == '/' then ReqServerStart else Dead
      case ReqServerWithAt => if ch == '@' then Dead else ServerChar(ch)
      case ReqServerStart => ServerChar(ch)
      case ReqServer => ServerChar(ch)
      case ReqPath =>
        if IsUrlChar(ch) then s
        else if ch == '?' then ReqQueryStringStart
        else if ch == '#' then ReqFragmentStart
        else Dead
      case ReqQueryStringStart => QueryChar(ch)
      case ReqQueryString => QueryChar(ch)
      case ReqFragmentStart =>
        if IsUrlChar(ch) || ch == '?' then ReqFragment else if ch == '#' then s else Dead
      case ReqFragment => if IsUrlChar(ch) || ch == '?' || ch == '#' then s else Dead
      case _ => Dead
  }

  function ServerChar(ch: Byte): State {
    if ch == '/' then ReqPath
    else if ch == '?' then ReqQueryStringStart
    else if ch == '@' then ReqServerWithAt
    else if IsUserinfoChar(ch) || ch == '[' || ch == ']' then ReqServer
    else Dead
  }

  function QueryChar(ch: Byte): State {
    if IsUrlChar(ch) || ch == '?' then ReqQueryString else if ch == '#' then ReqFragmentStart else Dead
  }

  // The request line

  predicate MethodLetter(ch: Byte) { ch in "ABCDGHLMNOPRSTU" }

  /** The method guessed from its first letter. */
  function FirstMethod(ch: Byte): Method
    requires MethodLetter(ch)
  {
    match ch
    case 'A' => ACL
    case 'B' => BIND
    case 'C' => CONNECT
    case 'D' => DELETE
    case 'G' => GET
    case 'H' => HEAD
    case 'L' => LOCK
    case 'M' => MKCOL
    case 'N' => NOTIFY
    case 'O' => OPTIONS
    case 'P' => POST
    case 'R' => REPORT
    case 'S' => SUBSCRIBE
    case 'T' => TRACE
    case _ => UNLOCK
  }

  datatype MethodGuess = Guess(guess: Method) | NoGuess

  /** The guess after a byte that differs from the one expected at position pos. */
  function OtherMethod(m: Method, pos: nat, ch: Byte): MethodGuess {
    match (m, pos, ch)
    case (POST, 1, 'U') => Guess(PUT)
    case (POST, 1, 'A') => Guess(PATCH)
    case (POST, 1, 'R') => Guess(PROPFIND)
    case (PUT, 2, 'R') => Guess(PURGE)
    case (CONNECT, 1, 'H') => Guess(CHECKOUT)
    case (CONNECT, 2, 'P') => Guess(COPY)
    case (MKCOL, 1, 'O') => Guess(MOVE)
    case (MKCOL, 1, 'E') => Guess(MERGE)
    case (MKCOL, 1, '-') => Guess(MSEARCH)
    case (MKCOL, 2, 'A') => Guess(MKACTIVITY)
    case (MKCOL, 3, 'A') => Guess(MKCALENDAR)
    case (SUBSCRIBE, 1, 'E') => Guess(SEARCH)
    case (SUBSCRIBE, 1, 'O') => Guess(SOURCE)
    case (REPORT, 2, 'B') => Guess(REBIND)
    case (PROPFIND, 4, 'P') => Guess(PROPPATCH)
    case (LOCK, 1, 'I') => Guess(LINK)
    case (UNLOCK, 2, 'S') => Guess(UNSUBSCRIBE)
    case (UNLOCK, 2, 'B') => Guess(UNBIND)
    case (UNLOCK, 3, 'I') => Guess(UNLINK)
    case _ => NoGuess
  }

  function StepStart(m: Machine, ch: Byte): Machine {
    if ch == CR || ch == LF then m
    else
      var r := m.(flags := NO_FLAGS, contentLength := NO_LENGTH);
      if !MethodLetter(ch) then Fail(r, INVALID_METHOD)
      else Emit(r.(requestMethod := FirstMethod(ch), index := 1, state := ReqMethod), MessageBegin)
  }

  function StepMethod(m: Machine, ch: Byte): Machine {
    var name := MethodName(m.requestMethod);
    var next := m.(index := m.index + 1);
    if ch == '\0' then Fail(m, INVALID_METHOD)
    else if ch == ' ' && m.index == |name| then next.(state := ReqSpacesBeforeUrl)
    else if m.index < |name| && ch == name[m.index] then next
    else if 'A' <= ch <= 'Z' || ch == '-' then
      match OtherMethod(m.requestMethod, m.index, ch)
      case Guess(other) => next.(requestMethod := other)
      case NoGuess => Fail(m, INVALID_METHOD)
    else Fail(m, INVALID_METHOD)
  }

  function StepUrl(m: Machine, ch: Byte): Machine {
    var quiet := m.state.ReqSchema? || m.state.ReqSchemaSlash? || m.state.ReqSchemaSlashSlash?
                 || m.state.ReqServerStart?;
    if ch == ' ' && !quiet then m.(state := ReqHttpStart)
    else if (ch == CR || ch == LF) && !quiet then
      m.(major := 0, minor := 9, state := if ch == CR then ReqLineAlmostDone else HeaderFieldStart)
    else
      var s := ParseUrlChar(m.state, ch);
      if s.Dead? then Fail(m, INVALID_URL) else Emit(m.(state := s), Url([ch]))
  }

  function StepSpaces(m: Machine, ch: Byte): Machine {
    if ch == ' ' then m
    else
      var s := ParseUrlChar(if m.requestMethod.CONNECT? then ReqServerStart else ReqSpacesBeforeUrl, ch);
      if s.Dead? then Fail(m, INVALID_URL) else Emit(m.(state := s), Url([ch]))
  }

  function Expect(m: Machine, ch: Byte, wanted: Byte, s: State, e: Errno): Machine {
    if ch == wanted then m.(state := s) else Fail(m, e)
  }

  function StepVersion(m: Machine, ch: Byte): Machine {
    match m.state
    case ReqHttpStart =>
      if ch == ' ' then m
      else if ch == 'H' then m.(state := ReqHttpH)
      else if ch == 'I' && m.requestMethod.SOURCE? then m.(state := ReqHttpI)
      else Fail(m, INVALID_CONSTANT)
    case ReqHttpH => Expect(m, ch, 'T', ReqHttpHT, STRICT)
    case ReqHttpHT => Expect(m, ch, 'T', ReqHttpHTT, STRICT)
    case ReqHttpHTT => Expect(m, ch, 'P', ReqHttpHTTP, STRICT)
    case ReqHttpI => Expect(m, ch, 'C', ReqHttpIC, STRICT)
    case ReqHttpIC => Expect(m, ch, 'E', ReqHttpHTTP, STRICT)
    case ReqHttpHTTP => Expect(m, ch, '/', ReqHttpMajor, STRICT)
    case _ => StepVersionNumber(m, ch)
  }

  function StepVersionNumber(m: Machine, ch: Byte): Machine {
    match m.state
    case ReqHttpMajor =>
      if IsNum(ch) then m.(major := Digit(ch), state := ReqHttpDot) else Fail(m, INVALID_VERSION)
    case ReqHttpDot => Expect(m, ch, '.', ReqHttpMinor, INVALID_VERSION)
    case ReqHttpMinor =>
      if IsNum(ch) then m.(minor := Digit(ch), state := ReqHttpEnd) else Fail(m, INVALID_VERSION)
    case ReqHttpEnd =>
      if ch == CR then m.(state := ReqLineAlmostDone) else Expect(m, ch, LF, HeaderFieldStart, INVALID_VERSION)
    case _ => Expect(m, ch, LF, HeaderFieldStart, LF_EXPECTED)
  }

  // Header fields

  const CONNECTION: Bytes := "connection"
  const PROXY_CONNECTION: Bytes := "proxy-connection"
  const CONTENT_LENGTH: Bytes := "content-length"
  const TRANSFER_ENCODING: Bytes := "transfer-encoding"
  const UPGRADE: Bytes := "upgrade"
  const CHUNKED: Bytes := "chunked"
  const KEEP_ALIVE: Bytes := "keep-alive"
  const CLOSE: Bytes := "close"

  /** One byte of a keyword: position i of word is next. */
  function MatchByte(word: Bytes, i: nat, c: Byte, matching: HeaderState, found: HeaderState,
                     otherwise: HeaderState): HeaderState
  {
    if i >= |word| || c != word[i] then otherwise else if i == |word| - 1 then found else matching
  }

  function FieldFirst(c: Byte): HeaderState {
    match c
    case 'c' => C
    case 'p' => MatchingProxyConnection
    case 't' => MatchingTransferEncoding
    case 'u' => MatchingUpgrade
    case _ => General
  }

  /** The header state after the next byte of a header name; i is the position of that byte. */
  function FieldByte(h: HeaderState, i: nat, c: Byte): HeaderState {
    match h
    case C => if c == 'o' then CO else General
    case CO => if c == 'n' then CON else General
    case CON =>
      if c == 'n' then MatchingConnection else if c == 't' then MatchingContentLength else General
    case MatchingConnection => MatchByte(CONNECTION, i, c, h, Connection, General)
    case MatchingProxyConnection => MatchByte(PROXY_CONNECTION, i, c, h, Connection, General)
    case MatchingContentLength => MatchByte(CONTENT_LENGTH, i, c, h, ContentLength, General)
    case MatchingTransferEncoding => MatchByte(TRANSFER_ENCODING, i, c, h, TransferEncoding, General)
    case MatchingUpgrade => MatchByte(UPGRADE, i, c, h, Upgrade, General)
    case _ => General
  }

  /** The header states in which a name byte moves the index of the matcher. */
  predicate FieldIndexed(h: HeaderState) {
    h.C? || h.CO? || h.CON? || h.MatchingConnection? || h.MatchingProxyConnection? ||
    h.MatchingContentLength? || h.MatchingTransferEncoding? || h.MatchingUpgrade?
  }

  function StepFieldStart(m: Machine, ch: Byte): Machine {
    if ch == CR then m.(state := HeadersAlmostDone)
    else if ch == LF then StepHeadersAlmostDone(m.(state := HeadersAlmostDone), ch)
    else if !IsToken(ch) then Fail(m, INVALID_HEADER_TOKEN)
    else Emit(m.(index := 0, state := HeaderField, headerState := FieldFirst(TokenChar(ch))), Field([ch]))
  }

  function StepField(m: Machine, ch: Byte): Machine {
    if IsToken(ch) then
      var i := if FieldIndexed(m.headerState) then m.index + 1 else m.index;
      Emit(m.(index := i, headerState := FieldByte(m.headerState, i, TokenChar(ch))), Field([ch]))
    else if ch == ':' then m.(state := HeaderValueDiscardWs)
    else Fail(m, INVALID_HEADER_TOKEN)
  }

  // Header values

  function StepValueStart(m: Machine, ch: Byte): Machine {
    var c := Lower(ch);
    var r := Emit(m.(state := HeaderValue, index := 0), Value([ch]));
    match m.headerState
    case Upgrade => r.(flags := m.flags.(upgrade := true), headerState := General)
    case TransferEncoding =>
      r.(headerState := if c == 'c' then MatchingTransferEncodingChunked else General)
    case ContentLength =>
      if !IsNum(ch) then Fail(m, INVALID_CONTENT_LENGTH)
      else if m.flags.contentLength then Fail(m, UNEXPECTED_CONTENT_LENGTH)
      else r.(flags := m.flags.(contentLength := true), contentLength := Digit(ch),
              headerState := ContentLengthNum)
    case ContentLengthWs => r
    case Connection =>
      r.(headerState := if c == 'k' then MatchingConnectionKeepAlive
                        else if c == 'c' then MatchingConnectionClose
                        else if c == 'u' then MatchingConnectionUpgrade
                        else MatchingConnectionToken)
    case MatchingConnectionTokenStart => r
    case _ => r.(headerState := General)
  }

  function StepDiscardWs(m: Machine, ch: Byte): Machine {
    if ch == ' ' || ch == '\t' then m
    else if ch == CR then m.(state := HeaderValueDiscardWsAlmostDone)
    else if ch == LF then m.(state := HeaderValueDiscardLws)
    else StepValueStart(m, ch)
  }

  /** What a finished header value says about the message. */
  function ValueFlags(h: HeaderState, f: Flags): Flags {
    match h
    case ConnectionKeepAlive => f.(keepAlive := true)
    case ConnectionClose => f.(close := true)
    case TransferEncodingChunked => f.(chunked := true)
    case ConnectionUpgrade => f.(connectionUpgrade := true)
    case _ => f
  }

  function StepDiscardLws(m: Machine, ch: Byte): Machine {
    if ch == ' ' || ch == '\t' then m.(state := HeaderValueDiscardWs)
    else if m.headerState.ContentLength? then Fail(m, INVALID_CONTENT_LENGTH)
    else
      StepFieldStart(Emit(m.(flags := ValueFlags(m.headerState, m.flags), state := HeaderFieldStart), Value([])), ch)
  }

  /** One decimal digit more, on 64-bit lengths: the test is made before the update can wrap. */
  function StepLength(m: Machine, ch: Byte): Machine
    requires IsNum(ch)
  {
    if (NO_LENGTH - 10) / 10 < m.contentLength then Fail(m, INVALID_CONTENT_LENGTH)
    else m.(contentLength := m.contentLength * 10 + Digit(ch), headerState := ContentLengthNum)
  }

  function LengthByte(m: Machine, ch: Byte): Machine {
    if ch == ' ' then m.(headerState := ContentLengthWs)
    else if !IsNum(ch) then Fail(m, INVALID_CONTENT_LENGTH)
    else StepLength(m, ch)
  }

  /** The start of an element of a Connection header. */
  function TokenStart(c: Byte): HeaderState {
    if c == 'k' then MatchingConnectionKeepAlive
    else if c == 'c' then MatchingConnectionClose
    else if c == 'u' then MatchingConnectionUpgrade
    else if IsToken(c) then MatchingConnectionToken
    else if c == ' ' || c == '\t' then MatchingConnectionTokenStart
    else General
  }

  /** The effect of one value byte on the header state, the index, the flags and the length. */
  function ValueByte(m: Machine, ch: Byte): Machine {
    var c := Lower(ch);
    match m.headerState
    case ContentLengthNum => LengthByte(m, ch)
    case ContentLengthWs => if ch == ' ' then m else Fail(m, INVALID_CONTENT_LENGTH)
    case MatchingConnectionTokenStart => m.(headerState := TokenStart(c))
    case MatchingConnectionToken =>
      if ch == ',' then m.(headerState := MatchingConnectionTokenStart, index := 0) else m
    case TransferEncodingChunked => if ch == ' ' then m else m.(headerState := General)
    case ConnectionKeepAlive => ElementDone(m, ch)
    case ConnectionClose => ElementDone(m, ch)
    case ConnectionUpgrade => ElementDone(m, ch)
    case _ => MatchValue(m, c)
  }

  /** One byte of a keyword that a header value may hold. */
  function MatchValue(m: Machine, c: Byte): Machine {
    var h := m.headerState;
    var i := m.index + 1;
    match h
    case MatchingTransferEncodingChunked =>
      m.(index := i, headerState := MatchByte(CHUNKED, i, c, h, TransferEncodingChunked, General))
    case MatchingConnectionKeepAlive =>
      m.(index := i, headerState := MatchByte(KEEP_ALIVE, i, c, h, ConnectionKeepAlive, MatchingConnectionToken))
    case MatchingConnectionClose =>
      m.(index := i, headerState := MatchByte(CLOSE, i, c, h, ConnectionClose, MatchingConnectionToken))
    case MatchingConnectionUpgrade =>
      m.(index := i, headerState := MatchByte(UPGRADE, i, c, h, ConnectionUpgrade, MatchingConnectionToken))
    case _ => m.(headerState := General)
  }

  /** A byte after a recognised element of a Connection header. */
  function ElementDone(m: Machine, ch: Byte): Machine {
    if ch == ',' then
      m.(flags := ValueFlags(m.headerState, m.flags), headerState := MatchingConnectionTokenStart, index := 0)
    else if ch == ' ' then m
    else m.(headerState := MatchingConnectionToken)
  }

  function StepValue(m: Machine, ch: Byte): Machine {
    if ch == CR then m.(state := HeaderAlmostDone)
    else if ch == LF then m.(state := HeaderValueLws)
    else if !IsHeaderChar(ch) then Fail(m, INVALID_HEADER_TOKEN)
    else
      var r := ValueByte(m, ch);
      if r.errno != OK then r else Emit(r, Value([ch]))
  }

  function StepValueLws(m: Machine, ch: Byte): Machine {
    if ch == ' ' || ch == '\t' then
      StepValueStart(if m.headerState.ContentLengthNum? then m.(headerState := ContentLengthWs) else m, ch)
    else
      StepFieldStart(m.(flags := ValueFlags(m.headerState, m.flags), state := HeaderFieldStart), ch)
  }

  // The end of the headers, and of the message

  /** Persistent connections, section 6.3 of RFC 7230. */
  predicate ShouldKeepAlive(m: Machine) {
    if m.major > 0 && m.minor > 0 then !m.flags.close else m.flags.keepAlive
  }

  function CompleteMessage(m: Machine): Machine {
    Emit(m.(state := if ShouldKeepAlive(m) then StartReq else Dead), MessageComplete)
  }

  function StepMessageDone(m: Machine): Machine { CompleteMessage(m).(exited := m.upgrade) }

  function StepHeadersAlmostDone(m: Machine, ch: Byte): Machine {
    if ch != LF then Fail(m, STRICT)
    else if m.flags.trailing then StepMessageDone(Emit(m, ChunkComplete))
    else if m.flags.chunked && m.flags.contentLength then Fail(m, UNEXPECTED_CONTENT_LENGTH)
    else
      StepHeadersDone(Emit(m.(upgrade := (m.flags.upgrade && m.flags.connectionUpgrade) || m.requestMethod.CONNECT?),
                           HeadersComplete))
  }

  predicate HasBody(m: Machine) {
    m.flags.chunked || (m.contentLength > 0 && m.contentLength != NO_LENGTH)
  }

  function StepHeadersDone(m: Machine): Machine {
    var r := m.(nread := 0);
    if m.upgrade && (m.requestMethod.CONNECT? || !HasBody(m)) then CompleteMessage(r).(exited := true)
    else if m.flags.chunked then r.(state := ChunkSizeStart)
    else if HasBody(m) then r.(state := BodyIdentity)
    else CompleteMessage(r)
  }

  // Bodies

  function StepBody(m: Machine, ch: Byte): Machine {
    var r := Emit(m.(contentLength := if m.contentLength > 0 then m.contentLength - 1 else 0), Body([ch]));
    if r.contentLength == 0 then StepMessageDone(r) else r
  }

  function StepChunkSize(m: Machine, ch: Byte): Machine {
    var d := Unhex(ch);
    if ch == CR then m.(state := ChunkSizeAlmostDone)
    else if d == -1 then
      if ch == ';' || ch == ' ' then m.(state := ChunkParameters) else Fail(m, INVALID_CHUNK_SIZE)
    else if (NO_LENGTH - 16) / 16 < m.contentLength then Fail(m, INVALID_CONTENT_LENGTH)
    else m.(contentLength := m.contentLength * 16 + d)
  }

  function StepChunkSizeAlmostDone(m: Machine, ch: Byte): Machine {
    if ch != LF then Fail(m, STRICT)
    else
      var r := m.(nread := 0);
      Emit(if m.contentLength == 0
           then r.(flags := m.flags.(trailing := true), state := HeaderFieldStart)
           else r.(state := ChunkData),
           ChunkHeader)
  }

  function StepChunk(m: Machine, ch: Byte): Machine {
    match m.state
    case ChunkSizeStart =>
      if Unhex(ch) == -1 then Fail(m, INVALID_CHUNK_SIZE)
      else m.(contentLength := Unhex(ch), state := ChunkSize)
    case ChunkSize => StepChunkSize(m, ch)
    case ChunkParameters => if ch == CR then m.(state := ChunkSizeAlmostDone) else m
    case ChunkSizeAlmostDone => StepChunkSizeAlmostDone(m, ch)
    case ChunkData =>
      var r := Emit(m.(contentLength := if m.contentLength > 0 then m.contentLength - 1 else 0), Body([ch]));
      if r.contentLength == 0 then r.(state := ChunkDataAlmostDone) else r
    case ChunkDataAlmostDone => Expect(m, ch, CR, ChunkDataDone, STRICT)
    case _ =>
      if ch != LF then Fail(m, STRICT) else Emit(m.(nread := 0, state := ChunkSizeStart), ChunkComplete)
  }

  // One byte, and any number of bytes

  /** Consumes a byte that is already counted. */
  function StepState(m: Machine, ch: Byte): Machine {
    match m.state
    case Dead => if ch == CR || ch == LF then m else Fail(m, CLOSED_CONNECTION)
    case StartReq => StepStart(m, ch)
    case ReqMethod => StepMethod(m, ch)
    case ReqSpacesBeforeUrl => StepSpaces(m, ch)
    case HeaderFieldStart => StepFieldStart(m, ch)
    case HeaderField => StepField(m, ch)
    case HeaderValueDiscardWs => StepDiscardWs(m, ch)
    case HeaderValueDiscardWsAlmostDone => Expect(m, ch, LF, HeaderValueDiscardLws, STRICT)
    case HeaderValueDiscardLws => StepDiscardLws(m, ch)
    case HeaderValue => StepValue(m, ch)
    case HeaderAlmostDone => Expect(m, ch, LF, HeaderValueLws, LF_EXPECTED)
    case HeaderValueLws => StepValueLws(m, ch)
    case HeadersAlmostDone => StepHeadersAlmostDone(m, ch)
    case BodyIdentity => StepBody(m, ch)
    case HeaderValueStart => Fail(m, INVALID_INTERNAL_STATE)  // these three states are left
    case HeadersDone => Fail(m, INVALID_INTERNAL_STATE)       // within the byte that enters them
    case MessageDone => Fail(m, INVALID_INTERNAL_STATE)
    case _ =>
      if UrlState(m.state) then StepUrl(m, ch)
      else if ChunkState(m.state) then StepChunk(m, ch)
      else StepVersion(m, ch)
  }

  predicate ChunkState(s: State) {
    s.ChunkSizeStart? || s.ChunkSize? || s.ChunkParameters? || s.ChunkSizeAlmostDone? ||
    s.ChunkData? || s.ChunkDataAlmostDone? || s.ChunkDataDone?
  }

  function Count(m: Machine): Machine {
    if ParsingHeader(m.state) then m.(nread := m.nread + 1) else m
  }

  function Step(m: Machine, ch: Byte): Machine {
    var r := Count(m);
    if ParsingHeader(m.state) && r.nread > MAX_HEADER_SIZE then Fail(r, HEADER_OVERFLOW) else StepState(r, ch)
  }

  /** Consumes bytes until they run out or the machine stops. */
  function Run(m: Machine, data: Bytes): Machine
    decreases |data|
  {
    if data == [] || Stopped(m) then m else Run(Step(m, data[0]), data[1..])
  }

  /** How many bytes Run consumes: the byte at which an error is found is not. */
  function Consumed(m: Machine, data: Bytes): nat
    decreases |data|
  {
    if data == [] || Stopped(m) || Step(m, data[0]).errno != OK then 0
    else 1 + Consumed(Step(m, data[0]), data[1..])
  }

  lemma {:induction false} RunConcat(m: Machine, a: Bytes, b: Bytes)
    ensures Run(m, a + b) == Run(Run(m, a), b)
    ensures Consumed(m, a + b) ==
            if Stopped(Run(m, a)) then Consumed(m, a) else |a| + Consumed(Run(m, a), b)
    ensures !Stopped(Run(m, a)) ==> Consumed(m, a) == |a|
    decreases |a|
  {
    hide Step;
    if a == [] {
      assert a + b == b;
    } else if !Stopped(m) {
      assert (a + b)[1..] == a[1..] + b;
      RunConcat(Step(m, a[0]), a[1..], b);
    }
  }

  lemma RunNil(m: Machine)
    ensures Run(m, []) == m && Consumed(m, []) == 0
  {
  }

  lemma RunOne(m: Machine, b: Byte)
    requires !Stopped(m)
    ensures Run(m, [b]) == Step(m, b)
    ensures Step(m, b).errno == OK ==> Consumed(m, [b]) == 1
  {
    hide Step;
    assert [b][1..] == [];
  }

  lemma RunStopped(m: Machine, data: Bytes)
    requires Stopped(m)
    ensures Run(m, data) == m && Consumed(m, data) == 0
  {
  }
}
