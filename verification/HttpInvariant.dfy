/** What every byte keeps: the facts behind the internal assertions of the parser. */
module HttpInvariant {
  import opened HttpTypes
  import opened HttpMachine

  /** Header states a header name can leave behind. */
  predicate NameState(h: HeaderState) {
    FieldIndexed(h) || h.General? || h.Connection? || h.ContentLength? || h.TransferEncoding? || h.Upgrade?
  }

  /** Header states inside and after a header value; the other ones would trip an assertion. */
  predicate ValueState(h: HeaderState) {
    h.General? || h.ContentLengthNum? || h.ContentLengthWs? || ValueMatching(h) ||
    h.MatchingConnectionTokenStart? || h.MatchingConnectionToken? ||
    h.TransferEncodingChunked? || h.ConnectionKeepAlive? || h.ConnectionClose? || h.ConnectionUpgrade?
  }

  predicate ValueMatching(h: HeaderState) {
    h.MatchingTransferEncodingChunked? || h.MatchingConnectionKeepAlive? || h.MatchingConnectionClose? ||
    h.MatchingConnectionUpgrade?
  }

  /** The keyword a header state is in the middle of. */
  function Keyword(h: HeaderState): Bytes {
    match h
    case C => CONNECTION
    case CO => CONNECTION
    case CON => CONNECTION
    case MatchingConnection => CONNECTION
    case MatchingProxyConnection => PROXY_CONNECTION
    case MatchingContentLength => CONTENT_LENGTH
    case MatchingTransferEncoding => TRANSFER_ENCODING
    case MatchingUpgrade => UPGRADE
    case MatchingTransferEncodingChunked => CHUNKED
    case MatchingConnectionKeepAlive => KEEP_ALIVE
    case MatchingConnectionClose => CLOSE
    case MatchingConnectionUpgrade => UPGRADE
    case _ => []
  }

  /** The matcher index stays inside the keyword being matched; one more byte is still expected. */
  predicate IndexInside(h: HeaderState, index: nat) {
    && (h.C? ==> index == 0)
    && (h.CO? ==> index == 1)
    && (h.CON? ==> index == 2)
    && (h.MatchingConnectionTokenStart? ==> index == 0)
    && (FieldIndexed(h) || ValueMatching(h) ==> index + 1 < |Keyword(h)|)
  }

  predicate AfterName(s: State) {
    s.HeaderField? || s.HeaderValueDiscardWs? || s.HeaderValueDiscardWsAlmostDone? || s.HeaderValueDiscardLws?
  }

  predicate AfterValue(s: State) { s.HeaderValue? || s.HeaderAlmostDone? || s.HeaderValueLws? }

  predicate HeaderInv(m: Machine) {
    && (AfterName(m.state) ==> NameState(m.headerState))
    && (AfterValue(m.state) ==>
          && ValueState(m.headerState)
          && (m.headerState.ContentLengthNum? ==> m.flags.contentLength && m.contentLength < NO_LENGTH))
    && (m.state.HeaderField? || m.state.HeaderValue? ==> IndexInside(m.headerState, m.index))
  }

  predicate BodyInv(m: Machine) {
    && (ChunkState(m.state) || m.flags.trailing ==> m.flags.chunked)
    && (m.state.ChunkSizeStart? ==> m.nread == 0)
    && (m.state.ChunkSize? || m.state.ChunkParameters? || m.state.ChunkSizeAlmostDone? ==>
          m.contentLength < NO_LENGTH)
    && (m.state.ChunkData? || m.state.BodyIdentity? ==> 0 < m.contentLength < NO_LENGTH)
    && (m.state.ChunkDataAlmostDone? ==> m.contentLength == 0)
  }

  /** The open data callback is the last one of the trace. */
  predicate TraceInv(m: Machine) {
    && (UrlState(m.state) ==> LastIs(m.trace, Url([])))
    && (m.state.HeaderField? ==> LastIs(m.trace, Field([])))
    && (m.state.HeaderValue? ==> LastIs(m.trace, Value([])))
  }

  predicate Inv(m: Machine) {
    && m.nread <= MAX_HEADER_SIZE
    && m.contentLength <= NO_LENGTH
    && !m.state.HeaderValueStart? && !m.state.HeadersDone? && !m.state.MessageDone?
    && (m.exited ==> m.state.StartReq? || m.state.Dead?)
    && (m.state.ReqMethod? ==> 1 <= m.index <= |MethodName(m.requestMethod)|)
    && HeaderInv(m) && BodyInv(m) && TraceInv(m)
  }

  lemma InitInv()
    ensures Inv(INIT)
  {
  }

  // One lemma for each part of StepState.  Safe is what all of them need of the byte count, the
  // length and the flags.

  predicate Safe(m: Machine) {
    && !Stopped(m) && m.nread <= MAX_HEADER_SIZE && m.contentLength <= NO_LENGTH
    && (m.flags.trailing ==> m.flags.chunked)
  }

  predicate Kept(m: Machine) { m.errno == OK ==> Inv(m) }

  lemma StartInv(m: Machine, ch: Byte)
    requires Safe(m) && m.state.StartReq?
    ensures Kept(StepStart(m, ch))
  {
    hide FirstMethod, Push, MethodLetter;
  }

  lemma MethodInv(m: Machine, ch: Byte)
    requires Safe(m) && Inv(m) && m.state.ReqMethod?
    ensures Kept(StepMethod(m, ch))
  {
    hide MethodName, OtherMethod;
    OtherMethodLength(m.requestMethod, m.index, ch);
  }

  lemma OtherMethodLength(m: Method, pos: nat, ch: Byte)
    ensures OtherMethod(m, pos, ch).Guess? ==> pos < |MethodName(OtherMethod(m, pos, ch).guess)|
  {
    hide MethodName;
    if OtherMethod(m, pos, ch).Guess? {
      assert pos < 5;
      NameLength(OtherMethod(m, pos, ch).guess);
      if pos >= 3 {
        LongNames(m, pos, ch);
      }
    }
  }

  lemma NameLength(t: Method)
    ensures |MethodName(t)| >= 3
  {
  }

  /** A guess at the fourth letter or later. */
  lemma LongNames(m: Method, pos: nat, ch: Byte)
    requires pos >= 3 && OtherMethod(m, pos, ch).Guess?
    ensures pos < |MethodName(OtherMethod(m, pos, ch).guess)|
  {
    assert m.MKCOL? || m.PROPFIND? || m.UNLOCK?;
  }

  lemma SpacesInv(m: Machine, ch: Byte)
    requires Safe(m) && m.state.ReqSpacesBeforeUrl?
    ensures Kept(StepSpaces(m, ch))
  {
    hide Push, ParseUrlChar;
    var s := ParseUrlChar(if m.requestMethod.CONNECT? then ReqServerStart else ReqSpacesBeforeUrl, ch);
    UrlCharState(if m.requestMethod.CONNECT? then ReqServerStart else ReqSpacesBeforeUrl, ch);
    PushLast(m.trace, Url([ch]));
  }

  lemma UrlCharState(s: State, ch: Byte)
    ensures ParseUrlChar(s, ch).Dead? || UrlState(ParseUrlChar(s, ch))
  {
    hide IsUrlChar, IsUserinfoChar;
  }

  lemma UrlInv(m: Machine, ch: Byte)
    requires Safe(m) && UrlState(m.state)
    ensures Kept(StepUrl(m, ch))
  {
    hide Push, ParseUrlChar;
    UrlCharState(m.state, ch);
    PushLast(m.trace, Url([ch]));
  }

  /** States the invariant says nothing special about. */
  predicate Plain(s: State) {
    && !UrlState(s) && !ChunkState(s) && !AfterName(s) && !AfterValue(s)
    && !s.ReqMethod? && !s.HeaderValueStart? && !s.HeadersDone? && !s.MessageDone? && !s.BodyIdentity?
  }

  lemma PlainInv(m: Machine)
    requires m.errno == OK ==> Safe(m) && Plain(m.state)
    ensures Kept(m)
  {
  }

  /** What a byte of the HTTP version keeps. */
  lemma VersionShape(m: Machine, ch: Byte)
    requires m.errno == OK && VersionState(m.state)
    ensures var r := StepVersion(m, ch);
            && r.trace == m.trace && r.flags == m.flags
            && (r.errno == OK ==> VersionState(r.state) || r.state.HeaderFieldStart?)
  {
    hide StepVersionNumber;
    VersionNumberShape(m, ch);
  }

  lemma VersionNumberShape(m: Machine, ch: Byte)
    requires m.errno == OK && VersionState(m.state)
    ensures var r := StepVersionNumber(m, ch);
            && r.trace == m.trace && r.flags == m.flags
            && (r.errno == OK ==> VersionState(r.state) || r.state.HeaderFieldStart?)
  {
  }

  lemma VersionInv(m: Machine, ch: Byte)
    requires Safe(m) && Plain(m.state)
    ensures Kept(StepVersion(m, ch))
  {
    hide Inv, ChunkState, UrlState, AfterName, AfterValue;
    VersionPlain(m, ch);
    PlainInv(StepVersion(m, ch));
  }

  lemma VersionPlain(m: Machine, ch: Byte)
    requires Safe(m) && Plain(m.state)
    ensures StepVersion(m, ch).errno == OK ==> Safe(StepVersion(m, ch)) && Plain(StepVersion(m, ch).state)
  {
    hide StepVersionNumber;
    VersionNumberPlain(m, ch);
  }

  lemma VersionNumberPlain(m: Machine, ch: Byte)
    requires Safe(m) && Plain(m.state)
    ensures var r := StepVersionNumber(m, ch); r.errno == OK ==> Safe(r) && Plain(r.state)
  {
  }

  lemma HeadersDoneInv(m: Machine)
    requires Safe(m)
    ensures Inv(StepHeadersDone(m))
  {
    hide Push;
  }

  lemma HeadersAlmostDoneInv(m: Machine, ch: Byte)
    requires Safe(m)
    ensures Kept(StepHeadersAlmostDone(m, ch))
  {
    hide Push, StepHeadersDone;
    HeadersDoneInv(Emit(m.(upgrade := (m.flags.upgrade && m.flags.connectionUpgrade) || m.requestMethod.CONNECT?),
                        HeadersComplete));
  }

  lemma FieldStartInv(m: Machine, ch: Byte)
    requires Safe(m)
    ensures Kept(StepFieldStart(m, ch))
  {
    hide Push, IsToken, TokenChar, StepHeadersAlmostDone;
    HeadersAlmostDoneInv(m.(state := HeadersAlmostDone), ch);
    PushLast(m.trace, Field([ch]));
  }

  lemma FieldByteInv(h: HeaderState, index: nat, c: Byte)
    requires NameState(h) && IndexInside(h, index)
    ensures var i := if FieldIndexed(h) then index + 1 else index;
            NameState(FieldByte(h, i, c)) && IndexInside(FieldByte(h, i, c), i)
  {
  }

  lemma FieldInv(m: Machine, ch: Byte)
    requires Safe(m) && Inv(m) && m.state.HeaderField?
    ensures Kept(StepField(m, ch))
  {
    hide Push, IsToken, TokenChar, FieldByte;
    FieldByteInv(m.headerState, m.index, TokenChar(ch));
    PushLast(m.trace, Field([ch]));
  }

  /** What the invariant says inside a header value. */
  lemma InValueInv(m: Machine)
    requires Safe(m) && m.state.HeaderValue? && ValueState(m.headerState) && IndexInside(m.headerState, m.index)
    requires m.headerState.ContentLengthNum? ==> m.flags.contentLength && m.contentLength < NO_LENGTH
    requires LastIs(m.trace, Value([]))
    ensures Inv(m)
  {
  }

  lemma ValueStartInv(m: Machine, ch: Byte)
    requires Safe(m) && !m.headerState.ContentLengthNum?
    ensures Kept(StepValueStart(m, ch))
  {
    hide Push, Lower, Inv, HeaderInv, IndexInside;
    var r := StepValueStart(m, ch);
    PushLast(m.trace, Value([ch]));
    if r.errno == OK {
      ValueStartState(m, ch);
      InValueInv(r);
    }
  }

  lemma ValueStartState(m: Machine, ch: Byte)
    requires Safe(m) && !m.headerState.ContentLengthNum?
    ensures var r := StepValueStart(m, ch);
            r.errno == OK ==>
              && Safe(r) && r.state.HeaderValue? && ValueState(r.headerState) && IndexInside(r.headerState, r.index)
              && (r.headerState.ContentLengthNum? ==> r.flags.contentLength && r.contentLength < NO_LENGTH)
              && r.trace == Push(m.trace, Value([ch]))
  {
    hide Push, Lower;
  }

  /** What the first byte of a value keeps and reports. */
  lemma ValueStartShape(m: Machine, ch: Byte)
    requires m.errno == OK
    ensures var r := StepValueStart(m, ch);
            && r.exited == m.exited && r.flags.trailing == m.flags.trailing && r.errno != HEADER_OVERFLOW
            && if r.errno == OK then r.state.HeaderValue? && r.trace == Push(m.trace, Value([ch]))
               else r.trace == m.trace
  {
    hide Push, Lower;
    match m.headerState
    case ContentLength =>
    case Upgrade =>
    case Connection =>
    case TransferEncoding =>
    case _ =>
  }

  /** What the following bytes keep. */
  lemma ValueByteShape(m: Machine, ch: Byte)
    requires m.errno == OK
    ensures var r := ValueByte(m, ch);
            && r.trace == m.trace && r.state == m.state && r.nread == m.nread && r.exited == m.exited
            && r.flags.trailing == m.flags.trailing && r.errno != HEADER_OVERFLOW
  {
    hide Lower, TokenStart, MatchValue, ElementDone, LengthByte;
    match m.headerState
    case ContentLengthNum => LengthByteShape(m, ch);
    case ConnectionKeepAlive => ElementDoneShape(m, ch);
    case ConnectionClose => ElementDoneShape(m, ch);
    case ConnectionUpgrade => ElementDoneShape(m, ch);
    case _ => MatchValueShape(m, Lower(ch));
  }

  /** The header states of a value, and the matcher index, survive its bytes. */
  lemma ValueByteIndex(m: Machine, ch: Byte)
    requires ValueState(m.headerState) && IndexInside(m.headerState, m.index)
    ensures var r := ValueByte(m, ch); ValueState(r.headerState) && IndexInside(r.headerState, r.index)
  {
    hide Lower, IsToken, MatchValue;
    MatchValueInv(m, ch);
  }

  lemma LengthByteShape(m: Machine, ch: Byte)
    requires m.errno == OK
    ensures var r := LengthByte(m, ch);
            r == m.(headerState := r.headerState, contentLength := r.contentLength, errno := r.errno) &&
            r.errno != HEADER_OVERFLOW
  {
  }

  lemma MatchValueShape(m: Machine, c: Byte)
    ensures var r := MatchValue(m, c); r == m.(headerState := r.headerState, index := r.index)
  {
    hide MatchByte;
  }

  lemma ElementDoneShape(m: Machine, ch: Byte)
    ensures var r := ElementDone(m, ch);
            r == m.(headerState := r.headerState, index := r.index, flags := r.flags) &&
            r.flags.trailing == m.flags.trailing
  {
    hide ValueFlags;
    ValueFlagsTrailing(m.headerState, m.flags);
  }

  lemma ValueFlagsTrailing(h: HeaderState, f: Flags)
    ensures ValueFlags(h, f).trailing == f.trailing
  {
  }

  lemma ValueByteInv(m: Machine, ch: Byte)
    requires Safe(m) && ValueState(m.headerState) && IndexInside(m.headerState, m.index)
    requires m.headerState.ContentLengthNum? ==> m.flags.contentLength && m.contentLength < NO_LENGTH
    ensures var r := ValueByte(m, ch);
            r.errno == OK ==>
              && Safe(r) && r.state == m.state && r.trace == m.trace
              && ValueState(r.headerState) && IndexInside(r.headerState, r.index)
              && (r.headerState.ContentLengthNum? ==> r.flags.contentLength && r.contentLength < NO_LENGTH)
  {
    hide Lower, IsToken, MatchValue;
    MatchValueInv(m, ch);
  }

  lemma MatchValueInv(m: Machine, ch: Byte)
    requires ValueMatching(m.headerState) ==> IndexInside(m.headerState, m.index)
    ensures var r := MatchValue(m, Lower(ch));
            && r == m.(index := r.index, headerState := r.headerState)
            && (!ValueMatching(m.headerState) ==> r.headerState.General?)
            && (ValueMatching(m.headerState) ==>
                  ValueState(r.headerState) && IndexInside(r.headerState, r.index) && !r.headerState.ContentLengthNum?)
  {
    hide Lower, MatchByte, IndexInside, ValueState;
    if ValueMatching(m.headerState) {
      KeywordsInside(m.headerState, m.index);
      MatchInside(m.headerState, m.index + 1, Lower(ch));
    }
  }

  lemma KeywordsInside(h: HeaderState, i: nat)
    requires IndexInside(h, i) && ValueMatching(h)
    ensures i + 1 < |Keyword(h)|
  {
  }

  /** Where the comparison with the keyword of a value leads. */
  lemma MatchInside(h: HeaderState, i: nat, c: Byte)
    requires ValueMatching(h) && i < |Keyword(h)|
    ensures h.MatchingTransferEncodingChunked? ==>
              Settled(MatchByte(CHUNKED, i, c, h, TransferEncodingChunked, General), i)
    ensures h.MatchingConnectionKeepAlive? ==>
              Settled(MatchByte(KEEP_ALIVE, i, c, h, ConnectionKeepAlive, MatchingConnectionToken), i)
    ensures h.MatchingConnectionClose? ==>
              Settled(MatchByte(CLOSE, i, c, h, ConnectionClose, MatchingConnectionToken), i)
    ensures h.MatchingConnectionUpgrade? ==>
              Settled(MatchByte(UPGRADE, i, c, h, ConnectionUpgrade, MatchingConnectionToken), i)
  {
  }

  predicate Settled(h: HeaderState, i: nat) { ValueState(h) && IndexInside(h, i) && !h.ContentLengthNum? }

  lemma ValueInv(m: Machine, ch: Byte)
    requires Safe(m) && Inv(m) && m.state.HeaderValue?
    ensures Kept(StepValue(m, ch))
  {
    hide Push, IsHeaderChar, ValueByte, IndexInside, ValueState, NameState;
    if ch == CR || ch == LF || !IsHeaderChar(ch) {
      ValueEndInv(m, ch);
    } else {
      ValueByteInv(m, ch);
      PushLast(m.trace, Value([ch]));
      if ValueByte(m, ch).errno == OK {
        InValueInv(StepValue(m, ch));
      }
    }
  }

  lemma ValueEndInv(m: Machine, ch: Byte)
    requires Safe(m) && Inv(m) && m.state.HeaderValue? && (ch == CR || ch == LF || !IsHeaderChar(ch))
    ensures Kept(StepValue(m, ch))
  {
    hide Push, IsHeaderChar, ValueByte, IndexInside, ValueState, NameState;
  }

  lemma DiscardWsInv(m: Machine, ch: Byte)
    requires Inv(m) && Safe(m) && m.state.HeaderValueDiscardWs?
    ensures Kept(StepDiscardWs(m, ch))
  {
    hide StepValueStart, IndexInside;
    ValueStartInv(m, ch);
  }

  lemma DiscardLwsInv(m: Machine, ch: Byte)
    requires Inv(m) && Safe(m) && m.state.HeaderValueDiscardLws?
    ensures Kept(StepDiscardLws(m, ch))
  {
    hide StepFieldStart, Push, IndexInside;
    FieldStartInv(Emit(m.(flags := ValueFlags(m.headerState, m.flags), state := HeaderFieldStart), Value([])), ch);
  }

  lemma HeaderLineEndInv(m: Machine, ch: Byte)
    requires Inv(m) && Safe(m) && (m.state.HeaderValueDiscardWsAlmostDone? || m.state.HeaderAlmostDone?)
    ensures Kept(StepState(m, ch))
  {
    hide IndexInside;
  }

  lemma ValueLwsInv(m: Machine, ch: Byte)
    requires Safe(m)
    ensures Kept(StepValueLws(m, ch))
  {
    hide StepFieldStart, StepValueStart, Inv;
    ValueStartInv(if m.headerState.ContentLengthNum? then m.(headerState := ContentLengthWs) else m, ch);
    FieldStartInv(m.(flags := ValueFlags(m.headerState, m.flags), state := HeaderFieldStart), ch);
  }

  /** What the invariant says in the chunk states and at the start of a trailer. */
  lemma InChunkInv(m: Machine)
    requires Safe(m) && (ChunkState(m.state) || m.state.HeaderFieldStart?) && m.flags.chunked && BodyInv(m)
    ensures Inv(m)
  {
  }

  lemma ChunkInv(m: Machine, ch: Byte)
    requires Safe(m) && ChunkState(m.state) && m.flags.chunked
    requires BodyInv(m) || m.state.ChunkSizeStart?
    ensures Kept(StepChunk(m, ch))
  {
    hide Push, Inv, StepChunkSize, StepChunkSizeAlmostDone, Unhex, UrlState;
    if m.state.ChunkSize? || m.state.ChunkSizeAlmostDone? {
      ChunkSizeInv(m, ch);
    }
    UnhexBound(ch);
    var r := StepChunk(m, ch);
    if r.errno == OK {
      InChunkInv(r);
    }
  }

  lemma UnhexBound(ch: Byte)
    ensures -1 <= Unhex(ch) < 16
  {
  }

  lemma ChunkSizeInv(m: Machine, ch: Byte)
    requires Safe(m) && m.flags.chunked
    requires m.contentLength < NO_LENGTH
    ensures m.state.ChunkSize? ==>
              var r := StepChunkSize(m, ch);
              r.errno == OK ==>
                && Safe(r) && r.flags == m.flags && BodyInv(r)
                && (r.state.ChunkSize? || r.state.ChunkParameters? || r.state.ChunkSizeAlmostDone?)
    ensures m.state.ChunkSizeAlmostDone? ==>
              var r := StepChunkSizeAlmostDone(m, ch);
              r.errno == OK ==>
                && Safe(r) && r.flags.chunked && BodyInv(r) && (r.state.ChunkData? || r.state.HeaderFieldStart?)
  {
    hide Push, Unhex;
    UnhexBound(ch);
  }

  lemma BodyStepInv(m: Machine, ch: Byte)
    requires Safe(m) && BodyInv(m) && m.state.BodyIdentity?
    ensures Kept(StepBody(m, ch))
  {
    hide Push;
  }

  /** Every byte keeps the invariant, unless it ends in an error. */
  lemma StepInv(m: Machine, ch: Byte)
    requires Inv(m) && !Stopped(m)
    ensures Kept(Step(m, ch))
  {
    hide StepStart, StepMethod, StepSpaces, StepUrl, StepVersion, StepFieldStart, StepField, StepValue, StepChunk,
      StepBody, StepHeadersAlmostDone, StepDiscardWs, StepDiscardLws, StepValueLws;
    var r := Count(m);
    if ParsingHeader(m.state) && r.nread > MAX_HEADER_SIZE {
    } else if UrlState(m.state) {
      UrlInv(r, ch);
    } else if ChunkState(m.state) {
      ChunkInv(r, ch);
    } else {
      match m.state
      case Dead =>
      case StartReq => StartInv(r, ch);
      case ReqMethod => MethodInv(r, ch);
      case ReqSpacesBeforeUrl => SpacesInv(r, ch);
      case HeaderFieldStart => FieldStartInv(r, ch);
      case HeaderField => FieldInv(r, ch);
      case HeaderValueDiscardWs => DiscardWsInv(r, ch);
      case HeaderValueDiscardWsAlmostDone => HeaderLineEndInv(r, ch);
      case HeaderValueDiscardLws => DiscardLwsInv(r, ch);
      case HeaderValue => ValueInv(r, ch);
      case HeaderAlmostDone => HeaderLineEndInv(r, ch);
      case HeaderValueLws => ValueLwsInv(r, ch);
      case HeadersAlmostDone => HeadersAlmostDoneInv(r, ch);
      case BodyIdentity => BodyStepInv(r, ch);
      case _ => VersionInv(r, ch);
    }
  }

  /** The header size limit is only met where bytes are counted. */
  lemma NoOverflow(m: Machine, ch: Byte)
    requires m.errno == OK
    ensures StepState(m, ch).errno != HEADER_OVERFLOW
  {
    hide Push, StepStart, StepMethod, StepSpaces, StepFieldStart, StepField, StepValueStart, ValueByte, StepUrl,
      StepChunk, StepBody, StepVersion, StepHeadersAlmostDone, StepMessageDone, StepDiscardWs, StepDiscardLws,
      StepValue, StepValueLws, UrlState, ChunkState;
    LineNoOverflow(m, ch);
    VersionNoOverflow(m, ch);
    FieldStartNoOverflow(m, ch);
    ValueNoOverflow(m, ch);
    ChunkNoOverflow(m, ch);
    HeadersAlmostDoneNoOverflow(m, ch);
  }

  lemma ValueNoOverflow(m: Machine, ch: Byte)
    requires m.errno == OK
    ensures StepDiscardWs(m, ch).errno != HEADER_OVERFLOW && StepDiscardLws(m, ch).errno != HEADER_OVERFLOW
    ensures StepValue(m, ch).errno != HEADER_OVERFLOW && StepValueLws(m, ch).errno != HEADER_OVERFLOW
  {
    hide Push, StepFieldStart, StepValueStart, ValueByte, ValueFlags, IsHeaderChar;
    ValueStartShape(if m.headerState.ContentLengthNum? then m.(headerState := ContentLengthWs) else m, ch);
    ValueStartShape(m, ch);
    ValueByteShape(m, ch);
    var f := m.(flags := ValueFlags(m.headerState, m.flags), state := HeaderFieldStart);
    FieldStartNoOverflow(f, ch);
    FieldStartNoOverflow(Emit(f, Value([])), ch);
  }

  lemma LineNoOverflow(m: Machine, ch: Byte)
    requires m.errno == OK
    ensures StepStart(m, ch).errno != HEADER_OVERFLOW && StepMethod(m, ch).errno != HEADER_OVERFLOW
    ensures StepSpaces(m, ch).errno != HEADER_OVERFLOW && StepUrl(m, ch).errno != HEADER_OVERFLOW
    ensures StepField(m, ch).errno != HEADER_OVERFLOW
  {
    hide Push, FirstMethod, MethodLetter, MethodName, OtherMethod, ParseUrlChar, FieldByte, TokenChar, IsToken;
  }

  lemma VersionNoOverflow(m: Machine, ch: Byte)
    requires m.errno == OK
    ensures StepVersion(m, ch).errno != HEADER_OVERFLOW
  {
    hide StepVersionNumber;
    VersionNumberNoOverflow(m, ch);
  }

  lemma VersionNumberNoOverflow(m: Machine, ch: Byte)
    requires m.errno == OK
    ensures StepVersionNumber(m, ch).errno != HEADER_OVERFLOW
  {
  }

  lemma DoneNoOverflow(m: Machine)
    requires m.errno == OK
    ensures StepMessageDone(m).errno == OK && StepHeadersDone(m).errno == OK
  {
    hide Push;
  }

  lemma HeadersAlmostDoneNoOverflow(m: Machine, ch: Byte)
    requires m.errno == OK
    ensures StepHeadersAlmostDone(m, ch).errno != HEADER_OVERFLOW
  {
    hide Push, StepMessageDone, StepHeadersDone;
    DoneNoOverflow(Emit(m, ChunkComplete));
    var up := (m.flags.upgrade && m.flags.connectionUpgrade) || m.requestMethod.CONNECT?;
    DoneNoOverflow(Emit(m.(upgrade := up), HeadersComplete));
  }

  lemma FieldStartNoOverflow(m: Machine, ch: Byte)
    requires m.errno == OK
    ensures StepFieldStart(m, ch).errno != HEADER_OVERFLOW
  {
    hide Push, StepHeadersAlmostDone, FieldFirst, TokenChar, IsToken;
    HeadersAlmostDoneNoOverflow(m.(state := HeadersAlmostDone), ch);
  }

  lemma ChunkNoOverflow(m: Machine, ch: Byte)
    requires m.errno == OK
    ensures StepChunk(m, ch).errno != HEADER_OVERFLOW && StepBody(m, ch).errno != HEADER_OVERFLOW
  {
    hide Push, Unhex, StepMessageDone;
    DoneNoOverflow(Emit(m.(contentLength := if m.contentLength > 0 then m.contentLength - 1 else 0), Body([ch])));
  }

  lemma {:induction false} RunInv(m: Machine, data: Bytes)
    requires Inv(m) && m.errno == OK
    ensures Kept(Run(m, data))
    decreases |data|
  {
    hide Step, Inv;
    if data != [] && !Stopped(m) {
      StepInv(m, data[0]);
      if Step(m, data[0]).errno == OK {
        RunInv(Step(m, data[0]), data[1..]);
      }
    }
  }
}
