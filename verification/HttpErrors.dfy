/** Which error the machine ends with: the limit of the header bytes, and the errors of each part of a request. */
module HttpErrors {
  import opened HttpTypes
  import opened HttpMachine
  import opened HttpInvariant

  /** The states outside the bodies of messages. */
  predicate InHead(s: State) {
    s !in {BodyIdentity, ChunkData, ChunkDataAlmostDone, ChunkDataDone, MessageDone}
  }

  /** A byte outside a body overflows the header exactly when 80 KiB have been counted. */
  lemma HeaderLimit(m: Machine, ch: Byte)
    requires m.errno == OK
    ensures Step(m, ch).errno == HEADER_OVERFLOW <==> InHead(m.state) && m.nread >= 81920
  {
    hide StepState;
    NoOverflow(Count(m), ch);
  }

  /** The errors that belong to a state. */
  predicate PartError(s: State, e: Errno) {
    match s
    case Dead => e.CLOSED_CONNECTION?
    case StartReq => e.INVALID_METHOD?
    case ReqMethod => e.INVALID_METHOD?
    case ReqHttpStart => e.INVALID_CONSTANT?
    case ReqHttpMajor => e.INVALID_VERSION?
    case ReqHttpDot => e.INVALID_VERSION?
    case ReqHttpMinor => e.INVALID_VERSION?
    case ReqHttpEnd => e.INVALID_VERSION?
    case ReqLineAlmostDone => e.LF_EXPECTED?
    case HeaderFieldStart => e.INVALID_HEADER_TOKEN? || e.UNEXPECTED_CONTENT_LENGTH?
    case HeaderField => e.INVALID_HEADER_TOKEN?
    case HeaderValueDiscardWs => e.INVALID_CONTENT_LENGTH? || e.UNEXPECTED_CONTENT_LENGTH?
    case HeaderValueDiscardLws =>
      e.INVALID_CONTENT_LENGTH? || e.INVALID_HEADER_TOKEN? || e.UNEXPECTED_CONTENT_LENGTH?
    case HeaderValue => e.INVALID_HEADER_TOKEN? || e.INVALID_CONTENT_LENGTH?
    case HeaderAlmostDone => e.LF_EXPECTED?
    case HeaderValueLws => e.INVALID_HEADER_TOKEN? || e.INVALID_CONTENT_LENGTH? || e.UNEXPECTED_CONTENT_LENGTH?
    case HeadersAlmostDone => e.STRICT? || e.UNEXPECTED_CONTENT_LENGTH?
    case ChunkSizeStart => e.INVALID_CHUNK_SIZE?
    case ChunkSize => e.INVALID_CHUNK_SIZE? || e.INVALID_CONTENT_LENGTH?
    case BodyIdentity => false
    case ChunkParameters => false
    case ChunkData => false
    case _ => if s == ReqSpacesBeforeUrl || UrlState(s) then e.INVALID_URL? else e.STRICT?
  }

  predicate FineOr(s: State, e: Errno) { e.OK? || PartError(s, e) }

  /** A byte that is refused is refused with an error of the part it stands in; the internal error of the switch
      and that of an unexpected end never come up. */
  lemma ErrorPlace(m: Machine, ch: Byte)
    requires m.errno == OK && Inv(m)
    ensures var e := Step(m, ch).errno; FineOr(m.state, e) || e == HEADER_OVERFLOW
  {
    hide StepState, Inv;
    NotLeft(m);
    StateErrors(Count(m), ch);
  }

  /** The states that are left within the byte that enters them. */
  lemma NotLeft(m: Machine)
    requires Inv(m)
    ensures !m.state.HeaderValueStart? && !m.state.HeadersDone? && !m.state.MessageDone?
  {
  }

  lemma StateErrors(m: Machine, ch: Byte)
    requires m.errno == OK && !m.state.HeaderValueStart? && !m.state.HeadersDone? && !m.state.MessageDone?
    ensures FineOr(m.state, StepState(m, ch).errno)
  {
    hide StepStart, StepMethod, StepSpaces, StepFieldStart, StepField, StepDiscardWs, StepDiscardLws, StepValue,
      StepValueLws, StepHeadersAlmostDone, StepBody, StepUrl, StepChunk, StepVersion;
    if VersionState(m.state) {
      VersionErrors(m, ch);
    } else if ChunkState(m.state) {
      ChunkErrors(m, ch);
    } else if UrlState(m.state) || m.state.StartReq? || m.state.ReqMethod? || m.state.ReqSpacesBeforeUrl? {
      LineErrors(m, ch);
    } else {
      HeaderStateErrors(m, ch);
    }
  }

  lemma HeaderStateErrors(m: Machine, ch: Byte)
    requires m.errno == OK && !m.state.HeaderValueStart? && !m.state.HeadersDone? && !m.state.MessageDone?
    requires !VersionState(m.state) && !ChunkState(m.state) && !UrlState(m.state)
    requires !m.state.StartReq? && !m.state.ReqMethod? && !m.state.ReqSpacesBeforeUrl?
    ensures FineOr(m.state, StepState(m, ch).errno)
  {
    hide StepFieldStart, StepField, StepDiscardWs, StepDiscardLws, StepValue, StepValueLws, StepHeadersAlmostDone,
      StepBody;
    match m.state
    case HeaderFieldStart => FieldErrors(m, ch);
    case HeaderField => FieldErrors(m, ch);
    case HeaderValueDiscardWs => BlankErrors(m, ch);
    case HeaderValueDiscardLws => BlankErrors(m, ch);
    case HeaderValue => ValueErrors(m, ch);
    case HeaderValueLws => BlankErrors(m, ch);
    case HeadersAlmostDone => HeadErrors(m, ch);
    case BodyIdentity => HeadErrors(m, ch);
    case _ =>
  }

  lemma LineErrors(m: Machine, ch: Byte)
    requires m.errno == OK
    ensures StepStart(m, ch).errno in {OK, INVALID_METHOD} && StepMethod(m, ch).errno in {OK, INVALID_METHOD}
    ensures StepSpaces(m, ch).errno in {OK, INVALID_URL} && StepUrl(m, ch).errno in {OK, INVALID_URL}
  {
    hide Push, ParseUrlChar, MethodName;
  }

  lemma VersionErrors(m: Machine, ch: Byte)
    requires m.errno == OK && VersionState(m.state)
    ensures FineOr(m.state, StepVersion(m, ch).errno)
  {
  }

  lemma FieldErrors(m: Machine, ch: Byte)
    requires m.errno == OK
    ensures StepFieldStart(m, ch).errno in {OK, INVALID_HEADER_TOKEN, UNEXPECTED_CONTENT_LENGTH}
    ensures StepField(m, ch).errno in {OK, INVALID_HEADER_TOKEN}
  {
    hide Push, IsToken, TokenChar;
  }

  lemma BlankErrors(m: Machine, ch: Byte)
    requires m.errno == OK
    ensures StepDiscardWs(m, ch).errno in {OK, INVALID_CONTENT_LENGTH, UNEXPECTED_CONTENT_LENGTH}
    ensures StepDiscardLws(m, ch).errno in
              {OK, INVALID_CONTENT_LENGTH, INVALID_HEADER_TOKEN, UNEXPECTED_CONTENT_LENGTH}
    ensures StepValueLws(m, ch).errno in {OK, INVALID_HEADER_TOKEN, INVALID_CONTENT_LENGTH, UNEXPECTED_CONTENT_LENGTH}
  {
    hide StepFieldStart, StepValueStart, Push;
    StartErrors(m, ch);
    StartErrors(m.(headerState := ContentLengthWs), ch);
    FieldErrors(m.(flags := ValueFlags(m.headerState, m.flags), state := HeaderFieldStart), ch);
    FieldErrors(Emit(m.(flags := ValueFlags(m.headerState, m.flags), state := HeaderFieldStart), Value([])), ch);
    hide ValueFlags;
  }

  lemma StartErrors(m: Machine, ch: Byte)
    requires m.errno == OK
    ensures StepValueStart(m, ch).errno in {OK, INVALID_CONTENT_LENGTH, UNEXPECTED_CONTENT_LENGTH}
  {
    hide Push, Lower;
  }

  lemma ValueErrors(m: Machine, ch: Byte)
    requires m.errno == OK
    ensures StepValue(m, ch).errno in {OK, INVALID_HEADER_TOKEN, INVALID_CONTENT_LENGTH}
  {
    hide Push, Lower, IsHeaderChar, MatchByte, TokenStart;
  }

  lemma HeadErrors(m: Machine, ch: Byte)
    requires m.errno == OK
    ensures StepHeadersAlmostDone(m, ch).errno in {OK, STRICT, UNEXPECTED_CONTENT_LENGTH}
    ensures StepBody(m, ch).errno == OK
  {
  }

  lemma ChunkErrors(m: Machine, ch: Byte)
    requires m.errno == OK && ChunkState(m.state)
    ensures FineOr(m.state, StepChunk(m, ch).errno)
  {
  }
}
