/** The callbacks come in a fixed order: whatever the input, they are a prefix of a sequence of complete
    messages. */
module HttpGrammar {
  import opened HttpTypes
  import opened HttpMachine
  import opened HttpInvariant

  /** Where in a message a sequence of callbacks ends. */
  datatype Phase =
    | Between
    | Begun
    | Target
    | Name
    | Headers
    | Complete
    | InBody
    | ChunkHead
    | ChunkBody
    | ChunkEnd
    | TrailerName
    | TrailerValue
    | LastEnd
    | Bad

  function Advance(p: Phase, e: Event): Phase {
    match (p, e)
    case (Between, MessageBegin) => Begun
    case (Begun, Url(_)) => Target
    case (Target, Url(_)) => Target
    case (Target, Field(_)) => Name
    case (Target, HeadersComplete) => Complete
    case (Name, Field(_)) => Name
    case (Name, Value(_)) => Headers
    case (Headers, Value(_)) => Headers
    case (Headers, Field(_)) => Name
    case (Headers, HeadersComplete) => Complete
    case (Complete, Body(_)) => InBody
    case (Complete, ChunkHeader) => ChunkHead
    case (Complete, MessageComplete) => Between
    case (InBody, Body(_)) => InBody
    case (InBody, MessageComplete) => Between
    case (ChunkHead, Body(_)) => ChunkBody
    case (ChunkHead, Field(_)) => TrailerName
    case (ChunkHead, ChunkComplete) => LastEnd
    case (ChunkBody, Body(_)) => ChunkBody
    case (ChunkBody, ChunkComplete) => ChunkEnd
    case (ChunkEnd, ChunkHeader) => ChunkHead
    case (TrailerName, Field(_)) => TrailerName
    case (TrailerName, Value(_)) => TrailerValue
    case (TrailerValue, Value(_)) => TrailerValue
    case (TrailerValue, Field(_)) => TrailerName
    case (TrailerValue, ChunkComplete) => LastEnd
    case (LastEnd, MessageComplete) => Between
    case _ => Bad
  }

  function PhaseOf(t: Trace): Phase {
    if t == [] then Between else Advance(PhaseOf(t[..|t| - 1]), t[|t| - 1])
  }

  lemma AdvanceTwice(p: Phase, e: Event, f: Event)
    requires e.SameKind(f)
    ensures Advance(Advance(p, e), f) == Advance(p, e) == Advance(p, e.Join(f))
  {
  }

  /** Joining fragments does not change the phase. */
  lemma PhasePush(t: Trace, e: Event)
    ensures PhaseOf(Push(t, e)) == Advance(PhaseOf(t), e)
  {
    hide Advance;
    if |t| > 0 && t[|t| - 1].SameKind(e) {
      var u := t[..|t| - 1];
      assert Push(t, e)[..|t| - 1] == u;
      AdvanceTwice(PhaseOf(u), t[|t| - 1], e);
    } else {
      assert Push(t, e)[..|t|] == t;
    }
  }

  lemma {:induction false} PhaseCanon(cbs: seq<Event>)
    ensures PhaseOf(Canon(cbs)) == PhaseOf(cbs)
  {
    hide Push, Advance;
    if cbs != [] {
      PhaseCanon(cbs[..|cbs| - 1]);
      PhasePush(Canon(cbs[..|cbs| - 1]), cbs[|cbs| - 1]);
    }
  }

  /** The phases in which a parser state can be entered. */
  predicate Agrees(p: Phase, s: State, trailing: bool) {
    match s
    case Dead => p.Between?
    case StartReq => p.Between?
    case ReqMethod => !trailing && p.Begun?
    case ReqSpacesBeforeUrl => !trailing && p.Begun?
    case HeaderFieldStart => if trailing then p.ChunkHead? || p.TrailerValue? else p.Target? || p.Headers?
    case HeadersAlmostDone => if trailing then p.ChunkHead? || p.TrailerValue? else p.Target? || p.Headers?
    case HeaderField => if trailing then p.TrailerName? else p.Name?
    case HeaderValueDiscardWs => if trailing then p.TrailerName? else p.Name?
    case HeaderValueDiscardWsAlmostDone => if trailing then p.TrailerName? else p.Name?
    case HeaderValueDiscardLws => if trailing then p.TrailerName? else p.Name?
    case HeaderValue => if trailing then p.TrailerValue? else p.Headers?
    case HeaderAlmostDone => if trailing then p.TrailerValue? else p.Headers?
    case HeaderValueLws => if trailing then p.TrailerValue? else p.Headers?
    case ChunkSizeStart => !trailing && (p.Complete? || p.ChunkEnd?)
    case ChunkSize => !trailing && (p.Complete? || p.ChunkEnd?)
    case ChunkParameters => !trailing && (p.Complete? || p.ChunkEnd?)
    case ChunkSizeAlmostDone => !trailing && (p.Complete? || p.ChunkEnd?)
    case ChunkData => !trailing && (p.ChunkHead? || p.ChunkBody?)
    case ChunkDataAlmostDone => !trailing && p.ChunkBody?
    case ChunkDataDone => !trailing && p.ChunkBody?
    case BodyIdentity => !trailing && (p.Complete? || p.InBody?)
    case _ => !trailing && p.Target?
  }

  predicate InOrder(m: Machine) {
    && !PhaseOf(m.trace).Bad?
    && (m.errno == OK ==> Agrees(PhaseOf(m.trace), m.state, m.flags.trailing))
  }

  predicate AtName(p: Phase, trailing: bool) { if trailing then p.TrailerName? else p.Name? }

  predicate AtValue(p: Phase, trailing: bool) { if trailing then p.TrailerValue? else p.Headers? }

  /** The end of a block of headers can follow here. */
  predicate AtHeader(p: Phase, trailing: bool) {
    if trailing then p.ChunkHead? || p.TrailerValue? else p.Target? || p.Headers?
  }

  /** Groups of states that can be entered in the same phases. */
  lemma AgreesHeaders(p: Phase, trailing: bool)
    ensures Agrees(p, HeaderFieldStart, trailing) == Agrees(p, HeadersAlmostDone, trailing) == AtHeader(p, trailing)
    ensures Agrees(p, HeaderField, trailing) == AtName(p, trailing)
    ensures Agrees(p, HeaderValueDiscardWs, trailing) == Agrees(p, HeaderValueDiscardWsAlmostDone, trailing) ==
            Agrees(p, HeaderValueDiscardLws, trailing) == AtName(p, trailing)
    ensures Agrees(p, HeaderValue, trailing) == Agrees(p, HeaderAlmostDone, trailing) ==
            Agrees(p, HeaderValueLws, trailing) == AtValue(p, trailing)
  {
  }

  lemma AgreesChunks(p: Phase, trailing: bool)
    ensures Agrees(p, ChunkSizeStart, trailing) == Agrees(p, ChunkSize, trailing) ==
            Agrees(p, ChunkParameters, trailing) == Agrees(p, ChunkSizeAlmostDone, trailing) ==
            (!trailing && (p.Complete? || p.ChunkEnd?))
    ensures Agrees(p, ChunkData, trailing) == (!trailing && (p.ChunkHead? || p.ChunkBody?))
    ensures Agrees(p, ChunkDataAlmostDone, trailing) == Agrees(p, ChunkDataDone, trailing) ==
            (!trailing && p.ChunkBody?)
    ensures Agrees(p, HeaderFieldStart, trailing) == AtHeader(p, trailing)
  {
  }

  /** How fields and values move the phase. */
  lemma AdvanceField(p: Phase, trailing: bool, b: Bytes)
    ensures AtName(p, trailing) ==> AtName(Advance(p, Field(b)), trailing) && AtValue(Advance(p, Value(b)), trailing)
    ensures AtValue(p, trailing) ==> AtValue(Advance(p, Value(b)), trailing) && AtHeader(p, trailing)
    ensures AtHeader(p, trailing) ==> AtName(Advance(p, Field(b)), trailing)
    ensures AtName(p, trailing) || AtValue(p, trailing) || AtHeader(p, trailing) ==> !p.Bad?
  {
  }

  // One lemma for each part of StepState

  lemma LineOrder(m: Machine, ch: Byte)
    requires InOrder(m) && m.errno == OK && (m.state.StartReq? || m.state.ReqMethod?)
    ensures m.state.StartReq? ==> InOrder(StepStart(m, ch))
    ensures m.state.ReqMethod? ==> InOrder(StepMethod(m, ch))
  {
    hide Push, PhaseOf, MethodName, OtherMethod, FirstMethod, MethodLetter;
    PhasePush(m.trace, MessageBegin);
  }

  lemma UrlOrder(m: Machine, ch: Byte)
    requires InOrder(m) && m.errno == OK && (m.state.ReqSpacesBeforeUrl? || UrlState(m.state))
    ensures m.state.ReqSpacesBeforeUrl? ==> InOrder(StepSpaces(m, ch))
    ensures UrlState(m.state) ==> InOrder(StepUrl(m, ch))
  {
    hide Push, PhaseOf, ParseUrlChar;
    PhasePush(m.trace, Url([ch]));
    UrlCharState(m.state, ch);
    UrlCharState(if m.requestMethod.CONNECT? then ReqServerStart else ReqSpacesBeforeUrl, ch);
  }

  lemma VersionOrder(m: Machine, ch: Byte)
    requires InOrder(m) && m.errno == OK && VersionState(m.state)
    ensures InOrder(StepVersion(m, ch))
  {
    hide PhaseOf, StepVersion;
    VersionShape(m, ch);
  }

  lemma DoneOrder(m: Machine)
    requires m.errno == OK && Advance(PhaseOf(m.trace), MessageComplete).Between?
    ensures InOrder(CompleteMessage(m)) && InOrder(StepMessageDone(m))
  {
    hide Push, PhaseOf;
    PhasePush(m.trace, MessageComplete);
  }

  lemma HeadersDoneOrder(m: Machine)
    requires m.errno == OK && PhaseOf(m.trace).Complete? && !m.flags.trailing
    ensures InOrder(StepHeadersDone(m))
  {
    hide Push, PhaseOf, CompleteMessage;
    DoneOrder(m.(nread := 0));
  }

  lemma HeadersAlmostDoneOrder(m: Machine, ch: Byte)
    requires m.errno == OK && AtHeader(PhaseOf(m.trace), m.flags.trailing)
    ensures InOrder(StepHeadersAlmostDone(m, ch))
  {
    hide Push, PhaseOf, StepMessageDone, StepHeadersDone;
    PhasePush(m.trace, ChunkComplete);
    PhasePush(m.trace, HeadersComplete);
    if m.flags.trailing {
      DoneOrder(Emit(m, ChunkComplete));
    } else {
      HeadersDoneOrder(Emit(m.(upgrade := (m.flags.upgrade && m.flags.connectionUpgrade) || m.requestMethod.CONNECT?),
                            HeadersComplete));
    }
  }

  lemma FieldStartOrder(m: Machine, ch: Byte)
    requires m.errno == OK && AtHeader(PhaseOf(m.trace), m.flags.trailing)
    ensures InOrder(StepFieldStart(m, ch))
  {
    hide Push, PhaseOf, StepHeadersAlmostDone, IsToken, TokenChar, FieldFirst, Agrees, Advance, AtHeader, AtName;
    PhasePush(m.trace, Field([ch]));
    AdvanceField(PhaseOf(m.trace), m.flags.trailing, [ch]);
    AgreesHeaders(PhaseOf(m.trace), m.flags.trailing);
    AgreesHeaders(PhaseOf(Push(m.trace, Field([ch]))), m.flags.trailing);
    HeadersAlmostDoneOrder(m.(state := HeadersAlmostDone), ch);
  }

  lemma FieldOrder(m: Machine, ch: Byte)
    requires InOrder(m) && m.errno == OK && m.state.HeaderField?
    ensures InOrder(StepField(m, ch))
  {
    hide Push, PhaseOf, IsToken, TokenChar, FieldByte, Agrees, Advance, AtName;
    PhasePush(m.trace, Field([ch]));
    AdvanceField(PhaseOf(m.trace), m.flags.trailing, [ch]);
    AgreesHeaders(PhaseOf(m.trace), m.flags.trailing);
    AgreesHeaders(PhaseOf(Push(m.trace, Field([ch]))), m.flags.trailing);
  }

  lemma ValueStartOrder(m: Machine, ch: Byte)
    requires m.errno == OK
    requires AtName(PhaseOf(m.trace), m.flags.trailing) || AtValue(PhaseOf(m.trace), m.flags.trailing)
    ensures InOrder(StepValueStart(m, ch))
  {
    hide Push, PhaseOf, StepValueStart, Agrees, Advance, AtName, AtValue;
    PhasePush(m.trace, Value([ch]));
    ValueStartShape(m, ch);
    AdvanceField(PhaseOf(m.trace), m.flags.trailing, [ch]);
    AgreesHeaders(PhaseOf(Push(m.trace, Value([ch]))), m.flags.trailing);
  }

  lemma ValueOrder(m: Machine, ch: Byte)
    requires InOrder(m) && m.errno == OK && m.state.HeaderValue?
    ensures InOrder(StepValue(m, ch))
  {
    hide Push, PhaseOf, ValueByte, IsHeaderChar, Agrees, Advance, AtValue;
    PhasePush(m.trace, Value([ch]));
    ValueByteShape(m, ch);
    AdvanceField(PhaseOf(m.trace), m.flags.trailing, [ch]);
    AgreesHeaders(PhaseOf(m.trace), m.flags.trailing);
    AgreesHeaders(PhaseOf(Push(m.trace, Value([ch]))), m.flags.trailing);
  }

  lemma DiscardWsOrder(m: Machine, ch: Byte)
    requires InOrder(m) && m.errno == OK && m.state.HeaderValueDiscardWs?
    ensures InOrder(StepDiscardWs(m, ch))
  {
    hide PhaseOf, StepValueStart, Agrees, AtName;
    AgreesHeaders(PhaseOf(m.trace), m.flags.trailing);
    ValueStartOrder(m, ch);
  }

  lemma DiscardLwsOrder(m: Machine, ch: Byte)
    requires InOrder(m) && m.errno == OK && m.state.HeaderValueDiscardLws?
    ensures InOrder(StepDiscardLws(m, ch))
  {
    hide Push, PhaseOf, StepFieldStart, Agrees, Advance, AtName, AtValue, AtHeader, ValueFlags;
    PhasePush(m.trace, Value([]));
    AdvanceField(PhaseOf(m.trace), m.flags.trailing, []);
    AdvanceField(PhaseOf(Push(m.trace, Value([]))), m.flags.trailing, []);
    AgreesHeaders(PhaseOf(m.trace), m.flags.trailing);
    ValueFlagsTrailing(m.headerState, m.flags);
    FieldStartOrder(Emit(m.(flags := ValueFlags(m.headerState, m.flags), state := HeaderFieldStart), Value([])), ch);
  }

  lemma ValueLwsOrder(m: Machine, ch: Byte)
    requires InOrder(m) && m.errno == OK && m.state.HeaderValueLws?
    ensures InOrder(StepValueLws(m, ch))
  {
    hide PhaseOf, StepValueStart, StepFieldStart, Agrees, AtValue, AtHeader, ValueFlags;
    AdvanceField(PhaseOf(m.trace), m.flags.trailing, []);
    AgreesHeaders(PhaseOf(m.trace), m.flags.trailing);
    ValueFlagsTrailing(m.headerState, m.flags);
    ValueStartOrder(if m.headerState.ContentLengthNum? then m.(headerState := ContentLengthWs) else m, ch);
    FieldStartOrder(m.(flags := ValueFlags(m.headerState, m.flags), state := HeaderFieldStart), ch);
  }

  lemma AgreesBody(p: Phase, trailing: bool)
    ensures Agrees(p, BodyIdentity, trailing) == (!trailing && (p.Complete? || p.InBody?))
  {
  }

  lemma AdvanceBody(b: Bytes)
    ensures Advance(Complete, Body(b)) == Advance(InBody, Body(b)) == InBody
    ensures Advance(InBody, MessageComplete).Between?
  {
  }

  lemma BodyOrder(m: Machine, ch: Byte)
    requires InOrder(m) && m.errno == OK && m.state.BodyIdentity?
    ensures InOrder(StepBody(m, ch))
  {
    hide Push, PhaseOf, StepMessageDone, Agrees, Advance;
    PhasePush(m.trace, Body([ch]));
    AgreesBody(PhaseOf(m.trace), m.flags.trailing);
    AgreesBody(InBody, m.flags.trailing);
    AdvanceBody([ch]);
    DoneOrder(Emit(m.(contentLength := 0), Body([ch])));
  }

  lemma ChunkOrder(m: Machine, ch: Byte)
    requires InOrder(m) && m.errno == OK && ChunkState(m.state)
    ensures InOrder(StepChunk(m, ch))
  {
    hide Push, PhaseOf, Unhex, StepChunkSize, StepChunkSizeAlmostDone, Advance, Agrees;
    var p, trailing := PhaseOf(m.trace), m.flags.trailing;
    AgreesChunks(p, trailing);
    AdvanceChunk([ch]);
    if m.state.ChunkSize? || m.state.ChunkSizeAlmostDone? {
      ChunkSizeOrder(m, ch);
    } else if m.state.ChunkData? {
      PhasePush(m.trace, Body([ch]));
      AgreesChunks(Advance(p, Body([ch])), trailing);
    } else if m.state.ChunkDataDone? {
      PhasePush(m.trace, ChunkComplete);
      AgreesChunks(Advance(p, ChunkComplete), trailing);
    }
  }

  lemma AdvanceChunk(b: Bytes)
    ensures Advance(ChunkHead, Body(b)) == Advance(ChunkBody, Body(b)) == ChunkBody
    ensures Advance(ChunkBody, ChunkComplete) == ChunkEnd
    ensures Advance(Complete, ChunkHeader) == Advance(ChunkEnd, ChunkHeader) == ChunkHead
  {
  }

  lemma ChunkSizeOrder(m: Machine, ch: Byte)
    requires InOrder(m) && m.errno == OK
    ensures m.state.ChunkSize? ==> InOrder(StepChunkSize(m, ch))
    ensures m.state.ChunkSizeAlmostDone? ==> InOrder(StepChunkSizeAlmostDone(m, ch))
  {
    hide Push, PhaseOf, Unhex, Advance, Agrees;
    PhasePush(m.trace, ChunkHeader);
    AdvanceChunk([]);
    AgreesChunks(PhaseOf(m.trace), m.flags.trailing);
    AgreesChunks(Advance(PhaseOf(m.trace), ChunkHeader), m.flags.trailing);
    AgreesChunks(Advance(PhaseOf(m.trace), ChunkHeader), true);
  }

  lemma StepOrder(m: Machine, ch: Byte)
    requires InOrder(m) && m.errno == OK
    ensures InOrder(Step(m, ch))
  {
    hide StepStart, StepMethod, StepSpaces, StepUrl, StepVersion, StepFieldStart, StepField, StepValue, StepChunk,
      StepBody, StepHeadersAlmostDone, StepDiscardWs, StepDiscardLws, StepValueLws, PhaseOf, Agrees;
    var r := Count(m);
    if UrlState(m.state) {
      UrlOrder(r, ch);
    } else if ChunkState(m.state) {
      ChunkOrder(r, ch);
    } else if VersionState(m.state) {
      VersionOrder(r, ch);
    } else {
      match m.state
      case StartReq => LineOrder(r, ch);
      case ReqMethod => LineOrder(r, ch);
      case ReqSpacesBeforeUrl => UrlOrder(r, ch);
      case BodyIdentity => BodyOrder(r, ch);
      case _ => HeaderOrder(r, ch);
    }
  }

  /** The states of a header section, and those in which nothing is expected. */
  lemma HeaderOrder(m: Machine, ch: Byte)
    requires InOrder(m) && m.errno == OK && !UrlState(m.state) && !ChunkState(m.state) && !VersionState(m.state)
    requires !m.state.StartReq? && !m.state.ReqMethod? && !m.state.ReqSpacesBeforeUrl? && !m.state.BodyIdentity?
    ensures InOrder(StepState(m, ch))
  {
    hide StepFieldStart, StepField, StepValue, StepHeadersAlmostDone, StepDiscardWs, StepDiscardLws, StepValueLws,
      StepVersion, StepChunk, StepUrl, UrlState, ChunkState, VersionState, PhaseOf, Agrees;
    AgreesHeaders(PhaseOf(m.trace), m.flags.trailing);
    match m.state
    case HeaderFieldStart => FieldStartOrder(m, ch);
    case HeaderField => FieldOrder(m, ch);
    case HeaderValueDiscardWs => DiscardWsOrder(m, ch);
    case HeaderValueDiscardLws => DiscardLwsOrder(m, ch);
    case HeaderValue => ValueOrder(m, ch);
    case HeaderValueLws => ValueLwsOrder(m, ch);
    case HeadersAlmostDone => HeadersAlmostDoneOrder(m, ch);
    case _ => RestCovered(m.state);
  }

  lemma RestCovered(s: State)
    ensures s.Dead? || s.StartReq? || s.ReqMethod? || s.ReqSpacesBeforeUrl? || UrlState(s) || ChunkState(s) ||
            VersionState(s) || s.HeaderFieldStart? || s.HeaderField? || s.HeaderValueDiscardWs? ||
            s.HeaderValueDiscardWsAlmostDone? || s.HeaderValueDiscardLws? || s.HeaderValueStart? ||
            s.HeaderValue? || s.HeaderValueLws? || s.HeaderAlmostDone? || s.HeadersAlmostDone? ||
            s.HeadersDone? || s.BodyIdentity? || s.MessageDone?
  {
  }

  /** Trace grammar: whatever the bytes, and even if they end in an error, the callbacks are in order. */
  lemma {:induction false} RunOrder(m: Machine, data: Bytes)
    requires InOrder(m) && m.errno == OK
    ensures InOrder(Run(m, data))
    decreases |data|
  {
    hide Step, InOrder;
    if data != [] && !Stopped(m) {
      StepOrder(m, data[0]);
      if Step(m, data[0]).errno == OK {
        RunOrder(Step(m, data[0]), data[1..]);
      } else {
        RunFailed(Step(m, data[0]), data[1..]);
      }
    }
  }

  lemma RunFailed(m: Machine, data: Bytes)
    requires m.errno != OK
    ensures Run(m, data) == m
  {
  }

  predicate Blank(data: Bytes) { forall i :: 0 <= i < |data| ==> data[i] == CR || data[i] == LF }

  /** After a message that closes the connection nothing is reported, and bytes other than CR and LF are an
      error. */
  lemma {:induction false} DeadIsSilent(m: Machine, data: Bytes)
    requires m.state.Dead? && !Stopped(m) && m.nread + |data| <= MAX_HEADER_SIZE
    ensures var r := Run(m, data);
            && r.trace == m.trace
            && r.errno == if Blank(data) then OK else CLOSED_CONNECTION
    decreases |data|
  {
    if data != [] {
      var r := Step(m, data[0]);
      assert forall i :: 0 <= i < |data| - 1 ==> data[1..][i] == data[i + 1];
      if data[0] == CR || data[0] == LF {
        DeadIsSilent(r, data[1..]);
        assert Blank(data[1..]) ==> Blank(data);
      } else {
        RunFailed(r, data[1..]);
      }
    }
  }

  /** Beyond the header size limit, too, nothing is reported. */
  lemma {:induction false} DeadStays(m: Machine, data: Bytes)
    requires m.state.Dead?
    ensures Run(m, data).trace == m.trace && Run(m, data).state.Dead?
    decreases |data|
  {
    if data != [] && !Stopped(m) {
      DeadStep(m, data[0]);
      DeadStays(Step(m, data[0]), data[1..]);
    }
  }

  lemma DeadStep(m: Machine, ch: Byte)
    requires m.state.Dead?
    ensures Step(m, ch).trace == m.trace && Step(m, ch).state.Dead?
  {
  }
}
