/** The incremental request parser: its state survives from one buffer to the next, it scans header
    names, header values and bodies in blocks, and it reports data through marks into the buffer.
    Each method is one group of cases of http_parser_execute and is proved against HttpMachine; the
    local variables of that function which the groups share (its marks) are fields here. */
module HttpParser {
  import opened HttpTypes
  import opened HttpMachine
  import opened HttpInvariant
  import opened HttpScan

  lemma Grow(t: Trace, data: Bytes, from: nat, p: nat)
    requires from <= p < |data|
    ensures Push(Push(t, Url(data[from..p])), Url([data[p]])) == Push(t, Url(data[from..p + 1]))
    ensures Push(Push(t, Field(data[from..p])), Field([data[p]])) == Push(t, Field(data[from..p + 1]))
    ensures Push(Push(t, Value(data[from..p])), Value([data[p]])) == Push(t, Value(data[from..p + 1]))
  {
    hide Push;
    assert data[from..p] + [data[p]] == data[from..p + 1];
    PushJoin(t, Url(data[from..p]), Url([data[p]]));
    PushJoin(t, Field(data[from..p]), Field([data[p]]));
    PushJoin(t, Value(data[from..p]), Value([data[p]]));
  }

  /** The callbacks reported so far are a trace, up to a last fragment that was not reported. */
  ghost predicate Cut(cbs: seq<Event>, t: Trace) {
    Canon(cbs) == t || exists e: Event :: e.IsData() && Push(Canon(cbs), e) == t
  }

  lemma OpenCut(cbs: seq<Event>, e: Event)
    requires e.IsData()
    ensures Cut(cbs, Push(Canon(cbs), e))
  {
    hide Push, Canon;
  }

  /** The callbacks reported so far are a trace, but for the length of its last fragment. */
  ghost predicate Near(cbs: seq<Event>, t: Trace) {
    Cut(cbs, t) || exists e: Event :: LastIs(t, e) && Canon(cbs) == Push(t, e)
  }

  class Parser {
    var state: State
    var headerState: HeaderState
    var index: nat
    var flags: Flags
    var nread: nat
    var contentLength: nat
    var major: nat
    var minor: nat
    var requestMethod: Method
    var errno: Errno
    var upgrade: bool

    // Where the open data callback starts in the current buffer, or -1
    var urlMark: int
    var fieldMark: int
    var valueMark: int
    var bodyMark: int

    /** The callbacks made so far. */
    ghost var callbacks: seq<Event>

    ghost predicate NoMarks()
      reads this
    {
      urlMark == -1 && fieldMark == -1 && valueMark == -1 && bodyMark == -1
    }

    /** The marks point into the consumed part of the buffer, and at most one of them is set. */
    ghost predicate Marks(data: Bytes, p: nat)
      reads this
    {
      && p <= |data|
      && -1 <= urlMark <= p && -1 <= fieldMark <= p && -1 <= valueMark <= p && -1 <= bodyMark <= p
      && (urlMark >= 0 ==> fieldMark == -1 && valueMark == -1 && bodyMark == -1)
      && (fieldMark >= 0 ==> valueMark == -1 && bodyMark == -1)
      && (valueMark >= 0 ==> bodyMark == -1)
    }

    /** Between two bytes a mark is set exactly in the states that collect the bytes of a callback. */
    ghost predicate Open(data: Bytes, p: nat)
      reads this
    {
      && Marks(data, p)
      && (urlMark >= 0 <==> UrlState(state))
      && (fieldMark >= 0 <==> state.HeaderField?)
      && (valueMark >= 0 <==> state.HeaderValue?)
      && (bodyMark >= 0 ==> state.ChunkData? || state.ChunkDataAlmostDone? || state.BodyIdentity?)
      && (bodyMark >= 0 && !state.ChunkDataAlmostDone? ==> p == |data|)
    }

    /** The trace once the open callback is made. */
    ghost function Pending(data: Bytes, p: nat): Trace
      requires Marks(data, p)
      reads this
    {
      if urlMark >= 0 then Push(Canon(callbacks), Url(data[urlMark..p]))
      else if fieldMark >= 0 then Push(Canon(callbacks), Field(data[fieldMark..p]))
      else if valueMark >= 0 then Push(Canon(callbacks), Value(data[valueMark..p]))
      else if bodyMark >= 0 then Push(Canon(callbacks), Body(data[bodyMark..p]))
      else Canon(callbacks)
    }

    /** The machine this parser stands for, with a given trace. */
    ghost function With(t: Trace): Machine
      reads this
    {
      Machine(state, headerState, index, flags, nread, contentLength, major, minor, requestMethod, upgrade,
              errno, false, t)
    }

    ghost function Abs(data: Bytes, p: nat): Machine
      requires Marks(data, p)
      reads this
    {
      With(Pending(data, p))
    }

    /** The machine this parser stands for between two buffers. */
    ghost function Snap(): Machine
      reads this
    {
      With(Canon(callbacks))
    }

    ghost predicate Valid()
      reads this
    {
      NoMarks() && (errno == OK ==> Inv(Snap()))
    }

    /** The byte at p, or the block ending there, is handled as the machine r says. */
    ghost predicate Handled(r: Machine, data: Bytes, p: nat, exit: bool)
      reads this
    {
      && p < |data|
      && if r.errno == OK then
           errno == OK && Open(data, p + 1) && Abs(data, p + 1) == r.(exited := false) && exit == r.exited
         else
           errno != OK && (r.errno != HEADER_OVERFLOW ==> errno == r.errno && Cut(callbacks, r.trace))
    }

    /** The fields follow the machine r, and no callback was made; t stands for the trace. */
    ghost predicate Became(r: Machine, t: Trace)
      reads this
    {
      if r.errno == OK then With(t) == r else errno == r.errno && r.trace == t
    }

    /** A byte that neither opens nor closes a callback. */
    lemma Lift(r: Machine, data: Bytes, p: nat)
      requires NoMarks() && p < |data| && Became(r, Canon(callbacks))
      requires r.errno == OK ==> !UrlState(r.state) && !r.state.HeaderField? && !r.state.HeaderValue?
      ensures Handled(r, data, p, false)
    {
      hide Canon, Push, UrlState;
    }

    /** Nothing is open, and the fields are those of the machine. */
    lemma Finished(r: Machine, data: Bytes, p: nat, exit: bool)
      requires NoMarks() && p < |data| && r.errno == OK && Snap() == r.(exited := false) && exit == r.exited
      requires !UrlState(state) && !state.HeaderField? && !state.HeaderValue?
      ensures Handled(r, data, p, exit)
    {
      hide Canon, Push, UrlState;
    }

    static lemma NotUrl(s: State)
      requires s.StartReq? || s.Dead? || s.ChunkSizeStart? || s.BodyIdentity? || s.ReqHttpStart? ||
               s.ReqLineAlmostDone? || s.HeaderFieldStart? || s.HeaderAlmostDone? || s.HeaderValueLws? ||
               s.HeaderValueDiscardWs?
      ensures !UrlState(s)
    {
    }

    /** The bytes from p to q are handled as the machine m, standing before p, does. */
    ghost predicate HandledBlock(m: Machine, data: Bytes, p: nat, q: nat, exit: bool)
      reads this
    {
      && p <= q < |data|
      && Handled(Run(m, data[p..q + 1]), data, q, exit)
      && Precise(m, data[p..q + 1])
      && (Run(m, data[p..q + 1]).errno == HEADER_OVERFLOW ==> Near(callbacks, m.trace))
    }

    /** A block in which the machine meets the header limit. */
    lemma OverflowBlock(m: Machine, data: Bytes, p: nat, q: nat)
      requires p <= q < |data| && errno != OK && Run(m, data[p..q + 1]).errno == HEADER_OVERFLOW
      requires Precise(m, data[p..q + 1]) && Near(callbacks, m.trace)
      ensures HandledBlock(m, data, p, q, false)
    {
      hide Run, Precise, Near;
    }

    /** A block in which it does not. */
    lemma OrdinaryBlock(m: Machine, k: Machine, data: Bytes, p: nat, q: nat)
      requires p <= q < |data| && Handled(k, data, q, false) && k.errno != HEADER_OVERFLOW
      requires k == Run(m, data[p..q + 1]) && Precise(m, data[p..q + 1])
      ensures HandledBlock(m, data, p, q, false)
    {
      hide Run, Precise, Near, Handled;
    }

    constructor ()
      ensures Valid() && Snap() == INIT && callbacks == []
    {
      state, headerState, index, flags, nread := StartReq, General, 0, NO_FLAGS, 0;
      contentLength, major, minor, requestMethod, errno, upgrade := 0, 0, 0, DELETE, OK, false;
      urlMark, fieldMark, valueMark, bodyMark := -1, -1, -1, -1;
      callbacks := [];
      new;
      InitInv();
    }

    method Notify(ghost e: Event)
      requires errno == OK
      modifies `callbacks
      ensures callbacks == old(callbacks) + [e]
      ensures Canon(callbacks) == Push(old(Canon(callbacks)), e)
    {
      CanonPush(callbacks, e);
      callbacks := callbacks + [e];
    }

    /** Makes the data callback of the mark that is set, if any. */
    method CallbackData(data: Bytes, p: nat)
      requires Marks(data, p) && errno == OK
      modifies `callbacks, `urlMark, `fieldMark, `valueMark, `bodyMark
      ensures NoMarks() && Canon(callbacks) == old(Pending(data, p))
    {
      hide Push, Canon;
      if fieldMark >= 0 {
        Notify(Field(data[fieldMark..p]));
        fieldMark := -1;
      }
      if valueMark >= 0 {
        Notify(Value(data[valueMark..p]));
        valueMark := -1;
      }
      if urlMark >= 0 {
        Notify(Url(data[urlMark..p]));
        urlMark := -1;
      }
      if bodyMark >= 0 {
        Notify(Body(data[bodyMark..p]));
        bodyMark := -1;
      }
    }

    method CountHeaderSize(v: nat)
      modifies `nread, `errno
      ensures nread == (old(nread) + v) % TWO_32
      ensures errno == if nread > MAX_HEADER_SIZE then HEADER_OVERFLOW else old(errno)
    {
      nread := (nread + v) % TWO_32;
      if nread > MAX_HEADER_SIZE {
        errno := HEADER_OVERFLOW;
      }
    }

    // The request line

    method StartByte(data: Bytes, p: nat)
      requires Open(data, p) && p < |data| && errno == OK && state.StartReq?
      modifies this
      ensures Handled(StepStart(old(Abs(data, p)), data[p]), data, p, false)
    {
      hide Push, Canon, StepStart;
      ghost var m := Snap();
      StartShape(m, data[p]);
      StartFields(data[p]);
      LiftSnap(StepStart(m, data[p]), data, p);
    }

    method StartFields(ch: Byte)
      requires NoMarks() && errno == OK
      modifies `state, `flags, `contentLength, `requestMethod, `index, `errno, `callbacks
      ensures var r := StepStart(old(Snap()), ch);
              if r.errno == OK then Snap() == r else errno == r.errno && Canon(callbacks) == r.trace
    {
      hide Push, Canon, FirstMethod, MethodLetter;
      if ch == CR || ch == LF {
        return;
      }
      flags := NO_FLAGS;
      contentLength := NO_LENGTH;
      if !MethodLetter(ch) {
        errno := INVALID_METHOD;
        return;
      }
      requestMethod := FirstMethod(ch);
      index := 1;
      state := ReqMethod;
      Notify(MessageBegin);
    }

    static lemma StartShape(m: Machine, ch: Byte)
      requires m.errno == OK && !m.exited && m.state.StartReq?
      ensures var r := StepStart(m, ch);
              r.errno != HEADER_OVERFLOW && !r.exited && (r.errno == OK ==> r.state.StartReq? || r.state.ReqMethod?)
    {
      hide Push, FirstMethod, MethodLetter;
    }

    method MethodByte(data: Bytes, p: nat)
      requires Open(data, p) && p < |data| && errno == OK && state.ReqMethod?
      requires index <= |MethodName(requestMethod)|
      modifies this
      ensures Handled(StepMethod(old(Abs(data, p)), data[p]), data, p, false)
    {
      hide Push, Canon, MethodName, OtherMethod;
      var ch := data[p];
      if ch == '\0' {
        errno := INVALID_METHOD;
        return;
      }
      var matcher := MethodName(requestMethod);
      if ch == ' ' && index == |matcher| {
        state := ReqSpacesBeforeUrl;
      } else if index < |matcher| && ch == matcher[index] {
      } else if 'A' <= ch <= 'Z' || ch == '-' {
        match OtherMethod(requestMethod, index, ch)
        case Guess(other) => requestMethod := other;
        case NoGuess =>
          errno := INVALID_METHOD;
          return;
      } else {
        errno := INVALID_METHOD;
        return;
      }
      index := index + 1;
    }

    method SpacesByte(data: Bytes, p: nat)
      requires Open(data, p) && p < |data| && errno == OK && state.ReqSpacesBeforeUrl?
      modifies this
      ensures Handled(StepSpaces(old(Abs(data, p)), data[p]), data, p, false)
    {
      hide Push, Canon, ParseUrlChar;
      var ch := data[p];
      if ch == ' ' {
        return;
      }
      urlMark := p;
      if requestMethod == CONNECT {
        state := ReqServerStart;
      }
      UrlCharState(state, ch);
      state := ParseUrlChar(state, ch);
      if state == Dead {
        errno := INVALID_URL;
        return;
      }
      assert data[p..p + 1] == [ch];
    }

    method UrlByte(data: Bytes, p: nat)
      requires Open(data, p) && p < |data| && errno == OK && UrlState(state)
      modifies this
      ensures Handled(StepUrl(old(Abs(data, p)), data[p]), data, p, false)
    {
      hide Push, Canon, ParseUrlChar;
      var ch := data[p];
      if state == ReqSchema || state == ReqSchemaSlash || state == ReqSchemaSlashSlash || state == ReqServerStart {
        if ch == ' ' || ch == CR || ch == LF {
          BlankUrlChar(state, ch);
          errno := INVALID_URL;
          return;
        }
      } else if ch == ' ' || ch == CR || ch == LF {
        UrlEnd(data, p);
        return;
      }
      UrlCharState(state, ch);
      state := ParseUrlChar(state, ch);
      if state == Dead {
        errno := INVALID_URL;
        return;
      }
      Grow(Canon(callbacks), data, urlMark, p);
    }

    /** A blank ends the request target. */
    static lemma UrlEndStep(m: Machine, ch: Byte)
      requires UrlState(m.state) && (ch == ' ' || ch == CR || ch == LF)
      requires !m.state.ReqSchema? && !m.state.ReqSchemaSlash? && !m.state.ReqSchemaSlashSlash?
      requires !m.state.ReqServerStart?
      ensures StepUrl(m, ch) ==
              if ch == ' ' then m.(state := ReqHttpStart)
              else m.(major := 0, minor := 9, state := if ch == CR then ReqLineAlmostDone else HeaderFieldStart)
    {
      hide UrlState, ParseUrlChar, Push;
    }

    method UrlEndState(data: Bytes, p: nat)
      requires Marks(data, p) && p < |data|
      modifies `state, `major, `minor
      ensures Marks(data, p) && Pending(data, p) == old(Pending(data, p))
      ensures !UrlState(state) && !state.HeaderField? && !state.HeaderValue?
      ensures data[p] == ' ' ==> forall t: Trace :: With(t) == old(With(t)).(state := ReqHttpStart)
      ensures var s := if data[p] == CR then ReqLineAlmostDone else HeaderFieldStart;
              data[p] != ' ' ==> forall t: Trace :: With(t) == old(With(t)).(major := 0, minor := 9, state := s)
    {
      hide Push, Canon, UrlState;
      if data[p] == ' ' {
        state := ReqHttpStart;
      } else {
        major := 0;
        minor := 9;
        state := if data[p] == CR then ReqLineAlmostDone else HeaderFieldStart;
      }
      NotUrl(state);
    }

    method UrlEnd(data: Bytes, p: nat)
      requires Open(data, p) && p < |data| && errno == OK && UrlState(state)
      requires data[p] == ' ' || data[p] == CR || data[p] == LF
      requires !state.ReqSchema? && !state.ReqSchemaSlash? && !state.ReqSchemaSlashSlash? && !state.ReqServerStart?
      modifies this
      ensures Handled(StepUrl(old(Abs(data, p)), data[p]), data, p, false)
    {
      hide Push, Canon, StepUrl, Handled, UrlState, Pending;
      ghost var t := Pending(data, p);
      ghost var m := With(t);
      UrlEndStep(m, data[p]);
      UrlEndState(data, p);
      CallbackData(data, p);
      Finished(StepUrl(m, data[p]), data, p, false);
    }

    static lemma BlankUrlChar(s: State, ch: Byte)
      requires ch == ' ' || ch == CR || ch == LF
      ensures ParseUrlChar(s, ch) == Dead
    {
      hide IsUrlChar, IsUserinfoChar;
    }

    /** Moves to another state when the byte is the expected one; a strict-mode error otherwise. */
    method ExpectByte(ch: Byte, wanted: Byte, next: State, e: Errno, ghost t: Trace)
      requires errno == OK && e != OK
      modifies `state, `errno
      ensures Became(Expect(old(With(t)), ch, wanted, next, e), t)
    {
      if ch != wanted {
        errno := e;
        return;
      }
      state := next;
    }

    method VersionByte(ch: Byte, ghost t: Trace)
      requires errno == OK
      requires state.ReqHttpStart? || state.ReqHttpH? || state.ReqHttpHT? || state.ReqHttpHTT? ||
               state.ReqHttpHTTP? || state.ReqHttpI? || state.ReqHttpIC?
      modifies `state, `errno
      ensures Became(StepVersion(old(With(t)), ch), t)
    {
      VersionExpects(With(t), ch);
      hide StepVersion, Expect, Became;
      match state
      case ReqHttpStart => VersionStart(ch, t);
      case ReqHttpH => ExpectByte(ch, 'T', ReqHttpHT, STRICT, t);
      case ReqHttpHT => ExpectByte(ch, 'T', ReqHttpHTT, STRICT, t);
      case ReqHttpHTT => ExpectByte(ch, 'P', ReqHttpHTTP, STRICT, t);
      case ReqHttpI => ExpectByte(ch, 'C', ReqHttpIC, STRICT, t);
      case ReqHttpIC => ExpectByte(ch, 'E', ReqHttpHTTP, STRICT, t);
      case ReqHttpHTTP => ExpectByte(ch, '/', ReqHttpMajor, STRICT, t);
    }

    method VersionStart(ch: Byte, ghost t: Trace)
      requires errno == OK && state.ReqHttpStart?
      modifies `state, `errno
      ensures Became(StepVersion(old(With(t)), ch), t)
    {
      if ch == 'H' {
        state := ReqHttpH;
      } else if ch == 'I' && requestMethod == SOURCE {
        state := ReqHttpI;
      } else if ch != ' ' {
        errno := INVALID_CONSTANT;
      }
    }

    static lemma VersionExpects(m: Machine, ch: Byte)
      ensures m.state.ReqHttpH? ==> StepVersion(m, ch) == Expect(m, ch, 'T', ReqHttpHT, STRICT)
      ensures m.state.ReqHttpHT? ==> StepVersion(m, ch) == Expect(m, ch, 'T', ReqHttpHTT, STRICT)
      ensures m.state.ReqHttpHTT? ==> StepVersion(m, ch) == Expect(m, ch, 'P', ReqHttpHTTP, STRICT)
      ensures m.state.ReqHttpI? ==> StepVersion(m, ch) == Expect(m, ch, 'C', ReqHttpIC, STRICT)
      ensures m.state.ReqHttpIC? ==> StepVersion(m, ch) == Expect(m, ch, 'E', ReqHttpHTTP, STRICT)
      ensures m.state.ReqHttpHTTP? ==> StepVersion(m, ch) == Expect(m, ch, '/', ReqHttpMajor, STRICT)
    {
      hide Expect;
    }

    static lemma NumberExpects(m: Machine, ch: Byte)
      ensures m.state.ReqHttpDot? ==> StepVersionNumber(m, ch) == Expect(m, ch, '.', ReqHttpMinor, INVALID_VERSION)
      ensures m.state.ReqLineAlmostDone? ==>
                StepVersionNumber(m, ch) == Expect(m, ch, LF, HeaderFieldStart, LF_EXPECTED)
    {
      hide Expect;
    }

    method VersionDigit(ch: Byte, ghost t: Trace)
      requires errno == OK && (state.ReqHttpMajor? || state.ReqHttpMinor?)
      modifies `state, `errno, `major, `minor
      ensures Became(StepVersionNumber(old(With(t)), ch), t)
    {
      if !IsNum(ch) {
        errno := INVALID_VERSION;
      } else if state == ReqHttpMajor {
        major := ch as int - '0' as int;
        state := ReqHttpDot;
      } else {
        minor := ch as int - '0' as int;
        state := ReqHttpEnd;
      }
    }

    method VersionEnd(ch: Byte, ghost t: Trace)
      requires errno == OK && state.ReqHttpEnd?
      modifies `state, `errno
      ensures Became(StepVersionNumber(old(With(t)), ch), t)
    {
      if ch == CR {
        state := ReqLineAlmostDone;
      } else if ch == LF {
        state := HeaderFieldStart;
      } else {
        errno := INVALID_VERSION;
      }
    }

    method VersionNumberByte(ch: Byte, ghost t: Trace)
      requires errno == OK
      requires state.ReqHttpMajor? || state.ReqHttpDot? || state.ReqHttpMinor? || state.ReqHttpEnd? ||
               state.ReqLineAlmostDone?
      modifies `state, `errno, `major, `minor
      ensures Became(StepVersionNumber(old(With(t)), ch), t)
    {
      NumberExpects(With(t), ch);
      hide StepVersionNumber, Expect, Became;
      match state
      case ReqHttpMajor => VersionDigit(ch, t);
      case ReqHttpDot => ExpectByte(ch, '.', ReqHttpMinor, INVALID_VERSION, t);
      case ReqHttpMinor => VersionDigit(ch, t);
      case ReqHttpEnd => VersionEnd(ch, t);
      case ReqLineAlmostDone => ExpectByte(ch, LF, HeaderFieldStart, LF_EXPECTED, t);
    }

    // The end of the headers, and of the message

    method CompleteMessage()
      requires NoMarks() && errno == OK
      modifies `state, `callbacks
      ensures Snap() == HttpMachine.CompleteMessage(old(Snap()))
    {
      hide Push, Canon;
      state := if (if major > 0 && minor > 0 then !flags.close else flags.keepAlive) then StartReq else Dead;
      Notify(MessageComplete);
    }

    method MessageDoneByte() returns (exit: bool)
      requires NoMarks() && errno == OK
      modifies `state, `callbacks
      ensures var r := StepMessageDone(old(Snap())); Snap() == r.(exited := false) && exit == r.exited
    {
      hide Push, Canon;
      CompleteMessage();
      exit := upgrade;
    }

    method HeadersDoneByte() returns (exit: bool)
      requires NoMarks() && errno == OK
      modifies `state, `callbacks, `nread
      ensures var r := StepHeadersDone(old(Snap())); Snap() == r.(exited := false) && exit == r.exited
    {
      hide Push, Canon, HttpMachine.CompleteMessage;
      exit := false;
      nread := 0;
      var hasBody := flags.chunked || (contentLength > 0 && contentLength != NO_LENGTH);
      if upgrade && (requestMethod == CONNECT || !hasBody) {
        CompleteMessage();
        exit := true;
      } else if flags.chunked {
        state := ChunkSizeStart;
      } else if contentLength == 0 {
        CompleteMessage();
      } else if contentLength != NO_LENGTH {
        state := BodyIdentity;
      } else {
        CompleteMessage();
      }
    }

    /** The end of a header section without an error. */
    method SectionEnd(data: Bytes, p: nat) returns (exit: bool)
      requires NoMarks() && p < |data| && errno == OK
      modifies this
      ensures var up := (old(flags).upgrade && old(flags).connectionUpgrade) || old(requestMethod).CONNECT?;
              Handled(StepHeadersDone(Emit(old(Snap()).(upgrade := up), HeadersComplete)), data, p, exit)
    {
      hide Push, Canon, HttpMachine.CompleteMessage, StepHeadersDone, Handled, UrlState;
      ghost var up := (flags.upgrade && flags.connectionUpgrade) || requestMethod.CONNECT?;
      ghost var m := Emit(Snap().(upgrade := up), HeadersComplete);
      HeadersDoneShape(m);
      state := HeadersDone;
      upgrade := (flags.upgrade && flags.connectionUpgrade) || requestMethod == CONNECT;
      Notify(HeadersComplete);
      exit := HeadersDoneByte();
      NotUrl(state);
      Finished(StepHeadersDone(m), data, p, exit);
    }

    method HeadersAlmostDoneByte(data: Bytes, p: nat) returns (exit: bool)
      requires NoMarks() && p < |data| && errno == OK
      modifies this
      ensures Handled(StepHeadersAlmostDone(old(Snap()), data[p]), data, p, exit)
    {
      hide Push, Canon, StepHeadersDone, StepMessageDone;
      exit := false;
      if data[p] != LF {
        errno := STRICT;
      } else if flags.trailing {
        exit := TrailerEnd(data, p);
      } else if flags.chunked && flags.contentLength {
        errno := UNEXPECTED_CONTENT_LENGTH;
      } else {
        exit := SectionEnd(data, p);
      }
    }

    /** The end of the trailer completes the last chunk and the message. */
    method TrailerEnd(data: Bytes, p: nat) returns (exit: bool)
      requires NoMarks() && p < |data| && errno == OK
      modifies this
      ensures Handled(StepMessageDone(Emit(old(Snap()), ChunkComplete)), data, p, exit)
    {
      hide Push, Canon, HttpMachine.CompleteMessage, StepMessageDone, Handled, UrlState;
      ghost var m := Emit(Snap(), ChunkComplete);
      MessageDoneShape(m, MessageDone);
      state := MessageDone;
      Notify(ChunkComplete);
      exit := MessageDoneByte();
      NotUrl(state);
      Finished(StepMessageDone(m), data, p, exit);
    }

    static lemma MessageDoneShape(m: Machine, s: State)
      requires m.errno == OK
      ensures var r := StepMessageDone(m);
              r == StepMessageDone(m.(state := s)) && r.errno == OK && (r.state.StartReq? || r.state.Dead?)
    {
      hide Push;
    }

    static lemma HeadersDoneShape(m: Machine)
      requires m.errno == OK
      ensures var r := StepHeadersDone(m);
              && r == StepHeadersDone(m.(state := HeadersDone))
              && r.errno == OK
              && (r.state.StartReq? || r.state.Dead? || r.state.ChunkSizeStart? || r.state.BodyIdentity?)
    {
      hide Push;
    }

    // Header fields

    method FieldStartByte(data: Bytes, p: nat) returns (exit: bool)
      requires NoMarks() && p < |data| && errno == OK && state.HeaderFieldStart?
      modifies this
      ensures Handled(StepFieldStart(old(Snap()), data[p]), data, p, exit)
    {
      hide Push, Canon, StepHeadersAlmostDone, IsToken, TokenChar, FieldFirst;
      exit := false;
      var ch := data[p];
      if ch == CR {
        state := HeadersAlmostDone;
        return;
      }
      if ch == LF {
        state := HeadersAlmostDone;
        exit := HeadersAlmostDoneByte(data, p);
        return;
      }
      if !IsToken(ch) {
        errno := INVALID_HEADER_TOKEN;
        return;
      }
      fieldMark := p;
      index := 0;
      state := HeaderField;
      headerState := FieldFirst(TokenChar(ch));
      assert data[p..p + 1] == [ch];
    }

    /** The effect of one name byte on the header state and the index. */
    method FieldNameByte(c: Byte)
      requires NameState(headerState) && IndexInside(headerState, index) && !headerState.General?
      modifies `index, `headerState
      ensures index == if FieldIndexed(old(headerState)) then old(index) + 1 else old(index)
      ensures headerState == FieldByte(old(headerState), index, c)
    {
      match headerState
      case C =>
        index := index + 1;
        headerState := if c == 'o' then CO else General;
      case CO =>
        index := index + 1;
        headerState := if c == 'n' then CON else General;
      case CON =>
        index := index + 1;
        headerState := if c == 'n' then MatchingConnection else if c == 't' then MatchingContentLength else General;
      case MatchingConnection => MatchNext(CONNECTION, c, Connection, General);
      case MatchingProxyConnection => MatchNext(PROXY_CONNECTION, c, Connection, General);
      case MatchingContentLength => MatchNext(CONTENT_LENGTH, c, ContentLength, General);
      case MatchingTransferEncoding => MatchNext(TRANSFER_ENCODING, c, TransferEncoding, General);
      case MatchingUpgrade => MatchNext(UPGRADE, c, Upgrade, General);
      case Connection => headerState := General;  // a token is never the blank that would be let through
      case ContentLength => headerState := General;
      case TransferEncoding => headerState := General;
      case Upgrade => headerState := General;
    }

    /** Compares the next byte with a keyword.  The index stays inside the keyword. */
    method MatchNext(word: Bytes, c: Byte, found: HeaderState, otherwise: HeaderState)
      requires index + 1 < |word|
      modifies `index, `headerState
      ensures index == old(index) + 1
      ensures headerState == MatchByte(word, index, c, old(headerState), found, otherwise)
    {
      index := index + 1;
      assert index < |word|;
      if c != word[index] {
        headerState := otherwise;
      } else if index == |word| - 1 {
        headerState := found;
      }
    }

    /** The last of the name bytes that follow the one at q, looking no further than limit. */
    static method SkipName(data: Bytes, q: nat, limit: nat) returns (r: nat)
      requires q < limit <= |data| && IsToken(data[q])
      ensures q <= r < limit
      ensures forall i :: q <= i <= r ==> IsToken(data[i])
    {
      hide IsToken;
      r := q;
      while r + 1 < limit && IsToken(data[r + 1])
        invariant q <= r < limit
        invariant forall i :: q <= i <= r ==> IsToken(data[i])
      {
        r := r + 1;
      }
    }

    /** No callback has been made since the block that starts at p with the machine m. */
    ghost predicate Unreported(m: Machine, data: Bytes, p: nat)
      reads this
    {
      && p <= |data|
      && ((0 <= fieldMark <= p && m.trace == Push(Canon(callbacks), Field(data[fieldMark..p])))
          || (0 <= valueMark <= p && m.trace == Push(Canon(callbacks), Value(data[valueMark..p]))))
    }

    lemma UnreportedNear(m: Machine, data: Bytes, p: nat)
      requires Unreported(m, data, p)
      ensures Near(callbacks, m.trace)
    {
      hide Push, Canon, LastIs;
    }

    /** Inside a block of name bytes that starts at p with the machine m, and has been scanned up to q. */
    ghost predicate InName(m: Machine, data: Bytes, p: nat, q: nat)
      reads this
    {
      && p <= q && Marks(data, q) && fieldMark >= 0 && Unreported(m, data, p)
      && errno == OK && state == HeaderField && nread == m.nread
      && NameState(headerState) && IndexInside(headerState, index)
      && Abs(data, q) == Scan(m, data[p..q]) && WithinBlock(m, data[p..q])
    }

    /** One step of the scan: a stretch of bytes when the name matches no keyword, one byte otherwise. */
    method NameBytes(ghost m: Machine, data: Bytes, ghost p: nat, q: nat) returns (r: nat)
      requires InName(m, data, p, q) && q < |data| && IsToken(data[q])
      modifies `index, `headerState
      ensures q <= r < |data| && InName(m, data, p, r + 1)
    {
      hide Push, Canon, Scan, WithinBlock, IsToken, TokenChar, FieldByte, NameState, IndexInside;
      r := q;
      if headerState == General {
        var left := |data| - q;
        r := SkipName(data, q, q + if left < MAX_HEADER_SIZE then left else MAX_HEADER_SIZE);
        ScanNames(m, data, p, q, r);
        GrowField(Canon(callbacks), data, fieldMark, q, r + 1);
      } else {
        ScanName(m, data, p, q);
        GrowField(Canon(callbacks), data, fieldMark, q, q + 1);
        assert data[q..q + 1] == [data[q]];
        FieldByteInv(headerState, index, TokenChar(data[q]));
        FieldNameByte(TokenChar(data[q]));
      }
    }

    static lemma GrowField(t: Trace, data: Bytes, from: nat, q: nat, r: nat)
      requires from <= q <= r <= |data|
      ensures Push(Push(t, Field(data[from..q])), Field(data[q..r])) == Push(t, Field(data[from..r]))
    {
      hide Push;
      assert data[from..q] + data[q..r] == data[from..r];
      PushJoin(t, Field(data[from..q]), Field(data[q..r]));
    }

    method NameBlock(ghost m: Machine, data: Bytes, p: nat) returns (q: nat)
      requires InName(m, data, p, p) && p < |data|
      modifies `index, `headerState
      ensures p <= q <= |data| && InName(m, data, p, q)
      ensures q == |data| || !IsToken(data[q])
    {
      hide Push, Canon, Scan, WithinBlock, IsToken, NameState, IndexInside;
      q := p;
      while q < |data| && IsToken(data[q])
        invariant q <= |data| && InName(m, data, p, q)
        decreases |data| - q
      {
        q := NameBytes(m, data, p, q);
        q := q + 1;
      }
    }

    /** Scans header name bytes from p to the end of the name or of the buffer. */
    method FieldBlock(data: Bytes, p: nat) returns (q: nat)
      requires Open(data, p) && p < |data| && errno == OK && state.HeaderField?
      requires 1 <= nread <= MAX_HEADER_SIZE && |data| + MAX_HEADER_SIZE < TWO_32
      requires NameState(headerState) && IndexInside(headerState, index)
      modifies this
      ensures p <= q < |data|
      ensures HandledBlock(Uncounted(old(Abs(data, p))), data, p, q, false)
    {
      hide Push, Canon, Scan, WithinBlock, IsToken, NameState, IndexInside, Run, Uncounted, Precise;
      ghost var m := Abs(data, p);
      assert data[p..p] == [];
      ScanNil(m);
      q := NameBlock(m, data, p);
      if q == |data| {
        q := FieldBlockOpen(m, data, p);
      } else {
        FieldBlockEnd(m, data, p, q);
      }
    }

    /** The buffer ends inside a name. */
    method FieldBlockOpen(ghost m: Machine, data: Bytes, p: nat) returns (q: nat)
      requires InName(m, data, p, |data|) && p < |data| && |data| + MAX_HEADER_SIZE < TWO_32
      requires 1 <= m.nread <= MAX_HEADER_SIZE
      modifies `nread, `errno
      ensures q == |data| - 1
      ensures HandledBlock(Uncounted(m), data, p, q, false)
    {
      hide Push, Canon, Scan, WithinBlock, NameState, IndexInside, Run, Precise;
      UnreportedNear(m, data, p);
      q := |data| - 1;
      CountHeaderSize(q - p);
      ScanCounts(m, data[p..q + 1], m.nread - 1);
    }

    method FieldBlockEnd(ghost m: Machine, data: Bytes, p: nat, q: nat)
      requires InName(m, data, p, q) && q < |data| && !IsToken(data[q]) && |data| + MAX_HEADER_SIZE < TWO_32
      requires 1 <= m.nread <= MAX_HEADER_SIZE
      modifies this
      ensures HandledBlock(Uncounted(m), data, p, q, false)
    {
      hide Push, Canon, Scan, WithinBlock, IsToken, NameState, IndexInside, Run, Precise, Uncounted, Near, Handled,
        HandledBlock;
      ghost var k := Run(Uncounted(m), data[p..q + 1]);
      UnreportedNear(m, data, p);
      ScanNameEnd(m, data, p, q);
      OpenCut(callbacks, Field(data[fieldMark..q]));
      CountHeaderSize(q - p);
      if errno != OK {
        OverflowBlock(Uncounted(m), data, p, q);
        return;
      }
      if data[q] == ':' {
        state := HeaderValueDiscardWs;
        CallbackData(data, q);
        NotUrl(state);
        Finished(k, data, q, false);
        OrdinaryBlock(Uncounted(m), k, data, p, q);
        return;
      }
      errno := INVALID_HEADER_TOKEN;
      FailedBlock(Uncounted(m), k, data, p, q);
    }

    // Header values

    /** What the first byte of a header value does to the fields; t stands for the trace. */
    method ValueFirst(ch: Byte, ghost t: Trace)
      requires errno == OK
      modifies `state, `headerState, `index, `flags, `contentLength, `errno
      ensures var r := StepValueStart(old(With(t)), ch);
              if r.errno == OK then With(Push(t, Value([ch]))) == r else errno == r.errno && r.trace == t
    {
      hide Push, Lower;
      state := HeaderValue;
      index := 0;
      var c := Lower(ch);
      match headerState
      case Upgrade =>
        flags := flags.(upgrade := true);
        headerState := General;
      case TransferEncoding =>
        headerState := if c == 'c' then MatchingTransferEncodingChunked else General;
      case ContentLength =>
        if !IsNum(ch) {
          errno := INVALID_CONTENT_LENGTH;
          return;
        }
        if flags.contentLength {
          errno := UNEXPECTED_CONTENT_LENGTH;
          return;
        }
        flags := flags.(contentLength := true);
        contentLength := ch as int - '0' as int;
        headerState := ContentLengthNum;
      case ContentLengthWs =>
      case Connection =>
        headerState := if c == 'k' then MatchingConnectionKeepAlive
                       else if c == 'c' then MatchingConnectionClose
                       else if c == 'u' then MatchingConnectionUpgrade
                       else MatchingConnectionToken;
      case MatchingConnectionTokenStart =>
      case _ => headerState := General;
    }

    method ValueStartByte(data: Bytes, p: nat)
      requires NoMarks() && p < |data| && errno == OK && (state.HeaderValueDiscardWs? || state.HeaderValueStart?)
      modifies this
      ensures Handled(StepValueStart(old(Snap()), data[p]), data, p, false)
    {
      hide Push, Canon, StepValueStart;
      valueMark := p;
      ValueFirst(data[p], Canon(callbacks));
      assert data[p..p + 1] == [data[p]];
      ValueStartShape(old(Snap()), data[p]);
    }

    method DiscardWsByte(data: Bytes, p: nat)
      requires NoMarks() && p < |data| && errno == OK && state.HeaderValueDiscardWs?
      modifies this
      ensures Handled(StepDiscardWs(old(Snap()), data[p]), data, p, false)
    {
      hide Push, Canon, StepValueStart;
      var ch := data[p];
      if ch == ' ' || ch == '\t' {
      } else if ch == CR {
        state := HeaderValueDiscardWsAlmostDone;
      } else if ch == LF {
        state := HeaderValueDiscardLws;
      } else {
        ValueStartByte(data, p);
      }
    }

    /** Takes over what a finished header value says about the message. */
    method FinishValue()
      modifies `flags
      ensures flags == ValueFlags(headerState, old(flags))
    {
      match headerState
      case ConnectionKeepAlive => flags := flags.(keepAlive := true);
      case ConnectionClose => flags := flags.(close := true);
      case TransferEncodingChunked => flags := flags.(chunked := true);
      case ConnectionUpgrade => flags := flags.(connectionUpgrade := true);
      case _ =>
    }

    /** The value was empty. */
    method EmptyValue(data: Bytes, p: nat) returns (exit: bool)
      requires NoMarks() && p < |data| && errno == OK
      modifies this
      ensures var f := ValueFlags(old(headerState), old(flags));
              Handled(StepFieldStart(Emit(old(Snap()).(flags := f, state := HeaderFieldStart), Value([])), data[p]),
                      data, p, exit)
    {
      hide Push, Canon, StepFieldStart, ValueFlags, Handled;
      FinishValue();
      valueMark := p;
      state := HeaderFieldStart;
      CallbackData(data, p);
      assert data[p..p] == [];
      exit := FieldStartByte(data, p);
    }

    method DiscardLwsByte(data: Bytes, p: nat) returns (exit: bool)
      requires NoMarks() && p < |data| && errno == OK && state.HeaderValueDiscardLws?
      modifies this
      ensures Handled(StepDiscardLws(old(Snap()), data[p]), data, p, exit)
    {
      hide Push, Canon, StepFieldStart, ValueFlags;
      exit := false;
      var ch := data[p];
      if ch == ' ' || ch == '\t' {
        state := HeaderValueDiscardWs;
      } else if headerState == ContentLength {
        errno := INVALID_CONTENT_LENGTH;
      } else {
        exit := EmptyValue(data, p);
      }
    }

    method ValueLwsByte(data: Bytes, p: nat) returns (exit: bool)
      requires NoMarks() && p < |data| && errno == OK && state.HeaderValueLws?
      modifies this
      ensures Handled(StepValueLws(old(Snap()), data[p]), data, p, exit)
    {
      hide Push, Canon, StepFieldStart, StepValueStart, ValueFlags;
      exit := false;
      var ch := data[p];
      if ch == ' ' || ch == '\t' {
        if headerState == ContentLengthNum {
          headerState := ContentLengthWs;
        }
        state := HeaderValueStart;
        LwsStart(old(Snap()).(headerState := headerState), ch);
        ValueStartByte(data, p);
        return;
      }
      FinishValue();
      state := HeaderFieldStart;
      exit := FieldStartByte(data, p);
    }

    static lemma LwsStart(m: Machine, ch: Byte)
      ensures var r := StepValueStart(m, ch); var k := StepValueStart(m.(state := HeaderValueStart), ch);
              r.errno == k.errno && r.trace == k.trace && r.exited == k.exited && (r.errno == OK ==> r == k)
    {
      hide Push, Lower;
    }

    method AlmostDoneByte(ch: Byte, ghost t: Trace)
      requires errno == OK && (state.HeaderAlmostDone? || state.HeaderValueDiscardWsAlmostDone?)
      modifies `state, `errno
      ensures Became(if old(state).HeaderAlmostDone? then Expect(old(With(t)), ch, LF, HeaderValueLws, LF_EXPECTED)
                     else Expect(old(With(t)), ch, LF, HeaderValueDiscardLws, STRICT), t)
    {
      hide Expect, Became;
      if state == HeaderAlmostDone {
        ExpectByte(ch, LF, HeaderValueLws, LF_EXPECTED, t);
      } else {
        ExpectByte(ch, LF, HeaderValueDiscardLws, STRICT, t);
      }
    }

    /** The last of the plain value bytes that follow the one at q, looking no further than limit. */
    static method SkipValue(data: Bytes, q: nat, limit: nat) returns (r: nat)
      requires q < limit <= |data|
      ensures q <= r <= limit
      ensures forall i :: q <= i < r ==> PlainValueChar(data[i])
      ensures r < limit ==> !PlainValueChar(data[r])
    {
      hide IsHeaderChar;
      r := q;
      while r < limit && data[r] != CR && data[r] != LF && IsHeaderChar(data[r])
        invariant q <= r <= limit
        invariant forall i :: q <= i < r ==> PlainValueChar(data[i])
      {
        r := r + 1;
      }
    }

    /** What one value byte does to the fields; t stands for the trace. */
    method ValueCharByte(ch: Byte, ghost t: Trace)
      requires errno == OK && ValueState(headerState) && !headerState.General? && IndexInside(headerState, index)
      modifies `headerState, `index, `flags, `contentLength, `errno
      ensures With(t) == ValueByte(old(With(t)), ch)
    {
      ValueCases(With(t), ch);
      hide Lower, TokenStart, ElementDone, MatchValue, LengthByte, ValueByte;
      if headerState == ContentLengthNum {
        LengthDigit(ch, t);
      } else if ValueMatching(headerState) {
        KeywordByte(Lower(ch), t);
      } else if headerState == ConnectionKeepAlive || headerState == ConnectionClose ||
                headerState == ConnectionUpgrade {
        ElementDoneByte(ch, t);
      } else {
        PlainCharByte(ch, t);
      }
    }

    static lemma ValueCases(m: Machine, ch: Byte)
      ensures m.headerState.ContentLengthNum? ==> ValueByte(m, ch) == LengthByte(m, ch)
      ensures ValueMatching(m.headerState) ==> ValueByte(m, ch) == MatchValue(m, Lower(ch))
      ensures m.headerState.ConnectionKeepAlive? || m.headerState.ConnectionClose? || m.headerState.ConnectionUpgrade?
              ==> ValueByte(m, ch) == ElementDone(m, ch)
    {
      hide Lower, TokenStart, ElementDone, MatchValue, LengthByte;
    }

    /** The states in which a value byte is compared with no keyword. */
    method PlainCharByte(ch: Byte, ghost t: Trace)
      requires errno == OK
      requires headerState.ContentLengthWs? || headerState.MatchingConnectionTokenStart? ||
               headerState.MatchingConnectionToken? || headerState.TransferEncodingChunked?
      modifies `headerState, `index, `errno
      ensures With(t) == ValueByte(old(With(t)), ch)
    {
      hide Lower, TokenStart, ElementDone, MatchValue, LengthByte;
      if headerState == ContentLengthWs {
        if ch != ' ' {
          errno := INVALID_CONTENT_LENGTH;
        }
      } else if headerState == MatchingConnectionTokenStart {
        headerState := TokenStart(Lower(ch));
      } else if headerState == MatchingConnectionToken {
        if ch == ',' {
          headerState := MatchingConnectionTokenStart;
          index := 0;
        }
      } else {
        if ch != ' ' {
          headerState := General;
        }
      }
    }

    static lemma KeywordInside(h: HeaderState, i: nat)
      requires IndexInside(h, i)
      ensures h.MatchingTransferEncodingChunked? ==> i + 1 < |CHUNKED|
      ensures h.MatchingConnectionKeepAlive? ==> i + 1 < |KEEP_ALIVE|
      ensures h.MatchingConnectionClose? ==> i + 1 < |CLOSE|
      ensures h.MatchingConnectionUpgrade? ==> i + 1 < |UPGRADE|
    {
    }

    method KeywordByte(c: Byte, ghost t: Trace)
      requires ValueMatching(headerState) && IndexInside(headerState, index)
      modifies `headerState, `index
      ensures With(t) == MatchValue(old(With(t)), c)
    {
      KeywordInside(headerState, index);
      hide MatchByte, IndexInside;
      if headerState == MatchingTransferEncodingChunked {
        MatchNext(CHUNKED, c, TransferEncodingChunked, General);
      } else if headerState == MatchingConnectionKeepAlive {
        MatchNext(KEEP_ALIVE, c, ConnectionKeepAlive, MatchingConnectionToken);
      } else if headerState == MatchingConnectionClose {
        MatchNext(CLOSE, c, ConnectionClose, MatchingConnectionToken);
      } else {
        MatchNext(UPGRADE, c, ConnectionUpgrade, MatchingConnectionToken);
      }
    }

    method ElementDoneByte(ch: Byte, ghost t: Trace)
      modifies `headerState, `index, `flags
      ensures With(t) == ElementDone(old(With(t)), ch)
    {
      hide ValueFlags;
      if ch == ',' {
        FinishValue();
        headerState := MatchingConnectionTokenStart;
        index := 0;
      } else if ch != ' ' {
        headerState := MatchingConnectionToken;
      }
    }

    /** A byte of a Content-Length value, in 64-bit arithmetic. */
    method LengthDigit(ch: Byte, ghost t: Trace)
      requires errno == OK && headerState.ContentLengthNum?
      modifies `headerState, `contentLength, `errno
      ensures With(t) == LengthByte(old(With(t)), ch)
    {
      if ch == ' ' {
        headerState := ContentLengthWs;
        return;
      }
      if !IsNum(ch) {
        errno := INVALID_CONTENT_LENGTH;
        return;
      }
      var next := (contentLength * 10 + (ch as int - '0' as int)) % (NO_LENGTH + 1);
      if (NO_LENGTH - 10) / 10 < contentLength {
        errno := INVALID_CONTENT_LENGTH;
        return;
      }
      contentLength := next;
    }

    /** Inside a block of value bytes that starts at p with the machine m, and has been scanned up to q.
        A block longer than the header size limit may pass over one byte unseen; it will overflow. */
    ghost predicate InValue(m: Machine, data: Bytes, p: nat, q: nat)
      reads this
    {
      && p <= q && Marks(data, q) && valueMark >= 0 && Unreported(m, data, p)
      && errno == OK && state == HeaderValue && nread == m.nread
      && ValueState(headerState) && IndexInside(headerState, index)
      && 1 <= m.nread <= MAX_HEADER_SIZE
      && (|| (Abs(data, q) == Scan(m, data[p..q]) && WithinBlock(m, data[p..q]))
          || (headerState.General? && Lost(m, data, p, q)))
    }

    static lemma GrowValue(t: Trace, data: Bytes, from: nat, q: nat, r: nat)
      requires from <= q <= r <= |data|
      ensures Push(Push(t, Value(data[from..q])), Value(data[q..r])) == Push(t, Value(data[from..r]))
    {
      hide Push;
      assert data[from..q] + data[q..r] == data[from..r];
      PushJoin(t, Value(data[from..q]), Value(data[q..r]));
    }

    /** A stretch of value bytes when nothing is looked for.  At the size limit one byte is passed over. */
    method PlainValueBytes(ghost m: Machine, data: Bytes, ghost p: nat, q: nat) returns (r: nat)
      requires InValue(m, data, p, q) && headerState.General? && q < |data| && PlainValueChar(data[q])
      modifies `errno
      ensures q <= r < |data|
      ensures if errno == OK then InValue(m, data, p, r + 1)
              else HandledBlock(Uncounted(m), data, p, r, false)
    {
      hide Push, Canon, Scan, WithinBlock, IsHeaderChar, ValueState, IndexInside, Run, StepValue, Uncounted;
      UnreportedNear(m, data, p);
      var left := |data| - q;
      var pe := q + if left < MAX_HEADER_SIZE then left else MAX_HEADER_SIZE;
      r := SkipValue(data, q, pe);
      GrowValue(Canon(callbacks), data, valueMark, q, r);
      if r == |data| || (r < pe && (data[r] == CR || data[r] == LF)) {
        PlainStretch(m, data, p, q, r);
        r := r - 1;
        return;
      }
      PlainStretch(m, data, p, q, r);
      PlainStop(m, data, p, q, r);
      if r < pe {
        errno := INVALID_HEADER_TOKEN;
        OpenCut(callbacks, Value(data[valueMark..r]));
      }
    }

    /** The machine over a stretch of plain value bytes. */
    static lemma PlainStretch(m: Machine, data: Bytes, p: nat, q: nat, r: nat)
      requires p <= q < r <= |data| && 1 <= m.nread <= MAX_HEADER_SIZE
      requires forall i :: q <= i < r ==> PlainValueChar(data[i])
      ensures Lost(m, data, p, q) ==> Lost(m, data, p, r)
      ensures var s := Scan(m, data[p..q]);
              WithinBlock(m, data[p..q]) && InBlock(s) && s.state.HeaderValue? && s.headerState.General? ==>
                WithinBlock(m, data[p..r]) && Scan(m, data[p..r]) == s.(trace := Push(s.trace, Value(data[q..r])))
    {
      hide Push, Scan, WithinBlock, PlainValueChar, Run, InBlock;
      var s := Scan(m, data[p..q]);
      if WithinBlock(m, data[p..q]) && InBlock(s) && s.state.HeaderValue? && s.headerState.General? {
        ScanValues(m, data, p, q, r);
      }
      if Lost(m, data, p, q) {
        OverflowStays(Uncounted(m), data, p, q, r);
      }
    }

    /** The byte at which a stretch of plain value bytes stops for another reason than the end of the
        value: an invalid byte, or one beyond the header size limit. */
    static lemma PlainStop(m: Machine, data: Bytes, p: nat, q: nat, r: nat)
      requires p <= q < r < |data| && 1 <= m.nread <= MAX_HEADER_SIZE
      ensures Lost(m, data, p, r) ==> Lost(m, data, p, r + 1)
      ensures var s := Scan(m, data[p..r]);
              WithinBlock(m, data[p..r]) && InBlock(s) && s.state.HeaderValue? ==>
                var k := Run(Uncounted(m), data[p..r + 1]);
                && (r - q == MAX_HEADER_SIZE ==> Lost(m, data, p, r + 1))
                && Precise(Uncounted(m), data[p..r + 1])
                && (!IsHeaderChar(data[r]) ==>
                      k.errno == HEADER_OVERFLOW || (k.errno == INVALID_HEADER_TOKEN && k.trace == s.trace))
      ensures Lost(m, data, p, r) ==> Precise(Uncounted(m), data[p..r + 1])
    {
      hide Push, Scan, WithinBlock, Run, InBlock, ValueByte, Consumed;
      var s := Scan(m, data[p..r]);
      if WithinBlock(m, data[p..r]) && InBlock(s) && s.state.HeaderValue? {
        ScanValueEnd(m, data, p, r);
      }
      if Lost(m, data, p, r) {
        OverflowStays(Uncounted(m), data, p, r, r + 1);
      }
    }

    /** A block that ends with an error, which may be the header limit to the machine. */
    lemma FailedBlock(m: Machine, k: Machine, data: Bytes, p: nat, q: nat)
      requires p <= q < |data| && errno != OK && k == Run(m, data[p..q + 1]) && Precise(m, data[p..q + 1])
      requires k.errno == HEADER_OVERFLOW || (errno == k.errno && Cut(callbacks, k.trace))
      requires Near(callbacks, m.trace)
      ensures HandledBlock(m, data, p, q, false)
    {
      hide Run, Precise, Near, Cut;
    }

    /** A byte that may not stand in a value. */
    lemma BadValueByte(m: Machine, data: Bytes, p: nat, q: nat)
      requires InValue(m, data, p, q) && q < |data| && !IsHeaderChar(data[q])
      ensures p <= q
      ensures var k := Run(Uncounted(m), data[p..q + 1]);
              && Precise(Uncounted(m), data[p..q + 1]) && Near(callbacks, m.trace)
              && (k.errno == HEADER_OVERFLOW || (k.errno == INVALID_HEADER_TOKEN && Cut(callbacks, k.trace)))
    {
      hide Push, Canon, Scan, WithinBlock, IsHeaderChar, ValueState, IndexInside, Run, ValueByte, Uncounted, Lost, Near,
        Precise;
      assert data[q] != CR && data[q] != LF by { LineEnds(); }
      UnreportedNear(m, data, p);
      OpenCut(callbacks, Value(data[valueMark..q]));
      ValueStop(m, data, p, q);
    }

    static lemma LineEnds()
      ensures IsHeaderChar(CR) && IsHeaderChar(LF)
    {
    }

    /** One step of the scan of a value. */
    method ValueBytes(ghost m: Machine, data: Bytes, ghost p: nat, q: nat) returns (r: nat)
      requires InValue(m, data, p, q) && q < |data| && data[q] != CR && data[q] != LF
      modifies `headerState, `index, `flags, `contentLength, `errno
      ensures q <= r < |data|
      ensures if errno == OK then InValue(m, data, p, r + 1)
              else HandledBlock(Uncounted(m), data, p, r, false)
    {
      hide Push, Canon, Scan, WithinBlock, IsHeaderChar, ValueState, IndexInside, Run, ValueByte, Uncounted, Lost,
        HandledBlock, InValue, Near, Precise, Cut;
      r := q;
      if !IsHeaderChar(data[q]) {
        BadValueByte(m, data, p, q);
        errno := INVALID_HEADER_TOKEN;
        FailedBlock(Uncounted(m), Run(Uncounted(m), data[p..q + 1]), data, p, q);
        return;
      }
      if headerState == General {
        r := PlainValueBytes(m, data, p, q);
      } else {
        SoughtValueByte(m, data, p, q);
      }
    }

    /** A byte of a value in which something is looked for. */
    method SoughtValueByte(ghost m: Machine, data: Bytes, ghost p: nat, q: nat)
      requires InValue(m, data, p, q) && !headerState.General? && q < |data| && PlainValueChar(data[q])
      modifies `headerState, `index, `flags, `contentLength, `errno
      ensures if errno == OK then InValue(m, data, p, q + 1)
              else HandledBlock(Uncounted(m), data, p, q, false)
    {
      hide Push, Canon, Scan, WithinBlock, IsHeaderChar, ValueState, IndexInside, Run, ValueByte, Uncounted, Lost,
        HandledBlock, Near, Cut, Precise;
      UnreportedNear(m, data, p);
      ghost var k := Run(Uncounted(m), data[p..q + 1]);
      ghost var s := Abs(data, q);
      ScanValue(m, data, p, q);
      ValueStop(m, data, p, q);
      ValueByteShape(s, data[q]);
      ValueByteIndex(s, data[q]);
      GrowValue(Canon(callbacks), data, valueMark, q, q + 1);
      assert data[q..q + 1] == [data[q]];
      OpenCut(callbacks, Value(data[valueMark..q]));
      ValueCharByte(data[q], s.trace);
      if errno != OK {
        FailedBlock(Uncounted(m), k, data, p, q);
      }
    }

    /** The machine at the byte q of a value block that was scanned up to q. */
    static lemma ValueStop(m: Machine, data: Bytes, p: nat, q: nat)
      requires p <= q < |data| && 1 <= m.nread <= MAX_HEADER_SIZE
      ensures Lost(m, data, p, q) ==> Run(Uncounted(m), data[p..q + 1]).errno == HEADER_OVERFLOW
      ensures Lost(m, data, p, q) ==> Precise(Uncounted(m), data[p..q + 1])
      ensures var s := Scan(m, data[p..q]);
              WithinBlock(m, data[p..q]) && InBlock(s) && s.state.HeaderValue? ==>
                var k := Run(Uncounted(m), data[p..q + 1]);
                if m.nread + (q - p) > MAX_HEADER_SIZE then k.errno == HEADER_OVERFLOW
                else k == StepValue(s, data[q]).(nread := m.nread + (q - p))
      ensures var s := Scan(m, data[p..q]);
              WithinBlock(m, data[p..q]) && InBlock(s) && s.state.HeaderValue? ==>
                Precise(Uncounted(m), data[p..q + 1])
    {
      hide Scan, WithinBlock, Run, InBlock, StepValue, Consumed;
      var s := Scan(m, data[p..q]);
      if WithinBlock(m, data[p..q]) && InBlock(s) && s.state.HeaderValue? {
        ScanValueEnd(m, data, p, q);
      }
      if Lost(m, data, p, q) {
        OverflowStays(Uncounted(m), data, p, q, q + 1);
      }
    }

    method ScanValueBlock(ghost m: Machine, data: Bytes, p: nat) returns (q: nat)
      requires InValue(m, data, p, p) && p < |data|
      modifies `headerState, `index, `flags, `contentLength, `errno
      ensures p <= q <= |data|
      ensures errno == OK ==> InValue(m, data, p, q) && (q == |data| || data[q] == CR || data[q] == LF)
      ensures errno != OK ==> q < |data| && HandledBlock(Uncounted(m), data, p, q, false)
    {
      hide Push, Canon, Scan, WithinBlock, ValueState, IndexInside, Run, Uncounted, Lost;
      q := p;
      while q < |data| && data[q] != CR && data[q] != LF
        invariant q <= |data| && InValue(m, data, p, q)
        decreases |data| - q
      {
        q := ValueBytes(m, data, p, q);
        if errno != OK {
          return;
        }
        q := q + 1;
      }
    }

    /** Scans header value bytes from p to the end of the value or of the buffer. */
    method ValueBlock(data: Bytes, p: nat) returns (q: nat)
      requires Open(data, p) && p < |data| && errno == OK && state.HeaderValue?
      requires 1 <= nread <= MAX_HEADER_SIZE && |data| + MAX_HEADER_SIZE < TWO_32
      requires ValueState(headerState) && IndexInside(headerState, index)
      modifies this
      ensures p <= q < |data|
      ensures HandledBlock(Uncounted(old(Abs(data, p))), data, p, q, false)
    {
      hide Push, Canon, Scan, WithinBlock, ValueState, IndexInside, Run, Uncounted, Lost;
      ghost var m := Abs(data, p);
      assert data[p..p] == [];
      ScanNil(m);
      q := ScanValueBlock(m, data, p);
      if errno == OK {
        if q == |data| {
          q := ValueBlockOpen(m, data, p);
        } else if data[q] == CR {
          ValueBlockCR(m, data, p, q);
        } else {
          ValueBlockLF(m, data, p, q);
        }
      }
    }

    /** The buffer ends inside a value. */
    method ValueBlockOpen(ghost m: Machine, data: Bytes, p: nat) returns (q: nat)
      requires InValue(m, data, p, |data|) && p < |data| && |data| + MAX_HEADER_SIZE < TWO_32
      modifies `nread, `errno
      ensures q == |data| - 1
      ensures HandledBlock(Uncounted(m), data, p, q, false)
    {
      hide Push, Canon, Scan, WithinBlock, ValueState, IndexInside, Run, Near, Precise, Lost;
      UnreportedNear(m, data, p);
      q := |data| - 1;
      CountHeaderSize(q - p);
      assert data[p..q + 1] == data[p..|data|];
      if Lost(m, data, p, |data|) {
        LostAll(m, data, p);
      } else {
        ScanCounts(m, data[p..q + 1], m.nread - 1);
      }
    }

    static lemma ReportedNear(t: Trace, e: Event)
      requires LastIs(t, e)
      ensures forall cbs: seq<Event> :: Canon(cbs) == Push(t, e) ==> Near(cbs, t)
    {
      hide Push, Canon, LastIs;
    }

    /** The machine at a CR or LF behind a value that was scanned. */
    lemma ValueOpenAt(m: Machine, data: Bytes, p: nat, q: nat)
      requires InValue(m, data, p, q) && q < |data| && (data[q] == CR || data[q] == LF)
      ensures var k := Run(Uncounted(m), data[p..q + 1]);
              && Precise(Uncounted(m), data[p..q + 1])
              && if m.nread + (q - p) > MAX_HEADER_SIZE then k.errno == HEADER_OVERFLOW
                 else k == Abs(data, q).(state := if data[q] == CR then HeaderAlmostDone else HeaderValueLws,
                                         nread := m.nread + (q - p))
    {
      hide Push, Canon, Scan, WithinBlock, ValueState, IndexInside, Run, ValueByte, Uncounted, Precise, IsHeaderChar;
      ValueStop(m, data, p, q);
    }

    /** What is reported at the end of a value. */
    lemma ValueReported(m: Machine, data: Bytes, p: nat, q: nat)
      requires InValue(m, data, p, q)
      ensures forall cbs: seq<Event> :: Canon(cbs) == Pending(data, q) ==> Near(cbs, m.trace)
    {
      hide Near, Push, Canon, Scan, WithinBlock, ValueState, IndexInside, Run, Lost;
      GrowValue(Canon(callbacks), data, valueMark, p, q);
      PushLast(Canon(callbacks), Value(data[valueMark..p]));
      ReportedNear(m.trace, Value(data[p..q]));
    }

    /** The LF behind a value, once it is counted. */
    method ValueLine(data: Bytes, q: nat)
      requires Marks(data, q) && q < |data| && data[q] == LF && errno == OK && state.HeaderAlmostDone?
      modifies this
      ensures Handled(old(Abs(data, q)).(state := HeaderValueLws), data, q, false)
    {
      hide Push, Canon;
      CallbackData(data, q);
      AlmostDoneByte(data[q], Canon(callbacks));
    }

    static lemma LostAll(m: Machine, data: Bytes, p: nat)
      requires p < |data| && Lost(m, data, p, |data|)
      ensures |data| - p > MAX_HEADER_SIZE && Run(Uncounted(m), data[p..|data|]).errno == HEADER_OVERFLOW
      ensures Precise(Uncounted(m), data[p..|data|])
    {
      hide Run, Consumed;
    }

    /** CR ends the value. */
    method ValueBlockCR(ghost m: Machine, data: Bytes, p: nat, q: nat)
      requires InValue(m, data, p, q) && q < |data| && data[q] == CR && |data| + MAX_HEADER_SIZE < TWO_32
      modifies this
      ensures HandledBlock(Uncounted(m), data, p, q, false)
    {
      hide Near, Push, Canon, Scan, WithinBlock, ValueState, IndexInside, Run, ValueByte, Uncounted, Precise, Lost,
        Handled, HandledBlock, UrlState;
      ghost var k := Run(Uncounted(m), data[p..q + 1]);
      ValueOpenAt(m, data, p, q);
      ValueReported(m, data, p, q);
      state := HeaderAlmostDone;
      CallbackData(data, q);
      CountHeaderSize(q - p);
      if errno != OK {
        OverflowBlock(Uncounted(m), data, p, q);
      } else {
        NotUrl(state);
        Finished(k, data, q, false);
        OrdinaryBlock(Uncounted(m), k, data, p, q);
      }
    }

    /** LF ends the value, and the line. */
    method ValueBlockLF(ghost m: Machine, data: Bytes, p: nat, q: nat)
      requires InValue(m, data, p, q) && q < |data| && data[q] == LF && |data| + MAX_HEADER_SIZE < TWO_32
      modifies this
      ensures HandledBlock(Uncounted(m), data, p, q, false)
    {
      hide Near, Push, Canon, Scan, WithinBlock, ValueState, IndexInside, Run, ValueByte, Uncounted, Precise, Lost,
        Handled, HandledBlock;
      UnreportedNear(m, data, p);
      ValueStop(m, data, p, q);
      ValueOpenAt(m, data, p, q);
      state := HeaderAlmostDone;
      CountHeaderSize(q - p);
      if errno != OK {
        OverflowBlock(Uncounted(m), data, p, q);
        return;
      }
      ValueLine(data, q);
      OrdinaryBlock(Uncounted(m), Run(Uncounted(m), data[p..q + 1]), data, p, q);
    }

    // Bodies

    method BodyBlock(data: Bytes, p: nat) returns (q: nat, exit: bool)
      requires NoMarks() && p < |data| && errno == OK && state.BodyIdentity? && 0 < contentLength < NO_LENGTH
      modifies this
      ensures p <= q < |data|
      ensures HandledBlock(old(Snap()), data, p, q, exit)
    {
      hide Push, Canon, Run, StepMessageDone, Precise;
      exit := false;
      ghost var m := Snap();
      var toRead := if contentLength < |data| - p then contentLength else |data| - p;
      BodyRun(m, data[p..p + toRead]);
      DoneNoOverflow(Emit(m.(contentLength := 0), Body(data[p..p + toRead])));
      assert contentLength != 0 && contentLength != NO_LENGTH;
      bodyMark := p;
      contentLength := contentLength - toRead;
      q := p + toRead - 1;
      if contentLength == 0 {
        exit := BodyEnd(Emit(m.(contentLength := 0), Body(data[p..q + 1])), data, q);
      }
    }

    /** The last byte of a body completes the message. */
    method BodyEnd(ghost r: Machine, data: Bytes, q: nat) returns (exit: bool)
      requires Marks(data, q + 1) && bodyMark >= 0 && q < |data| && errno == OK
      requires Abs(data, q + 1) == r
      modifies this
      ensures Handled(StepMessageDone(r), data, q, exit)
    {
      hide Push, Canon, StepMessageDone, Handled, UrlState;
      MessageDoneShape(r, MessageDone);
      state := MessageDone;
      CallbackData(data, q + 1);
      exit := MessageDoneByte();
      NotUrl(state);
      Finished(StepMessageDone(r), data, q, exit);
    }

    method ChunkBlock(data: Bytes, p: nat) returns (q: nat)
      requires NoMarks() && p < |data| && errno == OK && state.ChunkData? && 0 < contentLength < NO_LENGTH
      requires flags.chunked
      modifies this
      ensures p <= q < |data|
      ensures HandledBlock(old(Snap()), data, p, q, false)
    {
      hide Push, Canon, Run, Precise, Near;
      ghost var m := Snap();
      var toRead := if contentLength < |data| - p then contentLength else |data| - p;
      ChunkRun(m, data[p..p + toRead]);
      assert flags.chunked;
      assert contentLength != 0 && contentLength != NO_LENGTH;
      bodyMark := p;
      contentLength := contentLength - toRead;
      q := p + toRead - 1;
      if contentLength == 0 {
        state := ChunkDataAlmostDone;
      }
    }

    method ChunkSizeByte(ch: Byte, ghost t: Trace)
      requires errno == OK && flags.chunked
      requires state.ChunkSizeStart? || state.ChunkSize? || state.ChunkParameters?
      requires state.ChunkSizeStart? ==> nread == 1
      modifies `state, `contentLength, `errno
      ensures Became(StepChunk(old(With(t)), ch), t)
    {
      ChunkCases(With(t), ch);
      hide StepChunk, StepChunkSize, Became;
      assert flags.chunked;
      if state == ChunkSizeStart {
        ChunkStartByte(ch, t);
      } else if state == ChunkSize {
        ChunkNextByte(ch, t);
      } else {
        ChunkParameterByte(ch, t);
      }
    }

    /** A byte of a chunk size, in 64-bit arithmetic. */
    static lemma ChunkCases(m: Machine, ch: Byte)
      ensures m.state.ChunkSize? ==> StepChunk(m, ch) == StepChunkSize(m, ch)
    {
      hide StepChunkSize;
    }

    method ChunkStartByte(ch: Byte, ghost t: Trace)
      requires errno == OK && state.ChunkSizeStart? && nread == 1
      modifies `state, `contentLength, `errno
      ensures Became(StepChunk(old(With(t)), ch), t)
    {
      hide Unhex, StepChunkSize;
      UnhexBound(ch);
      assert nread == 1;
      var unhexVal := Unhex(ch);
      if unhexVal == -1 {
        errno := INVALID_CHUNK_SIZE;
        return;
      }
      contentLength := unhexVal;
      state := ChunkSize;
    }

    method ChunkNextByte(ch: Byte, ghost t: Trace)
      requires errno == OK && state.ChunkSize?
      modifies `state, `contentLength, `errno
      ensures Became(StepChunkSize(old(With(t)), ch), t)
    {
      hide Unhex;
      if ch == CR {
        state := ChunkSizeAlmostDone;
      } else {
        ChunkDigit(ch, t);
      }
    }

    method ChunkParameterByte(ch: Byte, ghost t: Trace)
      requires errno == OK && state.ChunkParameters?
      modifies `state
      ensures Became(StepChunk(old(With(t)), ch), t)
    {
      hide StepChunkSize;
      if ch == CR {
        state := ChunkSizeAlmostDone;
      }
    }

    method ChunkDigit(ch: Byte, ghost t: Trace)
      requires errno == OK && ch != CR
      modifies `state, `contentLength, `errno
      ensures Became(StepChunkSize(old(With(t)), ch), t)
    {
      hide Unhex;
      UnhexBound(ch);
      var unhexVal := Unhex(ch);
      if unhexVal == -1 {
        if ch == ';' || ch == ' ' {
          state := ChunkParameters;
        } else {
          errno := INVALID_CHUNK_SIZE;
        }
        return;
      }
      var next := (contentLength * 16 + unhexVal) % (NO_LENGTH + 1);
      if (NO_LENGTH - 16) / 16 < contentLength {
        errno := INVALID_CONTENT_LENGTH;
        return;
      }
      contentLength := next;
    }

    method ChunkSizeEndByte(ch: Byte)
      requires NoMarks() && errno == OK && flags.chunked && state.ChunkSizeAlmostDone?
      modifies `state, `flags, `nread, `errno, `callbacks
      ensures var r := StepChunkSizeAlmostDone(old(Snap()), ch);
              if r.errno == OK then Snap() == r else errno == r.errno && Canon(callbacks) == r.trace
    {
      hide Push, Canon;
      assert flags.chunked;
      if ch != LF {
        errno := STRICT;
        return;
      }
      nread := 0;
      if contentLength == 0 {
        flags := flags.(trailing := true);
        state := HeaderFieldStart;
      } else {
        state := ChunkData;
      }
      Notify(ChunkHeader);
    }

    method ChunkDataEndByte(data: Bytes, p: nat)
      requires Open(data, p) && p < |data| && errno == OK && flags.chunked
      requires state.ChunkDataAlmostDone? && contentLength == 0
      modifies this
      ensures Handled(Expect(old(Abs(data, p)), data[p], CR, ChunkDataDone, STRICT), data, p, false)
    {
      hide Push, Canon;
      assert flags.chunked;
      assert contentLength == 0;
      if data[p] != CR {
        errno := STRICT;
        if bodyMark >= 0 {
          OpenCut(callbacks, Body(data[bodyMark..p]));
        }
        return;
      }
      state := ChunkDataDone;
      CallbackData(data, p);
    }

    method ChunkDoneByte(ch: Byte)
      requires NoMarks() && errno == OK && flags.chunked && state.ChunkDataDone?
      modifies `state, `nread, `errno, `callbacks
      ensures var r := StepChunk(old(Snap()), ch);
              if r.errno == OK then Snap() == r else errno == r.errno && Canon(callbacks) == r.trace
    {
      hide Push, Canon;
      assert flags.chunked;
      if ch != LF {
        errno := STRICT;
        return;
      }
      nread := 0;
      state := ChunkSizeStart;
      Notify(ChunkComplete);
    }

    // The switch

    method RequestLineByte(data: Bytes, p: nat)
      requires Open(data, p) && p < |data| && errno == OK && RequestLine(state)
      requires state.ReqMethod? ==> index <= |MethodName(requestMethod)|
      modifies this
      ensures Handled(StepState(old(Abs(data, p)), data[p]), data, p, false)
    {
      hide Push, Canon, StepStart, StepMethod, StepSpaces, StepUrl, StepVersion, Handled, MethodName;
      if UrlState(state) {
        UrlByte(data, p);
        return;
      }
      if state == Dead {
        DeadByte(data, p);
      } else if state == StartReq {
        StartByte(data, p);
      } else if state == ReqMethod {
        MethodByte(data, p);
      } else if state == ReqSpacesBeforeUrl {
        SpacesByte(data, p);
      } else {
        VersionCase(data, p);
      }
    }

    method VersionCase(data: Bytes, p: nat)
      requires NoMarks() && p < |data| && errno == OK && VersionState(state)
      modifies this
      ensures Handled(StepVersion(old(Snap()), data[p]), data, p, false)
    {
      hide Push, Canon, StepVersion, StepVersionNumber, Handled;
      ghost var m := Snap();
      VersionShape(m, data[p]);
      if state == ReqHttpMajor || state == ReqHttpDot || state == ReqHttpMinor || state == ReqHttpEnd ||
         state == ReqLineAlmostDone
      {
        VersionHalves(m, data[p]);
        VersionNumberByte(data[p], Canon(callbacks));
      } else {
        VersionByte(data[p], Canon(callbacks));
      }
      if StepVersion(m, data[p]).errno == OK {
        VersionQuiet(StepVersion(m, data[p]).state);
      }
      Lift(StepVersion(m, data[p]), data, p);
    }

    /** The states that the second half of the version handles. */
    static lemma VersionHalves(m: Machine, ch: Byte)
      requires m.state.ReqHttpMajor? || m.state.ReqHttpDot? || m.state.ReqHttpMinor? || m.state.ReqHttpEnd? ||
               m.state.ReqLineAlmostDone?
      ensures StepVersion(m, ch) == StepVersionNumber(m, ch)
    {
      hide StepVersionNumber;
    }

    static lemma VersionQuiet(s: State)
      requires VersionState(s) || s.HeaderFieldStart?
      ensures !UrlState(s) && !s.HeaderField? && !s.HeaderValue?
    {
    }

    method DeadByte(data: Bytes, p: nat)
      requires Open(data, p) && p < |data| && errno == OK && state.Dead?
      modifies this
      ensures Handled(StepState(old(Abs(data, p)), data[p]), data, p, false)
    {
      hide Push, Canon;
      if data[p] != CR && data[p] != LF {
        errno := CLOSED_CONNECTION;
      }
    }

    static predicate RequestLine(s: State) {
      UrlState(s) || s.Dead? || s.StartReq? || s.ReqMethod? || s.ReqSpacesBeforeUrl? || VersionState(s)
    }

    static predicate HeaderLine(s: State) {
      s.HeaderFieldStart? || s.HeaderValueDiscardWs? || s.HeaderValueDiscardWsAlmostDone? ||
      s.HeaderValueDiscardLws? || s.HeaderValueLws? || s.HeaderAlmostDone? || s.HeadersAlmostDone?
    }

    static lemma HeaderLineCases(m: Machine, ch: Byte)
      ensures m.state.HeaderFieldStart? ==> StepState(m, ch) == StepFieldStart(m, ch)
      ensures m.state.HeaderValueDiscardWs? ==> StepState(m, ch) == StepDiscardWs(m, ch)
      ensures m.state.HeaderValueDiscardLws? ==> StepState(m, ch) == StepDiscardLws(m, ch)
      ensures m.state.HeaderValueLws? ==> StepState(m, ch) == StepValueLws(m, ch)
      ensures m.state.HeadersAlmostDone? ==> StepState(m, ch) == StepHeadersAlmostDone(m, ch)
      ensures m.state.HeaderAlmostDone? ==> StepState(m, ch) == Expect(m, ch, LF, HeaderValueLws, LF_EXPECTED)
      ensures m.state.HeaderValueDiscardWsAlmostDone? ==>
                StepState(m, ch) == Expect(m, ch, LF, HeaderValueDiscardLws, STRICT)
    {
      hide StepFieldStart, StepDiscardWs, StepDiscardLws, StepValueLws, StepHeadersAlmostDone, Expect;
    }

    method AlmostDoneLine(data: Bytes, p: nat)
      requires NoMarks() && p < |data| && errno == OK
      requires state.HeaderAlmostDone? || state.HeaderValueDiscardWsAlmostDone?
      modifies this
      ensures Handled(if old(state).HeaderAlmostDone?
                      then Expect(old(Snap()), data[p], LF, HeaderValueLws, LF_EXPECTED)
                      else Expect(old(Snap()), data[p], LF, HeaderValueDiscardLws, STRICT), data, p, false)
    {
      hide Push, Canon, Handled;
      ghost var m := Snap();
      AlmostDoneByte(data[p], Canon(callbacks));
      Lift(if m.state.HeaderAlmostDone? then Expect(m, data[p], LF, HeaderValueLws, LF_EXPECTED)
           else Expect(m, data[p], LF, HeaderValueDiscardLws, STRICT), data, p);
    }

    method HeaderLineByte(data: Bytes, p: nat) returns (exit: bool)
      requires NoMarks() && p < |data| && errno == OK && HeaderLine(state)
      modifies this
      ensures Handled(StepState(old(Snap()), data[p]), data, p, exit)
    {
      HeaderLineCases(Snap(), data[p]);
      hide Push, Canon, StepState, Handled, StepFieldStart, StepDiscardWs, StepDiscardLws, StepValueLws,
        StepHeadersAlmostDone, Expect;
      exit := false;
      if state == HeaderFieldStart {
        exit := FieldStartByte(data, p);
      } else if state == HeaderValueDiscardWs {
        DiscardWsByte(data, p);
      } else if state == HeaderValueDiscardLws {
        exit := DiscardLwsByte(data, p);
      } else if state == HeaderValueLws {
        exit := ValueLwsByte(data, p);
      } else if state == HeadersAlmostDone {
        exit := HeadersAlmostDoneByte(data, p);
      } else {
        AlmostDoneLine(data, p);
      }
    }

    method ChunkByte(data: Bytes, p: nat)
      requires Open(data, p) && p < |data| && errno == OK && flags.chunked
      requires ChunkState(state) && !state.ChunkData?
      requires state.ChunkSizeStart? ==> nread == 1
      requires state.ChunkDataAlmostDone? ==> contentLength == 0
      modifies this
      ensures Handled(StepState(old(Abs(data, p)), data[p]), data, p, false)
    {
      hide Push, Canon, StepChunk, Handled, StepChunkSizeAlmostDone;
      ghost var m := Abs(data, p);
      ChunkShape(m, data[p]);
      if state == ChunkDataAlmostDone {
        ChunkDataEndByte(data, p);
        return;
      }
      if state == ChunkSizeStart || state == ChunkSize || state == ChunkParameters {
        ChunkSizeByte(data[p], Canon(callbacks));
      } else if state == ChunkSizeAlmostDone {
        ChunkSizeEndByte(data[p]);
      } else {
        ChunkDoneByte(data[p]);
      }
      LiftSnap(StepState(m, data[p]), data, p);
    }

    static lemma ChunkShape(m: Machine, ch: Byte)
      requires m.errno == OK && !m.exited && ChunkState(m.state) && !m.state.ChunkData?
      ensures var r := StepChunk(m, ch);
              && StepState(m, ch) == r
              && r.errno != HEADER_OVERFLOW && !r.exited
              && (r.errno == OK ==> !UrlState(r.state) && !r.state.HeaderField? && !r.state.HeaderValue?)
      ensures m.state.ChunkDataAlmostDone? ==> StepChunk(m, ch) == Expect(m, ch, CR, ChunkDataDone, STRICT)
      ensures m.state.ChunkSizeAlmostDone? ==> StepChunk(m, ch) == StepChunkSizeAlmostDone(m, ch)
    {
      hide Push, Unhex;
    }

    /** A byte after which no callback is open. */
    lemma LiftSnap(r: Machine, data: Bytes, p: nat)
      requires NoMarks() && p < |data| && r.errno != HEADER_OVERFLOW && !r.exited
      requires if r.errno == OK then Snap() == r else errno == r.errno && Canon(callbacks) == r.trace
      requires r.errno == OK ==> !UrlState(r.state) && !r.state.HeaderField? && !r.state.HeaderValue?
      ensures Handled(r, data, p, false)
    {
      hide Canon, Push, UrlState;
    }

    static lemma RunByte(m: Machine, data: Bytes, p: nat)
      requires p < |data| && !Stopped(m)
      ensures Run(m, data[p..p + 1]) == Step(m, data[p]) && Precise(m, data[p..p + 1])
    {
      hide Step;
      PreciseStop(m, data[p..p + 1]);
      var one := data[p..p + 1];
      assert one[1..] == [];
      assert Run(Step(m, data[p]), one[1..]) == Step(m, data[p]);
    }

    /** Handles the byte at p, or the block that starts there; q is the last byte handled. */
    method HandleByte(data: Bytes, p: nat) returns (q: nat, exit: bool)
      requires Open(data, p) && p < |data| && errno == OK && Inv(Abs(data, p))
      requires |data| + MAX_HEADER_SIZE < TWO_32
      modifies this
      ensures p <= q < |data|
      ensures HandledBlock(old(Abs(data, p)), data, p, q, exit)
    {
      hide Push, Canon, Run, StepState, HeaderInv, LastIs, Handled, MethodName, Precise;
      q, exit := p, false;
      ghost var m := Abs(data, p);
      if state == BodyIdentity {
        q, exit := BodyBlock(data, p);
        return;
      }
      if state == ChunkData {
        q := ChunkBlock(data, p);
        return;
      }
      if ParsingHeader(state) {
        CountHeaderSize(1);
        if errno != OK {
          RunByte(m, data, p);
          PendingCut(data, p);
          HandledOverflow(m, data, p);
          return;
        }
      }
      q, exit := HandleCounted(m, data, p);
    }

    method HandleCounted(ghost m: Machine, data: Bytes, p: nat) returns (q: nat, exit: bool)
      requires Open(data, p) && p < |data| && errno == OK && |data| + MAX_HEADER_SIZE < TWO_32
      requires !Stopped(m) && Inv(m) && Abs(data, p) == Count(m) && nread <= MAX_HEADER_SIZE
      requires !state.BodyIdentity? && !state.ChunkData?
      modifies this
      ensures HandledBlock(m, data, p, q, exit)
    {
      hide Push, Canon, Run, StepState, NameState, ValueState, IndexInside, RequestLine, HeaderLine, LastIs,
        Handled, MethodName, Precise;
      q, exit := p, false;
      StatesCovered(state);
      if state == HeaderField {
        q := FieldBlock(data, p);
      } else if state == HeaderValue {
        q := ValueBlock(data, p);
      } else {
        RunByte(m, data, p);
        NoOverflow(Count(m), data[p]);
        exit := HandleOther(data, p);
      }
    }

    lemma PendingCut(data: Bytes, p: nat)
      requires Marks(data, p)
      ensures Cut(callbacks, Pending(data, p))
    {
      hide Push, Canon, Cut;
      if urlMark >= 0 {
        OpenCut(callbacks, Url(data[urlMark..p]));
      } else if fieldMark >= 0 {
        OpenCut(callbacks, Field(data[fieldMark..p]));
      } else if valueMark >= 0 {
        OpenCut(callbacks, Value(data[valueMark..p]));
      } else if bodyMark >= 0 {
        OpenCut(callbacks, Body(data[bodyMark..p]));
      } else {
        SameCut(callbacks);
      }
    }

    static lemma SameCut(cbs: seq<Event>)
      ensures Cut(cbs, Canon(cbs))
    {
    }

    lemma HandledOverflow(m: Machine, data: Bytes, p: nat)
      requires p < |data| && errno == HEADER_OVERFLOW && Run(m, data[p..p + 1]).errno == HEADER_OVERFLOW
      requires Cut(callbacks, m.trace)
      ensures HandledBlock(m, data, p, p, false)
    {
      hide Run, Canon, Consumed;
    }

    static lemma StatesCovered(s: State)
      ensures RequestLine(s) || HeaderLine(s) || ChunkState(s) || s.BodyIdentity? || s.HeaderField? ||
              s.HeaderValue? || s.HeaderValueStart? || s.HeadersDone? || s.MessageDone?
    {
    }

    /** The states that are not scanned in blocks; their byte is already counted. */
    method HandleOther(data: Bytes, p: nat) returns (exit: bool)
      requires Open(data, p) && p < |data| && errno == OK
      requires RequestLine(state) || HeaderLine(state) || (ChunkState(state) && !state.ChunkData?)
      requires state.ReqMethod? ==> index <= |MethodName(requestMethod)|
      requires ChunkState(state) ==> flags.chunked
      requires state.ChunkSizeStart? ==> nread == 1
      requires state.ChunkDataAlmostDone? ==> contentLength == 0
      modifies this
      ensures Handled(StepState(old(Abs(data, p)), data[p]), data, p, exit)
    {
      hide Push, Canon, StepState, Handled, MethodName, RequestLine, ChunkState;
      exit := false;
      if RequestLine(state) {
        RequestLineByte(data, p);
      } else if HeaderLine(state) {
        exit := HeaderLineByte(data, p);
      } else {
        ChunkByte(data, p);
      }
    }

    // The entry point

    /** The callbacks are those of the machine at some byte before the limit, but for their last fragment. */
    ghost predicate Overflowed(m: Machine, data: Bytes)
      reads this
    {
      exists j :: 0 <= j <= |data| && !Stopped(Run(m, data[..j])) && Near(callbacks, Run(m, data[..j]).trace)
    }

    /** The parser ended as the machine does after the bytes of a buffer, n of which it consumed. */
    ghost predicate Executed(m: Machine, data: Bytes, n: nat, exit: bool)
      reads this
    {
      var r := Run(m, data);
      if r.errno == HEADER_OVERFLOW then
        errno != OK && !exit && Overflowed(m, data)
      else
        && n == Consumed(m, data)
        && (r.errno == OK ==> Snap() == r.(exited := false) && exit == r.exited)
        && (r.errno != OK ==> errno == r.errno && !exit && Cut(callbacks, r.trace))
    }

    /** Sets the mark of the callback that was open when the previous buffer ended. */
    method OpenMark(data: Bytes)
      requires Valid() && errno == OK
      modifies `urlMark, `fieldMark, `valueMark
      ensures Open(data, 0) && Abs(data, 0) == Snap()
    {
      hide Push, Canon, HeaderInv, BodyInv, LastIs;
      if state == HeaderField {
        fieldMark := 0;
        PushEmpty(Canon(callbacks), Field([]));
      } else if state == HeaderValue {
        valueMark := 0;
        PushEmpty(Canon(callbacks), Value([]));
      } else if UrlState(state) {
        urlMark := 0;
        PushEmpty(Canon(callbacks), Url([]));
      }
      assert data[0..0] == [];
    }

    /** The loop over the bytes of a buffer. */
    method ExecuteBytes(data: Bytes) returns (n: nat, exit: bool)
      requires Valid() && errno == OK && |data| + MAX_HEADER_SIZE < TWO_32
      modifies this
      ensures Valid() && Executed(old(Snap()), data, n, exit)
    {
      hide Push, Canon, Run, Inv, Consumed, Overflowed, Cut, Executed, Stopped;
      n, exit := 0, false;
      ghost var m := Snap();
      OpenMark(data);
      assert data[..0] == [];
      RunNil(m);
      Going(m);
      while n < |data|
        invariant n <= |data| && errno == OK && Open(data, n) && !Stopped(Run(m, data[..n]))
        invariant Abs(data, n) == Run(m, data[..n]) && Inv(Abs(data, n))
        decreases |data| - n
      {
        var q, x := ExecuteBlock(m, data, n);
        exit := x;
        if errno != OK {
          n, exit := q, false;
          return;
        }
        n := q + 1;
        if exit {
          return;
        }
      }
      assert data[..n] == data;
      assert (if fieldMark >= 0 then 1 else 0) + (if valueMark >= 0 then 1 else 0) +
             (if urlMark >= 0 then 1 else 0) + (if bodyMark >= 0 then 1 else 0) <= 1;
      CallbackData(data, n);
      AllExecuted(m, data);
    }

    lemma Going(m: Machine)
      requires m.errno == OK && !m.exited
      ensures !Stopped(m)
    {
    }

    /** All bytes were consumed. */
    lemma AllExecuted(m: Machine, data: Bytes)
      requires errno == OK && Snap() == Run(m, data)
      ensures Executed(m, data, |data|, false)
    {
      hide Push, Canon, Run, Consumed, Overflowed, Cut;
      RunEnd(m, data);
    }

    /** One byte or block of the loop: it goes on, or the buffer is done with. */
    method ExecuteBlock(ghost m: Machine, data: Bytes, n: nat) returns (q: nat, x: bool)
      requires n < |data| && errno == OK && Open(data, n) && !Stopped(Run(m, data[..n]))
      requires Abs(data, n) == Run(m, data[..n]) && Inv(Abs(data, n)) && |data| + MAX_HEADER_SIZE < TWO_32
      modifies this
      ensures n <= q < |data|
      ensures if errno != OK then Valid() && Executed(m, data, q, false)
              else if x then Valid() && Executed(m, data, q + 1, true)
              else
                && Open(data, q + 1) && Abs(data, q + 1) == Run(m, data[..q + 1])
                && Inv(Abs(data, q + 1)) && !Stopped(Run(m, data[..q + 1]))
    {
      hide Push, Canon, Run, Inv, Consumed, Precise, Near, Overflowed, Executed, Cut;
      ghost var k := Abs(data, n);
      q, x := HandleByte(data, n);
      if errno != OK {
        DropMarks();
      }
      RunOn(m, data, n, q + 1);
      RunInv(k, data[n..q + 1]);
      StopsAt(m, data, n, q);
      NearAt(m, data, n);
      if errno != OK {
        FailedExecuted(m, data, n, q);
      } else if x {
        ExitInv(Run(m, data[..q + 1]));
        ExitExecuted(m, data, q);
      }
    }

    lemma FailedExecuted(m: Machine, data: Bytes, n: nat, q: nat)
      requires n <= q < |data| && errno != OK
      requires var r := Run(m, data);
               && r.errno != OK
               && if r.errno == HEADER_OVERFLOW then Overflowed(m, data)
                  else errno == r.errno && Cut(callbacks, r.trace) && Consumed(m, data) == q
      ensures Executed(m, data, q, false)
    {
      hide Run, Consumed, Overflowed, Cut;
    }

    lemma ExitExecuted(m: Machine, data: Bytes, q: nat)
      requires q < |data| && errno == OK
      requires var r := Run(m, data);
               r.errno == OK && r.exited && Consumed(m, data) == q + 1 && Snap() == r.(exited := false)
      ensures Executed(m, data, q + 1, true)
    {
      hide Run, Consumed, Overflowed, Cut;
    }

    /** Parses the next buffer.  Returns the number of bytes consumed; exit tells that the rest belongs to
        another protocol, which the caller sees as upgrade being set.  An empty buffer means end of input. */
    method Execute(data: Bytes) returns (n: nat, exit: bool)
      requires Valid() && |data| + MAX_HEADER_SIZE < TWO_32
      modifies this
      ensures Valid()
      ensures old(errno) != OK ==> n == 0 && !exit && Snap() == old(Snap()) && callbacks == old(callbacks)
      ensures old(errno) == OK && data == [] ==>
                && !exit && callbacks == old(callbacks)
                && if old(state).Dead? || old(state).StartReq? then n == 0 && Snap() == old(Snap())
                   else n == 1 && Snap() == Fail(old(Snap()), INVALID_EOF_STATE)
      ensures old(errno) == OK && data != [] ==> Executed(old(Snap()), data, n, exit)
    {
      hide Push, Canon, Run, Inv, Consumed, Stopped, Overflowed, Cut;
      n, exit := 0, false;
      if errno != OK {
        return;
      }
      if data == [] {
        if state != Dead && state != StartReq {
          errno := INVALID_EOF_STATE;
          n := 1;
        }
        return;
      }
      n, exit := ExecuteBytes(data);
    }

    /** An error return: what the marks cover is not reported. */
    method DropMarks()
      modifies `urlMark, `fieldMark, `valueMark, `bodyMark
      ensures NoMarks()
    {
      urlMark, fieldMark, valueMark, bodyMark := -1, -1, -1, -1;
    }

    /** What is said of the callbacks when the limit is met behind the first n bytes. */
    lemma NearAt(m: Machine, data: Bytes, n: nat)
      requires n <= |data| && !Stopped(Run(m, data[..n]))
      ensures Near(callbacks, Run(m, data[..n]).trace) ==> Overflowed(m, data)
    {
      hide Run, Near;
    }

    /** Where the machine stops if it stops at q. */
    static lemma StopsAt(m: Machine, data: Bytes, n: nat, q: nat)
      requires n <= q < |data| && !Stopped(Run(m, data[..n]))
      requires Precise(Run(m, data[..n]), data[n..q + 1])
      ensures var r := Run(m, data[..q + 1]);
              Stopped(r) ==>
                && Run(m, data) == r
                && (r.errno != HEADER_OVERFLOW ==> Consumed(m, data) == if r.errno == OK then q + 1 else q)
    {
      hide Step, Run, Consumed;
      RunOn(m, data, n, q + 1);
      assert data[..n] + data[n..q + 1] == data[..q + 1];
      RunConcat(m, data[..n], data[n..q + 1]);
      assert data[..q + 1] + data[q + 1..] == data;
      RunConcat(m, data[..q + 1], data[q + 1..]);
      if Stopped(Run(m, data[..q + 1])) {
        RunStopped(Run(m, data[..q + 1]), data[q + 1..]);
      }
    }

    static lemma ExitInv(m: Machine)
      requires Inv(m) && m.exited
      ensures Inv(m.(exited := false)) && (m.state.StartReq? || m.state.Dead?)
    {
      hide HeaderInv, BodyInv, LastIs;
      assert HeaderInv(m.(exited := false)) && BodyInv(m.(exited := false)) by { SameInv(m); }
    }

    static lemma SameInv(m: Machine)
      ensures HeaderInv(m.(exited := false)) == HeaderInv(m) && BodyInv(m.(exited := false)) == BodyInv(m)
    {
    }

    static lemma RunOn(m: Machine, data: Bytes, n: nat, q: nat)
      requires n <= q <= |data|
      ensures Run(m, data[..q]) == Run(Run(m, data[..n]), data[n..q])
    {
      hide Step, Run;
      assert data[..n] + data[n..q] == data[..q];
      RunConcat(m, data[..n], data[n..q]);
    }

    static lemma RunEnd(m: Machine, data: Bytes)
      requires !Stopped(Run(m, data))
      ensures Consumed(m, data) == |data|
    {
      hide Step, Run;
      assert data + [] == data;
      RunConcat(m, data, []);
    }
  }
}
