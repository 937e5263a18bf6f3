/** Parsing is the inverse of writing requests: whole messages, one after another, with bodies of both kinds, and
    what their Connection and Upgrade fields decide. */
module HttpRequests {
  import opened Options
  import opened HttpTypes
  import opened HttpMachine
  import opened HttpKeywords
  import opened HttpLengths
  import opened HttpMessages
  import opened HttpGrammar
  import opened HttpScan
  import opened HttpParser
  import opened HttpSplit
  import opened HttpList
  import opened HttpSpecials
  import C = HttpChunked
  import F = HttpFields
  import O = UrlOutline

  datatype Payload =
    | Empty
    | Sized(digits: Bytes, bytes: Bytes)
    | Chunked(chunks: seq<C.Chunk>, size: Bytes, ext: Bytes, trailer: seq<F.HeaderLine>)

  /** A request as it is sent: fields of ordinary names, perhaps an Upgrade and a Connection field, and the field
      that frames the payload. */
  datatype Request = Request(verb: Method, target: Bytes, major: Byte, minor: Byte, fields: seq<F.HeaderLine>,
                             protocol: Option<Bytes>, connection: Option<Bytes>, payload: Payload)

  /** The special fields of a request, in order. */
  function Specials(q: Request): HeaderList {
    (if q.protocol.Some? then [("Upgrade", q.protocol.value)] else []) +
    (if q.connection.Some? then [("Connection", q.connection.value)] else []) +
    Framing(q.payload)
  }

  function Framing(p: Payload): HeaderList {
    match p
    case Empty => []
    case Sized(digits, _) => [("Content-Length", digits)]
    case Chunked(_, _, _, _) => [("Transfer-Encoding", "chunked")]
  }

  function EncodeOption(name: Bytes, value: Option<Bytes>): Bytes {
    if value.Some? then Line(name, value.value) else []
  }

  function EncodeFraming(p: Payload): Bytes {
    match p
    case Empty => []
    case Sized(digits, _) => Line("Content-Length", digits)
    case Chunked(_, _, _, _) => Line("Transfer-Encoding", "chunked")
  }

  function EncodePayload(p: Payload): Bytes {
    match p
    case Empty => []
    case Sized(_, bytes) => bytes
    case Chunked(cs, size, ext, trailer) => C.EncodeBody(cs, size, ext, trailer)
  }

  function Version(q: Request): Bytes { "HTTP/" + [q.major] + "." + [q.minor] + [CR, LF] }

  /** The special fields and the empty line. */
  function EncodeSpecials(q: Request): Bytes {
    EncodeOption("Upgrade", q.protocol) +
    (EncodeOption("Connection", q.connection) + (EncodeFraming(q.payload) + [CR, LF]))
  }

  function EncodeHead(q: Request): Bytes {
    MethodName(q.verb) + [' '] + q.target + [' '] + Version(q) + (F.EncodeAll(q.fields) + EncodeSpecials(q))
  }

  function Encode(q: Request): Bytes { EncodeHead(q) + EncodePayload(q.payload) }

  /** The message that a request is. */
  function Meaning(q: Request): Message {
    Message(q.target, F.Pairs(q.fields) + Specials(q),
            match q.payload
            case Empty => Nothing
            case Sized(_, bytes) => if bytes == [] then Nothing else Whole(bytes)
            case Chunked(cs, _, _, trailer) => Chunks(C.Contents(cs), F.Pairs(trailer)))
  }

  predicate PayloadOk(p: Payload) {
    match p
    case Empty => true
    case Sized(digits, bytes) =>
      digits != [] && Digits(digits) && Decimal(digits) == |bytes| && |bytes| <= MAX_DECIMAL
    case Chunked(cs, size, ext, trailer) =>
      && (forall i :: 0 <= i < |cs| ==> C.WellFormed(cs[i])) && C.WellFormedLine(size, ext) && Hex(size) == 0
      && (forall i :: 0 <= i < |trailer| ==> F.WellFormed(trailer[i]))
      && |F.EncodeAll(trailer)| + 2 <= MAX_HEADER_SIZE
  }

  /** A request target that may end where it does. */
  predicate TargetOk(connect: bool, target: Bytes) {
    var s := O.Walk(connect, target).0;
    target != [] && UrlState(s) && !s.ReqSchema? && !s.ReqSchemaSlash? && !s.ReqSchemaSlashSlash? && !s.ReqServerStart?
  }

  predicate WellFormed(q: Request) {
    && TargetOk(q.verb.CONNECT?, q.target) && IsNum(q.major) && IsNum(q.minor)
    && (forall i :: 0 <= i < |q.fields| ==> F.WellFormed(q.fields[i]))
    && (q.protocol.Some? ==> ValueOk(q.protocol.value)) && (q.connection.Some? ==> ValueOk(q.connection.value))
    && PayloadOk(q.payload) && (q.verb.CONNECT? ==> q.payload.Empty?)
  }

  /** The Connection field names a keyword, where it is read. */
  predicate Names(q: Request, word: Bytes) { q.connection.Some? && Visible(q.connection.value, word) }

  /** With both digits of the version nonzero a connection is kept unless it is closed, otherwise it is closed
      unless it is kept. */
  predicate KeepsAlive(q: Request) {
    if q.major != '0' && q.minor != '0' then !Names(q, "close") else Names(q, "keep-alive")
  }

  /** Section 6.3 of RFC 7230 draws the line at version 1.1, which is the same exactly for versions that are not a
      later round number. */
  lemma VersionExact(major: Byte, minor: Byte)
    requires IsNum(major) && IsNum(minor)
    ensures ((major != '0' && minor != '0') <==> (major > '1' || (major == '1' && minor >= '1'))) <==>
            !(major >= '2' && minor == '0')
  {
  }

  /** The connection is handed to another protocol. */
  predicate Upgrades(q: Request) { q.verb.CONNECT? || (q.protocol.Some? && Names(q, "upgrade")) }

  /** The header bytes that are still counted when a request is done. */
  function Leftover(q: Request): nat { if q.payload.Chunked? then |F.EncodeAll(q.payload.trailer)| + 2 else 0 }

  /** Where no keyword is missed the list of the Connection field decides. */
  lemma NamesListed(q: Request)
    requires q.connection.Some? ==> ValueOk(q.connection.value) && NoneMissed(NO_FLAGS, q.connection.value)
    ensures Names(q, "close") <==> q.connection.Some? && Listed(q.connection.value, "close")
    ensures Names(q, "keep-alive") <==> q.connection.Some? && Listed(q.connection.value, "keep-alive")
    ensures Names(q, "upgrade") <==> q.connection.Some? && Listed(q.connection.value, "upgrade")
  {
    hide Visible, Listed, F.PlainByte;
    if q.connection.Some? {
      VisibleExact(q.connection.value, CLOSE);
      VisibleExact(q.connection.value, KEEP_ALIVE);
      VisibleExact(q.connection.value, UPGRADE);
    }
  }

  // The request line

  lemma {:induction false} TargetRun(m: Machine, target: Bytes)
    requires m.state.ReqSpacesBeforeUrl? && !Stopped(m)
    requires var s := O.Walk(m.requestMethod.CONNECT?, target).0;
             target != [] && !s.Dead? && m.nread + |target| <= MAX_HEADER_SIZE
    ensures var s := O.Walk(m.requestMethod.CONNECT?, target).0;
            && UrlState(s)
            && Run(m, target) == m.(state := s, nread := m.nread + |target|, trace := Push(m.trace, Url(target)))
  {
    hide Run, Consumed, Step, Push, ParseUrlChar, UrlState;
    var n := |target| - 1;
    assert target == target[..n] + [target[n]];
    RunConcat(m, target[..n], [target[n]]);
    if n == 0 {
      assert target == [target[0]] && target[..0] == [];
      RunOne(m, target[0]);
      TargetFirst(m, target[0]);
    } else {
      TargetRun(m, target[..n]);
      var r := Run(m, target[..n]);
      RunOne(r, target[n]);
      TargetNext(r, target[n]);
      PushJoin(m.trace, Url(target[..n]), Url([target[n]]));
    }
  }

  lemma TargetFirst(m: Machine, ch: Byte)
    requires m.state.ReqSpacesBeforeUrl? && !Stopped(m) && m.nread < MAX_HEADER_SIZE
    requires !ParseUrlChar(O.Start(m.requestMethod.CONNECT?), ch).Dead?
    ensures var s := ParseUrlChar(O.Start(m.requestMethod.CONNECT?), ch);
            && UrlState(s)
            && Step(m, ch) == m.(state := s, nread := m.nread + 1, trace := Push(m.trace, Url([ch])))
  {
    hide Push;
  }

  lemma TargetNext(m: Machine, ch: Byte)
    requires UrlState(m.state) && !Stopped(m) && m.nread < MAX_HEADER_SIZE && !ParseUrlChar(m.state, ch).Dead?
    ensures Step(m, ch) == m.(state := ParseUrlChar(m.state, ch), nread := m.nread + 1,
                              trace := Push(m.trace, Url([ch])))
    ensures UrlState(ParseUrlChar(m.state, ch))
  {
    hide Push;
    TargetByte(m.state, ch);
    TargetState(m.state);
    hide ParseUrlChar;
  }

  lemma TargetByte(s: State, ch: Byte)
    requires UrlState(s) && !ParseUrlChar(s, ch).Dead?
    ensures ch != ' ' && ch != CR && ch != LF && UrlState(ParseUrlChar(s, ch))
  {
  }

  lemma TargetState(s: State)
    requires UrlState(s)
    ensures !s.Dead? && !s.StartReq? && !s.ReqMethod? && !s.ReqSpacesBeforeUrl? && ParsingHeader(s)
  {
  }

  lemma TargetEnd(m: Machine)
    requires !Stopped(m) && m.nread < MAX_HEADER_SIZE && UrlState(m.state)
    requires !m.state.ReqSchema? && !m.state.ReqSchemaSlash? && !m.state.ReqSchemaSlashSlash?
    requires !m.state.ReqServerStart?
    ensures Step(m, ' ') == m.(state := ReqHttpStart, nread := m.nread + 1)
  {
    hide ParseUrlChar, Push;
  }

  /** A byte of the version. */
  lemma VersionStep(m: Machine, ch: Byte)
    requires VersionState(m.state) && !Stopped(m) && m.nread < MAX_HEADER_SIZE
    ensures Step(m, ch) == StepVersion(m.(nread := m.nread + 1), ch)
  {
    hide StepVersion;
  }

  lemma WordBytes(m: Machine)
    requires !Stopped(m) && m.nread < MAX_HEADER_SIZE
    ensures m.state.ReqHttpStart? ==> Step(m, 'H') == m.(state := ReqHttpH, nread := m.nread + 1)
    ensures m.state.ReqHttpH? ==> Step(m, 'T') == m.(state := ReqHttpHT, nread := m.nread + 1)
    ensures m.state.ReqHttpHT? ==> Step(m, 'T') == m.(state := ReqHttpHTT, nread := m.nread + 1)
    ensures m.state.ReqHttpHTT? ==> Step(m, 'P') == m.(state := ReqHttpHTTP, nread := m.nread + 1)
    ensures m.state.ReqHttpHTTP? ==> Step(m, '/') == m.(state := ReqHttpMajor, nread := m.nread + 1)
  {
    if VersionState(m.state) {
      VersionStep(m, 'H');
      VersionStep(m, 'T');
      VersionStep(m, 'P');
      VersionStep(m, '/');
    }
    hide Step, StepVersionNumber;
  }

  lemma WordRun(m: Machine)
    requires m.state.ReqHttpStart? && !Stopped(m) && m.nread + 5 <= MAX_HEADER_SIZE
    ensures Run(m, "HTTP/") == m.(state := ReqHttpMajor, nread := m.nread + 5)
  {
    hide Run, Consumed, Step;
    WordBytes(m);
    var h := m.(state := ReqHttpH, nread := m.nread + 1);
    var ht := m.(state := ReqHttpHT, nread := m.nread + 2);
    var htt := m.(state := ReqHttpHTT, nread := m.nread + 3);
    var http := m.(state := ReqHttpHTTP, nread := m.nread + 4);
    WordBytes(h);
    WordBytes(ht);
    WordBytes(htt);
    WordBytes(http);
    assert Step(m, 'H') == h && Step(h, 'T') == ht && Step(ht, 'T') == htt && Step(htt, 'P') == http;
    RunFive(m, 'H', 'T', 'T', 'P', '/');
    WordLetters();
  }

  /** A request of method SOURCE may say ICE where the others say HTTP; what follows is its version. */
  lemma IceRun(m: Machine)
    requires m.state.ReqHttpStart? && !Stopped(m) && m.nread + 4 <= MAX_HEADER_SIZE
    ensures m.requestMethod.SOURCE? ==> Run(m, "ICE/") == m.(state := ReqHttpMajor, nread := m.nread + 4)
    ensures !m.requestMethod.SOURCE? ==> Step(m, 'I').errno == INVALID_CONSTANT
  {
    hide Run, Consumed, Step;
    IceBytes(m);
    if m.requestMethod.SOURCE? {
      var i := m.(state := ReqHttpI, nread := m.nread + 1);
      var ic := m.(state := ReqHttpIC, nread := m.nread + 2);
      var ice := m.(state := ReqHttpHTTP, nread := m.nread + 3);
      IceBytes(i);
      IceBytes(ic);
      WordBytes(ice);
      RunOne(m, 'I');
      RunConcat(m, ['I'], ['C']);
      RunOne(i, 'C');
      RunConcat(m, ['I'] + ['C'], ['E']);
      RunOne(ic, 'E');
      RunConcat(m, ['I'] + ['C'] + ['E'], ['/']);
      RunOne(ice, '/');
      assert ['I'] + ['C'] + ['E'] + ['/'] == "ICE/";
    }
  }

  lemma IceBytes(m: Machine)
    requires !Stopped(m) && m.nread < MAX_HEADER_SIZE
    ensures m.state.ReqHttpStart? && m.requestMethod.SOURCE? ==>
              Step(m, 'I') == m.(state := ReqHttpI, nread := m.nread + 1)
    ensures m.state.ReqHttpStart? && !m.requestMethod.SOURCE? ==> Step(m, 'I').errno == INVALID_CONSTANT
    ensures m.state.ReqHttpI? ==> Step(m, 'C') == m.(state := ReqHttpIC, nread := m.nread + 1)
    ensures m.state.ReqHttpIC? ==> Step(m, 'E') == m.(state := ReqHttpHTTP, nread := m.nread + 1)
  {
    if VersionState(m.state) {
      VersionStep(m, 'I');
      VersionStep(m, 'C');
      VersionStep(m, 'E');
    }
    hide Step, StepVersionNumber;
  }

  lemma WordLetters()
    ensures ['H', 'T', 'T', 'P', '/'] == "HTTP/"
  {
  }

  lemma RunFive(m: Machine, a: Byte, b: Byte, c: Byte, d: Byte, e: Byte)
    requires var s := Step(m, a); var t := Step(s, b); var u := Step(t, c); var v := Step(u, d);
             !Stopped(m) && !Stopped(s) && !Stopped(t) && !Stopped(u) && !Stopped(v)
    ensures Run(m, [a, b, c, d, e]) == Step(Step(Step(Step(Step(m, a), b), c), d), e)
  {
    hide Run, Consumed, Step;
    RunOne(m, a);
    RunConcat(m, [a], [b]);
    RunOne(Step(m, a), b);
    RunConcat(m, [a] + [b], [c]);
    RunOne(Step(Step(m, a), b), c);
    RunConcat(m, [a] + [b] + [c], [d]);
    RunOne(Step(Step(Step(m, a), b), c), d);
    RunConcat(m, [a] + [b] + [c] + [d], [e]);
    RunOne(Step(Step(Step(Step(m, a), b), c), d), e);
    assert [a] + [b] + [c] + [d] + [e] == [a, b, c, d, e];
  }

  lemma NumberBytes(m: Machine, ch: Byte)
    requires !Stopped(m) && m.nread < MAX_HEADER_SIZE && IsNum(ch)
    ensures m.state.ReqHttpMajor? ==>
              Step(m, ch) == m.(state := ReqHttpDot, nread := m.nread + 1, major := Digit(ch))
    ensures m.state.ReqHttpDot? ==> Step(m, '.') == m.(state := ReqHttpMinor, nread := m.nread + 1)
    ensures m.state.ReqHttpMinor? ==>
              Step(m, ch) == m.(state := ReqHttpEnd, nread := m.nread + 1, minor := Digit(ch))
    ensures m.state.ReqHttpEnd? ==> Step(m, CR) == m.(state := ReqLineAlmostDone, nread := m.nread + 1)
    ensures m.state.ReqLineAlmostDone? ==> Step(m, LF) == m.(state := HeaderFieldStart, nread := m.nread + 1)
  {
    if VersionState(m.state) {
      VersionStep(m, ch);
      VersionStep(m, '.');
      VersionStep(m, CR);
      VersionStep(m, LF);
    }
    hide Step, Digit;
  }

  lemma NumbersRun(m: Machine, major: Byte, minor: Byte)
    requires m.state.ReqHttpMajor? && !Stopped(m) && IsNum(major) && IsNum(minor) && m.nread + 5 <= MAX_HEADER_SIZE
    ensures Run(m, [major, '.', minor, CR, LF]) ==
            m.(state := HeaderFieldStart, nread := m.nread + 5, major := Digit(major), minor := Digit(minor))
  {
    hide Run, Consumed, Step, Digit;
    NumberBytes(m, major);
    var a := m.(state := ReqHttpDot, nread := m.nread + 1, major := Digit(major));
    var b := a.(state := ReqHttpMinor, nread := m.nread + 2);
    var c := b.(state := ReqHttpEnd, nread := m.nread + 3, minor := Digit(minor));
    var d := c.(state := ReqLineAlmostDone, nread := m.nread + 4);
    NumberBytes(a, minor);
    NumberBytes(b, minor);
    NumberBytes(c, minor);
    NumberBytes(d, minor);
    RunFive(m, major, '.', minor, CR, LF);
  }

  lemma VersionRun(m: Machine, q: Request)
    requires m.state.ReqHttpStart? && !Stopped(m) && IsNum(q.major) && IsNum(q.minor) && m.nread + 10 <= MAX_HEADER_SIZE
    ensures |Version(q)| == 10
    ensures Run(m, Version(q)) ==
            m.(state := HeaderFieldStart, nread := m.nread + 10, major := Digit(q.major), minor := Digit(q.minor))
  {
    hide Run, Consumed, Step, Digit;
    WordRun(m);
    NumbersRun(Run(m, "HTTP/"), q.major, q.minor);
    RunConcat(m, "HTTP/", [q.major, '.', q.minor, CR, LF]);
    assert "HTTP/" + [q.major, '.', q.minor, CR, LF] == Version(q);
  }

  function RequestLine(q: Request): Bytes { MethodName(q.verb) + [' '] + q.target + [' '] + Version(q) }

  lemma VerbRun(m: Machine, verb: Method)
    requires m.state.StartReq? && !Stopped(m) && m.nread + |MethodName(verb)| < MAX_HEADER_SIZE
    ensures Run(m, MethodName(verb) + [' ']) ==
            m.(state := ReqSpacesBeforeUrl, index := |MethodName(verb)| + 1, requestMethod := verb,
               nread := m.nread + |MethodName(verb)| + 1, flags := NO_FLAGS, contentLength := NO_LENGTH,
               trace := Push(m.trace, MessageBegin))
  {
    hide Run, Consumed, Step, MethodName, Push, GuessFor;
    var name := MethodName(verb);
    NameNonempty(verb);
    MethodComplete(m, verb, |name|);
    GuessLast(verb);
    assert name[..|name|] == name;
    var r := Run(m, name);
    RunConcat(m, name, [' ']);
    RunOne(r, ' ');
    VerbEnd(r);
  }

  lemma VerbEnd(m: Machine)
    requires m.state.ReqMethod? && !Stopped(m) && m.nread < MAX_HEADER_SIZE
    requires m.index == |MethodName(m.requestMethod)|
    ensures Step(m, ' ') == m.(state := ReqSpacesBeforeUrl, index := m.index + 1, nread := m.nread + 1)
  {
    MethodStep(m, ' ');
    hide Step, MethodName, OtherMethod;
  }

  lemma LineRun(m: Machine, q: Request)
    requires m.state.StartReq? && !Stopped(m) && WellFormed(q) && m.nread + |RequestLine(q)| <= MAX_HEADER_SIZE
    ensures var r := Run(m, RequestLine(q));
            r == m.(state := HeaderFieldStart, index := r.index, requestMethod := q.verb,
                    nread := m.nread + |RequestLine(q)|, flags := NO_FLAGS, contentLength := NO_LENGTH,
                    major := Digit(q.major), minor := Digit(q.minor),
                    trace := m.trace + [MessageBegin, Url(q.target)])
  {
    hide Run, Consumed, Step, MethodName, Push, Digit, Version, O.Walk, UrlState, PayloadOk, F.WellFormed;
    var verb := MethodName(q.verb) + [' '];
    VersionLength(q);
    VerbRun(m, q.verb);
    var a := Run(m, verb);
    TargetState(O.Walk(q.verb.CONNECT?, q.target).0);
    TargetRun(a, q.target);
    RunConcat(m, verb, q.target);
    var b := Run(m, verb + q.target);
    TargetEnd(b);
    RunOne(b, ' ');
    RunConcat(m, verb + q.target, [' ']);
    var c := Run(m, verb + q.target + [' ']);
    VersionRun(c, q);
    RunConcat(m, verb + q.target + [' '], Version(q));
    PushBegin(m.trace, q.target);
  }

  lemma VersionLength(q: Request)
    ensures |Version(q)| == 10
  {
  }

  lemma PushBegin(t: Trace, target: Bytes)
    ensures Push(Push(t, MessageBegin), Url(target)) == t + [MessageBegin, Url(target)]
  {
    var u := t + [MessageBegin];
    assert Push(t, MessageBegin) == u && u[|u| - 1] == MessageBegin;
    assert Push(u, Url(target)) == u + [Url(target)];
  }

  /** A request without a version: it ends the connection, and is version 0.9. */
  lemma OldRequest(m: Machine, verb: Method, target: Bytes)
    requires m.state.StartReq? && !Stopped(m) && TargetOk(verb.CONNECT?, target)
    requires m.nread + |MethodName(verb)| + |target| + 5 <= MAX_HEADER_SIZE
    ensures var r := Run(m, MethodName(verb) + [' '] + target + [CR, LF] + [CR, LF]);
            && r.errno == OK && r.state.Dead? && r.major == 0 && r.minor == 9
            && r.trace == m.trace + [MessageBegin, Url(target), HeadersComplete, MessageComplete]
  {
    hide Run, Consumed, Step, MethodName, Push, O.Walk, UrlState;
    var verbs := MethodName(verb) + [' '];
    VerbRun(m, verb);
    var a := Run(m, verbs);
    TargetState(O.Walk(verb.CONNECT?, target).0);
    TargetRun(a, target);
    RunConcat(m, verbs, target);
    var b := Run(m, verbs + target);
    LineBreak(b);
    RunConcat(m, verbs + target, [CR, LF]);
    var c := Run(m, verbs + target + [CR, LF]);
    PushBegin(m.trace, target);
    HeadEnd(c);
    RunConcat(m, verbs + target + [CR, LF], [CR, LF]);
    OldDone(c.(state := HeadersAlmostDone, nread := c.nread + 2, upgrade := Asked(c),
               trace := c.trace + [HeadersComplete]));
  }

  lemma LineBreak(m: Machine)
    requires !Stopped(m) && m.nread + 2 <= MAX_HEADER_SIZE && UrlState(m.state)
    requires !m.state.ReqSchema? && !m.state.ReqSchemaSlash? && !m.state.ReqSchemaSlashSlash?
    requires !m.state.ReqServerStart?
    ensures Run(m, [CR, LF]) == m.(state := HeaderFieldStart, nread := m.nread + 2, major := 0, minor := 9)
  {
    hide Run, Consumed, Step;
    var s := m.(state := ReqLineAlmostDone, nread := m.nread + 1, major := 0, minor := 9);
    TargetBreak(m);
    NumberBytes(s, '0');
    RunOne(m, CR);
    RunConcat(m, [CR], [LF]);
    RunOne(s, LF);
    assert [CR] + [LF] == [CR, LF];
  }

  lemma TargetBreak(m: Machine)
    requires !Stopped(m) && m.nread < MAX_HEADER_SIZE && UrlState(m.state)
    requires !m.state.ReqSchema? && !m.state.ReqSchemaSlash? && !m.state.ReqSchemaSlashSlash?
    requires !m.state.ReqServerStart?
    ensures Step(m, CR) == m.(state := ReqLineAlmostDone, nread := m.nread + 1, major := 0, minor := 9)
  {
    hide ParseUrlChar, Push;
  }

  lemma OldDone(m: Machine)
    requires !Stopped(m) && m.major == 0 && m.flags == NO_FLAGS && m.contentLength == NO_LENGTH
    requires m.upgrade == m.requestMethod.CONNECT? && m.trace != [] && m.trace[|m.trace| - 1].HeadersComplete?
    ensures var r := StepHeadersDone(m);
            && r.errno == OK && r.state.Dead? && r.major == m.major && r.minor == m.minor
            && r.trace == m.trace + [MessageComplete]
  {
    HeadDone(m);
    hide StepHeadersDone;
  }

  // The special fields

  /** What the special fields tell the machine. */
  function FlagsOf(q: Request): Flags {
    var f := if q.protocol.Some? then NO_FLAGS.(upgrade := true) else NO_FLAGS;
    if q.connection.Some? then Noted(f, ReadOptions(true, [], q.connection.value)) else f
  }

  function FramedFlags(f: Flags, p: Payload): Flags {
    match p
    case Empty => f
    case Sized(_, _) => f.(contentLength := true)
    case Chunked(_, _, _, _) => f.(chunked := true)
  }

  function Framed(m: Machine, p: Payload): Machine {
    m.(flags := FramedFlags(m.flags, p), contentLength := if p.Sized? then |p.bytes| else m.contentLength)
  }

  lemma OneHeader(name: Bytes, value: Bytes)
    ensures RenderHeaders([(name, value)]) == [Field(name), Value(value)]
  {
    assert [(name, value)][..0] == [];
  }

  /** An empty line, or the line of no field. */
  lemma NoField(m: Machine, ch: Byte)
    requires !Stopped(m)
    ensures Run(m, [] + [ch]) == Step(m, ch) && m.trace + RenderHeaders([]) == m.trace
  {
    hide Step;
    RunOne(m, ch);
    assert [] + [ch] == [ch];
  }

  lemma ProtocolReads(m: Machine, protocol: Option<Bytes>, ch: Byte) returns (r: Machine)
    requires m.state.HeaderFieldStart? && !Stopped(m) && !LastIs(m.trace, Field([])) && ch !in " \t"
    requires protocol.Some? ==> ValueOk(protocol.value)
    requires m.nread + |EncodeOption("Upgrade", protocol)| < MAX_HEADER_SIZE
    ensures Run(m, EncodeOption("Upgrade", protocol) + [ch]) == Step(r, ch) && !LastIs(r.trace, Field([]))
    ensures r == m.(nread := m.nread + |EncodeOption("Upgrade", protocol)|, index := r.index,
                    headerState := r.headerState,
                    flags := if protocol.Some? then m.flags.(upgrade := true) else m.flags,
                    trace := m.trace + RenderHeaders(if protocol.Some? then [("Upgrade", protocol.value)] else []))
  {
    hide Run, Consumed, Step, RenderHeaders, Line, ValueOk, LastIs;
    if protocol.Some? {
      r := UpgradeReads(m, protocol.value, ch);
      OneHeader("Upgrade", protocol.value);
      LastValue(m.trace, "Upgrade", protocol.value);
    } else {
      NoField(m, ch);
      r := m;
    }
  }

  lemma ConnectionOption(m: Machine, connection: Option<Bytes>, ch: Byte) returns (r: Machine)
    requires m.state.HeaderFieldStart? && !Stopped(m) && !LastIs(m.trace, Field([])) && ch !in " \t"
    requires connection.Some? ==> ValueOk(connection.value)
    requires m.nread + |EncodeOption("Connection", connection)| < MAX_HEADER_SIZE
    ensures Run(m, EncodeOption("Connection", connection) + [ch]) == Step(r, ch) && !LastIs(r.trace, Field([]))
    ensures r == m.(nread := m.nread + |EncodeOption("Connection", connection)|, index := r.index,
                    headerState := r.headerState,
                    flags := if connection.Some? then Noted(m.flags, ReadOptions(true, [], connection.value))
                             else m.flags,
                    trace := m.trace +
                             RenderHeaders(if connection.Some? then [("Connection", connection.value)] else []))
  {
    hide Run, Consumed, Step, RenderHeaders, Line, ValueOk, LastIs, Noted, ReadOptions;
    if connection.Some? {
      r := ConnectionReads(m, connection.value, ch);
      OneHeader("Connection", connection.value);
      LastValue(m.trace, "Connection", connection.value);
    } else {
      NoField(m, ch);
      r := m;
    }
  }

  lemma LastValue(t: Trace, name: Bytes, value: Bytes)
    ensures !LastIs(t + [Field(name), Value(value)], Field([]))
  {
  }

  lemma FramingReads(m: Machine, p: Payload, ch: Byte) returns (r: Machine)
    requires m.state.HeaderFieldStart? && !Stopped(m) && !LastIs(m.trace, Field([])) && ch !in " \t"
    requires !m.flags.contentLength && PayloadOk(p) && m.nread + |EncodeFraming(p)| < MAX_HEADER_SIZE
    ensures Run(m, EncodeFraming(p) + [ch]) == Step(r, ch) && r.state.HeaderFieldStart? && !Stopped(r)
    ensures r == Framed(m, p).(nread := m.nread + |EncodeFraming(p)|, index := r.index, headerState := r.headerState,
                               trace := m.trace + RenderHeaders(Framing(p)))
  {
    hide Run, Consumed, Step, RenderHeaders, Line, LastIs, Decimal, Digits;
    match p
    case Empty =>
      NoField(m, ch);
      r := m;
    case Sized(digits, _) =>
      r := LengthReads(m, digits, ch);
      OneHeader("Content-Length", digits);
    case Chunked(_, _, _, _) =>
      r := CodingReads(m, ch);
      OneHeader("Transfer-Encoding", "chunked");
  }

  lemma EmptyLine(m: Machine)
    requires !Stopped(m) && m.nread < MAX_HEADER_SIZE && m.state.HeaderFieldStart?
    ensures Step(m, CR) == m.(state := HeadersAlmostDone, nread := m.nread + 1)
  {
    hide StepHeadersAlmostDone, Push;
  }

  /** A part that leaves the machine as if another one had begun with its last byte, and then more. */
  lemma ReadOn(m: Machine, part: Bytes, s: Machine, rest: Bytes)
    requires rest != [] && Run(m, part + [rest[0]]) == Step(s, rest[0])
    requires s.state.HeaderFieldStart? && !Stopped(s) && s.nread < MAX_HEADER_SIZE
    requires rest[0] == CR || IsToken(rest[0])
    ensures Run(m, part + rest) == Run(s, rest)
    ensures Consumed(m, part + rest) == |part| + Consumed(s, rest)
  {
    hide Run, Consumed, Step, IsToken;
    GoesOn(s, rest[0]);
    assert rest == [rest[0]] + rest[1..];
    SameRest(m, part, s, rest[0], rest[1..]);
  }

  lemma SameRest(m: Machine, part: Bytes, s: Machine, ch: Byte, tail: Bytes)
    requires !Stopped(s) && Run(m, part + [ch]) == Step(s, ch) && !Stopped(Step(s, ch))
    ensures Run(m, part + ([ch] + tail)) == Run(s, [ch] + tail)
    ensures Consumed(m, part + ([ch] + tail)) == |part| + Consumed(s, [ch] + tail)
  {
    hide Run, Consumed, Step, Stopped;
    var a := part + [ch];
    RunConcat(m, a, tail);
    RunConcat(s, [ch], tail);
    RunOne(s, ch);
    assert a + tail == part + ([ch] + tail);
  }

  lemma GoesOn(m: Machine, ch: Byte)
    requires m.state.HeaderFieldStart? && !Stopped(m) && m.nread < MAX_HEADER_SIZE && (ch == CR || IsToken(ch))
    ensures !Stopped(Step(m, ch))
  {
    if ch == CR {
      EmptyLine(m);
    } else {
      NameFirst(m, ch);
    }
    hide Step;
  }

  /** A byte that may begin a header line, or the empty one. */
  predicate Begins(ch: Byte) { ch !in " \t" && (ch == CR || IsToken(ch)) }

  lemma NoBlank(q: Request)
    ensures Begins((EncodeFraming(q.payload) + [CR, LF])[0])
    ensures Begins((EncodeOption("Connection", q.connection) + (EncodeFraming(q.payload) + [CR, LF]))[0])
    ensures Begins(EncodeSpecials(q)[0])
  {
    LineStarts("Upgrade");
    LineStarts("Connection");
    LineStarts("Content-Length");
    LineStarts("Transfer-Encoding");
    hide Line;
  }

  lemma LineStarts(name: Bytes)
    requires name != []
    ensures forall value :: Line(name, value) != [] && Line(name, value)[0] == name[0]
  {
  }

  /** The special fields, up to the end of the empty line. */
  lemma SpecialsRead(m: Machine, q: Request) returns (r: Machine)
    requires m.state.HeaderFieldStart? && !Stopped(m) && m.flags == NO_FLAGS && !LastIs(m.trace, Field([]))
    requires WellFormed(q) && m.nread + |EncodeSpecials(q)| <= MAX_HEADER_SIZE
    ensures Run(m, EncodeSpecials(q)) == Run(r, [CR, LF]) && m.nread <= r.nread <= m.nread + |EncodeSpecials(q)| - 2
    ensures Consumed(m, EncodeSpecials(q)) == |EncodeSpecials(q)| - 2 + Consumed(r, [CR, LF])
    ensures r == Framed(m.(flags := FlagsOf(q)), q.payload).(nread := r.nread, index := r.index,
                                                             headerState := r.headerState,
                                                             trace := m.trace + RenderHeaders(Specials(q)))
  {
    hide Run, Consumed, Step, RenderHeaders, LastIs, EncodeOption, EncodeFraming, PayloadOk, TargetOk, F.WellFormed,
      ValueOk, ReadOptions, Noted, Framed, Specials, Framing, IsToken;
    var c := EncodeFraming(q.payload) + [CR, LF];
    var b := EncodeOption("Connection", q.connection) + c;
    NoBlank(q);
    var x := ProtocolReads(m, q.protocol, b[0]);
    ReadOn(m, EncodeOption("Upgrade", q.protocol), x, b);
    var y := ConnectionOption(x, q.connection, c[0]);
    ReadOn(x, EncodeOption("Connection", q.connection), y, c);
    NotedOthers(q, y.flags);
    r := FramingReads(y, q.payload, CR);
    ReadOn(y, EncodeFraming(q.payload), r, [CR, LF]);
    SpecialsJoin(m.trace, q);
    FramedSame(y, m.(flags := FlagsOf(q)), q.payload);
  }

  /** The framing concerns the flags and the length only. */
  lemma FramedSame(a: Machine, b: Machine, p: Payload)
    requires a == b.(nread := a.nread, index := a.index, headerState := a.headerState, trace := a.trace)
    ensures Framed(a, p) == Framed(b, p).(nread := a.nread, index := a.index, headerState := a.headerState,
                                          trace := a.trace)
  {
  }

  /** The first two special fields leave the framing flags alone. */
  lemma NotedOthers(q: Request, f: Flags)
    requires f == FlagsOf(q)
    ensures !f.chunked && !f.contentLength && !f.trailing && (f.upgrade <==> q.protocol.Some?)
  {
    hide Found, ReadOptions;
  }

  lemma SpecialsJoin(t: Trace, q: Request)
    ensures t + RenderHeaders(if q.protocol.Some? then [("Upgrade", q.protocol.value)] else []) +
            RenderHeaders(if q.connection.Some? then [("Connection", q.connection.value)] else []) +
            RenderHeaders(Framing(q.payload)) == t + RenderHeaders(Specials(q))
  {
    hide RenderHeaders;
    var a: HeaderList := if q.protocol.Some? then [("Upgrade", q.protocol.value)] else [];
    var b: HeaderList := if q.connection.Some? then [("Connection", q.connection.value)] else [];
    HeadersConcat(a, b);
    HeadersConcat(a + b, Framing(q.payload));
  }

  lemma {:induction false} HeadersConcat(a: HeaderList, b: HeaderList)
    ensures RenderHeaders(a + b) == RenderHeaders(a) + RenderHeaders(b)
    decreases |b|
  {
    hide RenderHeaders;
    NoHeaders();
    if b == [] {
      assert a + b == a;
    } else {
      var n := |b| - 1;
      HeadersConcat(a, b[..n]);
      HeadersSnoc(a + b[..n], b[n].0, b[n].1);
      HeadersSnoc(b[..n], b[n].0, b[n].1);
      assert a + b == a + b[..n] + [(b[n].0, b[n].1)] && b == b[..n] + [(b[n].0, b[n].1)];
    }
  }

  // The end of the head

  /** Whether another protocol is asked for. */
  predicate Asked(m: Machine) { (m.flags.upgrade && m.flags.connectionUpgrade) || m.requestMethod.CONNECT? }

  /** The empty line. */
  lemma HeadEnd(m: Machine)
    requires m.state.HeaderFieldStart? && !Stopped(m) && m.nread + 2 <= MAX_HEADER_SIZE
    requires !m.flags.trailing && !(m.flags.chunked && m.flags.contentLength)
    ensures Run(m, [CR, LF]) ==
            StepHeadersDone(m.(state := HeadersAlmostDone, nread := m.nread + 2, upgrade := Asked(m),
                               trace := m.trace + [HeadersComplete]))
    ensures Consumed(m, [CR, LF]) == 2
  {
    hide Run, Consumed, Step, StepHeadersDone;
    EmptyLine(m);
    var e := Step(m, CR);
    C.StepLine(e);
    NoError(m.(state := HeadersAlmostDone, nread := m.nread + 2, upgrade := Asked(m),
               trace := m.trace + [HeadersComplete]));
    RunConcat(m, [CR], [LF]);
    RunOne(m, CR);
    RunOne(e, LF);
    assert [CR] + [LF] == [CR, LF];
  }

  lemma NoError(m: Machine)
    requires m.errno == OK
    ensures StepHeadersDone(m).errno == OK
  {
    hide Push;
  }

  lemma HeadDone(m: Machine)
    requires m.errno == OK && !m.exited && (m.requestMethod.CONNECT? ==> m.upgrade && !HasBody(m))
    ensures StepHeadersDone(m) ==
            if m.flags.chunked then m.(nread := 0, state := ChunkSizeStart)
            else if HasBody(m) then m.(nread := 0, state := BodyIdentity)
            else m.(nread := 0, state := if ShouldKeepAlive(m) then StartReq else Dead, exited := m.upgrade,
                    trace := m.trace + [MessageComplete])
  {
  }

  /** The fields and the empty line. */
  lemma HeadRun(m: Machine, q: Request) returns (r: Machine)
    requires m.state.HeaderFieldStart? && !Stopped(m) && m.flags == NO_FLAGS && !LastIs(m.trace, Field([]))
    requires m.contentLength == NO_LENGTH && m.requestMethod == q.verb && WellFormed(q)
    requires m.nread + |F.EncodeAll(q.fields)| + |EncodeSpecials(q)| <= MAX_HEADER_SIZE
    ensures var data := F.EncodeAll(q.fields) + EncodeSpecials(q);
            Run(m, data) == StepHeadersDone(r) && Consumed(m, data) == |data|
    ensures r == Framed(m.(flags := FlagsOf(q)), q.payload).(state := HeadersAlmostDone, nread := r.nread,
                   index := r.index, headerState := r.headerState, upgrade := Asked(r),
                   trace := m.trace + RenderHeaders(F.Pairs(q.fields)) + RenderHeaders(Specials(q)) + [HeadersComplete])
  {
    hide Run, Consumed, Step, F.WellFormed, StepHeadersDone, RenderHeaders, F.EncodeAll, EncodeSpecials, PayloadOk,
      TargetOk, LastIs, ValueOk, FlagsOf, Specials, IsToken;
    NoBlank(q);
    SpecialsNonempty(q);
    var s := F.FieldsRead(m, q.fields, EncodeSpecials(q)[0]);
    ReadOn(m, F.EncodeAll(q.fields), s, EncodeSpecials(q));
    F.LastHeader(m.trace, F.Pairs(q.fields));
    var e := SpecialsRead(s, q);
    NotedOthers(q, FlagsOf(q));
    HeadEnd(e);
    r := e.(state := HeadersAlmostDone, nread := e.nread + 2, upgrade := Asked(e),
            trace := e.trace + [HeadersComplete]);
  }

  lemma SpecialsNonempty(q: Request)
    ensures |EncodeSpecials(q)| >= 2
  {
  }

  // Whole requests

  /** The end of the head, and the payload. */
  lemma PayloadRun(m: Machine, q: Request)
    requires !Stopped(m) && PayloadOk(q.payload) && m.trace != [] && m.trace[|m.trace| - 1].HeadersComplete?
    requires m.requestMethod.CONNECT? ==> m.upgrade && q.payload.Empty?
    requires match q.payload
             case Empty => !m.flags.chunked && m.contentLength == NO_LENGTH
             case Sized(_, bytes) => !m.flags.chunked && m.contentLength == |bytes|
             case Chunked(_, _, _, _) => m.flags.chunked
    ensures var r := Run(StepHeadersDone(m), EncodePayload(q.payload));
            && r.errno == OK && r.exited == m.upgrade && r.upgrade == m.upgrade && r.nread == Leftover(q)
            && r.state == (if ShouldKeepAlive(m) then StartReq else Dead)
            && r.trace == m.trace + RenderContent(Meaning(q).content) + [MessageComplete]
    ensures Consumed(StepHeadersDone(m), EncodePayload(q.payload)) == |EncodePayload(q.payload)|
  {
    hide Run, Consumed, StepHeadersDone, RenderContent, C.EncodeBody, ShouldKeepAlive, F.EncodeAll, PayloadOk;
    SizedOk(q.payload);
    match q.payload
    case Empty =>
      HeadDone(m);
      RunNil(StepHeadersDone(m));
      NoContent(m.trace);
    case Sized(_, bytes) => SizedPayload(m, bytes);
    case Chunked(cs, size, ext, trailer) => ChunkedPayload(m, q.payload);
  }

  lemma NoContent(t: Trace)
    ensures t + RenderContent(Nothing) == t
  {
  }

  lemma SizedPayload(m: Machine, bytes: Bytes)
    requires !Stopped(m) && !m.requestMethod.CONNECT? && !m.flags.chunked && m.contentLength == |bytes| < NO_LENGTH
    requires m.trace != [] && m.trace[|m.trace| - 1].HeadersComplete?
    ensures var r := Run(StepHeadersDone(m), bytes);
            && r.errno == OK && r.exited == m.upgrade && r.upgrade == m.upgrade && r.nread == 0
            && r.state == (if ShouldKeepAlive(m) then StartReq else Dead)
            && r.trace == m.trace + RenderContent(if bytes == [] then Nothing else Whole(bytes)) + [MessageComplete]
    ensures Consumed(StepHeadersDone(m), bytes) == |bytes|
  {
    hide Run, Consumed, StepHeadersDone, Precise, ShouldKeepAlive, StepMessageDone;
    HeadDone(m);
    var d := StepHeadersDone(m);
    if bytes == [] {
      RunNil(d);
      NoContent(m.trace);
    } else {
      BodyRun(d, bytes);
      BodyDone(m, d, bytes);
      PreciseAll(d, bytes);
    }
  }

  lemma PreciseAll(m: Machine, bytes: Bytes)
    requires Precise(m, bytes) && Run(m, bytes).errno == OK
    ensures Consumed(m, bytes) == |bytes|
  {
    hide Run, Consumed;
  }

  /** The last byte of a body. */
  lemma BodyDone(m: Machine, d: Machine, bytes: Bytes)
    requires !Stopped(m) && d == m.(nread := 0, state := BodyIdentity)
    requires m.trace != [] && m.trace[|m.trace| - 1].HeadersComplete?
    ensures var r := StepMessageDone(Emit(d.(contentLength := 0), Body(bytes)));
            && r.errno == OK && r.exited == m.upgrade && r.upgrade == m.upgrade && r.nread == 0
            && r.state == (if ShouldKeepAlive(m) then StartReq else Dead)
            && r.trace == m.trace + RenderContent(Whole(bytes)) + [MessageComplete]
  {
    var t := m.trace + [Body(bytes)];
    assert Push(m.trace, Body(bytes)) == t;
    assert Push(t, MessageComplete) == t + [MessageComplete];
    hide Push;
  }

  lemma ChunkedPayload(m: Machine, p: Payload)
    requires !Stopped(m) && !m.requestMethod.CONNECT? && m.flags.chunked && p.Chunked? && PayloadOk(p)
    ensures var r := Run(StepHeadersDone(m), C.EncodeBody(p.chunks, p.size, p.ext, p.trailer));
            && r.errno == OK && r.exited == m.upgrade && r.upgrade == m.upgrade
            && r.nread == |F.EncodeAll(p.trailer)| + 2
            && r.state == (if ShouldKeepAlive(m) then StartReq else Dead)
            && r.trace == m.trace + RenderContent(Chunks(C.Contents(p.chunks), F.Pairs(p.trailer))) +
                          [MessageComplete]
    ensures var data := C.EncodeBody(p.chunks, p.size, p.ext, p.trailer);
            Consumed(StepHeadersDone(m), data) == |data|
  {
    hide Run, Consumed, StepHeadersDone, C.EncodeBody, F.EncodeAll, RenderContent, C.WellFormed, C.WellFormedLine,
      F.WellFormed, Hex;
    HeadDone(m);
    C.ChunkedRoundTrip(StepHeadersDone(m), p.chunks, p.size, p.ext, p.trailer);
  }

  lemma SizedOk(p: Payload)
    requires PayloadOk(p)
    ensures p.Sized? ==> Digits(p.digits) && Decimal(p.digits) == |p.bytes| <= MAX_DECIMAL
  {
    hide C.WellFormed, F.WellFormed, C.WellFormedLine;
  }

  /** One request is reported as the message it is; then the parser is ready for another one, or has closed the
      connection, or hands it over. */
  lemma RequestRoundTrip(m: Machine, q: Request)
    requires m.state.StartReq? && !Stopped(m) && WellFormed(q) && m.nread + |EncodeHead(q)| <= MAX_HEADER_SIZE
    ensures var r := Run(m, Encode(q));
            && r.errno == OK && r.exited == r.upgrade == Upgrades(q) && r.nread == Leftover(q)
            && r.state == (if KeepsAlive(q) then StartReq else Dead)
            && r.trace == m.trace + Render(Meaning(q))
    ensures Consumed(m, Encode(q)) == |Encode(q)|
  {
    hide Run, Consumed, Step, StepHeadersDone, RenderHeaders, RenderContent, F.EncodeAll, EncodeSpecials,
      EncodePayload, PayloadOk, TargetOk, F.WellFormed, Version, MethodName, LastIs, ValueOk, FlagsOf, KeepsAlive,
      Upgrades, ShouldKeepAlive, Asked, Specials;
    var line := RequestLine(q);
    var rest := F.EncodeAll(q.fields) + EncodeSpecials(q);
    LineRun(m, q);
    var a := Run(m, line);
    LastUrl(m.trace, q.target);
    var h := HeadRun(a, q);
    RunConcat(m, line, rest);
    RunConcat(m, line + rest, EncodePayload(q.payload));
    SizedOk(q.payload);
    NotedOthers(q, FlagsOf(q));
    Decided(a, h, q);
    ConnectUpgrades(q);
    PayloadRun(h, q);
    if !Stopped(StepHeadersDone(h)) {
      RunConcat(m, line + rest, EncodePayload(q.payload));
    } else {
      PayloadStopped(h, q);
    }
    RenderMeaning(m.trace, q);
  }

  lemma LastUrl(t: Trace, target: Bytes)
    ensures !LastIs(t + [MessageBegin, Url(target)], Field([]))
  {
  }

  /** What the version, the method and the two fields decide. */
  lemma Decided(a: Machine, h: Machine, q: Request)
    requires IsNum(q.major) && IsNum(q.minor) && (q.connection.Some? ==> ValueOk(q.connection.value))
    requires a.major == Digit(q.major) && a.minor == Digit(q.minor)
    requires h.major == a.major && h.minor == a.minor && h.requestMethod == q.verb
    requires h.flags == FramedFlags(FlagsOf(q), q.payload)
    ensures ShouldKeepAlive(h) == KeepsAlive(q) && Asked(h) == Upgrades(q)
  {
    DigitZero(q.major);
    DigitZero(q.minor);
    FlagsNamed(q);
    FramedOthers(FlagsOf(q), q.payload);
    hide FlagsOf, Names, ValueOk, IsNum, Digit, FramedFlags;
  }

  lemma DigitZero(ch: Byte)
    requires IsNum(ch)
    ensures Digit(ch) > 0 <==> ch != '0'
  {
  }

  lemma FramedOthers(f: Flags, p: Payload)
    ensures var g := FramedFlags(f, p);
            g.close == f.close && g.keepAlive == f.keepAlive && g.connectionUpgrade == f.connectionUpgrade &&
            g.upgrade == f.upgrade
  {
  }

  /** The flags are the keywords that the Connection field names, and the Upgrade field. */
  lemma FlagsNamed(q: Request)
    requires q.connection.Some? ==> ValueOk(q.connection.value)
    ensures var f := FlagsOf(q);
            && (f.close <==> Names(q, "close")) && (f.keepAlive <==> Names(q, "keep-alive"))
            && (f.connectionUpgrade <==> Names(q, "upgrade")) && (f.upgrade <==> q.protocol.Some?)
  {
    hide Found, ReadOptions, Visible, F.PlainByte;
    if q.connection.Some? {
      VisibleExact(q.connection.value, CLOSE);
      VisibleExact(q.connection.value, KEEP_ALIVE);
      VisibleExact(q.connection.value, UPGRADE);
    }
  }

  lemma ConnectUpgrades(q: Request)
    ensures q.verb.CONNECT? ==> Upgrades(q)
  {
    hide Names;
  }

  lemma RenderMeaning(t: Trace, q: Request)
    ensures t + [MessageBegin, Url(q.target)] + RenderHeaders(F.Pairs(q.fields)) + RenderHeaders(Specials(q)) +
            [HeadersComplete] + RenderContent(Meaning(q).content) + [MessageComplete] == t + Render(Meaning(q))
  {
    hide RenderContent, RenderHeaders, Specials;
    HeadersConcat(F.Pairs(q.fields), Specials(q));
    var head := [MessageBegin, Url(q.target)] + RenderHeaders(F.Pairs(q.fields) + Specials(q));
    assert Render(Meaning(q)) == head + [HeadersComplete] + RenderContent(Meaning(q).content) + [MessageComplete];
  }

  // What follows a request

  /** Nothing of a request is left when the connection is handed over with its head. */
  lemma PayloadStopped(m: Machine, q: Request)
    requires m.errno == OK && !m.exited && Stopped(StepHeadersDone(m)) && PayloadOk(q.payload)
    requires m.requestMethod.CONNECT? ==> q.payload.Empty?
    requires match q.payload
             case Empty => true
             case Sized(_, bytes) => !m.flags.chunked && m.contentLength == |bytes| < NO_LENGTH
             case Chunked(_, _, _, _) => m.flags.chunked
    ensures EncodePayload(q.payload) == []
  {
    hide PayloadOk;
  }

  /** When a request hands the connection over, what follows it is left to the other protocol. */
  lemma HandedOver(m: Machine, q: Request, rest: Bytes)
    requires m.state.StartReq? && !Stopped(m) && WellFormed(q) && m.nread + |EncodeHead(q)| <= MAX_HEADER_SIZE
    requires Upgrades(q)
    ensures var r := Run(m, Encode(q) + rest);
            r.upgrade && r.errno == OK && r.trace == m.trace + Render(Meaning(q))
    ensures Consumed(m, Encode(q) + rest) == |Encode(q)|
  {
    hide Run, Consumed, WellFormed, Encode, EncodeHead, Meaning, Render, KeepsAlive, Leftover, Upgrades;
    RequestRoundTrip(m, q);
    RunConcat(m, Encode(q), rest);
    RunStopped(Run(m, Encode(q)), rest);
  }

  /** When it closes the connection, only CR and LF may follow. */
  lemma Closed(m: Machine, q: Request, rest: Bytes)
    requires m.state.StartReq? && !Stopped(m) && WellFormed(q) && m.nread + |EncodeHead(q)| <= MAX_HEADER_SIZE
    requires !KeepsAlive(q) && !Upgrades(q) && Leftover(q) + |rest| <= MAX_HEADER_SIZE
    ensures var r := Run(m, Encode(q) + rest);
            && r.trace == m.trace + Render(Meaning(q))
            && r.errno == if forall i :: 0 <= i < |rest| ==> rest[i] == '\r' || rest[i] == '\n' then OK
                          else CLOSED_CONNECTION
  {
    hide Run, Consumed, WellFormed, Encode, EncodeHead, Meaning, Render, KeepsAlive, Leftover, Upgrades;
    RequestRoundTrip(m, q);
    RunConcat(m, Encode(q), rest);
    DeadIsSilent(Run(m, Encode(q)), rest);
  }

  function TwoFramings(digits: Bytes): Bytes {
    Line("Content-Length", digits) + (Line("Transfer-Encoding", "chunked") + [CR, LF])
  }

  /** A request that frames its payload in both ways is refused. */
  lemma BothFramings(m: Machine, q: Request, digits: Bytes)
    requires m.state.StartReq? && !Stopped(m) && WellFormed(q) && q.payload.Chunked?
    requires digits != [] && Digits(digits) && Decimal(digits) <= MAX_DECIMAL
    requires m.nread + |RequestLine(q) + TwoFramings(digits)| <= MAX_HEADER_SIZE
    ensures Run(m, RequestLine(q) + TwoFramings(digits)).errno == UNEXPECTED_CONTENT_LENGTH
  {
    hide Run, Consumed, Step, PayloadOk, TargetOk, F.WellFormed, ValueOk, RequestLine, Line, LastIs, Digits, Decimal;
    LineRun(m, q);
    var a := Run(m, RequestLine(q));
    LastUrl(m.trace, q.target);
    LineStarts("Transfer-Encoding");
    LineStarts("Content-Length");
    var c := Line("Transfer-Encoding", "chunked") + [CR, LF];
    var b := Line("Content-Length", digits) + c;
    RunConcat(m, RequestLine(q), b);
    var x := LengthReads(a, digits, c[0]);
    ReadOn(a, Line("Content-Length", digits), x, c);
    LastValue(a.trace, "Content-Length", digits);
    var y := CodingReads(x, CR);
    ReadOn(x, Line("Transfer-Encoding", "chunked"), y, [CR, LF]);
    BothRefused(y);
  }

  lemma BothRefused(m: Machine)
    requires m.state.HeaderFieldStart? && !Stopped(m) && m.nread + 2 <= MAX_HEADER_SIZE
    requires !m.flags.trailing && m.flags.chunked && m.flags.contentLength
    ensures Run(m, [CR, LF]).errno == UNEXPECTED_CONTENT_LENGTH
  {
    hide Run, Consumed, Step;
    EmptyLine(m);
    C.StepLine(Step(m, CR));
    RunConcat(m, [CR], [LF]);
    RunOne(m, CR);
    RunOne(Step(m, CR), LF);
    assert [CR] + [LF] == [CR, LF];
  }

  // Any number of requests, and any cuts

  function EncodeRequests(qs: seq<Request>): Bytes {
    if qs == [] then [] else EncodeRequests(qs[..|qs| - 1]) + Encode(qs[|qs| - 1])
  }

  function Meanings(qs: seq<Request>): (ms: seq<Message>)
    ensures |ms| == |qs|
  {
    seq(|qs|, i requires 0 <= i < |qs| => Meaning(qs[i]))
  }

  /** Requests on one connection, whose header bytes were counted from nread on: each one but the last keeps the
      connection open and in this protocol, and no head is too long. */
  predicate Pipelined(nread: nat, qs: seq<Request>) {
    && (forall i :: 0 <= i < |qs| ==> WellFormed(qs[i]))
    && (forall i :: 0 <= i < |qs| - 1 ==> KeepsAlive(qs[i]) && !Upgrades(qs[i]))
    && forall i :: 0 <= i < |qs| ==> FitsLimit(nread, qs, i)
  }

  predicate FitsLimit(nread: nat, qs: seq<Request>, i: nat)
    requires i < |qs|
  {
    (if i == 0 then nread else Leftover(qs[i - 1])) + |EncodeHead(qs[i])| <= MAX_HEADER_SIZE
  }

  lemma PipelinedFront(nread: nat, qs: seq<Request>)
    requires Pipelined(nread, qs) && qs != []
    ensures var n := |qs| - 1;
            && Pipelined(nread, qs[..n]) && WellFormed(qs[n])
            && (n > 0 ==> KeepsAlive(qs[n - 1]) && !Upgrades(qs[n - 1]))
            && (if n == 0 then nread else Leftover(qs[n - 1])) + |EncodeHead(qs[n])| <= MAX_HEADER_SIZE
  {
    hide WellFormed, EncodeHead, Leftover, KeepsAlive, Upgrades;
    var front := qs[..|qs| - 1];
    forall i | 0 <= i < |front| ensures FitsLimit(nread, front, i) {
      assert FitsLimit(nread, qs, i);
    }
    assert FitsLimit(nread, qs, |qs| - 1);
  }

  /** The requests are reported as the messages they are, one after another, in full; the last one decides what
      becomes of the connection. */
  lemma {:induction false} RequestsRoundTrip(m: Machine, qs: seq<Request>)
    requires m.state.StartReq? && !Stopped(m) && Pipelined(m.nread, qs)
    ensures var r := Run(m, EncodeRequests(qs));
            && r.errno == OK && r.trace == m.trace + RenderAll(Meanings(qs))
            && (r.exited <==> qs != [] && Upgrades(qs[|qs| - 1]))
            && r.state == (if qs == [] || KeepsAlive(qs[|qs| - 1]) then StartReq else Dead)
            && r.nread == if qs == [] then m.nread else Leftover(qs[|qs| - 1])
    ensures Consumed(m, EncodeRequests(qs)) == |EncodeRequests(qs)|
    decreases |qs|
  {
    hide Run, Consumed, WellFormed, Encode, EncodeHead, Meaning, Render, Leftover, KeepsAlive, Upgrades, Pipelined,
      RenderAll;
    if qs == [] {
      RunNil(m);
      AllNone();
      assert m.trace + [] == m.trace;
    } else {
      var n := |qs| - 1;
      var front := EncodeRequests(qs[..n]);
      PipelinedFront(m.nread, qs);
      RequestsRoundTrip(m, qs[..n]);
      RequestRoundTrip(Run(m, front), qs[n]);
      RunConcat(m, front, Encode(qs[n]));
      assert Meanings(qs) == Meanings(qs[..n]) + [Meaning(qs[n])];
      AllSnoc(Meanings(qs[..n]), Meaning(qs[n]));
    }
  }

  /** However the bytes of some requests are cut into buffers, a new parser reports the messages that they are,
      consumes all the bytes, and tells whether the connection is handed over. */
  method ParseRequests(qs: seq<Request>, pieces: seq<Bytes>) returns (p: Parser, n: nat, exit: bool)
    requires Pipelined(0, qs) && Concat(pieces) == EncodeRequests(qs)
    requires forall i :: 0 <= i < |pieces| ==> pieces[i] != [] && |pieces[i]| + MAX_HEADER_SIZE < TWO_32
    ensures p.errno == OK && n == |EncodeRequests(qs)|
    ensures exit <==> qs != [] && Upgrades(qs[|qs| - 1])
    ensures p.state == if qs == [] || KeepsAlive(qs[|qs| - 1]) then StartReq else Dead
    ensures Canon(p.callbacks) == RenderAll(Meanings(qs))
  {
    hide Run, Consumed, Pipelined, EncodeRequests, Meanings, RenderAll, Concat, Upgrades, KeepsAlive;
    p := new Parser();
    n, exit := Feed(p, pieces);
    RequestsRoundTrip(INIT, qs);
    var all := RenderAll(Meanings(qs));
    assert [] + all == all;
  }

  // Single requests

  const SMALLEST := Request(GET, "/", '1', '1', [], None, None, Empty)

  /** The smallest request is one of them. */
  lemma Smallest()
    ensures Pipelined(0, [SMALLEST, SMALLEST]) && Encode(SMALLEST) == "GET / HTTP/1.1\r\n\r\n"
  {
    hide WellFormed, KeepsAlive, Upgrades;
    SmallestOk();
    SmallestBytes();
    assert EncodeHead(SMALLEST) == Encode(SMALLEST);
  }

  lemma SmallestOk()
    ensures WellFormed(SMALLEST) && KeepsAlive(SMALLEST) && !Upgrades(SMALLEST)
  {
    assert "/"[..0] == [] && "/"[0] == '/';
    assert O.Walk(false, "/").0 == ReqPath;
  }

  lemma SmallestBytes()
    ensures Encode(SMALLEST) == "GET / HTTP/1.1\r\n\r\n"
  {
    assert F.EncodeAll([]) == [];
    assert MethodName(GET) == "GET";
    hide MethodName;
  }

  /** A value that is one word. */
  lemma OneWord(value: Bytes, word: Bytes)
    requires value != [] && value[0] !in " \t" && value[|value| - 1] !in " \t"
    requires forall i :: 0 <= i < |value| ==> value[i] != ',' && value[i] != '\t'
    ensures Visible(value, word) <==> LowerBytes(value) == word
  {
    hide LowerBytes;
    var ps := Pieces(value);
    assert CommaAt(value) == |value|;
    assert ps == [value] && Element(value) == value;
  }

  function GetWith(protocol: Option<Bytes>, connection: Option<Bytes>): Request {
    Request(GET, "/", '1', '1', [], protocol, connection, Empty)
  }

  const SAID_CLOSE: Bytes := "GET / HTTP/1.1\r\n" + "Connection: close\r\n\r\n"

  const SAID_KEEP: Bytes := "GET / HTTP/1.1\r\n" + "Connection: keep-alive\r\n\r\n"

  const SAID_UPGRADE: Bytes :=
    "GET / HTTP/1.1\r\n" + ("Upgrade: websocket\r\n" + "Connection: Upgrade\r\n\r\n")

  /** A request that closes the connection: what follows is refused. */
  lemma CloseEnds(rest: Bytes)
    requires rest != [] && rest[0] != CR && rest[0] != LF && |rest| <= MAX_HEADER_SIZE
    ensures var data := Encode(GetWith(None, Some("close")));
            Run(INIT, data).state.Dead? && Run(INIT, data + rest).errno == CLOSED_CONNECTION
  {
    hide Run, Consumed, WellFormed, KeepsAlive, Upgrades, Encode, EncodeHead, Meaning, Render;
    CloseOk();
    ClosedNext(INIT, GetWith(None, Some("close")), rest);
  }

  lemma CloseOk()
    ensures var q := GetWith(None, Some("close"));
            WellFormed(q) && !KeepsAlive(q) && !Upgrades(q) && |EncodeHead(q)| <= 100
  {
    hide WellFormed, KeepsAlive, Upgrades, Encode, EncodeHead;
    WordsFormed();
    WordsDecide();
    CloseBytes();
  }

  lemma CloseBytes()
    ensures var q := GetWith(None, Some("close"));
            Encode(q) == EncodeHead(q) == SAID_CLOSE && |EncodeHead(q)| <= 100
  {
    hide Encode, EncodeHead;
    GetWritten(None, Some("close"));
    CloseFields();
  }

  lemma ClosedNext(m: Machine, q: Request, rest: Bytes)
    requires m.state.StartReq? && !Stopped(m) && WellFormed(q) && m.nread + |EncodeHead(q)| <= MAX_HEADER_SIZE
    requires !KeepsAlive(q) && !Upgrades(q) && Leftover(q) + |rest| <= MAX_HEADER_SIZE
    requires rest != [] && rest[0] != CR && rest[0] != LF
    ensures Run(m, Encode(q)).state.Dead? && Run(m, Encode(q) + rest).errno == CLOSED_CONNECTION
  {
    hide Run, Consumed, WellFormed, Encode, EncodeHead, Meaning, Render, KeepsAlive, Leftover, Upgrades;
    RequestRoundTrip(m, q);
    Closed(m, q, rest);
  }

  /** One that keeps it. */
  lemma KeepGoesOn()
    ensures Run(INIT, SAID_KEEP).state.StartReq?
  {
    hide Run, Consumed, WellFormed, KeepsAlive, Upgrades, Encode, EncodeHead, Meaning, Render;
    WordsFormed();
    WordsDecide();
    GetWritten(None, Some("keep-alive"));
    KeepFields();
    RequestRoundTrip(INIT, GetWith(None, Some("keep-alive")));
  }

  /** One that hands it over. */
  lemma UpgradeHands(rest: Bytes)
    ensures Run(INIT, SAID_UPGRADE + rest).upgrade && Consumed(INIT, SAID_UPGRADE + rest) == |SAID_UPGRADE|
  {
    hide Run, Consumed, WellFormed, KeepsAlive, Upgrades, Encode, EncodeHead, Meaning, Render;
    WordsFormed();
    WordsDecide();
    GetWritten(Some("websocket"), Some("Upgrade"));
    UpgradeFields();
    HandedOver(INIT, GetWith(Some("websocket"), Some("Upgrade")), rest);
  }

  lemma WordsFormed()
    ensures WellFormed(GetWith(None, Some("close"))) && WellFormed(GetWith(None, Some("keep-alive")))
    ensures WellFormed(GetWith(Some("websocket"), Some("Upgrade")))
  {
    SmallestOk();
    hide TargetOk;
    WordValues();
    hide ValueOk;
  }

  lemma WordValues()
    ensures ValueOk("close") && ValueOk("keep-alive") && ValueOk("websocket") && ValueOk("Upgrade")
  {
  }

  lemma WordsDecide()
    ensures !KeepsAlive(GetWith(None, Some("close"))) && KeepsAlive(GetWith(None, Some("keep-alive")))
    ensures !Upgrades(GetWith(None, Some("close"))) && !Upgrades(GetWith(None, Some("keep-alive")))
    ensures Upgrades(GetWith(Some("websocket"), Some("Upgrade")))
  {
    hide Visible;
    OneWord("close", "close");
    OneWord("keep-alive", "close");
    OneWord("Upgrade", "upgrade");
    WordCases();
    hide LowerBytes;
  }

  lemma WordCases()
    ensures LowerBytes("close") == "close" && LowerBytes("keep-alive") != "close" && LowerBytes("Upgrade") == "upgrade"
  {
    assert |LowerBytes("keep-alive")| == 10;
  }

  lemma GetWritten(protocol: Option<Bytes>, connection: Option<Bytes>)
    ensures var q := GetWith(protocol, connection);
            Encode(q) == EncodeHead(q) == "GET / HTTP/1.1\r\n" + EncodeSpecials(q)
  {
    hide EncodeSpecials, MethodName;
    var q := GetWith(protocol, connection);
    NoFields();
    var s := EncodeSpecials(q);
    assert EncodeHead(q) == "GET" + [' '] + "/" + [' '] + Version(q) + s;
    GetLine();
    assert Version(q) == "HTTP/" + ['1'] + "." + ['1'] + [CR, LF];
  }

  lemma NoFields()
    ensures F.EncodeAll([]) == [] && MethodName(GET) == "GET"
  {
  }

  lemma GetLine()
    ensures "GET" + [' '] + "/" + [' '] + ("HTTP/" + ['1'] + "." + ['1'] + [CR, LF]) == "GET / HTTP/1.1\r\n"
  {
  }

  lemma CloseFields()
    ensures EncodeSpecials(GetWith(None, Some("close"))) == "Connection: close\r\n\r\n"
  {
  }

  lemma KeepFields()
    ensures EncodeSpecials(GetWith(None, Some("keep-alive"))) == "Connection: keep-alive\r\n\r\n"
  {
  }

  lemma UpgradeFields()
    ensures EncodeSpecials(GetWith(Some("websocket"), Some("Upgrade"))) ==
            "Upgrade: websocket\r\n" + "Connection: Upgrade\r\n\r\n"
  {
    hide Line;
    assert Line("Upgrade", "websocket") == "Upgrade: websocket\r\n" by {
      LineBytes("Upgrade", "websocket");
    }
    assert Line("Connection", "Upgrade") + ([] + [CR, LF]) == "Connection: Upgrade\r\n\r\n" by {
      LineBytes("Connection", "Upgrade");
    }
  }

  lemma LineBytes(name: Bytes, value: Bytes)
    ensures Line(name, value) == name + ": " + value + "\r\n"
  {
  }
}
