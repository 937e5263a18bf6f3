/** Reading the fields that the parser looks for: what each of them, as it is sent, tells the machine. */
module HttpSpecials {
  import opened HttpTypes
  import opened HttpMachine
  import opened HttpKeywords
  import opened HttpLengths
  import opened HttpList
  import opened HttpConnection
  import F = HttpFields

  const LENGTH_NAME: Bytes := "Content-Length"
  const CODING_NAME: Bytes := "Transfer-Encoding"
  const CONNECTION_NAME: Bytes := "Connection"
  const UPGRADE_NAME: Bytes := "Upgrade"

  /** A field with one space behind the colon. */
  function Line(name: Bytes, value: Bytes): Bytes { name + [':', ' '] + value + [CR, LF] }

  predicate ValueOk(value: Bytes) {
    value != [] && value[0] !in " \t" && forall i :: 0 <= i < |value| ==> F.PlainByte(value[i])
  }

  /** A name of letters and hyphens, a colon and a space. */
  lemma NamedRun(m: Machine, name: Bytes)
    requires m.state.HeaderFieldStart? && !Stopped(m) && TokenName(name) && m.nread + |name| + 2 <= MAX_HEADER_SIZE
    ensures var r := Run(m, name + [':', ' ']);
            && r == m.(state := HeaderValueDiscardWs, nread := m.nread + |name| + 2, index := r.index,
                       headerState := r.headerState, trace := Push(m.trace, Field(name)))
            && r.headerState == NameClass(LowerName(name))
  {
    hide Run, Consumed, Step, Push, NameClass, LowerName, TokenName;
    NameExact(m, name);
    var r := Run(m, name);
    F.ColonByte(r);
    RunOne(r, ':');
    RunConcat(m, name, [':']);
    BlanksRun(Run(m, name + [':']), [' ']);
    RunConcat(m, name + [':'], [' ']);
    assert name + [':'] + [' '] == name + [':', ' '];
  }

  lemma SpecialNames()
    ensures TokenName(LENGTH_NAME) && NameClass(LowerName(LENGTH_NAME)) == ContentLength
    ensures TokenName(CODING_NAME) && NameClass(LowerName(CODING_NAME)) == TransferEncoding
    ensures TokenName(CONNECTION_NAME) && NameClass(LowerName(CONNECTION_NAME)) == Connection
    ensures TokenName(UPGRADE_NAME) && NameClass(LowerName(UPGRADE_NAME)) == Upgrade
  {
    hide IsToken, TokenChar, LowerName, NameClass;
    LengthNameLower();
    CodingNameLower();
    ShortNamesLower();
    SpecialClasses();
  }

  lemma LengthNameLower()
    ensures TokenName(LENGTH_NAME) && LowerName(LENGTH_NAME) == CONTENT_LENGTH
  {
  }

  lemma CodingNameLower()
    ensures TokenName(CODING_NAME) && LowerName(CODING_NAME) == TRANSFER_ENCODING
  {
    CodingNameToken();
    hide TokenName;
  }

  lemma CodingNameToken()
    ensures TokenName(CODING_NAME)
  {
  }

  lemma ShortNamesLower()
    ensures TokenName(CONNECTION_NAME) && LowerName(CONNECTION_NAME) == CONNECTION
    ensures TokenName(UPGRADE_NAME) && LowerName(UPGRADE_NAME) == UPGRADE
  {
    ShortNamesToken();
    hide TokenName;
  }

  lemma ShortNamesToken()
    ensures TokenName(CONNECTION_NAME) && TokenName(UPGRADE_NAME)
  {
  }

  /** A proxy's field is read like one of the connection. */
  lemma ProxyName()
    ensures TokenName("Proxy-Connection") && NameClass(LowerName("Proxy-Connection")) == Connection
  {
    ProxyLower();
    hide Starts, LowerName, TokenName;
    assert |CONNECTION| == 10 && |PROXY_CONNECTION| == 16 && |CONTENT_LENGTH| == 14 && |TRANSFER_ENCODING| == 17;
    assert |UPGRADE| == 7;
  }

  lemma ProxyLower()
    ensures TokenName("Proxy-Connection") && LowerName("Proxy-Connection") == PROXY_CONNECTION
  {
    ProxyToken();
    hide TokenName;
  }

  lemma ProxyToken()
    ensures TokenName("Proxy-Connection")
  {
  }

  lemma SpecialClasses()
    ensures NameClass(CONTENT_LENGTH) == ContentLength && NameClass(TRANSFER_ENCODING) == TransferEncoding
    ensures NameClass(CONNECTION) == Connection && NameClass(UPGRADE) == Upgrade
  {
    hide Starts;
    assert |CONNECTION| == 10 && |PROXY_CONNECTION| == 16 && |CONTENT_LENGTH| == 14 && |TRANSFER_ENCODING| == 17;
    assert |UPGRADE| == 7;
  }

  // The end of a value

  lemma NextLine(m: Machine, ch: Byte)
    requires m.state.HeaderValueLws? && !Stopped(m) && ch !in " \t" && m.nread < MAX_HEADER_SIZE
    ensures Step(m, ch) == Step(m.(state := HeaderFieldStart, flags := ValueFlags(m.headerState, m.flags)), ch)
  {
    hide StepFieldStart, ValueFlags;
  }

  /** What has been read of a field when its value ends decides what the next line begins with. */
  lemma LineReads(m: Machine, name: Bytes, value: Bytes, ch: Byte) returns (r: Machine)
    requires var v := Run(m, name + [':', ' '] + value);
             v.state.HeaderValue? && !Stopped(v) && v.nread + 2 < MAX_HEADER_SIZE
    requires ch !in " \t"
    ensures Run(m, Line(name, value) + [ch]) == Step(r, ch)
    ensures var v := Run(m, name + [':', ' '] + value);
            r == v.(state := HeaderFieldStart, nread := v.nread + 2, flags := ValueFlags(v.headerState, v.flags))
  {
    hide Run, Consumed, Step, ValueFlags;
    var front := name + [':', ' '] + value;
    var v := Run(m, front);
    LineEnd(v, [CR, LF]);
    RunConcat(m, front, [CR, LF]);
    var e := Run(m, front + [CR, LF]);
    RunConcat(m, front + [CR, LF], [ch]);
    RunOne(e, ch);
    NextLine(e, ch);
    r := e.(state := HeaderFieldStart, flags := ValueFlags(e.headerState, e.flags));
  }

  // Content-Length

  lemma {:induction false} LengthRun(m: Machine, ds: Bytes)
    requires m.state.HeaderValueDiscardWs? && !Stopped(m) && m.headerState.ContentLength? && !m.flags.contentLength
    requires ds != [] && Digits(ds) && Decimal(ds) <= MAX_DECIMAL && m.nread + |ds| <= MAX_HEADER_SIZE
    ensures Run(m, ds) ==
            m.(state := HeaderValue, nread := m.nread + |ds|, index := 0, headerState := ContentLengthNum,
               flags := m.flags.(contentLength := true), contentLength := Decimal(ds),
               trace := Push(m.trace, Value(ds)))
  {
    hide Run, Consumed, Step, Push, IsNum;
    var n := |ds| - 1;
    assert ds == ds[..n] + [ds[n]];
    RunConcat(m, ds[..n], [ds[n]]);
    if n == 0 {
      assert ds == [ds[0]];
      RunOne(m, ds[0]);
      LengthFirst(m, ds[0]);
      DecimalOne(ds[0]);
    } else {
      LengthRun(m, ds[..n]);
      var r := Run(m, ds[..n]);
      RunOne(r, ds[n]);
      LengthNext(r, ds[n]);
      PushJoin(m.trace, Value(ds[..n]), Value([ds[n]]));
    }
  }

  lemma LengthFirst(m: Machine, ch: Byte)
    requires m.state.HeaderValueDiscardWs? && !Stopped(m) && m.headerState.ContentLength? && !m.flags.contentLength
    requires IsNum(ch) && m.nread < MAX_HEADER_SIZE
    ensures Step(m, ch) ==
            m.(state := HeaderValue, nread := m.nread + 1, index := 0, headerState := ContentLengthNum,
               flags := m.flags.(contentLength := true), contentLength := Digit(ch),
               trace := Push(m.trace, Value([ch])))
  {
    hide Push, Lower;
  }

  lemma LengthNext(m: Machine, ch: Byte)
    requires m.state.HeaderValue? && !Stopped(m) && m.headerState.ContentLengthNum?
    requires IsNum(ch) && 10 * m.contentLength + Digit(ch) <= MAX_DECIMAL && m.nread < MAX_HEADER_SIZE
    ensures Step(m, ch) == m.(nread := m.nread + 1, contentLength := 10 * m.contentLength + Digit(ch),
                              trace := Push(m.trace, Value([ch])))
  {
    hide Push, Lower;
    assert IsHeaderChar(ch);
  }

  lemma LengthReads(m: Machine, digits: Bytes, ch: Byte) returns (r: Machine)
    requires m.state.HeaderFieldStart? && !Stopped(m) && !m.flags.contentLength && !LastIs(m.trace, Field([]))
    requires digits != [] && Digits(digits) && Decimal(digits) <= MAX_DECIMAL
    requires m.nread + |Line(LENGTH_NAME, digits)| < MAX_HEADER_SIZE && ch !in " \t"
    ensures Run(m, Line(LENGTH_NAME, digits) + [ch]) == Step(r, ch)
    ensures r == m.(nread := m.nread + |Line(LENGTH_NAME, digits)|, index := r.index, headerState := r.headerState,
                    flags := m.flags.(contentLength := true), contentLength := Decimal(digits),
                    trace := m.trace + [Field(LENGTH_NAME), Value(digits)])
  {
    hide Run, Consumed, Step, Push, Digits, Decimal, NameClass, LowerName, TokenName;
    SpecialNames();
    NamedRun(m, LENGTH_NAME);
    var front := LENGTH_NAME + [':', ' '];
    LengthRun(Run(m, front), digits);
    RunConcat(m, front, digits);
    F.PushTwo(m.trace, LENGTH_NAME, digits);
    r := LineReads(m, LENGTH_NAME, digits, ch);
  }

  // Transfer-Encoding

  lemma CodingReads(m: Machine, ch: Byte) returns (r: Machine)
    requires m.state.HeaderFieldStart? && !Stopped(m) && !LastIs(m.trace, Field([])) && ch !in " \t"
    requires m.nread + |Line(CODING_NAME, "chunked")| < MAX_HEADER_SIZE
    ensures Run(m, Line(CODING_NAME, "chunked") + [ch]) == Step(r, ch)
    ensures r == m.(nread := m.nread + |Line(CODING_NAME, "chunked")|, index := r.index, headerState := r.headerState,
                    flags := m.flags.(chunked := true), trace := m.trace + [Field(CODING_NAME), Value("chunked")])
  {
    hide Run, Consumed, Step, Push, NameClass, LowerName, TokenName, Spells, CodingClass;
    SpecialNames();
    NamedRun(m, CODING_NAME);
    var front := CODING_NAME + [':', ' '];
    ChunkedWord();
    ChunkedExact(Run(m, front), "chunked");
    RunConcat(m, front, "chunked");
    F.PushTwo(m.trace, CODING_NAME, "chunked");
    r := LineReads(m, CODING_NAME, "chunked", ch);
  }

  lemma ChunkedWord()
    ensures ValueBytes("chunked") && Spells("chunked", CHUNKED)
  {
    assert LowerBytes("chunked") == "chunked" && "chunked"[..|CHUNKED|] == "chunked";
  }

  // Upgrade

  lemma {:induction false} UpgradeRun(m: Machine, value: Bytes)
    requires m.state.HeaderValueDiscardWs? && !Stopped(m) && m.headerState.Upgrade? && ValueOk(value)
    requires m.nread + |value| <= MAX_HEADER_SIZE
    ensures Run(m, value) == m.(state := HeaderValue, nread := m.nread + |value|, index := 0, headerState := General,
                                flags := m.flags.(upgrade := true), trace := Push(m.trace, Value(value)))
  {
    hide Run, Consumed, Step, Push, F.PlainByte;
    var n := |value| - 1;
    assert value == value[..n] + [value[n]];
    RunConcat(m, value[..n], [value[n]]);
    if n == 0 {
      RunOne(m, value[0]);
      UpgradeFirst(m, value[0]);
      assert value == [value[0]];
    } else {
      UpgradeRun(m, value[..n]);
      var r := Run(m, value[..n]);
      RunOne(r, value[n]);
      F.ValueNext(r, value[n]);
      PushJoin(m.trace, Value(value[..n]), Value([value[n]]));
    }
  }

  lemma UpgradeFirst(m: Machine, ch: Byte)
    requires m.state.HeaderValueDiscardWs? && !Stopped(m) && m.headerState.Upgrade?
    requires ch !in " \t" && F.PlainByte(ch) && m.nread < MAX_HEADER_SIZE
    ensures Step(m, ch) == m.(state := HeaderValue, nread := m.nread + 1, index := 0, headerState := General,
                              flags := m.flags.(upgrade := true), trace := Push(m.trace, Value([ch])))
  {
    hide Push, Lower, IsHeaderChar;
  }

  lemma UpgradeReads(m: Machine, value: Bytes, ch: Byte) returns (r: Machine)
    requires m.state.HeaderFieldStart? && !Stopped(m) && !LastIs(m.trace, Field([])) && ValueOk(value) && ch !in " \t"
    requires m.nread + |Line(UPGRADE_NAME, value)| < MAX_HEADER_SIZE
    ensures Run(m, Line(UPGRADE_NAME, value) + [ch]) == Step(r, ch)
    ensures r == m.(nread := m.nread + |Line(UPGRADE_NAME, value)|, index := r.index, headerState := r.headerState,
                    flags := m.flags.(upgrade := true), trace := m.trace + [Field(UPGRADE_NAME), Value(value)])
  {
    hide Run, Consumed, Step, Push, NameClass, LowerName, TokenName, ValueOk;
    SpecialNames();
    NamedRun(m, UPGRADE_NAME);
    var front := UPGRADE_NAME + [':', ' '];
    UpgradeRun(Run(m, front), value);
    RunConcat(m, front, value);
    F.PushTwo(m.trace, UPGRADE_NAME, value);
    r := LineReads(m, UPGRADE_NAME, value, ch);
  }

  // Connection

  /** The header states inside the value of a Connection header. */
  predicate Optional(h: HeaderState) {
    OptionState(h) || h.MatchingConnectionTokenStart?
  }

  /** The bytes of the value change the matcher and the flags only. */
  lemma {:induction false} ConnectionFrame(m: Machine, value: Bytes)
    requires m.state.HeaderValueDiscardWs? && !Stopped(m) && m.headerState.Connection? && ValueOk(value)
    requires m.nread + |value| <= MAX_HEADER_SIZE
    ensures var r := Run(m, value);
            && r == m.(state := HeaderValue, nread := m.nread + |value|, index := r.index,
                       headerState := r.headerState, flags := r.flags, trace := Push(m.trace, Value(value)))
            && Optional(r.headerState)
  {
    hide Run, Consumed, Step, Push, F.PlainByte, Optional;
    var n := |value| - 1;
    assert value == value[..n] + [value[n]];
    RunConcat(m, value[..n], [value[n]]);
    if n == 0 {
      RunOne(m, value[0]);
      FrameFirst(m, value[0]);
      assert value == [value[0]];
    } else {
      ConnectionFrame(m, value[..n]);
      var r := Run(m, value[..n]);
      RunOne(r, value[n]);
      FrameNext(r, value[n]);
      PushJoin(m.trace, Value(value[..n]), Value([value[n]]));
    }
  }

  lemma FrameFirst(m: Machine, ch: Byte)
    requires m.state.HeaderValueDiscardWs? && !Stopped(m) && m.headerState.Connection?
    requires ch !in " \t" && F.PlainByte(ch) && m.nread < MAX_HEADER_SIZE
    ensures var r := Step(m, ch);
            && r == m.(state := HeaderValue, nread := m.nread + 1, index := 0, headerState := r.headerState,
                       trace := Push(m.trace, Value([ch])))
            && Optional(r.headerState)
  {
    hide Push, Lower, IsHeaderChar;
  }

  lemma FrameNext(m: Machine, ch: Byte)
    requires m.state.HeaderValue? && !Stopped(m) && Optional(m.headerState) && F.PlainByte(ch)
    requires m.nread < MAX_HEADER_SIZE
    ensures var r := Step(m, ch);
            && r == m.(nread := m.nread + 1, index := r.index, headerState := r.headerState, flags := r.flags,
                       trace := Push(m.trace, Value([ch])))
            && Optional(r.headerState)
  {
    hide Step, Push, Optional;
    ValueStep(m, ch);
    FrameByte(m.(nread := m.nread + 1), ch);
  }

  lemma ValueStep(m: Machine, ch: Byte)
    requires m.state.HeaderValue? && !Stopped(m) && F.PlainByte(ch) && m.nread < MAX_HEADER_SIZE
    ensures var r := ValueByte(m.(nread := m.nread + 1), ch);
            Step(m, ch) == if r.errno != OK then r else Emit(r, Value([ch]))
  {
    hide ValueByte, IsHeaderChar, Push;
  }

  lemma FrameByte(m: Machine, ch: Byte)
    requires m.errno == OK && Optional(m.headerState)
    ensures var r := ValueByte(m, ch);
            && r == m.(index := r.index, headerState := r.headerState, flags := r.flags)
            && Optional(r.headerState)
  {
    hide Lower, IsToken, ValueFlags;
  }

  lemma ConnectionRun(m: Machine, value: Bytes)
    requires m.state.HeaderValueDiscardWs? && !Stopped(m) && m.headerState.Connection? && ValueOk(value)
    requires m.nread + |value| <= MAX_HEADER_SIZE
    ensures var r := Run(m, value);
            && r == m.(state := HeaderValue, nread := m.nread + |value|, index := r.index,
                       headerState := r.headerState, flags := r.flags, trace := Push(m.trace, Value(value)))
            && ValueFlags(r.headerState, r.flags) == Noted(m.flags, ReadOptions(true, [], value))
  {
    hide Run, Consumed, Step, Push, Optional, ReadOptions, Noted, Within, ValueFlags;
    ConnectionFrame(m, value);
    ValuePlain(value);
    var s := Step(m, value[0]);
    ConnectionStarts(m, value[0]);
    OptionsRun(s, true, [value[0]], value[1..]);
    FirstOptions(value);
    RunConcat(m, [value[0]], value[1..]);
    RunOne(m, value[0]);
    assert [value[0]] + value[1..] == value;
    WithinGoes(s, true, [value[0]]);
    NotedAll(m.flags, Run(m, value), ReadOptions(true, [], value));
  }

  /** The flags of all options but the last have been set, and the last one is being read. */
  lemma NotedAll(f: Flags, r: Machine, os: seq<Bytes>)
    requires os != [] && Within(r, |os| == 1, os[|os| - 1]) && r.flags == Noted(f, os[..|os| - 1])
    ensures ValueFlags(r.headerState, r.flags) == Noted(f, os)
  {
    hide Within, Noted, ValueFlags;
    var n := |os| - 1;
    WithinNoted(r, n == 0, os[n]);
    NotedConcat(f, os[..n], [os[n]]);
    assert os == os[..n] + [os[n]];
  }

  lemma WithinGoes(m: Machine, first: bool, option: Bytes)
    requires Within(m, first, option)
    ensures !Stopped(m) && m.state.HeaderValue?
  {
    hide OptionClass;
  }

  lemma ValuePlain(value: Bytes)
    requires ValueOk(value)
    ensures value[0] !in " \t\r\n" && Plain(value[1..])
  {
    hide IsHeaderChar;
    assert forall i :: 0 <= i < |value| ==> F.PlainByte(value[i]);
  }

  /** A Connection field sets the flags of the keywords that are read in its value. */
  lemma ConnectionReads(m: Machine, value: Bytes, ch: Byte) returns (r: Machine)
    requires m.state.HeaderFieldStart? && !Stopped(m) && !LastIs(m.trace, Field([])) && ValueOk(value) && ch !in " \t"
    requires m.nread + |Line(CONNECTION_NAME, value)| < MAX_HEADER_SIZE
    ensures Run(m, Line(CONNECTION_NAME, value) + [ch]) == Step(r, ch)
    ensures r == m.(nread := m.nread + |Line(CONNECTION_NAME, value)|, index := r.index,
                    headerState := r.headerState, flags := Noted(m.flags, ReadOptions(true, [], value)),
                    trace := m.trace + [Field(CONNECTION_NAME), Value(value)])
  {
    hide Run, Consumed, Step, Push, NameClass, LowerName, TokenName, ValueOk, Noted, ReadOptions, ValueFlags;
    SpecialNames();
    NamedRun(m, CONNECTION_NAME);
    var front := CONNECTION_NAME + [':', ' '];
    ConnectionRun(Run(m, front), value);
    RunConcat(m, front, value);
    F.PushTwo(m.trace, CONNECTION_NAME, value);
    r := LineReads(m, CONNECTION_NAME, value, ch);
  }
}
