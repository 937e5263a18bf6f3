/** Reading header fields is the inverse of writing them, for names that mean nothing to the parser. */
module HttpFields {
  import opened HttpTypes
  import opened HttpMachine
  import opened HttpKeywords
  import opened HttpMessages

  /** A field as it is sent: a name, blanks behind the colon, and a value that begins with no blank. */
  datatype HeaderLine = HeaderLine(name: Bytes, blanks: Bytes, value: Bytes)

  /** The name is none of those that the parser looks for. */
  predicate Ordinary(name: Bytes) {
    LowerName(name) !in [CONNECTION, PROXY_CONNECTION, CONTENT_LENGTH, TRANSFER_ENCODING, UPGRADE]
  }

  predicate PlainByte(ch: Byte) { IsHeaderChar(ch) && ch != CR && ch != LF }

  predicate WellFormed(f: HeaderLine) {
    && TokenName(f.name) && Ordinary(f.name)
    && (forall i :: 0 <= i < |f.blanks| ==> f.blanks[i] in " \t")
    && (forall i :: 0 <= i < |f.value| ==> PlainByte(f.value[i])) && (f.value != [] ==> f.value[0] !in " \t")
  }

  function Encode(f: HeaderLine): Bytes { f.name + [':'] + f.blanks + f.value + [CR, LF] }

  function EncodeAll(fs: seq<HeaderLine>): Bytes {
    if fs == [] then [] else EncodeAll(fs[..|fs| - 1]) + Encode(fs[|fs| - 1])
  }

  /** The names and values. */
  function Pairs(fs: seq<HeaderLine>): (r: HeaderList)
    ensures |r| == |fs|
  {
    seq(|fs|, i requires 0 <= i < |fs| => (fs[i].name, fs[i].value))
  }

  // The name

  /** The header states behind a name that is not looked for. */
  predicate Unknown(h: HeaderState) {
    h.General? || h.C? || h.CO? || h.CON? || h.MatchingConnection? || h.MatchingProxyConnection? ||
    h.MatchingContentLength? || h.MatchingTransferEncoding? || h.MatchingUpgrade?
  }

  lemma OrdinaryClass(name: Bytes)
    requires Ordinary(name)
    ensures Unknown(NameClass(LowerName(name)))
  {
    hide Starts, LowerName;
  }

  lemma ColonByte(m: Machine)
    requires m.state.HeaderField? && !Stopped(m) && m.nread < MAX_HEADER_SIZE
    ensures Step(m, ':') == m.(state := HeaderValueDiscardWs, nread := m.nread + 1)
  {
  }

  /** A name, the colon and the blanks. */
  lemma NamedRun(m: Machine, f: HeaderLine)
    requires m.state.HeaderFieldStart? && !Stopped(m) && WellFormed(f)
    requires m.nread + |f.name| + 1 + |f.blanks| <= MAX_HEADER_SIZE
    ensures var r := Run(m, f.name + [':'] + f.blanks);
            && Unknown(r.headerState)
            && r == m.(state := HeaderValueDiscardWs, nread := m.nread + |f.name| + 1 + |f.blanks|, index := r.index,
                       headerState := r.headerState, trace := Push(m.trace, Field(f.name)))
  {
    hide Run, Consumed, Step, Push, NameClass, LowerName, Ordinary, Unknown, TokenName;
    NameExact(m, f.name);
    OrdinaryClass(f.name);
    var r := Run(m, f.name);
    ColonByte(r);
    RunOne(r, ':');
    RunConcat(m, f.name, [':']);
    BlanksRun(Run(m, f.name + [':']), f.blanks);
    RunConcat(m, f.name + [':'], f.blanks);
  }

  // The value

  lemma {:induction false} ValueRun(m: Machine, value: Bytes)
    requires m.state.HeaderValueDiscardWs? && !Stopped(m) && Unknown(m.headerState)
    requires value != [] && value[0] !in " \t" && forall i :: 0 <= i < |value| ==> PlainByte(value[i])
    requires m.nread + |value| <= MAX_HEADER_SIZE
    ensures Run(m, value) == m.(state := HeaderValue, nread := m.nread + |value|, index := 0, headerState := General,
                                trace := Push(m.trace, Value(value)))
  {
    hide Run, Consumed, Step, Push, PlainByte, Unknown;
    var n := |value| - 1;
    assert value == value[..n] + [value[n]];
    RunConcat(m, value[..n], [value[n]]);
    if n == 0 {
      RunOne(m, value[0]);
      ValueFirst(m, value[0]);
      assert value == [value[0]];
    } else {
      ValueRun(m, value[..n]);
      var r := Run(m, value[..n]);
      RunOne(r, value[n]);
      ValueNext(r, value[n]);
      PushJoin(m.trace, Value(value[..n]), Value([value[n]]));
    }
  }

  lemma ValueFirst(m: Machine, ch: Byte)
    requires m.state.HeaderValueDiscardWs? && !Stopped(m) && Unknown(m.headerState)
    requires ch !in " \t" && PlainByte(ch) && m.nread < MAX_HEADER_SIZE
    ensures Step(m, ch) == m.(state := HeaderValue, nread := m.nread + 1, index := 0, headerState := General,
                              trace := Push(m.trace, Value([ch])))
  {
    hide Push, Lower, IsHeaderChar;
  }

  lemma ValueNext(m: Machine, ch: Byte)
    requires m.state.HeaderValue? && !Stopped(m) && m.headerState.General? && PlainByte(ch)
    requires m.nread < MAX_HEADER_SIZE
    ensures Step(m, ch) == m.(nread := m.nread + 1, trace := Push(m.trace, Value([ch])))
  {
    hide Push, Lower, IsHeaderChar;
  }

  /** The next line begins as it would without this one, once its value is reported. */
  lemma NextByte(m: Machine, ch: Byte)
    requires m.state.HeaderValueLws? || m.state.HeaderValueDiscardLws?
    requires if m.state.HeaderValueLws? then m.headerState.General? else Unknown(m.headerState)
    requires !Stopped(m) && ch !in " \t" && m.nread < MAX_HEADER_SIZE
    ensures Step(m, ch) ==
            Step(m.(state := HeaderFieldStart,
                    trace := if m.state.HeaderValueLws? then m.trace else Push(m.trace, Value([]))), ch)
  {
    hide Step, Push, Unknown;
    if m.state.HeaderValueLws? {
      NextByteLws(m, ch);
    } else {
      NextByteDiscard(m, ch);
    }
  }

  lemma NextByteLws(m: Machine, ch: Byte)
    requires m.state.HeaderValueLws? && m.headerState.General?
    requires !Stopped(m) && ch !in " \t" && m.nread < MAX_HEADER_SIZE
    ensures Step(m, ch) == Step(m.(state := HeaderFieldStart), ch)
  {
    hide StepFieldStart;
  }

  lemma NextByteDiscard(m: Machine, ch: Byte)
    requires m.state.HeaderValueDiscardLws? && Unknown(m.headerState)
    requires !Stopped(m) && ch !in " \t" && m.nread < MAX_HEADER_SIZE
    ensures Step(m, ch) == Step(m.(state := HeaderFieldStart, trace := Push(m.trace, Value([]))), ch)
  {
    hide Push, StepFieldStart;
  }

  /** One field is reported as its name and its value. */
  lemma FieldReads(m: Machine, f: HeaderLine, ch: Byte) returns (r: Machine)
    requires m.state.HeaderFieldStart? && !Stopped(m) && !LastIs(m.trace, Field([])) && WellFormed(f)
    requires m.nread + |Encode(f)| < MAX_HEADER_SIZE && ch !in " \t"
    ensures r == m.(index := r.index, headerState := r.headerState, nread := m.nread + |Encode(f)|,
                    trace := m.trace + [Field(f.name), Value(f.value)])
    ensures Run(m, Encode(f) + [ch]) == Step(r, ch)
  {
    hide Run, Consumed, Step, Push, TokenName, Ordinary, PlainByte, Unknown;
    var front := f.name + [':'] + f.blanks;
    NamedRun(m, f);
    var s := Run(m, front);
    RunConcat(m, front, f.value);
    RunConcat(m, front + f.value, [CR, LF]);
    RunConcat(m, Encode(f), [ch]);
    var v := Run(s, f.value);
    if f.value == [] {
      RunNil(s);
    } else {
      ValueRun(s, f.value);
    }
    LineEnd(v, [CR, LF]);
    var e := Run(m, Encode(f));
    RunOne(e, ch);
    GeneralUnknown();
    NextByte(e, ch);
    PushTwo(m.trace, f.name, f.value);
    r := e.(state := HeaderFieldStart, trace := m.trace + [Field(f.name), Value(f.value)]);
  }

  lemma GeneralUnknown()
    ensures Unknown(General)
  {
  }

  lemma PushTwo(t: Trace, name: Bytes, value: Bytes)
    requires !LastIs(t, Field([]))
    ensures Push(Push(t, Field(name)), Value(value)) == t + [Field(name), Value(value)]
  {
  }

  // Any number of fields

  lemma {:induction false} FieldsRead(m: Machine, fs: seq<HeaderLine>, ch: Byte) returns (r: Machine)
    requires m.state.HeaderFieldStart? && !Stopped(m) && !LastIs(m.trace, Field([]))
    requires forall i :: 0 <= i < |fs| ==> WellFormed(fs[i])
    requires m.nread + |EncodeAll(fs)| < MAX_HEADER_SIZE && ch !in " \t"
    ensures r == m.(index := r.index, headerState := r.headerState, nread := m.nread + |EncodeAll(fs)|,
                    trace := m.trace + RenderHeaders(Pairs(fs)))
    ensures Run(m, EncodeAll(fs) + [ch]) == Step(r, ch)
    decreases |fs|
  {
    hide Run, Consumed, Step, WellFormed, Encode, RenderHeaders, LastIs;
    if fs == [] {
      NoHeaders();
      RunOne(m, ch);
      assert [] + [ch] == [ch] && m.trace + [] == m.trace;
      r := m;
    } else {
      var n := |fs| - 1;
      var front, last := EncodeAll(fs[..n]), Encode(fs[n]);
      NameStart(fs[n]);
      var s := FieldsRead(m, fs[..n], last[0]);
      LastHeader(m.trace, Pairs(fs[..n]));
      r := FieldReads(s, fs[n], ch);
      SameNext(m, front, s, last[0], last[1..] + [ch]);
      assert [last[0]] + (last[1..] + [ch]) == last + [ch];
      assert front + (last + [ch]) == EncodeAll(fs) + [ch];
      assert Pairs(fs) == Pairs(fs[..n]) + [(fs[n].name, fs[n].value)];
      HeadersSnoc(Pairs(fs[..n]), fs[n].name, fs[n].value);
    }
  }

  lemma NameStart(f: HeaderLine)
    requires WellFormed(f)
    ensures Encode(f) != [] && Encode(f)[0] !in " \t"
  {
    assert Encode(f)[0] == f.name[0];
  }

  /** Two machines that agree on one byte agree on all that follows. */
  lemma SameNext(m: Machine, front: Bytes, s: Machine, ch: Byte, rest: Bytes)
    requires Run(m, front + [ch]) == Step(s, ch) && !Stopped(s)
    ensures Run(m, front + ([ch] + rest)) == Run(s, [ch] + rest)
  {
    hide Run, Consumed, Step;
    RunConcat(m, front + [ch], rest);
    RunConcat(s, [ch], rest);
    RunOne(s, ch);
    assert front + [ch] + rest == front + ([ch] + rest);
  }

  lemma LastHeader(t: Trace, hs: HeaderList)
    requires !LastIs(t, Field([]))
    ensures !LastIs(t + RenderHeaders(hs), Field([]))
  {
    if hs == [] {
      assert t + [] == t;
    }
  }
}
