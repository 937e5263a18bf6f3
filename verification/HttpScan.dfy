/** What the block loops of the parser amount to, byte by byte: runs of header name and header value
    bytes whose size is added up only at the end of the block, and stretches of body bytes. */
module HttpScan {
  import opened HttpTypes
  import opened HttpMachine

  /** Consumes bytes without counting them. */
  function Scan(m: Machine, bytes: Bytes): Machine
    decreases |bytes|
  {
    if bytes == [] || m.errno != OK then m else Scan(StepState(m, bytes[0]), bytes[1..])
  }

  lemma {:induction false} ScanSnoc(m: Machine, bytes: Bytes, b: Byte)
    ensures Scan(m, bytes).errno == OK ==> Scan(m, bytes + [b]) == StepState(Scan(m, bytes), b)
    decreases |bytes|
  {
    hide StepState;
    if bytes == [] {
      assert Scan(m, [b]) == if m.errno != OK then m else Scan(StepState(m, b), []);
    } else if m.errno == OK {
      assert (bytes + [b])[1..] == bytes[1..] + [b];
      ScanSnoc(StepState(m, bytes[0]), bytes[1..], b);
    }
  }

  /** The machine before the byte at hand was counted. */
  function Uncounted(m: Machine): (r: Machine)
    ensures r.trace == m.trace
  {
    m.(nread := if m.nread > 0 then m.nread - 1 else 0)
  }

  predicate InBlock(m: Machine) { m.errno == OK && !m.exited && (m.state.HeaderField? || m.state.HeaderValue?) }

  lemma StepFieldCount(m: Machine, ch: Byte, n: nat)
    ensures StepField(m.(nread := n), ch) == StepField(m, ch).(nread := n)
  {
    hide Push, IsToken, TokenChar, FieldByte;
  }

  lemma ValueByteCount(m: Machine, ch: Byte, n: nat)
    ensures ValueByte(m.(nread := n), ch) == ValueByte(m, ch).(nread := n)
  {
    hide Lower, TokenStart, MatchValue, ElementDone, LengthByte;
    var k := m.(nread := n);
    match m.headerState
    case ContentLengthNum => LengthByteCount(m, ch, n);
    case ContentLengthWs => assert ValueByte(k, ch) == ValueByte(m, ch).(nread := n);
    case MatchingConnectionTokenStart => assert ValueByte(k, ch) == ValueByte(m, ch).(nread := n);
    case MatchingConnectionToken => assert ValueByte(k, ch) == ValueByte(m, ch).(nread := n);
    case TransferEncodingChunked => assert ValueByte(k, ch) == ValueByte(m, ch).(nread := n);
    case ConnectionKeepAlive => ElementDoneCount(m, ch, n);
    case ConnectionClose => ElementDoneCount(m, ch, n);
    case ConnectionUpgrade => ElementDoneCount(m, ch, n);
    case _ => MatchValueCount(m, Lower(ch), n);
  }

  lemma ElementDoneCount(m: Machine, ch: Byte, n: nat)
    ensures ElementDone(m.(nread := n), ch) == ElementDone(m, ch).(nread := n)
  {
    hide ValueFlags;
  }

  lemma MatchValueCount(m: Machine, c: Byte, n: nat)
    ensures MatchValue(m.(nread := n), c) == MatchValue(m, c).(nread := n)
  {
    hide MatchByte;
  }

  lemma LengthByteCount(m: Machine, ch: Byte, n: nat)
    ensures LengthByte(m.(nread := n), ch) == LengthByte(m, ch).(nread := n)
  {
  }

  lemma StepValueCount(m: Machine, ch: Byte, n: nat)
    ensures StepValue(m.(nread := n), ch) == StepValue(m, ch).(nread := n)
  {
    hide Push, IsHeaderChar, ValueByte;
    ValueByteCount(m, ch, n);
  }

  /** In a block the byte count does not influence anything else. */
  lemma StepStateCount(m: Machine, ch: Byte, n: nat)
    requires InBlock(m)
    ensures StepState(m.(nread := n), ch) == StepState(m, ch).(nread := n)
  {
    hide StepField, StepValue;
    StepFieldCount(m, ch, n);
    StepValueCount(m, ch, n);
  }

  /** The machine stays inside the block until the last of the bytes. */
  predicate WithinBlock(m: Machine, bytes: Bytes)
    decreases |bytes|
  {
    InBlock(m) && (|bytes| <= 1 || WithinBlock(StepState(m, bytes[0]), bytes[1..]))
  }

  lemma {:induction false} WithinSnoc(m: Machine, bytes: Bytes, b: Byte)
    requires WithinBlock(m, bytes) && InBlock(Scan(m, bytes))
    ensures WithinBlock(m, bytes + [b])
    decreases |bytes|
  {
    hide StepState, InBlock;
    if bytes == [] {
    } else {
      assert InBlock(m) && m.errno == OK by { assert WithinBlock(m, bytes); InBlockOk(m); }
      assert (bytes + [b])[1..] == bytes[1..] + [b];
      var r := StepState(m, bytes[0]);
      if |bytes| == 1 {
        assert Scan(r, bytes[1..]) == r;
        assert WithinBlock(r, []);
      }
      WithinSnoc(r, bytes[1..], b);
    }
  }

  lemma InBlockOk(m: Machine)
    ensures InBlock(m) ==> m.errno == OK && !m.exited && ParsingHeader(m.state)
  {
  }

  /** The machine consumes all of the bytes, or finds an error at the last one. */
  predicate Precise(m: Machine, bytes: Bytes) {
    var r := Run(m, bytes);
    bytes != [] && (r.errno != HEADER_OVERFLOW ==>
                      Consumed(m, bytes) == if r.errno == OK then |bytes| else |bytes| - 1)
  }

  lemma PreciseNext(m: Machine, bytes: Bytes)
    requires bytes != [] && !Stopped(m) && Step(m, bytes[0]).errno == OK
    requires |bytes| == 1 || Precise(Step(m, bytes[0]), bytes[1..])
    ensures Precise(m, bytes)
  {
    hide Step;
    var s := Step(m, bytes[0]);
    if |bytes| == 1 {
      PreciseStop(m, bytes);
    }
    assert Run(m, bytes) == Run(s, bytes[1..]) && Consumed(m, bytes) == 1 + Consumed(s, bytes[1..]);
  }

  lemma PreciseStop(m: Machine, bytes: Bytes)
    requires |bytes| == 1 && !Stopped(m)
    ensures Precise(m, bytes)
  {
    hide Step;
    var s := Step(m, bytes[0]);
    assert bytes[1..] == [];
    assert Run(s, bytes[1..]) == s && Consumed(s, bytes[1..]) == 0;
  }

  /** A block that is scanned and then counted as a whole ends as if it had been counted byte by byte,
      and it overflows exactly when the machine does. */
  lemma {:induction false} ScanCounts(m: Machine, bytes: Bytes, base: nat)
    requires WithinBlock(m, bytes) && base <= MAX_HEADER_SIZE
    ensures base + |bytes| <= MAX_HEADER_SIZE ==>
              Run(m.(nread := base), bytes) == Scan(m, bytes).(nread := base + |bytes|)
    ensures base + |bytes| > MAX_HEADER_SIZE ==> Run(m.(nread := base), bytes).errno == HEADER_OVERFLOW
    ensures bytes != [] ==> Precise(m.(nread := base), bytes)
    decreases |bytes|
  {
    hide StepState, InBlock, WithinBlock, Precise;
    if bytes == [] {
    } else {
      assert InBlock(m) by { WithinHead(m, bytes); }
      InBlockOk(m);
      var k := m.(nread := base);
      var r := StepState(m, bytes[0]);
      if base < MAX_HEADER_SIZE {
        StepStateCount(m, bytes[0], base + 1);
        assert Step(k, bytes[0]) == r.(nread := base + 1);
        if |bytes| == 1 {
          assert bytes[1..] == [];
          PreciseStop(k, bytes);
        } else {
          WithinHead(m, bytes);
          InBlockOk(r);
          ScanCounts(r, bytes[1..], base + 1);
          PreciseNext(k, bytes);
        }
      } else {
        assert Step(k, bytes[0]).errno == HEADER_OVERFLOW;
        assert Run(k, bytes) == Step(k, bytes[0]);
        PreciseOverflow(k, bytes);
      }
    }
  }

  lemma PreciseOverflow(m: Machine, bytes: Bytes)
    requires bytes != [] && Run(m, bytes).errno == HEADER_OVERFLOW
    ensures Precise(m, bytes)
  {
  }

  lemma WithinHead(m: Machine, bytes: Bytes)
    requires WithinBlock(m, bytes)
    ensures InBlock(m)
    ensures |bytes| > 1 ==> WithinBlock(StepState(m, bytes[0]), bytes[1..]) && InBlock(StepState(m, bytes[0]))
  {
    hide StepState;
  }

  lemma ScanNil(m: Machine)
    ensures Scan(m, []) == m
    ensures InBlock(m) ==> WithinBlock(m, [])
  {
  }

  /** One byte more of a block. */
  lemma ScanNext(m: Machine, data: Bytes, p: nat, q: nat)
    requires p <= q < |data| && WithinBlock(m, data[p..q]) && InBlock(Scan(m, data[p..q]))
    ensures WithinBlock(m, data[p..q + 1])
    ensures Scan(m, data[p..q + 1]) == StepState(Scan(m, data[p..q]), data[q])
  {
    hide StepState, Scan, WithinBlock;
    InBlockOk(Scan(m, data[p..q]));
    assert data[p..q] + [data[q]] == data[p..q + 1];
    ScanSnoc(m, data[p..q], data[q]);
    WithinSnoc(m, data[p..q], data[q]);
  }

  /** A header name byte inside the block. */
  lemma ScanName(m: Machine, data: Bytes, p: nat, q: nat)
    requires p <= q < |data| && WithinBlock(m, data[p..q]) && InBlock(Scan(m, data[p..q]))
    requires Scan(m, data[p..q]).state.HeaderField? && IsToken(data[q])
    ensures WithinBlock(m, data[p..q + 1])
    ensures var s := Scan(m, data[p..q]);
            var i := if FieldIndexed(s.headerState) then s.index + 1 else s.index;
            && Scan(m, data[p..q + 1]) ==
               s.(index := i, headerState := FieldByte(s.headerState, i, TokenChar(data[q])),
                  trace := Push(s.trace, Field([data[q]])))
            && (s.headerState.General? ==> FieldByte(s.headerState, i, TokenChar(data[q])).General?)
  {
    hide Scan, WithinBlock, Push, IsToken, TokenChar;
    ScanNext(m, data, p, q);
  }

  /** A stretch of header name bytes when no keyword can match any more. */
  lemma {:induction false} ScanNames(m: Machine, data: Bytes, p: nat, q: nat, r: nat)
    requires p <= q <= r < |data| && WithinBlock(m, data[p..q]) && InBlock(Scan(m, data[p..q]))
    requires Scan(m, data[p..q]).state.HeaderField? && Scan(m, data[p..q]).headerState.General?
    requires forall i :: q <= i <= r ==> IsToken(data[i])
    ensures WithinBlock(m, data[p..r + 1])
    ensures Scan(m, data[p..r + 1]) ==
            var s := Scan(m, data[p..q]); s.(trace := Push(s.trace, Field(data[q..r + 1])))
    decreases r
  {
    hide Scan, WithinBlock, Push, IsToken, TokenChar, FieldByte;
    if q == r {
      ScanName(m, data, p, q);
      assert data[q..r + 1] == [data[q]];
    } else {
      ScanNames(m, data, p, q, r - 1);
      ScanName(m, data, p, r);
      assert data[q..r] + [data[r]] == data[q..r + 1];
      PushJoin(Scan(m, data[p..q]).trace, Field(data[q..r]), Field([data[r]]));
    }
  }

  /** The byte that ends a header name, and the count of the whole block. */
  lemma ScanNameEnd(m: Machine, data: Bytes, p: nat, q: nat)
    requires p <= q < |data| && WithinBlock(m, data[p..q]) && InBlock(Scan(m, data[p..q]))
    requires Scan(m, data[p..q]).state.HeaderField? && !IsToken(data[q]) && 1 <= m.nread <= MAX_HEADER_SIZE
    ensures var r := Run(Uncounted(m), data[p..q + 1]);
            var s := Scan(m, data[p..q]).(nread := m.nread + (q - p));
            if s.nread > MAX_HEADER_SIZE then r.errno == HEADER_OVERFLOW
            else if data[q] == ':' then r == s.(state := HeaderValueDiscardWs)
            else r == s.(errno := INVALID_HEADER_TOKEN)
    ensures Precise(Uncounted(m), data[p..q + 1])
  {
    hide Scan, WithinBlock, Push, IsToken, TokenChar, Run, Precise;
    ScanNext(m, data, p, q);
    ScanCounts(m, data[p..q + 1], m.nread - 1);
  }

  /** A header value byte inside the block. */
  lemma ScanValue(m: Machine, data: Bytes, p: nat, q: nat)
    requires p <= q < |data| && WithinBlock(m, data[p..q]) && InBlock(Scan(m, data[p..q]))
    requires Scan(m, data[p..q]).state.HeaderValue?
    ensures WithinBlock(m, data[p..q + 1])
    ensures Scan(m, data[p..q + 1]) == StepValue(Scan(m, data[p..q]), data[q])
  {
    hide Scan, WithinBlock, StepValue;
    ScanNext(m, data, p, q);
  }

  predicate PlainValueChar(ch: Byte) { IsHeaderChar(ch) && ch != CR && ch != LF }

  /** A stretch of header value bytes when nothing is looked for in the value. */
  lemma {:induction false} ScanValues(m: Machine, data: Bytes, p: nat, q: nat, r: nat)
    requires p <= q < r <= |data| && WithinBlock(m, data[p..q]) && InBlock(Scan(m, data[p..q]))
    requires Scan(m, data[p..q]).state.HeaderValue? && Scan(m, data[p..q]).headerState.General?
    requires forall i :: q <= i < r ==> PlainValueChar(data[i])
    ensures WithinBlock(m, data[p..r])
    ensures Scan(m, data[p..r]) == var s := Scan(m, data[p..q]); s.(trace := Push(s.trace, Value(data[q..r])))
    decreases r
  {
    hide Scan, WithinBlock, Push;
    if q == r - 1 {
      ScanValue(m, data, p, q);
      assert data[q..r] == [data[q]];
      GeneralByte(Scan(m, data[p..q]), data[q]);
    } else {
      ScanValues(m, data, p, q, r - 1);
      ScanValue(m, data, p, r - 1);
      GeneralByte(Scan(m, data[p..r - 1]), data[r - 1]);
      assert data[q..r - 1] + [data[r - 1]] == data[q..r];
      PushJoin(Scan(m, data[p..q]).trace, Value(data[q..r - 1]), Value([data[r - 1]]));
    }
  }

  lemma GeneralByte(m: Machine, ch: Byte)
    requires m.errno == OK && m.state.HeaderValue? && m.headerState.General? && PlainValueChar(ch)
    ensures StepValue(m, ch) == m.(trace := Push(m.trace, Value([ch])))
  {
    hide Push;
  }

  /** The byte that ends a block with an error, or ends a header value, and the count of the block. */
  lemma ScanValueEnd(m: Machine, data: Bytes, p: nat, q: nat)
    requires p <= q < |data| && WithinBlock(m, data[p..q]) && InBlock(Scan(m, data[p..q]))
    requires Scan(m, data[p..q]).state.HeaderValue? && 1 <= m.nread <= MAX_HEADER_SIZE
    ensures var r := Run(Uncounted(m), data[p..q + 1]);
            var s := Scan(m, data[p..q]);
            if m.nread + (q - p) > MAX_HEADER_SIZE then r.errno == HEADER_OVERFLOW
            else r == StepValue(s, data[q]).(nread := m.nread + (q - p))
    ensures Precise(Uncounted(m), data[p..q + 1])
  {
    hide Scan, WithinBlock, Push, Run, StepValue, Precise;
    ScanValue(m, data, p, q);
    ScanCounts(m, data[p..q + 1], m.nread - 1);
  }

  /** A machine that overflowed stays so. */
  lemma OverflowStays(m: Machine, data: Bytes, p: nat, q: nat, r: nat)
    requires p <= q <= r <= |data| && Run(m, data[p..q]).errno == HEADER_OVERFLOW
    ensures Run(m, data[p..r]).errno == HEADER_OVERFLOW
  {
    hide Run, Consumed;
    assert data[p..q] + data[q..r] == data[p..r];
    RunConcat(m, data[p..q], data[q..r]);
    RunStopped(Run(m, data[p..q]), data[q..r]);
  }

  /** The machine overflowed at least one byte ago, whatever the bytes since the limit were. */
  predicate Lost(m: Machine, data: Bytes, p: nat, q: nat)
    requires p <= q <= |data|
  {
    q - p > MAX_HEADER_SIZE && Run(Uncounted(m), data[p..q]).errno == HEADER_OVERFLOW
  }

  // Bodies

  lemma BodySingle(m: Machine, b: Byte)
    requires !Stopped(m)
    ensures m.state.BodyIdentity? ==> Step(m, b) == StepBody(m, b)
    ensures m.state.ChunkData? ==> Step(m, b) == StepChunk(m, b)
  {
    hide StepBody, StepChunk;
  }

  lemma PushBytes(t: Trace, b: Byte, rest: Bytes)
    ensures Push(Push(t, Body([b])), Body(rest)) == Push(t, Body([b] + rest))
  {
    hide Push;
    PushJoin(t, Body([b]), Body(rest));
  }

  lemma MessageDoneOk(m: Machine)
    ensures StepMessageDone(m).errno == m.errno
  {
    hide Push;
  }

  /** A stretch of body bytes no longer than the length that is left is one data callback. */
  lemma {:induction false} BodyRun(m: Machine, bytes: Bytes)
    requires !Stopped(m) && m.state.BodyIdentity? && 0 < |bytes| <= m.contentLength
    ensures var r := Emit(m.(contentLength := m.contentLength - |bytes|), Body(bytes));
            Run(m, bytes) == if r.contentLength == 0 then StepMessageDone(r) else r
    ensures Precise(m, bytes)
    decreases |bytes|
  {
    hide Push, StepMessageDone, Step, Precise;
    MessageDoneOk(Emit(m.(contentLength := 0), Body([bytes[0]])));
    BodySingle(m, bytes[0]);
    var s := Step(m, bytes[0]);
    assert bytes == [bytes[0]] + bytes[1..];
    if |bytes| == 1 {
      assert bytes == [bytes[0]];
      assert Run(s, bytes[1..]) == s;
      PreciseStop(m, bytes);
    } else {
      BodyRun(s, bytes[1..]);
      PushBytes(m.trace, bytes[0], bytes[1..]);
      PreciseNext(m, bytes);
    }
  }

  lemma {:induction false} ChunkRun(m: Machine, bytes: Bytes)
    requires !Stopped(m) && m.state.ChunkData? && 0 < |bytes| <= m.contentLength
    ensures var r := Emit(m.(contentLength := m.contentLength - |bytes|), Body(bytes));
            Run(m, bytes) == if r.contentLength == 0 then r.(state := ChunkDataAlmostDone) else r
    ensures Precise(m, bytes)
    decreases |bytes|
  {
    hide Push, Step, StepChunkSize, StepChunkSizeAlmostDone, Unhex, Precise;
    BodySingle(m, bytes[0]);
    var s := Step(m, bytes[0]);
    assert bytes == [bytes[0]] + bytes[1..];
    if |bytes| == 1 {
      assert bytes == [bytes[0]];
      assert Run(s, bytes[1..]) == s;
      PreciseStop(m, bytes);
    } else {
      ChunkRun(s, bytes[1..]);
      PushBytes(m.trace, bytes[0], bytes[1..]);
      PreciseNext(m, bytes);
    }
  }
}
