/** Reading the chunked transfer coding is the inverse of writing it (section 4.1 of RFC 7230). */
module HttpChunked {
  import opened HttpTypes
  import opened HttpMachine
  import opened HttpScan
  import opened HttpLengths
  import opened HttpMessages
  import F = HttpFields

  /** A chunk as it is sent: its size in any mixture of cases and with leading zeros, its extensions
      with the byte that introduces them, and its data. */
  datatype Chunk = Chunk(size: Bytes, ext: Bytes, data: Bytes)

  /** The line in front of the data. */
  predicate WellFormedLine(size: Bytes, ext: Bytes) {
    && size != [] && HexDigits(size) && Hex(size) <= MAX_HEX
    && (ext != [] ==> ext[0] == ';' || ext[0] == ' ') && CR !in ext
    && |size| + |ext| + 2 <= MAX_HEADER_SIZE
  }

  predicate WellFormed(c: Chunk) { WellFormedLine(c.size, c.ext) && c.data != [] && Hex(c.size) == |c.data| }

  function Line(size: Bytes, ext: Bytes): Bytes { size + ext + [CR, LF] }

  function Encode(c: Chunk): Bytes { Line(c.size, c.ext) + c.data + [CR, LF] }

  function EncodeAll(cs: seq<Chunk>): Bytes {
    if cs == [] then [] else EncodeAll(cs[..|cs| - 1]) + Encode(cs[|cs| - 1])
  }

  function Contents(cs: seq<Chunk>): (r: seq<Bytes>)
    ensures |r| == |cs|
  {
    seq(|cs|, i requires 0 <= i < |cs| => cs[i].data)
  }

  /** The machine between two chunks. */
  predicate AtChunk(m: Machine) { m.state.ChunkSizeStart? && !Stopped(m) && m.nread == 0 }

  lemma {:induction false} SizeRun(m: Machine, size: Bytes)
    requires AtChunk(m) && size != [] && HexDigits(size) && Hex(size) <= MAX_HEX && |size| <= MAX_HEADER_SIZE
    ensures Run(m, size) == m.(state := ChunkSize, contentLength := Hex(size), nread := |size|)
  {
    hide Run, Consumed, Step, Unhex;
    var n := |size| - 1;
    assert size == size[..n] + [size[n]];
    RunConcat(m, size[..n], [size[n]]);
    if n == 0 {
      HexOne(size[0]);
      RunOne(m, size[0]);
      SizeByte(m, size[0]);
    } else {
      SizeRun(m, size[..n]);
      RunOne(Run(m, size[..n]), size[n]);
      SizeByte(Run(m, size[..n]), size[n]);
    }
  }

  lemma SizeByte(m: Machine, ch: Byte)
    requires !Stopped(m) && Unhex(ch) >= 0 && m.nread < MAX_HEADER_SIZE
    ensures m.state.ChunkSizeStart? ==>
              Step(m, ch) == m.(state := ChunkSize, contentLength := Unhex(ch), nread := m.nread + 1)
    ensures m.state.ChunkSize? && 16 * m.contentLength + Unhex(ch) <= MAX_HEX ==>
              Step(m, ch) == m.(contentLength := 16 * m.contentLength + Unhex(ch), nread := m.nread + 1)
  {
    hide Unhex;
    UnhexCR();
    UnhexSmall(ch);
  }

  lemma UnhexSmall(ch: Byte)
    ensures Unhex(ch) < 16
  {
  }

  lemma UnhexCR()
    ensures Unhex(CR) == Unhex(';') == Unhex(' ') == -1
  {
  }

  lemma {:induction false} ExtRun(m: Machine, ext: Bytes)
    requires m.state.ChunkSize? && !Stopped(m) && m.nread + |ext| <= MAX_HEADER_SIZE
    requires (ext != [] ==> ext[0] == ';' || ext[0] == ' ') && CR !in ext
    ensures Run(m, ext) == if ext == [] then m else m.(state := ChunkParameters, nread := m.nread + |ext|)
  {
    hide Run, Consumed, Step, Unhex;
    if ext == [] {
      RunNil(m);
    } else {
      var n := |ext| - 1;
      assert ext == ext[..n] + [ext[n]];
      RunConcat(m, ext[..n], [ext[n]]);
      ExtRun(m, ext[..n]);
      RunOne(Run(m, ext[..n]), ext[n]);
      ExtByte(Run(m, ext[..n]), ext[n]);
    }
  }

  lemma ExtByte(m: Machine, ch: Byte)
    requires !Stopped(m) && m.nread < MAX_HEADER_SIZE && ch != CR
    requires m.state.ChunkParameters? || (m.state.ChunkSize? && (ch == ';' || ch == ' '))
    ensures Step(m, ch) == m.(state := ChunkParameters, nread := m.nread + 1)
  {
    hide Unhex;
    UnhexCR();
  }

  /** The machine after a chunk size line. */
  function AfterLine(m: Machine, size: nat): Machine {
    var r := m.(nread := 0, contentLength := size, trace := m.trace + [ChunkHeader]);
    if size == 0 then r.(flags := m.flags.(trailing := true), state := HeaderFieldStart) else r.(state := ChunkData)
  }

  lemma RunTwo(m: Machine, b: Byte, c: Byte)
    requires !Stopped(m) && !Stopped(Step(m, b))
    ensures Run(m, [b, c]) == Step(Step(m, b), c)
    ensures Step(Step(m, b), c).errno == OK ==> Consumed(m, [b, c]) == 2
  {
    hide Step;
    assert [b, c][1..] == [c];
    assert [c][1..] == [];
    RunOne(Step(m, b), c);
  }

  lemma LineCR(m: Machine)
    requires !Stopped(m) && m.nread < MAX_HEADER_SIZE && (m.state.ChunkSize? || m.state.ChunkParameters?)
    ensures Step(m, CR) == m.(state := ChunkSizeAlmostDone, nread := m.nread + 1)
  {
  }

  lemma LineLF(m: Machine)
    requires !Stopped(m) && m.nread < MAX_HEADER_SIZE && m.state.ChunkSizeAlmostDone?
    ensures Step(m, LF) == AfterLine(m, m.contentLength)
  {
  }

  lemma LineEnd(m: Machine)
    requires !Stopped(m) && m.nread + 2 <= MAX_HEADER_SIZE && (m.state.ChunkSize? || m.state.ChunkParameters?)
    ensures Run(m, [CR, LF]) == AfterLine(m, m.contentLength)
  {
    hide Run, Consumed, Step;
    LineCR(m);
    RunTwo(m, CR, LF);
    LineLF(Step(m, CR));
  }

  lemma LineRun(m: Machine, size: Bytes, ext: Bytes)
    requires AtChunk(m) && WellFormedLine(size, ext)
    ensures Run(m, Line(size, ext)) == AfterLine(m, Hex(size))
  {
    hide Run, Consumed, Step, Unhex, AfterLine, HexDigits, Hex;
    SizeRun(m, size);
    var r := Run(m, size);
    ExtRun(r, ext);
    RunConcat(m, size, ext);
    RunConcat(m, size + ext, [CR, LF]);
    LineEnd(Run(m, size + ext));
    AfterLineSame(m, Run(m, size + ext), Hex(size));
  }

  lemma AfterLineSame(m: Machine, r: Machine, size: nat)
    requires r == m.(state := r.state, contentLength := r.contentLength, nread := r.nread)
    ensures AfterLine(r, size) == AfterLine(m, size)
  {
  }

  lemma DataEnd(m: Machine)
    requires !Stopped(m) && m.state.ChunkDataAlmostDone?
    ensures Run(m, [CR, LF]) == m.(nread := 0, state := ChunkSizeStart, trace := m.trace + [ChunkComplete])
  {
    hide Run, Consumed;
    RunTwo(m, CR, LF);
  }

  /** One chunk is reported as one chunk, with its data, and the machine is ready for the next one. */
  lemma ChunkReads(m: Machine, c: Chunk)
    requires AtChunk(m) && WellFormed(c)
    ensures Run(m, Encode(c)) == m.(contentLength := 0, trace := m.trace + [ChunkHeader, Body(c.data), ChunkComplete])
  {
    hide Run, Consumed, Step, Unhex, HexDigits, Hex, Precise, WellFormedLine;
    var line := Line(c.size, c.ext);
    LineRun(m, c.size, c.ext);
    var r := Run(m, line);
    RunConcat(m, line, c.data);
    ChunkRun(r, c.data);
    RunConcat(m, line + c.data, [CR, LF]);
    DataEnd(Run(m, line + c.data));
    assert m.trace + [ChunkHeader] + [Body(c.data)] + [ChunkComplete] ==
           m.trace + [ChunkHeader, Body(c.data), ChunkComplete];
  }

  lemma {:induction false} ChunksRead(m: Machine, cs: seq<Chunk>)
    requires AtChunk(m) && forall i :: 0 <= i < |cs| ==> WellFormed(cs[i])
    ensures var r := Run(m, EncodeAll(cs));
            AtChunk(r) && r == m.(contentLength := r.contentLength, trace := m.trace + RenderChunks(Contents(cs)))
  {
    hide Run, Consumed, Step, WellFormed, Encode;
    if cs == [] {
      RunNil(m);
      assert m.trace + [] == m.trace;
    } else {
      var n := |cs| - 1;
      ChunksRead(m, cs[..n]);
      RunConcat(m, EncodeAll(cs[..n]), Encode(cs[n]));
      ChunkReads(Run(m, EncodeAll(cs[..n])), cs[n]);
      assert Contents(cs) == Contents(cs[..n]) + [cs[n].data];
      ChunksSnoc(Contents(cs[..n]), cs[n].data);
    }
  }

  /** The trailer fields and the empty line behind them. */
  lemma TrailerRun(m: Machine, fs: seq<F.HeaderLine>)
    requires !Stopped(m) && m.state.HeaderFieldStart? && m.flags.trailing && !LastIs(m.trace, Field([]))
    requires (forall i :: 0 <= i < |fs| ==> F.WellFormed(fs[i])) && m.nread + |F.EncodeAll(fs)| + 2 <= MAX_HEADER_SIZE
    ensures var r := Run(m, F.EncodeAll(fs) + [CR, LF]);
            && r.errno == OK && r.exited == m.upgrade && r.state == (if ShouldKeepAlive(m) then StartReq else Dead)
            && r.nread == m.nread + |F.EncodeAll(fs)| + 2 && r.upgrade == m.upgrade
            && r.trace == m.trace + RenderHeaders(F.Pairs(fs)) + [ChunkComplete, MessageComplete]
    ensures Consumed(m, F.EncodeAll(fs) + [CR, LF]) == |F.EncodeAll(fs)| + 2
  {
    hide Run, Consumed, Step, F.EncodeAll, F.WellFormed, RenderHeaders;
    var fields := F.EncodeAll(fs);
    var r := F.FieldsRead(m, fs, CR);
    TrailerCR(r);
    var s := Step(r, CR);
    TrailerLF(s);
    RunOne(s, LF);
    RunConcat(m, fields + [CR], [LF]);
    assert fields + [CR] + [LF] == fields + [CR, LF];
  }

  lemma TrailerCR(m: Machine)
    requires !Stopped(m) && m.state.HeaderFieldStart? && m.nread < MAX_HEADER_SIZE
    ensures Step(m, CR) == m.(state := HeadersAlmostDone, nread := m.nread + 1)
  {
    hide Push, StepHeadersAlmostDone;
  }

  lemma StepLine(m: Machine)
    requires !Stopped(m) && m.state.HeadersAlmostDone? && m.nread < MAX_HEADER_SIZE
    ensures Step(m, LF) == StepHeadersAlmostDone(m.(nread := m.nread + 1), LF)
  {
    hide StepHeadersAlmostDone;
  }

  lemma TrailerLF(m: Machine)
    requires !Stopped(m) && m.state.HeadersAlmostDone? && m.flags.trailing && m.nread < MAX_HEADER_SIZE
    ensures Step(m, LF) ==
            m.(nread := m.nread + 1, state := if ShouldKeepAlive(m) then StartReq else Dead, exited := m.upgrade,
               trace := m.trace + [ChunkComplete, MessageComplete])
  {
    var r := m.(nread := m.nread + 1);
    StepLine(m);
    hide Step;
    assert m.trace + [ChunkComplete] + [MessageComplete] == m.trace + [ChunkComplete, MessageComplete];
  }

  /** A chunked body as it is sent: chunks, the last chunk, which is empty, and trailer fields. */
  function EncodeBody(cs: seq<Chunk>, size: Bytes, ext: Bytes, fs: seq<F.HeaderLine>): Bytes {
    EncodeAll(cs) + Line(size, ext) + (F.EncodeAll(fs) + [CR, LF])
  }

  /** However many chunks and trailer fields were sent, with whatever data: the callbacks deliver each chunk as
      one with that data, then the fields, in order, the message is complete once, and every byte is consumed. */
  lemma ChunkedRoundTrip(m: Machine, cs: seq<Chunk>, size: Bytes, ext: Bytes, fs: seq<F.HeaderLine>)
    requires AtChunk(m) && forall i :: 0 <= i < |cs| ==> WellFormed(cs[i])
    requires WellFormedLine(size, ext) && Hex(size) == 0
    requires (forall i :: 0 <= i < |fs| ==> F.WellFormed(fs[i])) && |F.EncodeAll(fs)| + 2 <= MAX_HEADER_SIZE
    ensures var r := Run(m, EncodeBody(cs, size, ext, fs));
            && r.errno == OK
            && r.trace == m.trace + RenderContent(Chunks(Contents(cs), F.Pairs(fs))) + [MessageComplete]
            && r.state == (if ShouldKeepAlive(m) then StartReq else Dead) && r.exited == m.upgrade
            && r.nread == |F.EncodeAll(fs)| + 2 && r.upgrade == m.upgrade
    ensures Consumed(m, EncodeBody(cs, size, ext, fs)) == |EncodeBody(cs, size, ext, fs)|
  {
    hide Run, Consumed, Step, WellFormed, EncodeAll, WellFormedLine, Hex, HexDigits, Line, RenderChunks, RenderHeaders,
      F.EncodeAll, F.WellFormed;
    var all, line, fields := EncodeAll(cs), Line(size, ext), F.EncodeAll(fs) + [CR, LF];
    ChunksRead(m, cs);
    var r := Run(m, all);
    LineRun(r, size, ext);
    RunConcat(m, all, line);
    RunConcat(m, all + line, fields);
    TrailerRun(Run(m, all + line), fs);
    var chunks, hs := RenderChunks(Contents(cs)), RenderHeaders(F.Pairs(fs));
    assert m.trace + chunks + [ChunkHeader] + hs + [ChunkComplete, MessageComplete] ==
           m.trace + (chunks + [ChunkHeader] + hs + [ChunkComplete]) + [MessageComplete];
  }

  function Flatten(parts: seq<Bytes>): Bytes {
    if parts == [] then [] else Flatten(parts[..|parts| - 1]) + parts[|parts| - 1]
  }

  /** The data handed to the body callback, in order. */
  function Delivered(t: Trace): Bytes {
    if t == [] then [] else
      Delivered(t[..|t| - 1]) + if t[|t| - 1].Body? then t[|t| - 1].bytes else []
  }

  lemma {:induction false} ChunksDelivered(parts: seq<Bytes>)
    ensures Delivered(RenderChunks(parts)) == Flatten(parts)
  {
    if parts != [] {
      var n := |parts| - 1;
      ChunksDelivered(parts[..n]);
      var t := RenderChunks(parts[..n]);
      var b := Body(parts[n]);
      assert RenderChunks(parts) == t + [ChunkHeader] + [b] + [ChunkComplete];
      DeliveredSnoc(t, ChunkHeader);
      DeliveredSnoc(t + [ChunkHeader], b);
      DeliveredSnoc(t + [ChunkHeader] + [b], ChunkComplete);
    }
  }

  lemma DeliveredSnoc(t: Trace, e: Event)
    ensures Delivered(t + [e]) == Delivered(t) + if e.Body? then e.bytes else []
  {
    assert (t + [e])[..|t|] == t;
  }
}
