/** The order of callbacks fixed by HttpGrammar is that of whole messages: callbacks that end between two
    messages render a list of messages, and all others are the start of such a rendering. */
module HttpMessages {
  import opened HttpTypes
  import opened HttpMachine
  import opened HttpGrammar
  import opened HttpParser

  type HeaderList = seq<(Bytes, Bytes)>

  datatype Content = Nothing | Whole(bytes: Bytes) | Chunks(chunks: seq<Bytes>, trailer: HeaderList)

  datatype Message = Message(target: Bytes, headers: HeaderList, content: Content)

  function RenderHeaders(hs: HeaderList): Trace {
    if hs == [] then [] else
      var h := hs[|hs| - 1];
      RenderHeaders(hs[..|hs| - 1]) + [Field(h.0), Value(h.1)]
  }

  function RenderChunks(cs: seq<Bytes>): Trace {
    if cs == [] then [] else
      RenderChunks(cs[..|cs| - 1]) + [ChunkHeader, Body(cs[|cs| - 1]), ChunkComplete]
  }

  function RenderContent(c: Content): Trace {
    match c
    case Nothing => []
    case Whole(b) => [Body(b)]
    case Chunks(cs, trailer) => RenderChunks(cs) + [ChunkHeader] + RenderHeaders(trailer) + [ChunkComplete]
  }

  function RenderHead(target: Bytes, hs: HeaderList): Trace {
    [MessageBegin, Url(target)] + RenderHeaders(hs)
  }

  function Render(m: Message): Trace {
    RenderHead(m.target, m.headers) + [HeadersComplete] + RenderContent(m.content) + [MessageComplete]
  }

  function RenderAll(ms: seq<Message>): Trace {
    if ms == [] then [] else RenderAll(ms[..|ms| - 1]) + Render(ms[|ms| - 1])
  }

  /** Whole messages, and what is known of the one that is being read. */
  datatype Draft = Draft(done: seq<Message>, target: Bytes, headers: HeaderList, name: Bytes, bytes: Bytes,
                         chunks: seq<Bytes>, trailer: HeaderList)

  /** What is reported of the message being read, in a given phase. */
  function Part(p: Phase, d: Draft): Trace {
    var head := RenderHead(d.target, d.headers);
    var body := head + [HeadersComplete];
    var last := body + RenderChunks(d.chunks) + [ChunkHeader];
    match p
    case Between => []
    case Begun => [MessageBegin]
    case Target => [MessageBegin, Url(d.target)]
    case Name => head + [Field(d.name)]
    case Headers => head
    case Complete => body
    case InBody => body + [Body(d.bytes)]
    case ChunkHead => last
    case ChunkBody => last + [Body(d.bytes)]
    case ChunkEnd => body + RenderChunks(d.chunks)
    case TrailerName => last + RenderHeaders(d.trailer) + [Field(d.name)]
    case TrailerValue => last + RenderHeaders(d.trailer)
    case LastEnd => last + RenderHeaders(d.trailer) + [ChunkComplete]
    case Bad => []
  }

  predicate Fits(p: Phase, d: Draft) {
    && (p.Headers? ==> d.headers != [])
    && (p.ChunkEnd? ==> d.chunks != [])
    && (p.TrailerValue? ==> d.trailer != [])
  }

  /** The draft after one callback more. */
  function Extend(p: Phase, d: Draft, e: Event): Draft {
    match (p, e)
    case (Between, MessageBegin) => Draft(d.done, [], [], [], [], [], [])
    case (Begun, Url(b)) => d.(target := b, headers := [])
    case (Target, Field(b)) => d.(headers := [], name := b)
    case (Target, HeadersComplete) => d.(headers := [])
    case (Name, Value(b)) => d.(headers := d.headers + [(d.name, b)])
    case (Headers, Field(b)) => d.(name := b)
    case (Complete, Body(b)) => d.(bytes := b)
    case (Complete, ChunkHeader) => d.(chunks := [])
    case (Complete, MessageComplete) => d.(done := d.done + [Message(d.target, d.headers, Nothing)])
    case (InBody, MessageComplete) => d.(done := d.done + [Message(d.target, d.headers, Whole(d.bytes))])
    case (ChunkHead, Body(b)) => d.(bytes := b)
    case (ChunkHead, Field(b)) => d.(trailer := [], name := b)
    case (ChunkHead, ChunkComplete) => d.(trailer := [])
    case (ChunkBody, ChunkComplete) => d.(chunks := d.chunks + [d.bytes])
    case (TrailerName, Value(b)) => d.(trailer := d.trailer + [(d.name, b)])
    case (TrailerValue, Field(b)) => d.(name := b)
    case (LastEnd, MessageComplete) =>
      d.(done := d.done + [Message(d.target, d.headers, Chunks(d.chunks, d.trailer))])
    case _ => d
  }

  lemma HeadersSnoc(hs: HeaderList, n: Bytes, v: Bytes)
    ensures RenderHeaders(hs + [(n, v)]) == RenderHeaders(hs) + [Field(n), Value(v)]
  {
    assert (hs + [(n, v)])[..|hs|] == hs;
  }

  lemma ChunksSnoc(cs: seq<Bytes>, b: Bytes)
    ensures RenderChunks(cs + [b]) == RenderChunks(cs) + [ChunkHeader, Body(b), ChunkComplete]
  {
    assert (cs + [b])[..|cs|] == cs;
  }

  lemma AllSnoc(ms: seq<Message>, m: Message)
    ensures RenderAll(ms + [m]) == RenderAll(ms) + Render(m)
  {
    assert (ms + [m])[..|ms|] == ms;
  }

  /** The last callback of a part. */
  lemma PartLast(p: Phase, d: Draft, e: Event)
    requires Fits(p, d) && Advance(p, e) == p
    ensures p.Bad? || (Part(p, d) != [] && Part(p, d)[|Part(p, d)| - 1].SameKind(e))
  {
    hide Render, RenderAll;
    if p.Headers? {
      HeadersSnoc(d.headers[..|d.headers| - 1], d.headers[|d.headers| - 1].0, d.headers[|d.headers| - 1].1);
    } else if p.TrailerValue? {
      HeadersSnoc(d.trailer[..|d.trailer| - 1], d.trailer[|d.trailer| - 1].0, d.trailer[|d.trailer| - 1].1);
    }
  }

  /** One callback more, within a message. */
  lemma ExtendPart(p: Phase, d: Draft, e: Event)
    requires Fits(p, d) && !Advance(p, e).Bad? && Advance(p, e) != p && !e.MessageComplete?
    ensures var q := Advance(p, e);
            var k := Extend(p, d, e);
            k.done == d.done && Fits(q, k) && Part(q, k) == Part(p, d) + [e]
  {
    hide Render, RenderAll, RenderHeaders, RenderChunks;
    NoHeaders();
    if p.Name? && e.Value? {
      HeadersSnoc(d.headers, d.name, e.bytes);
    } else if p.TrailerName? && e.Value? {
      HeadersSnoc(d.trailer, d.name, e.bytes);
    } else if p.ChunkBody? {
      ChunksSnoc(d.chunks, d.bytes);
    }
  }

  lemma NoHeaders()
    ensures RenderHeaders([]) == [] && RenderChunks([]) == []
  {
  }

  /** The end of a message. */
  lemma ExtendDone(p: Phase, d: Draft)
    requires !Advance(p, MessageComplete).Bad?
    ensures var k := Extend(p, d, MessageComplete);
            && Advance(p, MessageComplete) == Between
            && |k.done| == |d.done| + 1 && k.done[..|d.done|] == d.done
            && Render(k.done[|d.done|]) == Part(p, d) + [MessageComplete]
  {
    hide RenderHead, RenderHeaders, RenderChunks, RenderAll;
  }

  predicate Canonical(t: Trace) { forall i :: 0 <= i < |t| - 1 ==> !t[i].SameKind(t[i + 1]) }

  lemma PushCanonical(t: Trace, e: Event)
    requires Canonical(t)
    ensures Canonical(Push(t, e))
  {
    var u := Push(t, e);
    forall i | 0 <= i < |u| - 1
      ensures !u[i].SameKind(u[i + 1])
    {
      if i + 1 < |t| {
        assert !t[i].SameKind(t[i + 1]);
      }
    }
  }

  lemma {:induction false} CanonCanonical(cbs: seq<Event>)
    ensures Canonical(Canon(cbs))
  {
    hide Push;
    if cbs != [] {
      CanonCanonical(cbs[..|cbs| - 1]);
      PushCanonical(Canon(cbs[..|cbs| - 1]), cbs[|cbs| - 1]);
    }
  }

  /** A trace in order is whole messages followed by a part of one. */
  lemma {:induction false} Decompose(t: Trace) returns (d: Draft)
    requires Canonical(t) && !PhaseOf(t).Bad?
    ensures Fits(PhaseOf(t), d) && t == RenderAll(d.done) + Part(PhaseOf(t), d)
    decreases |t|
  {
    hide Extend, Advance, Part, Render, Fits, RenderAll;
    if t == [] {
      d := Draft([], [], [], [], [], [], []);
      BetweenPart(d);
      assert RenderAll([]) == [] by { AllNone(); }
      return;
    }
    var u := t[..|t| - 1];
    var e := t[|t| - 1];
    var p := PhaseOf(u);
    BadStays(e);
    var b := Decompose(u);
    assert t == u + [e];
    var part := Part(p, b);
    assert t == RenderAll(b.done) + (part + [e]);
    d := Extend(p, b, e);
    if e.MessageComplete? {
      ExtendAll(p, b);
    } else {
      if |u| > 0 {
        assert u[|u| - 1] == t[|t| - 2] && !t[|t| - 2].SameKind(e);
      }
      PhaseMoves(u, p, b, e);
      ExtendPart(p, b, e);
    }
  }

  lemma AllNone()
    ensures RenderAll([]) == []
  {
  }

  /** Of two callbacks of different kinds the second one moves the phase. */
  lemma PhaseMoves(u: Trace, p: Phase, b: Draft, e: Event)
    requires Fits(p, b) && u == RenderAll(b.done) + Part(p, b) && p == PhaseOf(u) && !Advance(p, e).Bad?
    requires |u| > 0 ==> !u[|u| - 1].SameKind(e)
    ensures Advance(p, e) != p
  {
    hide Advance, Part, Render, Fits, RenderAll, PhaseOf;
    if Advance(p, e) == p {
      PartLast(p, b, e);
      assert false;
    }
  }

  /** The end of a message makes it one of the whole messages. */
  lemma ExtendAll(p: Phase, b: Draft)
    requires !Advance(p, MessageComplete).Bad?
    ensures var d := Extend(p, b, MessageComplete);
            var q := Advance(p, MessageComplete);
            Fits(q, d) && RenderAll(d.done) + Part(q, d) == RenderAll(b.done) + (Part(p, b) + [MessageComplete])
  {
    hide Extend, Advance, Part, Render, Fits, RenderAll;
    var d := Extend(p, b, MessageComplete);
    ExtendDone(p, b);
    assert d.done == d.done[..|b.done|] + [d.done[|b.done|]];
    AllSnoc(b.done, d.done[|b.done|]);
    BetweenPart(d);
  }

  lemma BetweenPart(d: Draft)
    ensures Fits(Between, d) && Part(Between, d) == []
  {
  }

  lemma BadStays(e: Event)
    ensures Advance(Bad, e).Bad?
  {
  }

  /** Any part of a message can be completed. */
  lemma Finish(p: Phase, d: Draft) returns (m: Message)
    requires Fits(p, d) && !p.Bad? && !p.Between?
    ensures Part(p, d) <= Render(m)
  {
    hide Render, Part, Fits;
    if p.ChunkHead? || p.ChunkBody? || p.ChunkEnd? || p.TrailerName? || p.TrailerValue? || p.LastEnd? {
      m := FinishChunks(p, d);
    } else {
      m := FinishHead(p, d);
    }
  }

  lemma FinishHead(p: Phase, d: Draft) returns (m: Message)
    requires p.Begun? || p.Target? || p.Name? || p.Headers? || p.Complete? || p.InBody?
    ensures Part(p, d) <= Render(m)
  {
    hide RenderAll, RenderHeaders, RenderChunks;
    NoHeaders();
    HeadersSnoc(d.headers, d.name, []);
    match p
    case Begun => m := Message([], [], Nothing);
    case Target => m := Message(d.target, [], Nothing);
    case Name => m := Message(d.target, d.headers + [(d.name, [])], Nothing);
    case Headers => m := Message(d.target, d.headers, Nothing);
    case Complete => m := Message(d.target, d.headers, Nothing);
    case InBody => m := Message(d.target, d.headers, Whole(d.bytes));
  }

  lemma FinishChunks(p: Phase, d: Draft) returns (m: Message)
    requires p.ChunkHead? || p.ChunkBody? || p.ChunkEnd? || p.TrailerName? || p.TrailerValue? || p.LastEnd?
    ensures Part(p, d) <= Render(m)
  {
    hide RenderAll, RenderHead, RenderHeaders, RenderChunks;
    NoHeaders();
    HeadersSnoc(d.trailer, d.name, []);
    ChunksSnoc(d.chunks, d.bytes);
    match p
    case ChunkHead => m := Message(d.target, d.headers, Chunks(d.chunks, []));
    case ChunkBody => m := Message(d.target, d.headers, Chunks(d.chunks + [d.bytes], []));
    case ChunkEnd => m := Message(d.target, d.headers, Chunks(d.chunks, []));
    case TrailerName => m := Message(d.target, d.headers, Chunks(d.chunks, d.trailer + [(d.name, [])]));
    case TrailerValue => m := Message(d.target, d.headers, Chunks(d.chunks, d.trailer));
    case LastEnd => m := Message(d.target, d.headers, Chunks(d.chunks, d.trailer));
  }

  /** Callbacks in order, fragments joined, are a prefix of rendered messages, and render whole messages
      when they end between two of them. */
  lemma WholeMessages(cbs: seq<Event>) returns (ms: seq<Message>)
    requires !PhaseOf(cbs).Bad?
    ensures Canon(cbs) <= RenderAll(ms)
    ensures PhaseOf(cbs).Between? ==> Canon(cbs) == RenderAll(ms)
  {
    hide Render, Fits, Advance;
    PhaseCanon(cbs);
    CanonCanonical(cbs);
    var d := Decompose(Canon(cbs));
    ms := d.done;
    if !PhaseOf(cbs).Between? {
      var m := Finish(PhaseOf(cbs), d);
      ms := d.done + [m];
      AllSnoc(d.done, m);
    }
  }

  /** Only between two messages are they whole messages. */
  lemma WholeExact(cbs: seq<Event>)
    requires !PhaseOf(cbs).Bad?
    ensures PhaseOf(cbs).Between? <==> exists ms :: Canon(cbs) == RenderAll(ms)
  {
    hide RenderAll, PhaseOf;
    PhaseCanon(cbs);
    var some := WholeMessages(cbs);
    if ms :| Canon(cbs) == RenderAll(ms) {
      AllBetween(ms);
    }
  }

  /** A rendering of whole messages ends between two of them. */
  lemma {:induction false} AllBetween(ms: seq<Message>)
    ensures PhaseOf(RenderAll(ms)).Between?
  {
    if ms != [] {
      var n := |ms| - 1;
      var front := RenderAll(ms[..n]);
      AllBetween(ms[..n]);
      assert RenderAll(ms) == front + Render(ms[n]);
      MessageEnds(front, ms[n]);
    }
  }

  lemma PhaseSnoc(t: Trace, e: Event)
    ensures PhaseOf(t + [e]) == Advance(PhaseOf(t), e)
  {
    hide Advance;
    assert (t + [e])[..|t|] == t;
  }

  lemma {:induction false} HeadersPhase(t: Trace, hs: HeaderList)
    requires PhaseOf(t).Target? || PhaseOf(t).ChunkHead?
    ensures var p := PhaseOf(t + RenderHeaders(hs));
            if PhaseOf(t).Target? then p.Target? || p.Headers? else p.ChunkHead? || p.TrailerValue?
  {
    hide PhaseOf;
    if hs == [] {
      assert t + RenderHeaders(hs) == t;
    } else {
      var n := |hs| - 1;
      HeadersPhase(t, hs[..n]);
      var u := t + RenderHeaders(hs[..n]);
      PhaseSnoc(u, Field(hs[n].0));
      PhaseSnoc(u + [Field(hs[n].0)], Value(hs[n].1));
      assert t + RenderHeaders(hs) == u + [Field(hs[n].0)] + [Value(hs[n].1)];
    }
  }

  lemma {:induction false} ChunksPhase(t: Trace, cs: seq<Bytes>)
    requires PhaseOf(t).Complete?
    ensures var p := PhaseOf(t + RenderChunks(cs)); p.Complete? || p.ChunkEnd?
  {
    hide PhaseOf;
    if cs == [] {
      assert t + RenderChunks(cs) == t;
    } else {
      var n := |cs| - 1;
      ChunksPhase(t, cs[..n]);
      var u := t + RenderChunks(cs[..n]);
      PhaseSnoc(u, ChunkHeader);
      PhaseSnoc(u + [ChunkHeader], Body(cs[n]));
      PhaseSnoc(u + [ChunkHeader] + [Body(cs[n])], ChunkComplete);
      assert t + RenderChunks(cs) == u + [ChunkHeader] + [Body(cs[n])] + [ChunkComplete];
    }
  }

  lemma ContentPhase(t: Trace, c: Content)
    requires PhaseOf(t).Complete?
    ensures var p := PhaseOf(t + RenderContent(c)); p.Complete? || p.InBody? || p.LastEnd?
  {
    hide PhaseOf, RenderHeaders, RenderChunks;
    match c
    case Nothing => assert t + [] == t;
    case Whole(b) => PhaseSnoc(t, Body(b));
    case Chunks(cs, trailer) =>
      var u := t + RenderChunks(cs);
      ChunksPhase(t, cs);
      PhaseSnoc(u, ChunkHeader);
      var v := u + [ChunkHeader] + RenderHeaders(trailer);
      HeadersPhase(u + [ChunkHeader], trailer);
      PhaseSnoc(v, ChunkComplete);
      assert t + RenderContent(c) == v + [ChunkComplete];
  }

  lemma MessageEnds(t: Trace, m: Message)
    requires PhaseOf(t).Between?
    ensures PhaseOf(t + Render(m)).Between?
  {
    hide PhaseOf, RenderHeaders, RenderContent;
    PhaseSnoc(t, MessageBegin);
    PhaseSnoc(t + [MessageBegin], Url(m.target));
    var head := t + [MessageBegin] + [Url(m.target)];
    HeadersPhase(head, m.headers);
    PhaseSnoc(head + RenderHeaders(m.headers), HeadersComplete);
    var body := head + RenderHeaders(m.headers) + [HeadersComplete];
    ContentPhase(body, m.content);
    PhaseSnoc(body + RenderContent(m.content), MessageComplete);
    assert t + Render(m) == body + RenderContent(m.content) + [MessageComplete];
  }

  lemma CutInOrder(cbs: seq<Event>, t: Trace)
    requires Cut(cbs, t) && !PhaseOf(t).Bad?
    ensures !PhaseOf(cbs).Bad?
  {
    hide Push, PhaseOf, Canon;
    PhaseCanon(cbs);
    if Canon(cbs) != t {
      var e: Event :| e.IsData() && Push(Canon(cbs), e) == t;
      PhasePush(Canon(cbs), e);
    }
  }

  lemma NearInOrder(cbs: seq<Event>, t: Trace)
    requires Near(cbs, t) && !PhaseOf(t).Bad?
    ensures !PhaseOf(cbs).Bad?
  {
    hide PhaseOf, Canon, Advance;
    PhaseCanon(cbs);
    if Cut(cbs, t) {
      CutInOrder(cbs, t);
    } else {
      var e: Event :| LastIs(t, e) && Canon(cbs) == Push(t, e);
      LongerPhase(t, e);
    }
  }

  lemma LongerPhase(t: Trace, e: Event)
    requires LastIs(t, e)
    ensures PhaseOf(Push(t, e)) == PhaseOf(t)
  {
    hide Advance;
    PhasePush(t, e);
    AdvanceTwice(PhaseOf(t[..|t| - 1]), t[|t| - 1], e);
  }

  /** What a parser reported for any input, in one buffer or in many, is a prefix of rendered messages; it
      is all of them when the parser waits for the next message. */
  lemma ReportedMessages(p: Parser, data: Bytes, n: nat, exit: bool) returns (ms: seq<Message>)
    requires p.Executed(INIT, data, n, exit)
    ensures Canon(p.callbacks) <= RenderAll(ms)
    ensures p.errno == OK && (p.state.StartReq? || p.state.Dead?) ==> Canon(p.callbacks) == RenderAll(ms)
  {
    hide Run, Canon, RenderAll, PhaseOf;
    var r := Run(INIT, data);
    assert InOrder(INIT) by { assert PhaseOf([]) == Between by { PhaseNil(); } }
    RunOrder(INIT, data);
    if r.errno == OK {
      assert p.Snap() == r.(exited := false);
    } else if r.errno == HEADER_OVERFLOW {
      var j :| 0 <= j <= |data| && !Stopped(Run(INIT, data[..j])) && Near(p.callbacks, Run(INIT, data[..j]).trace);
      RunOrder(INIT, data[..j]);
      NearInOrder(p.callbacks, Run(INIT, data[..j]).trace);
    } else {
      CutInOrder(p.callbacks, r.trace);
    }
    PhaseCanon(p.callbacks);
    ms := WholeMessages(p.callbacks);
  }

  lemma PhaseNil()
    ensures PhaseOf([]) == Between
  {
  }
}
