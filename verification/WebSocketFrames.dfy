/** Receiving inverts sending: a fragmented masked message is put together again, however the stream is cut,
    and a frame of the server can be read back (sections 5.2 to 5.4 of RFC 6455). */
module WebSocketFrames {
  import opened ByteOrder
  import opened Options
  import opened WebSocket

  datatype Form = Short | Medium | Long

  /** A masked data frame of a client. */
  datatype Frame = Frame(fin: bool, rsv: nat, opcode: nat, form: Form, key: Bytes, payload: Bytes)

  predicate WellFormed(f: Frame) {
    && f.rsv < 8 && f.opcode in {CONTINUE, TEXT, BIN} && |f.key| == 4
    && 0 < |f.payload| < MAX_MESSAGE
    && (f.form.Short? ==> |f.payload| < 126) && (f.form.Medium? ==> |f.payload| < 65536)
  }

  function FormField(f: Frame): nat {
    match f.form
    case Short => |f.payload|
    case Medium => 126
    case Long => 127
  }

  function FormBytes(form: Form): nat { if form.Short? then 0 else if form.Medium? then 2 else 8 }

  function EncodeHead(f: Frame): (b: Bytes)
    requires WellFormed(f)
    ensures |b| == 2
  {
    [(if f.fin then 128 else 0) + 16 * f.rsv + f.opcode, 128 + FormField(f)]
  }

  /** A frame up to its payload: head, length and key. */
  function Front(f: Frame): (b: Bytes)
    requires WellFormed(f)
    ensures |b| == 6 + FormBytes(f.form)
  {
    EncodeHead(f) + BigEndian(|f.payload|, FormBytes(f.form)) + f.key
  }

  function EncodeFrame(f: Frame): Bytes
    requires WellFormed(f)
  {
    Front(f) + Masked(f.payload, f.key)
  }

  /** The head as it is read. */
  function HeadOf(f: Frame): Head
    requires WellFormed(f)
  {
    Head(f.fin, f.rsv, f.opcode, true, FormField(f))
  }

  lemma HeadReads(f: Frame)
    requires WellFormed(f)
    ensures var b := EncodeHead(f);
            && Init(b[0], b[1]) == HeadOf(f)
            && Extra(FormField(f)) == FormBytes(f.form)
  {
  }

  lemma PaddedPrefix(a: Bytes, b: Bytes)
    ensures Padded(a + b, |a|) == a && (a + b)[Min(|a|, |a + b|)..] == b
  {
  }

  lemma Values8()
    ensures Values(2) == 65536 && Values(8) == TWO_64
  {
  }

  /** The opcode of the message, once the frame has been seen. */
  function NextOpcode(f: Frame, opcode: nat): nat {
    if opcode == 0 && f.opcode != CONTINUE then f.opcode else opcode
  }

  lemma LengthReads(f: Frame, part: Bytes, data: Bytes, opcode: nat)
    requires WellFormed(f) && |data| + |f.payload| < MAX_MESSAGE
    ensures ReceiveLength(HeadOf(f), BigEndian(|f.payload|, FormBytes(f.form)) + part, data, opcode) ==
            if part == [] then Nothing([])
            else ReceivePayload(HeadOf(f), Padded(part, 4), part[Min(4, |part|)..], |f.payload|, data, opcode)
  {
    hide ReceivePayload, Padded, Extra;
    var k := FormBytes(f.form);
    var number := BigEndian(|f.payload|, k);
    HeadReads(f);
    PaddedPrefix(number, part);
    if k > 0 {
      Values8();
      BigRound(|f.payload|, k);
    } else {
      assert number + part == part;
    }
  }

  /** What a stream that begins with a frame up to some byte of its payload means. */
  lemma FrameStart(f: Frame, tail: Bytes, data: Bytes, opcode: nat)
    requires WellFormed(f) && tail != [] && |data| + |f.payload| < MAX_MESSAGE
    ensures Receive(Front(f) + tail, data, opcode) ==
            ReceivePayload(HeadOf(f), f.key, tail, |f.payload|, data, opcode)
  {
    hide ReceiveLength, ReceivePayload, Padded, Init, Extra;
    var head, number := EncodeHead(f), BigEndian(|f.payload|, FormBytes(f.form));
    HeadReads(f);
    var s := Front(f) + tail;
    assert s[0] == head[0] && s[1] == head[1] && s[2..] == number + (f.key + tail);
    LengthReads(f, f.key + tail, data, opcode);
    PaddedPrefix(f.key, tail);
  }

  /** A whole frame adds its payload to the data. */
  lemma FrameReads(f: Frame, rest: Bytes, data: Bytes, opcode: nat)
    requires WellFormed(f) && |data| + |f.payload| < MAX_MESSAGE
    ensures Receive(EncodeFrame(f) + rest, data, opcode) ==
            if f.fin then Message(NextOpcode(f, opcode), data + f.payload, rest)
            else Receive(rest, data + f.payload, NextOpcode(f, opcode))
  {
    hide Receive;
    var masked := Masked(f.payload, f.key);
    FrameStart(f, masked + rest, data, opcode);
    assert EncodeFrame(f) + rest == Front(f) + (masked + rest);
    PaddedPrefix(masked, rest);
    MaskTwice(f.payload, f.key);
  }

  /** Behind one byte of data, a frame whose length is all ones passes the limit, since the sum wraps. */
  lemma LimitMissed(f: Frame, key: Byte)
    requires WellFormed(f) && !f.fin && |f.payload| == 1
    ensures var n := TWO_64 - 1;
            && (1 + n) % TWO_64 < MAX_MESSAGE
            && Receive(EncodeFrame(f) + ([128, 255] + BigEndian(n, 8) + [key]), [], 0) == Unknown
  {
    hide Receive, EncodeFrame, Padded, Extra;
    var n: nat := TWO_64 - 1;
    var number := BigEndian(n, 8);
    var rest := [128, 255] + number + [key];
    FrameReads(f, rest, [], 0);
    assert [] + f.payload == f.payload;
    var h := Head(true, 0, CONTINUE, true, 127);
    assert rest[2..] == number + [key];
    HugeLength(h, key, f.payload, NextOpcode(f, 0));
    MaskedFrame(h, rest, f.payload, NextOpcode(f, 0));
  }

  lemma MaskedFrame(h: Head, s: Bytes, data: Bytes, opcode: nat)
    requires |s| >= 2 && h == Init(s[0], s[1]) && h.mask && h.opcode == CONTINUE
    ensures Receive(s, data, opcode) == ReceiveLength(h, s[2..], data, opcode)
  {
  }

  lemma HugeLength(h: Head, key: Byte, data: Bytes, opcode: nat)
    requires h.payload == 127 && |data| == 1
    ensures ReceiveLength(h, BigEndian(TWO_64 - 1, 8) + [key], data, opcode) == Unknown
  {
    hide Padded, ReceivePayload;
    var n: nat := TWO_64 - 1;
    Values8();
    BigRound(n, 8);
    PaddedPrefix(BigEndian(n, 8), [key]);
  }

  // Messages

  function EncodeFrames(fs: seq<Frame>): Bytes
    requires forall i :: 0 <= i < |fs| ==> WellFormed(fs[i])
  {
    if fs == [] then [] else EncodeFrame(fs[0]) + EncodeFrames(fs[1..])
  }

  function Payloads(fs: seq<Frame>): Bytes {
    if fs == [] then [] else fs[0].payload + Payloads(fs[1..])
  }

  /** Frames that end a message: only the last one has the FIN bit. */
  predicate Closing(fs: seq<Frame>) {
    && fs != [] && (forall i :: 0 <= i < |fs| ==> WellFormed(fs[i]) && (fs[i].fin <==> i == |fs| - 1))
    && |Payloads(fs)| < MAX_MESSAGE
  }

  /** A fragmented message: a text or binary frame, then continuation frames. */
  predicate Fragmented(fs: seq<Frame>) {
    && Closing(fs) && fs[0].opcode != CONTINUE
    && forall i :: 1 <= i < |fs| ==> fs[i].opcode == CONTINUE
  }

  lemma {:induction false} ClosingReads(fs: seq<Frame>, rest: Bytes, data: Bytes, opcode: nat)
    requires Closing(fs) && |data| + |Payloads(fs)| < MAX_MESSAGE && (opcode != 0 || fs[0].opcode != CONTINUE)
    ensures Receive(EncodeFrames(fs) + rest, data, opcode) ==
            Message(NextOpcode(fs[0], opcode), data + Payloads(fs), rest)
    decreases |fs|
  {
    hide Receive, EncodeFrame;
    var f := fs[0];
    assert WellFormed(f);
    assert EncodeFrames(fs) + rest == EncodeFrame(f) + (EncodeFrames(fs[1..]) + rest);
    FrameReads(f, EncodeFrames(fs[1..]) + rest, data, opcode);
    assert data + Payloads(fs) == data + f.payload + Payloads(fs[1..]);
    if |fs| == 1 {
      assert EncodeFrames(fs[1..]) + rest == rest && Payloads(fs[1..]) == [];
    } else {
      assert !f.fin;
      ClosingReads(fs[1..], rest, data + f.payload, NextOpcode(f, opcode));
    }
  }

  /** A fragmented message is read as the opcode of its first frame and all its payloads, unmasked. */
  lemma Reassembly(fs: seq<Frame>, rest: Bytes)
    requires Fragmented(fs)
    ensures Receive(EncodeFrames(fs) + rest, [], 0) == Message(fs[0].opcode, Payloads(fs), rest)
  {
    hide Receive, EncodeFrames;
    ClosingReads(fs, rest, [], 0);
    assert [] + Payloads(fs) == Payloads(fs);
  }

  /** So it is, however the stream is cut into reads, and exactly the bytes of the message are consumed. */
  method ReceiveFragments(fs: seq<Frame>, rest: Bytes, cuts: seq<nat>) returns (r: Option<(nat, Bytes)>, left: Bytes)
    requires Fragmented(fs)
    ensures r == Some((fs[0].opcode, Payloads(fs))) && left == rest
  {
    hide Receive, EncodeFrames, Payloads;
    var c := new Connection(EncodeFrames(fs) + rest, cuts, []);
    Reassembly(fs, rest);
    r := RecvMessage(c);
    left := c.input;
  }

  // Streams that end early

  /** A payload of which only the first bytes have arrived, as it is delivered: in place of the missing bytes
      stand those of the key. */
  function Torn(f: Frame, got: nat): (p: Bytes)
    requires WellFormed(f) && got <= |f.payload|
    ensures |p| == |f.payload|
  {
    f.payload[..got] + seq(|f.payload| - got, i requires 0 <= i < |f.payload| - got => f.key[(got + i) % 4])
  }

  lemma TornMask(f: Frame, got: nat)
    requires WellFormed(f) && got <= |f.payload|
    ensures Masked(Padded(Masked(f.payload, f.key)[..got], |f.payload|), f.key) == Torn(f, got)
  {
    var masked := Masked(f.payload, f.key);
    var padded := Padded(masked[..got], |f.payload|);
    forall i | 0 <= i < |f.payload| ensures Masked(padded, f.key)[i] == Torn(f, got)[i] {
      if i < got {
        XorTwice(f.payload[i], f.key[i % 4]);
      } else {
        XorZero(f.key[i % 4]);
      }
    }
  }

  /** A stream that ends in the head, the length or the key of a frame. */
  lemma FrontCut(f: Frame, n: nat, data: Bytes, opcode: nat)
    requires WellFormed(f) && |data| + |f.payload| < MAX_MESSAGE && n <= |Front(f)|
    ensures Receive(Front(f)[..n], data, opcode) == if n == 1 then Unknown else Nothing([])
  {
    hide ReceiveLength, ReceivePayload, Padded, Init, Extra;
    var head, number := EncodeHead(f), BigEndian(|f.payload|, FormBytes(f.form));
    var k := FormBytes(f.form);
    var s := Front(f)[..n];
    if n >= 2 {
      HeadReads(f);
      assert s[0] == head[0] && s[1] == head[1];
      var t := s[2..];
      assert Receive(s, data, opcode) == ReceiveLength(HeadOf(f), t, data, opcode);
      if n > 2 + k {
        var part := f.key[..n - 2 - k];
        assert t == number + part;
        LengthReads(f, part, data, opcode);
        assert part[Min(4, |part|)..] == [];
        EmptyPayload(HeadOf(f), Padded(part, 4), |f.payload|, data, opcode);
      } else {
        LengthCut(HeadOf(f), t, data, opcode);
      }
    }
  }

  lemma LengthCut(h: Head, s: Bytes, data: Bytes, opcode: nat)
    requires |s| <= Extra(h.payload)
    ensures ReceiveLength(h, s, data, opcode) == Nothing([])
  {
  }

  lemma EmptyPayload(h: Head, key: Bytes, length: nat, data: Bytes, opcode: nat)
    requires |key| == 4
    ensures ReceivePayload(h, key, [], length, data, opcode) == Nothing([])
  {
  }

  /** A stream that ends in the payload of a frame. */
  lemma PayloadCut(f: Frame, got: nat, data: Bytes, opcode: nat)
    requires WellFormed(f) && |data| + |f.payload| < MAX_MESSAGE && 0 < got < |f.payload|
    ensures Receive(Front(f) + Masked(f.payload, f.key)[..got], data, opcode) ==
            if f.fin then Message(NextOpcode(f, opcode), data + Torn(f, got), []) else Nothing([])
  {
    hide Receive, Padded, Masked, Torn;
    var part := Masked(f.payload, f.key)[..got];
    FrameStart(f, part, data, opcode);
    assert part[Min(|f.payload|, |part|)..] == [];
    TornMask(f, got);
    ReceiveNone(data + Torn(f, got), NextOpcode(f, opcode));
  }

  lemma ReceiveNone(data: Bytes, opcode: nat)
    ensures Receive([], data, opcode) == Nothing([])
  {
  }

  /** The number of bytes before the payload of the last frame. */
  function Body(fs: seq<Frame>): nat
    requires Closing(fs)
  {
    FramesSize(fs);
    |EncodeFrames(fs)| - |fs[|fs| - 1].payload|
  }

  lemma {:induction false} FramesSize(fs: seq<Frame>)
    requires fs != [] && forall i :: 0 <= i < |fs| ==> WellFormed(fs[i])
    ensures |EncodeFrames(fs)| >= |Front(fs[|fs| - 1])| + |fs[|fs| - 1].payload|
  {
    if |fs| > 1 {
      FramesSize(fs[1..]);
    }
  }

  /** A stream that ends after the first byte of a head. */
  predicate HalfHead(fs: seq<Frame>, n: nat)
    requires forall i :: 0 <= i < |fs| ==> WellFormed(fs[i])
  {
    exists i :: 0 <= i < |fs| && n == |EncodeFrames(fs[..i])| + 1
  }

  lemma HalfHeadFirst(fs: seq<Frame>, n: nat)
    requires fs != [] && (forall i :: 0 <= i < |fs| ==> WellFormed(fs[i])) && n <= |EncodeFrame(fs[0])|
    ensures HalfHead(fs, n) <==> n == 1
  {
    assert n == 1 ==> n == |EncodeFrames(fs[..0])| + 1;
    forall i | 0 < i < |fs| ensures n != |EncodeFrames(fs[..i])| + 1 {
      assert fs[..i][0] == fs[0];
    }
  }

  lemma HalfHeadRest(fs: seq<Frame>, n: nat)
    requires fs != [] && (forall i :: 0 <= i < |fs| ==> WellFormed(fs[i])) && n >= |EncodeFrame(fs[0])|
    ensures HalfHead(fs, n) <==> HalfHead(fs[1..], n - |EncodeFrame(fs[0])|)
  {
    var m := n - |EncodeFrame(fs[0])|;
    forall i | 0 < i < |fs| ensures |EncodeFrames(fs[..i])| == |EncodeFrame(fs[0])| + |EncodeFrames(fs[1..][..i - 1])| {
      assert fs[..i][0] == fs[0] && fs[..i][1..] == fs[1..][..i - 1];
    }
    if HalfHead(fs, n) {
      var i :| 0 <= i < |fs| && n == |EncodeFrames(fs[..i])| + 1;
      assert i > 0;
      assert m == |EncodeFrames(fs[1..][..i - 1])| + 1;
    }
    if HalfHead(fs[1..], m) {
      var i :| 0 <= i < |fs| - 1 && m == |EncodeFrames(fs[1..][..i])| + 1;
      assert n == |EncodeFrames(fs[..i + 1])| + 1;
    }
  }

  /** What the first n bytes of the frames of a message give. */
  function CutOutcome(fs: seq<Frame>, n: nat, data: Bytes, opcode: nat): Outcome
    requires Closing(fs) && n < |EncodeFrames(fs)|
  {
    var last := |fs| - 1;
    if n > Body(fs) then
      Message(NextOpcode(fs[0], opcode), data + Payloads(fs[..last]) + Torn(fs[last], n - Body(fs)), [])
    else if HalfHead(fs, n) then Unknown
    else Nothing([])
  }

  lemma FirstCut(fs: seq<Frame>, n: nat, data: Bytes, opcode: nat)
    requires Closing(fs) && |data| + |Payloads(fs)| < MAX_MESSAGE && n < |EncodeFrame(fs[0])|
    ensures n < |EncodeFrames(fs)|
    ensures Receive(EncodeFrames(fs)[..n], data, opcode) == CutOutcome(fs, n, data, opcode)
  {
    hide Receive, HalfHead, Torn, Front, Masked, Body, EncodeFrames;
    var f := fs[0];
    FirstPrefix(fs, n);
    HalfHeadFirst(fs, n);
    FrontBody(fs);
    if n <= |Front(f)| {
      FrontCut(f, n, data, opcode);
    } else {
      PayloadCut(f, n - |Front(f)|, data, opcode);
      if |fs| == 1 {
        assert data + Payloads(fs[..0]) == data;
      }
    }
  }

  /** The first bytes of a message are those of its first frame. */
  lemma FirstPrefix(fs: seq<Frame>, n: nat)
    requires fs != [] && (forall i :: 0 <= i < |fs| ==> WellFormed(fs[i])) && n < |EncodeFrame(fs[0])|
    ensures |EncodeFrame(fs[0])| == |Front(fs[0])| + |fs[0].payload| && n < |EncodeFrames(fs)|
    ensures var front := Front(fs[0]);
            EncodeFrames(fs)[..n] ==
            if n <= |front| then front[..n] else front + Masked(fs[0].payload, fs[0].key)[..n - |front|]
  {
    hide Front, Masked;
  }

  lemma FrontBody(fs: seq<Frame>)
    requires Closing(fs)
    ensures if |fs| == 1 then Body(fs) == |Front(fs[0])| else Body(fs) > |EncodeFrame(fs[0])|
  {
    hide Front, Masked;
    if |fs| > 1 {
      FramesSize(fs[1..]);
      assert fs[1..][|fs| - 2] == fs[|fs| - 1];
    } else {
      assert fs[1..] == [] && EncodeFrames(fs) == EncodeFrame(fs[0]) + [];
    }
  }

  lemma {:induction false} ClosingCut(fs: seq<Frame>, n: nat, data: Bytes, opcode: nat)
    requires Closing(fs) && |data| + |Payloads(fs)| < MAX_MESSAGE && n < |EncodeFrames(fs)|
    requires opcode != 0 || fs[0].opcode != CONTINUE
    ensures Receive(EncodeFrames(fs)[..n], data, opcode) == CutOutcome(fs, n, data, opcode)
    decreases |fs|
  {
    hide Receive, EncodeFrame, HalfHead, Torn;
    var f, rest := fs[0], fs[1..];
    var size := |EncodeFrame(f)|;
    if n < size {
      FirstCut(fs, n, data, opcode);
    } else {
      assert |fs| > 1 && !f.fin;
      assert Closing(rest);
      assert EncodeFrames(fs)[..n] == EncodeFrame(f) + EncodeFrames(rest)[..n - size];
      FrameReads(f, EncodeFrames(rest)[..n - size], data, opcode);
      ClosingCut(rest, n - size, data + f.payload, NextOpcode(f, opcode));
      HalfHeadRest(fs, n);
      assert fs[..|fs| - 1][1..] == rest[..|rest| - 1];
      var front := Payloads(rest[..|rest| - 1]);
      assert data + f.payload + front == data + (f.payload + front);
    }
  }

  /** The end of the stream is not noticed in every place.  When a fragmented message is cut short, a message
      is delivered all the same if and only if at least one byte of its last payload has arrived, and then
      the missing bytes of that payload are those of the key.  Nothing is delivered when the cut is in an
      earlier payload, a length or a key, or between frames; about half a head nothing is said. */
  lemma CutShort(fs: seq<Frame>, n: nat)
    requires Fragmented(fs) && n < |EncodeFrames(fs)|
    ensures var out, last := Receive(EncodeFrames(fs)[..n], [], 0), |fs| - 1;
            && (out.Message? <==> n > Body(fs))
            && (n > Body(fs) ==>
                  out == Message(fs[0].opcode, Payloads(fs[..last]) + Torn(fs[last], n - Body(fs)), []))
            && (n <= Body(fs) ==> out == if HalfHead(fs, n) then Unknown else Nothing([]))
  {
    hide Receive, EncodeFrames, Torn, HalfHead;
    ClosingCut(fs, n, [], 0);
    assert [] + Payloads(fs[..|fs| - 1]) == Payloads(fs[..|fs| - 1]);
  }

  // Frames of the server

  /** Reads an unmasked frame: FIN, opcode, payload, and the bytes behind it. */
  function ReadServerFrame(s: Bytes): Option<(bool, nat, Bytes, Bytes)> {
    if |s| < 2 then None
    else
      var h := Init(s[0], s[1]);
      var k := Extra(h.payload);
      if h.mask || |s| < 2 + k then None
      else
        var n := if k == 0 then h.payload else FromBigEndian(s[2..2 + k]);
        if |s| - 2 - k < n then None else Some((h.fin, h.opcode, s[2 + k..2 + k + n], s[2 + k + n..]))
  }

  /** What sendMessage sends, a client reads. */
  lemma ServerFrameReads(fin: bool, opcode: nat, data: Bytes, rest: Bytes)
    requires opcode < 16 && |data| < TWO_64
    ensures ReadServerFrame(ServerFrame(fin, opcode, data) + rest) == Some((fin, opcode, data, rest))
  {
    hide Generate, LengthField, Init;
    var field := LengthField(|data|);
    var k := Extra(field);
    var number := BigEndian(|data|, k);
    var s := ServerFrame(fin, opcode, data) + rest;
    HeadRound(fin, opcode, |data|);
    FieldMeaning(|data|);
    assert s[..2] == Generate(fin, opcode, |data|);
    assert s[2..2 + k] == number && s[2 + k..2 + k + |data|] == data && s[2 + k + |data|..] == rest;
    if k > 0 {
      BigRound(|data|, k);
    }
  }

  lemma FieldMeaning(size: nat)
    requires size < TWO_64
    ensures var k := Extra(LengthField(size));
            if k == 0 then LengthField(size) == size else size < Values(k)
  {
    Values8();
  }

  // The examples of section 5.7 of RFC 6455

  const HELLO: Bytes := [0x48, 0x65, 0x6c, 0x6c, 0x6f]

  const HELLO_FRAME: Bytes := [0x81, 0x85, 0x37, 0xfa, 0x21, 0x3d, 0x7f, 0x9f, 0x4d, 0x51, 0x58]

  /** A masked text message. */
  lemma HelloReads()
    ensures Receive(HELLO_FRAME, [], 0) == Message(1, HELLO, [])
  {
    hide Receive, ReceiveLength, ReceivePayload, Padded, Masked;
    var s := HELLO_FRAME;
    var h := Head(true, 0, 1, true, 5);
    HelloHead(s);
    HeadCases(s, [], 0);
    HelloFront(s[2..]);
    HelloBody(h, s[2..]);
  }

  lemma HelloHead(s: Bytes)
    requires s == HELLO_FRAME
    ensures Init(s[0], s[1]) == Head(true, 0, 1, true, 5) && s[0] % 16 == 1
  {
  }

  lemma HelloFront(s: Bytes)
    requires s == HELLO_FRAME[2..]
    ensures Padded(s, 4) == [0x37, 0xfa, 0x21, 0x3d] && s[4..] == [0x7f, 0x9f, 0x4d, 0x51, 0x58]
  {
  }

  lemma HelloBody(h: Head, s: Bytes)
    requires s == HELLO_FRAME[2..] && h == Head(true, 0, 1, true, 5)
    ensures ReceiveLength(h, s, [], 0) == Message(1, HELLO, [])
  {
    hide Masked, Padded;
    HelloFront(s);
    HelloMask();
    PaddedPrefix(s[4..], []);
    assert s[4..] + [] == s[4..];
  }

  lemma HelloMask()
    ensures Masked([0x7f, 0x9f, 0x4d, 0x51, 0x58], [0x37, 0xfa, 0x21, 0x3d]) == HELLO
  {
    HelloXor();
    hide Xor;
  }

  lemma HelloXor()
    ensures Xor(0x7f, 0x37) == 0x48 && Xor(0x9f, 0xfa) == 0x65 && Xor(0x4d, 0x21) == 0x6c
    ensures Xor(0x51, 0x3d) == 0x6c && Xor(0x58, 0x37) == 0x6f
  {
    LetterH();
    LetterE();
    LetterFirstL();
    LetterSecondL();
    LetterO();
    hide Xor;
  }

  lemma LetterH()
    ensures Xor(0x7f, 0x37) == 0x48
  {
    hide Xor;
    XorSum(0x7f, 0x37);
  }

  lemma LetterE()
    ensures Xor(0x9f, 0xfa) == 0x65
  {
    hide Xor;
    XorSum(0x9f, 0xfa);
  }

  lemma LetterFirstL()
    ensures Xor(0x4d, 0x21) == 0x6c
  {
    hide Xor;
    XorSum(0x4d, 0x21);
  }

  lemma LetterSecondL()
    ensures Xor(0x51, 0x3d) == 0x6c
  {
    hide Xor;
    XorSum(0x51, 0x3d);
  }

  lemma LetterO()
    ensures Xor(0x58, 0x37) == 0x6f
  {
    hide Xor;
    XorSum(0x58, 0x37);
  }

  method ReceiveHello(cuts: seq<nat>) returns (r: Option<(nat, Bytes)>)
    ensures r == Some((1, HELLO))
  {
    hide Receive;
    var c := new Connection(HELLO_FRAME, cuts, []);
    HelloReads();
    r := RecvMessage(c);
  }

  /** The server's text message of the same bytes, and the heads of 256 and of 65536 bytes of binary data. */
  lemma SentExamples(data: Bytes)
    ensures ServerFrame(true, 1, HELLO) == [0x81, 0x05, 0x48, 0x65, 0x6c, 0x6c, 0x6f]
    ensures |data| == 256 ==> ServerFrame(true, 2, data) == [0x82, 0x7e, 0x01, 0x00] + data
    ensures |data| == 65536 ==> ServerFrame(true, 2, data) == [0x82, 0x7f, 0, 0, 0, 0, 0, 1, 0, 0] + data
  {
    assert BigEndian(5, 0) == [];
    NumberExamples();
    hide BigEndian;
  }

  lemma NumberExamples()
    ensures BigEndian(256, 2) == [1, 0] && BigEndian(65536, 8) == [0, 0, 0, 0, 0, 1, 0, 0]
  {
  }
}
