/** WebSocket frames as the server reads and writes them (sections 5.2 to 5.4 of RFC 6455), over a stream
    that arrives in pieces of any size. */
module WebSocket {
  import opened ByteOrder
  import opened Options

  const MAX_MESSAGE: nat := 32 * 1024 * 1024

  const CONTINUE: nat := 0x0
  const TEXT: nat := 0x1
  const BIN: nat := 0x2
  const CLOSE: nat := 0x8
  const PING: nat := 0x9
  const PONG: nat := 0xA

  function Min(a: nat, b: nat): nat { if a < b then a else b }

  // Frame heads

  datatype Head = Head(fin: bool, rsv: nat, opcode: nat, mask: bool, payload: nat)

  /** WSFrameHead::init: bits 7, 6-4 and 3-0 of the first byte, bits 7 and 6-0 of the second. */
  function Init(b0: Byte, b1: Byte): (h: Head)
    ensures h.rsv < 8 && h.opcode < 16 && h.payload < 128
  {
    Head(b0 >= 128, b0 / 16 % 8, b0 % 16, b1 >= 128, b1 % 128)
  }

  /** The length field for a payload of the given size. */
  function LengthField(size: nat): nat { if size >= 65536 then 127 else if size >= 126 then 126 else size }

  /** WSFrameHead::generate on a cleared head. */
  function Generate(fin: bool, opcode: nat, size: nat): (b: Bytes)
    ensures |b| == 2
  {
    [(if fin then 128 else 0) + opcode % 16, LengthField(size)]
  }

  /** What generate writes, init reads. */
  lemma HeadRound(fin: bool, opcode: nat, size: nat)
    requires opcode < 16
    ensures var b := Generate(fin, opcode, size);
            Init(b[0], b[1]) == Head(fin, 0, opcode, false, LengthField(size))
  {
  }

  /** The number of bytes of the extended length. */
  function Extra(payload: nat): nat { if payload == 126 then 2 else if payload == 127 then 8 else 0 }

  // Receiving

  /** The first n bytes of a stream, followed by zeros where it ends early. */
  function Padded(s: Bytes, n: nat): (r: Bytes)
    ensures |r| == n
  {
    s[..Min(n, |s|)] + seq(n - Min(n, |s|), _ => 0)
  }

  function Masked(p: Bytes, key: Bytes): (r: Bytes)
    requires |key| == 4
    ensures |r| == |p|
  {
    seq(|p|, i requires 0 <= i < |p| => Xor(p[i], key[i % 4]))
  }

  lemma MaskTwice(p: Bytes, key: Bytes)
    requires |key| == 4
    ensures Masked(Masked(p, key), key) == p
  {
    forall i | 0 <= i < |p| ensures Masked(Masked(p, key), key)[i] == p[i] { XorTwice(p[i], key[i % 4]); }
  }

  /** A received message and what is left of the stream, or none and what is left, or a stream about which
      the model says nothing. */
  datatype Outcome = Message(opcode: nat, data: Bytes, rest: Bytes) | Nothing(rest: Bytes) | Unknown

  const TWO_64: nat := 0x1_0000_0000_0000_0000

  /** What the frames of a stream add to the data collected so far.  A short read is not noticed unless it
      reads nothing at all: the bytes it leaves out are zero, except in a head, where they are
      indeterminate. */
  function Receive(s: Bytes, data: Bytes, opcode: nat): Outcome
    decreases |s|
  {
    if s == [] then Nothing([])
    else if |s| == 1 then Unknown
    else
      var h := Init(s[0], s[1]);
      if h.opcode == CONTINUE || h.opcode == TEXT || h.opcode == BIN then
        if !h.mask then Nothing(s[2..]) else ReceiveLength(h, s[2..], data, opcode)
      else if h.opcode == PING || h.opcode == PONG || h.opcode == CLOSE then Nothing(s[2..])
      else Receive(s[2..], data, opcode)
  }

  function ReceiveLength(h: Head, s: Bytes, data: Bytes, opcode: nat): Outcome
    decreases |s| + 1
  {
    var k := Extra(h.payload);
    var length := if k == 0 then h.payload else FromBigEndian(Padded(s, k));
    var t := s[Min(k, |s|)..];
    if k > 0 && s == [] then Nothing([])
    else if (|data| + length) % TWO_64 >= MAX_MESSAGE || t == [] then Nothing(t)
    else if |data| + length >= TWO_64 then Unknown
    else ReceivePayload(h, Padded(t, 4), t[Min(4, |t|)..], length, data, opcode)
  }

  function ReceivePayload(h: Head, key: Bytes, s: Bytes, length: nat, data: Bytes, opcode: nat): Outcome
    requires |key| == 4
    decreases |s|
  {
    if length == 0 || s == [] then Nothing(s)
    else
      var all := data + Masked(Padded(s, length), key);
      var op := if opcode == 0 && h.opcode != CONTINUE then h.opcode else opcode;
      var rest := s[Min(length, |s|)..];
      if h.fin then Message(op, all, rest) else Receive(rest, all, op)
  }

  /** What the first two bytes of a frame decide: data frames are read on if they are masked, control frames end
      the call, and the head of any other frame is skipped. */
  lemma HeadCases(s: Bytes, data: Bytes, opcode: nat)
    requires |s| >= 2
    ensures s[0] % 16 in {8, 9, 10} ==> Receive(s, data, opcode) == Nothing(s[2..])
    ensures s[0] % 16 in {0, 1, 2} && s[1] < 128 ==> Receive(s, data, opcode) == Nothing(s[2..])
    ensures s[0] % 16 in {0, 1, 2} && s[1] >= 128 ==>
              Receive(s, data, opcode) == ReceiveLength(Init(s[0], s[1]), s[2..], data, opcode)
    ensures s[0] % 16 !in {0, 1, 2, 8, 9, 10} ==> Receive(s, data, opcode) == Receive(s[2..], data, opcode)
  {
    hide ReceiveLength;
  }

  /** The limit of recvMessage is compared with a sum of 64 bits.  A frame that takes the data to the limit is
      refused if and only if the sum does not wrap, and a shorter one never is. */
  lemma LimitExact(size: nat, length: nat)
    requires size < MAX_MESSAGE && length < TWO_64
    ensures MAX_MESSAGE == 33554432
    ensures (size + length) % TWO_64 >= MAX_MESSAGE <==> MAX_MESSAGE <= size + length < TWO_64
  {
    if size + length >= TWO_64 {
      assert (size + length) % TWO_64 == size + length - TWO_64;
    }
  }

  /** What has been collected stays below the limit, and so does every message that is delivered. */
  lemma {:induction false} MessageSize(s: Bytes, data: Bytes, opcode: nat)
    requires |data| < 33554432
    ensures var out := Receive(s, data, opcode); out.Message? ==> |out.data| < 33554432
    decreases |s|
  {
    hide Init, Padded, Masked, FromBigEndian, Extra;
    if |s| >= 2 {
      var h := Init(s[0], s[1]);
      if h.opcode == CONTINUE || h.opcode == TEXT || h.opcode == BIN {
        if h.mask {
          PayloadSize(h, s[2..], data, opcode);
        }
      } else if h.opcode != PING && h.opcode != PONG && h.opcode != CLOSE {
        MessageSize(s[2..], data, opcode);
      }
    }
  }

  lemma {:induction false} PayloadSize(h: Head, s: Bytes, data: Bytes, opcode: nat)
    requires |data| < MAX_MESSAGE
    ensures var out := ReceiveLength(h, s, data, opcode); out.Message? ==> |out.data| < MAX_MESSAGE
    decreases |s| + 1
  {
    hide Init, Padded, Masked, FromBigEndian, Extra, Receive;
    var k := Extra(h.payload);
    var length := if k == 0 then h.payload else FromBigEndian(Padded(s, k));
    var t := s[Min(k, |s|)..];
    var body := t[Min(4, |t|)..];
    if |data| + length < MAX_MESSAGE && length > 0 && body != [] && !h.fin {
      var all := data + Masked(Padded(body, length), Padded(t, 4));
      MessageSize(body[Min(length, |body|)..], all,
                  if opcode == 0 && h.opcode != CONTINUE then h.opcode else opcode);
    }
  }

  // The connection

  /** A buffer with bytes of it replaced from some place on. */
  function Filled(b: Bytes, at: nat, got: Bytes): (r: Bytes)
    requires at + |got| <= |b|
    ensures |r| == |b|
  {
    b[..at] + got + b[at + |got|..]
  }

  lemma FilledNone(b: Bytes, at: nat)
    requires at <= |b|
    ensures Filled(b, at, []) == b
  {
  }

  /** A buffer of zeros behind some data takes in the bytes of a stream. */
  lemma FilledPadded(data: Bytes, length: nat, s: Bytes)
    ensures Filled(data + seq(length, _ => 0), |data|, s[..Min(length, |s|)]) == data + Padded(s, length)
  {
  }

  lemma FilledByte(b: Bytes, at: nat, got: Bytes, x: Byte)
    requires at + |got| < |b|
    ensures Filled(b, at, got)[at + |got| := x] == Filled(b, at, got + [x])
  {
  }

  lemma FilledTwice(b: Bytes, at: nat, x: Bytes, y: Bytes)
    requires at + |x| + |y| <= |b|
    ensures Filled(Filled(b, at, x), at + |x|, y) == Filled(b, at, x + y)
  {
    var r := Filled(b, at, x);
    assert r[..at + |x|] == b[..at] + x && r[at + |x| + |y|..] == b[at + |x| + |y|..];
  }

  /** A connection: the bytes that have not been received yet, and how many of them the next calls of recv
      will deliver at most; the bytes sent, and how many the next calls of send will take at most.  An empty
      input means that the peer has closed the connection. */
  class Connection {
    var input: Bytes
    var cuts: seq<nat>
    var output: Bytes
    var takes: seq<nat>

    constructor (input: Bytes, cuts: seq<nat>, takes: seq<nat>)
      ensures this.input == input && this.cuts == cuts && output == [] && this.takes == takes
    {
      this.input, this.cuts, this.output, this.takes := input, cuts, [], takes;
    }

    /** One recv: at least one byte unless the connection is closed, at most as many as asked for. */
    method Read(buffer: array<Byte>, offset: nat, length: nat) returns (n: nat)
      requires length > 0 && offset + length <= buffer.Length
      modifies `input, `cuts, buffer
      ensures n <= length && n <= |old(input)| && (n == 0 <==> old(input) == [])
      ensures input == old(input)[n..]
      ensures buffer[..] == Filled(old(buffer[..]), offset, old(input)[..n])
    {
      hide Filled;
      FilledNone(buffer[..], offset);
      n := Min(length, |input|);
      if cuts != [] {
        if 0 < cuts[0] {
          n := Min(n, cuts[0]);
        }
        cuts := cuts[1..];
      }
      var i := 0;
      while i < n
        invariant 0 <= i <= n
        invariant buffer[..] == Filled(old(buffer[..]), offset, input[..i])
        modifies buffer
      {
        FilledByte(old(buffer[..]), offset, input[..i], input[i]);
        assert input[..i + 1] == input[..i] + [input[i]];
        buffer[offset + i] := input[i];
        i := i + 1;
      }
      input := input[n..];
    }

    /** However the stream is cut, the buffer is filled as far as the stream goes. */
    method ReadFixSize(buffer: array<Byte>, start: nat, size: nat) returns (offset: nat)
      requires start + size <= buffer.Length
      modifies `input, `cuts, buffer
      ensures offset == Min(size, |old(input)|)
      ensures input == old(input)[offset..]
      ensures buffer[..] == Filled(old(buffer[..]), start, old(input)[..offset])
    {
      hide Filled;
      FilledNone(buffer[..], start);
      offset := 0;
      var length := size;
      while length > 0
        invariant 0 <= length <= size && offset == size - length <= |old(input)|
        invariant input == old(input)[offset..]
        invariant buffer[..] == Filled(old(buffer[..]), start, old(input)[..offset])
      {
        FilledNone(buffer[..], start + offset);
        ghost var got := input;
        var len := Read(buffer, start + offset, length);
        if len <= 0 {
          assert got[..len] == [];
          break;
        }
        FilledTwice(old(buffer[..]), start, old(input)[..offset], old(input)[offset..][..len]);
        assert old(input)[..offset] + old(input)[offset..][..len] == old(input)[..offset + len];
        offset := offset + len;
        length := length - len;
      }
    }

    /** One send: at least one byte, at most as many as given. */
    method Write(bytes: Bytes, offset: nat, length: nat) returns (n: nat)
      requires length > 0 && offset + length <= |bytes|
      modifies `output, `takes
      ensures 0 < n <= length && output == old(output) + bytes[offset..offset + n]
    {
      n := length;
      if takes != [] {
        if 0 < takes[0] {
          n := Min(n, takes[0]);
        }
        takes := takes[1..];
      }
      output := output + bytes[offset..offset + n];
    }

    /** However the sends are cut, all bytes are sent in order. */
    method WriteFixSize(bytes: Bytes) returns (offset: nat)
      modifies `output, `takes
      ensures offset == |bytes| && output == old(output) + bytes
    {
      offset := 0;
      var length := |bytes|;
      while length > 0
        invariant 0 <= length <= |bytes| && offset == |bytes| - length
        invariant output == old(output) + bytes[..offset]
      {
        var len := Write(bytes, offset, length);
        if len <= 0 {
          break;
        }
        assert bytes[..offset] + bytes[offset..offset + len] == bytes[..offset + len];
        offset := offset + len;
        length := length - len;
      }
    }

    /** An integer of k bytes in network order, as read into zeroed memory of a little-endian machine. */
    method ReadNumber(k: nat) returns (n: nat, value: nat)
      requires k > 0
      modifies `input, `cuts
      ensures n == Min(k, |old(input)|) && input == old(input)[n..]
      ensures value == FromBigEndian(Padded(old(input), k))
    {
      var memory := new Byte[k](_ => 0);
      FilledPadded([], k, input);
      assert memory[..] == [] + seq(k, _ => 0);
      n := ReadFixSize(memory, 0, k);
      assert memory[..] == Padded(old(input), k);
      SwapLoads(memory[..]);
      value := ByteSwap(FromLittleEndian(memory[..]), k);
    }

    /** Appends length bytes of the stream to the data and unmasks them in place. */
    method ReadMasked(data: array<Byte>, length: nat, mask: array<Byte>) returns (n: nat, longer: array<Byte>)
      requires mask.Length == 4
      modifies `input, `cuts
      ensures n == Min(length, |old(input)|) && input == old(input)[n..]
      ensures longer[..] == data[..] + if n == 0 then Padded(old(input), length)
                                       else Masked(Padded(old(input), length), mask[..])
    {
      var size := data.Length;
      ghost var payload := Padded(input, length);
      longer := Resize(data, length);
      FilledPadded(data[..], length, input);
      n := ReadFixSize(longer, size, length);
      if n <= 0 {
        return;
      }
      assert longer[..size] == data[..] && longer[size..] == payload;
      Unmask(longer, size, mask);
    }
  }

  /** Unmasks an array in place from start on. */
  method Unmask(data: array<Byte>, start: nat, mask: array<Byte>)
    requires mask.Length == 4 && mask != data && start <= data.Length
    modifies data
    ensures data[..] == old(data[..start]) + Masked(old(data[start..]), mask[..])
  {
    var i := 0;
    var length := data.Length - start;
    ghost var payload := data[start..];
    while i < length
      invariant 0 <= i <= length && data[..start] == old(data[..start])
      invariant forall j :: 0 <= j < i ==> data[start + j] == Xor(payload[j], mask[j % 4])
      invariant forall j :: i <= j < length ==> data[start + j] == payload[j]
    {
      data[start + i] := Xor(data[start + i], mask[i % 4]);
      i := i + 1;
    }
    assert data[start..] == Masked(payload, mask[..]);
    assert data[..] == data[..start] + data[start..];
  }

  /** A longer copy, with zeros behind the old content. */
  method Resize(data: array<Byte>, more: nat) returns (longer: array<Byte>)
    ensures fresh(longer) && longer[..] == data[..] + seq(more, _ => 0)
  {
    longer := new Byte[data.Length + more](_ => 0);
    var i := 0;
    while i < data.Length
      invariant 0 <= i <= data.Length && longer[..i] == data[..i]
      invariant forall j :: data.Length <= j < longer.Length ==> longer[j] == 0
      modifies longer
    {
      longer[i] := data[i];
      i := i + 1;
    }
  }

  /** The length of a frame, which may be behind its head. */
  method RecvLength(c: Connection, payload: nat) returns (ok: bool, length: nat)
    modifies c`input, c`cuts
    ensures var k := Extra(payload);
            && c.input == old(c.input)[Min(k, |old(c.input)|)..] && (ok <==> k == 0 || old(c.input) != [])
            && length == if k == 0 then payload else FromBigEndian(Padded(old(c.input), k))
  {
    var n := 1;
    length := payload;
    if payload == 126 {
      n, length := c.ReadNumber(2);
    } else if payload == 127 {
      n, length := c.ReadNumber(8);
    }
    ok := n > 0;
  }

  method RecvMask(c: Connection) returns (n: nat, mask: array<Byte>)
    modifies c`input, c`cuts
    ensures mask.Length == 4 && mask[..] == Padded(old(c.input), 4)
    ensures n == Min(4, |old(c.input)|) && c.input == old(c.input)[n..]
  {
    mask := new Byte[4](_ => 0);
    FilledPadded([], 4, c.input);
    assert mask[..] == [] + seq(4, _ => 0);
    n := c.ReadFixSize(mask, 0, 4);
  }

  /** What the bytes behind the length of a frame mean. */
  lemma FrameStep(h: Head, s: Bytes, data: Bytes, opcode: nat, length: nat)
    requires var k := Extra(h.payload);
             (k == 0 || s != []) && length == if k == 0 then h.payload else FromBigEndian(Padded(s, k))
    ensures var t := s[Min(Extra(h.payload), |s|)..];
            ReceiveLength(h, s, data, opcode) ==
            if (|data| + length) % TWO_64 >= MAX_MESSAGE || t == [] then Nothing(t)
            else if |data| + length >= TWO_64 then Unknown
            else ReceivePayload(h, Padded(t, 4), t[Min(4, |t|)..], length, data, opcode)
  {
    hide ReceivePayload, FromBigEndian, Padded, Extra;
  }

  lemma FrameNone(h: Head, s: Bytes, data: Bytes, opcode: nat)
    requires Extra(h.payload) > 0 && s == []
    ensures ReceiveLength(h, s, data, opcode) == Nothing([])
  {
    hide Extra;
  }

  /** What a payload adds to the data, when some of it has arrived. */
  lemma PayloadStep(h: Head, key: Bytes, s: Bytes, length: nat, data: Bytes, opcode: nat)
    requires |key| == 4 && length != 0 && s != []
    ensures var all := data + Masked(Padded(s, length), key);
            var op := if opcode == 0 && h.opcode != CONTINUE then h.opcode else opcode;
            var rest := s[Min(length, |s|)..];
            ReceivePayload(h, key, s, length, data, opcode) ==
            if h.fin then Message(op, all, rest) else Receive(rest, all, op)
  {
    hide Masked, Padded, Receive;
  }

  lemma PayloadNone(h: Head, key: Bytes, s: Bytes, length: nat, data: Bytes, opcode: nat)
    requires |key| == 4 && (length == 0 || s == [])
    ensures ReceivePayload(h, key, s, length, data, opcode) == Nothing(s)
  {
  }

  /** A data frame behind its head; ok tells whether the loop of recvMessage goes on. */
  method RecvFrame(c: Connection, head: Head, data: array<Byte>, opcode: nat)
    returns (ok: bool, longer: array<Byte>, op: nat)
    modifies c`input, c`cuts
    ensures |c.input| <= |old(c.input)|
    ensures var out := ReceiveLength(head, old(c.input), data[..], opcode);
            if !ok then out == Nothing(c.input) || out == Unknown
            else out == if head.fin then Message(op, longer[..], c.input) else Receive(c.input, longer[..], op)
  {
    hide Receive, ReceiveLength, ReceivePayload, Init, Padded, Masked, Extra, FromBigEndian;
    ok, longer, op := false, data, opcode;
    ghost var s, was := c.input, data[..];
    var more, length := RecvLength(c, head.payload);
    if !more {
      FrameNone(head, s, was, opcode);
      return;
    }
    FrameStep(head, s, was, opcode, length);
    if (data.Length + length) % TWO_64 >= MAX_MESSAGE {
      return;
    }
    var n, mask := RecvMask(c);
    if n <= 0 {
      return;
    }
    if data.Length + length >= TWO_64 {
      return;   // the sum has wrapped: the payload no longer fits the string it is read into
    }
    ghost var body, key := c.input, mask[..];
    assert ReceiveLength(head, s, was, opcode) == ReceivePayload(head, key, body, length, was, opcode);
    n, longer := c.ReadMasked(data, length, mask);
    if n <= 0 {
      assert length == 0 || body == [];
      PayloadNone(head, key, body, length, was, opcode);
      return;
    }
    PayloadStep(head, key, body, length, was, opcode);
    assert longer[..] == was + Masked(Padded(body, length), key) && c.input == body[Min(length, |body|)..];
    if opcode == 0 && head.opcode != CONTINUE {
      op := head.opcode;
    }
    ok := true;
  }

  /** WSConnection::recvMessage: the opcode and the data of the next message. */
  method RecvMessage(c: Connection) returns (r: Option<(nat, Bytes)>)
    modifies c`input, c`cuts
    ensures match Receive(old(c.input), [], 0)
            case Message(op, d, rest) => r == Some((op, d)) && c.input == rest
            case Nothing(rest) => r == None && c.input == rest
            case Unknown => true
  {
    hide ReceiveLength, Init;
    var data := new Byte[0];
    var opcode := 0;
    assert data[..] == [];
    while true
      invariant Receive(c.input, data[..], opcode) == Receive(old(c.input), [], 0)
      decreases |c.input|
    {
      var tmp := new Byte[2];
      var n := c.ReadFixSize(tmp, 0, 2);
      if n <= 0 {
        return None;
      }
      if n == 1 {
        return None;   // the second byte of the head is indeterminate
      }
      var head := Init(tmp[0], tmp[1]);
      if head.opcode == PING {
        return None;
      } else if head.opcode == CONTINUE || head.opcode == TEXT || head.opcode == BIN {
        if !head.mask {
          return None;
        }
        var ok, longer, op := RecvFrame(c, head, data, opcode);
        if !ok {
          return None;
        }
        data, opcode := longer, op;
        if head.fin {
          return Some((opcode, data[..]));
        }
      } else if head.opcode == PONG || head.opcode == CLOSE {
        return None;
      }
    }
  }

  // Sending

  /** A frame of the server: it is not masked. */
  function ServerFrame(fin: bool, opcode: nat, data: Bytes): Bytes {
    Generate(fin, opcode, |data|) + BigEndian(|data|, Extra(LengthField(|data|))) + data
  }

  lemma Regroup(a: Bytes, b: Bytes, c: Bytes, d: Bytes)
    ensures a + b + c + d == a + (b + c + d)
  {
  }

  /** The value of the length field plus two is the number of bytes of the frame if and only if the length is
      not extended. */
  lemma SentSize(opcode: nat, data: Bytes, fin: bool)
    ensures LengthField(|data|) + 2 == |ServerFrame(fin, opcode, data)| <==> |data| < 126
  {
  }

  /** For a payload of 126 bytes the value is 128, and 130 bytes are sent. */
  lemma SentExtended(opcode: nat, data: Bytes, fin: bool)
    requires |data| == 126
    ensures LengthField(|data|) + 2 == 128 && |ServerFrame(fin, opcode, data)| == 130
  {
  }

  /** WSConnection::sendMessage.  The result is that of the original: -1 for an empty payload, although its
      frame is sent, and otherwise the value of the length field plus two.  So it is the number of bytes sent
      if and only if there is a payload and its length is not extended. */
  method SendMessage(c: Connection, opcode: nat, data: Bytes, fin: bool) returns (r: int)
    requires |data| < TWO_64
    modifies c`output, c`takes
    ensures c.output == old(c.output) + ServerFrame(fin, opcode, data)
    ensures r == if data == [] then -1 else LengthField(|data|) + 2
    ensures r == |c.output| - |old(c.output)| <==> 0 < |data| < 126
  {
    SentSize(opcode, data, fin);
    hide Generate, LengthField;
    ghost var sent := c.output;
    ghost var number := BigEndian(|data|, Extra(LengthField(|data|)));
    var size := LengthField(|data|);
    var n := c.WriteFixSize(Generate(fin, opcode, |data|));
    if size == 126 {
      SwappedMemory(|data|, 2);
      n := c.WriteFixSize(LittleEndian(ByteSwap(|data|, 2), 2));
    } else if size == 127 {
      SwappedMemory(|data|, 8);
      n := c.WriteFixSize(LittleEndian(ByteSwap(|data|, 8), 8));
    }
    assert c.output == sent + Generate(fin, opcode, |data|) + number;
    Regroup(sent, Generate(fin, opcode, |data|), number, data);
    n := c.WriteFixSize(data);
    if n <= 0 {
      return -1;
    }
    r := size + 2;
  }
}
