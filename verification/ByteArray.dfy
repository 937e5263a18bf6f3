/** The growing and compacting byte buffer is a queue of bytes, and integers and strings put into it come
    out again in order. */
module ByteArrays {
  import opened ByteOrder

  datatype Result<T> = Ok(value: T) | OutOfRange

  /** Widths of the integer types. */
  predicate Width(k: nat) { k in {1, 2, 4, 8} }

  class ByteArray {
    var data: array<Byte>
    var readerIndex: nat
    var writerIndex: nat

    ghost predicate Valid()
      reads this
    {
      readerIndex <= writerIndex <= data.Length
    }

    /** The bytes written and not read yet. */
    ghost function Readable(): (s: seq<Byte>)
      requires Valid()
      reads this, data
      ensures |s| == writerIndex - readerIndex
    {
      data[readerIndex..writerIndex]
    }

    constructor (size: nat)
      ensures Valid() && fresh(data) && Readable() == [] && data.Length == size
    {
      data := new Byte[size](_ => 0);
      readerIndex, writerIndex := 0, 0;
    }

    /** Makes room for size bytes behind the readable ones: by a larger array when even the bytes already
        read would not make room enough, else by moving the readable bytes to the front in place. */
    method EnsureCapacity(size: nat)
      requires Valid()
      modifies this, data
      ensures Valid() && (data == old(data) || fresh(data))
      ensures Readable() == old(Readable()) && data.Length - writerIndex >= size
    {
      if data.Length - writerIndex >= size {
        return;
      }
      if data.Length - writerIndex + readerIndex < size {
        Grow(writerIndex + size);
      } else {
        MoveToFront();
      }
    }

    method Grow(size: nat)
      requires Valid() && data.Length <= size
      modifies this
      ensures Valid() && fresh(data) && data.Length == size
      ensures readerIndex == old(readerIndex) && writerIndex == old(writerIndex)
      ensures data[..old(data).Length] == old(data)[..]
    {
      var bigger := new Byte[size](_ => 0);
      var i := 0;
      while i < data.Length
        invariant 0 <= i <= data.Length && bigger[..i] == data[..i]
        modifies bigger
      {
        bigger[i] := data[i];
        i := i + 1;
      }
      data := bigger;
    }

    /** The copy overlaps: it runs upwards, so a byte is read before it is overwritten. */
    method MoveToFront()
      requires Valid()
      modifies this, data
      ensures Valid() && data == old(data) && readerIndex == 0 && Readable() == old(Readable())
    {
      ghost var was := data[..];
      var readable := writerIndex - readerIndex;
      var i := 0;
      while i < readable
        invariant 0 <= i <= readable
        invariant forall k :: 0 <= k < i ==> data[k] == was[readerIndex + k]
        invariant forall k :: readerIndex + i <= k < data.Length ==> data[k] == was[k]
        modifies data
      {
        data[i] := data[readerIndex + i];
        i := i + 1;
      }
      readerIndex := 0;
      writerIndex := readable;
      assert data[..readable] == old(Readable());
    }

    method Write(bytes: seq<Byte>)
      requires Valid()
      modifies this, data
      ensures Valid() && (data == old(data) || fresh(data))
      ensures Readable() == old(Readable()) + bytes
    {
      EnsureCapacity(|bytes|);
      ghost var before := Readable();
      CopyIn(bytes);
      assert data[readerIndex..writerIndex] == data[..writerIndex][readerIndex..] == before;
      writerIndex := writerIndex + |bytes|;
      assert data[readerIndex..writerIndex] == before + bytes;
    }

    /** Copies bytes behind the readable ones. */
    method CopyIn(bytes: seq<Byte>)
      requires Valid() && writerIndex + |bytes| <= data.Length
      modifies data
      ensures data[..writerIndex] == old(data[..writerIndex])
      ensures data[writerIndex..writerIndex + |bytes|] == bytes
    {
      var i := 0;
      while i < |bytes|
        invariant 0 <= i <= |bytes|
        invariant forall k :: 0 <= k < writerIndex ==> data[k] == old(data[k])
        invariant forall k :: 0 <= k < i ==> data[writerIndex + k] == bytes[k]
      {
        data[writerIndex + i] := bytes[i];
        i := i + 1;
      }
    }

    /** Reading does not consume the bytes when it peeks. */
    method Read(size: nat, peeks: bool) returns (r: Result<seq<Byte>>)
      requires Valid()
      modifies `readerIndex
      ensures Valid()
      ensures r == if size > |old(Readable())| then OutOfRange else Ok(old(Readable())[..size])
      ensures Readable() == if r.OutOfRange? || peeks then old(Readable()) else old(Readable())[size..]
    {
      if size > writerIndex - readerIndex {
        return OutOfRange;
      }
      r := Ok(data[readerIndex..readerIndex + size]);
      assert data[readerIndex..readerIndex + size] == Readable()[..size];
      assert data[readerIndex + size..writerIndex] == Readable()[size..];
      if !peeks {
        readerIndex := readerIndex + size;
      }
    }

    /** The integer is swapped and then copied from the memory of a little-endian machine. */
    method WriteInt(val: nat, k: nat)
      requires Valid() && val < Values(k)
      modifies this, data
      ensures Valid() && (data == old(data) || fresh(data))
      ensures Readable() == old(Readable()) + BigEndian(val, k)
    {
      SwappedMemory(val, k);
      Write(LittleEndian(ByteSwap(val, k), k));
    }

    method ReadInt(k: nat) returns (r: Result<nat>)
      requires Valid()
      modifies `readerIndex
      ensures Valid()
      ensures r == if k > |old(Readable())| then OutOfRange else Ok(FromBigEndian(old(Readable())[..k]))
      ensures Readable() == if r.OutOfRange? then old(Readable()) else old(Readable())[k..]
    {
      var memory := Read(k, false);
      if memory.OutOfRange? {
        return OutOfRange;
      }
      SwapLoads(memory.value);
      r := Ok(ByteSwap(FromLittleEndian(memory.value), k));
    }

    /** A string is preceded by its length; lengths have 64 bits. */
    method WriteString(val: seq<Byte>)
      requires Valid() && |val| < Values(8)
      modifies this, data
      ensures Valid() && (data == old(data) || fresh(data))
      ensures Readable() == old(Readable()) + BigEndian(|val|, 8) + val
    {
      WriteInt(|val|, 8);
      Write(val);
    }

    /** When the string is not all there, its length has been consumed nevertheless. */
    method ReadString() returns (r: Result<seq<Byte>>)
      requires Valid()
      modifies `readerIndex
      ensures Valid()
      ensures var s := old(Readable());
              if |s| < 8 then r == OutOfRange && Readable() == s
              else
                var n := FromBigEndian(s[..8]);
                if |s| - 8 < n then r == OutOfRange && Readable() == s[8..]
                else r == Ok(s[8..8 + n]) && Readable() == s[8 + n..]
    {
      var size := ReadInt(8);
      if size.OutOfRange? {
        return OutOfRange;
      }
      ghost var s := old(Readable());
      assert size.value <= |s| - 8 ==>
          s[8..][..size.value] == s[8..8 + size.value] && s[8..][size.value..] == s[8 + size.value..];
      r := Read(size.value, false);
    }
  }

  // Any list of integers and strings

  datatype Item = Number(value: nat, width: nat) | Text(bytes: seq<Byte>)

  predicate Encodable(i: Item) {
    match i
    case Number(v, k) => Width(k) && v < Values(k)
    case Text(b) => |b| < Values(8)
  }

  function EncodeItem(i: Item): seq<Byte> {
    match i
    case Number(v, k) => BigEndian(v, k)
    case Text(b) => BigEndian(|b|, 8) + b
  }

  function EncodeItems(items: seq<Item>): seq<Byte> {
    if items == [] then [] else EncodeItem(items[0]) + EncodeItems(items[1..])
  }

  lemma {:induction false} EncodeSnoc(items: seq<Item>, i: Item)
    ensures EncodeItems(items + [i]) == EncodeItems(items) + EncodeItem(i)
  {
    if items == [] {
      assert items + [i] == [i];
    } else {
      assert (items + [i])[1..] == items[1..] + [i];
      EncodeSnoc(items[1..], i);
    }
  }

  method WriteItem(b: ByteArray, item: Item)
    requires b.Valid() && Encodable(item)
    modifies b, b.data
    ensures b.Valid() && (b.data == old(b.data) || fresh(b.data))
    ensures b.Readable() == old(b.Readable()) + EncodeItem(item)
  {
    ghost var before := b.Readable();
    match item {
      case Number(v, k) => b.WriteInt(v, k);
      case Text(bytes) =>
        b.WriteString(bytes);
        assert before + BigEndian(|bytes|, 8) + bytes == before + EncodeItem(item);
    }
  }

  lemma ItemsUpTo(before: seq<Byte>, items: seq<Item>, i: nat)
    requires i < |items|
    ensures before + EncodeItems(items[..i]) + EncodeItem(items[i]) == before + EncodeItems(items[..i + 1])
  {
    EncodeSnoc(items[..i], items[i]);
    assert items[..i + 1] == items[..i] + [items[i]];
  }

  method WriteItems(b: ByteArray, items: seq<Item>)
    requires b.Valid() && forall i :: 0 <= i < |items| ==> Encodable(items[i])
    modifies b, b.data
    ensures b.Valid() && (b.data == old(b.data) || fresh(b.data))
    ensures b.Readable() == old(b.Readable()) + EncodeItems(items)
  {
    var i := 0;
    while i < |items|
      invariant 0 <= i <= |items| && b.Valid() && (b.data == old(b.data) || fresh(b.data))
      invariant b.Readable() == old(b.Readable()) + EncodeItems(items[..i])
    {
      ItemsUpTo(old(b.Readable()), items, i);
      WriteItem(b, items[i]);
      i := i + 1;
    }
    assert items[..i] == items;
  }

  /** Reads one item of the kind, and width, of a given one. */
  method ReadLike(b: ByteArray, like: Item) returns (r: Result<Item>)
    requires b.Valid()
    modifies b`readerIndex
    ensures b.Valid()
    ensures forall tail :: Encodable(like) && old(b.Readable()) == EncodeItem(like) + tail ==>
              r == Ok(like) && b.Readable() == tail
  {
    ghost var s := b.Readable();
    match like {
      case Number(v, k) =>
        var n := b.ReadInt(k);
        r := if n.Ok? then Ok(Number(n.value, k)) else OutOfRange;
        forall tail | Encodable(like) && s == EncodeItem(like) + tail ensures r == Ok(like) && b.Readable() == tail {
          assert s[..k] == BigEndian(v, k);
          BigRound(v, k);
        }
      case Text(bytes) =>
        var t := b.ReadString();
        r := if t.Ok? then Ok(Text(t.value)) else OutOfRange;
        forall tail | Encodable(like) && s == EncodeItem(like) + tail ensures r == Ok(like) && b.Readable() == tail {
          assert s[..8] == BigEndian(|bytes|, 8);
          BigRound(|bytes|, 8);
        }
    }
  }

  lemma ItemsFrom(items: seq<Item>, i: nat, tail: seq<Byte>)
    requires i < |items|
    ensures EncodeItems(items[i..]) + tail == EncodeItem(items[i]) + (EncodeItems(items[i + 1..]) + tail)
  {
    assert items[i..][0] == items[i] && items[i..][1..] == items[i + 1..];
  }

  /** Whatever integers and strings are written, and whatever else is written behind them, they are read
      back equal and in order. */
  method ReadBack(b: ByteArray, items: seq<Item>, tail: seq<Byte>) returns (read: seq<Item>)
    requires b.Valid() && forall i :: 0 <= i < |items| ==> Encodable(items[i])
    requires b.Readable() == []
    modifies b, b.data
    ensures b.Valid() && read == items && b.Readable() == tail
  {
    hide EncodeItem, EncodeItems, Encodable;
    WriteItems(b, items);
    b.Write(tail);
    read := [];
    assert items[0..] == items;
    var i := 0;
    while i < |items|
      invariant 0 <= i <= |items| && b.Valid() && read == items[..i]
      invariant b.Readable() == EncodeItems(items[i..]) + tail
      modifies b`readerIndex
    {
      ItemsFrom(items, i, tail);
      var r := ReadLike(b, items[i]);
      read := read + [r.value];
      i := i + 1;
    }
    assert items[i..] == [];
    NoItems(tail);
  }

  lemma NoItems(tail: seq<Byte>)
    ensures EncodeItems([]) + tail == tail
  {
  }

  // Any list of operations

  datatype Op = Put(bytes: seq<Byte>) | PutNumber(value: nat, width: nat) | PutText(text: seq<Byte>)
              | Take(size: nat, peeks: bool) | TakeNumber(length: nat) | TakeText

  datatype Answer = Done | Failed | Bytes(bytes: seq<Byte>) | Value(value: nat)

  predicate Allowed(op: Op) {
    match op
    case PutNumber(v, k) => v < Values(k)
    case PutText(t) => |t| < Values(8)
    case _ => true
  }

  /** The bytes an operation adds behind the readable ones. */
  function Adds(op: Op): seq<Byte> {
    match op
    case Put(b) => b
    case PutNumber(v, k) => BigEndian(v, k)
    case PutText(t) => BigEndian(|t|, 8) + t
    case _ => []
  }

  /** How many of the readable bytes it takes away. */
  function Takes(s: seq<Byte>, op: Op): (n: nat)
    ensures n <= |s|
  {
    match op
    case Take(n, peeks) => if peeks || n > |s| then 0 else n
    case TakeNumber(k) => if k > |s| then 0 else k
    case TakeText =>
      if |s| < 8 then 0
      else if |s| - 8 < FromBigEndian(s[..8]) then 8
      else 8 + FromBigEndian(s[..8])
    case _ => 0
  }

  function Answered(s: seq<Byte>, op: Op): Answer {
    match op
    case Take(n, _) => if n > |s| then Failed else Bytes(s[..n])
    case TakeNumber(k) => if k > |s| then Failed else Value(FromBigEndian(s[..k]))
    case TakeText =>
      if |s| < 8 || |s| - 8 < FromBigEndian(s[..8]) then Failed else Bytes(s[8..8 + FromBigEndian(s[..8])])
    case _ => Done
  }

  function Next(s: seq<Byte>, op: Op): seq<Byte> { s[Takes(s, op)..] + Adds(op) }

  /** The readable bytes behind a list of operations, what they have answered, what they have taken away,
      and what they have added. */
  function Left(s: seq<Byte>, ops: seq<Op>): seq<Byte>
    decreases |ops|
  {
    if ops == [] then s else Left(Next(s, ops[0]), ops[1..])
  }

  function Answers(s: seq<Byte>, ops: seq<Op>): (r: seq<Answer>)
    ensures |r| == |ops|
    decreases |ops|
  {
    if ops == [] then [] else [Answered(s, ops[0])] + Answers(Next(s, ops[0]), ops[1..])
  }

  function Taken(s: seq<Byte>, ops: seq<Op>): seq<Byte>
    decreases |ops|
  {
    if ops == [] then [] else s[..Takes(s, ops[0])] + Taken(Next(s, ops[0]), ops[1..])
  }

  function Added(ops: seq<Op>): seq<Byte> { if ops == [] then [] else Adds(ops[0]) + Added(ops[1..]) }

  /** First in, first out: what has been taken, and then what is readable, is what there was and has been added. */
  lemma {:induction false} History(s: seq<Byte>, ops: seq<Op>)
    ensures Taken(s, ops) + Left(s, ops) == s + Added(ops)
    decreases |ops|
  {
    hide Takes, Adds;
    if ops == [] {
      assert s + [] == s;
    } else {
      var n := Takes(s, ops[0]);
      var next := Next(s, ops[0]);
      History(next, ops[1..]);
      assert s == s[..n] + s[n..];
      assert Taken(s, ops) + Left(s, ops) == s[..n] + (next + Added(ops[1..]));
      assert s[..n] + (s[n..] + Adds(ops[0]) + Added(ops[1..])) == s + (Adds(ops[0]) + Added(ops[1..]));
    }
  }

  /** The bytes that an answer hands over for good. */
  function Delivers(op: Op, a: Answer): seq<Byte> {
    match (op, a)
    case (Take(_, false), Bytes(b)) => b
    case (TakeNumber(k), Value(v)) => BigEndian(v, k)
    case (TakeText, Bytes(t)) => BigEndian(|t|, 8) + t
    case _ => []
  }

  function Delivered(ops: seq<Op>, answers: seq<Answer>): seq<Byte>
    requires |ops| == |answers|
  {
    if ops == [] then [] else Delivers(ops[0], answers[0]) + Delivered(ops[1..], answers[1..])
  }

  lemma {:induction false} FromBigRound(s: Bytes)
    ensures BigEndian(FromBigEndian(s), |s|) == s
  {
    if s != [] {
      var n := |s| - 1;
      FromBigRound(s[..n]);
      assert (256 * FromBigEndian(s[..n]) + s[n]) / 256 == FromBigEndian(s[..n]);
    }
  }

  /** The read of a string of which the length is there, but not all the bytes. */
  predicate Torn(s: seq<Byte>, op: Op) { op.TakeText? && |s| >= 8 && |s| - 8 < FromBigEndian(s[..8]) }

  predicate AnyTorn(s: seq<Byte>, ops: seq<Op>)
    decreases |ops|
  {
    ops != [] && (Torn(s, ops[0]) || AnyTorn(Next(s, ops[0]), ops[1..]))
  }

  /** An operation hands over the bytes it takes away, unless it is a torn read, which loses the length. */
  lemma DeliversTaken(s: seq<Byte>, op: Op)
    ensures Delivers(op, Answered(s, op)) == s[..Takes(s, op)] <==> !Torn(s, op)
    ensures Torn(s, op) ==> Takes(s, op) == 8 && Delivers(op, Answered(s, op)) == []
  {
    hide BigEndian, FromBigEndian;
    match op
    case TakeNumber(k) =>
      if k <= |s| {
        FromBigRound(s[..k]);
      }
    case TakeText => DeliversText(s);
    case _ =>
  }

  lemma DeliversText(s: seq<Byte>)
    ensures Delivers(TakeText, Answered(s, TakeText)) == s[..Takes(s, TakeText)] <==> !Torn(s, TakeText)
    ensures Torn(s, TakeText) ==> Takes(s, TakeText) == 8 && Delivers(TakeText, Answered(s, TakeText)) == []
  {
    hide BigEndian, FromBigEndian;
    if |s| >= 8 {
      var n := FromBigEndian(s[..8]);
      if |s| - 8 >= n {
        FromBigRound(s[..8]);
        assert |s[8..8 + n]| == n;
        assert s[..8 + n] == s[..8] + s[8..8 + n];
      } else {
        assert |s[..8]| == 8;
      }
    }
  }

  /** Every byte that was there or has been added is handed over once and in order, or is still readable, if
      and only if no operation of the list is a torn read. */
  lemma HistoryDelivered(s: seq<Byte>, ops: seq<Op>)
    ensures Delivered(ops, Answers(s, ops)) + Left(s, ops) == s + Added(ops) <==> !AnyTorn(s, ops)
  {
    hide Left, Added;
    TakenDelivered(s, ops);
    History(s, ops);
    if AnyTorn(s, ops) {
      assert |Delivered(ops, Answers(s, ops)) + Left(s, ops)| < |Taken(s, ops) + Left(s, ops)|;
    }
  }

  lemma {:induction false} TakenDelivered(s: seq<Byte>, ops: seq<Op>)
    ensures |Delivered(ops, Answers(s, ops))| <= |Taken(s, ops)|
    ensures if AnyTorn(s, ops) then |Delivered(ops, Answers(s, ops))| < |Taken(s, ops)|
            else Delivered(ops, Answers(s, ops)) == Taken(s, ops)
    decreases |ops|
  {
    hide Takes, Adds, Answered, Delivers, Torn;
    if ops != [] {
      var next := Next(s, ops[0]);
      var rest := Answers(next, ops[1..]);
      assert Answers(s, ops)[0] == Answered(s, ops[0]) && Answers(s, ops)[1..] == rest;
      TakenDelivered(next, ops[1..]);
      DeliversTaken(s, ops[0]);
    }
  }

  /** A length of one and no byte behind it: the read fails, and the length is gone. */
  lemma TornLost()
    ensures var s := BigEndian(1, 8);
            Torn(s, TakeText) && Answered(s, TakeText) == Failed && Next(s, TakeText) == []
  {
    hide BigEndian, FromBigEndian;
    assert Values(8) > 1;
    BigRound(1, 8);
    assert BigEndian(1, 8)[..8] == BigEndian(1, 8);
  }

  predicate Putting(op: Op) { op.Put? || op.PutNumber? || op.PutText? }

  method Perform(b: ByteArray, op: Op) returns (a: Answer)
    requires b.Valid() && Allowed(op)
    modifies b, b.data
    ensures b.Valid() && (b.data == old(b.data) || fresh(b.data))
    ensures a == Answered(old(b.Readable()), op) && b.Readable() == Next(old(b.Readable()), op)
  {
    if op.Put? || op.PutNumber? || op.PutText? {
      PerformPut(b, op);
      a := Done;
    } else {
      a := PerformTake(b, op);
    }
  }

  method PerformPut(b: ByteArray, op: Op)
    requires b.Valid() && Allowed(op) && Putting(op)
    modifies b, b.data
    ensures b.Valid() && (b.data == old(b.data) || fresh(b.data))
    ensures b.Readable() == Next(old(b.Readable()), op)
  {
    hide BigEndian, FromBigEndian;
    ghost var s := b.Readable();
    match op {
      case Put(bytes) => b.Write(bytes);
      case PutNumber(v, k) => b.WriteInt(v, k);
      case PutText(t) =>
        b.WriteString(t);
        assert s + BigEndian(|t|, 8) + t == s + (BigEndian(|t|, 8) + t);
      case Take(_, _) =>
      case TakeNumber(_) =>
      case TakeText =>
    }
  }

  method PerformTake(b: ByteArray, op: Op) returns (a: Answer)
    requires b.Valid() && !Putting(op)
    modifies b`readerIndex
    ensures b.Valid()
    ensures a == Answered(old(b.Readable()), op) && b.Readable() == Next(old(b.Readable()), op)
  {
    hide BigEndian, FromBigEndian;
    a := Done;
    match op {
      case Put(_) =>
      case PutNumber(_, _) =>
      case PutText(_) =>
      case Take(n, peeks) =>
        var r := b.Read(n, peeks);
        a := if r.Ok? then Bytes(r.value) else Failed;
      case TakeNumber(k) =>
        var r := b.ReadInt(k);
        a := if r.Ok? then Value(r.value) else Failed;
      case TakeText =>
        var r := b.ReadString();
        a := if r.Ok? then Bytes(r.value) else Failed;
    }
    assert old(b.Readable())[Takes(old(b.Readable()), op)..] + [] == b.Readable();
  }

  /** Whatever is written, read and peeked at, in any order: the bytes taken, and then the readable ones, are
      those that there were and that have been written. */
  method PerformAll(b: ByteArray, ops: seq<Op>) returns (answers: seq<Answer>)
    requires b.Valid() && forall i :: 0 <= i < |ops| ==> Allowed(ops[i])
    modifies b, b.data
    ensures b.Valid() && answers == Answers(old(b.Readable()), ops)
    ensures Taken(old(b.Readable()), ops) + b.Readable() == old(b.Readable()) + Added(ops)
    ensures Delivered(ops, answers) + b.Readable() == old(b.Readable()) + Added(ops) <==>
            !AnyTorn(old(b.Readable()), ops)
  {
    hide Next, Answered, Allowed, Taken, Added, Delivered, AnyTorn;
    ghost var s := b.Readable();
    answers := [];
    var i := 0;
    assert ops[0..] == ops;
    while i < |ops|
      invariant 0 <= i <= |ops| && b.Valid() && (b.data == old(b.data) || fresh(b.data))
      invariant Left(b.Readable(), ops[i..]) == Left(s, ops)
      invariant answers + Answers(b.Readable(), ops[i..]) == Answers(s, ops)
    {
      ghost var k := b.Readable();
      assert ops[i..][0] == ops[i] && ops[i..][1..] == ops[i + 1..];
      var a := Perform(b, ops[i]);
      assert answers + ([a] + Answers(b.Readable(), ops[i + 1..])) ==
             answers + [a] + Answers(b.Readable(), ops[i + 1..]);
      answers := answers + [a];
      i := i + 1;
    }
    assert ops[i..] == [];
    History(s, ops);
    HistoryDelivered(s, ops);
  }
}
