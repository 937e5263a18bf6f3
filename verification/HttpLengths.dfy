/** Content-Length and chunk sizes are exact: digit strings of any length are either rejected or read as
    the number they denote, and 64-bit arithmetic never wraps nor reaches the value that means "none". */
module HttpLengths {
  import opened HttpTypes
  import opened HttpMachine
  import opened HttpScan

  /** The largest accepted decimal length: one digit may follow (2^64 - 1 - 10) / 10. */
  const MAX_DECIMAL: nat := 18446744073709551609

  /** The largest accepted chunk size, 2^64 - 17. */
  const MAX_HEX: nat := 0xFFFF_FFFF_FFFF_FFEF

  predicate Digits(ds: Bytes) { forall i :: 0 <= i < |ds| ==> IsNum(ds[i]) }

  /** The number a decimal digit string denotes. */
  function Decimal(ds: Bytes): nat
    requires Digits(ds)
  {
    if ds == [] then 0 else 10 * Decimal(ds[..|ds| - 1]) + Digit(ds[|ds| - 1])
  }

  const LOWER_HEX: Bytes := "0123456789abcdef"
  const UPPER_HEX: Bytes := "0123456789ABCDEF"

  /** A digit in either case has the value of its place in the alphabet. */
  lemma UnhexPlace(i: nat)
    requires i < 16
    ensures Unhex(LOWER_HEX[i]) == i && Unhex(UPPER_HEX[i]) == i
  {
  }

  predicate HexDigits(ds: Bytes) { forall i :: 0 <= i < |ds| ==> Unhex(ds[i]) >= 0 }

  /** The number a hexadecimal digit string denotes. */
  function Hex(ds: Bytes): nat
    requires HexDigits(ds)
  {
    if ds == [] then 0 else 16 * Hex(ds[..|ds| - 1]) + Unhex(ds[|ds| - 1])
  }

  /** A Content-Length value up to its last digit, from the byte that starts it. */
  function ScanLength(m: Machine, ds: Bytes): Machine
    requires ds != []
  {
    Scan(StepValueStart(m, ds[0]), ds[1..])
  }

  lemma DecimalOne(c: Byte)
    requires IsNum(c)
    ensures Digits([c]) && Decimal([c]) == Digit(c)
  {
    assert [c][..0] == [];
  }

  lemma LengthStep(m: Machine, ch: Byte)
    requires m.errno == OK && m.state.HeaderValue? && m.headerState.ContentLengthNum? && IsNum(ch)
    ensures var r := StepState(m, ch);
            if 10 * m.contentLength + Digit(ch) <= MAX_DECIMAL
            then r.errno == OK && r.state.HeaderValue? && r.headerState.ContentLengthNum? &&
                 r.contentLength == 10 * m.contentLength + Digit(ch) && r.flags == m.flags
            else r.errno == INVALID_CONTENT_LENGTH
  {
    hide Push, Lower;
    assert IsHeaderChar(ch);
  }

  lemma {:induction false} ScanError(m: Machine, bytes: Bytes, b: Byte)
    requires Scan(m, bytes).errno != OK
    ensures Scan(m, bytes + [b]) == Scan(m, bytes)
    decreases |bytes|
  {
    hide StepState;
    if m.errno == OK {
      assert (bytes + [b])[1..] == bytes[1..] + [b];
      ScanError(StepState(m, bytes[0]), bytes[1..], b);
    }
  }

  /** A Content-Length value is accepted exactly when it is the first one and its number is at most
      MAX_DECIMAL, and then the length is that number. */
  lemma {:induction false} ContentLengthExact(m: Machine, ds: Bytes)
    requires m.errno == OK && m.headerState.ContentLength? && ds != [] && Digits(ds)
    ensures var r := ScanLength(m, ds);
            if m.flags.contentLength then r.errno == UNEXPECTED_CONTENT_LENGTH
            else if Decimal(ds) > MAX_DECIMAL then r.errno == INVALID_CONTENT_LENGTH
            else
              && r.errno == OK && r.state.HeaderValue? && r.headerState.ContentLengthNum?
              && r.contentLength == Decimal(ds) < NO_LENGTH && r.flags.contentLength
    decreases |ds|
  {
    hide StepState, Push;
    if |ds| == 1 {
      assert ds == [ds[0]];
      DecimalOne(ds[0]);
      ScanNil(StepValueStart(m, ds[0]));
    } else {
      var front := ds[..|ds| - 1];
      var last := ds[|ds| - 1];
      ContentLengthExact(m, front);
      assert front[1..] + [last] == ds[1..];
      var s := StepValueStart(m, ds[0]);
      if Scan(s, front[1..]).errno == OK {
        ScanSnoc(s, front[1..], last);
        LengthStep(Scan(s, front[1..]), last);
      } else {
        ScanError(s, front[1..], last);
      }
    }
  }

  lemma ChunkSizeStep(m: Machine, ch: Byte)
    requires m.errno == OK && m.state.ChunkSize? && Unhex(ch) >= 0
    ensures StepState(m, ch) ==
            if 16 * m.contentLength + Unhex(ch) <= MAX_HEX
            then m.(contentLength := 16 * m.contentLength + Unhex(ch))
            else Fail(m, INVALID_CONTENT_LENGTH)
  {
    assert Unhex(CR) == -1;
  }

  lemma HexOne(c: Byte)
    requires Unhex(c) >= 0
    ensures HexDigits([c]) && Hex([c]) == Unhex(c)
  {
    assert [c][..0] == [];
  }

  /** A chunk size is accepted exactly when its number is at most MAX_HEX, and then it is that number. */
  lemma {:induction false} ChunkSizeExact(m: Machine, ds: Bytes)
    requires m.errno == OK && m.state.ChunkSizeStart? && ds != [] && HexDigits(ds)
    ensures var r := Scan(m, ds);
            if Hex(ds) > MAX_HEX then r.errno == INVALID_CONTENT_LENGTH
            else r == m.(state := ChunkSize, contentLength := Hex(ds)) && Hex(ds) < NO_LENGTH
    decreases |ds|
  {
    hide StepState, Unhex;
    if |ds| == 1 {
      assert ds == [ds[0]];
      HexOne(ds[0]);
      FirstSize(m, ds[0]);
      ScanNil(StepState(m, ds[0]));
      assert ds[1..] == [];
    } else {
      var front := ds[..|ds| - 1];
      var last := ds[|ds| - 1];
      ChunkSizeExact(m, front);
      assert front + [last] == ds;
      if Scan(m, front).errno == OK {
        ScanSnoc(m, front, last);
        ChunkSizeStep(Scan(m, front), last);
      } else {
        ScanError(m, front, last);
      }
    }
  }

  lemma FirstSize(m: Machine, ch: Byte)
    requires m.errno == OK && m.state.ChunkSizeStart? && Unhex(ch) >= 0
    ensures StepState(m, ch) == m.(state := ChunkSize, contentLength := Unhex(ch)) && Unhex(ch) < 16
  {
  }

  // What section 4.1 of RFC 7230 allows

  predicate HexDigit(ch: Byte) { ch in LOWER_HEX || ch in UPPER_HEX }

  /** The table takes the hexadecimal digits for digits, and every byte above US-ASCII, which it reads as zero. */
  lemma UnhexExact(ch: Byte)
    ensures Unhex(ch) >= 0 <==> HexDigit(ch) || 128 <= ch as int < 256
    ensures 128 <= ch as int < 256 ==> Unhex(ch) == 0 && !HexDigit(ch)
  {
    if 'a' <= ch <= 'f' {
      assert LOWER_HEX[ch as int - 'a' as int + 10] == ch;
    }
    if 'A' <= ch <= 'F' {
      assert UPPER_HEX[ch as int - 'A' as int + 10] == ch;
    }
    if IsNum(ch) {
      assert LOWER_HEX[ch as int - '0' as int] == ch;
    }
  }

  /** A byte string is read as a chunk size if and only if the table takes all of it for digits and its number
      is at most MAX_HEX. */
  lemma {:induction false} SizeAccepted(m: Machine, ds: Bytes)
    requires m.errno == OK && m.state.ChunkSizeStart? && ds != [] && forall i :: 0 <= i < |ds| ==> ds[i] !in "\r; "
    ensures var r := Scan(m, ds);
            && (r.errno == OK <==> HexDigits(ds) && Hex(ds) <= MAX_HEX)
            && (r.errno == OK ==> r == m.(state := ChunkSize, contentLength := Hex(ds)))
  {
    hide StepState, Unhex, Hex;
    if HexDigits(ds) {
      ChunkSizeExact(m, ds);
    } else {
      var n := |ds| - 1;
      assert ds == ds[..n] + [ds[n]];
      if n == 0 {
        assert ds == [ds[0]] && ds[1..] == [];
        ScanNil(StepState(m, ds[0]));
        NoSize(m, ds[0]);
      } else {
        SizeAccepted(m, ds[..n]);
        if HexDigits(ds[..n]) && Hex(ds[..n]) <= MAX_HEX {
          ScanSnoc(m, ds[..n], ds[n]);
          NoSize(Scan(m, ds[..n]), ds[n]);
        } else {
          ScanError(m, ds[..n], ds[n]);
        }
      }
    }
  }

  lemma NoSize(m: Machine, ch: Byte)
    requires m.errno == OK && (m.state.ChunkSizeStart? || m.state.ChunkSize?) && Unhex(ch) < 0 && ch !in "\r; "
    ensures StepState(m, ch).errno == INVALID_CHUNK_SIZE
  {
    assert ch != CR && ch != ';' && ch != ' ';
  }

  /** A chunk size that is read is one of RFC 7230 if and only if all its bytes are US-ASCII. */
  lemma SizeConforms(m: Machine, ds: Bytes)
    requires m.errno == OK && m.state.ChunkSizeStart? && ds != [] && forall i :: 0 <= i < |ds| ==> ds[i] !in "\r; "
    requires Scan(m, ds).errno == OK
    ensures (forall i :: 0 <= i < |ds| ==> HexDigit(ds[i])) <==> (forall i :: 0 <= i < |ds| ==> ds[i] as int < 128)
  {
    hide Scan, Unhex, HexDigit;
    SizeAccepted(m, ds);
    forall i | 0 <= i < |ds| ensures HexDigit(ds[i]) <==> ds[i] as int < 128 {
      UnhexExact(ds[i]);
      assert Unhex(ds[i]) >= 0;
      DigitAscii(ds[i]);
    }
  }

  lemma DigitAscii(ch: Byte)
    ensures HexDigit(ch) ==> ch as int < 128
  {
  }

  /** So the digit 1 and a byte above US-ASCII are read as sixteen. */
  lemma HighByteRead(m: Machine)
    requires m.errno == OK && m.state.ChunkSizeStart?
    ensures var ds := ['1', 128 as char];
            Scan(m, ds) == m.(state := ChunkSize, contentLength := 16) && !HexDigit(ds[1])
  {
    hide StepState;
    var ds := ['1', 128 as char];
    UnhexExact(ds[1]);
    HexOne('1');
    assert ds[..1] == ['1'] && HexDigits(ds);
    assert Hex(ds) == 16;
    ChunkSizeExact(m, ds);
  }
}
