/** The options of a Connection header: which flags a value of any bytes sets. */
module HttpConnection {
  import opened HttpTypes
  import opened HttpMachine
  import opened HttpKeywords
  import opened HttpList

  // The matcher

  /** What an option, or the beginning of one, is known to be. */
  function OptionClass(first: bool, option: Bytes): HeaderState
    requires option != []
  {
    var low := LowerBytes(option);
    if Spells(option, KEEP_ALIVE) then ConnectionKeepAlive
    else if Spells(option, CLOSE) then ConnectionClose
    else if Spells(option, UPGRADE) then ConnectionUpgrade
    else if Starts(low, KEEP_ALIVE) then MatchingConnectionKeepAlive
    else if Starts(low, CLOSE) then MatchingConnectionClose
    else if Starts(low, UPGRADE) then MatchingConnectionUpgrade
    else if Readable(first, option) then MatchingConnectionToken
    else General
  }

  predicate OptionMatching(h: HeaderState) {
    h.MatchingConnectionKeepAlive? || h.MatchingConnectionClose? || h.MatchingConnectionUpgrade?
  }

  predicate OptionState(h: HeaderState) {
    OptionMatching(h) || h.ConnectionKeepAlive? || h.ConnectionClose? || h.ConnectionUpgrade? ||
    h.MatchingConnectionToken? || h.General?
  }

  /** The machine has read a part of an option, or is about to read one that is not the first. */
  predicate Within(m: Machine, first: bool, option: Bytes) {
    && m.state.HeaderValue? && !Stopped(m)
    && if option == [] then !first && m.headerState.MatchingConnectionTokenStart? && m.index == 0
       else
         && m.headerState == OptionClass(first, option)
         && (OptionMatching(m.headerState) ==> m.index == |option| - 1)
  }

  predicate Plain(bytes: Bytes) { forall i :: 0 <= i < |bytes| ==> IsHeaderChar(bytes[i]) && bytes[i] !in "\r\n" }

  /** One byte of an option, by the header state before it. */
  function OptionByte(h: HeaderState, i: nat, ch: Byte): HeaderState {
    match h
    case MatchingConnectionKeepAlive =>
      MatchByte(KEEP_ALIVE, i, Lower(ch), h, ConnectionKeepAlive, MatchingConnectionToken)
    case MatchingConnectionClose => MatchByte(CLOSE, i, Lower(ch), h, ConnectionClose, MatchingConnectionToken)
    case MatchingConnectionUpgrade => MatchByte(UPGRADE, i, Lower(ch), h, ConnectionUpgrade, MatchingConnectionToken)
    case General => General
    case MatchingConnectionToken => h
    case _ => if ch == ' ' then h else MatchingConnectionToken
  }

  lemma OptionNext(m: Machine, ch: Byte)
    requires m.state.HeaderValue? && !Stopped(m) && OptionState(m.headerState)
    requires IsHeaderChar(ch) && ch !in "\r\n" && m.nread < MAX_HEADER_SIZE
    requires ch == ',' ==> OptionMatching(m.headerState) || m.headerState.General?
    ensures var r := Step(m, ch);
            && r.errno == OK && !r.exited && r.state.HeaderValue? && r.nread == m.nread + 1 && r.flags == m.flags
            && r.headerState == OptionByte(m.headerState, m.index + 1, ch)
            && (OptionMatching(m.headerState) ==> r.index == m.index + 1)
  {
    hide Lower, Push, MatchByte, IsHeaderChar;
  }

  lemma OptionNextClass(first: bool, option: Bytes, ch: Byte)
    requires option != []
    ensures OptionState(OptionClass(first, option))
    ensures OptionByte(OptionClass(first, option), |option|, ch) == OptionClass(first, option + [ch])
  {
    hide Lower, Starts, Spells, IsToken;
    var low := LowerBytes(option);
    assert LowerBytes(option + [ch]) == low + [Lower(ch)];
    StartsSnoc(low, KEEP_ALIVE, Lower(ch));
    StartsSnoc(low, CLOSE, Lower(ch));
    StartsSnoc(low, UPGRADE, Lower(ch));
    SpellsSnoc(option, ch, KEEP_ALIVE);
    SpellsSnoc(option, ch, CLOSE);
    SpellsSnoc(option, ch, UPGRADE);
    OptionWords(low);
    SpellsApart(option);
  }

  /** What the matcher knows, said of the bytes. */
  lemma ClassExact(first: bool, option: Bytes)
    requires option != []
    ensures var h := OptionClass(first, option);
            && (h.ConnectionKeepAlive? <==> Spells(option, KEEP_ALIVE))
            && (h.ConnectionClose? <==> Spells(option, CLOSE))
            && (h.ConnectionUpgrade? <==> Spells(option, UPGRADE))
            && (OptionMatching(h) <==> Unfinished(option))
            && (h.General? <==> !Readable(first, option))
  {
    hide Lower, Starts, IsToken, Spells;
    var low := LowerBytes(option);
    OptionWords(low);
    SpellsApart(option);
    StartsWhole(option, KEEP_ALIVE);
    StartsWhole(option, CLOSE);
    StartsWhole(option, UPGRADE);
  }

  lemma StartsWhole(option: Bytes, word: Bytes)
    requires option != []
    ensures Starts(LowerBytes(option), word) && |option| == |word| ==> Spells(option, word)
    ensures Spells(option, word) && Starts(LowerBytes(option), word) ==> |option| == |word|
  {
    hide Lower;
    if |option| == |word| {
      assert option[..|word|] == option && word[..|word|] == word;
    }
  }

  lemma ClassFlags(first: bool, option: Bytes, f: Flags)
    requires option != []
    ensures ValueFlags(OptionClass(first, option), f) == Noted(f, [option])
  {
    hide Spells, OptionClass, Unfinished, Readable, Found;
    ClassExact(first, option);
    SpellsApart(option);
    FoundCons(option, [], KEEP_ALIVE);
    FoundCons(option, [], CLOSE);
    FoundCons(option, [], UPGRADE);
    ClassFlag(first, option);
  }

  lemma ClassFlag(first: bool, option: Bytes)
    requires option != []
    ensures !OptionClass(first, option).TransferEncodingChunked?
  {
    hide Spells, Starts;
  }

  lemma CommaPlain()
    ensures IsHeaderChar(',') && Lower(',') == ',' && ',' !in "\r\n"
  {
  }

  /** A byte that goes on with the option. */
  lemma OptionGoesOn(m: Machine, first: bool, option: Bytes, ch: Byte)
    requires Within(m, first, option) && option != []
    requires IsHeaderChar(ch) && ch !in "\r\n" && m.nread < MAX_HEADER_SIZE
    requires ch == ',' ==> !Separates(first, option)
    ensures var r := Step(m, ch);
            Within(r, first, option + [ch]) && r.nread == m.nread + 1 && r.flags == m.flags
  {
    hide Step, OptionClass, Unfinished, Readable, Lower, IsHeaderChar, OptionByte;
    ClassExact(first, option);
    OptionNextClass(first, option, ch);
    OptionNext(m, ch);
    OptionIndex(m.headerState, |option|, m.index + 1, ch);
  }

  /** Only a matching state needs the index, and no other becomes one. */
  lemma OptionIndex(h: HeaderState, i: nat, j: nat, ch: Byte)
    ensures OptionMatching(OptionByte(h, i, ch)) ==> OptionMatching(h)
    ensures !OptionMatching(h) ==> OptionByte(h, i, ch) == OptionByte(h, j, ch)
  {
    hide Lower, MatchByte;
  }

  /** The comma behind an option that it ends: what the option means is noted. */
  lemma OptionEnds(m: Machine, first: bool, option: Bytes)
    requires Within(m, first, option) && Separates(first, option) && m.nread < MAX_HEADER_SIZE
    ensures var r := Step(m, ',');
            Within(r, false, []) && r.nread == m.nread + 1 && r.flags == Noted(m.flags, [option])
  {
    hide Step, OptionClass, Unfinished, Readable, Spells, Noted;
    ClassExact(first, option);
    ClassFlags(first, option, m.flags);
    OptionNextClass(first, option, ',');
    CommaStep(m);
  }

  lemma CommaStep(m: Machine)
    requires m.state.HeaderValue? && !Stopped(m) && m.nread < MAX_HEADER_SIZE
    requires OptionState(m.headerState) && !OptionMatching(m.headerState) && !m.headerState.General?
    ensures var r := Step(m, ',');
            && r.errno == OK && !r.exited && r.state.HeaderValue? && r.nread == m.nread + 1
            && r.headerState.MatchingConnectionTokenStart? && r.index == 0
            && r.flags == ValueFlags(m.headerState, m.flags)
  {
    hide Push, Lower, IsHeaderChar, MatchByte;
    CommaPlain();
  }

  /** The first byte of an option that is not the first. */
  lemma OptionStarts(m: Machine, ch: Byte)
    requires Within(m, false, []) && IsHeaderChar(ch) && ch !in "\r\n" && m.nread < MAX_HEADER_SIZE
    ensures var r := Step(m, ch);
            && Within(r, false, if ch == ' ' then [] else [ch])
            && r.nread == m.nread + 1 && r.flags == m.flags
  {
    hide Step, OptionClass, IsHeaderChar, Lower;
    TokenByte(m, ch);
    if ch != ' ' {
      FirstClass(false, ch);
    }
    SpaceStart(ch);
  }

  lemma SpaceStart(ch: Byte)
    requires IsHeaderChar(ch)
    ensures TokenStart(Lower(ch)).MatchingConnectionTokenStart? <==> ch == ' '
  {
  }

  lemma TokenByte(m: Machine, ch: Byte)
    requires Within(m, false, []) && IsHeaderChar(ch) && ch !in "\r\n" && m.nread < MAX_HEADER_SIZE
    ensures var r := Step(m, ch);
            && r.errno == OK && !r.exited && r.state.HeaderValue? && r.nread == m.nread + 1 && r.index == 0
            && r.flags == m.flags && r.headerState == TokenStart(Lower(ch))
  {
    hide Lower, Push, IsHeaderChar, TokenStart, OptionClass;
  }

  /** The header state behind the first byte of an option. */
  function FirstState(first: bool, ch: Byte): HeaderState {
    var c := Lower(ch);
    if c == 'k' then MatchingConnectionKeepAlive
    else if c == 'c' then MatchingConnectionClose
    else if c == 'u' then MatchingConnectionUpgrade
    else if first || IsToken(c) then MatchingConnectionToken
    else General
  }

  lemma FirstClass(first: bool, ch: Byte)
    ensures OptionClass(first, [ch]) == FirstState(first, ch)
    ensures IsHeaderChar(ch) && ch != ' ' ==> FirstState(false, ch) == TokenStart(Lower(ch))
  {
    hide IsToken, Lower, IsHeaderChar;
    assert LowerBytes([ch]) == [Lower(ch)];
    assert KEEP_ALIVE[..1] == ['k'] && CLOSE[..1] == ['c'] && UPGRADE[..1] == ['u'];
    assert [Lower(ch)][..1] == [Lower(ch)];
    if IsHeaderChar(ch) && ch != ' ' {
      SpaceStart(ch);
    }
  }

  /** The bytes of a value, from anywhere in an option on: all options but the last have been noted, and the
      last one has been read. */
  lemma {:induction false} OptionsRun(m: Machine, first: bool, option: Bytes, value: Bytes)
    requires Within(m, first, option) && Plain(value) && m.nread + |value| <= MAX_HEADER_SIZE
    ensures var r, os := Run(m, value), ReadOptions(first, option, value);
            var n := |os| - 1;
            && Within(r, first && n == 0, os[n]) && r.nread == m.nread + |value|
            && r.flags == Noted(m.flags, os[..n])
    decreases |value|
  {
    hide Step, OptionClass, Separates, Noted, IsHeaderChar;
    if value == [] {
      NotedNone(m.flags);
    } else {
      var ch, rest := value[0], value[1..];
      assert Plain(rest);
      if option == [] {
        OptionStarts(m, ch);
        NotSeparates(first);
        assert option + [ch] == [ch];
        OptionsRun(Step(m, ch), false, if ch == ' ' then [] else [ch], rest);
      } else if ch == ',' && Separates(first, option) {
        OptionEnds(m, first, option);
        OptionsRun(Step(m, ch), false, [], rest);
        var os := ReadOptions(false, [], rest);
        NotedConcat(m.flags, [option], os[..|os| - 1]);
        assert ([option] + os)[..|os|] == [option] + os[..|os| - 1];
      } else {
        OptionGoesOn(m, first, option, ch);
        OptionsRun(Step(m, ch), first, option + [ch], rest);
      }
    }
  }

  /** The end of the value notes the option that is being read. */
  lemma WithinNoted(m: Machine, first: bool, option: Bytes)
    requires Within(m, first, option)
    ensures ValueFlags(m.headerState, m.flags) == Noted(m.flags, [option])
  {
    hide OptionClass, Noted;
    if option == [] {
      NotedNone(m.flags);
    } else {
      ClassFlags(first, option, m.flags);
    }
  }

  // Whole headers

  /** The first byte of the value of a Connection header. */
  lemma ConnectionStarts(m: Machine, ch: Byte)
    requires m.state.HeaderValueDiscardWs? && !Stopped(m) && m.headerState.Connection?
    requires ch !in " \t\r\n" && m.nread < MAX_HEADER_SIZE
    ensures var r := Step(m, ch);
            Within(r, true, [ch]) && r.nread == m.nread + 1 && r.flags == m.flags
  {
    hide OptionClass, Lower, Push, IsToken;
    FirstClass(true, ch);
  }

  lemma FieldStartFlags(m: Machine, ch: Byte)
    ensures StepFieldStart(m, ch).flags == m.flags
    ensures m.errno == OK && (ch == CR || IsToken(ch)) && ch != LF ==> StepFieldStart(m, ch).errno == OK
  {
    hide Push, TokenChar, IsToken, FieldFirst;
  }

  /** The first byte of the next line. */
  lemma NextLine(m: Machine, ch: Byte)
    requires m.state.HeaderValueLws? && !Stopped(m) && ch !in " \t\n" && m.nread < MAX_HEADER_SIZE
    ensures var r := Step(m, ch);
            && r.flags == ValueFlags(m.headerState, m.flags)
            && (ch == CR || IsToken(ch) ==> r.errno == OK)
  {
    hide StepFieldStart, IsToken, ValueFlags;
    var f := ValueFlags(m.headerState, m.flags);
    FieldStartFlags(m.(nread := m.nread + 1, flags := f, state := HeaderFieldStart), ch);
  }

  // Values over several lines

  /** A line that goes on with a value: it begins with a blank (section 3.2.4 of RFC 7230). */
  datatype Fold = Fold(blank: Byte, value: Bytes)

  predicate Folding(folds: seq<Fold>) {
    forall i :: 0 <= i < |folds| ==> folds[i].blank in " \t" && Plain(folds[i].value)
  }

  function EncodeLines(value: Bytes, folds: seq<Fold>, eol: Bytes): Bytes
    decreases |folds|
  {
    value + eol + if folds == [] then [] else [folds[0].blank] + EncodeLines(folds[0].value, folds[1..], eol)
  }

  /** What a value over several lines sets: a line that ends with the comma of an option, and then spaces, is
      gone on with; otherwise its last option is forgotten, and the following lines are passed over. */
  function LinesFlags(f: Flags, first: bool, option: Bytes, value: Bytes, folds: seq<Fold>): Flags
    decreases |folds|
  {
    var os := ReadOptions(first, option, value);
    var n := |os| - 1;
    if folds == [] then Noted(f, os)
    else if os[n] == [] then LinesFlags(Noted(f, os[..n]), false, [], folds[0].value, folds[1..])
    else Noted(f, os[..n])
  }

  /** An option that is passed over. */
  const PASSED: Bytes := ['\t']

  lemma FoldStep(m: Machine, first: bool, option: Bytes, ch: Byte)
    requires m.state.HeaderValueLws? && Within(m.(state := HeaderValue), first, option)
    requires ch in " \t" && m.nread < MAX_HEADER_SIZE
    ensures var r := Step(m, ch);
            && Within(r, false, if option == [] then [] else PASSED)
            && r.nread == m.nread + 1 && r.flags == m.flags
  {
    hide OptionClass, Lower, Push, IsToken, Readable;
    PassedState();
    if option != [] {
      OptionNextClass(first, option, ch);
    }
  }

  lemma PassedState()
    ensures OptionClass(false, PASSED) == General && !Readable(false, PASSED)
  {
    hide OptionClass;
    FirstClass(false, '\t');
  }

  lemma LinesPassed(m: Machine, option: Bytes, value: Bytes, folds: seq<Fold>)
    requires option != [] && !Readable(false, option)
    ensures LinesFlags(m.flags, false, option, value, folds) == m.flags
  {
    hide Readable, Spells, Found, Unfinished;
    PassedOnly(option, value);
    NotedNone(m.flags);
    PassedOptions(option, value, KEEP_ALIVE);
    PassedOptions(option, value, CLOSE);
    PassedOptions(option, value, UPGRADE);
  }

  lemma {:induction false} PassedOnly(option: Bytes, value: Bytes)
    requires option != [] && !Readable(false, option)
    ensures ReadOptions(false, option, value) == [option + value]
    decreases |value|
  {
    hide IsToken, Lower, Unfinished;
    if value == [] {
      assert option + value == option;
    } else {
      PassedOnly(option + [value[0]], value[1..]);
      assert option + [value[0]] + value[1..] == option + value;
    }
  }

  lemma {:induction false} LinesRun(m: Machine, first: bool, option: Bytes, value: Bytes, folds: seq<Fold>, eol: Bytes,
                                    ch: Byte)
    requires Within(m, first, option) && Plain(value) && Folding(folds)
    requires (eol == [CR, LF] || eol == [LF]) && ch !in " \t\n"
    requires m.nread + |EncodeLines(value, folds, eol)| < MAX_HEADER_SIZE
    ensures var r := Run(m, EncodeLines(value, folds, eol) + [ch]);
            && r.flags == LinesFlags(m.flags, first, option, value, folds)
            && (ch == CR || IsToken(ch) ==> r.errno == OK)
    decreases |folds|
  {
    hide Run, Consumed, Step, Noted, ReadOptions, IsToken, ValueFlags, Plain, OptionClass, Readable;
    var v, os := Run(m, value), ReadOptions(first, option, value);
    var n := |os| - 1;
    OptionsRun(m, first, option, value);
    var e := Run(v, eol);
    LineEnd(v, eol);
    RunConcat(m, value, eol);
    if folds == [] {
      NextLine(e, ch);
      RunConcat(m, value + eol, [ch]);
      RunOne(e, ch);
      WithinNoted(v, first && n == 0, os[n]);
      NotedConcat(m.flags, os[..n], [os[n]]);
      assert os == os[..n] + [os[n]] && value + eol + [] == value + eol;
    } else {
      var more := EncodeLines(folds[0].value, folds[1..], eol);
      var b := [folds[0].blank];
      assert EncodeLines(value, folds, eol) + [ch] == value + eol + b + (more + [ch]);
      FoldStep(e, first && n == 0, os[n], folds[0].blank);
      RunConcat(m, value + eol, b);
      RunOne(e, folds[0].blank);
      RunConcat(m, value + eol + b, more + [ch]);
      var next := if os[n] == [] then [] else PASSED;
      LinesRun(Step(e, folds[0].blank), false, next, folds[0].value, folds[1..], eol, ch);
      if os[n] != [] {
        PassedState();
        LinesPassed(v, PASSED, folds[0].value, folds[1..]);
      }
    }
  }

  /** A Connection header of any bytes, up to the first byte of the next line: it sets the flags of the
      keywords that are among the options it is taken for, and no others. */
  lemma ConnectionExact(m: Machine, blanks: Bytes, value: Bytes, folds: seq<Fold>, eol: Bytes, ch: Byte)
    requires m.state.HeaderValueDiscardWs? && !Stopped(m) && m.headerState.Connection?
    requires forall i :: 0 <= i < |blanks| ==> blanks[i] in " \t"
    requires if value == [] then folds == [] else value[0] !in " \t\r\n" && Plain(value[1..]) && Folding(folds)
    requires (eol == [CR, LF] || eol == [LF]) && ch !in " \t\n"
    requires m.nread + |blanks| + |EncodeLines(value, folds, eol)| < MAX_HEADER_SIZE
    ensures var r := Run(m, blanks + EncodeLines(value, folds, eol) + [ch]);
            && r.flags == LinesFlags(m.flags, true, [], value, folds)
            && (ch == CR || IsToken(ch) ==> r.errno == OK)
  {
    hide Run, Consumed, Step, Noted, ReadOptions, IsToken, Plain, OptionClass, EncodeLines, LinesFlags;
    var b, lines := Run(m, blanks), EncodeLines(value, folds, eol);
    BlanksRun(m, blanks);
    RunConcat(m, blanks, lines + [ch]);
    assert blanks + (lines + [ch]) == blanks + lines + [ch];
    if value == [] {
      NoLines(m.flags, eol);
      EmptyRun(b, eol, ch);
    } else {
      var s := Step(b, value[0]);
      ConnectionStarts(b, value[0]);
      FirstLines(m.flags, value, folds, eol);
      var rest := EncodeLines(value[1..], folds, eol);
      LinesRun(s, true, [value[0]], value[1..], folds, eol, ch);
      RunConcat(b, [value[0]], rest + [ch]);
      RunOne(b, value[0]);
      assert [value[0]] + (rest + [ch]) == lines + [ch];
    }
  }

  lemma FirstLines(f: Flags, value: Bytes, folds: seq<Fold>, eol: Bytes)
    requires value != []
    ensures LinesFlags(f, true, [], value, folds) == LinesFlags(f, true, [value[0]], value[1..], folds)
    ensures EncodeLines(value, folds, eol) == [value[0]] + EncodeLines(value[1..], folds, eol)
  {
    hide ReadOptions, Noted;
    FirstOptions(value);
    assert [value[0]] + value[1..] == value;
  }

  lemma NoLines(f: Flags, eol: Bytes)
    ensures LinesFlags(f, true, [], [], []) == f && EncodeLines([], [], eol) == eol
  {
    NotedNone(f);
  }

  /** An empty value sets nothing. */
  lemma EmptyRun(m: Machine, eol: Bytes, ch: Byte)
    requires m.state.HeaderValueDiscardWs? && !Stopped(m) && m.headerState.Connection?
    requires (eol == [CR, LF] || eol == [LF]) && ch !in " \t\n" && m.nread + |eol| < MAX_HEADER_SIZE
    ensures var r := Run(m, eol + [ch]);
            r.flags == m.flags && (ch == CR || IsToken(ch) ==> r.errno == OK)
  {
    hide Run, Consumed, Step, IsToken;
    var e := m.(nread := m.nread + |eol|, state := HeaderValueDiscardLws);
    LineEnd(m, eol);
    EmptyNext(e, ch);
    RunConcat(m, eol, [ch]);
    RunOne(e, ch);
  }

  lemma EmptyNext(m: Machine, ch: Byte)
    requires m.state.HeaderValueDiscardLws? && !Stopped(m) && m.headerState.Connection?
    requires ch !in " \t\n" && m.nread < MAX_HEADER_SIZE
    ensures var r := Step(m, ch);
            r.flags == m.flags && (ch == CR || IsToken(ch) ==> r.errno == OK)
  {
    hide StepFieldStart, IsToken, Push;
    FieldStartFlags(Emit(m.(nread := m.nread + 1, state := HeaderFieldStart), Value([])), ch);
  }

  lemma SameLine(f: Flags, value: Bytes, eol: Bytes)
    ensures EncodeLines(value, [], eol) == value + eol
    ensures LinesFlags(f, true, [], value, []) == Noted(f, ReadOptions(true, [], value))
  {
  }

  /** A Connection header on one line sets the flags of the keywords that are elements of its list if and only
      if none of them is missed. */
  lemma ConnectionConforms(m: Machine, blanks: Bytes, value: Bytes, eol: Bytes, ch: Byte)
    requires m.state.HeaderValueDiscardWs? && !Stopped(m) && m.headerState.Connection?
    requires forall i :: 0 <= i < |blanks| ==> blanks[i] in " \t"
    requires value != [] ==> value[0] !in " \t\r\n" && Plain(value[1..])
    requires (eol == [CR, LF] || eol == [LF]) && ch !in " \t\n"
    requires m.nread + |blanks| + |value| + |eol| < MAX_HEADER_SIZE
    ensures var r := Run(m, blanks + value + eol + [ch]);
            r.flags == ListFlags(m.flags, value) <==> NoneMissed(m.flags, value)
  {
    hide Run, Plain, Noted, ReadOptions, ListFlags, NoneMissed, EncodeLines, LinesFlags, Stopped;
    SameLine(m.flags, value, eol);
    assert blanks + value + eol == blanks + (value + eol);
    ConnectionExact(m, blanks, value, [], eol, ch);
    ListExact(m.flags, value);
  }

  lemma FirstOptions(value: Bytes)
    requires value != []
    ensures ReadOptions(true, [], value) == ReadOptions(true, [value[0]], value[1..])
  {
    assert [] + [value[0]] == [value[0]];
  }

  // Commas and blanks

  /** The machine is before an option: the first one of the header, or a later one. */
  predicate Before(m: Machine, first: bool) {
    if first then m.state.HeaderValueDiscardWs? && !Stopped(m) && m.headerState.Connection? else Within(m, false, [])
  }

  /** An option without commas is recognised exactly when it is keep-alive, close or upgrade, ignoring case,
      followed by nothing but spaces. */
  lemma {:induction false} OptionExact(m: Machine, first: bool, option: Bytes)
    requires Before(m, first) && option != [] && option[0] !in " \t" && Plain(option) && ',' !in option
    requires m.nread + |option| <= MAX_HEADER_SIZE
    ensures var r := Run(m, option);
            && Within(r, first, option) && r.nread == m.nread + |option| && r.flags == m.flags
            && (r.headerState.ConnectionKeepAlive? <==> Spells(option, KEEP_ALIVE))
            && (r.headerState.ConnectionClose? <==> Spells(option, CLOSE))
            && (r.headerState.ConnectionUpgrade? <==> Spells(option, UPGRADE))
    decreases |option|
  {
    hide Run, Consumed, Step, OptionClass, Spells, IsHeaderChar;
    var n := |option| - 1;
    assert option == option[..n] + [option[n]];
    RunConcat(m, option[..n], [option[n]]);
    ClassExact(first, option);
    if n == 0 {
      assert option == [option[0]];
      RunOne(m, option[0]);
      if first {
        ConnectionStarts(m, option[0]);
      } else {
        OptionStarts(m, option[0]);
      }
    } else {
      var r := Run(m, option[..n]);
      OptionExact(m, first, option[..n]);
      RunOne(r, option[n]);
      OptionGoesOn(r, first, option[..n], option[n]);
    }
  }

  /** A comma behind an option ends it, so that the next one is looked at, if and only if the option is not
      passed over and is not the mere beginning of keep-alive, close or upgrade. */
  lemma CommaExact(m: Machine, first: bool, option: Bytes)
    requires Before(m, first) && option != [] && option[0] !in " \t" && Plain(option) && ',' !in option
    requires m.nread + |option| < MAX_HEADER_SIZE
    ensures var r := Run(m, option + [',']);
            && r.errno == OK && r.state.HeaderValue?
            && (r.headerState.MatchingConnectionTokenStart? <==> Readable(first, option) && !Unfinished(option))
            && r.flags == if Separates(first, option) then Noted(m.flags, [option]) else m.flags
  {
    hide Run, Consumed, Step, OptionClass, Readable, Unfinished, Noted, Spells, IsHeaderChar;
    var r := Run(m, option);
    OptionExact(m, first, option);
    RunConcat(m, option, [',']);
    RunOne(r, ',');
    CommaPlain();
    if Separates(first, option) {
      OptionEnds(r, first, option);
    } else {
      OptionGoesOn(r, first, option, ',');
      OptionNextClass(first, option, ',');
      OptionNextClass(first, option + [','], ',');
    }
  }

  /** An option that is passed over takes the rest of the value with it. */
  lemma {:induction false} PassedOver(m: Machine, option: Bytes, rest: Bytes)
    requires option != [] && Within(m, false, option) && !Readable(false, option)
    requires Plain(rest) && m.nread + |rest| <= MAX_HEADER_SIZE
    ensures var r := Run(m, rest);
            && Within(r, false, option + rest) && r.headerState.General?
            && r.nread == m.nread + |rest| && r.flags == m.flags
    decreases |rest|
  {
    hide Step, OptionClass, Unfinished, IsHeaderChar, IsToken;
    if rest == [] {
      ClassExact(false, option);
      assert option + rest == option;
    } else {
      OptionGoesOn(m, false, option, rest[0]);
      assert Plain(rest[1..]);
      PassedOver(Step(m, rest[0]), option + [rest[0]], rest[1..]);
      assert option + [rest[0]] + rest[1..] == option + rest;
    }
  }

  /** Blanks before an option that is not the first are skipped if and only if they are all spaces: a tab
      makes the rest of the value be passed over. */
  lemma {:induction false} BlanksExact(m: Machine, blanks: Bytes)
    requires Within(m, false, []) && (forall i :: 0 <= i < |blanks| ==> blanks[i] in " \t")
    requires m.nread + |blanks| <= MAX_HEADER_SIZE
    ensures var r := Run(m, blanks);
            && !Stopped(r) && r.state.HeaderValue? && r.flags == m.flags
            && (r.headerState.MatchingConnectionTokenStart? <==> forall i :: 0 <= i < |blanks| ==> blanks[i] == ' ')
            && (!r.headerState.MatchingConnectionTokenStart? ==> r.headerState.General?)
    decreases |blanks|
  {
    hide Step, OptionClass, IsHeaderChar;
    if blanks != [] {
      BlankChars();
      var rest := blanks[1..];
      assert forall i :: 0 <= i < |rest| ==> rest[i] == blanks[i + 1];
      OptionStarts(m, blanks[0]);
      if blanks[0] == ' ' {
        BlanksExact(Step(m, blanks[0]), rest);
        assert blanks == [' '] + rest;
      } else {
        assert blanks[0] == '\t';
        TabUnread();
        PassedOver(Step(m, blanks[0]), [blanks[0]], rest);
      }
    }
  }

  lemma BlankChars()
    ensures IsHeaderChar(' ') && IsHeaderChar('\t')
  {
  }

  lemma TabUnread()
    ensures !Readable(false, ['\t'])
  {
  }

  // Four headers

  /** The flags behind a value that follows one space and ends in CR LF. */
  function FlagsAfter(m: Machine, value: Bytes, ch: Byte): Flags { Run(m, [' '] + value + [CR, LF] + [ch]).flags }

  lemma OneLine(m: Machine, value: Bytes, ch: Byte)
    requires Before(m, true) && ch !in " \t\n" && m.nread + |value| + 4 < MAX_HEADER_SIZE
    requires value != [] && value[0] !in " \t\r\n" && Plain(value[1..])
    ensures FlagsAfter(m, value, ch) == Noted(m.flags, ReadOptions(true, [], value))
  {
    hide Run, Plain, Noted, ReadOptions, EncodeLines, LinesFlags;
    SameLine(m.flags, value, [CR, LF]);
    assert [' '] + (value + [CR, LF]) == [' '] + value + [CR, LF];
    ConnectionExact(m, [' '], value, [], [CR, LF], ch);
  }

  lemma {:induction false} NoComma(first: bool, option: Bytes, value: Bytes)
    requires ',' !in value && (first || option != [])
    ensures ReadOptions(first, option, value) == [option + value]
    decreases |value|
  {
    if value == [] {
      assert option + value == option;
    } else {
      NoComma(first, option + [value[0]], value[1..]);
      assert option + [value[0]] + value[1..] == option + value;
    }
  }

  /** An option that spells close, and one that spells nothing. */
  lemma NotedOne(f: Flags, option: Bytes)
    requires option != [] && LowerBytes(option)[0] == 'c'
    ensures Noted(f, [option]) == f.(close := f.close || Spells(option, CLOSE))
  {
    hide Spells, Lower;
    SpellsApart(option);
    FoundCons(option, [], KEEP_ALIVE);
    FoundCons(option, [], CLOSE);
    FoundCons(option, [], UPGRADE);
  }

  lemma NotedNothing(f: Flags, option: Bytes)
    requires option != [] && LowerBytes(option)[0] !in "kcu"
    ensures Noted(f, [option]) == f
  {
    hide Spells, Lower;
    SpellsApart(option);
    FoundCons(option, [], KEEP_ALIVE);
    FoundCons(option, [], CLOSE);
    FoundCons(option, [], UPGRADE);
  }

  lemma CloseSpelled()
    ensures Spells("close", CLOSE)
  {
    var value := "close";
    assert LowerBytes(value) == value && value[..|CLOSE|] == value;
  }

  /** Connection: close sets the flag of close. */
  lemma CloseSet(m: Machine, ch: Byte)
    requires Before(m, true) && ch !in " \t\n" && m.nread < 1000
    ensures FlagsAfter(m, "close", ch) == m.flags.(close := true)
  {
    hide Run, Noted, ReadOptions, Spells;
    var value := "close";
    NoComma(true, [], value);
    assert [] + value == value;
    NotedOne(m.flags, value);
    CloseSpelled();
    OneLine(m, value, ch);
  }

  /** The comma behind c is swallowed: the close behind it is not seen. */
  lemma CloseAfterComma(m: Machine, ch: Byte)
    requires Before(m, true) && ch !in " \t\n" && m.nread < 1000
    ensures FlagsAfter(m, "c,close", ch) == m.flags
  {
    hide Run, Noted, ReadOptions;
    var value := "c,close";
    CommaOptions();
    NotedOne(m.flags, value);
    assert LowerBytes(value[..|CLOSE|])[1] == ',';
    OneLine(m, value, ch);
  }

  lemma CommaOptions()
    ensures ReadOptions(true, [], "c,close") == ["c,close"]
  {
    var value, one, c := "c,close", "c,", "c";
    assert LowerBytes(c) == CLOSE[..1];
    assert Unfinished(c);
    NoComma(true, one, "close");
    assert value[0] == 'c' && value[1..][0] == ',' && value[1..][1..] == "close" && c + [','] == one;
    assert [] + [value[0]] == c && one + "close" == value;
    assert ReadOptions(true, c, value[1..]) == [value];
    FirstOptions(value);
  }

  /** The tab after the comma is not skipped: the close behind it is passed over. */
  lemma CloseAfterTab(m: Machine, ch: Byte)
    requires Before(m, true) && ch !in " \t\n" && m.nread < 1000
    ensures FlagsAfter(m, "x,\tclose", ch) == m.flags
  {
    hide Run, Noted, ReadOptions;
    var value, x, second := "x,\tclose", "x", "\tclose";
    TabOptions();
    NotedX(m.flags);
    NotedConcat(m.flags, [x], [second]);
    OneLine(m, value, ch);
  }

  /** Nor is the tab behind a keyword skipped: the option is no longer the keyword. */
  lemma CloseBeforeTab(m: Machine, ch: Byte)
    requires Before(m, true) && ch !in " \t\n" && m.nread < 1000
    ensures FlagsAfter(m, "close\t", ch) == m.flags
  {
    hide Run, Noted, ReadOptions, Spells;
    var value := "close\t";
    NoComma(true, [], value);
    assert [] + value == value;
    NotedOne(m.flags, value);
    if Spells(value, CLOSE) {
      SpellsPlain(value, CLOSE);
      assert false;
    }
    OneLine(m, value, ch);
  }

  lemma NotedX(f: Flags)
    ensures Noted(f, ["x"]) == f && Noted(f, ["\tclose"]) == f
  {
    hide Noted;
    assert LowerBytes("x")[0] == 'x' && LowerBytes("\tclose")[0] == ')';
    NotedNothing(f, "x");
    NotedNothing(f, "\tclose");
  }

  lemma TabOptions()
    ensures ReadOptions(true, [], "x,\tclose") == ["x"] + ["\tclose"]
  {
    hide LowerBytes;
    var value, x, second := "x,\tclose", "x", "\tclose";
    assert value[0] == 'x' && value[1..][0] == ',' && value[1..][1..] == second;
    XSeparates();
    NoComma(false, ['\t'], "close");
    assert second[1..] == "close" && ['\t'] + "close" == second;
    assert ReadOptions(false, [], second) == [second] by { assert [] + [second[0]] == ['\t']; }
    FirstOptions(value);
  }

  lemma XSeparates()
    ensures Separates(true, "x")
  {
    assert LowerBytes("x")[0] == 'x';
  }
}
