/** The options of a Connection header on its bytes: which the matcher takes a value for, and which it has as
    a list. */
module HttpList {
  import opened HttpTypes
  import opened HttpMachine
  import opened HttpKeywords

  // The options of a value

  /** The beginning of keep-alive, close or upgrade, ignoring case, but not all of it. */
  predicate Unfinished(option: Bytes) {
    var low := LowerBytes(option);
    || (Starts(low, KEEP_ALIVE) && |low| < |KEEP_ALIVE|)
    || (Starts(low, CLOSE) && |low| < |CLOSE|)
    || (Starts(low, UPGRADE) && |low| < |UPGRADE|)
  }

  /** Only an option that is not the first one may be passed over for its first byte. */
  predicate Readable(first: bool, option: Bytes)
    requires option != []
  {
    first || IsToken(Lower(option[0]))
  }

  /** A comma behind the option ends it. */
  predicate Separates(first: bool, option: Bytes) {
    option != [] && Readable(first, option) && !Unfinished(option)
  }

  /** The options a value is taken for, when option is the part of the current one that has been read. */
  function ReadOptions(first: bool, option: Bytes, value: Bytes): (os: seq<Bytes>)
    ensures os != [] && |os[0]| >= |option|
    decreases |value|
  {
    if value == [] then [option]
    else if value[0] == ' ' && option == [] && !first then ReadOptions(false, [], value[1..])
    else if value[0] == ',' && Separates(first, option) then [option] + ReadOptions(false, [], value[1..])
    else ReadOptions(first, option + [value[0]], value[1..])
  }

  predicate Found(os: seq<Bytes>, word: Bytes) { exists i :: 0 <= i < |os| && Spells(os[i], word) }

  /** The flags once the options of a header have been noted. */
  function Noted(f: Flags, os: seq<Bytes>): Flags {
    f.(keepAlive := f.keepAlive || Found(os, KEEP_ALIVE),
       close := f.close || Found(os, CLOSE),
       connectionUpgrade := f.connectionUpgrade || Found(os, UPGRADE))
  }

  lemma FoundConcat(a: seq<Bytes>, b: seq<Bytes>, word: Bytes)
    ensures Found(a + b, word) <==> Found(a, word) || Found(b, word)
  {
    hide Spells;
    var all := a + b;
    assert forall i :: 0 <= i < |a| ==> all[i] == a[i];
    assert forall i :: 0 <= i < |b| ==> all[|a| + i] == b[i];
    if i :| 0 <= i < |all| && Spells(all[i], word) {
      assert if i < |a| then all[i] == a[i] else all[i] == b[i - |a|];
    }
  }

  lemma FoundCons(o: Bytes, os: seq<Bytes>, word: Bytes)
    ensures Found([o] + os, word) <==> Spells(o, word) || Found(os, word)
    ensures Found([o], word) <==> Spells(o, word)
  {
    hide Spells;
    FoundConcat([o], os, word);
    assert [o][0] == o;
  }

  lemma NotedConcat(f: Flags, a: seq<Bytes>, b: seq<Bytes>)
    ensures Noted(f, a + b) == Noted(Noted(f, a), b)
  {
    hide Found;
    FoundConcat(a, b, KEEP_ALIVE);
    FoundConcat(a, b, CLOSE);
    FoundConcat(a, b, UPGRADE);
  }

  lemma NotedNone(f: Flags)
    ensures Noted(f, []) == f && Noted(f, [[]]) == f
  {
    hide Lower;
    FoundCons([], [], KEEP_ALIVE);
    FoundCons([], [], CLOSE);
    FoundCons([], [], UPGRADE);
  }

  lemma KeywordLetters()
    ensures IsToken('k') && IsToken('c') && IsToken('u')
  {
  }

  /** The three words differ in their first letter. */
  lemma OptionWords(low: Bytes)
    requires low != []
    ensures Starts(low, KEEP_ALIVE) ==> low[0] == 'k' && |low| <= |KEEP_ALIVE|
    ensures Starts(low, CLOSE) ==> low[0] == 'c' && |low| <= |CLOSE|
    ensures Starts(low, UPGRADE) ==> low[0] == 'u' && |low| <= |UPGRADE|
    ensures IsToken('k') && IsToken('c') && IsToken('u')
  {
    KeywordLetters();
  }

  lemma SpellsApart(option: Bytes)
    requires option != []
    ensures Spells(option, KEEP_ALIVE) ==> LowerBytes(option)[0] == 'k' && |option| >= |KEEP_ALIVE|
    ensures Spells(option, CLOSE) ==> LowerBytes(option)[0] == 'c' && |option| >= |CLOSE|
    ensures Spells(option, UPGRADE) ==> LowerBytes(option)[0] == 'u' && |option| >= |UPGRADE|
  {
    hide Lower;
    if Spells(option, KEEP_ALIVE) {
      assert LowerBytes(option[..|KEEP_ALIVE|])[0] == 'k';
    }
    if Spells(option, CLOSE) {
      assert LowerBytes(option[..|CLOSE|])[0] == 'c';
    }
    if Spells(option, UPGRADE) {
      assert LowerBytes(option[..|UPGRADE|])[0] == 'u';
    }
  }

  lemma NotSeparates(first: bool)
    ensures !Separates(first, [])
  {
  }

  // The list a value is

  /** Where the first comma is, or the length. */
  function CommaAt(value: Bytes): (n: nat)
    ensures n <= |value| && ',' !in value[..n] && (n < |value| ==> value[n] == ',')
  {
    if value == [] || value[0] == ',' then 0
    else
      var n := CommaAt(value[1..]);
      assert value[..n + 1] == [value[0]] + value[1..][..n];
      n + 1
  }

  /** What stands between the commas. */
  function Pieces(value: Bytes): (ps: seq<Bytes>)
    ensures ps != []
    decreases |value|
  {
    var n := CommaAt(value);
    if n == |value| then [value] else [value[..n]] + Pieces(value[n + 1..])
  }

  function TrimStart(piece: Bytes): Bytes {
    if piece != [] && piece[0] in " \t" then TrimStart(piece[1..]) else piece
  }

  function TrimEnd(piece: Bytes): Bytes {
    if piece != [] && piece[|piece| - 1] in " \t" then TrimEnd(piece[..|piece| - 1]) else piece
  }

  /** An element of a list: blanks around it, spaces and tabs, do not belong to it (section 7 of RFC 7230). */
  function Element(piece: Bytes): Bytes { TrimEnd(TrimStart(piece)) }

  /** The word, in any mixture of cases, is an element of the list. */
  predicate Listed(value: Bytes, word: Bytes) {
    exists i :: 0 <= i < |Pieces(value)| && LowerBytes(Element(Pieces(value)[i])) == word
  }

  /** The flags once the elements of a list have been noted (section 6.1 of RFC 7230). */
  function ListFlags(f: Flags, value: Bytes): Flags {
    f.(keepAlive := f.keepAlive || Listed(value, KEEP_ALIVE),
       close := f.close || Listed(value, CLOSE),
       connectionUpgrade := f.connectionUpgrade || Listed(value, UPGRADE))
  }

  // What of the list is read

  /** Whether an option begins with a piece, or the comma before it was taken for a byte of an option that the
      next comma ends, or for a byte of one that takes the rest of the value. */
  datatype Place = Start | Swallowed | Passed

  function SkipSpaces(piece: Bytes): Bytes {
    if piece != [] && piece[0] == ' ' then SkipSpaces(piece[1..]) else piece
  }

  function Lead(first: bool, piece: Bytes): Bytes { if first then piece else SkipSpaces(piece) }

  function NextPlace(place: Place, first: bool, piece: Bytes): Place {
    match place
    case Passed => Passed
    case Swallowed => Start
    case Start =>
      var option := Lead(first, piece);
      if option == [] then if first then Swallowed else Passed
      else if !Readable(first, option) then Passed
      else if Unfinished(option) then Swallowed
      else Start
  }

  function Places(place: Place, first: bool, pieces: seq<Bytes>): (places: seq<Place>)
    ensures |places| == |pieces|
    decreases |pieces|
  {
    if pieces == [] then [] else [place] + Places(NextPlace(place, first, pieces[0]), false, pieces[1..])
  }

  /** The word is an element at which an option begins and around which there is no tab. */
  predicate Visible(value: Bytes, word: Bytes) {
    var pieces := Pieces(value);
    exists i :: 0 <= i < |pieces| && Places(Start, true, pieces)[i].Start? && '\t' !in pieces[i] &&
                LowerBytes(Element(pieces[i])) == word
  }

  /** The word is in the list, but each time behind a comma that does not end an option, or with a tab. */
  predicate Missed(value: Bytes, word: Bytes) { Listed(value, word) && !Visible(value, word) }

  predicate NoneMissed(f: Flags, value: Bytes) {
    && (f.keepAlive || !Missed(value, KEEP_ALIVE))
    && (f.close || !Missed(value, CLOSE))
    && (f.connectionUpgrade || !Missed(value, UPGRADE))
  }

  predicate Keyword(word: Bytes) { word == KEEP_ALIVE || word == CLOSE || word == UPGRADE }

  lemma KeywordBytes(word: Bytes)
    requires Keyword(word)
    ensures |word| >= 5 && IsToken(word[0]) && word[|word| - 1] !in " \t"
    ensures forall i :: 0 <= i < |word| ==> word[i] !in ", )"
    ensures word[0] == 'k' || word[0] == 'c' || word[0] == 'u'
  {
  }

  /** An option that spells a keyword has letters of it and spaces only. */
  lemma SpellsPlain(option: Bytes, word: Bytes)
    requires Keyword(word) && Spells(option, word)
    ensures ',' !in option && '\t' !in option && option != []
  {
    hide Lower;
    KeywordBytes(word);
    BlankLetters();
    forall i | 0 <= i < |option| ensures option[i] != ',' && option[i] != '\t' {
      if i < |word| {
        assert LowerBytes(option[..|word|])[i] == Lower(option[i]);
      }
    }
  }

  lemma BlankLetters()
    ensures Lower(',') == ',' && Lower(' ') == ' ' && Lower('\t') == ')'
  {
  }

  /** An option that is not ended by a comma spells no keyword. */
  lemma SpellsSeparates(first: bool, option: Bytes, word: Bytes)
    requires Keyword(word) && Spells(option, word)
    ensures Separates(first, option)
  {
    hide IsToken, Lower, Starts;
    KeywordBytes(word);
    assert LowerBytes(option[..|word|])[0] == Lower(option[0]);
    SpellsUnfinished(option, word);
  }

  lemma SpellsUnfinished(option: Bytes, word: Bytes)
    requires Keyword(word) && Spells(option, word)
    ensures !Unfinished(option)
  {
    hide IsToken, Lower;
    KeywordBytes(word);
    assert LowerBytes(option[..|word|])[0] == LowerBytes(option)[0];
    assert |KEEP_ALIVE| == 10 && |CLOSE| == 5 && |UPGRADE| == 7;
  }

  lemma NotUnfinished(option: Bytes)
    requires ',' in option
    ensures !Unfinished(option)
  {
    hide Lower;
    var i :| 0 <= i < |option| && option[i] == ',';
    BlankLetters();
    assert LowerBytes(option)[i] == ',';
    NoCommaIn(KEEP_ALIVE, i);
    NoCommaIn(CLOSE, i);
    NoCommaIn(UPGRADE, i);
  }

  lemma NoCommaIn(word: Bytes, i: nat)
    requires Keyword(word)
    ensures i < |word| ==> word[i] != ','
  {
  }

  /** The rest of a piece, in the middle of an option. */
  lemma {:induction false} PieceRead(first: bool, option: Bytes, piece: Bytes, value: Bytes)
    requires option != [] && ',' !in piece
    ensures ReadOptions(first, option, piece) == [option + piece]
    ensures ReadOptions(first, option, piece + [','] + value) ==
            if Separates(first, option + piece) then [option + piece] + ReadOptions(false, [], value)
            else ReadOptions(first, option + piece + [','], value)
    decreases |piece|
  {
    hide Separates;
    var all := piece + [','] + value;
    if piece == [] {
      assert option + piece == option;
      assert all[1..] == value;
    } else {
      assert all[1..] == piece[1..] + [','] + value;
      assert option + [piece[0]] + piece[1..] == option + piece;
      PieceRead(first, option + [piece[0]], piece[1..], value);
    }
  }

  /** A piece with which an option begins. */
  lemma {:induction false} PieceStart(first: bool, piece: Bytes, value: Bytes)
    requires ',' !in piece
    ensures ReadOptions(first, [], piece) == [Lead(first, piece)]
    ensures var option := Lead(first, piece);
            ReadOptions(first, [], piece + [','] + value) ==
            if Separates(first, option) then [option] + ReadOptions(false, [], value)
            else ReadOptions(first, option + [','], value)
    decreases |piece|
  {
    hide Separates;
    NotSeparates(first);
    var all := piece + [','] + value;
    if piece == [] {
      assert all[1..] == value && [] + [','] == [','];
    } else {
      assert all[1..] == piece[1..] + [','] + value;
      if !first && piece[0] == ' ' {
        PieceStart(first, piece[1..], value);
      } else {
        assert [] + [piece[0]] == [piece[0]] && [piece[0]] + piece[1..] == piece;
        PieceRead(first, [piece[0]], piece[1..], value);
      }
    }
  }

  lemma LeadPlain(first: bool, piece: Bytes)
    requires ',' !in piece
    ensures ',' !in Lead(first, piece)
    decreases |piece|
  {
    if !first && piece != [] && piece[0] == ' ' {
      LeadPlain(first, piece[1..]);
    }
  }

  /** Read from here on, the word is an option. */
  predicate Seen(place: Place, first: bool, pieces: seq<Bytes>, word: Bytes)
    requires pieces != []
    decreases |pieces|
  {
    || (place.Start? && Spells(Lead(first, pieces[0]), word))
    || (|pieces| > 1 && Seen(NextPlace(place, first, pieces[0]), false, pieces[1..], word))
  }

  lemma {:induction false} SeenPassed(first: bool, pieces: seq<Bytes>, word: Bytes)
    requires pieces != []
    ensures !Seen(Passed, first, pieces, word)
    decreases |pieces|
  {
    hide Spells;
    if |pieces| > 1 {
      SeenPassed(false, pieces[1..], word);
    }
  }

  /** An option that is not readable takes the rest of the value. */
  lemma {:induction false} PassedOptions(option: Bytes, value: Bytes, word: Bytes)
    requires Keyword(word) && option != [] && !Readable(false, option)
    ensures !Found(ReadOptions(false, option, value), word)
    decreases |value|
  {
    hide Spells, Unfinished, IsToken, Lower;
    if value == [] {
      FoundCons(option, [], word);
      if Spells(option, word) {
        SpellsSeparates(false, option, word);
      }
    } else {
      PassedOptions(option + [value[0]], value[1..], word);
    }
  }

  lemma {:induction false} SeenSwallowed(first: bool, option: Bytes, value: Bytes, word: Bytes)
    requires Keyword(word) && ',' in option && Readable(first, option)
    ensures Found(ReadOptions(first, option, value), word) <==> Seen(Swallowed, false, Pieces(value), word)
    decreases |value|, 0
  {
    hide Spells, Found, Readable, Unfinished, ReadOptions, Lead;
    var n := CommaAt(value);
    var piece := value[..n];
    var all := option + piece;
    assert ',' in all;
    if Spells(all, word) {
      SpellsPlain(all, word);
      assert false;
    }
    if n == |value| {
      assert piece == value;
      PieceRead(first, option, value, []);
      FoundCons(all, [], word);
    } else {
      var rest := value[n + 1..];
      assert value == piece + [','] + rest;
      PieceRead(first, option, piece, rest);
      NotUnfinished(all);
      StillReadable(first, option, piece);
      FoundCons(all, ReadOptions(false, [], rest), word);
      SeenStart(false, rest, word);
      assert Pieces(value)[1..] == Pieces(rest);
    }
  }

  lemma StillReadable(first: bool, option: Bytes, piece: Bytes)
    requires option != []
    ensures Readable(first, option + piece) == Readable(first, option)
  {
    hide IsToken, Lower;
  }

  /** The options read from a value are those seen piece by piece. */
  lemma {:induction false} SeenStart(first: bool, value: Bytes, word: Bytes)
    requires Keyword(word)
    ensures Found(ReadOptions(first, [], value), word) <==> Seen(Start, first, Pieces(value), word)
    decreases |value|, 1
  {
    hide Spells, Found, Readable, Unfinished, ReadOptions, Lead, Separates, NextPlace;
    var n := CommaAt(value);
    var option := Lead(first, value[..n]);
    if n == |value| {
      assert value[..n] == value;
      PieceStart(first, value, []);
      FoundCons(option, [], word);
    } else {
      var rest := value[n + 1..];
      assert value == value[..n] + [','] + rest;
      PieceStart(first, value[..n], rest);
      assert Pieces(value)[1..] == Pieces(rest);
      NextExact(first, value[..n]);
      if Separates(first, option) {
        FoundCons(option, ReadOptions(false, [], rest), word);
        SeenStart(false, rest, word);
      } else {
        if Spells(option, word) {
          SpellsSeparates(first, option, word);
          assert false;
        }
        if NextPlace(Start, first, value[..n]).Passed? {
          PassedOptions(option + [','], rest, word);
          SeenPassed(false, Pieces(rest), word);
        } else {
          SeenSwallowed(first, option + [','], rest, word);
        }
      }
    }
  }

  /** What the comma behind a piece does. */
  lemma NextExact(first: bool, piece: Bytes)
    requires ',' !in piece
    ensures var option := Lead(first, piece);
            var next := NextPlace(Start, first, piece);
            && (next.Start? <==> Separates(first, option))
            && (next.Passed? ==> !first && !Readable(false, option + [',']))
            && (next.Swallowed? ==> Readable(first, option + [',']))
  {
    hide Unfinished, Lead;
    assert !IsToken(Lower(','));
  }

  lemma {:induction false} SeenAt(place: Place, first: bool, pieces: seq<Bytes>, word: Bytes)
    requires pieces != []
    ensures var places := Places(place, first, pieces);
            Seen(place, first, pieces, word) <==>
            exists i :: 0 <= i < |pieces| && places[i].Start? && Spells(Lead(first && i == 0, pieces[i]), word)
    decreases |pieces|
  {
    hide Spells, Lead, NextPlace;
    var places := Places(place, first, pieces);
    if |pieces| > 1 {
      var next := NextPlace(place, first, pieces[0]);
      SeenAt(next, false, pieces[1..], word);
      var rest := Places(next, false, pieces[1..]);
      assert places == [place] + rest;
      forall i | 0 <= i < |rest| ensures places[i + 1] == rest[i] && pieces[i + 1] == pieces[1..][i] {}
      if Seen(next, false, pieces[1..], word) {
        var i :| 0 <= i < |rest| && rest[i].Start? && Spells(Lead(false, pieces[1..][i]), word);
        assert places[i + 1].Start? && Spells(Lead(first && i + 1 == 0, pieces[i + 1]), word);
      }
      if i :| 1 <= i < |pieces| && places[i].Start? && Spells(Lead(first && i == 0, pieces[i]), word) {
        assert rest[i - 1].Start? && Spells(Lead(false, pieces[1..][i - 1]), word);
      }
    }
    if place.Start? && Spells(Lead(first, pieces[0]), word) {
      assert places[0].Start? && Spells(Lead(first && 0 == 0, pieces[0]), word);
    }
  }

  // Blanks

  lemma {:induction false} TrimEndExact(option: Bytes, word: Bytes)
    requires Keyword(word) && '\t' !in option
    ensures Spells(option, word) <==> LowerBytes(TrimEnd(option)) == word
    decreases |option|
  {
    hide Spells, Lower;
    KeywordBytes(word);
    if option == [] {
      SpellsNothing(word);
    } else {
      var front, ch := option[..|option| - 1], option[|option| - 1];
      assert option == front + [ch];
      SpellsSnoc(front, ch, word);
      if ch == ' ' {
        TrimEndExact(front, word);
        BlankLetters();
        assert LowerBytes(option)[|option| - 1] == ' ';
      }
    }
  }

  lemma SpellsNothing(word: Bytes)
    requires Keyword(word)
    ensures !Spells([], word)
  {
  }

  lemma {:induction false} TrimStartSpaces(piece: Bytes)
    ensures '\t' in SkipSpaces(piece) <==> '\t' in piece
    ensures '\t' !in piece ==> TrimStart(piece) == SkipSpaces(piece)
    decreases |piece|
  {
    if piece != [] {
      assert piece == [piece[0]] + piece[1..];
      TrimStartSpaces(piece[1..]);
    }
  }

  /** A piece is read as a keyword if and only if that is its element and there is no tab in it. */
  lemma PieceExact(first: bool, piece: Bytes, word: Bytes)
    requires Keyword(word) && (first && piece != [] ==> piece[0] !in " \t")
    ensures Spells(Lead(first, piece), word) <==> '\t' !in piece && LowerBytes(Element(piece)) == word
  {
    hide Spells, Lower, TrimEnd;
    TrimStartSpaces(piece);
    if '\t' in piece {
      if Spells(Lead(first, piece), word) {
        SpellsPlain(Lead(first, piece), word);
        assert false;
      }
    } else {
      assert TrimStart(piece) == Lead(first, piece);
      TrimEndExact(Lead(first, piece), word);
    }
  }

  /** A keyword is found in a value if and only if it is visible there. */
  lemma VisibleExact(value: Bytes, word: Bytes)
    requires Keyword(word) && (value != [] ==> value[0] !in " \t")
    ensures Found(ReadOptions(true, [], value), word) <==> Visible(value, word)
    ensures Visible(value, word) ==> Listed(value, word)
  {
    hide Found, ReadOptions, Seen, Spells, Lead, Element, Pieces, Places, LowerBytes;
    var pieces := Pieces(value);
    SeenStart(true, value, word);
    SeenAt(Start, true, pieces, word);
    FirstPiece(value);
    forall i | 0 <= i < |pieces|
      ensures Spells(Lead(true && i == 0, pieces[i]), word) <==>
              '\t' !in pieces[i] && LowerBytes(Element(pieces[i])) == word {
      PieceExact(true && i == 0, pieces[i], word);
    }
  }

  lemma FirstPiece(value: Bytes)
    requires value != [] ==> value[0] !in " \t"
    ensures Pieces(value)[0] != [] ==> Pieces(value)[0][0] !in " \t"
  {
  }

  /** The flags noted are those of the list if and only if every keyword of the list whose flag was not set
      before is an element at which an option begins, with no tab around it: no tab in front of a later
      element, none behind a keyword, and the comma in front was neither swallowed by a first element that
      is empty or by the mere beginning of a keyword, nor passed over with an element that is empty, led by
      a tab or by another byte that begins no token. */
  lemma ListExact(f: Flags, value: Bytes)
    requires value != [] ==> value[0] !in " \t"
    ensures Noted(f, ReadOptions(true, [], value)) == ListFlags(f, value) <==> NoneMissed(f, value)
  {
    hide Found, ReadOptions, Listed, Visible;
    VisibleExact(value, KEEP_ALIVE);
    VisibleExact(value, CLOSE);
    VisibleExact(value, UPGRADE);
  }
}
