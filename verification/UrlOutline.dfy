/** The coarse structure of a URL, as the states of the request target parser see it (section 3 of RFC 3986):
    the bytes that are accepted, and how they divide into components, said twice, by a walk over the bytes
    and by a grammar, and proved equal. */
module UrlOutline {
  import opened HttpTypes
  import opened HttpMachine

  /** The components met so far; the authority is not divided yet.  Delimiters are counted. */
  datatype Outline = Outline(schema: Bytes, slashes: nat, authority: Bytes, path: Bytes, question: bool,
                             query: Bytes, hashes: nat, fragment: Bytes)

  const EMPTY := Outline([], 0, [], [], false, [], 0, [])

  const SLASHES: Bytes := "://"

  function Repeat(c: Byte, n: nat): (r: Bytes)
    ensures |r| == n
  {
    seq(n, _ => c)
  }

  /** The bytes of an outline. */
  function Text(o: Outline): Bytes
    requires o.slashes <= 3
  {
    o.schema + SLASHES[..o.slashes] + o.authority + o.path + (if o.question then "?" else []) + o.query +
    Repeat('#', o.hashes) + o.fragment
  }

  /** One byte more, which has led to state s. */
  function Grow(o: Outline, s: State, ch: Byte): Outline {
    match s
    case ReqSchema => o.(schema := o.schema + [ch])
    case ReqSchemaSlash => o.(slashes := o.slashes + 1)
    case ReqSchemaSlashSlash => o.(slashes := o.slashes + 1)
    case ReqServerStart => o.(slashes := o.slashes + 1)
    case ReqServer => o.(authority := o.authority + [ch])
    case ReqServerWithAt => o.(authority := o.authority + [ch])
    case ReqPath => o.(path := o.path + [ch])
    case ReqQueryStringStart => o.(question := true)
    case ReqQueryString => o.(query := o.query + [ch])
    case ReqFragmentStart => o.(hashes := o.hashes + 1)
    case ReqFragment => o.(fragment := o.fragment + [ch])
    case _ => o
  }

  function Start(connect: bool): State { if connect then ReqServerStart else ReqSpacesBeforeUrl }

  /** The state after the bytes, and their outline. */
  function Walk(connect: bool, buf: Bytes): (State, Outline) {
    if buf == [] then (Start(connect), EMPTY)
    else
      var (s, o) := Walk(connect, buf[..|buf| - 1]);
      var ch := buf[|buf| - 1];
      if s.Dead? then (Dead, o)
      else
        var t := ParseUrlChar(s, ch);
        if t.Dead? then (Dead, o) else (t, Grow(o, t, ch))
  }

  // The grammar

  predicate AuthorityChar(c: Byte) { IsUserinfoChar(c) || c == '[' || c == ']' || c == '@' }

  predicate QueryByte(c: Byte) { IsUrlChar(c) || c == '?' }

  predicate FragmentByte(c: Byte) { IsUrlChar(c) || c == '?' || c == '#' }

  /** Two @ never stand next to each other. */
  predicate Authority(bytes: Bytes) {
    && (forall i :: 0 <= i < |bytes| ==> AuthorityChar(bytes[i]))
    && forall i :: 1 <= i < |bytes| ==> !(bytes[i] == '@' && bytes[i - 1] == '@')
  }

  predicate Path(bytes: Bytes, star: bool) {
    bytes != [] ==>
      && (bytes[0] == '/' || (star && bytes[0] == '*'))
      && forall i :: 1 <= i < |bytes| ==> IsUrlChar(bytes[i])
  }

  predicate Query(bytes: Bytes) { forall i :: 0 <= i < |bytes| ==> QueryByte(bytes[i]) }

  predicate Fragment(bytes: Bytes) {
    bytes != [] ==> QueryByte(bytes[0]) && forall i :: 1 <= i < |bytes| ==> FragmentByte(bytes[i])
  }

  predicate Schema(bytes: Bytes) { forall i :: 0 <= i < |bytes| ==> IsAlpha(bytes[i]) }

  /** Component by component. */
  predicate Classes(o: Outline, connect: bool) {
    && Schema(o.schema) && Authority(o.authority) && Query(o.query) && Fragment(o.fragment)
    && Path(o.path, !connect && o.slashes == 0)
  }

  predicate NothingFrom(o: Outline, path: bool) {
    (path ==> o.path == []) && !o.question && o.query == [] && o.hashes == 0 && o.fragment == []
  }

  /** Where an authority may have been: behind a schema and its slashes, or at the start for CONNECT. */
  predicate Front(o: Outline, connect: bool) {
    if connect then o.schema == [] && o.slashes == 0
    else if o.schema == [] then o.slashes == 0 && o.authority == [] else o.slashes == 3
  }

  /** The components there are in each state: all of them, in order, with their delimiters. */
  predicate Shape(s: State, o: Outline, connect: bool) {
    && Classes(o, connect) && o.slashes <= 3
    && match s
       case ReqSpacesBeforeUrl => !connect && o == EMPTY
       case ReqSchema => !connect && o.schema != [] && o == EMPTY.(schema := o.schema)
       case ReqSchemaSlash => !connect && o.schema != [] && o == EMPTY.(schema := o.schema, slashes := 1)
       case ReqSchemaSlashSlash => !connect && o.schema != [] && o == EMPTY.(schema := o.schema, slashes := 2)
       case ReqServerStart =>
         if connect then o == EMPTY else o.schema != [] && o == EMPTY.(schema := o.schema, slashes := 3)
       case ReqServer =>
         Front(o, connect) && o.authority != [] && o.authority[|o.authority| - 1] != '@' && NothingFrom(o, true)
       case ReqServerWithAt =>
         Front(o, connect) && o.authority != [] && o.authority[|o.authority| - 1] == '@' && NothingFrom(o, true)
       case ReqPath => Front(o, connect) && o.path != [] && NothingFrom(o, false)
       case ReqQueryStringStart =>
         Front(o, connect) && HasPath(o, connect) && o.question && o.query == [] && o.hashes == 0 && o.fragment == []
       case ReqQueryString =>
         Front(o, connect) && HasPath(o, connect) && o.question && o.query != [] && o.hashes == 0 && o.fragment == []
       case ReqFragmentStart =>
         Front(o, connect) && HasTail(o, connect) && o.hashes > 0 && o.fragment == []
       case ReqFragment => Front(o, connect) && HasTail(o, connect) && o.hashes > 0 && o.fragment != []
       case _ => false
  }

  /** In front of a query there is a path or a place for an authority. */
  predicate HasPath(o: Outline, connect: bool) { o.path != [] || o.slashes == 3 || connect }

  /** In front of a fragment there is a path or a query. */
  predicate HasTail(o: Outline, connect: bool) {
    (if o.question then HasPath(o, connect) else o.path != []) && (o.query != [] ==> o.question)
  }

  // One byte more of each component

  lemma SchemaSnoc(b: Bytes, c: Byte)
    ensures Schema(b + [c]) <==> Schema(b) && IsAlpha(c)
  {
    var r := b + [c];
    assert r[|b|] == c && forall i :: 0 <= i < |b| ==> r[i] == b[i];
  }

  lemma AuthoritySnoc(b: Bytes, c: Byte)
    ensures Authority(b + [c]) <==>
            Authority(b) && AuthorityChar(c) && !(b != [] && b[|b| - 1] == '@' && c == '@')
  {
    hide AuthorityChar;
    var r := b + [c];
    assert r[|b|] == c && forall i :: 0 <= i < |b| ==> r[i] == b[i];
    if b != [] {
      assert r[|b| - 1] == b[|b| - 1];
    }
  }

  lemma PathSnoc(b: Bytes, c: Byte, star: bool)
    ensures Path(b + [c], star) <==>
            Path(b, star) && if b == [] then c == '/' || (star && c == '*') else IsUrlChar(c)
  {
    hide IsUrlChar;
    var r := b + [c];
    assert r[|b|] == c && forall i :: 0 <= i < |b| ==> r[i] == b[i];
  }

  lemma QuerySnoc(b: Bytes, c: Byte)
    ensures Query(b + [c]) <==> Query(b) && QueryByte(c)
  {
    hide QueryByte;
    var r := b + [c];
    assert r[|b|] == c && forall i :: 0 <= i < |b| ==> r[i] == b[i];
  }

  lemma FragmentSnoc(b: Bytes, c: Byte)
    ensures Fragment(b + [c]) <==> Fragment(b) && if b == [] then QueryByte(c) else FragmentByte(c)
  {
    hide QueryByte, FragmentByte;
    var r := b + [c];
    assert r[|b|] == c && forall i :: 0 <= i < |b| ==> r[i] == b[i];
  }

  predicate UpToServer(t: State) {
    t.ReqSchema? || t.ReqSchemaSlash? || t.ReqSchemaSlashSlash? || t.ReqServerStart? || t.ReqServer? ||
    t.ReqServerWithAt?
  }

  /** The components behind the one that state t writes are still empty. */
  predicate Behind(t: State, o: Outline) {
    && (UrlState(t) && !t.ReqFragment? && !t.ReqFragmentStart? ==> o.hashes == 0)
    && (UrlState(t) && !t.ReqFragment? ==> o.fragment == [])
    && (UrlState(t) && !t.ReqFragment? && !t.ReqFragmentStart? && !t.ReqQueryString? ==> o.query == [])
    && (UpToServer(t) || t.ReqPath? || t.ReqQueryStringStart? ==> !o.question)
    && (UpToServer(t) ==> o.path == [])
    && (UpToServer(t) && !t.ReqServer? && !t.ReqServerWithAt? ==> o.authority == [])
    && (t.ReqSchema? ==> o.slashes == 0)
  }

  /** The delimiter that leads to a state, where only one byte does. */
  predicate Delimits(t: State, o: Outline, ch: Byte) {
    && (t.ReqSchemaSlash? || t.ReqSchemaSlashSlash? || t.ReqServerStart? ==> o.slashes < 3 && ch == SLASHES[o.slashes])
    && (t.ReqQueryStringStart? ==> ch == '?')
    && (t.ReqFragmentStart? ==> ch == '#')
  }

  lemma TextGrowsFront(t: State, o: Outline, ch: Byte)
    requires UpToServer(t) && o.slashes <= 3 && Behind(t, o) && Delimits(t, o, ch)
    ensures Grow(o, t, ch).slashes <= 3 && Text(Grow(o, t, ch)) == Text(o) + [ch]
  {
    var r := Grow(o, t, ch);
    if r.slashes == o.slashes + 1 {
      assert SLASHES[..r.slashes] == SLASHES[..o.slashes] + [ch];
    }
    assert Repeat('#', 0) == [];
    var front := o.schema + SLASHES[..o.slashes] + o.authority;
    assert Text(o) == front;
    assert Text(r) == front + [ch];
  }

  lemma TextGrows(t: State, o: Outline, ch: Byte)
    requires UrlState(t) && o.slashes <= 3 && Behind(t, o) && Delimits(t, o, ch)
    ensures Grow(o, t, ch).slashes <= 3 && Text(Grow(o, t, ch)) == Text(o) + [ch]
  {
    if UpToServer(t) {
      TextGrowsFront(t, o, ch);
    } else {
      TextGrowsTail(t, o, ch);
    }
  }

  lemma TextGrowsTail(t: State, o: Outline, ch: Byte)
    requires UrlState(t) && !UpToServer(t) && o.slashes <= 3 && Behind(t, o) && Delimits(t, o, ch)
    ensures Grow(o, t, ch).slashes <= 3 && Text(Grow(o, t, ch)) == Text(o) + [ch]
  {
    var r := Grow(o, t, ch);
    var front := o.schema + SLASHES[..o.slashes] + o.authority;
    assert Repeat('#', 0) == [];
    if t.ReqPath? {
      assert Text(o) == front + o.path;
    } else if t.ReqFragmentStart? {
      assert Repeat('#', r.hashes) == Repeat('#', o.hashes) + ['#'];
    }
  }

  // The walk finds what the grammar says

  lemma FrontStep(s: State, o: Outline, connect: bool, ch: Byte)
    requires Shape(s, o, connect)
    requires s.ReqSpacesBeforeUrl? || s.ReqSchema? || s.ReqSchemaSlash? || s.ReqSchemaSlashSlash?
    ensures var t := ParseUrlChar(s, ch);
            !t.Dead? ==> Behind(t, o) && Delimits(t, o, ch) && Shape(t, Grow(o, t, ch), connect)
  {
    hide IsAlpha, IsUrlChar, Schema, Path;
    SchemaSnoc(o.schema, ch);
    PathSnoc(o.path, ch, !connect && o.slashes == 0);
    NoneClasses();
  }

  lemma NoneClasses()
    ensures Schema([]) && Authority([]) && Query([]) && Fragment([]) && Path([], true) && Path([], false)
  {
  }

  lemma ServerStep(s: State, o: Outline, connect: bool, ch: Byte)
    requires Shape(s, o, connect) && (s.ReqServerStart? || s.ReqServer? || s.ReqServerWithAt?)
    ensures var t := ParseUrlChar(s, ch);
            !t.Dead? ==> Behind(t, o) && Delimits(t, o, ch) && Shape(t, Grow(o, t, ch), connect)
  {
    hide IsUserinfoChar, IsUrlChar, Schema, Path, Authority, Query, Fragment;
    AuthoritySnoc(o.authority, ch);
    PathSnoc(o.path, ch, !connect && o.slashes == 0);
    NoneClasses();
  }

  lemma TailStep(s: State, o: Outline, connect: bool, ch: Byte)
    requires Shape(s, o, connect)
    requires s.ReqPath? || s.ReqQueryStringStart? || s.ReqQueryString? || s.ReqFragmentStart? || s.ReqFragment?
    ensures var t := ParseUrlChar(s, ch);
            !t.Dead? ==> Behind(t, o) && Delimits(t, o, ch) && Shape(t, Grow(o, t, ch), connect)
  {
    hide IsUrlChar, Schema, Path, Authority, Query, Fragment;
    PathSnoc(o.path, ch, !connect && o.slashes == 0);
    QuerySnoc(o.query, ch);
    FragmentSnoc(o.fragment, ch);
    NoneClasses();
  }

  lemma StepBehind(s: State, o: Outline, connect: bool, ch: Byte)
    requires Shape(s, o, connect)
    ensures var t := ParseUrlChar(s, ch); !t.Dead? ==> UrlState(t) && Behind(t, o) && Delimits(t, o, ch)
  {
    hide ParseUrlChar, Grow, Classes, Behind, Delimits, Text;
    ShapeStates(s, o, connect);
    UrlStates(s, ch);
    if s.ReqSpacesBeforeUrl? || s.ReqSchema? || s.ReqSchemaSlash? || s.ReqSchemaSlashSlash? {
      FrontStep(s, o, connect, ch);
    } else if s.ReqServerStart? || s.ReqServer? || s.ReqServerWithAt? {
      ServerStep(s, o, connect, ch);
    } else {
      TailStep(s, o, connect, ch);
    }
  }

  lemma StepShape(s: State, o: Outline, connect: bool, ch: Byte)
    requires Shape(s, o, connect)
    ensures var t := ParseUrlChar(s, ch);
            !t.Dead? ==> Shape(t, Grow(o, t, ch), connect) && Text(Grow(o, t, ch)) == Text(o) + [ch]
  {
    hide ParseUrlChar, Grow, Classes, Behind, Delimits, Text;
    var t := ParseUrlChar(s, ch);
    ShapeStates(s, o, connect);
    if s.ReqSpacesBeforeUrl? || s.ReqSchema? || s.ReqSchemaSlash? || s.ReqSchemaSlashSlash? {
      FrontStep(s, o, connect, ch);
    } else if s.ReqServerStart? || s.ReqServer? || s.ReqServerWithAt? {
      ServerStep(s, o, connect, ch);
    } else {
      TailStep(s, o, connect, ch);
    }
    UrlStates(s, ch);
    if !t.Dead? {
      TextGrows(t, o, ch);
    }
  }

  lemma ShapeStates(s: State, o: Outline, connect: bool)
    requires Shape(s, o, connect)
    ensures UrlState(s) || s.ReqSpacesBeforeUrl?
  {
  }

  lemma UrlStates(s: State, ch: Byte)
    ensures ParseUrlChar(s, ch).Dead? || UrlState(ParseUrlChar(s, ch))
  {
    hide IsUrlChar, IsUserinfoChar;
  }

  /** What the walk accepts has the shape of the grammar, and its outline spells it out. */
  lemma {:induction false} WalkShape(connect: bool, buf: Bytes)
    ensures var (s, o) := Walk(connect, buf); !s.Dead? ==> Shape(s, o, connect) && Text(o) == buf
  {
    hide ParseUrlChar, Grow, Shape, Text;
    if buf == [] {
      EmptyShape(connect);
    } else {
      var n := |buf| - 1;
      WalkShape(connect, buf[..n]);
      var (s, o) := Walk(connect, buf[..n]);
      if !s.Dead? {
        StepShape(s, o, connect, buf[n]);
        assert buf == buf[..n] + [buf[n]];
      }
    }
  }

  lemma EmptyShape(connect: bool)
    ensures Shape(Start(connect), EMPTY, connect) && Text(EMPTY) == []
  {
  }

  // And the grammar says no more than the walk accepts

  /** The state at the end of the authority. */
  function AtAuthority(o: Outline): State {
    if o.authority == [] then ReqServerStart
    else if o.authority[|o.authority| - 1] == '@' then ReqServerWithAt else ReqServer
  }

  /** The state in front of the last byte that led to a state with an outline, and the outline without it. */
  function Back(s: State, o: Outline, connect: bool): (State, Outline, Byte)
    requires Shape(s, o, connect) && o != EMPTY
  {
    if s.ReqSchema? then
      var n := |o.schema| - 1;
      (if n == 0 then ReqSpacesBeforeUrl else ReqSchema, o.(schema := o.schema[..n]), o.schema[n])
    else if s.ReqSchemaSlash? then (ReqSchema, o.(slashes := 0), ':')
    else if s.ReqSchemaSlashSlash? then (ReqSchemaSlash, o.(slashes := 1), '/')
    else if s.ReqServerStart? then (ReqSchemaSlashSlash, o.(slashes := 2), '/')
    else if s.ReqPath? then
      var n := |o.path| - 1;
      var p := o.(path := o.path[..n]);
      (if n > 0 then ReqPath
       else if connect || o.slashes == 3 then AtAuthority(o) else ReqSpacesBeforeUrl, p, o.path[n])
    else if s.ReqQueryStringStart? then
      (if o.path != [] then ReqPath else AtAuthority(o), o.(question := false), '?')
    else if s.ReqQueryString? then
      var n := |o.query| - 1;
      (if n == 0 then ReqQueryStringStart else ReqQueryString, o.(query := o.query[..n]), o.query[n])
    else if s.ReqFragmentStart? then
      (if o.hashes > 1 then ReqFragmentStart
       else if o.query != [] then ReqQueryString
       else if o.question then ReqQueryStringStart else ReqPath, o.(hashes := o.hashes - 1), '#')
    else if s.ReqFragment? then
      var n := |o.fragment| - 1;
      (if n == 0 then ReqFragmentStart else ReqFragment, o.(fragment := o.fragment[..n]), o.fragment[n])
    else
      var n := |o.authority| - 1;
      var p := o.(authority := o.authority[..n]);
      (AtAuthority(p), p, o.authority[n])
  }

  /** A byte of a component is none of those that end it. */
  lemma ComponentBytes(c: Byte)
    ensures AuthorityChar(c) ==> c !in " \r\n\t/?" && c as int != 12
    ensures IsUrlChar(c) ==> c !in " \r\n\t?#" && c as int != 12
    ensures IsAlpha(c) ==> c !in " \r\n\t:/*" && c as int != 12
  {
  }

  lemma BackSchema(s: State, o: Outline, connect: bool)
    requires Shape(s, o, connect) && s.ReqSchema?
    ensures var (r, p, ch) := Back(s, o, connect);
            Shape(r, p, connect) && ParseUrlChar(r, ch) == s && Grow(p, s, ch) == o
  {
    hide IsAlpha, IsUrlChar, IsUserinfoChar, Schema, Path, Authority, Query, Fragment, ServerChar, QueryChar;
    NoneClasses();
    var n := |o.schema| - 1;
    assert o.schema == o.schema[..n] + [o.schema[n]];
    SchemaSnoc(o.schema[..n], o.schema[n]);
    ComponentBytes(o.schema[n]);
  }

  lemma BackSlash(s: State, o: Outline, connect: bool)
    requires Shape(s, o, connect) && o != EMPTY
    requires s.ReqSchemaSlash? || s.ReqSchemaSlashSlash? || s.ReqServerStart?
    ensures var (r, p, ch) := Back(s, o, connect);
            Shape(r, p, connect) && ParseUrlChar(r, ch) == s && Grow(p, s, ch) == o
  {
    hide IsAlpha, IsUrlChar, IsUserinfoChar, Schema, Path, Authority, Query, Fragment, ServerChar, QueryChar;
    NoneClasses();
    ComponentBytes(':');
  }

  lemma BackServer(s: State, o: Outline, connect: bool)
    requires Shape(s, o, connect) && (s.ReqServer? || s.ReqServerWithAt?)
    ensures var (r, p, ch) := Back(s, o, connect);
            Shape(r, p, connect) && ParseUrlChar(r, ch) == s && Grow(p, s, ch) == o
  {
    hide IsUrlChar, IsUserinfoChar, Schema, Path, Authority, Query, Fragment;
    NoneClasses();
    var n := |o.authority| - 1;
    assert o.authority == o.authority[..n] + [o.authority[n]];
    AuthoritySnoc(o.authority[..n], o.authority[n]);
    ComponentBytes(o.authority[n]);
  }

  lemma BackPath(s: State, o: Outline, connect: bool)
    requires Shape(s, o, connect) && s.ReqPath?
    ensures var (r, p, ch) := Back(s, o, connect);
            Shape(r, p, connect) && ParseUrlChar(r, ch) == s && Grow(p, s, ch) == o
  {
    hide IsUrlChar, IsUserinfoChar, Schema, Path, Authority, Query, Fragment, QueryChar;
    var n := |o.path| - 1;
    assert o.path == o.path[..n] + [o.path[n]];
    PathSnoc(o.path[..n], o.path[n], !connect && o.slashes == 0);
    if n > 0 {
      ComponentBytes(o.path[n]);
    } else {
      NoneClasses();
      BackFirst(s, o, connect);
    }
  }

  lemma BackFirst(s: State, o: Outline, connect: bool)
    requires Shape(s, o, connect) && s.ReqPath? && |o.path| == 1
    requires Path([], !connect && o.slashes == 0)
    ensures var (r, p, ch) := Back(s, o, connect);
            Shape(r, p, connect) && ParseUrlChar(r, ch) == s && Grow(p, s, ch) == o
  {
    hide IsUrlChar, IsUserinfoChar, Schema, Authority, Query, Fragment, QueryChar;
    assert o.path[..0] == [] && o.path == [o.path[0]];
  }

  lemma BackQuestion(s: State, o: Outline, connect: bool)
    requires Shape(s, o, connect) && s.ReqQueryStringStart?
    ensures var (r, p, ch) := Back(s, o, connect);
            Shape(r, p, connect) && ParseUrlChar(r, ch) == s && Grow(p, s, ch) == o
  {
    hide IsUrlChar, IsUserinfoChar, Schema, Path, Authority, Query, Fragment, QueryChar;
    HashByte();
  }

  lemma BackQuery(s: State, o: Outline, connect: bool)
    requires Shape(s, o, connect) && s.ReqQueryString?
    ensures var (r, p, ch) := Back(s, o, connect);
            Shape(r, p, connect) && ParseUrlChar(r, ch) == s && Grow(p, s, ch) == o
  {
    hide IsUrlChar, Schema, Path, Authority, Query, Fragment, ServerChar;
    HashByte();
    var n := |o.query| - 1;
    assert o.query == o.query[..n] + [o.query[n]];
    QuerySnoc(o.query[..n], o.query[n]);
    ComponentBytes(o.query[n]);
  }

  lemma BackHash(s: State, o: Outline, connect: bool)
    requires Shape(s, o, connect) && s.ReqFragmentStart?
    ensures var (r, p, ch) := Back(s, o, connect);
            Shape(r, p, connect) && ParseUrlChar(r, ch) == s && Grow(p, s, ch) == o
  {
    hide IsUrlChar, Schema, Path, Authority, Query, Fragment, ServerChar;
    HashByte();
  }

  lemma BackFragment(s: State, o: Outline, connect: bool)
    requires Shape(s, o, connect) && s.ReqFragment?
    ensures var (r, p, ch) := Back(s, o, connect);
            Shape(r, p, connect) && ParseUrlChar(r, ch) == s && Grow(p, s, ch) == o
  {
    hide IsUrlChar, Schema, Path, Authority, Query, Fragment, ServerChar;
    HashByte();
    var n := |o.fragment| - 1;
    assert o.fragment == o.fragment[..n] + [o.fragment[n]];
    FragmentSnoc(o.fragment[..n], o.fragment[n]);
    ComponentBytes(o.fragment[n]);
  }

  lemma HashByte()
    ensures !IsUrlChar('#') && !IsUrlChar('?')
  {
  }

  lemma BackStep(s: State, o: Outline, connect: bool)
    requires Shape(s, o, connect) && o != EMPTY
    ensures var (r, p, ch) := Back(s, o, connect);
            Shape(r, p, connect) && ParseUrlChar(r, ch) == s && Grow(p, s, ch) == o
  {
    hide Back, ParseUrlChar, Grow, Classes;
    ShapeStates(s, o, connect);
    if s.ReqServer? || s.ReqServerWithAt? {
      BackServer(s, o, connect);
    } else if s.ReqPath? {
      BackPath(s, o, connect);
    } else if s.ReqQueryStringStart? {
      BackQuestion(s, o, connect);
    } else if s.ReqQueryString? {
      BackQuery(s, o, connect);
    } else if s.ReqFragmentStart? {
      BackHash(s, o, connect);
    } else if s.ReqFragment? {
      BackFragment(s, o, connect);
    } else if s.ReqSchema? {
      BackSchema(s, o, connect);
    } else {
      BackSlash(s, o, connect);
    }
  }

  lemma TextLength(o: Outline)
    requires o.slashes <= 3
    ensures Text(o) == [] ==> o == EMPTY
  {
  }

  /** Every outline of the grammar is what the walk over its bytes finds. */
  lemma {:induction false} ShapeWalks(s: State, o: Outline, connect: bool)
    requires Shape(s, o, connect)
    ensures Walk(connect, Text(o)) == (s, o)
    decreases |Text(o)|
  {
    hide ParseUrlChar, Grow, Back, Text, Classes;
    if o == EMPTY {
      EmptyShape(connect);
      EmptyState(s, connect);
    } else {
      var (r, p, ch) := Back(s, o, connect);
      BackStep(s, o, connect);
      StepShape(r, p, connect, ch);
      ShapeStates(s, o, connect);
      assert Text(o) == Text(p) + [ch];
      ShapeWalks(r, p, connect);
      assert Text(o)[..|Text(o)| - 1] == Text(p);
      ShapeStates(r, p, connect);
    }
  }

  lemma EmptyState(s: State, connect: bool)
    requires Shape(s, EMPTY, connect)
    ensures s == Start(connect)
  {
  }

  /** The walk over some bytes ends in a state with an outline exactly when these have the shape of the
      grammar and the bytes are the outline's; so an outline is unique. */
  lemma WalkExact(connect: bool, buf: Bytes, s: State, o: Outline)
    requires o.slashes <= 3
    ensures Walk(connect, buf) == (s, o) && !s.Dead? <==> Shape(s, o, connect) && Text(o) == buf
  {
    hide Shape, Text, Walk;
    WalkShape(connect, buf);
    if Shape(s, o, connect) && Text(o) == buf {
      ShapeWalks(s, o, connect);
      NotDead(s, o, connect);
    }
  }

  lemma NotDead(s: State, o: Outline, connect: bool)
    requires Shape(s, o, connect)
    ensures !s.Dead? && o.slashes <= 3
  {
  }
}
