/** The structure of the authority of a URL: user information, host or bracketed address with zone, and port
    (section 3.2 of RFC 3986, RFC 6874), by a walk over the bytes and by a grammar, proved equal. */
module UrlHost {
  import opened HttpTypes

  datatype HostState = Refused | UserStart | User | HostStart | AddressStart | Name | Address | AddressEnd
                     | ZoneStart | Zone | PortStart | Port

  predicate AddressChar(c: Byte) { IsHex(c) || c == ':' || c == '.' }

  predicate ZoneChar(c: Byte) { IsAlphaNum(c) || c == '%' || c == '.' || c == '-' || c == '_' || c == '~' }

  /** http_parse_host_char. */
  function ParseHostChar(s: HostState, ch: Byte): HostState {
    match s
    case UserStart => if ch == '@' then HostStart else if IsUserinfoChar(ch) then User else Refused
    case User => if ch == '@' then HostStart else if IsUserinfoChar(ch) then User else Refused
    case HostStart => if ch == '[' then AddressStart else if IsHostChar(ch) then Name else Refused
    case Name => if IsHostChar(ch) then Name else if ch == ':' then PortStart else Refused
    case AddressEnd => if ch == ':' then PortStart else Refused
    case Address =>
      if ch == ']' then AddressEnd else if AddressChar(ch) then Address else if ch == '%' then ZoneStart else Refused
    case AddressStart => if AddressChar(ch) then Address else Refused
    case Zone => if ch == ']' then AddressEnd else if ZoneChar(ch) then Zone else Refused
    case ZoneStart => if ZoneChar(ch) then Zone else Refused
    case Port => if IsNum(ch) then Port else Refused
    case PortStart => if IsNum(ch) then Port else Refused
    case Refused => Refused
  }

  /** The parts of an authority; a zone begins with its %. */
  datatype Host = Host(user: Bytes, at: bool, open: bool, name: Bytes, zone: Bytes, close: bool, colon: bool,
                       port: Bytes)

  const NO_HOST := Host([], false, false, [], [], false, false, [])

  function Text(h: Host): Bytes {
    h.user + (if h.at then "@" else []) + (if h.open then "[" else []) + h.name + h.zone +
    (if h.close then "]" else []) + (if h.colon then ":" else []) + h.port
  }

  /** One byte more, which has led to state t. */
  function Grow(h: Host, t: HostState, ch: Byte): Host {
    match t
    case User => h.(user := h.user + [ch])
    case HostStart => h.(at := true)
    case AddressStart => h.(open := true)
    case Name => h.(name := h.name + [ch])
    case Address => h.(name := h.name + [ch])
    case ZoneStart => h.(zone := h.zone + [ch])
    case Zone => h.(zone := h.zone + [ch])
    case AddressEnd => h.(close := true)
    case PortStart => h.(colon := true)
    case Port => h.(port := h.port + [ch])
    case _ => h
  }

  function Start(at: bool): HostState { if at then UserStart else HostStart }

  function Walk(at: bool, buf: Bytes): (HostState, Host) {
    if buf == [] then (Start(at), NO_HOST)
    else
      var (s, h) := Walk(at, buf[..|buf| - 1]);
      var t := ParseHostChar(s, buf[|buf| - 1]);
      if t.Refused? then (Refused, h) else (t, Grow(h, t, buf[|buf| - 1]))
  }

  // The grammar

  predicate UserBytes(b: Bytes) { forall i :: 0 <= i < |b| ==> IsUserinfoChar(b[i]) }

  predicate NameBytes(b: Bytes, address: bool) {
    forall i :: 0 <= i < |b| ==> if address then AddressChar(b[i]) else IsHostChar(b[i])
  }

  predicate ZoneBytes(b: Bytes) { b != [] ==> b[0] == '%' && forall i :: 1 <= i < |b| ==> ZoneChar(b[i]) }

  predicate PortBytes(b: Bytes) { forall i :: 0 <= i < |b| ==> IsNum(b[i]) }

  predicate Classes(h: Host) {
    UserBytes(h.user) && NameBytes(h.name, h.open) && ZoneBytes(h.zone) && PortBytes(h.port)
  }

  /** User information is followed by @, and there is an @ exactly when the caller has seen one. */
  predicate Front(h: Host, at: bool) { h.at == at && (!at ==> h.user == []) }

  /** A whole host: a name, or an address in brackets, perhaps with a zone of at least one byte. */
  predicate Whole(h: Host) {
    h.name != [] && h.close == h.open && |h.zone| != 1 && (h.zone != [] ==> h.open)
  }

  predicate NoPort(h: Host) { !h.colon && h.port == [] }

  predicate Shape(s: HostState, h: Host, at: bool) {
    && Classes(h)
    && match s
       case UserStart => at && h == NO_HOST
       case User => at && h.user != [] && h == NO_HOST.(user := h.user)
       case HostStart => Front(h, at) && h == NO_HOST.(user := h.user, at := h.at)
       case AddressStart => Front(h, at) && h == NO_HOST.(user := h.user, at := h.at, open := true)
       case Name => Front(h, at) && NoPort(h) && Whole(h) && !h.open
       case Address => Front(h, at) && NoPort(h) && h.open && h.name != [] && h.zone == [] && !h.close
       case ZoneStart => Front(h, at) && NoPort(h) && h.open && h.name != [] && |h.zone| == 1 && !h.close
       case Zone => Front(h, at) && NoPort(h) && h.open && h.name != [] && |h.zone| > 1 && !h.close
       case AddressEnd => Front(h, at) && NoPort(h) && Whole(h) && h.open
       case PortStart => Front(h, at) && Whole(h) && h.colon && h.port == []
       case Port => Front(h, at) && Whole(h) && h.colon && h.port != []
       case Refused => false
  }

  /** The states in which an authority may end. */
  predicate Ends(s: HostState) { s.Name? || s.AddressEnd? || s.Port? }

  /** An authority: perhaps user information, a whole host, and perhaps a port with at least one digit. */
  predicate Authority(h: Host, at: bool) {
    Classes(h) && Front(h, at) && Whole(h) && (h.colon <==> h.port != [])
  }

  lemma EndsAuthority(s: HostState, h: Host, at: bool)
    requires Shape(s, h, at)
    ensures Ends(s) <==> Authority(h, at)
  {
    hide Classes;
  }

  function EndState(h: Host): HostState { if h.colon then Port else if h.open then AddressEnd else Name }

  lemma AuthorityShape(h: Host, at: bool)
    requires Authority(h, at)
    ensures Shape(EndState(h), h, at) && Ends(EndState(h))
  {
    hide Classes;
  }

  // One byte more of each part

  lemma UserSnoc(b: Bytes, c: Byte)
    ensures UserBytes(b + [c]) <==> UserBytes(b) && IsUserinfoChar(c)
  {
    hide IsUserinfoChar;
    assert (b + [c])[|b|] == c && forall i :: 0 <= i < |b| ==> (b + [c])[i] == b[i];
  }

  lemma NameSnoc(b: Bytes, c: Byte, address: bool)
    ensures NameBytes(b + [c], address) <==>
            NameBytes(b, address) && if address then AddressChar(c) else IsHostChar(c)
  {
    hide AddressChar, IsHostChar;
    assert (b + [c])[|b|] == c && forall i :: 0 <= i < |b| ==> (b + [c])[i] == b[i];
  }

  lemma ZoneSnoc(b: Bytes, c: Byte)
    ensures ZoneBytes(b + [c]) <==> ZoneBytes(b) && if b == [] then c == '%' else ZoneChar(c)
  {
    hide ZoneChar;
    assert (b + [c])[|b|] == c && forall i :: 0 <= i < |b| ==> (b + [c])[i] == b[i];
  }

  lemma PortSnoc(b: Bytes, c: Byte)
    ensures PortBytes(b + [c]) <==> PortBytes(b) && IsNum(c)
  {
    hide IsNum;
    assert (b + [c])[|b|] == c && forall i :: 0 <= i < |b| ==> (b + [c])[i] == b[i];
  }

  lemma NoneClasses()
    ensures UserBytes([]) && NameBytes([], true) && NameBytes([], false) && ZoneBytes([]) && PortBytes([])
  {
  }

  lemma StepShape(s: HostState, h: Host, at: bool, ch: Byte)
    requires Shape(s, h, at)
    ensures var t := ParseHostChar(s, ch); !t.Refused? ==> Shape(t, Grow(h, t, ch), at)
  {
    hide IsUserinfoChar, IsHostChar, AddressChar, ZoneChar, IsNum, UserBytes, NameBytes, ZoneBytes, PortBytes;
    UserSnoc(h.user, ch);
    NameSnoc(h.name, ch, h.open);
    ZoneSnoc(h.zone, ch);
    PortSnoc(h.port, ch);
    NoneClasses();
  }

  /** The parts behind the one that state t writes are empty, and the byte is that of the delimiter. */
  predicate Behind(t: HostState, h: Host, ch: Byte) {
    && (!t.Port? ==> h.port == [] && !h.colon)
    && (t.Port? || !h.close || t.PortStart?)
    && (t.User? || t.HostStart? || t.AddressStart? ==> h.zone == [] && h.name == [] && !h.open)
    && (t.User? || t.HostStart? ==> !h.at)
    && (t.Name? || t.Address? ==> h.zone == [])
    && (t.HostStart? ==> ch == '@') && (t.AddressStart? ==> ch == '[') && (t.AddressEnd? ==> ch == ']')
    && (t.PortStart? ==> ch == ':')
  }

  lemma StepBehind(s: HostState, h: Host, at: bool, ch: Byte)
    requires Shape(s, h, at)
    ensures var t := ParseHostChar(s, ch); !t.Refused? ==> Behind(t, h, ch) && !t.UserStart?
  {
    hide IsUserinfoChar, IsHostChar, AddressChar, ZoneChar, IsNum, Classes;
  }

  lemma TextGrows(t: HostState, h: Host, ch: Byte)
    requires !t.Refused? && !t.UserStart? && Behind(t, h, ch)
    ensures Text(Grow(h, t, ch)) == Text(h) + [ch]
  {
  }

  lemma {:induction false} WalkShape(at: bool, buf: Bytes)
    ensures var (s, h) := Walk(at, buf); !s.Refused? ==> Shape(s, h, at) && Text(h) == buf
  {
    hide ParseHostChar, Grow, Shape, Text, Behind;
    if buf == [] {
      EmptyShape(at);
    } else {
      var n := |buf| - 1;
      WalkShape(at, buf[..n]);
      var (s, h) := Walk(at, buf[..n]);
      assert buf == buf[..n] + [buf[n]];
      RefusedStays(s, buf[n]);
      var t := ParseHostChar(s, buf[n]);
      if !t.Refused? {
        StepShape(s, h, at, buf[n]);
        StepBehind(s, h, at, buf[n]);
        TextGrows(t, h, buf[n]);
      }
    }
  }

  lemma RefusedStays(s: HostState, ch: Byte)
    ensures s.Refused? ==> ParseHostChar(s, ch).Refused?
  {
  }

  lemma EmptyShape(at: bool)
    ensures Shape(Start(at), NO_HOST, at) && Text(NO_HOST) == []
  {
  }

  /** The state in front of the last byte that led to a state with some parts, and the parts without it. */
  function Back(s: HostState, h: Host, at: bool): (HostState, Host, Byte)
    requires Shape(s, h, at) && h != NO_HOST
  {
    if s.User? then
      var n := |h.user| - 1;
      (if n == 0 then UserStart else User, h.(user := h.user[..n]), h.user[n])
    else if s.HostStart? then (if h.user == [] then UserStart else User, h.(at := false), '@')
    else if s.AddressStart? then (HostStart, h.(open := false), '[')
    else if s.Name? || s.Address? then
      var n := |h.name| - 1;
      (if n > 0 then s else if s.Name? then HostStart else AddressStart, h.(name := h.name[..n]), h.name[n])
    else if s.ZoneStart? then (Address, h.(zone := []), h.zone[0])
    else if s.Zone? then
      var n := |h.zone| - 1;
      (if n == 1 then ZoneStart else Zone, h.(zone := h.zone[..n]), h.zone[n])
    else if s.AddressEnd? then (if h.zone == [] then Address else Zone, h.(close := false), ']')
    else if s.PortStart? then (if h.open then AddressEnd else Name, h.(colon := false), ':')
    else
      var n := |h.port| - 1;
      (if n == 0 then PortStart else Port, h.(port := h.port[..n]), h.port[n])
  }

  /** A byte of a part is none of those that end it. */
  lemma PartBytes(c: Byte)
    ensures IsUserinfoChar(c) ==> c != '@'
    ensures IsHostChar(c) ==> c != '[' && c != ':'
    ensures AddressChar(c) ==> c != ']' && c != '%'
    ensures ZoneChar(c) ==> c != ']'
  {
  }

  predicate Backs(s: HostState, h: Host, at: bool, r: HostState, p: Host, ch: Byte) {
    Shape(r, p, at) && ParseHostChar(r, ch) == s && Grow(p, s, ch) == h
  }

  lemma BackUser(s: HostState, h: Host, at: bool)
    requires Shape(s, h, at) && h != NO_HOST && (s.User? || s.HostStart? || s.AddressStart?)
    ensures var (r, p, ch) := Back(s, h, at); Backs(s, h, at, r, p, ch)
  {
    hide IsUserinfoChar, IsHostChar, UserBytes, NameBytes, ZoneBytes, PortBytes;
    NoneClasses();
    if s.User? {
      var n := |h.user| - 1;
      assert h.user == h.user[..n] + [h.user[n]];
      UserSnoc(h.user[..n], h.user[n]);
      PartBytes(h.user[n]);
    }
  }

  lemma BackName(s: HostState, h: Host, at: bool)
    requires Shape(s, h, at) && s.Name?
    ensures var n := |h.name| - 1;
            Backs(s, h, at, if n > 0 then Name else HostStart, h.(name := h.name[..n]), h.name[n])
  {
    hide IsHostChar, AddressChar, UserBytes, NameBytes, ZoneBytes, PortBytes;
    var n := |h.name| - 1;
    NoneClasses();
    NameSnoc(h.name[..n], h.name[n], false);
    PartBytes(h.name[n]);
    LastByte(h);
  }

  lemma BackAddress(s: HostState, h: Host, at: bool)
    requires Shape(s, h, at) && s.Address?
    ensures var n := |h.name| - 1;
            Backs(s, h, at, if n > 0 then Address else AddressStart, h.(name := h.name[..n]), h.name[n])
  {
    hide IsHostChar, AddressChar, UserBytes, NameBytes, ZoneBytes, PortBytes;
    var n := |h.name| - 1;
    NoneClasses();
    NameSnoc(h.name[..n], h.name[n], true);
    PartBytes(h.name[n]);
    LastByte(h);
  }

  /** A name with its last byte taken off and put back. */
  lemma LastByte(h: Host)
    requires h.name != []
    ensures var n := |h.name| - 1;
            && h.name[..n] + [h.name[n]] == h.name
            && h.(name := h.name[..n]).(name := h.name[..n] + [h.name[n]]) == h
            && (n == 0 ==> h.name[..n] == [])
  {
  }

  lemma BackZoneStart(s: HostState, h: Host, at: bool)
    requires Shape(s, h, at) && s.ZoneStart?
    ensures Backs(s, h, at, Address, h.(zone := []), h.zone[0])
  {
    hide IsHostChar, AddressChar, ZoneChar, UserBytes, NameBytes, PortBytes;
    NoneClasses();
    assert h.(zone := []).(zone := [] + [h.zone[0]]) == h;
    PartBytes(h.zone[0]);
  }

  lemma BackZone(s: HostState, h: Host, at: bool)
    requires Shape(s, h, at) && s.Zone?
    ensures var n := |h.zone| - 1;
            Backs(s, h, at, if n == 1 then ZoneStart else Zone, h.(zone := h.zone[..n]), h.zone[n])
  {
    hide IsHostChar, AddressChar, ZoneChar, UserBytes, NameBytes, ZoneBytes, PortBytes;
    var n := |h.zone| - 1;
    NoneClasses();
    ZoneSnoc(h.zone[..n], h.zone[n]);
    PartBytes(h.zone[n]);
    assert h.zone[..n] + [h.zone[n]] == h.zone;
    assert h.(zone := h.zone[..n]).(zone := h.zone[..n] + [h.zone[n]]) == h;
  }

  lemma BackPort(s: HostState, h: Host, at: bool)
    requires Shape(s, h, at) && s.Port?
    ensures var (r, p, ch) := Back(s, h, at); Backs(s, h, at, r, p, ch)
  {
    hide IsHostChar, AddressChar, ZoneChar, IsNum, UserBytes, NameBytes, ZoneBytes, PortBytes;
    NoneClasses();
    var n := |h.port| - 1;
    assert h.port == h.port[..n] + [h.port[n]];
    PortSnoc(h.port[..n], h.port[n]);
  }

  lemma BackMark(s: HostState, h: Host, at: bool)
    requires Shape(s, h, at) && (s.AddressEnd? || s.PortStart?)
    ensures var (r, p, ch) := Back(s, h, at); Backs(s, h, at, r, p, ch)
  {
    hide IsUserinfoChar, IsHostChar, AddressChar, ZoneChar, IsNum, UserBytes, NameBytes, ZoneBytes, PortBytes;
    PartBytes(':');
  }

  lemma BackStep(s: HostState, h: Host, at: bool)
    requires Shape(s, h, at) && h != NO_HOST
    ensures var (r, p, ch) := Back(s, h, at); Backs(s, h, at, r, p, ch)
  {
    hide Backs, Classes;
    if s.User? || s.HostStart? || s.AddressStart? {
      BackUser(s, h, at);
    } else if s.Name? {
      BackName(s, h, at);
    } else if s.Address? {
      BackAddress(s, h, at);
    } else if s.ZoneStart? {
      BackZoneStart(s, h, at);
    } else if s.Zone? {
      BackZone(s, h, at);
    } else if s.Port? {
      BackPort(s, h, at);
    } else {
      BackMark(s, h, at);
    }
  }

  lemma ShapeStates(s: HostState, h: Host, at: bool)
    requires Shape(s, h, at)
    ensures !s.Refused? && (h == NO_HOST ==> s == Start(at)) && (h != NO_HOST ==> !s.UserStart?)
  {
    hide Classes;
  }

  /** All parts of the grammar are what the walk over their bytes finds. */
  lemma {:induction false} ShapeWalks(s: HostState, h: Host, at: bool)
    requires Shape(s, h, at)
    ensures Walk(at, Text(h)) == (s, h)
    decreases |Text(h)|
  {
    hide ParseHostChar, Grow, Back, Text, Shape, Behind;
    ShapeStates(s, h, at);
    EmptyShape(at);
    if h != NO_HOST {
      var (r, p, ch) := Back(s, h, at);
      BackStep(s, h, at);
      StepBehind(r, p, at, ch);
      TextGrows(s, p, ch);
      ShapeWalks(r, p, at);
      assert Text(h)[..|Text(h)| - 1] == Text(p);
      ShapeStates(r, p, at);
    }
  }

  /** The walk over some bytes ends where an authority may end exactly when the bytes are those of an
      authority of the grammar, and then it finds its parts; so the parts are unique. */
  lemma WalkExact(at: bool, buf: Bytes, h: Host)
    ensures (exists s :: Ends(s) && Walk(at, buf) == (s, h)) <==> Authority(h, at) && Text(h) == buf
  {
    hide Authority, Text, Walk, Shape;
    WalkShape(at, buf);
    var (s, g) := Walk(at, buf);
    if Ends(s) && g == h {
      EndsAuthority(s, h, at);
    }
    if Authority(h, at) && Text(h) == buf {
      AuthorityShape(h, at);
      ShapeWalks(EndState(h), h, at);
    }
  }
}
