/** URLs written out, part by part, and which of them are accepted: a statement on their bytes alone. */
module UrlBytes {
  import opened Options
  import opened HttpTypes
  import opened ByteClasses
  import HttpLengths
  import O = UrlOutline
  import H = UrlHost
  import R = HttpRequests
  import opened UrlSplit

  /** A host by name, or an address in brackets, perhaps with a zone. */
  datatype HostText = Named(name: Bytes) | Bracketed(address: Bytes, zone: Option<Bytes>)

  datatype Site = Site(user: Option<Bytes>, host: HostText, port: Option<Bytes>)

  /** A path, a query behind a question mark, and a fragment behind some hashes. */
  datatype Tail = Tail(path: Bytes, query: Option<Bytes>, hashes: nat, fragment: Bytes)

  /** The forms a request target has: a path, a whole URL, and, for CONNECT, a site. */
  datatype Target = Origin(tail: Tail) | Absolute(schema: Bytes, site: Site, tail: Tail) | Bare(site: Site)

  function Or(b: Option<Bytes>): Bytes { if b.Some? then b.value else [] }

  function Behind(mark: Bytes, b: Option<Bytes>): Bytes { if b.Some? then mark + b.value else [] }

  function HostBytes(h: HostText): Bytes {
    match h
    case Named(name) => name
    case Bracketed(address, zone) => "[" + (address + (Behind("%", zone) + "]"))
  }

  function SiteBytes(s: Site): Bytes {
    (if s.user.Some? then s.user.value + "@" else []) + (HostBytes(s.host) + Behind(":", s.port))
  }

  function TailBytes(t: Tail): Bytes { t.path + (Behind("?", t.query) + (O.Repeat('#', t.hashes) + t.fragment)) }

  /** The bytes of a URL. */
  function Written(u: Target): Bytes {
    match u
    case Origin(tail) => TailBytes(tail)
    case Absolute(schema, site, tail) => schema + ("://" + (SiteBytes(site) + TailBytes(tail)))
    case Bare(site) => SiteBytes(site)
  }

  // Where the parts end

  predicate Without(b: Bytes, marks: Bytes) { forall i :: 0 <= i < |b| ==> b[i] !in marks }

  predicate HostDivided(h: HostText) {
    match h
    case Named(name) => Without(name, ":") && (name != [] ==> name[0] != '[')
    case Bracketed(address, zone) => Without(address, "]%") && Without(Or(zone), "]")
  }

  predicate SiteDivided(s: Site) { Without(Or(s.user), "@") && HostDivided(s.host) }

  predicate TailDivided(t: Tail) {
    && Without(t.path, "?#") && Without(Or(t.query), "#")
    && (t.fragment != [] ==> t.hashes > 0 && t.fragment[0] != '#')
    && (t.hashes > 0 ==> t.path != [] || t.query.Some?)
  }

  /** Each part ends at the first of the marks that may follow it. */
  predicate Divided(u: Target) {
    match u
    case Origin(tail) => TailDivided(tail) && tail.path != [] && tail.path[0] in "/*"
    case Absolute(schema, site, tail) =>
      && Without(schema, ":") && (schema != [] ==> schema[0] !in "/*") && SiteDivided(site)
      && Without(SiteBytes(site), "/?") && (site.user.None? ==> Without(SiteBytes(site), "@"))
      && TailDivided(tail) && (tail.path != [] ==> tail.path[0] == '/')
    case Bare(site) =>
      && SiteDivided(site) && Without(SiteBytes(site), "/?")
      && (site.user.None? ==> Without(SiteBytes(site), "@"))
  }

  // Which bytes each part may have

  predicate UserOk(b: Bytes) { forall i :: 0 <= i < |b| ==> Unreserved(b[i]) || SubDelimiter(b[i]) || b[i] in "%:" }

  predicate NameOk(b: Bytes) { forall i :: 0 <= i < |b| ==> Letter(b[i]) || Figure(b[i]) || b[i] in ".-" }

  predicate AddressOk(b: Bytes) { forall i :: 0 <= i < |b| ==> Figure(b[i]) || b[i] in "abcdefABCDEF:." }

  predicate HostOk(h: HostText) {
    match h
    case Named(name) => name != [] && NameOk(name)
    case Bracketed(address, zone) =>
      address != [] && AddressOk(address) && (zone.Some? ==> zone.value != [] && ZoneOk(zone.value))
  }

  predicate ZoneOk(b: Bytes) { forall i :: 0 <= i < |b| ==> Unreserved(b[i]) || b[i] == '%' }

  predicate PortOk(b: Bytes) { b != [] && forall i :: 0 <= i < |b| ==> Figure(b[i]) }

  predicate SiteOk(s: Site) { UserOk(Or(s.user)) && HostOk(s.host) && (s.port.Some? ==> PortOk(s.port.value)) }

  predicate PathOk(b: Bytes) {
    forall i :: 1 <= i < |b| ==> PathChar(b[i]) || b[i] == '/' || Tolerated(b[i])
  }

  predicate QueryOk(b: Bytes) {
    forall i :: 0 <= i < |b| ==> PathChar(b[i]) || b[i] in "/?" || Tolerated(b[i])
  }

  predicate FragmentOk(b: Bytes) {
    forall i :: 0 <= i < |b| ==> PathChar(b[i]) || b[i] in "/?#" || Tolerated(b[i])
  }

  predicate TailOk(t: Tail) { PathOk(t.path) && QueryOk(Or(t.query)) && FragmentOk(t.fragment) }

  /** The port is a number of 16 bits. */
  predicate Fits(s: Site) {
    s.port.Some? && HttpLengths.Digits(s.port.value) ==> HttpLengths.Decimal(s.port.value) <= 65535
  }

  predicate Ok(u: Target) {
    match u
    case Origin(tail) => TailOk(tail)
    case Absolute(schema, site, tail) =>
      && schema != [] && (forall i :: 0 <= i < |schema| ==> Letter(schema[i]))
      && SiteOk(site) && Fits(site) && TailOk(tail)
    case Bare(site) => SiteOk(site) && Fits(site) && site.port.Some? && Or(site.user) == []
  }

  // Its division

  function TailOutline(schema: Bytes, slashes: nat, authority: Bytes, t: Tail): O.Outline {
    O.Outline(schema, slashes, authority, t.path, t.query.Some?, Or(t.query), t.hashes, t.fragment)
  }

  const NO_TAIL := Tail([], None, 0, [])

  function OutlineOf(u: Target): O.Outline {
    match u
    case Origin(tail) => TailOutline([], 0, [], tail)
    case Absolute(schema, site, tail) => TailOutline(schema, 3, SiteBytes(site), tail)
    case Bare(site) => TailOutline([], 0, SiteBytes(site), NO_TAIL)
  }

  function SiteHost(s: Site): H.Host {
    match s.host
    case Named(name) => H.Host(Or(s.user), s.user.Some?, false, name, [], false, s.port.Some?, Or(s.port))
    case Bracketed(address, zone) =>
      H.Host(Or(s.user), s.user.Some?, true, address, Behind("%", zone), true, s.port.Some?, Or(s.port))
  }

  function HostOf(u: Target): H.Host { if u.Origin? then H.NO_HOST else SiteHost(u.site) }

  // Parts are divided in one way

  lemma FirstMark(a: Bytes, x: Bytes, b: Bytes, y: Bytes, marks: Bytes)
    requires a + x == b + y && Without(a, marks) && Without(b, marks)
    requires (x != [] ==> x[0] in marks) && (y != [] ==> y[0] in marks)
    ensures a == b && x == y
  {
    var s := a + x;
    assert forall i :: 0 <= i < |a| ==> s[i] == a[i];
    assert forall i :: 0 <= i < |b| ==> s[i] == b[i];
    assert x != [] ==> s[|a|] == x[0];
    assert y != [] ==> s[|b|] == y[0];
    assert s[..|a|] == a && s[|a|..] == x && s[..|b|] == b && s[|b|..] == y;
  }

  lemma Regroup(a: Bytes, b: Bytes, c: Bytes)
    ensures (a + b) + c == a + (b + c)
  {
  }

  lemma SameFront(a: Bytes, x: Bytes, y: Bytes)
    requires a + x == a + y
    ensures x == y
  {
    assert (a + x)[|a|..] == x && (a + y)[|a|..] == y;
  }

  lemma HashesApart(n: nat, f: Bytes, m: nat, g: Bytes)
    requires O.Repeat('#', n) + f == O.Repeat('#', m) + g
    requires (f != [] ==> f[0] != '#') && (g != [] ==> g[0] != '#')
    ensures n == m && f == g
  {
    var s := O.Repeat('#', n) + f;
    assert forall i :: 0 <= i < n ==> s[i] == '#';
    assert forall i :: 0 <= i < m ==> s[i] == '#';
    assert f != [] ==> s[n] == f[0];
    assert g != [] ==> s[m] == g[0];
    assert s[..n] == O.Repeat('#', n) && s[n..] == f && s[n..] == g;
  }

  /** The parts of a tail, of which the outline o has the components. */
  lemma TailUnique(o: O.Outline, t: Tail)
    requires TailDivided(t) && O.Query(o.query) && O.Fragment(o.fragment) && O.Path(o.path, true)
    requires (o.query != [] ==> o.question) && (o.fragment != [] ==> o.hashes > 0)
    requires TailBytes(Tail(o.path, if o.question then Some(o.query) else None, o.hashes, o.fragment)) == TailBytes(t)
    ensures o.path == t.path && o.question == t.query.Some? && o.query == Or(t.query)
    ensures o.hashes == t.hashes && o.fragment == t.fragment
  {
    hide O.Path, O.Query, O.Fragment, O.Repeat, Without, Behind;
    PartMarks(o);
    var q: Option<Bytes> := if o.question then Some(o.query) else None;
    var end, last := O.Repeat('#', o.hashes) + o.fragment, O.Repeat('#', t.hashes) + t.fragment;
    EndMark(o.hashes, o.fragment);
    EndMark(t.hashes, t.fragment);
    QueryMark(q, end);
    QueryMark(t.query, last);
    FirstMark(o.path, Behind("?", q) + end, t.path, Behind("?", t.query) + last, "?#");
    QueryUnique(q, end, t.query, last);
    HashesApart(o.hashes, o.fragment, t.hashes, t.fragment);
  }

  lemma QueryMark(q: Option<Bytes>, end: Bytes)
    requires end != [] ==> end[0] == '#'
    ensures var r := Behind("?", q) + end; r != [] ==> r[0] in "?#"
  {
  }

  lemma QueryUnique(q: Option<Bytes>, end: Bytes, r: Option<Bytes>, last: Bytes)
    requires Behind("?", q) + end == Behind("?", r) + last && Without(Or(q), "#") && Without(Or(r), "#")
    requires (end != [] ==> end[0] == '#') && (last != [] ==> last[0] == '#')
    ensures q == r && end == last
  {
    assert q.Some? ==> (Behind("?", q) + end)[0] == '?';
    assert r.Some? ==> (Behind("?", r) + last)[0] == '?';
    assert q.None? ==> Behind("?", q) + end == end;
    assert r.None? ==> Behind("?", r) + last == last;
    if q.Some? && r.Some? {
      Regroup("?", q.value, end);
      Regroup("?", r.value, last);
      SameFront("?", q.value + end, r.value + last);
      FirstMark(q.value, end, r.value, last, "#");
    }
  }

  lemma EndMark(n: nat, f: Bytes)
    requires f != [] ==> n > 0
    ensures var end := O.Repeat('#', n) + f; end != [] ==> end[0] == '#'
  {
  }

  /** No part of a grammatical outline contains a mark that ends it. */
  lemma PartMarks(o: O.Outline)
    requires O.Query(o.query) && O.Fragment(o.fragment) && O.Path(o.path, true)
    ensures Without(o.path, "?#") && Without(o.query, "#") && (o.fragment != [] ==> o.fragment[0] != '#')
  {
    forall i | 0 <= i < |o.path| ensures o.path[i] !in "?#" {
      UrlCharExact(o.path[i]);
    }
    forall i | 0 <= i < |o.query| ensures o.query[i] !in "#" {
      UrlCharExact(o.query[i]);
    }
  }

  function HostPart(h: H.Host): HostText {
    if h.open then Bracketed(h.name, if h.zone == [] then None else Some(h.zone[1..])) else Named(h.name)
  }

  function PortPart(h: H.Host): Option<Bytes> { if h.colon then Some(h.port) else None }

  /** A host and a port behind it. */
  lemma HostUnique(h: H.Host, t: HostText, port: Option<Bytes>)
    requires HostDivided(t) && H.Classes(h) && H.Whole(h) && (h.colon <==> h.port != [])
    requires HostBytes(HostPart(h)) + Behind(":", PortPart(h)) == HostBytes(t) + Behind(":", port)
    ensures HostPart(h) == t && PortPart(h) == port
  {
    hide Behind, HostBytes, Without, H.Classes;
    HostMarks(h);
    var mine, other := Behind(":", PortPart(h)), Behind(":", port);
    PortMark(PortPart(h));
    PortMark(port);
    FirstByte(HostPart(h), mine);
    FirstByte(t, other);
    if !h.open {
      NamedUnique(HostPart(h), mine, t, other);
    } else {
      BracketedUnique(HostPart(h), mine, t, other);
    }
    PortUnique(PortPart(h), port);
  }

  lemma PortMark(port: Option<Bytes>)
    ensures Behind(":", port) != [] ==> Behind(":", port)[0] == ':'
  {
  }

  lemma PortUnique(p: Option<Bytes>, q: Option<Bytes>)
    requires Behind(":", p) == Behind(":", q)
    ensures p == q
  {
    if p.Some? && q.Some? {
      SameFront(":", p.value, q.value);
    }
  }

  /** Only a bracketed host begins with a bracket. */
  lemma FirstByte(t: HostText, rest: Bytes)
    requires HostDivided(t) && (rest != [] ==> rest[0] == ':')
    ensures var b := HostBytes(t) + rest; t.Bracketed? <==> b != [] && b[0] == '['
  {
  }

  lemma NamedUnique(s: HostText, mine: Bytes, t: HostText, other: Bytes)
    requires s.Named? && t.Named? && HostDivided(s) && HostDivided(t)
    requires HostBytes(s) + mine == HostBytes(t) + other
    requires (mine != [] ==> mine[0] == ':') && (other != [] ==> other[0] == ':')
    ensures s == t && mine == other
  {
    FirstMark(s.name, mine, t.name, other, ":");
  }

  lemma BracketedUnique(s: HostText, mine: Bytes, t: HostText, other: Bytes)
    requires s.Bracketed? && t.Bracketed? && HostDivided(s) && HostDivided(t)
    requires HostBytes(s) + mine == HostBytes(t) + other
    ensures s == t && mine == other
  {
    hide Without, Behind;
    var a, b := Behind("%", s.zone) + "]", Behind("%", t.zone) + "]";
    Regroup("[", s.address + a, mine);
    Regroup(s.address, a, mine);
    Regroup("[", t.address + b, other);
    Regroup(t.address, b, other);
    SameFront("[", s.address + (a + mine), t.address + (b + other));
    ZoneMark(s.zone, mine);
    ZoneMark(t.zone, other);
    FirstMark(s.address, a + mine, t.address, b + other, "]%");
    ZoneUnique(s.zone, mine, t.zone, other);
  }

  lemma ZoneMark(zone: Option<Bytes>, rest: Bytes)
    ensures var b := Behind("%", zone) + "]" + rest; b != [] && b[0] in "]%"
  {
  }

  lemma ZoneUnique(y: Option<Bytes>, mine: Bytes, z: Option<Bytes>, other: Bytes)
    requires Behind("%", y) + "]" + mine == Behind("%", z) + "]" + other && Without(Or(y), "]") && Without(Or(z), "]")
    ensures y == z && mine == other
  {
    Regroup(Behind("%", y), "]", mine);
    Regroup(Behind("%", z), "]", other);
    var u, v := "]" + mine, "]" + other;
    ZoneBegins(y, mine);
    ZoneBegins(z, other);
    if y.Some? {
      Regroup("%", y.value, u);
      Regroup("%", z.value, v);
      SameFront("%", y.value + u, z.value + v);
      FirstMark(y.value, u, z.value, v, "]");
    } else {
      assert [] + u == u && [] + v == v;
    }
    SameFront("]", mine, other);
  }

  lemma ZoneBegins(zone: Option<Bytes>, rest: Bytes)
    ensures (Behind("%", zone) + "]" + rest)[0] == if zone.Some? then '%' else ']'
  {
  }

  lemma HostMarks(h: H.Host)
    requires H.Classes(h) && H.Whole(h)
    ensures HostDivided(HostPart(h))
  {
    forall i | 0 <= i < |h.name| ensures h.name[i] !in (if h.open then "]%" else ":[") {
      H.PartBytes(h.name[i]);
    }
    forall i | 1 <= i < |h.zone| ensures h.zone[i] != ']' {
      H.PartBytes(h.zone[i]);
    }
  }

  // Sites and hosts

  function SitePart(h: H.Host): Site { Site(if h.at then Some(h.user) else None, HostPart(h), PortPart(h)) }

  function UserBytes(u: Option<Bytes>): Bytes { if u.Some? then u.value + "@" else [] }

  lemma SiteText(s: Site)
    ensures H.Text(SiteHost(s)) == SiteBytes(s)
  {
    hide Behind, UserBytes;
    var h := SiteHost(s);
    var front, b := UserBytes(s.user), Behind(":", s.port);
    var open, close: Bytes := if h.open then "[" else [], if h.close then "]" else [];
    PortText(h, s);
    Regroup(front + open + h.name, h.zone, close);
    Regroup(front + open, h.name, h.zone + close);
    Regroup(front, open, h.name + (h.zone + close));
    HostOpen(s, open, close);
    Regroup(front, HostBytes(s.host), b);
    SiteFront(s);
  }

  lemma HostOpen(s: Site, open: Bytes, close: Bytes)
    requires var h := SiteHost(s); open == (if h.open then "[" else []) && close == if h.close then "]" else []
    ensures var h := SiteHost(s); open + (h.name + (h.zone + close)) == HostBytes(s.host)
  {
    hide Behind;
  }

  lemma SiteFront(s: Site)
    ensures SiteBytes(s) == UserBytes(s.user) + (HostBytes(s.host) + Behind(":", s.port))
  {
  }

  lemma PortText(h: H.Host, s: Site)
    requires h == SiteHost(s)
    ensures H.Text(h) == UserBytes(s.user) + (if h.open then "[" else []) + h.name + h.zone +
                         (if h.close then "]" else []) + Behind(":", s.port)
  {
  }

  lemma SiteRound(h: H.Host, at: bool)
    requires H.Authority(h, at)
    ensures SiteHost(SitePart(h)) == h
  {
    hide UserBytes;
    if h.zone != [] {
      assert h.zone == "%" + h.zone[1..];
    }
  }

  lemma SiteUnique(h: H.Host, s: Site)
    requires H.Authority(h, s.user.Some?) && SiteDivided(s) && H.Text(h) == SiteBytes(s)
    ensures h == SiteHost(s)
  {
    hide H.Text, HostBytes, Behind, H.Classes, Without, SiteHost;
    var t := SitePart(h);
    SiteRound(h, s.user.Some?);
    SiteText(t);
    var mine, other := HostBytes(t.host) + Behind(":", t.port), HostBytes(s.host) + Behind(":", s.port);
    if s.user.Some? {
      UserMarks(h);
      Regroup(h.user, "@", mine);
      Regroup(s.user.value, "@", other);
      FirstMark(h.user, "@" + mine, s.user.value, "@" + other, "@");
      SameFront("@", mine, other);
    } else {
      assert [] + mine == mine && [] + other == other;
    }
    HostUnique(h, s.host, s.port);
  }

  lemma UserMarks(h: H.Host)
    requires H.Classes(h)
    ensures Without(h.user, "@")
  {
    forall i | 0 <= i < |h.user| ensures h.user[i] !in "@" {
      H.PartBytes(h.user[i]);
    }
  }

  lemma UserClass(b: Bytes)
    ensures UserOk(b) <==> H.UserBytes(b)
  {
    hide IsUserinfoChar, Unreserved, SubDelimiter;
    forall i | 0 <= i < |b|
      ensures (Unreserved(b[i]) || SubDelimiter(b[i]) || b[i] in "%:") <==> IsUserinfoChar(b[i]) {
      UserinfoExact(b[i]);
    }
  }

  lemma NameClass(b: Bytes)
    ensures NameOk(b) <==> H.NameBytes(b, false)
  {
    hide IsHostChar, Letter;
    forall i | 0 <= i < |b|
      ensures (Letter(b[i]) || Figure(b[i]) || b[i] in ".-") <==> IsHostChar(b[i]) {
      HostCharExact(b[i]);
    }
  }

  lemma AddressClass(b: Bytes)
    ensures AddressOk(b) <==> H.NameBytes(b, true)
  {
    hide H.AddressChar;
    forall i | 0 <= i < |b|
      ensures (Figure(b[i]) || b[i] in "abcdefABCDEF:.") <==> H.AddressChar(b[i]) {
      AddressCharExact(b[i]);
    }
  }

  lemma ZoneClass(zone: Option<Bytes>)
    ensures (zone.Some? ==> ZoneOk(zone.value)) <==> H.ZoneBytes(Behind("%", zone))
  {
    hide H.ZoneChar, Unreserved;
    var b := Behind("%", zone);
    if zone.Some? {
      assert forall i :: 0 <= i < |zone.value| ==> b[i + 1] == zone.value[i];
      forall i | 0 <= i < |zone.value|
        ensures (Unreserved(zone.value[i]) || zone.value[i] == '%') <==> H.ZoneChar(b[i + 1]) {
        ZoneCharExact(zone.value[i]);
      }
      ZoneShift(b, zone.value);
    }
  }

  lemma ZoneShift(b: Bytes, z: Bytes)
    requires b == "%" + z
    ensures H.ZoneBytes(b) <==> forall i :: 0 <= i < |z| ==> H.ZoneChar(z[i])
  {
    hide H.ZoneChar;
    assert forall i :: 1 <= i < |b| ==> b[i] == z[i - 1];
    assert forall i :: 0 <= i < |z| ==> z[i] == b[i + 1];
  }

  lemma PortClass(b: Bytes)
    ensures (forall i :: 0 <= i < |b| ==> Figure(b[i])) <==> H.PortBytes(b)
  {
  }

  /** The bytes a site may have are those of the grammar. */
  lemma SiteClasses(s: Site)
    ensures var h := SiteHost(s);
            SiteOk(s) <==> H.Classes(h) && H.Whole(h) && (h.colon <==> h.port != [])
  {
    hide UserOk, NameOk, AddressOk, ZoneOk, H.UserBytes, H.NameBytes, H.ZoneBytes, H.PortBytes;
    UserClass(Or(s.user));
    PortClass(Or(s.port));
    ZoneClass(None);
    match s.host
    case Named(name) => NameClass(name);
    case Bracketed(address, zone) =>
      AddressClass(address);
      ZoneClass(zone);
  }

  // Outlines

  function TailPart(o: O.Outline): Tail {
    Tail(o.path, if o.question then Some(o.query) else None, o.hashes, o.fragment)
  }

  lemma OutlineText(o: O.Outline)
    requires o.slashes <= 3 && (o.query != [] ==> o.question)
    ensures O.Text(o) == o.schema + (O.SLASHES[..o.slashes] + (o.authority + TailBytes(TailPart(o))))
  {
    var slashes := O.SLASHES[..o.slashes];
    var mark: Bytes := if o.question then "?" else [];
    var front := o.schema + slashes + o.authority;
    var hashes := O.Repeat('#', o.hashes);
    hide O.Repeat;
    assert mark + o.query == Behind("?", TailPart(o).query);
    Regroup(front + o.path, mark, o.query);
    Regroup(front + o.path + (mark + o.query), hashes, o.fragment);
    Regroup(front + o.path, mark + o.query, hashes + o.fragment);
    Regroup(front, o.path, mark + o.query + (hashes + o.fragment));
    Regroup(o.schema + slashes, o.authority, TailBytes(TailPart(o)));
    Regroup(o.schema, slashes, o.authority + TailBytes(TailPart(o)));
  }

  /** What stands behind an authority does not go on with it. */
  lemma TailMark(t: Tail)
    requires t.path != [] ==> t.path[0] == '/'
    requires (t.fragment != [] ==> t.hashes > 0) && (t.hashes > 0 ==> t.path != [] || t.query.Some?)
    ensures var b := TailBytes(t); (b != [] ==> b[0] in "/?") && (b == [] ==> t == NO_TAIL)
  {
  }

  /** The components of a complete outline, and the marks they do not contain. */
  lemma CompleteMarks(o: O.Outline, connect: bool)
    requires Complete(o, connect)
    ensures Without(o.schema, ":") && (o.schema != [] ==> o.schema[0] !in "/*") && Without(o.authority, "/?")
    ensures O.Path(o.path, true) && (o.path != [] ==> o.path[0] in "/*")
  {
    hide O.Schema, O.Authority, O.Query, O.Fragment, Without;
    SchemaMarks(o.schema);
    AuthorityMarks(o.authority);
  }

  lemma SchemaMarks(b: Bytes)
    requires O.Schema(b)
    ensures Without(b, ":") && (b != [] ==> b[0] !in "/*")
  {
    hide IsAlpha;
    forall i | 0 <= i < |b| ensures b[i] !in ":/*" {
      LetterExact(b[i]);
    }
  }

  lemma AuthorityMarks(b: Bytes)
    requires O.Authority(b)
    ensures Without(b, "/?")
  {
    hide IsUserinfoChar;
    forall i | 0 <= i < |b| ensures b[i] !in "/?" {
      UserinfoExact(b[i]);
    }
  }

  lemma OriginUnique(o: O.Outline, t: Tail)
    requires Divided(Origin(t)) && Complete(o, false) && o.slashes <= 3 && O.Text(o) == TailBytes(t)
    ensures o == OutlineOf(Origin(t))
  {
    hide O.Text, O.Schema, O.Authority, O.Path, O.Query, O.Fragment, TailDivided, TailBytes, Without;
    OutlineText(o);
    CompleteMarks(o, false);
    StartsPath(t);
    SchemaStarts(o.schema, O.SLASHES[..o.slashes] + (o.authority + TailBytes(TailPart(o))));
    if o.schema == [] {
      FrontNone(o.schema, O.SLASHES[..o.slashes], o.authority, TailBytes(TailPart(o)));
      TailUnique(o, t);
    } else {
      assert false;
    }
  }

  lemma StartsPath(t: Tail)
    ensures t.path != [] ==> TailBytes(t) != [] && TailBytes(t)[0] == t.path[0]
  {
  }

  lemma AbsoluteUnique(o: O.Outline, u: Target)
    requires u.Absolute? && Divided(u) && Complete(o, false) && o.slashes <= 3 && O.Text(o) == Written(u)
    ensures o == OutlineOf(u)
  {
    hide O.Text, O.Schema, O.Authority, O.Path, O.Query, O.Fragment, TailDivided, TailBytes, SiteBytes, Without,
      SiteDivided;
    OutlineText(o);
    CompleteMarks(o, false);
    StartsPath(TailPart(o));
    var a, b := o.authority + TailBytes(TailPart(o)), SiteBytes(u.site) + TailBytes(u.tail);
    SchemaStarts(u.schema, "://" + b);
    if o.schema == [] {
      FrontNone(o.schema, O.SLASHES[..o.slashes], o.authority, TailBytes(TailPart(o)));
      assert false;
    } else {
      assert O.SLASHES[..3] == "://";
      FirstMark(o.schema, "://" + a, u.schema, "://" + b, ":");
      SameFront("://", a, b);
      AuthorityUnique(o, u.site, u.tail);
    }
  }

  lemma FrontNone(a: Bytes, b: Bytes, c: Bytes, r: Bytes)
    requires a == [] && b == [] && c == []
    ensures a + (b + (c + r)) == r
  {
  }

  lemma SchemaStarts(schema: Bytes, rest: Bytes)
    ensures schema != [] ==> (schema + rest)[0] == schema[0]
    ensures schema == [] ==> schema + rest == rest
  {
  }

  /** An authority and what is behind it. */
  lemma AuthorityUnique(o: O.Outline, s: Site, t: Tail)
    requires O.Classes(o, false) && Without(o.authority, "/?") && Without(SiteBytes(s), "/?") && o.slashes == 3
    requires o.authority + TailBytes(TailPart(o)) == SiteBytes(s) + TailBytes(t)
    requires TailDivided(t) && (t.path != [] ==> t.path[0] == '/')
    requires (o.query != [] ==> o.question) && (o.fragment != [] ==> o.hashes > 0)
    requires o.hashes > 0 ==> o.path != [] || o.question
    ensures o.authority == SiteBytes(s) && TailPart(o) == t && o.query == Or(t.query)
  {
    hide TailBytes, SiteBytes, Without, O.Schema, O.Authority, O.Query, O.Fragment;
    TailMark(t);
    TailMark(TailPart(o));
    FirstMark(o.authority, TailBytes(TailPart(o)), SiteBytes(s), TailBytes(t), "/?");
    TailUnique(o, t);
  }

  lemma BareUnique(o: O.Outline, s: Site)
    requires Divided(Bare(s)) && Complete(o, true) && o.slashes <= 3 && O.Text(o) == SiteBytes(s)
    ensures o == OutlineOf(Bare(s))
  {
    hide O.Text, O.Schema, O.Authority, O.Path, O.Query, O.Fragment, TailBytes, SiteBytes, Without, SiteDivided;
    OutlineText(o);
    CompleteMarks(o, true);
    var r := TailBytes(TailPart(o));
    assert O.SLASHES[..0] == [];
    assert [] + ([] + (o.authority + r)) == o.authority + r;
    TailMark(TailPart(o));
    var all := SiteBytes(s);
    assert all + [] == all;
    FirstMark(o.authority, r, all, [], "/?");
  }

  /** An @ is in the bytes of a site exactly behind user information. */
  lemma SiteAt(s: Site)
    requires s.user.None? ==> Without(SiteBytes(s), "@")
    ensures '@' in SiteBytes(s) <==> s.user.Some?
  {
    if s.user.Some? {
      assert SiteBytes(s)[|s.user.value|] == '@';
    }
  }

  /** Bytes that are divided at their marks are divided by the grammar in the same way, if at all. */
  lemma TargetUnique(o: O.Outline, h: H.Host, u: Target)
    requires Divided(u) && Divides(o, h, u.Bare?, Written(u))
    ensures o == OutlineOf(u) && h == HostOf(u)
  {
    hide O.Text, H.Text, Complete, TailBytes, SiteBytes, TailDivided, SiteDivided, Without, H.Authority, PortFits,
      SiteHost;
    match u
    case Origin(tail) => OriginUnique(o, tail);
    case Absolute(_, site, _) =>
      AbsoluteUnique(o, u);
      SiteAt(site);
      HasAuthority(o, u.Bare?);
      SiteUnique(h, site);
    case Bare(site) =>
      BareUnique(o, site);
      SiteAt(site);
      HasAuthority(o, u.Bare?);
      SiteUnique(h, site);
  }

  lemma HasAuthority(o: O.Outline, connect: bool)
    requires Complete(o, connect)
    ensures connect || o.slashes == 3 ==> o.authority != []
  {
  }

  // Acceptance

  lemma PathClass(b: Bytes, star: bool)
    requires b != [] ==> b[0] == '/' || (star && b[0] == '*')
    ensures PathOk(b) <==> O.Path(b, star)
  {
    hide IsUrlChar, PathChar, Tolerated;
    forall i | 1 <= i < |b| ensures (PathChar(b[i]) || b[i] == '/' || Tolerated(b[i])) <==> IsUrlChar(b[i]) {
      UrlCharExact(b[i]);
    }
  }

  lemma QueryClass(b: Bytes)
    ensures QueryOk(b) <==> O.Query(b)
  {
    hide IsUrlChar, PathChar, Tolerated;
    forall i | 0 <= i < |b| ensures (PathChar(b[i]) || b[i] in "/?" || Tolerated(b[i])) <==> O.QueryByte(b[i]) {
      UrlCharExact(b[i]);
    }
  }

  lemma FragmentClass(b: Bytes)
    requires b != [] ==> b[0] != '#'
    ensures FragmentOk(b) <==> O.Fragment(b)
  {
    hide IsUrlChar, PathChar, Tolerated;
    forall i | 0 <= i < |b| ensures (PathChar(b[i]) || b[i] in "/?#" || Tolerated(b[i])) <==> O.FragmentByte(b[i]) {
      UrlCharExact(b[i]);
    }
  }

  lemma SchemaClass(b: Bytes)
    ensures (forall i :: 0 <= i < |b| ==> Letter(b[i])) <==> O.Schema(b)
  {
    hide IsAlpha, Letter;
    forall i | 0 <= i < |b| ensures Letter(b[i]) <==> IsAlpha(b[i]) {
      LetterExact(b[i]);
    }
  }

  lemma TailClasses(t: Tail, star: bool)
    requires TailDivided(t) && (t.path != [] ==> t.path[0] == '/' || (star && t.path[0] == '*'))
    ensures TailOk(t) <==> O.Path(t.path, star) && O.Query(Or(t.query)) && O.Fragment(t.fragment)
  {
    hide PathOk, QueryOk, FragmentOk, O.Path, O.Query, O.Fragment, Without;
    PathClass(t.path, star);
    QueryClass(Or(t.query));
    FragmentClass(t.fragment);
  }

  predicate AuthorityBytes(b: Bytes) { forall i :: 0 <= i < |b| ==> O.AuthorityChar(b[i]) && b[i] != '@' }

  lemma BytesJoin(a: Bytes, b: Bytes)
    requires AuthorityBytes(a) && AuthorityBytes(b)
    ensures AuthorityBytes(a + b)
  {
    hide O.AuthorityChar;
  }

  /** The bytes of a site are among those that the first loop takes for an authority. */
  lemma SiteAuthority(s: Site)
    requires SiteOk(s)
    ensures O.Authority(SiteBytes(s))
  {
    hide HostBytes, HostOk, Behind, O.AuthorityChar;
    HostAuthority(s.host);
    PortAuthority(s.port);
    var rest := HostBytes(s.host) + Behind(":", s.port);
    BytesJoin(HostBytes(s.host), Behind(":", s.port));
    if s.user.Some? {
      UserAuthority(s.user.value);
      OneAt(s.user.value, rest);
    } else {
      assert SiteBytes(s) == rest;
    }
  }

  lemma OneAt(user: Bytes, rest: Bytes)
    requires AuthorityBytes(user) && AuthorityBytes(rest)
    ensures O.Authority(user + "@" + rest)
  {
    assert O.AuthorityChar('@');
    hide O.AuthorityChar;
    var b := user + "@" + rest;
    assert forall i :: 0 <= i < |b| ==> b[i] == if i < |user| then user[i] else if i == |user| then '@'
                                                else rest[i - |user| - 1];
  }

  lemma UserAuthority(b: Bytes)
    requires UserOk(b)
    ensures AuthorityBytes(b)
  {
    forall i | 0 <= i < |b| ensures O.AuthorityChar(b[i]) && b[i] != '@' {
      UserinfoExact(b[i]);
    }
  }

  lemma NameAuthority(b: Bytes)
    requires NameOk(b)
    ensures AuthorityBytes(b)
  {
    forall i | 0 <= i < |b| ensures O.AuthorityChar(b[i]) && b[i] != '@' {
      UserinfoExact(b[i]);
    }
  }

  lemma AddressAuthority(b: Bytes)
    requires AddressOk(b)
    ensures AuthorityBytes(b)
  {
    forall i | 0 <= i < |b| ensures O.AuthorityChar(b[i]) && b[i] != '@' {
      UserinfoExact(b[i]);
    }
  }

  lemma ZoneAuthority(b: Bytes)
    requires ZoneOk(b)
    ensures AuthorityBytes(b)
  {
    forall i | 0 <= i < |b| ensures O.AuthorityChar(b[i]) && b[i] != '@' {
      UserinfoExact(b[i]);
    }
  }

  lemma PortAuthority(port: Option<Bytes>)
    requires port.Some? ==> PortOk(port.value)
    ensures AuthorityBytes(Behind(":", port))
  {
  }

  lemma HostAuthority(h: HostText)
    requires HostOk(h)
    ensures AuthorityBytes(HostBytes(h))
  {
    assert AuthorityBytes("[") && AuthorityBytes("]") && AuthorityBytes("%") && AuthorityBytes([]);
    hide AuthorityBytes, NameOk, AddressOk, ZoneOk;
    match h
    case Named(name) => NameAuthority(name);
    case Bracketed(address, zone) =>
      AddressAuthority(address);
      if zone.Some? {
        ZoneAuthority(zone.value);
        BytesJoin("%", zone.value);
      }
      BytesJoin(Behind("%", zone), "]");
      BytesJoin(address, Behind("%", zone) + "]");
      BytesJoin("[", address + (Behind("%", zone) + "]"));
  }

  /** The grammar has the bytes of a target exactly when they are among those of its parts. */
  lemma GrammarOk(u: Target)
    requires Divided(u)
    ensures Grammar(OutlineOf(u), HostOf(u), u.Bare?) <==> Ok(u)
  {
    hide O.Schema, O.Authority, O.Path, O.Query, O.Fragment, TailOk, SiteOk, H.Classes, H.Whole, H.Text, SiteHost,
      SiteBytes, Without;
    match u
    case Origin(tail) => OriginGrammar(tail);
    case Absolute(_, _, _) => AbsoluteGrammar(u);
    case Bare(site) => BareGrammar(site);
  }

  lemma NoParts()
    ensures O.Schema([]) && O.Authority([]) && O.Query([]) && O.Fragment([]) && O.Path([], false)
  {
  }

  lemma OriginGrammar(t: Tail)
    requires Divided(Origin(t))
    ensures Grammar(OutlineOf(Origin(t)), H.NO_HOST, false) <==> TailOk(t)
  {
    hide O.Schema, O.Authority, O.Path, O.Query, O.Fragment, TailOk, Without;
    NoParts();
    TailClasses(t, true);
    NoPort();
  }

  lemma NoPort()
    ensures PortFits(H.NO_HOST)
  {
    assert HttpLengths.Decimal([]) == 0;
  }

  lemma AbsoluteGrammar(u: Target)
    requires u.Absolute? && Divided(u)
    ensures Grammar(OutlineOf(u), HostOf(u), false) <==> Ok(u)
  {
    hide O.Schema, O.Authority, O.Path, O.Query, O.Fragment, TailOk, SiteOk, H.Classes, H.Whole, H.Text, SiteBytes,
      Without, SiteDivided;
    SchemaClass(u.schema);
    TailClasses(u.tail, false);
    SiteGrammar(u.site);
    FitsPort(u.site);
    hide SiteHost, PortFits, Fits;
  }

  /** A site of the grammar. */
  lemma SiteGrammar(s: Site)
    requires s.user.None? ==> Without(SiteBytes(s), "@")
    ensures var a := SiteBytes(s);
            SiteOk(s) <==> a != [] && O.Authority(a) && H.Authority(SiteHost(s), '@' in a) && H.Text(SiteHost(s)) == a
  {
    hide SiteBytes, SiteOk, O.Authority, H.Classes, H.Whole, H.Text, Without;
    SiteAt(s);
    SiteText(s);
    SiteClasses(s);
    if SiteOk(s) {
      SiteAuthority(s);
      SiteNonempty(s);
    }
  }

  lemma SiteNonempty(s: Site)
    requires SiteOk(s)
    ensures SiteBytes(s) != []
  {
  }

  lemma FitsPort(s: Site)
    ensures PortFits(SiteHost(s)) <==> Fits(s)
  {
    assert HttpLengths.Decimal([]) == 0;
  }

  lemma BareGrammar(s: Site)
    requires Divided(Bare(s))
    ensures Grammar(OutlineOf(Bare(s)), SiteHost(s), true) <==> Ok(Bare(s))
  {
    hide O.Schema, O.Authority, O.Path, O.Query, O.Fragment, SiteOk, H.Classes, H.Whole, H.Text, SiteBytes,
      Without, SiteDivided;
    NoParts();
    SiteGrammar(s);
    FitsPort(s);
    if SiteOk(s) {
      PortSome(s);
    }
    hide PortFits, Fits;
  }

  lemma PortSome(s: Site)
    requires SiteOk(s)
    ensures SiteHost(s).port != [] <==> s.port.Some?
  {
  }

  lemma TargetText(u: Target)
    ensures OutlineOf(u).slashes <= 3 && O.Text(OutlineOf(u)) == Written(u)
  {
    hide O.Text, TailBytes, SiteBytes;
    OutlineText(OutlineOf(u));
    match u
    case Origin(tail) => FrontNone([], O.SLASHES[..0], [], TailBytes(tail));
    case Absolute(_, _, _) =>
    case Bare(site) =>
      TailNone();
      assert O.SLASHES[..0] == [] && SiteBytes(site) + [] == SiteBytes(site);
      assert [] + ([] + SiteBytes(site)) == SiteBytes(site);
  }

  lemma TailNone()
    ensures TailBytes(NO_TAIL) == []
  {
  }

  /** Which targets are accepted: those whose parts have the bytes they may have, and no others. */
  lemma TargetExact(u: Target)
    requires Divided(u)
    ensures (exists o, h :: Divides(o, h, u.Bare?, Written(u))) <==> Ok(u)
    ensures Ok(u) ==> Divides(OutlineOf(u), HostOf(u), u.Bare?, Written(u))
  {
    hide Divided, Grammar, Ok, OutlineOf, HostOf, Written, O.Text;
    GrammarOk(u);
    TargetText(u);
    assert Ok(u) ==> Divides(OutlineOf(u), HostOf(u), u.Bare?, Written(u));
    forall o, h | Divides(o, h, u.Bare?, Written(u)) ensures Ok(u) {
      TargetUnique(o, h, u);
    }
  }

  // What the splitter reports

  /** The bytes of a field. */
  function Field(u: Target, p: Part): Bytes {
    match p
    case SCHEMA => if u.Absolute? then u.schema else []
    case USERINFO => if u.Origin? then [] else Or(u.site.user)
    case HOST =>
      if u.Origin? then []
      else if u.site.host.Named? then u.site.host.name
      else u.site.host.address + Behind("%", u.site.host.zone)
    case PORT => if u.Origin? then [] else Or(u.site.port)
    case PATH => if u.Bare? then [] else u.tail.path
    case QUERY => if u.Bare? then [] else Or(u.tail.query)
    case FRAGMENT => if u.Bare? then [] else u.tail.fragment
  }

  lemma FieldPart(u: Target, p: Part)
    requires Divided(u) && Ok(u)
    ensures PartBytes(OutlineOf(u), HostOf(u), p) == Field(u, p)
    ensures p in Parts(OutlineOf(u), HostOf(u)) <==> Field(u, p) != []
  {
    hide Divided, Ok, OutlineOf, HostOf, Field, Parts;
    FieldSame(u, p);
    if p.HOST? {
      HostPresent(u);
    } else {
      PartPresent(OutlineOf(u), HostOf(u), p);
    }
  }

  lemma FieldSame(u: Target, p: Part)
    ensures PartBytes(OutlineOf(u), HostOf(u), p) == Field(u, p)
  {
    hide TailBytes, Behind, SiteBytes;
  }

  lemma PartPresent(o: O.Outline, h: H.Host, p: Part)
    requires !p.HOST?
    ensures p in Parts(o, h) <==> PartBytes(o, h, p) != []
  {
  }

  lemma HostPresent(u: Target)
    requires Ok(u)
    ensures HOST in Parts(OutlineOf(u), HostOf(u)) <==> Field(u, HOST) != []
  {
    hide TailBytes, Behind, TailOk, UserOk, NameOk, AddressOk, ZoneOk, PortOk, Fits;
    if !u.Origin? {
      SiteNonempty(u.site);
      HostNonempty(u.site.host);
    }
    hide SiteBytes;
  }

  lemma HostNonempty(h: HostText)
    requires HostOk(h)
    ensures h.Bracketed? ==> h.address + Behind("%", h.zone) != []
  {
  }

  /** A target is accepted exactly when its parts have the bytes they may have, and then the fields that are
      not empty are found where they are. */
  method ParseTarget(u: Target) returns (url: Url, failed: bool)
    requires Divided(u) && |Written(u)| <= 65535
    ensures failed <==> !Ok(u)
    ensures !failed ==> forall p :: p in url.fieldSet <==> Field(u, p) != []
    ensures !failed ==> forall p :: p in url.fieldSet ==>
              && p in url.data && url.data[p].off + url.data[p].len <= |Written(u)|
              && Written(u)[url.data[p].off..url.data[p].off + url.data[p].len] == Field(u, p)
    ensures !failed && Field(u, PORT) != [] ==>
              HttpLengths.Digits(Field(u, PORT)) && url.port == HttpLengths.Decimal(Field(u, PORT))
  {
    hide Divided, Ok, OutlineOf, HostOf, Written, Divides, PartSpan, Parts, PartBytes, Field;
    url := new Url();
    failed := url.ParseUrl(Written(u), u.Bare?);
    TargetExact(u);
    if !failed {
      var o, h := OutlineOf(u), HostOf(u);
      forall p ensures p in Parts(o, h) <==> Field(u, p) != [] {
        FieldPart(u, p);
      }
      forall p | p in url.fieldSet
        ensures url.data[p].off + url.data[p].len <= |Written(u)|
        ensures Written(u)[url.data[p].off..url.data[p].off + url.data[p].len] == Field(u, p) {
        FieldPart(u, p);
        FieldBytes(o, h, u.Bare?, Written(u), p);
      }
      FieldPart(u, PORT);
      PortBytes(o, h);
    }
  }

  lemma PortBytes(o: O.Outline, h: H.Host)
    ensures PartBytes(o, h, PORT) == h.port
  {
  }

  /** The target of a request that begins with a slash, or a star, may end with each part: it is accepted exactly
      when its bytes are among those of its parts. */
  lemma RequestTarget(t: Tail)
    requires Divided(Origin(t))
    ensures R.TargetOk(false, TailBytes(t)) <==> TailOk(t)
  {
    hide Divided, TailOk, TailBytes, O.Walk, O.Text, O.Shape, O.Classes, Grammar;
    var u := Origin(t);
    var text := TailBytes(t);
    TargetExact(u);
    OriginStarts(t);
    if TailOk(t) {
      DividesWalks(OutlineOf(u), H.NO_HOST, false, text);
    }
    if R.TargetOk(false, text) {
      var (s, o) := O.Walk(false, text);
      O.WalkShape(false, text);
      OriginComplete(s, o, text);
      assert Divides(o, H.NO_HOST, u.Bare?, Written(u));
    }
  }

  lemma OriginStarts(t: Tail)
    requires Divided(Origin(t))
    ensures t.path != [] && TailBytes(t) != [] && TailBytes(t)[0] in "/*"
  {
  }

  lemma OriginComplete(s: State, o: O.Outline, text: Bytes)
    requires UrlState(s) && O.Shape(s, o, false) && O.Text(o) == text && text != [] && text[0] in "/*"
    ensures o.slashes <= 3 && Grammar(o, H.NO_HOST, false)
  {
    OutlineText(o);
    SchemaStarts(o.schema, O.SLASHES[..o.slashes] + (o.authority + TailBytes(TailPart(o))));
    if o.schema != [] {
      LetterExact(o.schema[0]);
      assert false;
    }
    NoPort();
    CompleteShape(s, o, false);
  }

  const ESCAPED := Tail("/a%20b", Some("c=%2f"), 0, [])

  /** Percent escapes in a path and in a query. */
  lemma EscapedOk()
    ensures TailBytes(ESCAPED) == "/a%20b?c=%2f" && R.TargetOk(false, "/a%20b?c=%2f")
  {
    EscapedBytes();
    EscapedDivided();
    EscapedParts();
    hide TailBytes, TailOk, Divided;
    RequestTarget(ESCAPED);
  }

  lemma EscapedBytes()
    ensures TailBytes(ESCAPED) == "/a%20b?c=%2f"
  {
  }

  lemma EscapedDivided()
    ensures Divided(Origin(ESCAPED))
  {
  }

  lemma EscapedParts()
    ensures TailOk(ESCAPED)
  {
  }
}
