/** Splitting a URL into its fields: the two loops that fill in the offsets, and what they find, by the
    grammars of UrlOutline and UrlHost (section 3 of RFC 3986). */
module UrlSplit {
  import opened HttpTypes
  import opened Options
  import HttpMachine
  import HttpLengths
  import O = UrlOutline
  import H = UrlHost

  datatype Part = SCHEMA | HOST | PORT | PATH | QUERY | FRAGMENT | USERINFO

  datatype Span = Span(off: nat, len: nat)

  // Where the components of an outline are

  function Opt(p: Part, present: bool): set<Part> { if present then {p} else {} }

  function OutlineParts(o: O.Outline): set<Part> {
    Opt(SCHEMA, o.schema != []) + Opt(HOST, o.authority != []) + Opt(PATH, o.path != []) +
    Opt(QUERY, o.query != []) + Opt(FRAGMENT, o.fragment != [])
  }

  function HostAt(o: O.Outline): nat { |o.schema| + o.slashes }

  function PathAt(o: O.Outline): nat { HostAt(o) + |o.authority| }

  function QueryAt(o: O.Outline): nat { PathAt(o) + |o.path| + if o.question then 1 else 0 }

  function FragmentAt(o: O.Outline): nat { QueryAt(o) + |o.query| + o.hashes }

  function OutlineSpan(o: O.Outline, p: Part): Span {
    match p
    case SCHEMA => Span(0, |o.schema|)
    case HOST => Span(HostAt(o), |o.authority|)
    case PATH => Span(PathAt(o), |o.path|)
    case QUERY => Span(QueryAt(o), |o.query|)
    case FRAGMENT => Span(FragmentAt(o), |o.fragment|)
    case _ => Span(0, 0)
  }

  /** The last component that has been met. */
  function LastPart(o: O.Outline): Option<Part> {
    if o.fragment != [] then Some(FRAGMENT)
    else if o.query != [] then Some(QUERY)
    else if o.path != [] then Some(PATH)
    else if o.authority != [] then Some(HOST)
    else if o.schema != [] then Some(SCHEMA)
    else None
  }

  /** The component a state collects, if it is not that of a delimiter. */
  function StatePart(s: State): Option<Part> {
    if s.ReqSchema? then Some(SCHEMA)
    else if s.ReqServer? || s.ReqServerWithAt? then Some(HOST)
    else if s.ReqPath? then Some(PATH)
    else if s.ReqQueryString? then Some(QUERY)
    else if s.ReqFragment? then Some(FRAGMENT)
    else None
  }

  predicate OutlineFields(o: O.Outline, parts: set<Part>, data: map<Part, Span>) {
    parts == OutlineParts(o) && forall p :: p in parts ==> p in data && data[p] == OutlineSpan(o, p)
  }

  lemma TextSize(o: O.Outline)
    requires o.slashes <= 3
    ensures |O.Text(o)| == FragmentAt(o) + |o.fragment|
  {
  }

  /** The fields after the byte at p, which belongs to the component uf, if to any. */
  function FieldsUpdate(last: Option<Part>, uf: Option<Part>, p: nat, parts: set<Part>, data: map<Part, Span>)
    : (set<Part>, map<Part, Span>)
  {
    if uf.None? then (parts, data)
    else if last == uf && uf.value in data then
      (parts, data[uf.value := data[uf.value].(len := data[uf.value].len + 1)])
    else (parts + {uf.value}, data[uf.value := Span(p, 1)])
  }

  lemma FieldsFront(o: O.Outline, t: State, ch: Byte, parts: set<Part>, data: map<Part, Span>)
    requires UrlState(t) && o.slashes <= 3 && O.Behind(t, o) && OutlineFields(o, parts, data) && O.UpToServer(t)
    ensures LastPart(o) == StatePart(t) != None ==> StatePart(t).value in data
    ensures var u := FieldsUpdate(LastPart(o), StatePart(t), |O.Text(o)|, parts, data);
            var r := O.Grow(o, t, ch);
            OutlineFields(r, u.0, u.1) && LastPart(r) == if StatePart(t).None? then LastPart(o) else StatePart(t)
  {
    hide UrlState;
    TextSize(o);
  }

  lemma FieldsPath(o: O.Outline, t: State, ch: Byte, parts: set<Part>, data: map<Part, Span>)
    requires UrlState(t) && o.slashes <= 3 && O.Behind(t, o) && OutlineFields(o, parts, data) && t.ReqPath?
    ensures LastPart(o) == StatePart(t) != None ==> StatePart(t).value in data
    ensures var u := FieldsUpdate(LastPart(o), StatePart(t), |O.Text(o)|, parts, data);
            var r := O.Grow(o, t, ch);
            OutlineFields(r, u.0, u.1) && LastPart(r) == if StatePart(t).None? then LastPart(o) else StatePart(t)
  {
    TextSize(o);
  }

  lemma FieldsMark(o: O.Outline, t: State, ch: Byte, parts: set<Part>, data: map<Part, Span>)
    requires UrlState(t) && o.slashes <= 3 && O.Behind(t, o) && OutlineFields(o, parts, data)
    requires t.ReqQueryStringStart? || t.ReqFragmentStart?
    ensures LastPart(o) == StatePart(t) != None ==> StatePart(t).value in data
    ensures var u := FieldsUpdate(LastPart(o), StatePart(t), |O.Text(o)|, parts, data);
            var r := O.Grow(o, t, ch);
            OutlineFields(r, u.0, u.1) && LastPart(r) == if StatePart(t).None? then LastPart(o) else StatePart(t)
  {
    TextSize(o);
  }

  lemma FieldsQuery(o: O.Outline, t: State, ch: Byte, parts: set<Part>, data: map<Part, Span>)
    requires UrlState(t) && o.slashes <= 3 && O.Behind(t, o) && OutlineFields(o, parts, data) && t.ReqQueryString?
    ensures LastPart(o) == StatePart(t) != None ==> StatePart(t).value in data
    ensures var u := FieldsUpdate(LastPart(o), StatePart(t), |O.Text(o)|, parts, data);
            var r := O.Grow(o, t, ch);
            OutlineFields(r, u.0, u.1) && LastPart(r) == if StatePart(t).None? then LastPart(o) else StatePart(t)
  {
    TextSize(o);
  }

  lemma FieldsFragment(o: O.Outline, t: State, ch: Byte, parts: set<Part>, data: map<Part, Span>)
    requires UrlState(t) && o.slashes <= 3 && O.Behind(t, o) && OutlineFields(o, parts, data) && t.ReqFragment?
    ensures LastPart(o) == StatePart(t) != None ==> StatePart(t).value in data
    ensures var u := FieldsUpdate(LastPart(o), StatePart(t), |O.Text(o)|, parts, data);
            var r := O.Grow(o, t, ch);
            OutlineFields(r, u.0, u.1) && LastPart(r) == if StatePart(t).None? then LastPart(o) else StatePart(t)
  {
    TextSize(o);
    hide O.Text, UrlState, O.Behind, OutlineParts, OutlineSpan;
    assert O.Grow(o, t, ch) == o.(fragment := o.fragment + [ch]);
    FragmentGrows(o, ch);
  }

  lemma FragmentGrows(o: O.Outline, ch: Byte)
    ensures var r := o.(fragment := o.fragment + [ch]);
            && OutlineParts(r) == OutlineParts(o) + {FRAGMENT} && (FRAGMENT in OutlineParts(o) <==> o.fragment != [])
            && OutlineSpan(r, FRAGMENT) == Span(FragmentAt(o), |o.fragment| + 1)
            && OutlineSpan(o, FRAGMENT) == Span(FragmentAt(o), |o.fragment|)
            && forall p :: p != FRAGMENT ==> OutlineSpan(r, p) == OutlineSpan(o, p)
  {
  }

  lemma TailState(t: State)
    requires UrlState(t) && !O.UpToServer(t) && !t.ReqPath? && !t.ReqQueryString? && !t.ReqFragment?
    ensures t.ReqQueryStringStart? || t.ReqFragmentStart?
  {
  }

  /** How the fields change with one byte. */
  lemma FieldsStep(o: O.Outline, t: State, ch: Byte, parts: set<Part>, data: map<Part, Span>)
    requires UrlState(t) && o.slashes <= 3 && O.Behind(t, o) && OutlineFields(o, parts, data)
    ensures LastPart(o) == StatePart(t) != None ==> StatePart(t).value in data
    ensures var u := FieldsUpdate(LastPart(o), StatePart(t), |O.Text(o)|, parts, data);
            var r := O.Grow(o, t, ch);
            OutlineFields(r, u.0, u.1) && LastPart(r) == if StatePart(t).None? then LastPart(o) else StatePart(t)
  {
    hide UrlState, OutlineFields, FieldsUpdate, O.Behind, O.Grow, LastPart, StatePart, O.Text;
    if O.UpToServer(t) {
      FieldsFront(o, t, ch, parts, data);
    } else if t.ReqPath? {
      FieldsPath(o, t, ch, parts, data);
    } else if t.ReqQueryString? {
      FieldsQuery(o, t, ch, parts, data);
    } else if t.ReqFragment? {
      FieldsFragment(o, t, ch, parts, data);
    } else {
      TailState(t);
      FieldsMark(o, t, ch, parts, data);
    }
  }

  // Where the parts of an authority are

  function HostOff(h: H.Host): nat { |h.user| + (if h.at then 1 else 0) + if h.open then 1 else 0 }

  function PortOff(h: H.Host): nat {
    HostOff(h) + |h.name| + |h.zone| + (if h.close then 1 else 0) + if h.colon then 1 else 0
  }

  function HostSpan(h: H.Host, base: nat, p: Part): Span {
    match p
    case USERINFO => Span(base, |h.user|)
    case HOST => Span(base + HostOff(h), |h.name| + |h.zone|)
    case PORT => Span(base + PortOff(h), |h.port|)
    case _ => Span(0, 0)
  }

  function HostParts(h: H.Host): set<Part> { Opt(USERINFO, h.user != []) + Opt(PORT, h.port != []) }

  /** The fields while the authority is being divided: until the first byte of the host its offset is that of
      the authority. */
  predicate HostFields(h: H.Host, base: nat, before: set<Part>, was: map<Part, Span>, parts: set<Part>,
                       data: map<Part, Span>)
  {
    && parts == before + HostParts(h) && HOST in data
    && data[HOST] == (if h.name == [] then Span(base, 0) else HostSpan(h, base, HOST))
    && (forall p :: p in HostParts(h) ==> p in data && data[p] == HostSpan(h, base, p))
    && (forall p :: p in before && p != HOST ==> p in data && p in was && data[p] == was[p])
  }

  lemma HostTextSize(h: H.Host)
    ensures |H.Text(h)| == PortOff(h) + |h.port|
  {
  }

  /** The fields that one byte of an authority finds filled in. */
  predicate HostReady(s: H.HostState, t: H.HostState, data: map<Part, Span>) {
    HOST in data && (s.Port? && t.Port? ==> PORT in data) && (s.User? && t.User? ==> USERINFO in data)
  }

  /** The fields after the byte at p, which leads from state s to state t. */
  function HostUpdate(s: H.HostState, t: H.HostState, p: nat, parts: set<Part>, data: map<Part, Span>)
    : (set<Part>, map<Part, Span>)
    requires HostReady(s, t, data)
  {
    match t
    case Name => (parts, data[HOST := Longer(data[HOST], s.Name?, p)])
    case Address => (parts, data[HOST := Longer(data[HOST], s.Address?, p)])
    case ZoneStart => (parts, data[HOST := Longer(data[HOST], true, p)])
    case Zone => (parts, data[HOST := Longer(data[HOST], true, p)])
    case Port => (parts + {PORT}, data[PORT := if s.Port? then Longer(data[PORT], true, p) else Span(p, 1)])
    case User =>
      (parts + {USERINFO}, data[USERINFO := if s.User? then Longer(data[USERINFO], true, p) else Span(p, 1)])
    case _ => (parts, data)
  }

  lemma HostNameStep(s: H.HostState, h: H.Host, at: bool, ch: Byte, base: nat, before: set<Part>,
                            was: map<Part, Span>, parts: set<Part>, data: map<Part, Span>)
    requires H.Shape(s, h, at) && !H.ParseHostChar(s, ch).Refused?
    requires HostFields(h, base, before, was, parts, data) && PORT !in before && USERINFO !in before
    requires var t := H.ParseHostChar(s, ch); t.Name? || t.Address? || t.ZoneStart? || t.Zone?
    ensures var t := H.ParseHostChar(s, ch);
            && HostReady(s, t, data)
            && var u := HostUpdate(s, t, base + |H.Text(h)|, parts, data);
               HostFields(H.Grow(h, t, ch), base, before, was, u.0, u.1)
  {
    hide IsUserinfoChar, IsHostChar, H.AddressChar, H.ZoneChar, IsNum, H.Classes;
    HostTextSize(h);
  }

  lemma HostEndStep(s: H.HostState, h: H.Host, at: bool, ch: Byte, base: nat, before: set<Part>,
                           was: map<Part, Span>, parts: set<Part>, data: map<Part, Span>)
    requires H.Shape(s, h, at) && !H.ParseHostChar(s, ch).Refused?
    requires HostFields(h, base, before, was, parts, data) && PORT !in before && USERINFO !in before
    requires var t := H.ParseHostChar(s, ch); t.User? || t.Port?
    ensures var t := H.ParseHostChar(s, ch);
            && HostReady(s, t, data)
            && var u := HostUpdate(s, t, base + |H.Text(h)|, parts, data);
               HostFields(H.Grow(h, t, ch), base, before, was, u.0, u.1)
  {
    hide HostFields, HostUpdate, HostReady, H.Shape, H.ParseHostChar, H.Grow, H.Text;
    if H.ParseHostChar(s, ch).User? {
      HostUserStep(s, h, at, ch, base, before, was, parts, data);
    } else {
      HostPortStep(s, h, at, ch, base, before, was, parts, data);
    }
  }

  lemma HostUserStep(s: H.HostState, h: H.Host, at: bool, ch: Byte, base: nat, before: set<Part>,
                           was: map<Part, Span>, parts: set<Part>, data: map<Part, Span>)
    requires H.Shape(s, h, at) && !H.ParseHostChar(s, ch).Refused?
    requires HostFields(h, base, before, was, parts, data) && PORT !in before && USERINFO !in before
    requires H.ParseHostChar(s, ch).User?
    ensures var t := H.ParseHostChar(s, ch);
            && HostReady(s, t, data)
            && var u := HostUpdate(s, t, base + |H.Text(h)|, parts, data);
               HostFields(H.Grow(h, t, ch), base, before, was, u.0, u.1)
  {
    hide IsUserinfoChar, IsHostChar, H.AddressChar, H.ZoneChar, IsNum, H.Classes;
    HostTextSize(h);
    hide H.Text;
  }

  lemma HostPortStep(s: H.HostState, h: H.Host, at: bool, ch: Byte, base: nat, before: set<Part>,
                           was: map<Part, Span>, parts: set<Part>, data: map<Part, Span>)
    requires H.Shape(s, h, at) && !H.ParseHostChar(s, ch).Refused?
    requires HostFields(h, base, before, was, parts, data) && PORT !in before && USERINFO !in before
    requires H.ParseHostChar(s, ch).Port?
    ensures var t := H.ParseHostChar(s, ch);
            && HostReady(s, t, data)
            && var u := HostUpdate(s, t, base + |H.Text(h)|, parts, data);
               HostFields(H.Grow(h, t, ch), base, before, was, u.0, u.1)
  {
    hide IsUserinfoChar, IsHostChar, H.AddressChar, H.ZoneChar, IsNum, H.Classes;
    HostTextSize(h);
    hide H.Text;
  }

  lemma HostMarkStep(s: H.HostState, h: H.Host, at: bool, ch: Byte, base: nat, before: set<Part>,
                            was: map<Part, Span>, parts: set<Part>, data: map<Part, Span>)
    requires H.Shape(s, h, at) && !H.ParseHostChar(s, ch).Refused?
    requires HostFields(h, base, before, was, parts, data) && PORT !in before && USERINFO !in before
    requires var t := H.ParseHostChar(s, ch); t.HostStart? || t.AddressStart? || t.AddressEnd? || t.PortStart?
    ensures var t := H.ParseHostChar(s, ch);
            && HostReady(s, t, data)
            && var u := HostUpdate(s, t, base + |H.Text(h)|, parts, data);
               HostFields(H.Grow(h, t, ch), base, before, was, u.0, u.1)
  {
    hide IsUserinfoChar, IsHostChar, H.AddressChar, H.ZoneChar, IsNum, H.Classes;
    HostTextSize(h);
  }

  lemma HostStep(s: H.HostState, h: H.Host, at: bool, ch: Byte, base: nat, before: set<Part>,
                        was: map<Part, Span>, parts: set<Part>, data: map<Part, Span>)
    requires H.Shape(s, h, at) && !H.ParseHostChar(s, ch).Refused?
    requires HostFields(h, base, before, was, parts, data) && PORT !in before && USERINFO !in before
    ensures var t := H.ParseHostChar(s, ch);
            && HostReady(s, t, data)
            && var u := HostUpdate(s, t, base + |H.Text(h)|, parts, data);
               HostFields(H.Grow(h, t, ch), base, before, was, u.0, u.1)
  {
    hide HostFields, HostUpdate, HostReady, H.Shape, H.ParseHostChar, H.Grow, H.Text;
    var t := H.ParseHostChar(s, ch);
    H.StepBehind(s, h, at, ch);
    if t.User? || t.Port? {
      HostEndStep(s, h, at, ch, base, before, was, parts, data);
    } else if t.Name? || t.Address? || t.ZoneStart? || t.Zone? {
      HostNameStep(s, h, at, ch, base, before, was, parts, data);
    } else {
      HostMarkStep(s, h, at, ch, base, before, was, parts, data);
    }
  }

  /** A field with one byte more; it starts at p unless it goes on. */
  function Longer(f: Span, goesOn: bool, p: nat): Span { Span(if goesOn then f.off else p, f.len + 1) }

  // What is accepted

  /** A complete outline: a schema comes with an authority, a request for CONNECT has nothing but an
      authority and perhaps empty tails, and delimiters are where they belong. */
  predicate Complete(o: O.Outline, connect: bool) {
    && O.Classes(o, connect) && O.Front(o, connect)
    && (if connect then o.authority != [] && o.path == [] && o.query == [] && o.fragment == []
        else o.path != [] || o.schema != [])
    && (o.schema != [] ==> o.authority != [])
    && (o.query != [] ==> o.question) && (o.fragment != [] ==> o.hashes > 0)
    && (o.hashes > 0 ==> o.path != [] || o.question)
  }

  /** The grammar of the URLs that are accepted: a complete outline whose authority, if it has one, divides
      into user information, host and port; for CONNECT exactly host and port; and a port of 16 bits. */
  predicate Grammar(o: O.Outline, h: H.Host, connect: bool) {
    && Complete(o, connect)
    && (if o.authority == [] then h == H.NO_HOST
        else H.Authority(h, '@' in o.authority) && H.Text(h) == o.authority)
    && (connect ==> h.user == [] && h.port != [])
    && PortFits(h)
  }

  predicate PortFits(h: H.Host) { HttpLengths.Digits(h.port) ==> HttpLengths.Decimal(h.port) <= 0xffff }

  /** The bytes are those of an outline and a host of the grammar. */
  predicate Divides(o: O.Outline, h: H.Host, connect: bool, buf: Bytes) {
    o.slashes <= 3 && Grammar(o, h, connect) && O.Text(o) == buf
  }

  function EndState(o: O.Outline): State {
    if o.fragment != [] then ReqFragment
    else if o.hashes > 0 then ReqFragmentStart
    else if o.query != [] then ReqQueryString
    else if o.question then ReqQueryStringStart
    else if o.path != [] then ReqPath
    else O.AtAuthority(o)
  }

  /** Complete outlines are those in which the walk may end and that pass the tests behind the loop. */
  lemma CompleteShape(s: State, o: O.Outline, connect: bool)
    ensures O.Shape(s, o, connect) && o != O.EMPTY && (o.schema != [] ==> o.authority != []) &&
            (connect ==> o.authority != [] && o.path == [] && o.query == [] && o.fragment == []) ==>
            Complete(o, connect)
    ensures Complete(o, connect) && o.slashes <= 3 ==> O.Shape(EndState(o), o, connect) && !EndState(o).Dead?
  {
    hide O.Classes;
  }

  // The fields of a parsed URL

  function Parts(o: O.Outline, h: H.Host): set<Part> { OutlineParts(o) + HostParts(h) }

  function PartSpan(o: O.Outline, h: H.Host, p: Part): Span {
    if p.HOST? || p.PORT? || p.USERINFO? then HostSpan(h, HostAt(o), p) else OutlineSpan(o, p)
  }

  function PartBytes(o: O.Outline, h: H.Host, p: Part): Bytes {
    match p
    case SCHEMA => o.schema
    case HOST => h.name + h.zone
    case PORT => h.port
    case PATH => o.path
    case QUERY => o.query
    case FRAGMENT => o.fragment
    case USERINFO => h.user
  }

  class Url {
    var fieldSet: set<Part>
    var port: nat
    var data: map<Part, Span>

    /** The fields are exactly those of a division, where they are in the URL, and the port is the number of
        the port field. */
    ghost predicate Describes(o: O.Outline, h: H.Host)
      reads this
    {
      && fieldSet == Parts(o, h)
      && (forall p :: p in fieldSet ==> p in data && data[p] == PartSpan(o, h, p))
      && (if PORT in fieldSet then HttpLengths.Digits(h.port) && port == HttpLengths.Decimal(h.port) else port == 0)
    }

    constructor ()
      ensures fieldSet == {} && port == 0 && data == map[]
    {
      fieldSet, port, data := {}, 0, map[];
    }

    method Open(p: Part, off: nat)
      modifies `fieldSet, `data
      ensures fieldSet == old(fieldSet) + {p} && data == old(data)[p := Span(off, 1)]
    {
      data := data[p := Span(off, 1)];
      fieldSet := fieldSet + {p};
    }

    method Extend(p: Part)
      requires p in data
      modifies `data
      ensures data == old(data)[p := old(data[p]).(len := old(data[p].len) + 1)]
    {
      data := data[p := data[p].(len := data[p].len + 1)];
    }

    /** The loop of http_parser_parse_url: the coarse division, and whether there was an @ in the authority. */
    method ParseOutline(buf: Bytes, connect: bool) returns (failed: bool, foundAt: bool)
      requires fieldSet == {}
      modifies `fieldSet, `data
      ensures var (s, o) := O.Walk(connect, buf);
              && (!failed <==> !s.Dead?)
              && (!failed ==> OutlineFields(o, fieldSet, data) && (foundAt <==> '@' in o.authority))
    {
      hide HttpMachine.ParseUrlChar, O.Grow, OutlineFields, FieldsUpdate, O.Shape, O.Text, LastPart, StatePart;
      var s := O.Start(connect);
      ghost var o := O.EMPTY;
      var oldUf: Option<Part> := None;
      foundAt := false;
      FieldsEmpty(data);
      O.EmptyShape(connect);
      var p := 0;
      while p < |buf|
        invariant 0 <= p <= |buf|
        invariant (s, o) == O.Walk(connect, buf[..p]) && O.Shape(s, o, connect)
        invariant OutlineFields(o, fieldSet, data) && oldUf == LastPart(o) && (foundAt <==> '@' in o.authority)
      {
        assert buf[..p + 1][..p] == buf[..p];
        O.WalkShape(connect, buf[..p]);
        O.WalkShape(connect, buf[..p + 1]);
        O.NotDead(s, o, connect);
        var t := HttpMachine.ParseUrlChar(s, buf[p]);
        if t.Dead? {
          OutlineRefused(connect, buf, p + 1);
          return true, foundAt;
        }
        O.StepBehind(s, o, connect, buf[p]);
        FieldsStep(o, t, buf[p], fieldSet, data);
        AtSign(s, o, connect, buf[p]);
        if t.ReqServerWithAt? {
          foundAt := true;
        }
        var uf := StatePart(t);
        Collect(oldUf, uf, p);
        o := O.Grow(o, t, buf[p]);
        oldUf := if uf.None? then oldUf else uf;
        s := t;
        p := p + 1;
      }
      assert buf[..p] == buf;
      O.NotDead(s, o, connect);
      failed := false;
    }

    /** A byte of a component extends the field of the last one or opens another one. */
    method Collect(oldUf: Option<Part>, uf: Option<Part>, p: nat)
      requires uf.Some? && uf == oldUf ==> uf.value in data
      modifies `fieldSet, `data
      ensures var u := FieldsUpdate(oldUf, uf, p, old(fieldSet), old(data)); fieldSet == u.0 && data == u.1
    {
      if uf.None? {
        return;
      }
      if uf == oldUf {
        Extend(uf.value);
        return;
      }
      Open(uf.value, p);
    }

    /** The digits of the port field, until they exceed 16 bits. */
    method ParsePort(buf: Bytes) returns (failed: bool)
      requires PORT in data && data[PORT].off + data[PORT].len <= |buf|
      requires HttpLengths.Digits(buf[data[PORT].off..data[PORT].off + data[PORT].len])
      modifies `port
      ensures var digits := buf[data[PORT].off..data[PORT].off + data[PORT].len];
              && (failed <==> HttpLengths.Decimal(digits) > 0xffff)
              && (!failed ==> port == HttpLengths.Decimal(digits))
    {
      var off, len := data[PORT].off, data[PORT].len;
      ghost var digits := buf[off..off + len];
      var v := 0;
      var p := off;
      while p < off + len
        invariant off <= p <= off + len && v <= 0xffff
        invariant v == HttpLengths.Decimal(digits[..p - off])
      {
        assert digits[..p - off + 1][..p - off] == digits[..p - off] && digits[p - off] == buf[p];
        v := v * 10;
        v := v + Digit(buf[p]);
        if v > 0xffff {
          DecimalGrows(digits, p - off + 1);
          return true;
        }
        p := p + 1;
      }
      assert digits[..p - off] == digits;
      port := v;
      failed := false;
    }

    /** The fields of http_parser_parse_url, before the last two tests. */
    method ParseFields(buf: Bytes, connect: bool) returns (failed: bool)
      requires fieldSet == {}
      modifies `fieldSet, `data
      ensures var (s, o) := O.Walk(connect, buf);
              var (t, h) := HostWalk(o);
              && (!failed <==> !s.Dead? && (o.schema != [] ==> o.authority != []) && (o.authority != [] ==> H.Ends(t)))
              && (!failed ==> FieldsDone(o, h, fieldSet, data, buf))
    {
      hide O.Walk, H.Walk, HostFields, OutlineFields, FieldsDone, O.Shape, O.Text;
      var foundAt;
      failed, foundAt := ParseOutline(buf, connect);
      ghost var (s, o) := O.Walk(connect, buf);
      ghost var (t, h) := HostWalk(o);
      if failed {
        return;
      }
      O.WalkShape(connect, buf);
      O.NotDead(s, o, connect);
      FieldsMeaning(s, o, fieldSet, data, connect, buf);
      if SCHEMA in fieldSet && HOST !in fieldSet {
        return true;
      }
      ghost var before, was := fieldSet, data;
      if HOST in fieldSet {
        failed := ParseHost(buf, foundAt);
        if failed {
          return;
        }
      }
      HostMeaning(o, t, h, before, was, fieldSet, data, buf);
    }

    /** http_parser_parse_url: a URL is accepted exactly when the grammar divides it, and then the fields are
        those of the division. */
    method ParseUrl(buf: Bytes, connect: bool) returns (failed: bool)
      requires |buf| <= 65535
      modifies this
      ensures !failed <==> exists o, h :: Divides(o, h, connect, buf)
      ensures !failed ==> forall o, h :: Divides(o, h, connect, buf) ==> Describes(o, h)
    {
      hide O.Walk, HostWalk, Divides, Parts, PartSpan, O.Shape, O.Text;
      if |buf| == 0 {
        NotEmpty(connect);
        return true;
      }
      fieldSet, port := {}, 0;
      failed := ParseFields(buf, connect);
      ghost var (s, o) := O.Walk(connect, buf);
      ghost var (t, h) := HostWalk(o);
      forall p, g | Divides(p, g, connect, buf) ensures p == o && g == h && Accepted(s, o, t, h, connect) {
        DividesWalks(p, g, connect, buf);
      }
      if failed {
        return;
      }
      if connect && fieldSet != {HOST, PORT} {
        return true;
      }
      if PORT in fieldSet {
        failed := ParsePort(buf);
        if failed {
          return;
        }
      }
      NonEmpty(o, buf);
      WalksDivide(s, o, t, h, connect, buf);
    }

    /** http_parse_host: divides the host field. */
    method ParseHost(buf: Bytes, foundAt: bool) returns (failed: bool)
      requires HOST in fieldSet && HOST in data && data[HOST].off + data[HOST].len <= |buf|
      requires PORT !in fieldSet && USERINFO !in fieldSet && forall p :: p in fieldSet ==> p in data
      modifies `fieldSet, `data
      ensures var f := old(data[HOST]);
              var (s, h) := H.Walk(foundAt, buf[f.off..f.off + f.len]);
              && (!failed <==> H.Ends(s))
              && (!failed ==> HostFields(h, f.off, old(fieldSet), old(data), fieldSet, data))
    {
      hide H.ParseHostChar, H.Grow, HostFields, HostUpdate, HostReady, H.Shape, H.Text;
      var base, size := data[HOST].off, data[HOST].len;
      ghost var before, was := fieldSet, data;
      ghost var text := buf[base..base + size];
      data := data[HOST := Span(base, 0)];
      var s := H.Start(foundAt);
      ghost var h := H.NO_HOST;
      HostFieldsStart(base, before, was);
      H.EmptyShape(foundAt);
      var p := base;
      while p < base + size
        invariant base <= p <= base + size
        invariant (s, h) == H.Walk(foundAt, text[..p - base]) && H.Shape(s, h, foundAt)
        invariant HostFields(h, base, before, was, fieldSet, data)
      {
        assert text[..p - base + 1][..p - base] == text[..p - base] && text[p - base] == buf[p];
        H.WalkShape(foundAt, text[..p - base]);
        H.WalkShape(foundAt, text[..p - base + 1]);
        var t := H.ParseHostChar(s, buf[p]);
        if t.Refused? {
          HostRefused(foundAt, text, p - base + 1);
          return true;
        }
        H.ShapeStates(s, h, foundAt);
        assert base + |H.Text(h)| == p;
        HostStep(s, h, foundAt, buf[p], base, before, was, fieldSet, data);
        HostByte(s, t, p);
        h := H.Grow(h, t, buf[p]);
        s := t;
        p := p + 1;
      }
      assert text[..p - base] == text;
      failed := !H.Ends(s);
    }

    /** The switch over the new state. */
    method HostByte(s: H.HostState, t: H.HostState, p: nat)
      requires HostReady(s, t, data)
      modifies `fieldSet, `data
      ensures var u := HostUpdate(s, t, p, old(fieldSet), old(data)); fieldSet == u.0 && data == u.1
    {
      if t.Name? {
        if !s.Name? {
          data := data[HOST := data[HOST].(off := p)];
        }
        Extend(HOST);
      } else if t.Address? {
        if !s.Address? {
          data := data[HOST := data[HOST].(off := p)];
        }
        Extend(HOST);
      } else if t.ZoneStart? || t.Zone? {
        Extend(HOST);
      } else if t.Port? {
        if !s.Port? {
          data := data[PORT := Span(p, 0)];
        }
        fieldSet := fieldSet + {PORT};
        Extend(PORT);
      } else if t.User? {
        if !s.User? {
          data := data[USERINFO := Span(p, 0)];
        }
        fieldSet := fieldSet + {USERINFO};
        Extend(USERINFO);
      }
    }
  }

  lemma HostFieldsStart(base: nat, before: set<Part>, was: map<Part, Span>)
    requires HOST in was && forall p :: p in before ==> p in was
    ensures HostFields(H.NO_HOST, base, before, was, before, was[HOST := Span(base, 0)])
  {
  }

  /** A walk that has been refused is not taken up again. */
  lemma {:induction false} HostRefused(at: bool, text: Bytes, n: nat)
    requires n <= |text| && H.Walk(at, text[..n]).0.Refused?
    ensures H.Walk(at, text).0.Refused?
    decreases |text| - n
  {
    if n < |text| {
      assert text[..n + 1][..n] == text[..n];
      HostRefused(at, text, n + 1);
    } else {
      assert text[..n] == text;
    }
  }

  lemma FieldsEmpty(data: map<Part, Span>)
    ensures OutlineFields(O.EMPTY, {}, data) && LastPart(O.EMPTY) == None
  {
  }

  /** An @ of the authority leads to the state that says so, and no other byte does. */
  lemma AtSign(s: State, o: O.Outline, connect: bool, ch: Byte)
    requires O.Shape(s, o, connect)
    ensures var t := HttpMachine.ParseUrlChar(s, ch);
            var r := O.Grow(o, t, ch);
            !t.Dead? ==> ('@' in r.authority <==> '@' in o.authority || t.ReqServerWithAt?)
  {
    hide IsUserinfoChar, IsUrlChar, IsAlpha, O.Classes;
    AtIsNotUserinfo();
  }

  lemma AtIsNotUserinfo()
    ensures !IsUserinfoChar('@')
  {
  }

  lemma {:induction false} OutlineRefused(connect: bool, buf: Bytes, n: nat)
    requires n <= |buf| && O.Walk(connect, buf[..n]).0.Dead?
    ensures O.Walk(connect, buf).0.Dead?
    decreases |buf| - n
  {
    if n < |buf| {
      assert buf[..n + 1][..n] == buf[..n];
      OutlineRefused(connect, buf, n + 1);
    } else {
      assert buf[..n] == buf;
    }
  }

  lemma {:induction false} DecimalGrows(digits: Bytes, n: nat)
    requires n <= |digits| && HttpLengths.Digits(digits)
    ensures HttpLengths.Decimal(digits) >= HttpLengths.Decimal(digits[..n])
    decreases |digits| - n
  {
    if n < |digits| {
      assert digits[..n + 1][..n] == digits[..n];
      DecimalGrows(digits, n + 1);
    } else {
      assert digits[..n] == digits;
    }
  }

  /** The division of the authority, if there is one. */
  function HostWalk(o: O.Outline): (H.HostState, H.Host) {
    if o.authority == [] then (H.Refused, H.NO_HOST) else H.Walk('@' in o.authority, o.authority)
  }

  /** What the tests of http_parser_parse_url come to, in terms of the two walks. */
  predicate Accepted(s: State, o: O.Outline, t: H.HostState, h: H.Host, connect: bool) {
    && !s.Dead? && o != O.EMPTY
    && (o.schema != [] ==> o.authority != [])
    && (o.authority != [] ==> H.Ends(t))
    && (connect ==> Parts(o, h) == {HOST, PORT})
    && PortFits(h)
  }

  lemma NotEmpty(connect: bool)
    ensures forall o, h :: !Divides(o, h, connect, [])
  {
    forall o, h ensures !Divides(o, h, connect, []) {
      if Divides(o, h, connect, []) {
        O.TextLength(o);
      }
    }
  }

  /** A division by the grammar is what the walks find, and passes the tests. */
  lemma DividesWalks(o: O.Outline, h: H.Host, connect: bool, buf: Bytes)
    requires Divides(o, h, connect, buf)
    ensures O.Walk(connect, buf) == (EndState(o), o) && HostWalk(o).1 == h
    ensures Accepted(EndState(o), o, HostWalk(o).0, h, connect)
  {
    hide O.Walk, H.Walk, O.Text, H.Text, O.Shape, PortFits;
    CompleteShape(EndState(o), o, connect);
    O.ShapeWalks(EndState(o), o, connect);
    if o.authority != [] {
      H.AuthorityShape(h, '@' in o.authority);
      H.ShapeWalks(H.EndState(h), h, '@' in o.authority);
    }
    if connect {
      ConnectParts(o, h, connect);
    }
    assert o != O.EMPTY by { NotEmptyOutline(o, connect); }
  }

  lemma NotEmptyOutline(o: O.Outline, connect: bool)
    requires Complete(o, connect)
    ensures o != O.EMPTY
  {
  }

  lemma ConnectParts(o: O.Outline, h: H.Host, connect: bool)
    requires Grammar(o, h, connect) && connect
    ensures Parts(o, h) == {HOST, PORT}
  {
    hide O.Classes, H.Classes, PortFits;
  }

  /** And what the walks find, when it passes the tests, is a division by the grammar. */
  lemma WalksDivide(s: State, o: O.Outline, t: H.HostState, h: H.Host, connect: bool, buf: Bytes)
    requires O.Walk(connect, buf) == (s, o) && HostWalk(o) == (t, h) && Accepted(s, o, t, h, connect)
    ensures Divides(o, h, connect, buf)
  {
    hide O.Walk, H.Walk, O.Shape, H.Shape, O.Text, H.Text, PortFits;
    O.WalkShape(connect, buf);
    O.NotDead(s, o, connect);
    if connect {
      PartsConnect(o, h);
    }
    CompleteShape(s, o, connect);
    if o.authority != [] {
      H.WalkShape('@' in o.authority, o.authority);
      H.EndsAuthority(t, h, '@' in o.authority);
    }
  }

  lemma PartsConnect(o: O.Outline, h: H.Host)
    requires Parts(o, h) == {HOST, PORT}
    ensures o.authority != [] && o.schema == [] && o.path == [] && o.query == [] && o.fragment == []
    ensures h.user == [] && h.port != []
  {
    assert HOST in Parts(o, h) && PORT in Parts(o, h) && SCHEMA !in Parts(o, h) && PATH !in Parts(o, h);
    assert QUERY !in Parts(o, h) && FRAGMENT !in Parts(o, h) && USERINFO !in Parts(o, h);
  }

  /** What the fields say after the first loop. */
  lemma FieldsMeaning(s: State, o: O.Outline, parts: set<Part>, data: map<Part, Span>, connect: bool, buf: Bytes)
    requires O.Shape(s, o, connect) && o.slashes <= 3 && O.Text(o) == buf && OutlineFields(o, parts, data)
    ensures (SCHEMA in parts <==> o.schema != []) && (HOST in parts <==> o.authority != [])
    ensures PORT !in parts && USERINFO !in parts && forall p :: p in parts ==> p in data
    ensures o.authority != [] ==>
              && data[HOST] == Span(HostAt(o), |o.authority|)
              && HostAt(o) + |o.authority| <= |buf| && buf[HostAt(o)..HostAt(o) + |o.authority|] == o.authority
  {
    hide O.Shape, O.Text;
    OutlinePlaces(o, HOST);
  }

  lemma NonEmpty(o: O.Outline, buf: Bytes)
    requires o.slashes <= 3 && O.Text(o) == buf && buf != []
    ensures o != O.EMPTY
  {
    assert O.Text(O.EMPTY) == [];
  }

  /** All fields are filled in, and that of the port holds its digits. */
  predicate FieldsDone(o: O.Outline, h: H.Host, parts: set<Part>, data: map<Part, Span>, buf: Bytes) {
    && o.slashes <= 3 && O.Text(o) == buf
    && parts == Parts(o, h) && (forall p :: p in parts ==> p in data && data[p] == PartSpan(o, h, p))
    && (PORT in parts <==> h.port != [])
    && (PORT in parts ==>
          var f := data[PORT];
          f.off + f.len <= |buf| && buf[f.off..f.off + f.len] == h.port && HttpLengths.Digits(h.port))
  }

  /** The fields once an authority, if there is one, has been divided. */
  lemma HostMeaning(o: O.Outline, t: H.HostState, h: H.Host, before: set<Part>, was: map<Part, Span>,
                    parts: set<Part>, data: map<Part, Span>, buf: Bytes)
    requires o.slashes <= 3 && O.Text(o) == buf && HostWalk(o) == (t, h) && OutlineFields(o, before, was)
    requires if o.authority == [] then parts == before && data == was
             else H.Ends(t) && HostFields(h, HostAt(o), before, was, parts, data)
    ensures FieldsDone(o, h, parts, data, buf)
  {
    hide H.Walk, O.Text, H.Text, H.Shape, H.Authority, HostFields, OutlineFields, FieldsDone;
    if o.authority != [] {
      H.WalkShape('@' in o.authority, o.authority);
      H.EndsAuthority(t, h, '@' in o.authority);
      HostDone(o, h, before, was, parts, data, buf);
    } else {
      NoHostDone(o, before, was, buf);
    }
  }

  /** Without an authority the fields are those of the outline. */
  lemma NoHostDone(o: O.Outline, parts: set<Part>, data: map<Part, Span>, buf: Bytes)
    requires o.slashes <= 3 && O.Text(o) == buf && o.authority == [] && OutlineFields(o, parts, data)
    ensures FieldsDone(o, H.NO_HOST, parts, data, buf)
  {
    hide O.Text;
  }

  lemma HostDone(o: O.Outline, h: H.Host, before: set<Part>, was: map<Part, Span>, parts: set<Part>,
                 data: map<Part, Span>, buf: Bytes)
    requires o.slashes <= 3 && O.Text(o) == buf && OutlineFields(o, before, was) && o.authority != []
    requires H.Authority(h, '@' in o.authority) && H.Text(h) == o.authority
    requires HostFields(h, HostAt(o), before, was, parts, data)
    ensures FieldsDone(o, h, parts, data, buf)
  {
    hide O.Text, H.Text, H.UserBytes, H.NameBytes, H.ZoneBytes, HostFields, PartSpan, Parts;
    FieldsBefore(o, before, was);
    HostParted(o, h, was, parts, data);
    PortPlace(o, h);
    PortSpan(o, h);
  }

  lemma FieldsBefore(o: O.Outline, before: set<Part>, was: map<Part, Span>)
    requires OutlineFields(o, before, was)
    ensures before == OutlineParts(o)
  {
  }

  lemma PortSpan(o: O.Outline, h: H.Host)
    ensures PartSpan(o, h, PORT) == HostSpan(h, HostAt(o), PORT)
  {
  }

  lemma HostParted(o: O.Outline, h: H.Host, was: map<Part, Span>, parts: set<Part>, data: map<Part, Span>)
    requires OutlineFields(o, OutlineParts(o), was) && o.authority != [] && h.name != []
    requires HostFields(h, HostAt(o), OutlineParts(o), was, parts, data)
    ensures parts == Parts(o, h) && forall p :: p in parts ==> p in data && data[p] == PartSpan(o, h, p)
    ensures PORT in parts <==> h.port != []
  {
  }

  /** The end of a prefix. */
  lemma PrefixPart(s: Bytes, a: Bytes, b: Bytes)
    requires |a| + |b| <= |s| && s[..|a| + |b|] == a + b
    ensures s[..|a|] == a && s[|a|..|a| + |b|] == b
  {
    assert s[..|a| + |b|][..|a|] == s[..|a|];
    assert s[..|a| + |b|][|a|..] == s[|a|..|a| + |b|];
  }

  /** Where eight parts of a string are. */
  lemma Chain(s: Bytes, a: Bytes, b: Bytes, c: Bytes, d: Bytes, e: Bytes, f: Bytes, g: Bytes, last: Bytes)
    requires s == a + b + c + d + e + f + g + last
    ensures s[..|a|] == a
    ensures var n := |a| + |b|; s[n..n + |c|] == c
    ensures var n := |a| + |b| + |c|; s[n..n + |d|] == d && s[n + |d|..n + |d| + |e|] == e
    ensures var n := |a| + |b| + |c| + |d| + |e|; s[n..n + |f|] == f
    ensures s[|s| - |last|..] == last
  {
    assert s[..|s|] == s;
    PrefixPart(s, a + b + c + d + e + f + g, last);
    PrefixPart(s, a + b + c + d + e + f, g);
    PrefixPart(s, a + b + c + d + e, f);
    PrefixPart(s, a + b + c + d, e);
    PrefixPart(s, a + b + c, d);
    PrefixPart(s, a + b, c);
    PrefixPart(s, a, b);
  }

  lemma Adjacent(s: Bytes, i: nat, j: nat, k: nat)
    requires i <= j <= k <= |s|
    ensures s[i..k] == s[i..j] + s[j..k]
  {
  }

  lemma HostPieces(h: H.Host)
    ensures var s := H.Text(h);
            var n := HostOff(h);
            && |h.user| <= n && n + |h.name| + |h.zone| <= |s| && s[..|h.user|] == h.user
            && s[n..n + |h.name|] == h.name && s[n + |h.name|..n + |h.name| + |h.zone|] == h.zone
            && s[|s| - |h.port|..] == h.port
  {
    hide H.Text;
    HostText(h);
    HostTextSize(h);
    Chain(H.Text(h), h.user, Mark("@", h.at), Mark("[", h.open), h.name, h.zone, Mark("]", h.close),
          Mark(":", h.colon), h.port);
  }

  function Mark(mark: Bytes, present: bool): Bytes { if present then mark else [] }

  lemma HostText(h: H.Host)
    ensures H.Text(h) == h.user + Mark("@", h.at) + Mark("[", h.open) + h.name + h.zone + Mark("]", h.close) +
                         Mark(":", h.colon) + h.port
  {
  }

  /** Where the parts of an authority are. */
  lemma HostPlaces(h: H.Host)
    ensures var s := H.Text(h);
            && |h.user| <= |s| && s[..|h.user|] == h.user
            && (var f := HostSpan(h, 0, HOST); f.off + f.len <= |s| && s[f.off..f.off + f.len] == h.name + h.zone)
            && (var f := HostSpan(h, 0, PORT); f.off + f.len <= |s| && s[f.off..f.off + f.len] == h.port)
  {
    hide H.Text, HostOff, PortOff;
    HostTextSize(h);
    HostPieces(h);
    var s, n := H.Text(h), HostOff(h);
    var host, port := HostSpan(h, 0, HOST), HostSpan(h, 0, PORT);
    assert host == Span(n, |h.name| + |h.zone|);
    Adjacent(s, n, n + |h.name|, n + host.len);
    assert s[n..n + host.len] == h.name + h.zone;
    assert port == Span(|s| - |h.port|, |h.port|);
    assert s[port.off..port.off + port.len] == s[port.off..];
  }

  /** Where the components of an outline are. */
  lemma OutlinePlaces(o: O.Outline, p: Part)
    requires o.slashes <= 3 && p != USERINFO && p != PORT
    ensures var s := O.Text(o);
            var f := OutlineSpan(o, p);
            f.off + f.len <= |s| && s[f.off..f.off + f.len] == Component(o, p)
  {
    hide O.Text, HostAt, PathAt, QueryAt, FragmentAt;
    OutlineSlices(o);
  }

  lemma OutlineSlices(o: O.Outline)
    requires o.slashes <= 3
    ensures var s := O.Text(o);
            && |o.schema| <= HostAt(o) && HostAt(o) + |o.authority| <= PathAt(o) && PathAt(o) + |o.path| <= QueryAt(o)
            && QueryAt(o) + |o.query| <= FragmentAt(o) && FragmentAt(o) + |o.fragment| == |s|
            && s[..|o.schema|] == o.schema && s[HostAt(o)..HostAt(o) + |o.authority|] == o.authority
            && s[PathAt(o)..PathAt(o) + |o.path|] == o.path && s[QueryAt(o)..QueryAt(o) + |o.query|] == o.query
            && s[FragmentAt(o)..|s|] == o.fragment
  {
    hide O.Text, O.Repeat, Mark, HostAt, PathAt, QueryAt, FragmentAt;
    OutlineText(o);
    OutlineSizes(o);
    var s := O.Text(o);
    Chain(s, o.schema, O.SLASHES[..o.slashes], o.authority, o.path, Mark("?", o.question), o.query,
          O.Repeat('#', o.hashes), o.fragment);
    assert s[FragmentAt(o)..|s|] == s[FragmentAt(o)..];
  }

  lemma OutlineSizes(o: O.Outline)
    requires o.slashes <= 3
    ensures HostAt(o) == |o.schema| + |O.SLASHES[..o.slashes]|
    ensures PathAt(o) == HostAt(o) + |o.authority|
    ensures QueryAt(o) == PathAt(o) + |o.path| + |Mark("?", o.question)|
    ensures FragmentAt(o) == QueryAt(o) + |o.query| + |O.Repeat('#', o.hashes)|
    ensures |O.Text(o)| == FragmentAt(o) + |o.fragment|
  {
    TextSize(o);
  }

  lemma OutlineText(o: O.Outline)
    requires o.slashes <= 3
    ensures O.Text(o) == o.schema + O.SLASHES[..o.slashes] + o.authority + o.path + Mark("?", o.question) + o.query +
                         O.Repeat('#', o.hashes) + o.fragment
  {
  }

  function Component(o: O.Outline, p: Part): Bytes {
    match p
    case SCHEMA => o.schema
    case HOST => o.authority
    case PATH => o.path
    case QUERY => o.query
    case FRAGMENT => o.fragment
    case _ => []
  }

  /** A stretch of the authority is a stretch of the URL. */
  lemma AuthorityPlace(o: O.Outline, off: nat, len: nat)
    requires o.slashes <= 3 && off + len <= |o.authority|
    ensures HostAt(o) + off + len <= |O.Text(o)|
    ensures O.Text(o)[HostAt(o) + off..HostAt(o) + off + len] == o.authority[off..off + len]
  {
    hide O.Text;
    OutlinePlaces(o, HOST);
    var s := O.Text(o);
    var f := OutlineSpan(o, HOST);
    assert s[f.off..f.off + f.len][off..off + len] == s[f.off + off..f.off + off + len];
  }

  /** The port field holds the digits of the port. */
  lemma PortPlace(o: O.Outline, h: H.Host)
    requires o.slashes <= 3 && H.Text(h) == o.authority
    ensures var f := HostSpan(h, HostAt(o), PORT);
            f.off + f.len <= |O.Text(o)| && O.Text(o)[f.off..f.off + f.len] == h.port
  {
    hide O.Text, H.Text;
    HostPlaces(h);
    AuthorityPlace(o, PortOff(h), |h.port|);
  }

  // A division is a partition

  /** The bytes of a field of a division are those of the part it is for; so the fields lie inside the URL. */
  lemma FieldBytes(o: O.Outline, h: H.Host, connect: bool, buf: Bytes, p: Part)
    requires Divides(o, h, connect, buf) && p in Parts(o, h)
    ensures var f := PartSpan(o, h, p);
            f.off + f.len <= |buf| && f.len > 0 && buf[f.off..f.off + f.len] == PartBytes(o, h, p)
  {
    hide O.Text, H.Text, Complete, H.Authority, PortFits, Parts;
    if p.HOST? || p.PORT? || p.USERINFO? {
      HostFieldBytes(o, h, connect, p);
    } else {
      OutlinePlaces(o, p);
      OutlinePresent(o, h, p);
    }
  }

  lemma OutlinePresent(o: O.Outline, h: H.Host, p: Part)
    requires p in Parts(o, h) && !p.HOST? && !p.PORT? && !p.USERINFO?
    ensures Component(o, p) != []
  {
  }

  lemma HostFieldBytes(o: O.Outline, h: H.Host, connect: bool, p: Part)
    requires o.slashes <= 3 && Grammar(o, h, connect) && p in Parts(o, h) && (p.HOST? || p.PORT? || p.USERINFO?)
    ensures var f := PartSpan(o, h, p);
            f.off + f.len <= |O.Text(o)| && f.len > 0 && O.Text(o)[f.off..f.off + f.len] == PartBytes(o, h, p)
  {
    hide O.Text, H.Text, Grammar, Parts;
    NoHostNoParts(o, h, connect, p);
    HostPlaces(h);
    var f := HostSpan(h, 0, p);
    AuthorityPlace(o, f.off, f.len);
  }

  lemma NoHostNoParts(o: O.Outline, h: H.Host, connect: bool, p: Part)
    requires Grammar(o, h, connect) && p in Parts(o, h) && (p.HOST? || p.PORT? || p.USERINFO?)
    ensures o.authority != [] && H.Text(h) == o.authority && PartBytes(o, h, p) != []
  {
    hide O.Classes, H.Classes, PortFits, O.Front, H.Text;
  }

  /** No two fields overlap: of two fields the one that comes first in the URL ends before the other begins. */
  lemma FieldsApart(o: O.Outline, h: H.Host, connect: bool, p: Part, q: Part)
    requires o.slashes <= 3 && Grammar(o, h, connect) && p in Parts(o, h) && q in Parts(o, h) && Rank(p) < Rank(q)
    ensures PartSpan(o, h, p).off + PartSpan(o, h, p).len <= PartSpan(o, h, q).off
  {
    hide O.Classes, H.Classes, PortFits, O.Front;
    if o.authority != [] {
      HostTextSize(h);
    }
  }

  /** The order of the fields in a URL. */
  function Rank(p: Part): nat {
    match p
    case SCHEMA => 0
    case USERINFO => 1
    case HOST => 2
    case PORT => 3
    case PATH => 4
    case QUERY => 5
    case FRAGMENT => 6
  }

  predicate Inside(i: nat, f: Span) { f.off <= i < f.off + f.len }

  /** A byte of a URL is a byte of a component, or a delimiter between two. */
  lemma OutlineByte(o: O.Outline, i: nat)
    requires o.slashes <= 3 && i < |O.Text(o)|
    ensures O.Text(o)[i] in ":/?#" || exists p :: p in OutlineParts(o) && Inside(i, OutlineSpan(o, p))
  {
    var at, path, query, fragment := HostAt(o), PathAt(o), QueryAt(o), FragmentAt(o);
    if i < |o.schema| {
      assert SCHEMA in OutlineParts(o) && Inside(i, OutlineSpan(o, SCHEMA));
    } else if i < at {
      assert O.Text(o)[i] == O.SLASHES[i - |o.schema|];
    } else if i < path {
      assert HOST in OutlineParts(o) && Inside(i, OutlineSpan(o, HOST));
    } else if i < path + |o.path| {
      assert PATH in OutlineParts(o) && Inside(i, OutlineSpan(o, PATH));
    } else if i < query {
      assert O.Text(o)[i] == '?';
    } else if i < query + |o.query| {
      assert QUERY in OutlineParts(o) && Inside(i, OutlineSpan(o, QUERY));
    } else if i < fragment {
      assert O.Text(o)[i] == '#';
    } else {
      assert FRAGMENT in OutlineParts(o) && Inside(i, OutlineSpan(o, FRAGMENT));
    }
  }

  /** A byte of an authority belongs to the user, the host or the port, or is a delimiter. */
  lemma HostByte(h: H.Host, i: nat)
    requires i < |H.Text(h)| && h.name != []
    ensures H.Text(h)[i] in "@[]:" || exists p :: p in HostParts(h) + {HOST} && Inside(i, HostSpan(h, 0, p))
  {
    var n, port := HostOff(h), PortOff(h);
    if i < |h.user| {
      assert USERINFO in HostParts(h) + {HOST} && Inside(i, HostSpan(h, 0, USERINFO));
    } else if i < n {
      assert H.Text(h)[i] in "@[";
    } else if i < n + |h.name| + |h.zone| {
      assert HOST in HostParts(h) + {HOST} && Inside(i, HostSpan(h, 0, HOST));
    } else if i < port {
      assert H.Text(h)[i] in "]:";
    } else {
      assert PORT in HostParts(h) + {HOST} && Inside(i, HostSpan(h, 0, PORT));
    }
  }

  /** What is between the fields are the delimiters of the grammar. */
  lemma Delimiters(o: O.Outline, h: H.Host, connect: bool, buf: Bytes, i: nat)
    requires Divides(o, h, connect, buf) && i < |buf|
    requires forall p :: p in Parts(o, h) ==> !Inside(i, PartSpan(o, h, p))
    ensures buf[i] in ":/?#@[]"
  {
    hide O.Text, H.Text, Complete, H.Authority, PortFits, HostSpan, OutlineSpan;
    OutlineByte(o, i);
    if buf[i] !in ":/?#" {
      var p :| p in OutlineParts(o) && Inside(i, OutlineSpan(o, p));
      if p == HOST {
        AuthorityByte(o, h, connect, i);
      } else {
        PartsOf(o, h, p);
        assert false;
      }
    }
  }

  lemma PartsOf(o: O.Outline, h: H.Host, p: Part)
    requires p in OutlineParts(o) && p != HOST
    ensures p in Parts(o, h) && PartSpan(o, h, p) == OutlineSpan(o, p)
  {
  }

  lemma HostPartOf(o: O.Outline, h: H.Host, k: nat, p: Part)
    requires p in HostParts(h) + {HOST} && Inside(k, HostSpan(h, 0, p)) && o.authority != []
    ensures p in Parts(o, h) && Inside(HostAt(o) + k, PartSpan(o, h, p))
  {
  }

  lemma AuthorityByte(o: O.Outline, h: H.Host, connect: bool, i: nat)
    requires o.slashes <= 3 && Grammar(o, h, connect) && i < |O.Text(o)| && Inside(i, OutlineSpan(o, HOST))
    requires forall p :: p in Parts(o, h) ==> !Inside(i, PartSpan(o, h, p))
    ensures O.Text(o)[i] in "@[]:"
  {
    hide O.Text, H.Text, Complete, PortFits;
    var k := i - HostAt(o);
    OutlinePlaces(o, HOST);
    AuthorityPlace(o, k, 1);
    assert o.authority[k..k + 1] == [o.authority[k]] && O.Text(o)[i..i + 1] == [O.Text(o)[i]];
    HostByte(h, k);
    if o.authority[k] !in "@[]:" {
      var p :| p in HostParts(h) + {HOST} && Inside(k, HostSpan(h, 0, p));
      HostPartOf(o, h, k, p);
      assert false;
    }
  }

  /** A URL that has a schema has a host that is not empty. */
  lemma SchemaHost(o: O.Outline, h: H.Host, connect: bool)
    requires Grammar(o, h, connect) && SCHEMA in Parts(o, h)
    ensures HOST in Parts(o, h) && h.name != []
  {
    hide O.Classes, H.Classes, PortFits;
  }

  /** CONNECT accepts more than a host and a port: the tests look at the fields only, and an empty query or
      fragment leaves none.  What is accepted is a host and a port if and only if there is no ? in it. */
  lemma ConnectExact(o: O.Outline, h: H.Host, buf: Bytes)
    requires Divides(o, h, true, buf)
    ensures buf == H.Text(h) <==> '?' !in buf
    ensures '?' in buf <==> o.question
    ensures buf == H.Text(h) + (if o.question then "?" else []) + O.Repeat('#', o.hashes)
    ensures h.user == [] && h.name != [] && h.port != [] && (o.hashes > 0 ==> o.question)
  {
    hide H.Text, PortFits;
    var mark: Bytes := if o.question then "?" else [];
    assert O.SLASHES[..0] == [];
    assert buf == o.authority + mark + O.Repeat('#', o.hashes);
    NoQuestion(o.authority);
    if o.question {
      assert buf[|o.authority|] == '?';
    } else {
      assert buf == o.authority;
    }
  }

  lemma NoQuestion(b: Bytes)
    requires O.Authority(b)
    ensures '?' !in b
  {
    assert !O.AuthorityChar('?');
  }

  /** A URL that is accepted for CONNECT and is not a host and a port. */
  lemma ConnectTail()
    ensures exists o, h :: Divides(o, h, true, "a:1?##")
  {
    var o := O.Outline([], 0, "a:1", [], true, [], 2, []);
    var h := H.Host([], false, false, "a", [], false, true, "1");
    assert O.Repeat('#', 2) == "##";
    assert HttpLengths.Decimal("1") == 1 by { HttpLengths.DecimalOne('1'); }
    assert Divides(o, h, true, "a:1?##");
  }
}
