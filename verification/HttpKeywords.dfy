/** The keyword recognisers: request methods, header names, and the chunked transfer coding.  Each is
    compared with the list of words it stands for. */
module HttpKeywords {
  import opened HttpTypes
  import opened HttpMachine

  // Methods

  /** The guess the matcher holds after i bytes of the name of t. */
  function GuessFor(t: Method, i: nat): Method {
    match t
    case PUT => if i < 2 then POST else t
    case PATCH => if i < 2 then POST else t
    case PROPFIND => if i < 2 then POST else t
    case PROPPATCH => if i < 2 then POST else if i < 5 then PROPFIND else t
    case PURGE => if i < 2 then POST else if i < 3 then PUT else t
    case CHECKOUT => if i < 2 then CONNECT else t
    case COPY => if i < 3 then CONNECT else t
    case MOVE => if i < 2 then MKCOL else t
    case MERGE => if i < 2 then MKCOL else t
    case MSEARCH => if i < 2 then MKCOL else t
    case MKACTIVITY => if i < 3 then MKCOL else t
    case MKCALENDAR => if i < 4 then MKCOL else t
    case SEARCH => if i < 2 then SUBSCRIBE else t
    case SOURCE => if i < 2 then SUBSCRIBE else t
    case REBIND => if i < 3 then REPORT else t
    case LINK => if i < 2 then LOCK else t
    case UNSUBSCRIBE => if i < 3 then UNLOCK else t
    case UNBIND => if i < 3 then UNLOCK else t
    case UNLINK => if i < 4 then UNLOCK else t
    case _ => t
  }

  lemma GuessFirst(t: Method)
    ensures MethodLetter(MethodName(t)[0]) && FirstMethod(MethodName(t)[0]) == GuessFor(t, 1)
  {
    hide FirstMethod, GuessFor;
    FirstLetter(t);
    FirstGuess(t);
  }

  lemma FirstLetter(t: Method)
    ensures MethodLetter(MethodName(t)[0])
  {
  }

  /** The methods that are guessed from a first letter. */
  predicate Guessed(t: Method) {
    t.ACL? || t.BIND? || t.CONNECT? || t.DELETE? || t.GET? || t.HEAD? || t.LOCK? || t.MKCOL? || t.NOTIFY? ||
    t.OPTIONS? || t.POST? || t.REPORT? || t.SUBSCRIBE? || t.TRACE? || t.UNLOCK?
  }

  lemma FirstGuess(t: Method)
    requires MethodLetter(MethodName(t)[0])
    ensures FirstMethod(MethodName(t)[0]) == GuessFor(t, 1)
  {
    hide MethodLetter, MethodName, FirstMethod, GuessFor, Guessed;
    FirstGuessed(t);
    GuessedLetter(GuessFor(t, 1));
  }

  lemma FirstGuessed(t: Method)
    ensures Guessed(GuessFor(t, 1)) && MethodName(GuessFor(t, 1))[0] == MethodName(t)[0]
  {
  }

  lemma GuessedLetter(t: Method)
    requires Guessed(t) && MethodLetter(MethodName(t)[0])
    ensures FirstMethod(MethodName(t)[0]) == t
  {
    hide MethodLetter;
  }

  /** The next byte of the name of t either continues the name guessed so far or leads to the next guess. */
  predicate Continues(g: Method, i: nat, c: Byte, next: Method) {
    if i < |MethodName(g)| && c == MethodName(g)[i] then next == g else OtherMethod(g, i, c) == Guess(next)
  }

  lemma GuessNext(t: Method, i: nat)
    requires 1 <= i < |MethodName(t)|
    ensures Continues(GuessFor(t, i), i, MethodName(t)[i], GuessFor(t, i + 1))
    ensures 'A' <= MethodName(t)[i] <= 'Z' || MethodName(t)[i] == '-'
  {
    hide MethodName, OtherMethod, GuessFor;
    NameByte(t, i);
    if i < 5 {
      GuessEarly(t, i);
    } else {
      GuessLate(t, i);
      GuessLate(t, i + 1);
    }
  }

  lemma NameByte(t: Method, i: nat)
    requires 1 <= i < |MethodName(t)|
    ensures 'A' <= MethodName(t)[i] <= 'Z' || MethodName(t)[i] == '-'
  {
  }

  lemma GuessEarly(t: Method, i: nat)
    requires 1 <= i < |MethodName(t)| && i < 5
    ensures Continues(GuessFor(t, i), i, MethodName(t)[i], GuessFor(t, i + 1))
  {
  }

  /** No name needs a sixth byte to be told from the others. */
  lemma GuessLate(t: Method, i: nat)
    requires i >= 5
    ensures GuessFor(t, i) == t
  {
  }

  lemma GuessLast(t: Method)
    ensures GuessFor(t, |MethodName(t)|) == t
  {
  }

  /** A new guess agrees with the bytes read so far. */
  lemma OtherAgrees(g: Method, i: nat, c: Byte)
    requires i <= |MethodName(g)| && OtherMethod(g, i, c).Guess?
    ensures var t := OtherMethod(g, i, c).guess;
            && i < |MethodName(t)| && MethodName(t)[i] == c
            && forall j :: 0 <= j < i ==> MethodName(t)[j] == MethodName(g)[j]
  {
    hide OtherMethod, MethodName;
    OtherLast(g, i, c);
    OtherBefore(g, i, c);
  }

  lemma OtherLast(g: Method, i: nat, c: Byte)
    requires OtherMethod(g, i, c).Guess?
    ensures var t := OtherMethod(g, i, c).guess; i < |MethodName(t)| && MethodName(t)[i] == c
  {
    hide OtherMethod, MethodName;
    if g.POST? || g.PUT? || g.CONNECT? || g.MKCOL? {
      OtherLastFirst(g, i, c);
    } else {
      OtherLastRest(g, i, c);
    }
  }

  lemma OtherLastFirst(g: Method, i: nat, c: Byte)
    requires OtherMethod(g, i, c).Guess? && (g.POST? || g.PUT? || g.CONNECT? || g.MKCOL?)
    ensures var t := OtherMethod(g, i, c).guess; i < |MethodName(t)| && MethodName(t)[i] == c
  {
  }

  lemma OtherLastRest(g: Method, i: nat, c: Byte)
    requires OtherMethod(g, i, c).Guess? && !(g.POST? || g.PUT? || g.CONNECT? || g.MKCOL?)
    ensures var t := OtherMethod(g, i, c).guess; i < |MethodName(t)| && MethodName(t)[i] == c
  {
  }

  lemma OtherBefore(g: Method, i: nat, c: Byte)
    requires i <= |MethodName(g)| && OtherMethod(g, i, c).Guess?
    ensures var t := OtherMethod(g, i, c).guess;
            i <= |MethodName(t)| && forall j :: 0 <= j < i ==> MethodName(t)[j] == MethodName(g)[j]
  {
    hide OtherMethod, MethodName;
    if g.POST? || g.PUT? || g.CONNECT? || g.MKCOL? {
      OtherBeforeFirst(g, i, c);
    } else {
      OtherBeforeRest(g, i, c);
    }
  }

  lemma OtherBeforeFirst(g: Method, i: nat, c: Byte)
    requires i <= |MethodName(g)| && OtherMethod(g, i, c).Guess? && (g.POST? || g.PUT? || g.CONNECT? || g.MKCOL?)
    ensures var t := OtherMethod(g, i, c).guess;
            i <= |MethodName(t)| && forall j :: 0 <= j < i ==> MethodName(t)[j] == MethodName(g)[j]
  {
  }

  lemma OtherBeforeRest(g: Method, i: nat, c: Byte)
    requires i <= |MethodName(g)| && OtherMethod(g, i, c).Guess? && !(g.POST? || g.PUT? || g.CONNECT? || g.MKCOL?)
    ensures var t := OtherMethod(g, i, c).guess;
            i <= |MethodName(t)| && forall j :: 0 <= j < i ==> MethodName(t)[j] == MethodName(g)[j]
  {
  }

  lemma FirstAgrees(c: Byte)
    requires MethodLetter(c)
    ensures MethodName(FirstMethod(c))[0] == c
  {
    hide MethodName, FirstMethod;
    if c <= 'L' {
      FirstAgreesLow(c);
    } else {
      FirstAgreesHigh(c);
    }
  }

  lemma FirstAgreesLow(c: Byte)
    requires MethodLetter(c) && c <= 'L'
    ensures MethodName(FirstMethod(c))[0] == c
  {
  }

  lemma FirstAgreesHigh(c: Byte)
    requires MethodLetter(c) && c > 'L'
    ensures MethodName(FirstMethod(c))[0] == c
  {
  }

  /** Everything the matcher keeps while it reads a token: its guess has the bytes read as a prefix. */
  predicate InMethod(m: Machine, token: Bytes) {
    && m.state.ReqMethod? && m.errno == OK && !m.exited
    && m.index == |token| <= |MethodName(m.requestMethod)|
    && token == MethodName(m.requestMethod)[..|token|]
  }

  lemma NextInMethod(m: Machine, token: Bytes, ch: Byte)
    requires InMethod(m, token) && ch != ' '
    ensures StepMethod(m, ch).errno == OK ==> InMethod(StepMethod(m, ch), token + [ch])
    ensures StepMethod(m, ch).errno in {OK, INVALID_METHOD}
  {
    hide MethodName, OtherMethod;
    var name := MethodName(m.requestMethod);
    if m.index < |name| && ch == name[m.index] {
      assert name[..m.index] + [ch] == name[..m.index + 1];
    } else if OtherMethod(m.requestMethod, m.index, ch).Guess? {
      OtherAgrees(m.requestMethod, m.index, ch);
      var other := MethodName(OtherMethod(m.requestMethod, m.index, ch).guess);
      assert token + [ch] == other[..m.index + 1];
    }
  }

  /** Whatever has been accepted of a method token is the beginning of the name of the method guessed. */
  lemma {:induction false} MethodPrefix(m: Machine, token: Bytes, rest: Bytes)
    requires InMethod(m, token) && ' ' !in rest && m.nread + |rest| <= MAX_HEADER_SIZE
    ensures var r := Run(m, rest);
            && r.nread <= m.nread + |rest|
            && if r.errno == OK then InMethod(r, token + rest) else r.errno == INVALID_METHOD
    decreases |rest|
  {
    hide StepMethod, InMethod, MethodName;
    if rest == [] {
      assert token + rest == token;
      assert m.errno == OK by { assert InMethod(m, token); InMethodOk(m, token); }
    } else {
      InMethodOk(m, token);
      var r := Count(m);
      InMethodCount(m, token);
      NextInMethod(r, token, rest[0]);
      var s := StepMethod(r, rest[0]);
      assert Step(m, rest[0]) == s;
      MethodCount(r, rest[0]);
      if s.errno == OK {
        MethodPrefix(s, token + [rest[0]], rest[1..]);
        assert token + [rest[0]] + rest[1..] == token + rest;
      }
    }
  }

  lemma InMethodOk(m: Machine, token: Bytes)
    ensures InMethod(m, token) ==> m.errno == OK && !Stopped(m) && m.state.ReqMethod?
  {
  }

  lemma InMethodCount(m: Machine, token: Bytes)
    requires InMethod(m, token)
    ensures InMethod(Count(m), token) && Count(m).nread == m.nread + 1
  {
  }

  lemma MethodCount(m: Machine, ch: Byte)
    ensures StepMethod(m, ch).nread == m.nread && StepMethod(m, ch).exited == m.exited
  {
    hide MethodName, OtherMethod;
  }

  /** Every name is accepted as far as it is read. */
  lemma {:induction false} MethodComplete(m: Machine, t: Method, i: nat)
    requires m.state.StartReq? && !Stopped(m) && 1 <= i <= |MethodName(t)| && m.nread + i <= MAX_HEADER_SIZE
    ensures Run(m, MethodName(t)[..i]) ==
            m.(state := ReqMethod, index := i, nread := m.nread + i, requestMethod := GuessFor(t, i),
               flags := NO_FLAGS, contentLength := NO_LENGTH, trace := Push(m.trace, MessageBegin))
  {
    hide MethodName, GuessFor, Run, Consumed, FirstMethod, MethodLetter, Continues, Step, Push;
    var name := MethodName(t);
    if i == 1 {
      GuessFirst(t);
      assert name[..1] == [name[0]];
      RunOne(m, name[0]);
      LetterPlain(name[0]);
      StartByte(m, name[0]);
    } else {
      MethodComplete(m, t, i - 1);
      GuessNext(t, i - 1);
      var r := Run(m, name[..i - 1]);
      assert name[..i] == name[..i - 1] + [name[i - 1]];
      RunConcat(m, name[..i - 1], [name[i - 1]]);
      RunOne(r, name[i - 1]);
      NextByte(r, name[i - 1], GuessFor(t, i));
    }
  }

  lemma StartByte(m: Machine, c: Byte)
    requires m.state.StartReq? && !Stopped(m) && MethodLetter(c) && c != CR && c != LF && m.nread < MAX_HEADER_SIZE
    ensures Step(m, c) ==
            m.(state := ReqMethod, index := 1, nread := m.nread + 1, requestMethod := FirstMethod(c),
               flags := NO_FLAGS, contentLength := NO_LENGTH, trace := Push(m.trace, MessageBegin))
  {
    hide FirstMethod, MethodLetter, Push;
  }

  lemma NextByte(m: Machine, c: Byte, next: Method)
    requires m.state.ReqMethod? && !Stopped(m) && m.nread < MAX_HEADER_SIZE
    requires Continues(m.requestMethod, m.index, c, next) && ('A' <= c <= 'Z' || c == '-')
    ensures Step(m, c) == m.(index := m.index + 1, nread := m.nread + 1, requestMethod := next)
  {
    var r := m.(nread := m.nread + 1);
    MethodStep(m, c);
    hide MethodName, OtherMethod, Step;
    assert StepMethod(r, c) == r.(index := m.index + 1, requestMethod := next);
  }

  lemma MethodStep(m: Machine, c: Byte)
    requires m.state.ReqMethod? && !Stopped(m) && m.nread < MAX_HEADER_SIZE
    ensures Step(m, c) == StepMethod(m.(nread := m.nread + 1), c)
  {
    hide StepMethod;
  }

  lemma LetterPlain(c: Byte)
    requires MethodLetter(c)
    ensures c != CR && c != LF
  {
  }

  /** The first byte of a request decides the first guess. */
  lemma FirstByte(m: Machine, c: Byte)
    requires m.state.StartReq? && !Stopped(m) && c != CR && c != LF && m.nread < MAX_HEADER_SIZE
    ensures var s := Step(m, c);
            if MethodLetter(c) then InMethod(s, [c]) && s.nread == m.nread + 1 else s.errno == INVALID_METHOD
  {
    hide MethodName, FirstMethod, MethodLetter, Push;
    if MethodLetter(c) {
      FirstAgrees(c);
      NameNonempty(FirstMethod(c));
      assert MethodName(FirstMethod(c))[..1] == [c];
    }
  }

  lemma NameNonempty(t: Method)
    ensures |MethodName(t)| >= 3
  {
  }

  /** The space after a token. */
  lemma SpaceByte(m: Machine, token: Bytes)
    requires InMethod(m, token) && m.nread < MAX_HEADER_SIZE
    ensures var r := Step(m, ' ');
            if token == MethodName(m.requestMethod)
            then r.errno == OK && r.state.ReqSpacesBeforeUrl? && r.requestMethod == m.requestMethod
            else r.errno == INVALID_METHOD
  {
    hide MethodName, OtherMethod;
    NoSpace(m.requestMethod, m.index);
  }

  lemma NoSpace(t: Method, i: nat)
    ensures i < |MethodName(t)| ==> MethodName(t)[i] != ' '
    ensures OtherMethod(t, i, ' ').NoGuess?
  {
    hide OtherMethod, MethodName;
    NoSpaceGuess(t, i);
    if i < |MethodName(t)| {
      NoSpaceName(t, i);
    }
  }

  lemma NoSpaceName(t: Method, i: nat)
    requires i < |MethodName(t)|
    ensures MethodName(t)[i] != ' '
  {
  }

  lemma NoSpaceGuess(t: Method, i: nat)
    ensures OtherMethod(t, i, ' ').NoGuess?
  {
  }

  lemma MethodSound(m: Machine, token: Bytes)
    requires m.state.StartReq? && !Stopped(m) && token != [] && ' ' !in token && token[0] != CR && token[0] != LF
    requires m.nread + |token| < MAX_HEADER_SIZE
    ensures var r := Run(m, token);
            if r.errno == OK then InMethod(r, token) && r.nread < MAX_HEADER_SIZE else r.errno == INVALID_METHOD
  {
    hide MethodLetter, InMethod, Step;
    var s := Step(m, token[0]);
    FirstByte(m, token[0]);
    assert [token[0]] + token[1..] == token;
    if MethodLetter(token[0]) {
      MethodPrefix(s, [token[0]], token[1..]);
    } else {
      RunStopped(s, token[1..]);
    }
  }

  /** One of the 34 names. */
  predicate MethodToken(token: Bytes) {
    token == "DELETE" || token == "GET" || token == "HEAD" || token == "POST" || token == "PUT" ||
    token == "CONNECT" || token == "OPTIONS" || token == "TRACE" || token == "COPY" || token == "LOCK" ||
    token == "MKCOL" || token == "MOVE" || token == "PROPFIND" || token == "PROPPATCH" || token == "SEARCH" ||
    token == "UNLOCK" || token == "BIND" || token == "REBIND" || token == "UNBIND" || token == "ACL" ||
    token == "REPORT" || token == "MKACTIVITY" || token == "CHECKOUT" || token == "MERGE" || token == "M-SEARCH" ||
    token == "NOTIFY" || token == "SUBSCRIBE" || token == "UNSUBSCRIBE" || token == "PATCH" || token == "PURGE" ||
    token == "MKCALENDAR" || token == "LINK" || token == "UNLINK" || token == "SOURCE"
  }

  lemma MethodTokens(token: Bytes)
    ensures (exists m :: MethodName(m) == token) <==> MethodToken(token)
  {
    forall m | MethodName(m) == token ensures MethodToken(token) {
    }
    BaseMethods();
    LockMethods();
    BindMethods();
    ReportMethods();
    SearchMethods();
    LinkMethods();
    hide MethodName;
  }

  lemma BaseMethods()
    ensures MethodName(DELETE) == "DELETE" && MethodName(GET) == "GET"
    ensures MethodName(HEAD) == "HEAD" && MethodName(POST) == "POST"
    ensures MethodName(PUT) == "PUT" && MethodName(CONNECT) == "CONNECT"
    ensures MethodName(OPTIONS) == "OPTIONS" && MethodName(TRACE) == "TRACE"
  {
  }

  lemma LockMethods()
    ensures MethodName(COPY) == "COPY" && MethodName(LOCK) == "LOCK"
    ensures MethodName(MKCOL) == "MKCOL" && MethodName(MOVE) == "MOVE"
    ensures MethodName(PROPFIND) == "PROPFIND" && MethodName(PROPPATCH) == "PROPPATCH"
    ensures MethodName(SEARCH) == "SEARCH" && MethodName(UNLOCK) == "UNLOCK"
  {
  }

  lemma BindMethods()
    ensures MethodName(BIND) == "BIND" && MethodName(REBIND) == "REBIND"
    ensures MethodName(UNBIND) == "UNBIND" && MethodName(ACL) == "ACL"
  {
  }

  lemma ReportMethods()
    ensures MethodName(REPORT) == "REPORT" && MethodName(MKACTIVITY) == "MKACTIVITY"
    ensures MethodName(CHECKOUT) == "CHECKOUT" && MethodName(MERGE) == "MERGE"
  {
  }

  lemma SearchMethods()
    ensures MethodName(MSEARCH) == "M-SEARCH" && MethodName(NOTIFY) == "NOTIFY"
    ensures MethodName(SUBSCRIBE) == "SUBSCRIBE" && MethodName(UNSUBSCRIBE) == "UNSUBSCRIBE"
  {
  }

  lemma LinkMethods()
    ensures MethodName(PATCH) == "PATCH" && MethodName(PURGE) == "PURGE"
    ensures MethodName(MKCALENDAR) == "MKCALENDAR" && MethodName(LINK) == "LINK"
    ensures MethodName(UNLINK) == "UNLINK" && MethodName(SOURCE) == "SOURCE"
  {
  }

  /** The matcher accepts a token followed by a space exactly when the token is one of the 34 names, and
      then the method is the one with that name. */
  lemma MethodExact(m: Machine, token: Bytes)
    requires m.state.StartReq? && !Stopped(m) && token != [] && ' ' !in token && token[0] != CR && token[0] != LF
    requires m.nread + |token| < MAX_HEADER_SIZE
    ensures var r := Run(m, token + [' ']);
            && (r.errno == OK <==> MethodToken(token))
            && (r.errno == OK ==> r.state.ReqSpacesBeforeUrl? && MethodName(r.requestMethod) == token)
            && (r.errno != OK ==> r.errno == INVALID_METHOD)
  {
    MethodTokens(token);
    hide MethodToken, MethodName, Run, Consumed, GuessFor, InMethod, Step;
    var r := Run(m, token);
    RunConcat(m, token, [' ']);
    MethodSound(m, token);
    if r.errno == OK {
      InMethodOk(r, token);
      RunOne(r, ' ');
      SpaceByte(r, token);
    } else {
      RunStopped(r, [' ']);
    }
    if t :| MethodName(t) == token {
      assert MethodName(t)[..|token|] == token;
      MethodComplete(m, t, |token|);
      GuessLast(t);
    }
  }

  // Header names

  /** A header name with its letters in lower case. */
  function LowerName(name: Bytes): (low: Bytes)
    ensures |low| == |name|
  {
    seq(|name|, i requires 0 <= i < |name| => TokenChar(name[i]))
  }

  /** What a header name, or the beginning of one, is known to be: written without the matcher. */
  function NameClass(low: Bytes): HeaderState {
    if low == CONNECTION || low == PROXY_CONNECTION then Connection
    else if low == CONTENT_LENGTH then ContentLength
    else if low == TRANSFER_ENCODING then TransferEncoding
    else if low == UPGRADE then Upgrade
    else if Starts(low, CONNECTION) || Starts(low, CONTENT_LENGTH) then
      if |low| == 1 then C
      else if |low| == 2 then CO
      else if |low| == 3 then CON
      else if Starts(low, CONNECTION) then MatchingConnection
      else MatchingContentLength
    else if Starts(low, PROXY_CONNECTION) then MatchingProxyConnection
    else if Starts(low, TRANSFER_ENCODING) then MatchingTransferEncoding
    else if Starts(low, UPGRADE) then MatchingUpgrade
    else General
  }

  /** low is a nonempty prefix of the word. */
  predicate Starts(low: Bytes, word: Bytes) { 0 < |low| <= |word| && low[0] == word[0] && low == word[..|low|] }

  lemma StartsSnoc(low: Bytes, word: Bytes, c: Byte)
    requires low != []
    ensures Starts(low + [c], word) <==> Starts(low, word) && |low| < |word| && word[|low|] == c
    ensures low + [c] == word <==> Starts(low, word) && |low| + 1 == |word| && word[|low|] == c
    ensures low == word ==> Starts(low, word)
    ensures Starts(low, word) && |low| == |word| ==> low == word
  {
    var l := low + [c];
    if |l| <= |word| {
      assert word[..|l|] == word[..|low|] + [word[|low|]];
      if l == word[..|l|] {
        assert l[..|low|] == low && word[..|l|][..|low|] == word[..|low|];
      }
    }
  }

  /** One byte of a name moves the matcher from what the bytes so far are to what they are with it. */
  lemma NextClass(low: Bytes, c: Byte)
    requires low != []
    ensures FieldByte(NameClass(low), |low|, c) == NameClass(low + [c])
  {
    hide Starts;
    StartsSnoc(low, CONNECTION, c);
    StartsSnoc(low, PROXY_CONNECTION, c);
    StartsSnoc(low, CONTENT_LENGTH, c);
    StartsSnoc(low, TRANSFER_ENCODING, c);
    StartsSnoc(low, UPGRADE, c);
    StartsApart(low);
  }

  /** Two of the words share a beginning, and only its first three bytes. */
  lemma StartsApart(low: Bytes)
    requires low != []
    ensures Starts(low, CONNECTION) || Starts(low, CONTENT_LENGTH) ==> low[0] == 'c'
    ensures Starts(low, PROXY_CONNECTION) ==> low[0] == 'p'
    ensures Starts(low, TRANSFER_ENCODING) ==> low[0] == 't'
    ensures Starts(low, UPGRADE) ==> low[0] == 'u'
    ensures Starts(low, CONNECTION) && Starts(low, CONTENT_LENGTH) ==> |low| <= 3
    ensures |low| <= 3 ==> (Starts(low, CONNECTION) <==> Starts(low, CONTENT_LENGTH))
  {
    assert CONNECTION[..1] == CONTENT_LENGTH[..1];
    assert CONNECTION[..2] == CONTENT_LENGTH[..2];
    assert CONNECTION[..3] == CONTENT_LENGTH[..3];
    if |low| > 3 && Starts(low, CONNECTION) {
      assert low[3] == CONNECTION[..|low|][3] == 'n';
    }
    if |low| > 3 && Starts(low, CONTENT_LENGTH) {
      assert low[3] == CONTENT_LENGTH[..|low|][3] == 't';
    }
  }

  lemma FirstClass(c: Byte)
    ensures FieldFirst(c) == NameClass([c])
  {
    assert [c][..1] == [c];
  }

  predicate TokenName(name: Bytes) { name != [] && forall i :: 0 <= i < |name| ==> IsToken(name[i]) }

  /** A header name ends in the state of a special header exactly when it is the name of that header in
      any mixture of cases. */
  lemma {:induction false} NameExact(m: Machine, name: Bytes)
    requires m.state.HeaderFieldStart? && !Stopped(m) && TokenName(name) && m.nread + |name| <= MAX_HEADER_SIZE
    ensures var r := Run(m, name);
            var low := LowerName(name);
            && r == m.(state := HeaderField, nread := m.nread + |name|, index := r.index, headerState := r.headerState,
                       trace := Push(m.trace, Field(name)))
            && r.headerState == NameClass(low)
            && (FieldIndexed(r.headerState) ==> r.index == |name| - 1)
            && (r.headerState.Connection? <==> low == CONNECTION || low == PROXY_CONNECTION)
            && (r.headerState.ContentLength? <==> low == CONTENT_LENGTH)
            && (r.headerState.TransferEncoding? <==> low == TRANSFER_ENCODING)
            && (r.headerState.Upgrade? <==> low == UPGRADE)
  {
    hide Run, Consumed, Step, TokenChar, IsToken, FieldFirst, FieldByte, Starts, NameClass, FieldIndexed, Push;
    var n := |name| - 1;
    assert name == name[..n] + [name[n]];
    RunConcat(m, name[..n], [name[n]]);
    if n == 0 {
      RunOne(m, name[0]);
      NameFirst(m, name[0]);
      FirstClass(TokenChar(name[0]));
      assert LowerName(name) == [TokenChar(name[0])] && name == [name[0]];
    } else {
      var r := Run(m, name[..n]);
      NameExact(m, name[..n]);
      RunOne(r, name[n]);
      NameNext(r, name[n]);
      assert LowerName(name) == LowerName(name[..n]) + [TokenChar(name[n])];
      NextClass(LowerName(name[..n]), TokenChar(name[n]));
      IndexedBefore(r.headerState, n, TokenChar(name[n]));
      PushJoin(m.trace, Field(name[..n]), Field([name[n]]));
    }
    ClassMeaning(LowerName(name));
  }

  lemma ClassMeaning(low: Bytes)
    ensures NameClass(low).Connection? <==> low == CONNECTION || low == PROXY_CONNECTION
    ensures NameClass(low).ContentLength? <==> low == CONTENT_LENGTH
    ensures NameClass(low).TransferEncoding? <==> low == TRANSFER_ENCODING
    ensures NameClass(low).Upgrade? <==> low == UPGRADE
  {
    hide Starts;
    assert CONNECTION[0] == 'c' && PROXY_CONNECTION[0] == 'p' && TRANSFER_ENCODING[0] == 't' && UPGRADE[0] == 'u';
    assert |CONNECTION| == 10 && |CONTENT_LENGTH| == 14;
  }

  lemma NameFirst(m: Machine, ch: Byte)
    requires m.state.HeaderFieldStart? && !Stopped(m) && IsToken(ch) && m.nread < MAX_HEADER_SIZE
    ensures var r := Step(m, ch);
            r == m.(state := HeaderField, nread := m.nread + 1, index := 0, headerState := FieldFirst(TokenChar(ch)),
                    trace := Push(m.trace, Field([ch])))
  {
    hide TokenChar, FieldFirst, Push;
  }

  lemma NameNext(m: Machine, ch: Byte)
    requires m.state.HeaderField? && !Stopped(m) && IsToken(ch) && m.nread < MAX_HEADER_SIZE
    ensures var r := Step(m, ch);
            var i := if FieldIndexed(m.headerState) then m.index + 1 else m.index;
            r == m.(nread := m.nread + 1, index := i, headerState := FieldByte(m.headerState, i, TokenChar(ch)),
                    trace := Push(m.trace, Field([ch])))
  {
    hide TokenChar, FieldByte, Push;
  }

  /** Where the matcher is off, its index does not matter and it stays off. */
  lemma IndexedBefore(h: HeaderState, i: nat, c: Byte)
    ensures FieldIndexed(FieldByte(h, i, c)) ==> FieldIndexed(h)
    ensures !FieldIndexed(h) ==> forall k: nat :: FieldByte(h, k, c) == General
  {
  }

  // Blanks and line ends

  lemma {:induction false} BlanksRun(m: Machine, blanks: Bytes)
    requires m.state.HeaderValueDiscardWs? && !Stopped(m) && m.nread + |blanks| <= MAX_HEADER_SIZE
    requires forall i :: 0 <= i < |blanks| ==> blanks[i] in " \t"
    ensures Run(m, blanks) == m.(nread := m.nread + |blanks|)
    decreases |blanks|
  {
    hide Step;
    if blanks != [] {
      BlankByte(m, blanks[0]);
      BlanksRun(m.(nread := m.nread + 1), blanks[1..]);
    }
  }

  lemma BlankByte(m: Machine, ch: Byte)
    requires m.state.HeaderValueDiscardWs? && !Stopped(m) && m.nread < MAX_HEADER_SIZE && ch in " \t"
    ensures Step(m, ch) == m.(nread := m.nread + 1)
  {
    hide StepValueStart;
  }

  lemma EndCr(m: Machine)
    requires (m.state.HeaderValue? || m.state.HeaderValueDiscardWs?) && !Stopped(m) && m.nread < MAX_HEADER_SIZE
    ensures Step(m, CR) == m.(nread := m.nread + 1, state := if m.state.HeaderValue? then HeaderAlmostDone
                                                             else HeaderValueDiscardWsAlmostDone)
  {
    hide StepValueStart, ValueByte, IsHeaderChar, Push;
  }

  /** The state behind the end of a line. */
  function LineDone(s: State): State { if s.HeaderValue? then HeaderValueLws else HeaderValueDiscardLws }

  lemma EndLf(m: Machine)
    requires !Stopped(m) && m.nread < MAX_HEADER_SIZE
    ensures m.state.HeaderValue? || m.state.HeaderValueDiscardWs? ==>
              Step(m, LF) == m.(nread := m.nread + 1, state := LineDone(m.state))
    ensures m.state.HeaderAlmostDone? ==> Step(m, LF) == m.(nread := m.nread + 1, state := HeaderValueLws)
    ensures m.state.HeaderValueDiscardWsAlmostDone? ==>
              Step(m, LF) == m.(nread := m.nread + 1, state := HeaderValueDiscardLws)
  {
    hide StepValueStart, ValueByte, IsHeaderChar, Push;
  }

  /** The end of a line, CR LF or LF alone, behind a value or blanks only. */
  lemma LineEnd(m: Machine, eol: Bytes)
    requires (m.state.HeaderValue? || m.state.HeaderValueDiscardWs?) && !Stopped(m)
    requires (eol == [CR, LF] || eol == [LF]) && m.nread + |eol| <= MAX_HEADER_SIZE
    ensures Run(m, eol) == m.(nread := m.nread + |eol|, state := LineDone(m.state))
  {
    hide Run, Consumed, Step;
    EndLf(m);
    if eol == [LF] {
      RunOne(m, LF);
    } else {
      EndCr(m);
      EndLf(Step(m, CR));
      RunConcat(m, [CR], [LF]);
      RunOne(m, CR);
      RunOne(Step(m, CR), LF);
      assert [CR] + [LF] == eol;
    }
  }

  // The chunked transfer coding

  function LowerBytes(bytes: Bytes): (low: Bytes)
    ensures |low| == |bytes|
  {
    seq(|bytes|, i requires 0 <= i < |bytes| => Lower(bytes[i]))
  }

  /** The keyword in any mixture of cases, then nothing but spaces. */
  predicate Spells(bytes: Bytes, word: Bytes) {
    && |bytes| >= |word| && LowerBytes(bytes[..|word|]) == word
    && forall i :: |word| <= i < |bytes| ==> bytes[i] == ' '
  }

  lemma SpellsSnoc(bytes: Bytes, ch: Byte, word: Bytes)
    ensures Spells(bytes + [ch], word) <==>
            (Spells(bytes, word) && ch == ' ') || LowerBytes(bytes + [ch]) == word
    ensures LowerBytes(bytes) == word ==> Spells(bytes, word)
    ensures Spells(bytes, word) ==> |bytes| > |word| || (|bytes| == |word| && LowerBytes(bytes) == word)
  {
    hide Lower;
    var v := bytes + [ch];
    if |v| > |word| {
      assert v[..|word|] == bytes[..|word|];
      if Spells(v, word) {
        forall i | |word| <= i < |bytes| ensures bytes[i] == ' ' { assert v[i] == ' '; }
        assert v[|bytes|] == ' ';
      }
    } else if |v| == |word| {
      assert v[..|word|] == v;
    }
    if |bytes| == |word| {
      assert bytes[..|word|] == bytes;
    }
  }

  predicate ValueBytes(value: Bytes) {
    && value != [] && value[0] != ' ' && value[0] != '\t'
    && forall i :: 0 <= i < |value| ==> IsHeaderChar(value[i]) && value[i] != CR && value[i] != LF
  }

  /** What the beginning of a transfer coding value is known to be. */
  function CodingClass(value: Bytes): HeaderState {
    if Spells(value, CHUNKED) then TransferEncodingChunked
    else if Starts(LowerBytes(value), CHUNKED) then MatchingTransferEncodingChunked
    else General
  }

  /** A Transfer-Encoding value counts as chunked exactly when it is that word, and then trailing spaces. */
  lemma {:induction false} ChunkedExact(m: Machine, value: Bytes)
    requires m.state.HeaderValueDiscardWs? && !Stopped(m) && m.headerState.TransferEncoding?
    requires ValueBytes(value) && m.nread + |value| <= MAX_HEADER_SIZE
    ensures var r := Run(m, value);
            && r == m.(state := HeaderValue, nread := m.nread + |value|, index := r.index,
                       headerState := r.headerState, trace := Push(m.trace, Value(value)))
            && r.headerState == CodingClass(value)
            && (r.headerState.MatchingTransferEncodingChunked? ==> r.index == |value| - 1)
            && (r.headerState.TransferEncodingChunked? <==> Spells(value, CHUNKED))
  {
    hide Run, Consumed, Step, Lower, IsHeaderChar, Starts, Spells, Push;
    var n := |value| - 1;
    assert value == value[..n] + [value[n]];
    RunConcat(m, value[..n], [value[n]]);
    if n == 0 {
      RunOne(m, value[0]);
      CodingFirst(m, value[0]);
      CodingFirstClass(value[0]);
      assert value == [value[0]];
    } else {
      var r := Run(m, value[..n]);
      ChunkedExact(m, value[..n]);
      RunOne(r, value[n]);
      CodingNext(r, value[n]);
      CodingNextClass(value[..n], value[n]);
      PushJoin(m.trace, Value(value[..n]), Value([value[n]]));
    }
  }

  lemma CodingFirst(m: Machine, ch: Byte)
    requires m.state.HeaderValueDiscardWs? && !Stopped(m) && m.headerState.TransferEncoding? && ValueBytes([ch])
    requires m.nread < MAX_HEADER_SIZE
    ensures var r := Step(m, ch);
            r == m.(state := HeaderValue, nread := m.nread + 1, index := 0, trace := Push(m.trace, Value([ch])),
                    headerState := if Lower(ch) == 'c' then MatchingTransferEncodingChunked else General)
  {
    hide Lower, Push, IsHeaderChar;
    assert [ch][0] == ch;
  }

  /** One byte of the value, by the header state before it. */
  function CodingByte(h: HeaderState, i: nat, ch: Byte): HeaderState {
    match h
    case MatchingTransferEncodingChunked => MatchByte(CHUNKED, i, Lower(ch), h, TransferEncodingChunked, General)
    case TransferEncodingChunked => if ch == ' ' then h else General
    case _ => General
  }

  lemma CodingNext(m: Machine, ch: Byte)
    requires m.state.HeaderValue? && !Stopped(m) && m.nread < MAX_HEADER_SIZE
    requires IsHeaderChar(ch) && ch != CR && ch != LF
    requires m.headerState in {General, MatchingTransferEncodingChunked, TransferEncodingChunked}
    ensures var r := Step(m, ch);
            && r == m.(nread := m.nread + 1, index := r.index, trace := Push(m.trace, Value([ch])),
                       headerState := CodingByte(m.headerState, m.index + 1, ch))
            && (m.headerState.MatchingTransferEncodingChunked? ==> r.index == m.index + 1)
  {
    hide Lower, Push, MatchByte;
  }

  lemma CodingFirstClass(ch: Byte)
    ensures CodingClass([ch]) == if Lower(ch) == 'c' then MatchingTransferEncodingChunked else General
  {
    hide Lower;
    assert LowerBytes([ch]) == [Lower(ch)];
    assert CHUNKED[..1] == ['c'];
  }

  lemma CodingNextClass(value: Bytes, ch: Byte)
    requires value != []
    ensures CodingByte(CodingClass(value), |value|, ch) == CodingClass(value + [ch])
  {
    hide Lower, Starts, Spells;
    var low := LowerBytes(value);
    assert LowerBytes(value + [ch]) == low + [Lower(ch)];
    StartsSnoc(low, CHUNKED, Lower(ch));
    SpellsSnoc(value, ch, CHUNKED);
    StartsShort(low, CHUNKED);
  }

  lemma StartsShort(low: Bytes, word: Bytes)
    ensures Starts(low, word) ==> |low| <= |word|
  {
  }
}
