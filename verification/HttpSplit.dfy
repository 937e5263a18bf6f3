/** How the input is cut into buffers makes no difference. */
module HttpSplit {
  import opened HttpTypes
  import opened HttpMachine
  import opened HttpInvariant
  import opened HttpScan
  import opened HttpParser

  function Concat(pieces: seq<Bytes>): Bytes {
    if pieces == [] then [] else pieces[0] + Concat(pieces[1..])
  }

  /** Hands buffers to the machine one by one until it stops. */
  function RunPieces(m: Machine, pieces: seq<Bytes>): Machine
    decreases |pieces|
  {
    if pieces == [] || Stopped(m) then m else RunPieces(Run(m, pieces[0]), pieces[1..])
  }

  /** Final state and trace of the machine do not depend on the cuts, in any state and with any error. */
  lemma {:induction false} SplitIndependence(m: Machine, pieces: seq<Bytes>)
    ensures RunPieces(m, pieces) == Run(m, Concat(pieces))
    decreases |pieces|
  {
    hide Run;
    if Stopped(m) {
      RunStopped(m, Concat(pieces));
    } else if pieces == [] {
      RunNil(m);
    } else {
      SplitIndependence(Run(m, pieces[0]), pieces[1..]);
      RunConcat(m, pieces[0], Concat(pieces[1..]));
    }
  }

  lemma {:induction false} ConcatSnoc(pieces: seq<Bytes>, last: Bytes)
    ensures Concat(pieces + [last]) == Concat(pieces) + last
  {
    if pieces == [] {
      assert [last][1..] == [];
    } else {
      assert (pieces + [last])[1..] == pieces[1..] + [last];
      ConcatSnoc(pieces[1..], last);
    }
  }

  lemma {:induction false} ConcatTake(pieces: seq<Bytes>, i: nat)
    requires i <= |pieces|
    ensures Concat(pieces) == Concat(pieces[..i]) + Concat(pieces[i..])
  {
    if i > 0 {
      ConcatTake(pieces[1..], i - 1);
      assert pieces[1..][..i - 1] == pieces[..i][1..];
      assert pieces[1..][i - 1..] == pieces[i..];
    } else {
      assert pieces[..0] == [] && pieces[0..] == pieces;
    }
  }

  /** Feeds a parser buffer by buffer, stopping when it reports an error or hands over the connection.
      It ends exactly as if it had been given all bytes in one buffer: same state, same callbacks after
      joining the fragments, same number of bytes consumed, same error. */
  method Feed(p: Parser, pieces: seq<Bytes>) returns (n: nat, exit: bool)
    requires p.Valid() && p.errno == OK
    requires forall i :: 0 <= i < |pieces| ==> pieces[i] != [] && |pieces[i]| + MAX_HEADER_SIZE < TWO_32
    modifies p
    ensures p.Valid()
    ensures p.Executed(old(p.Snap()), Concat(pieces), n, exit)
  {
    hide Run, Consumed, Canon, Push, Inv;
    ghost var m := p.Snap();
    n, exit := 0, false;
    var i := 0;
    assert pieces[..0] == [];
    RunNil(m);
    while i < |pieces|
      invariant 0 <= i <= |pieces| && p.Valid() && p.errno == OK && !exit
      invariant p.Snap() == Run(m, Concat(pieces[..i])) && n == |Concat(pieces[..i])|
      decreases |pieces| - i
    {
      Progress(m, pieces, i);
      ghost var k := p.Snap();
      var step;
      step, exit := p.Execute(pieces[i]);
      n := n + step;
      if p.errno != OK || exit {
        if Run(k, pieces[i]).errno == HEADER_OVERFLOW {
          OverflowedIn(p, m, pieces, i);
        }
        return;
      }
      i := i + 1;
    }
    assert pieces[..i] == pieces;
    RunWhole(m, Concat(pieces));
  }

  /** A byte before the limit in one buffer is one in the whole input. */
  lemma OverflowedIn(p: Parser, m: Machine, pieces: seq<Bytes>, i: nat)
    requires i < |pieces| && p.Overflowed(Run(m, Concat(pieces[..i])), pieces[i])
    ensures p.Overflowed(m, Concat(pieces))
  {
    hide Run, Consumed, Near;
    var before, all := Concat(pieces[..i]), Concat(pieces);
    var k := Run(m, before);
    var j :| && 0 <= j <= |pieces[i]| && !Stopped(Run(k, pieces[i][..j]))
             && Near(p.callbacks, Run(k, pieces[i][..j]).trace);
    RunConcat(m, before, pieces[i][..j]);
    ConcatTake(pieces, i);
    assert Concat(pieces[i..]) == pieces[i] + Concat(pieces[i..][1..]);
    assert all[..|before| + j] == before + pieces[i][..j];
  }

  lemma RunWhole(m: Machine, data: Bytes)
    requires !Stopped(Run(m, data))
    ensures Consumed(m, data) == |data|
  {
    hide Run, Consumed;
    assert data + [] == data;
    RunConcat(m, data, []);
    RunNil(Run(m, data));
  }

  /** One buffer more. */
  lemma Progress(m: Machine, pieces: seq<Bytes>, i: nat)
    requires i < |pieces| && !Stopped(Run(m, Concat(pieces[..i])))
    ensures var k := Run(m, Concat(pieces[..i]));
            var r := Run(k, pieces[i]);
            && Concat(pieces[..i + 1]) == Concat(pieces[..i]) + pieces[i]
            && Run(m, Concat(pieces[..i + 1])) == r
            && (!Stopped(r) ==> Consumed(k, pieces[i]) == |pieces[i]|)
            && (Stopped(r) ==>
                  && Run(m, Concat(pieces)) == r
                  && Consumed(m, Concat(pieces)) == |Concat(pieces[..i])| + Consumed(k, pieces[i]))
  {
    hide Run, Consumed;
    var before := Concat(pieces[..i]);
    var k := Run(m, before);
    var rest := Concat(pieces[i + 1..]);
    assert pieces[..i + 1] == pieces[..i] + [pieces[i]];
    ConcatSnoc(pieces[..i], pieces[i]);
    RunConcat(m, before, pieces[i]);
    ConcatTake(pieces, i);
    assert Concat(pieces[i..]) == pieces[i] + rest by {
      assert pieces[i..][1..] == pieces[i + 1..];
    }
    RunConcat(m, before, pieces[i] + rest);
    RunConcat(k, pieces[i], rest);
    var r := Run(k, pieces[i]);
    if Stopped(r) {
      RunStopped(r, rest);
    } else {
      RunWhole(k, pieces[i]);
    }
  }
}
