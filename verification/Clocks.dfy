/** Timers: an ordered set of clocks, of which an expiry pass takes those that are due. */
module Clocks {

  /** A clock, as it stands in the set.  Its address is its identity and breaks ties. */
  datatype Clock = Clock(address: nat, time: nat, period: nat, recurring: bool, callback: nat)

  const NEVER: nat := 0xFFFF_FFFF_FFFF_FFFF

  /** Clock::Comparator. */
  predicate Less(a: Clock, b: Clock) { a.time < b.time || (a.time == b.time && a.address < b.address) }

  predicate Sorted(cs: seq<Clock>) { forall i, j :: 0 <= i < j < |cs| ==> Less(cs[i], cs[j]) }

  /** Different clocks have different addresses. */
  predicate Identified(cs: seq<Clock>) { forall i, j :: 0 <= i < j < |cs| ==> cs[i].address != cs[j].address }

  /** Where the clock of an address is, or the length. */
  function Position(cs: seq<Clock>, address: nat): (i: nat)
    ensures i <= |cs| && (i < |cs| ==> cs[i].address == address)
    ensures forall j :: 0 <= j < i ==> cs[j].address != address
  {
    if cs == [] || cs[0].address == address then 0 else 1 + Position(cs[1..], address)
  }

  predicate Has(cs: seq<Clock>, address: nat) { Position(cs, address) < |cs| }

  /** Insertion into the ordered set, which does nothing when an equal clock is there. */
  function Insert(cs: seq<Clock>, c: Clock): seq<Clock> {
    if cs == [] then [c]
    else if Less(c, cs[0]) then [c] + cs
    else if !Less(cs[0], c) then cs
    else [cs[0]] + Insert(cs[1..], c)
  }

  function Without(cs: seq<Clock>, i: nat): seq<Clock>
    requires i < |cs|
  {
    cs[..i] + cs[i + 1..]
  }

  /** A clock in front of others that are all later. */
  lemma Prepended(c: Clock, cs: seq<Clock>)
    requires Sorted(cs) && Identified(cs)
    requires forall i :: 0 <= i < |cs| ==> Less(c, cs[i]) && cs[i].address != c.address
    ensures Sorted([c] + cs) && Identified([c] + cs) && multiset([c] + cs) == multiset(cs) + multiset{c}
  {
    var r := [c] + cs;
    assert forall i :: 1 <= i < |r| ==> r[i] == cs[i - 1];
  }

  lemma {:induction false} Inserted(cs: seq<Clock>, c: Clock)
    requires Sorted(cs) && Identified(cs) && !Has(cs, c.address)
    ensures var r := Insert(cs, c); Sorted(r) && Identified(r) && multiset(r) == multiset(cs) + multiset{c}
  {
    if cs == [] {
    } else if Less(c, cs[0]) {
      InsertFirst(cs, c);
    } else {
      var rest := cs[1..];
      Behind(cs, c);
      hide Sorted, Identified;
      Inserted(rest, c);
      var r := Insert(rest, c);
      assert cs == [cs[0]] + rest;
      forall i | 0 <= i < |r| ensures Less(cs[0], r[i]) && r[i].address != cs[0].address {
        assert r[i] in multiset(r);
        assert r[i] == c || r[i] in rest;
      }
      Prepended(cs[0], r);
    }
  }

  /** A clock that is earlier than the first one comes first. */
  lemma InsertFirst(cs: seq<Clock>, c: Clock)
    requires Sorted(cs) && Identified(cs) && !Has(cs, c.address) && cs != [] && Less(c, cs[0])
    ensures Insert(cs, c) == [c] + cs
    ensures Sorted([c] + cs) && Identified([c] + cs) && multiset([c] + cs) == multiset(cs) + multiset{c}
  {
    Prepended(c, cs);
  }

  /** What is known behind the first clock, when another one is later. */
  lemma Behind(cs: seq<Clock>, c: Clock)
    requires Sorted(cs) && Identified(cs) && !Has(cs, c.address) && cs != [] && !Less(c, cs[0])
    ensures Sorted(cs[1..]) && Identified(cs[1..]) && !Has(cs[1..], c.address)
    ensures Less(cs[0], c) && cs[0].address != c.address
    ensures forall i :: 0 <= i < |cs[1..]| ==> Less(cs[0], cs[1..][i]) && cs[1..][i].address != cs[0].address
  {
  }

  lemma Removed(cs: seq<Clock>, i: nat)
    requires Sorted(cs) && Identified(cs) && i < |cs|
    ensures var r := Without(cs, i);
            Sorted(r) && Identified(r) && !Has(r, cs[i].address) && multiset(r) == multiset(cs) - multiset{cs[i]}
  {
    var r := Without(cs, i);
    assert cs == cs[..i] + [cs[i]] + cs[i + 1..];
    assert forall j :: 0 <= j < |r| ==> r[j] == if j < i then cs[j] else cs[j + 1];
    var p := Position(r, cs[i].address);
    assert p == |r|;
  }

  /** A clock taken out and put back with another time. */
  lemma Replaced(cs: seq<Clock>, i: nat, c: Clock)
    requires Sorted(cs) && Identified(cs) && i < |cs| && c.address == cs[i].address
    ensures var r := Insert(Without(cs, i), c);
            Sorted(r) && Identified(r) && multiset(r) == multiset(cs) - multiset{cs[i]} + multiset{c}
  {
    hide Sorted, Identified, Insert, Without;
    Removed(cs, i);
    Inserted(Without(cs, i), c);
  }

  lemma PositionOf(cs: seq<Clock>, c: Clock)
    requires Identified(cs) && c in cs
    ensures Has(cs, c.address) && cs[Position(cs, c.address)] == c
  {
    var i :| 0 <= i < |cs| && cs[i] == c;
    var p := Position(cs, c.address);
    assert p <= i;
  }

  lemma NotThere(cs: seq<Clock>, address: nat)
    requires forall c :: c in multiset(cs) ==> c.address != address
    ensures !Has(cs, address)
  {
    assert forall i :: 0 <= i < |cs| ==> cs[i] in multiset(cs);
  }

  /** The other clocks have other addresses. */
  lemma OtherAddresses(cs: seq<Clock>, i: nat)
    requires Identified(cs) && i < |cs|
    ensures forall c :: c in multiset(Without(cs, i)) ==> c.address != cs[i].address
  {
    forall c | c in multiset(Without(cs, i)) ensures c.address != cs[i].address {
      var j :| 0 <= j < |Without(cs, i)| && Without(cs, i)[j] == c;
      assert c == if j < i then cs[j] else cs[j + 1];
    }
  }

  lemma ErasedArmed(cs: seq<Clock>, i: nat, armed: set<nat>)
    requires Sorted(cs) && Identified(cs) && i < |cs| && forall c :: c in multiset(cs) ==> c.address in armed
    ensures var r := Without(cs, i);
            && Sorted(r) && Identified(r) && !Has(r, cs[i].address) && multiset(r) == multiset(cs) - multiset{cs[i]}
            && forall c :: c in multiset(r) ==> c.address in armed - {cs[i].address}
  {
    hide Sorted, Identified, Without, Position;
    Removed(cs, i);
    OtherAddresses(cs, i);
  }

  /** How many clocks an expiry pass takes: those before a clock made for the current time, whose address is
      that of the new object. */
  function Due(cs: seq<Clock>, now: nat, probe: nat): (n: nat)
    ensures n <= |cs|
  {
    if cs == [] || cs[0].time > now || (cs[0].time == now && cs[0].address > probe) then 0
    else 1 + Due(cs[1..], now, probe)
  }

  /** Every clock whose time is past is due, and none whose time is still to come. */
  lemma {:induction false} DuePrefix(cs: seq<Clock>, now: nat, probe: nat)
    requires Sorted(cs)
    ensures var n := Due(cs, now, probe);
            && (forall i :: 0 <= i < n ==> cs[i].time <= now)
            && (forall i :: n <= i < |cs| ==> cs[i].time >= now)
  {
    if cs != [] {
      DuePrefix(cs[1..], now, probe);
      var n := Due(cs, now, probe);
      if n > 0 {
        forall i | 0 <= i < n ensures cs[i].time <= now { assert i == 0 || cs[i] == cs[1..][i - 1]; }
        forall i | n <= i < |cs| ensures cs[i].time >= now { assert cs[i] == cs[1..][i - 1]; }
      } else {
        forall i | 0 <= i < |cs| ensures cs[i].time >= now { assert i == 0 || Less(cs[0], cs[i]); }
      }
    }
  }

  /** They are the clocks in front of the upper bound of a clock made for the current time. */
  lemma {:induction false} DueUpperBound(cs: seq<Clock>, now: nat, probe: Clock)
    requires Sorted(cs) && probe.time == now
    ensures var n := Due(cs, now, probe.address);
            && (forall i :: 0 <= i < n ==> !Less(probe, cs[i]))
            && (forall i :: n <= i < |cs| ==> Less(probe, cs[i]))
  {
    if cs != [] {
      DueUpperBound(cs[1..], now, probe);
      var n := Due(cs, now, probe.address);
      if n > 0 {
        forall i | 0 <= i < n ensures !Less(probe, cs[i]) { assert i == 0 || cs[i] == cs[1..][i - 1]; }
        forall i | n <= i < |cs| ensures Less(probe, cs[i]) { assert cs[i] == cs[1..][i - 1]; }
      } else {
        forall i | 0 <= i < |cs| ensures Less(probe, cs[i]) { assert i == 0 || Less(cs[0], cs[i]); }
      }
    }
  }

  /** The comparator is a strict total order on clocks with different times or addresses. */
  lemma LessTotal(a: Clock, b: Clock, c: Clock)
    ensures !Less(a, a) && (Less(a, b) && Less(b, c) ==> Less(a, c))
    ensures !Less(a, b) && !Less(b, a) <==> a.time == b.time && a.address == b.address
  {
  }

  function CallbacksOf(cs: seq<Clock>): (r: seq<nat>)
    ensures |r| == |cs|
  {
    seq(|cs|, i requires 0 <= i < |cs| => cs[i].callback)
  }

  /** The recurring ones of some expired clocks, set again: their old time is added to the current one. */
  function Renewed(cs: seq<Clock>, now: nat): seq<Clock> {
    if cs == [] then []
    else
      var c := cs[|cs| - 1];
      Renewed(cs[..|cs| - 1], now) + if c.recurring then [c.(time := now + c.time)] else []
  }

  /** A recurring clock is set again one period after the current time exactly when its old time is its
      period, that is, when it was made at time zero: the old time is added, not the period. */
  lemma RecurringPeriod(c: Clock, now: nat)
    requires c.recurring
    ensures Renewed([c], now) == [c.(time := now + c.period)] <==> c.time == c.period
  {
    assert [c][..0] == [];
    var next, meant := c.(time := now + c.time), c.(time := now + c.period);
    assert Renewed([c], now) == [next];
    assert [next] == [meant] ==> next == meant by {
      assert [next][0] == next && [meant][0] == meant;
    }
    assert next == meant ==> next.time == meant.time;
  }

  /** A clock was cancelled, or had been before, or it is not in the set although it has its callback: then
      the original erases the end of the set, and the model says nothing. */
  datatype Cancelling = Cancelled | Before | Unknown

  class ClockManager {
    var clocks: seq<Clock>
    var tickled: bool

    /** The addresses of the clocks that have their callback: a cancelled one has not. */
    var armed: set<nat>

    ghost predicate Valid()
      reads this
    {
      Sorted(clocks) && Identified(clocks) && forall c :: c in multiset(clocks) ==> c.address in armed
    }

    constructor ()
      ensures Valid() && clocks == [] && !tickled && armed == {}
    {
      clocks, tickled, armed := [], false, {};
    }

    /** Inserts a clock; returns whether onClockInsertAtFront is called. */
    method Add(clock: Clock) returns (notify: bool)
      requires Valid() && !Has(clocks, clock.address) && clock.address in armed
      modifies `clocks, `tickled
      ensures Valid() && multiset(clocks) == multiset(old(clocks)) + multiset{clock}
      ensures notify <==> old(tickled) || clocks[0] == clock
      ensures tickled == notify
    {
      Inserted(clocks, clock);
      clocks := Insert(clocks, clock);
      assert clock in multiset(clocks);
      if clocks[0] == clock && !tickled {
        tickled := true;
      }
      notify := tickled;
    }

    method AddClock(address: nat, period: nat, callback: nat, recurring: bool, now: nat) returns (notify: bool)
      requires Valid() && !Has(clocks, address)
      modifies this
      ensures Valid() && armed == old(armed) + {address}
      ensures multiset(clocks) ==
              multiset(old(clocks)) + multiset{Clock(address, now + period, period, recurring, callback)}
      ensures notify <==> old(tickled) || clocks[0] == Clock(address, now + period, period, recurring, callback)
      ensures tickled == notify
    {
      armed := armed + {address};
      notify := Add(Clock(address, now + period, period, recurring, callback));
    }

    method Cancel(address: nat) returns (r: Cancelling)
      requires Valid()
      modifies this
      ensures r.Unknown? <==> address in old(armed) && !Has(old(clocks), address)
      ensures r.Before? <==> address !in old(armed)
      ensures r.Before? ==> clocks == old(clocks) && armed == old(armed)
      ensures r.Cancelled? ==> multiset(clocks) == multiset(old(clocks)) - Entry(old(clocks), address)
      ensures !r.Unknown? ==> Valid() && !Has(clocks, address) && armed == old(armed) - {address}
    {
      hide Sorted, Identified, Position, Without, Less;
      if address !in armed {
        NotThere(clocks, address);
        return Before;
      }
      var it := Position(clocks, address);
      if it == |clocks| {
        armed := armed - {address};
        return Unknown;
      }
      ErasedArmed(clocks, it, armed);
      armed := armed - {address};
      clocks := Without(clocks, it);
      r := Cancelled;
    }

    method Refresh(address: nat, now: nat) returns (ok: bool)
      requires Valid()
      modifies `clocks
      ensures Valid() && ok == Has(old(clocks), address)
      ensures if ok then
                var c := old(clocks)[Position(old(clocks), address)];
                multiset(clocks) == multiset(old(clocks)) - multiset{c} + multiset{c.(time := now + c.period)}
              else clocks == old(clocks)
    {
      if address !in armed {
        NotThere(clocks, address);
        return false;
      }
      var it := Position(clocks, address);
      if it == |clocks| {
        return false;
      }
      hide Sorted, Identified, Insert, Without, Position;
      var clock := clocks[it];
      Replaced(clocks, it, clock.(time := now + clock.period));
      clocks := Without(clocks, it);
      clock := clock.(time := now + clock.period);
      clocks := Insert(clocks, clock);
      ok := true;
    }

    method Reset(address: nat, period: nat, fromNow: bool, now: nat) returns (ok: bool)
      requires Valid()
      modifies `clocks, `tickled
      ensures Valid() && ok == Has(old(clocks), address)
      ensures if ok then
                var c := old(clocks)[Position(old(clocks), address)];
                multiset(clocks) == multiset(old(clocks)) - multiset{c} +
                                    multiset{c.(period := period, time := if fromNow then now + period else c.time)}
              else clocks == old(clocks)
    {
      if address !in armed {
        NotThere(clocks, address);
        return false;
      }
      var it := Position(clocks, address);
      if it == |clocks| {
        return false;
      }
      var clock := clocks[it];
      Removed(clocks, it);
      clocks := Without(clocks, it);
      var _ := Add(clock.(period := period, time := if fromNow then now + period else clock.time));
      ok := true;
    }

    /** The time until the next clock is due. */
    method GetNextTime(now: nat) returns (r: nat)
      requires Valid()
      modifies `tickled
      ensures !tickled
      ensures clocks == [] ==> r == 0xFFFF_FFFF_FFFF_FFFF
      ensures clocks != [] ==>
              && (forall i :: 0 <= i < |clocks| ==> r == 0 || clocks[i].time >= now + r)
              && exists i :: 0 <= i < |clocks| && if r == 0 then clocks[i].time <= now else clocks[i].time == now + r
    {
      tickled := false;
      if clocks == [] {
        return NEVER;
      }
      r := if now >= clocks[0].time then 0 else clocks[0].time - now;
      assert forall i :: 0 < i < |clocks| ==> Less(clocks[0], clocks[i]);
    }

    /** Takes an expired clock out, and sets it again when it is recurring. */
    method Expire(clock: Clock, now: nat)
      requires Valid() && clock in clocks
      modifies `clocks
      ensures Valid()
      ensures multiset(clocks) == multiset(old(clocks)) - multiset{clock} +
                                  if clock.recurring then multiset{clock.(time := now + clock.time)} else multiset{}
    {
      PositionOf(clocks, clock);
      hide Sorted, Identified, Insert, Without, Position;
      var it := Position(clocks, clock.address);
      Removed(clocks, it);
      Replaced(clocks, it, clock.(time := now + clock.time));
      clocks := Without(clocks, it);
      if clock.recurring {
        clocks := Insert(clocks, clock.(time := now + clock.time));
      }
    }

    /** An expiry pass. */
    method ListExpired(now: nat, probe: nat) returns (callbacks: seq<nat>)
      requires Valid()
      modifies `clocks
      ensures Valid()
      ensures var due := old(clocks)[..Due(old(clocks), now, probe)];
              var kept := old(clocks)[|due|..];
              && callbacks == CallbacksOf(due)
              && multiset(clocks) == multiset(kept) + multiset(Renewed(due, now))
    {
      hide Sorted, Identified, CallbacksOf, Account, Renewed;
      callbacks := [];
      ghost var was := clocks;
      AccountEnds(was, Due(was, now, probe), now);
      CallbacksNext(was, 0);
      if clocks == [] {
        return;
      }
      var expired := clocks[..Due(clocks, now, probe)];
      var k := 0;
      while k < |expired|
        invariant 0 <= k <= |expired| && Valid()
        invariant callbacks == CallbacksOf(was[..k]) && multiset(clocks) == Account(was, k, now)
      {
        CallbacksNext(was, k);
        AccountNext(was, k, now);
        callbacks := callbacks + [expired[k].callback];
        Expire(expired[k], now);
        k := k + 1;
      }
    }
  }

  /** The clocks when k of the expired ones have been handled. */
  ghost function Account(was: seq<Clock>, k: nat, now: nat): multiset<Clock>
    requires k <= |was|
  {
    multiset(was[k..]) + multiset(Renewed(was[..k], now))
  }

  lemma AccountEnds(was: seq<Clock>, n: nat, now: nat)
    requires n <= |was|
    ensures Account(was, 0, now) == multiset(was)
    ensures Account(was, n, now) == multiset(was[n..]) + multiset(Renewed(was[..n], now))
  {
    assert was[0..] == was && was[..0] == [];
  }

  lemma AccountNext(was: seq<Clock>, k: nat, now: nat)
    requires k < |was|
    ensures was[k] in Account(was, k, now)
    ensures Account(was, k + 1, now) == Account(was, k, now) - multiset{was[k]} +
            if was[k].recurring then multiset{was[k].(time := now + was[k].time)} else multiset{}
  {
    assert was[k..] == [was[k]] + was[k + 1..];
    RenewedNext(was, k, now);
  }

  lemma CallbacksNext(cs: seq<Clock>, k: nat)
    requires k <= |cs|
    ensures CallbacksOf(cs[..0]) == []
    ensures k < |cs| ==> CallbacksOf(cs[..k + 1]) == CallbacksOf(cs[..k]) + [cs[k].callback]
  {
  }

  lemma RenewedNext(cs: seq<Clock>, k: nat, now: nat)
    requires k < |cs|
    ensures Renewed(cs[..k + 1], now) ==
            Renewed(cs[..k], now) + if cs[k].recurring then [cs[k].(time := now + cs[k].time)] else []
  {
    assert cs[..k + 1][..k] == cs[..k];
  }

  /** The clock of an address, once, if it is there. */
  function Entry(cs: seq<Clock>, address: nat): multiset<Clock> {
    if Has(cs, address) then multiset{cs[Position(cs, address)]} else multiset{}
  }

  lemma Single(cs: seq<Clock>, c: Clock)
    requires multiset(cs) == multiset{c}
    ensures cs == [c]
  {
    assert |cs| == |multiset(cs)| == 1;
    assert cs[0] in multiset(cs);
  }

  /** A clock alone in the set, after its time. */
  lemma DueAlone(c: Clock, now: nat, probe: nat)
    requires c.time < now
    ensures Due([c], now, probe) == 1 && [c][..1] == [c] && [c][1..] == []
    ensures CallbacksOf([c]) == [c.callback]
    ensures Renewed([c], now) == if c.recurring then [c.(time := now + c.time)] else []
  {
    assert [c][..0] == [];
  }

  /** A clock that is added to an empty set and then expires. */
  method AddAndExpire(clock: Clock, now: nat, later: nat, probe: nat) returns (m: ClockManager)
    requires later > now + clock.period
    ensures fresh(m) && m.Valid() && clock.address in m.armed
    ensures m.clocks == if clock.recurring then [clock.(time := later + (now + clock.period))] else []
  {
    hide Sorted, Identified, CallbacksOf, Renewed, Due;
    m := new ClockManager();
    var _ := m.AddClock(clock.address, clock.period, clock.callback, clock.recurring, now);
    ghost var c := clock.(time := now + clock.period);
    Single(m.clocks, c);
    DueAlone(c, later, probe);
    var _ := m.ListExpired(later, probe);
    if clock.recurring {
      Single(m.clocks, c.(time := later + c.time));
    }
  }

  /** A clock that does not recur and has expired still has its callback, so cancelling it is not defined. */
  method CancelExpired(clock: Clock, now: nat, later: nat, probe: nat) returns (r: Cancelling)
    requires later > now + clock.period && !clock.recurring
    ensures r.Unknown?
  {
    var m := AddAndExpire(clock, now, later, probe);
    r := m.Cancel(clock.address);
  }

  /** A recurring clock that is added and then expires is set again one period after the expiry if and only if
      it was added at time zero. */
  method RecurOnce(clock: Clock, now: nat, later: nat, probe: nat) returns (again: Clock)
    requires later > now + clock.period && clock.recurring
    ensures again == clock.(time := later + (now + clock.period))
    ensures again.time == later + clock.period <==> now == 0
  {
    var m := AddAndExpire(clock, now, later, probe);
    again := m.clocks[0];
  }

  /** A clock of period 10 that is added at 5 and expires at 16 is due at 31, not at 26. */
  method RecurLate() returns (time: nat)
    ensures time == 31
  {
    var again := RecurOnce(Clock(0, 0, 10, true, 0), 5, 16, 0);
    time := again.time;
  }
}
