/** What holds in every run of the runtime, for any number of threads, descriptors, fibers and timers. */
module RuntimeRuns {
  import opened Counting
  import opened Runtime
  import opened RuntimeBooks
  import opened RuntimeFibers
  import opened RuntimeLedgers

  ghost predicate Inv(s: State) { FibersInv(s) && LedgersInv(s) }

  lemma {:induction false} RunInv(states: seq<State>, run: seq<Action>, k: nat)
    requires IsRun(states, run) && k < |states|
    ensures Inv(states[k])
  {
    hide Initial, Enabled, Apply, FibersInv, LedgersInv, ChannelsInv;
    if k == 0 {
      InitialFibers(states[0]);
      InitialLedgers(states[0]);
    } else {
      RunInv(states, run, k - 1);
      InvChannels(states[k - 1]);
      FibersStep(states[k - 1], run[k - 1]);
      LedgersStep(states[k - 1], run[k - 1]);
    }
  }

  lemma InvChannels(s: State)
    requires FibersInv(s)
    ensures ChannelsInv(s)
  {
  }

  // Wakes

  /** No wake is lost and none is doubled: a suspended unfinished fiber has exactly one wake token, unless
      its registration was deleted without being triggered, and then none; a running one has at most one,
      and only when it is about to yield; a finished one has none. */
  lemma WakeTokens(states: seq<State>, run: seq<Action>, k: nat, f: nat)
    requires IsRun(states, run) && k < |states| && f < |states[k].fibers|
    ensures var s := states[k];
            && (s.fibers[f].Ready? ==> Tokens(s, f) == if f in s.lost then 0 else 1)
            && (s.fibers[f].Running? ==> Tokens(s, f) <= Parks(s, f) <= 1)
            && (s.fibers[f].Term? ==> Tokens(s, f) == 0 && f !in s.lost)
  {
    hide Tokens, Runs, Parks;
    RunInv(states, run, k);
    assert FiberInv(states[k], f);
  }

  /** No fiber is destroyed before it has finished: an unfinished fiber that has not lost its wake is inside
      a thread, or one wake token still refers to it. */
  lemma NotDestroyed(states: seq<State>, run: seq<Action>, k: nat, f: nat)
    requires IsRun(states, run) && k < |states| && f < |states[k].fibers|
    requires !states[k].fibers[f].Term? && f !in states[k].lost
    ensures Runs(states[k], f) == 1 || Tokens(states[k], f) == 1
  {
    hide Tokens, Runs, Parks;
    RunInv(states, run, k);
    assert FiberInv(states[k], f);
  }

  /** No fiber is inside two threads, and a fiber is inside a thread exactly while it is running. */
  lemma OneThread(states: seq<State>, run: seq<Action>, k: nat, i: nat, j: nat)
    requires IsRun(states, run) && k < |states| && i < |states[k].threads| && j < |states[k].threads| && i != j
    requires states[k].threads[i].pc.InFiber? && states[k].threads[j].pc.InFiber?
    ensures states[k].threads[i].pc.fiber != states[k].threads[j].pc.fiber
    ensures states[k].threads[i].pc.fiber < |states[k].fibers|
    ensures states[k].fibers[states[k].threads[i].pc.fiber].Running?
  {
    var s := states[k];
    RunInv(states, run, k);
    InsideRuns(s, i);
    SumTwo(s.threads, if i < j then i else j, if i < j then j else i, RunW(s.threads[i].pc.fiber));
  }

  /** Every resume of a scheduled fiber meets its assertion that the fiber is READY. */
  lemma ResumeMeetsReady(states: seq<State>, run: seq<Action>, k: nat, i: nat)
    requires IsRun(states, run) && k < |states| && Enabled(states[k], Resume(i))
    requires states[k].threads[i].pc.task.body.RunFiber?
    ensures var f := states[k].threads[i].pc.task.body.fiber;
            f < |states[k].fibers| && states[k].fibers[f].Ready? && f !in states[k].lost
  {
    hide Tokens;
    RunInv(states, run, k);
    var s := states[k];
    var f := s.threads[i].pc.task.body.fiber;
    assert PickedReady(s, i);
    assert FiberInv(s, f);
    HoldsToken(s, i, f);
  }

  /** Deleting the registration of a fiber without triggering it, as close does. */
  predicate LosesWake(s: State, a: Action, f: nat) {
    a.Delete? && !a.trigger && a.fd < |s.channels| && s.channels[a.fd].Has(a.ev) &&
    s.channels[a.fd].At(a.ev).Waiter? && s.channels[a.fd].At(a.ev).fiber == f
  }

  /** A wake is lost exactly when a registration of the fiber is deleted without being triggered, and it
      stays lost. */
  lemma LostBy(s: State, a: Action, f: nat)
    requires Inv(s) && Enabled(s, a)
    ensures f in Apply(s, a).lost <==> f in s.lost || LosesWake(s, a, f)
  {
    hide Apply, Enabled, Inv, LosesWake;
    if OnEvents(a) {
      LostByEvents(s, a, f);
    } else if OfFiber(a) {
      LostByFiber(s, a, f);
    } else {
      LostByThread(s, a, f);
    }
  }

  lemma LostByEvents(s: State, a: Action, f: nat)
    requires OnEvents(a)
    requires Inv(s) && Enabled(s, a)
    ensures f in Apply(s, a).lost <==> f in s.lost || LosesWake(s, a, f)
  {
    InvChannels(s);
    hide Inv, Register, Dispatch, ChannelsInv, DelEvent;
    match a
    case Watch(_, fd, ev) => RegisterFrame(s, fd, ev, Callback(s.nextReg));
    case Park(i, fd, ev) => RegisterFrame(s, fd, ev, Waiter(s.nextReg, s.threads[i].pc.fiber));
    case Delete(_, fd, ev, trigger) => DelEventLost(s, fd, ev, trigger, f);
    case CallTimeout(i, _) =>
      var code := s.threads[i].pc.code;
      if code.fd < |s.channels| {
        DelEventFrame(s, code.fd, code.ev, true);
      }
    case Poll(_, fd, read, write) => DispatchFrame(s, fd, read, write);
  }

  lemma LostByFiber(s: State, a: Action, f: nat)
    requires OfFiber(a)
    requires Inv(s) && Enabled(s, a)
    ensures f in Apply(s, a).lost <==> f in s.lost || LosesWake(s, a, f)
  {
    hide Inv;
  }

  lemma LostByThread(s: State, a: Action, f: nat)
    requires !OnEvents(a) && !OfFiber(a)
    requires Inv(s) && Enabled(s, a)
    ensures f in Apply(s, a).lost <==> f in s.lost || LosesWake(s, a, f)
  {
    hide Inv, FirstEligible, Recurring, Callbacks, CanStop;
  }

  lemma DelEventLost(s: State, fd: nat, ev: Ev, trigger: bool, f: nat)
    requires ChannelsInv(s) && fd < |s.channels|
    ensures var slot := s.channels[fd].At(ev);
            f in DelEvent(s, fd, ev, trigger).lost <==>
            f in s.lost || (!trigger && s.channels[fd].Has(ev) && slot.Waiter? && slot.fiber == f)
  {
    assert ChannelInv(s.channels[fd]);
  }

  lemma {:induction false} LostForever(states: seq<State>, run: seq<Action>, k: nat, m: nat, f: nat)
    requires IsRun(states, run) && k <= m < |states| && f in states[k].lost
    ensures f in states[m].lost
    decreases m
  {
    hide Initial, Enabled, Apply, Inv;
    if k < m {
      LostForever(states, run, k, m - 1, f);
      RunInv(states, run, m - 1);
      LostBy(states[m - 1], run[m - 1], f);
    }
  }

  /** A fiber that lost its wake is never resumed and never finishes. */
  lemma LostNeverRuns(states: seq<State>, run: seq<Action>, k: nat, m: nat, f: nat)
    requires IsRun(states, run) && k <= m < |run| && f in states[k].lost
    ensures f < |states[m].fibers| && !states[m].fibers[f].Term?
    ensures run[m].Resume? ==> states[m].threads[run[m].i].pc.task.body != RunFiber(f)
  {
    LostForever(states, run, k, m, f);
    RunInv(states, run, m);
    assert FiberInv(states[m], f);
    if run[m].Resume? && states[m].threads[run[m].i].pc.task.body.RunFiber? {
      ResumeMeetsReady(states, run, m, run[m].i);
    }
  }

  lemma Extend(states: seq<State>, run: seq<Action>, a: Action, t: State)
    returns (longer: seq<State>, further: seq<Action>)
    requires IsRun(states, run) && Enabled(states[|run|], a) && Apply(states[|run|], a) == t
    ensures longer == states + [t] && further == run + [a] && IsRun(longer, further)
    ensures |longer| == |further| + 1 && longer[|further|] == t
  {
    hide Initial, Enabled, Apply;
    longer, further := states + [t], run + [a];
  }

  // One thread and one descriptor: the fiber of one task waits to read, that of another one closes

  const WAITS := Task(0, RunFunc(User), Any)
  const CLOSES := Task(1, RunFunc(User), Any)
  const START := State([], [], [Thread(Top, false)], 0, false, [NO_EVENTS], 0, [], 0, [], 0, [], [], {})
  const WAITING := [Channel(true, false, Waiter(0, 0), Empty, Registered(true, false))]
  const QUEUED := START.(tasks := [WAITS, CLOSES], nextTask := 2)
  const BEFORE := QUEUED.(fibers := [Running], tasks := [CLOSES], active := 1,
                          threads := [Thread(InFiber(WAITS, 0, Free), false)])
  const PARKED := BEFORE.(fibers := [Ready], threads := [Thread(Returned(WAITS), false)], nextReg := 1,
                          pending := 1, channels := WAITING)
  const TAKEN := PARKED.(tasks := [], done := [0], threads := [Thread(Picked(CLOSES), false)])
  const CLOSED := TAKEN.(fibers := [Ready, Running], threads := [Thread(InFiber(CLOSES, 1, Free), false)],
                         channels := [NO_EVENTS], pending := 0, dropped := [0], lost := {0})

  lemma FirstState(s: State)
    requires Initial(s)
    ensures IsRun([s], [])
  {
  }

  lemma ReachQueued() returns (states: seq<State>, run: seq<Action>)
    ensures IsRun(states, run) && |states| == |run| + 1 && states[|run|] == QUEUED
  {
    hide IsRun;
    FirstState(START);
    states, run := [START], [];
    states, run := Extend(states, run, ExternalAdd(false, Any), START.(tasks := [WAITS], nextTask := 1));
    states, run := Extend(states, run, ExternalAdd(false, Any), QUEUED);
  }

  lemma ReachBefore() returns (states: seq<State>, run: seq<Action>)
    ensures IsRun(states, run) && |states| == |run| + 1 && states[|run|] == BEFORE
  {
    hide IsRun;
    states, run := ReachQueued();
    states, run := Extend(states, run, Pick(0),
                          QUEUED.(tasks := [CLOSES], active := 1, threads := [Thread(Picked(WAITS), false)]));
    states, run := Extend(states, run, Resume(0), BEFORE);
  }

  lemma ReachParked() returns (states: seq<State>, run: seq<Action>)
    ensures IsRun(states, run) && |states| == |run| + 1 && states[|run|] == PARKED
  {
    hide IsRun;
    states, run := ReachBefore();
    states, run := Extend(states, run, Park(0, 0, READ),
                          BEFORE.(threads := [Thread(InFiber(WAITS, 0, Parking), false)], nextReg := 1, pending := 1,
                                  channels := WAITING));
    states, run := Extend(states, run, Yield(0), PARKED);
  }

  lemma ReachTaken() returns (states: seq<State>, run: seq<Action>)
    ensures IsRun(states, run) && |states| == |run| + 1 && states[|run|] == TAKEN
  {
    hide IsRun;
    states, run := ReachParked();
    states, run := Extend(states, run, Decrement(0),
                          PARKED.(active := 0, done := [0], threads := [Thread(Top, false)]));
    states, run := Extend(states, run, Pick(0), TAKEN);
  }

  /** A wake does get lost: there is a run in which a fiber waits, another one closes the descriptor, and the
      first one is left suspended with no wake token. */
  lemma CloseLosesWake() returns (states: seq<State>, run: seq<Action>)
    ensures IsRun(states, run) && |run| > 0 && run[|run| - 1] == Delete(0, 0, READ, false)
    ensures var s := states[|run|]; |s.fibers| == 2 && s.fibers[0].Ready? && Tokens(s, 0) == 0
  {
    hide Tokens, Runs, Parks, IsRun;
    states, run := ReachTaken();
    states, run := Extend(states, run, Resume(0),
                          TAKEN.(fibers := [Ready, Running], threads := [Thread(InFiber(CLOSES, 1, Free), false)]));
    states, run := Extend(states, run, Delete(0, 0, READ, false), CLOSED);
    WakeTokens(states, run, |run|, 0);
  }

  // Tasks and registrations

  /** An accepted task is queued, held by one thread, or done, and only one of these and only once; the
      counter of active threads is the number of threads that hold a task; pins are respected. */
  lemma TasksConserved(states: seq<State>, run: seq<Action>, k: nat)
    requires IsRun(states, run) && k < |states|
    ensures forall id: nat :: Places(states[k], id) == if id < states[k].nextTask then 1 else 0
    ensures states[k].active == Holding(states[k])
    ensures forall i :: 0 <= i < |states[k].threads| && Holds(states[k].threads[i].pc) ==>
              states[k].threads[i].pc.task.pin in {Any, Only(i)}
  {
    hide Places, Holding;
    RunInv(states, run, k);
    forall id: nat ensures Places(states[k], id) == if id < states[k].nextTask then 1 else 0 {
      assert TaskInv(states[k], id);
    }
    forall i | 0 <= i < |states[k].threads| && Holds(states[k].threads[i].pc)
      ensures states[k].threads[i].pc.task.pin in {Any, Only(i)} {
      assert PinInv(states[k].threads[i], i);
    }
  }

  /** A registration is pending in one slot, or its callback was queued once, or it was deleted once. */
  lemma OneWakeEach(states: seq<State>, run: seq<Action>, k: nat, r: nat)
    requires IsRun(states, run) && k < |states| && r < states[k].nextReg
    ensures var s := states[k];
            Sum(s.channels, RegW(r)) + multiset(s.fired)[r] + multiset(s.dropped)[r] == 1
  {
    RunInv(states, run, k);
    assert RegInv(states[k], r);
    SumIsCount(states[k].fired, r);
    SumIsCount(states[k].dropped, r);
  }

  lemma {:induction false} SumIsCount(s: seq<nat>, n: nat)
    ensures Sum(s, IsW(n)) == multiset(s)[n]
  {
    if s != [] {
      SumIsCount(s[..|s| - 1], n);
      assert s == s[..|s| - 1] + [s[|s| - 1]];
    }
  }

  /** The actions that end the registration of an event: a report of it, its deletion, its timeout. */
  predicate Removes(s: State, a: Action, fd: nat, ev: Ev)
    requires Enabled(s, a)
  {
    match a
    case Poll(_, f, read, write) => f == fd && if ev.READ? then read else write
    case Delete(_, f, e, _) => f == fd && e == ev
    case CallTimeout(i, expired) =>
      !expired && s.threads[i].pc.code.fd == fd && s.threads[i].pc.code.ev == ev
    case _ => false
  }

  /** The callback of a registration has been queued. */
  predicate Delivered(s: State, t: State, slot: Slot) {
    && !slot.Empty? && slot.reg in t.fired
    && exists k :: |s.tasks| <= k < |t.tasks| && t.tasks[k].body == SlotBody(slot) && t.tasks[k].pin == Any
  }

  /** A registration ends exactly when one of these actions ends it.  A deletion without trigger drops it;
      every other way queues its callback. */
  lemma EventRemoved(s: State, a: Action, fd: nat, ev: Ev)
    requires Inv(s) && Enabled(s, a) && fd < |s.channels| && s.channels[fd].Has(ev)
    ensures var t := Apply(s, a);
            var slot := s.channels[fd].At(ev);
            && fd < |t.channels|
            && (t.channels[fd].Has(ev) <==> !Removes(s, a, fd, ev))
            && (t.channels[fd].Has(ev) ==> t.channels[fd].At(ev) == slot)
            && (!t.channels[fd].Has(ev) ==>
                  if a.Delete? && !a.trigger then t.dropped == s.dropped + [slot.reg] && t.tasks == s.tasks
                  else t.dropped == s.dropped && Delivered(s, t, slot))
  {
    hide Apply, Enabled, Inv, Removes, Delivered;
    if OnEvents(a) {
      EventRemovedOn(s, a, fd, ev);
    } else {
      SameChannels(s, a);
      NotRemoved(s, a, fd, ev);
    }
  }

  lemma NotRemoved(s: State, a: Action, fd: nat, ev: Ev)
    requires Enabled(s, a) && !OnEvents(a)
    ensures !Removes(s, a, fd, ev)
  {
  }

  lemma EventRemovedOn(s: State, a: Action, fd: nat, ev: Ev)
    requires OnEvents(a)
    requires Inv(s) && Enabled(s, a) && fd < |s.channels| && s.channels[fd].Has(ev)
    ensures var t := Apply(s, a);
            var slot := s.channels[fd].At(ev);
            && fd < |t.channels|
            && (t.channels[fd].Has(ev) <==> !Removes(s, a, fd, ev))
            && (t.channels[fd].Has(ev) ==> t.channels[fd].At(ev) == slot)
            && (!t.channels[fd].Has(ev) ==>
                  if a.Delete? && !a.trigger then t.dropped == s.dropped + [slot.reg] && t.tasks == s.tasks
                  else t.dropped == s.dropped && Delivered(s, t, slot))
  {
    InvChannels(s);
    assert ChannelInv(s.channels[fd]);
    hide Inv, Register, DelEvent, Dispatch, ChannelsInv, ChannelInv, Delivered, SetCode;
    match a
    case Watch(_, f, e) => RegisterEvent(s, f, e, Callback(s.nextReg), fd, ev);
    case Park(i, f, e) => ParkedEvent(s, a, fd, ev);
    case Delete(_, f, e, trigger) => DelEventEvent(s, f, e, trigger, fd, ev);
    case CallTimeout(i, _) => TimedOutEvent(s, a, fd, ev);
    case Poll(_, f, read, write) => DispatchEvent(s, f, read, write, fd, ev);
  }

  lemma ParkedEvent(s: State, a: Action, fd: nat, ev: Ev)
    requires a.Park?
    requires Inv(s) && Enabled(s, a) && fd < |s.channels| && s.channels[fd].Has(ev)
    ensures var t := Apply(s, a);
            var slot := s.channels[fd].At(ev);
            && fd < |t.channels|
            && (t.channels[fd].Has(ev) <==> !Removes(s, a, fd, ev))
            && (t.channels[fd].Has(ev) ==> t.channels[fd].At(ev) == slot)
            && (!t.channels[fd].Has(ev) ==> t.dropped == s.dropped && Delivered(s, t, slot))
  {
    InvChannels(s);
    hide Inv, Register, ChannelsInv, ChannelInv, Delivered;
    RegisterEvent(s, a.fd, a.ev, Waiter(s.nextReg, s.threads[a.i].pc.fiber), fd, ev);
  }

  lemma TimedOutEvent(s: State, a: Action, fd: nat, ev: Ev)
    requires a.CallTimeout?
    requires Inv(s) && Enabled(s, a) && fd < |s.channels| && s.channels[fd].Has(ev)
    ensures var t := Apply(s, a);
            var slot := s.channels[fd].At(ev);
            && fd < |t.channels|
            && (t.channels[fd].Has(ev) <==> !Removes(s, a, fd, ev))
            && (t.channels[fd].Has(ev) ==> t.channels[fd].At(ev) == slot)
            && (!t.channels[fd].Has(ev) ==> t.dropped == s.dropped && Delivered(s, t, slot))
  {
    InvChannels(s);
    assert ChannelInv(s.channels[fd]);
    hide Inv, DelEvent, ChannelsInv, ChannelInv, Delivered;
    var code := s.threads[a.i].pc.code;
    if code.fd < |s.channels| {
      DelEventEvent(s, code.fd, code.ev, true, fd, ev);
      if Removes(s, a, fd, ev) {
        DeliveredFrame(s, DelEvent(s, code.fd, code.ev, true), Apply(s, a), s.channels[fd].At(ev));
      }
    }
  }

  lemma DeliveredFrame(s: State, t: State, u: State, slot: Slot)
    requires u.fired == t.fired && u.tasks == t.tasks && Delivered(s, t, slot)
    ensures Delivered(s, u, slot)
  {
  }

  lemma SameChannels(s: State, a: Action)
    requires Enabled(s, a) && !a.Watch? && !a.Park? && !a.Delete? && !a.CallTimeout? && !a.Poll?
    ensures Apply(s, a).channels == s.channels
  {
    hide FirstEligible;
  }

  lemma RegisterEvent(s: State, f: nat, e: Ev, slot: Slot, fd: nat, ev: Ev)
    requires fd < |s.channels| && s.channels[fd].Has(ev) && Unwatched(s, f, e)
    ensures var t := Register(s, f, e, slot);
            |t.channels| == |s.channels| && t.channels[fd].Has(ev) && t.channels[fd].At(ev) == s.channels[fd].At(ev)
  {
  }

  lemma DelEventEvent(s: State, f: nat, e: Ev, trigger: bool, fd: nat, ev: Ev)
    requires fd < |s.channels| && f < |s.channels| && s.channels[fd].Has(ev) && ChannelInv(s.channels[fd])
    ensures var t := DelEvent(s, f, e, trigger);
            var slot := s.channels[fd].At(ev);
            && |t.channels| == |s.channels|
            && (t.channels[fd].Has(ev) <==> f != fd || e != ev)
            && (t.channels[fd].Has(ev) ==> t.channels[fd].At(ev) == slot)
            && (f == fd && e == ev && !trigger ==> t.dropped == s.dropped + [slot.reg] && t.tasks == s.tasks)
            && (f == fd && e == ev && trigger ==> t.dropped == s.dropped && Delivered(s, t, slot))
  {
    if f == fd && e == ev && trigger {
      var t := DelEvent(s, f, e, trigger);
      assert t.tasks[|s.tasks|].body == SlotBody(s.channels[fd].At(ev));
    }
  }

  lemma DispatchEvent(s: State, f: nat, read: bool, write: bool, fd: nat, ev: Ev)
    requires fd < |s.channels| && f < |s.channels| && s.channels[fd].Has(ev) && ChannelInv(s.channels[fd])
    requires f == fd ==> (read ==> s.channels[f].read) && (write ==> s.channels[f].write)
    ensures var t := Dispatch(s, f, read, write);
            var slot := s.channels[fd].At(ev);
            && |t.channels| == |s.channels| && t.dropped == s.dropped
            && (t.channels[fd].Has(ev) <==> !(f == fd && if ev.READ? then read else write))
            && (t.channels[fd].Has(ev) ==> t.channels[fd].At(ev) == slot)
            && (!t.channels[fd].Has(ev) ==> Delivered(s, t, slot))
  {
    if f == fd {
      var t := Dispatch(s, f, read, write);
      if ev.READ? && read {
        assert t.tasks[|s.tasks|].body == SlotBody(s.channels[fd].At(ev));
      } else if ev.WRITE? && write {
        assert t.tasks[|t.tasks| - 1].body == SlotBody(s.channels[fd].At(ev));
      }
    }
  }

  /** The reactor's books: the pending count is the number of event bits, a slot is filled exactly when its
      bit is set, and the kernel watches exactly the bits. */
  lemma ReactorBooks(states: seq<State>, run: seq<Action>, k: nat)
    requires IsRun(states, run) && k < |states|
    ensures states[k].pending == Bits(states[k])
    ensures forall c :: 0 <= c < |states[k].channels| ==> ChannelInv(states[k].channels[c])
  {
    hide ChannelInv, Bits;
    RunInv(states, run, k);
  }

  /** Every ADD, MOD and DEL the reactor chooses is accepted by the kernel, except the DEL for a report that
      is handled when no event of the channel is left; and the slot that addEvent fills is empty, as it
      asserts. */
  lemma OpsLegal(states: seq<State>, run: seq<Action>, k: nat, fd: nat, ev: Ev, read: bool, write: bool)
    requires IsRun(states, run) && k < |states| && fd < |states[k].channels|
    requires (read ==> states[k].channels[fd].read) && (write ==> states[k].channels[fd].write)
    ensures var c := states[k].channels[fd];
            var left := c.With(ev, false, Empty);
            && !CtlFails(c.kernel, AddOp(c))
            && (!c.Has(ev) ==> c.At(ev).Empty?)
            && (c.Has(ev) ==> !CtlFails(c.kernel, DelOp(left.read, left.write)))
            && (CtlFails(c.kernel, DelOp(c.read && !read, c.write && !write)) <==> !c.read && !c.write)
  {
    RunInv(states, run, k);
    assert ChannelInv(states[k].channels[fd]);
  }

  // Stopping

  /** Actions of the scheduler alone: no events and no timers. */
  predicate SchedulerAction(a: Action) {
    a.Spawn? || a.Requeue? || a.Yield? || a.Finish? || a.Pick? || a.Resume? || a.Decrement? || a.IdleYield? ||
    a.StopCheck? || a.ExternalAdd? || a.SetStop?
  }

  /** Nothing outside the queue and the threads can add a task: no event, no timer, no expired callback. */
  predicate NoSources(s: State) {
    && (forall c :: 0 <= c < |s.channels| ==> s.channels[c] == NO_EVENTS)
    && s.timers == []
    && forall i :: 0 <= i < |s.threads| && s.threads[i].pc.Idle? ==> s.threads[i].pc.callbacks == []
  }

  predicate PlainFunc(b: Body) { b.RunFunc? ==> b.func.User? }

  /** Without events and timers no task is a timer callback. */
  predicate PlainThread(th: Thread) {
    match th.pc
    case Picked(t) => PlainFunc(t.body)
    case InFiber(_, _, code) => code.Free? || code.Parking?
    case Idle(cs) => cs == []
    case _ => true
  }

  predicate PlainState(s: State) {
    && (forall k :: 0 <= k < |s.tasks| ==> PlainFunc(s.tasks[k].body))
    && (forall i :: 0 <= i < |s.threads| ==> PlainThread(s.threads[i]))
    && (forall c :: 0 <= c < |s.channels| ==> s.channels[c] == NO_EVENTS)
    && s.timers == [] && s.lost == {}
  }

  lemma PlainStep(s: State, a: Action)
    requires PlainState(s) && SchedulerAction(a) && Enabled(s, a)
    ensures PlainState(Apply(s, a))
  {
    hide FirstEligible, Register, DelEvent, Dispatch, Recurring, Callbacks, PlainThread;
    if a.Pick? {
      PlainPick(s, a.i);
    } else if !a.ExternalAdd? && !a.SetStop? {
      assert PlainThread(s.threads[a.i]);
      PlainMove(s, a);
    }
  }

  lemma PlainPick(s: State, i: nat)
    requires PlainState(s) && At(s, i, Top)
    ensures PlainState(PickTask(s, i))
  {
    var k := FirstEligible(s.tasks, i, s.fibers, 0);
    assert k < |s.tasks| ==> PlainFunc(s.tasks[k].body);
  }

  lemma PlainMove(s: State, a: Action)
    requires PlainState(s) && SchedulerAction(a) && Enabled(s, a) && !a.ExternalAdd? && !a.SetStop? && !a.Pick?
    ensures PlainState(Apply(s, a))
  {
    hide Apply, Enabled, PlainState;
    if OfFiber(a) {
      PlainFiber(s, a);
    } else {
      PlainOther(s, a);
    }
  }

  lemma PlainFiber(s: State, a: Action)
    requires PlainState(s) && SchedulerAction(a) && Enabled(s, a) && OfFiber(a) && !a.ExternalAdd? && !a.SetStop?
    ensures PlainState(Apply(s, a))
  {
    hide FirstEligible;
    assert PlainThread(s.threads[a.i]);
  }

  lemma PlainOther(s: State, a: Action)
    requires PlainState(s) && SchedulerAction(a) && Enabled(s, a) && !OfFiber(a) && !a.Pick?
    ensures PlainState(Apply(s, a))
  {
    hide FirstEligible;
    assert PlainThread(s.threads[a.i]);
  }

  /** A thread that holds a task is counted. */
  lemma NobodyHolds(s: State, i: nat)
    requires CountInv(s) && s.active == 0 && i < |s.threads|
    ensures !Holds(s.threads[i].pc)
  {
    SumSplit(s.threads, i, HoldW());
  }

  /** When the scheduler may stop no thread is inside a fiber, so these are the only actions left. */
  lemma IdleOnly(s: State, a: Action)
    requires CountInv(s) && CanStop(s) && Enabled(s, a)
    ensures a.ExternalAdd? || a.SetStop? || a.Pick? || a.Expire? || a.Readd? || a.Poll? || a.IdleYield? || a.StopCheck?
  {
    hide CountInv;
    if !a.ExternalAdd? && !a.SetStop? && a.i < |s.threads| {
      NobodyHolds(s, a.i);
    }
  }

  /** Once the scheduler may stop and nothing but its own threads can add a task, that stays so. */
  lemma DrainedStays(s: State, a: Action)
    requires LedgersInv(s) && CanStop(s) && NoSources(s) && Enabled(s, a) && !a.ExternalAdd?
    ensures CanStop(Apply(s, a)) && NoSources(Apply(s, a)) && Apply(s, a).nextTask == s.nextTask
  {
    hide LedgersInv, CountInv, Apply, Enabled, CanStop, NoSources;
    LedgerCount(s);
    IdleOnly(s, a);
    DrainedIdle(s, a);
  }

  lemma DrainedIdle(s: State, a: Action)
    requires CanStop(s) && NoSources(s) && Enabled(s, a)
    requires a.SetStop? || a.Pick? || a.Expire? || a.Readd? || a.Poll? || a.IdleYield? || a.StopCheck?
    ensures CanStop(Apply(s, a)) && NoSources(Apply(s, a)) && Apply(s, a).nextTask == s.nextTask
  {
    hide FirstEligible, Callbacks;
    if a.Expire? {
      assert |a.rest + a.due| == |multiset(a.rest + a.due)| == 0;
    } else if a.Poll? {
      assert s.channels[a.fd] == NO_EVENTS;
    }
  }

  lemma LedgerCount(s: State)
    requires LedgersInv(s)
    ensures CountInv(s)
  {
  }

  /** Once nothing is left to do, and nothing but the scheduler's own threads can add a task, nothing is
      left to do forever; this covers the reactor too. */
  lemma {:induction false} DrainedForever(states: seq<State>, run: seq<Action>, k: nat, m: nat)
    requires IsRun(states, run) && k <= m < |states| && CanStop(states[k]) && NoSources(states[k])
    requires forall j :: k <= j < m ==> !run[j].ExternalAdd?
    ensures CanStop(states[m]) && NoSources(states[m]) && states[m].nextTask == states[k].nextTask
    decreases m
  {
    hide Initial, Enabled, Apply, CanStop, NoSources, FibersInv, LedgersInv;
    if k < m {
      DrainedForever(states, run, k, m - 1);
      RunInv(states, run, m - 1);
      DrainedStays(states[m - 1], run[m - 1]);
    }
  }

  /** A thread whose idle fiber has finished, or that has left run, found that the scheduler may stop. */
  predicate LeftQuietly(s: State) {
    forall i :: 0 <= i < |s.threads| && (s.threads[i].idleDone || s.threads[i].pc.Exited?) ==> CanStop(s)
  }

  lemma PlainSources(s: State)
    requires PlainState(s)
    ensures NoSources(s)
  {
    forall i | 0 <= i < |s.threads| && s.threads[i].pc.Idle? ensures s.threads[i].pc.callbacks == [] {
      assert PlainThread(s.threads[i]);
    }
  }

  lemma LeftStep(s: State, a: Action)
    requires LedgersInv(s) && PlainState(s) && LeftQuietly(s) && SchedulerAction(a) && Enabled(s, a)
    requires a.ExternalAdd? ==> !s.stopping
    ensures LeftQuietly(Apply(s, a))
  {
    hide LedgersInv, PlainState;
    if CanStop(s) {
      PlainSources(s);
      DrainedStays(s, a);
    } else {
      NotLeft(s, a);
    }
  }

  lemma NotLeft(s: State, a: Action)
    requires LeftQuietly(s) && !CanStop(s) && SchedulerAction(a) && Enabled(s, a)
    ensures LeftQuietly(Apply(s, a))
  {
    hide CanStop, Apply, Enabled, LeftQuietly;
    if OfFiber(a) {
      NotLeftFiber(s, a);
    } else {
      NotLeftOther(s, a);
    }
  }

  lemma NotLeftFiber(s: State, a: Action)
    requires LeftQuietly(s) && !CanStop(s) && SchedulerAction(a) && Enabled(s, a) && OfFiber(a)
    ensures LeftQuietly(Apply(s, a))
  {
    hide CanStop;
  }

  lemma NotLeftOther(s: State, a: Action)
    requires LeftQuietly(s) && !CanStop(s) && SchedulerAction(a) && Enabled(s, a) && !OfFiber(a)
    ensures LeftQuietly(Apply(s, a))
  {
    hide CanStop, FirstEligible;
  }

  /** A run of the plain scheduler to which nobody outside adds a task after stop. */
  predicate OrderlyRun(states: seq<State>, run: seq<Action>) {
    && IsRun(states, run)
    && forall j :: 0 <= j < |run| ==> SchedulerAction(run[j]) && (run[j].ExternalAdd? ==> !states[j].stopping)
  }

  lemma {:induction false} OrderlyInv(states: seq<State>, run: seq<Action>, k: nat)
    requires OrderlyRun(states, run) && k < |states|
    ensures PlainState(states[k]) && LeftQuietly(states[k])
  {
    hide Enabled, Apply, PlainState, LeftQuietly, FibersInv, LedgersInv;
    if k == 0 {
      OrderlyStart(states[0]);
    } else {
      OrderlyInv(states, run, k - 1);
      RunInv(states, run, k - 1);
      PlainStep(states[k - 1], run[k - 1]);
      LeftStep(states[k - 1], run[k - 1]);
    }
  }

  lemma OrderlyStart(s: State)
    requires Initial(s)
    ensures PlainState(s) && LeftQuietly(s)
  {
  }

  /** In runs of the scheduler alone, to which nobody outside adds a task after stop: once a thread has left
      run, nothing is left to do forever, and every fiber has finished. */
  lemma PlainQuiescence(states: seq<State>, run: seq<Action>, k: nat, m: nat, i: nat)
    requires OrderlyRun(states, run) && k <= m < |states|
    requires i < |states[k].threads| && states[k].threads[i].pc.Exited?
    ensures CanStop(states[m]) && NothingLeft(states[m]) && states[m].nextTask == states[k].nextTask
    ensures forall f :: 0 <= f < |states[m].fibers| ==> states[m].fibers[f].Term?
  {
    hide Initial, Enabled, Apply, PlainState, FibersInv, LedgersInv, NoSources;
    OrderlyInv(states, run, k);
    assert CanStop(states[k]);
    PlainSources(states[k]);
    OrderlyStops(states, run, k);
    DrainedForever(states, run, k, m);
    RunInv(states, run, m);
    AllDone(states[m]);
    OrderlyInv(states, run, m);
    forall f | 0 <= f < |states[m].fibers| ensures states[m].fibers[f].Term? { FiberDone(states[m], f); }
  }

  /** No suspended fiber is left behind: its wake token would have to be somewhere. */
  lemma FiberDone(s: State, f: nat)
    requires FibersInv(s) && PlainState(s) && s.tasks == [] && f < |s.fibers|
    requires forall j :: 0 <= j < |s.threads| ==> !Holds(s.threads[j].pc)
    ensures s.fibers[f].Term?
  {
    assert FiberInv(s, f);
    forall j | 0 <= j < |s.threads| ensures ThreadW(f)(s.threads[j]) == 0 { assert PlainThread(s.threads[j]); }
    SumZero(s.threads, ThreadW(f));
    SumZero(s.threads, RunW(f));
    SumZero(s.channels, ChannelW(f));
  }

  lemma {:induction false} OrderlyStops(states: seq<State>, run: seq<Action>, k: nat)
    requires OrderlyRun(states, run) && k < |states| && states[k].stopping
    ensures forall j :: k <= j < |run| ==> !run[j].ExternalAdd?
  {
    hide Initial, Enabled;
    forall j | k <= j < |run| ensures !run[j].ExternalAdd? { StoppingStays(states, run, k, j); }
  }

  lemma {:induction false} StoppingStays(states: seq<State>, run: seq<Action>, k: nat, j: nat)
    requires IsRun(states, run) && k <= j < |states| && states[k].stopping
    ensures states[j].stopping
    decreases j
  {
    hide Initial, Enabled, Apply;
    if k < j {
      StoppingStays(states, run, k, j - 1);
      StoppingStep(states[j - 1], run[j - 1]);
    }
  }

  lemma StoppingStep(s: State, a: Action)
    requires Enabled(s, a) && s.stopping
    ensures Apply(s, a).stopping
  {
    hide FirstEligible;
  }

  /** The queue is empty, no thread holds a task, and every accepted task has been run exactly once. */
  ghost predicate NothingLeft(s: State) {
    && s.tasks == [] && DoneOnce(s)
    && forall i :: 0 <= i < |s.threads| ==> !Holds(s.threads[i].pc)
  }

  ghost predicate DoneOnce(s: State) {
    forall id: nat :: multiset(s.done)[id] == if id < s.nextTask then 1 else 0
  }

  lemma AllDone(s: State)
    requires LedgersInv(s) && CanStop(s)
    ensures NothingLeft(s)
  {
    LedgerCount(s);
    forall j | 0 <= j < |s.threads| ensures !Holds(s.threads[j].pc) { NobodyHolds(s, j); }
    forall id: nat ensures multiset(s.done)[id] == if id < s.nextTask then 1 else 0 {
      assert TaskInv(s, id);
      SumZero(s.threads, HeldW(id));
      SumIsCount(s.done, id);
    }
  }

  /** The stop test holds exactly when stop has been called and every accepted task has been run once: its
      three reads, of a flag, a queue and a counter, tell all that. */
  lemma StopTest(s: State)
    requires LedgersInv(s)
    ensures CanStop(s) <==> s.stopping && DoneOnce(s)
  {
    if CanStop(s) {
      AllDone(s);
    } else if s.stopping && DoneOnce(s) {
      LedgerCount(s);
      if s.tasks != [] {
        DoneNotQueued(s, 0);
      }
      forall i | 0 <= i < |s.threads| ensures HoldW()(s.threads[i]) == 0 { DoneNotHeld(s, i); }
      SumZero(s.threads, HoldW());
    }
  }

  lemma DoneNotQueued(s: State, k: nat)
    requires LedgersInv(s) && k < |s.tasks|
    ensures !DoneOnce(s)
  {
    var id := s.tasks[k].id;
    assert TaskInv(s, id);
    SumSplit(s.tasks, k, QueuedW(id));
    SumIsCount(s.done, id);
  }

  lemma DoneNotHeld(s: State, i: nat)
    requires LedgersInv(s) && DoneOnce(s) && i < |s.threads|
    ensures !Holds(s.threads[i].pc)
  {
    if Holds(s.threads[i].pc) {
      var id := s.threads[i].pc.task.id;
      assert TaskInv(s, id);
      SumSplit(s.threads, i, HeldW(id));
      SumIsCount(s.done, id);
    }
  }

  // Stopping, in runs of any kind

  /** Actions that add a task although no thread holds one: a call from outside, the queueing of an expired
      timer's callback, and a report of an event. */
  predicate AddsTask(a: Action) { a.ExternalAdd? || a.Readd? || (a.Poll? && (a.read || a.write)) }

  /** When nothing is left to do, that ends exactly with such an action. */
  lemma StopKept(s: State, a: Action)
    requires Inv(s) && CanStop(s) && Enabled(s, a)
    ensures CanStop(Apply(s, a)) <==> !AddsTask(a)
    ensures !AddsTask(a) ==> Apply(s, a).nextTask == s.nextTask
  {
    InvChannels(s);
    LedgerCount(s);
    hide Inv, Apply, Enabled, ChannelsInv, CountInv, CanStop;
    IdleOnly(s, a);
    IdleKept(s, a);
  }

  lemma IdleKept(s: State, a: Action)
    requires ChannelsInv(s) && CanStop(s) && Enabled(s, a)
    requires a.ExternalAdd? || a.SetStop? || a.Pick? || a.Expire? || a.Readd? || a.Poll? || a.IdleYield? || a.StopCheck?
    ensures CanStop(Apply(s, a)) <==> !AddsTask(a)
    ensures !AddsTask(a) ==> Apply(s, a).nextTask == s.nextTask
  {
    hide FirstEligible, Dispatch, SpawnTask, ChannelsInv, Callbacks, Recurring;
    if a.ExternalAdd? {
      SpawnAdds(s, a.newFiber, a.pin);
    } else if a.Poll? {
      PollAdds(s, a.fd, a.read, a.write);
    }
  }

  lemma SpawnAdds(s: State, newFiber: bool, pin: Pin)
    ensures SpawnTask(s, newFiber, pin).tasks != []
  {
  }

  lemma PollAdds(s: State, fd: nat, read: bool, write: bool)
    requires ChannelsInv(s) && fd < |s.channels| && s.tasks == []
    requires (read ==> s.channels[fd].read) && (write ==> s.channels[fd].write)
    ensures var t := Dispatch(s, fd, read, write);
            && t.stopping == s.stopping && t.active == s.active
            && (t.tasks == [] <==> !read && !write) && (!read && !write ==> t.nextTask == s.nextTask)
  {
    assert ChannelInv(s.channels[fd]);
  }

  predicate HasLeft(th: Thread) { th.idleDone || th.pc.Exited? }

  /** A thread is told to leave by its own stop test only. */
  lemma LeftBy(s: State, a: Action, i: nat)
    requires Enabled(s, a) && i < |s.threads| && !HasLeft(s.threads[i])
    requires |Apply(s, a).threads| == |s.threads| && HasLeft(Apply(s, a).threads[i])
    ensures a == StopCheck(i) && CanStop(s)
  {
    hide Apply, Enabled, HasLeft, CanStop;
    if OnEvents(a) {
      LeftByEvents(s, a, i);
    } else if OfFiber(a) {
      LeftByFiber(s, a, i);
    } else {
      LeftByThread(s, a, i);
    }
  }

  lemma LeftByEvents(s: State, a: Action, i: nat)
    requires OnEvents(a)
    requires Enabled(s, a) && i < |s.threads| && !HasLeft(s.threads[i])
    requires |Apply(s, a).threads| == |s.threads|
    ensures !HasLeft(Apply(s, a).threads[i])
  {
    hide Register, DelEvent, Dispatch;
    match a
    case Watch(_, fd, ev) => RegisterFrame(s, fd, ev, Callback(s.nextReg));
    case Park(j, fd, ev) => RegisterFrame(s, fd, ev, Waiter(s.nextReg, s.threads[j].pc.fiber));
    case Delete(_, fd, ev, trigger) => DelEventFrame(s, fd, ev, trigger);
    case CallTimeout(j, _) =>
      var code := s.threads[j].pc.code;
      if code.fd < |s.channels| {
        DelEventFrame(s, code.fd, code.ev, true);
      }
    case Poll(_, fd, read, write) => DispatchFrame(s, fd, read, write);
  }

  lemma LeftByFiber(s: State, a: Action, i: nat)
    requires OfFiber(a)
    requires Enabled(s, a) && i < |s.threads| && !HasLeft(s.threads[i])
    requires |Apply(s, a).threads| == |s.threads|
    ensures !HasLeft(Apply(s, a).threads[i])
  {
  }

  lemma LeftByThread(s: State, a: Action, i: nat)
    requires !OnEvents(a) && !OfFiber(a)
    requires Enabled(s, a) && i < |s.threads| && !HasLeft(s.threads[i])
    requires |Apply(s, a).threads| == |s.threads| && HasLeft(Apply(s, a).threads[i])
    ensures a == StopCheck(i) && CanStop(s)
  {
    hide FirstEligible, Recurring, Callbacks;
  }

  lemma {:induction false} TestedBefore(states: seq<State>, run: seq<Action>, k: nat, i: nat) returns (j: nat)
    requires IsRun(states, run) && k < |states| && i < |states[k].threads| && HasLeft(states[k].threads[i])
    ensures j < k && run[j] == StopCheck(i) && CanStop(states[j])
    decreases k
  {
    hide Enabled, Apply, CanStop;
    if k == 0 {
      assert false;
    }
    ThreadCount(states[k - 1], run[k - 1]);
    if HasLeft(states[k - 1].threads[i]) {
      j := TestedBefore(states, run, k - 1, i);
    } else {
      LeftBy(states[k - 1], run[k - 1], i);
      j := k - 1;
    }
  }

  /** Between two states of a run no task is added from outside the threads that hold one. */
  predicate Undisturbed(run: seq<Action>, j: nat, m: nat)
    requires m <= |run|
  {
    forall l :: j <= l < m ==> !AddsTask(run[l])
  }

  lemma {:induction false} StaysStopped(states: seq<State>, run: seq<Action>, j: nat, m: nat)
    requires IsRun(states, run) && j <= m < |states| && CanStop(states[j]) && Undisturbed(run, j, m)
    ensures CanStop(states[m]) && states[m].nextTask == states[j].nextTask
    decreases m
  {
    hide Initial, Enabled, Apply, CanStop, Inv;
    if j < m {
      StaysStopped(states, run, j, m - 1);
      RunInv(states, run, m - 1);
      StopKept(states[m - 1], run[m - 1]);
    }
  }

  /** No thread leaves early, in any run, with events and timers too: a thread has left run only after a
      stop test of its own, in a state in which every task accepted so far had been run exactly once, the
      queue was empty and no thread held a task; and all of this stays so until a task is added from outside,
      by an expired timer or by a report of an event. */
  lemma Quiescence(states: seq<State>, run: seq<Action>, k: nat, i: nat) returns (j: nat)
    requires IsRun(states, run) && k < |states| && i < |states[k].threads| && states[k].threads[i].pc.Exited?
    ensures j < k && run[j] == StopCheck(i) && CanStop(states[j]) && NothingLeft(states[j])
    ensures forall m :: j <= m < |states| && Undisturbed(run, j, m) ==>
              CanStop(states[m]) && NothingLeft(states[m]) && states[m].nextTask == states[j].nextTask
  {
    hide Initial, Enabled, Apply, CanStop, NothingLeft, FibersInv, LedgersInv;
    j := TestedBefore(states, run, k, i);
    RunInv(states, run, j);
    AllDone(states[j]);
    forall m | j <= m < |states| && Undisturbed(run, j, m)
      ensures CanStop(states[m]) && NothingLeft(states[m]) && states[m].nextTask == states[j].nextTask {
      StaysStopped(states, run, j, m);
      RunInv(states, run, m);
      AllDone(states[m]);
    }
  }
}
