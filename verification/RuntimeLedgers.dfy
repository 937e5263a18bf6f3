/** Tasks and event registrations are conserved: each is in exactly one place, the counters of the
    scheduler and the reactor are right, and a pinned task is held by its own thread only. */
module RuntimeLedgers {
  import opened Counting
  import opened Runtime
  import opened RuntimeBooks
  import opened RuntimeFibers

  predicate TaskInv(s: State, id: nat) { Places(s, id) == if id < s.nextTask then 1 else 0 }

  predicate RegInv(s: State, r: nat) { Regs(s, r) == if r < s.nextReg then 1 else 0 }

  predicate CountInv(s: State) { s.active == Holding(s) && s.pending == Bits(s) }

  predicate PinInv(th: Thread, i: nat) { Holds(th.pc) ==> th.pc.task.pin == Any || th.pc.task.pin == Only(i) }

  ghost predicate LedgersInv(s: State) {
    && CountInv(s)
    && (forall id: nat :: TaskInv(s, id)) && (forall r: nat :: RegInv(s, r))
    && forall i :: 0 <= i < |s.threads| ==> PinInv(s.threads[i], i)
  }

  lemma InitialLedgers(s: State)
    requires Initial(s)
    ensures LedgersInv(s)
  {
    forall id: nat ensures TaskInv(s, id) { SumZero(s.threads, HeldW(id)); }
    forall r: nat ensures RegInv(s, r) { SumZero(s.channels, RegW(r)); }
    SumZero(s.threads, HoldW());
    SumZero(s.channels, BitsW());
  }

  // Tasks

  lemma AddTaskOnce(s: State, b: Body, p: Pin, id: nat)
    requires TaskInv(s, id)
    ensures TaskInv(AddTask(s, b, p), id)
  {
    AddTaskPlaces(s, b, p, id);
  }

  /** The queue, the threads and the finished tasks are all that a task's account depends on. */
  lemma PlacesFrame(s: State, t: State, id: nat)
    requires t.tasks == s.tasks && t.threads == s.threads && t.done == s.done && t.nextTask == s.nextTask
    ensures Places(t, id) == Places(s, id) && (TaskInv(s, id) ==> TaskInv(t, id))
  {
  }

  lemma SpawnOnce(s: State, newFiber: bool, pin: Pin, id: nat)
    requires TaskInv(s, id)
    ensures TaskInv(SpawnTask(s, newFiber, pin), id)
  {
    hide TaskInv;
    var r := s.(fibers := s.fibers + [Ready]);
    PlacesFrame(s, r, id);
    AddTaskOnce(r, RunFiber(|s.fibers|), pin, id);
    AddTaskOnce(s, RunFunc(User), pin, id);
  }

  lemma TriggerOnce(s: State, fd: nat, ev: Ev, id: nat)
    requires fd < |s.channels| && TaskInv(s, id)
    ensures TaskInv(Trigger(s, fd, ev), id)
  {
    hide Places;
    var slot := s.channels[fd].At(ev);
    var r := s.(channels := s.channels[fd := s.channels[fd].With(ev, false, Empty)], pending := s.pending - 1);
    PlacesFrame(s, r, id);
    if !slot.Empty? {
      AddTaskOnce(r, SlotBody(slot), Any, id);
      PlacesFrame(AddTask(r, SlotBody(slot), Any), Trigger(s, fd, ev), id);
    }
  }

  lemma DelEventOnce(s: State, fd: nat, ev: Ev, trigger: bool, id: nat)
    requires fd < |s.channels| && TaskInv(s, id)
    ensures TaskInv(DelEvent(s, fd, ev, trigger), id)
  {
    hide TaskInv, Trigger;
    var left := s.channels[fd].With(ev, false, Empty);
    var r := SetKernel(s, fd, Ctl(DelOp(left.read, left.write), left.read, left.write));
    PlacesFrame(s, r, id);
    TriggerOnce(r, fd, ev, id);
    PlacesFrame(r, Drop(r, fd, ev), id);
  }

  lemma DispatchOnce(s: State, fd: nat, read: bool, write: bool, id: nat)
    requires fd < |s.channels| && TaskInv(s, id)
    ensures TaskInv(Dispatch(s, fd, read, write), id)
  {
    hide TaskInv, Trigger;
    var c := s.channels[fd];
    var op := DelOp(c.read && !read, c.write && !write);
    var k := SetKernel(s, fd, Ctl(op, c.read && !read, c.write && !write));
    PlacesFrame(s, k, id);
    TriggerOnce(k, fd, READ, id);
    TriggerWidth(k, fd, READ);
    TriggerOnce(if read then Trigger(k, fd, READ) else k, fd, WRITE, id);
  }

  /** A thread moves on, and takes up or lays down no task. */
  lemma SetPcOnce(s: State, i: nat, pc: Pc, id: nat)
    requires i < |s.threads| && TaskInv(s, id)
    requires Holds(pc) == Holds(s.threads[i].pc) && (Holds(pc) ==> pc.task == s.threads[i].pc.task)
    ensures TaskInv(SetPc(s, i, pc), id)
  {
    hide Places;
    SetPcPlaces(s, i, pc, id);
  }

  lemma PickOnce(s: State, i: nat, id: nat)
    requires At(s, i, Top) && TaskInv(s, id)
    ensures TaskInv(PickTask(s, i), id)
  {
    hide TaskInv, FirstEligible;
    var k := FirstEligible(s.tasks, i, s.fibers, 0);
    if k < |s.tasks| {
      var r := s.(tasks := s.tasks[..k] + s.tasks[k + 1..], active := s.active + 1);
      PickPlaces(s, r, i, k, id);
    } else {
      SetPcOnce(s, i, if s.threads[i].idleDone then Exited else Idle([]), id);
    }
  }

  lemma PickPlaces(s: State, r: State, i: nat, k: nat, id: nat)
    requires At(s, i, Top) && TaskInv(s, id) && k < |s.tasks|
    requires r == s.(tasks := s.tasks[..k] + s.tasks[k + 1..], active := s.active + 1)
    ensures TaskInv(SetPc(r, i, Picked(s.tasks[k])), id)
  {
    SumRemove(s.tasks, k, QueuedW(id));
    SetPcPlaces(r, i, Picked(s.tasks[k]), id);
  }

  lemma DonePlaces(s: State, r: State, n: nat, id: nat)
    requires r.tasks == s.tasks && r.threads == s.threads && r.done == s.done + [n]
    ensures Places(r, id) == Places(s, id) + if n == id then 1 else 0
  {
    SumSnoc(s.done, n, IsW(id));
  }

  lemma DecrementOnce(s: State, i: nat, id: nat)
    requires Enabled(s, Decrement(i)) && TaskInv(s, id)
    ensures TaskInv(Apply(s, Decrement(i)), id)
  {
    hide Places;
    var n := s.threads[i].pc.task.id;
    var r := s.(active := s.active - 1, done := s.done + [n]);
    DonePlaces(s, r, n, id);
    SetPcPlaces(r, i, Top, id);
  }

  lemma StopOnce(s: State, i: nat, id: nat)
    requires IdleWith(s, i, true) && TaskInv(s, id)
    ensures TaskInv(Apply(s, StopCheck(i)), id)
  {
    SumUpdate(s.threads, i, Thread(Top, true), HeldW(id));
  }

  /** Inside a fiber a thread keeps its task. */
  lemma CodeOnce(r: State, i: nat, code: Code, id: nat)
    requires i < |r.threads| && r.threads[i].pc.InFiber? && TaskInv(r, id)
    ensures TaskInv(SetCode(r, i, code), id)
  {
    hide TaskInv;
    SetPcOnce(r, i, r.threads[i].pc.(code := code), id);
  }

  lemma ParkingOnce(s: State, a: Action, id: nat)
    requires (a.Park? || a.Sleep? || a.Requeue?) && Enabled(s, a) && TaskInv(s, id)
    ensures TaskInv(Apply(s, a), id)
  {
    hide TaskInv, SetCode;
    var g := s.threads[a.i].pc.fiber;
    match a
    case Park(i, fd, ev) =>
      var r := Register(s, fd, ev, Waiter(s.nextReg, g));
      RegisterFrame(s, fd, ev, Waiter(s.nextReg, g));
      PlacesFrame(s, r, id);
      CodeOnce(r, i, Parking, id);
    case Sleep(i) =>
      var r := s.(timers := s.timers + [Timer(Wake(g), false)]);
      PlacesFrame(s, r, id);
      CodeOnce(r, i, Parking, id);
    case Requeue(i) =>
      AddTaskOnce(s, RunFiber(g), Any, id);
      CodeOnce(AddTask(s, RunFiber(g), Any), i, Parking, id);
  }

  lemma CallOnce(s: State, a: Action, id: nat)
    requires (a.CallWake? || a.CallTimeout?) && Enabled(s, a) && TaskInv(s, id)
    ensures TaskInv(Apply(s, a), id)
  {
    hide TaskInv, SetCode, DelEvent;
    match a
    case CallWake(i) =>
      var b := RunFiber(s.threads[i].pc.code.fiber);
      AddTaskOnce(s, b, Any, id);
      CodeOnce(AddTask(s, b, Any), i, Ending, id);
    case CallTimeout(i, expired) =>
      var code := s.threads[i].pc.code;
      if expired || code.fd >= |s.channels| {
        CodeOnce(s, i, Ending, id);
      } else {
        DelEventOnce(s, code.fd, code.ev, true, id);
        DelEventFrame(s, code.fd, code.ev, true);
        CodeOnce(DelEvent(s, code.fd, code.ev, true), i, Ending, id);
      }
  }

  lemma ResumeOnce(s: State, i: nat, id: nat)
    requires Enabled(s, Resume(i)) && TaskInv(s, id)
    ensures TaskInv(ResumeTask(s, i), id)
  {
    hide TaskInv;
    var t := s.threads[i].pc.task;
    match t.body
    case RunFiber(f) =>
      var r := if f < |s.fibers| then s.(fibers := s.fibers[f := Running]) else s;
      PlacesFrame(s, r, id);
      SetPcOnce(r, i, InFiber(t, f, Free), id);
    case RunFunc(fn) =>
      PlacesFrame(s, s.(fibers := s.fibers + [Running]), id);
      SetPcOnce(s.(fibers := s.fibers + [Running]), i, InFiber(t, |s.fibers|, FuncCode(fn)), id);
  }

  lemma LeaveOnce(s: State, i: nat, to: FiberState, id: nat)
    requires i < |s.threads| && s.threads[i].pc.InFiber? && s.threads[i].pc.fiber < |s.fibers| && TaskInv(s, id)
    ensures TaskInv(Leave(s, i, to), id)
  {
    hide TaskInv;
    var r := s.(fibers := s.fibers[s.threads[i].pc.fiber := to]);
    PlacesFrame(s, r, id);
    SetPcOnce(r, i, Returned(s.threads[i].pc.task), id);
  }

  lemma IdleOnce(s: State, a: Action, id: nat)
    requires (a.Expire? || a.Readd? || a.IdleYield?) && Enabled(s, a) && TaskInv(s, id)
    ensures TaskInv(Apply(s, a), id)
  {
    hide TaskInv;
    match a
    case Expire(i, due, rest) =>
      PlacesFrame(s, s.(timers := rest + Recurring(due)), id);
      SetPcOnce(s.(timers := rest + Recurring(due)), i, Idle(Callbacks(due)), id);
    case Readd(i) =>
      var cs := s.threads[i].pc.callbacks;
      AddTaskOnce(s, RunFunc(cs[0]), Any, id);
      SetPcOnce(AddTask(s, RunFunc(cs[0]), Any), i, Idle(cs[1..]), id);
    case IdleYield(i) => SetPcOnce(s, i, Top, id);
  }

  lemma TaskStep(s: State, a: Action, id: nat)
    requires Enabled(s, a) && TaskInv(s, id)
    ensures TaskInv(Apply(s, a), id)
  {
    hide TaskInv, SpawnTask, Register, DelEvent, ParkIo, Dispatch, Leave, PickTask, ResumeTask;
    match a
    case Spawn(_, newFiber, pin) => SpawnOnce(s, newFiber, pin, id);
    case ExternalAdd(newFiber, pin) => SpawnOnce(s, newFiber, pin, id);
    case Watch(_, fd, ev) =>
      RegisterFrame(s, fd, ev, Callback(s.nextReg));
      PlacesFrame(s, Apply(s, a), id);
    case SetTimer(_, _) => PlacesFrame(s, Apply(s, a), id);
    case CancelTimer(_, _) => PlacesFrame(s, Apply(s, a), id);
    case Delete(_, fd, ev, trigger) => DelEventOnce(s, fd, ev, trigger, id);
    case Park(_, _, _) => ParkingOnce(s, a, id);
    case Sleep(_) => ParkingOnce(s, a, id);
    case Requeue(_) => ParkingOnce(s, a, id);
    case Yield(i) => LeaveOnce(s, i, Ready, id);
    case Finish(i) => LeaveOnce(s, i, Term, id);
    case CallWake(_) => CallOnce(s, a, id);
    case CallTimeout(_, _) => CallOnce(s, a, id);
    case Pick(i) => PickOnce(s, i, id);
    case Resume(i) => ResumeOnce(s, i, id);
    case Decrement(i) => DecrementOnce(s, i, id);
    case Expire(_, _, _) => IdleOnce(s, a, id);
    case Readd(_) => IdleOnce(s, a, id);
    case IdleYield(_) => IdleOnce(s, a, id);
    case Poll(_, fd, read, write) => DispatchOnce(s, fd, read, write, id);
    case StopCheck(i) => StopOnce(s, i, id);
    case SetStop => PlacesFrame(s, s.(stopping := true), id);
  }

  // Pins

  lemma PinStep(s: State, a: Action, j: nat)
    requires Enabled(s, a) && j < |s.threads| && PinInv(s.threads[j], j)
    ensures j < |Apply(s, a).threads| && PinInv(Apply(s, a).threads[j], j)
  {
    hide Apply, Enabled, PinInv;
    if OnEvents(a) {
      PinStepEvents(s, a, j);
    } else if OfFiber(a) {
      PinStepFiber(s, a, j);
    } else {
      PinStepThread(s, a, j);
    }
  }

  lemma PinStepEvents(s: State, a: Action, j: nat)
    requires OnEvents(a)
    requires Enabled(s, a) && j < |s.threads| && PinInv(s.threads[j], j)
    ensures j < |Apply(s, a).threads| && PinInv(Apply(s, a).threads[j], j)
  {
    hide Register, DelEvent, Dispatch;
    match a
    case Watch(_, fd, ev) => RegisterFrame(s, fd, ev, Callback(s.nextReg));
    case Park(i, fd, ev) => RegisterFrame(s, fd, ev, Waiter(s.nextReg, s.threads[i].pc.fiber));
    case Delete(_, fd, ev, trigger) => DelEventFrame(s, fd, ev, trigger);
    case CallTimeout(i, _) =>
      var code := s.threads[i].pc.code;
      if code.fd < |s.channels| {
        DelEventFrame(s, code.fd, code.ev, true);
      }
    case Poll(_, fd, read, write) => DispatchFrame(s, fd, read, write);
  }

  lemma PinStepFiber(s: State, a: Action, j: nat)
    requires OfFiber(a)
    requires Enabled(s, a) && j < |s.threads| && PinInv(s.threads[j], j)
    ensures j < |Apply(s, a).threads| && PinInv(Apply(s, a).threads[j], j)
  {
  }

  lemma PinStepThread(s: State, a: Action, j: nat)
    requires !OnEvents(a) && !OfFiber(a)
    requires Enabled(s, a) && j < |s.threads| && PinInv(s.threads[j], j)
    ensures j < |Apply(s, a).threads| && PinInv(Apply(s, a).threads[j], j)
  {
    hide Recurring, Callbacks, CanStop;
  }

  // Registrations and event bits

  /** What the accounts of the reactor depend on. */
  predicate SameEvents(s: State, t: State) {
    t.channels == s.channels && t.fired == s.fired && t.dropped == s.dropped && t.nextReg == s.nextReg
    && t.pending == s.pending
  }

  predicate EventsInv(s: State, r: nat) { RegInv(s, r) && s.pending == Bits(s) }

  lemma EventsFrame(s: State, t: State, r: nat)
    requires SameEvents(s, t) && EventsInv(s, r)
    ensures EventsInv(t, r)
  {
  }

  lemma RegisterEvents(s: State, fd: nat, ev: Ev, slot: Slot, r: nat)
    requires ChannelsInv(s) && Unwatched(s, fd, ev) && !slot.Empty? && slot.reg == s.nextReg && EventsInv(s, r)
    ensures EventsInv(Register(s, fd, ev, slot), r)
  {
    hide Regs, Bits;
    assert ChannelInv(s.channels[fd]);
    RegisterRegs(s, fd, ev, slot, r);
  }

  lemma TriggerEvents(s: State, fd: nat, ev: Ev, r: nat)
    requires fd < |s.channels| && s.channels[fd].Has(ev) && EventsInv(s, r)
    ensures EventsInv(Trigger(s, fd, ev), r)
  {
    hide Regs, Bits;
    TriggerRegs(s, fd, ev, r);
  }

  lemma KernelEvents(s: State, fd: nat, k: Kernel, r: nat)
    requires fd < |s.channels| && EventsInv(s, r)
    ensures EventsInv(SetKernel(s, fd, k), r)
  {
    hide Regs, Bits;
    SetKernelRegs(s, fd, k, r);
  }

  lemma DelEventEvents(s: State, fd: nat, ev: Ev, trigger: bool, r: nat)
    requires fd < |s.channels| && EventsInv(s, r)
    ensures EventsInv(DelEvent(s, fd, ev, trigger), r)
  {
    hide Regs, Bits, Trigger, Drop, RegInv;
    var left := s.channels[fd].With(ev, false, Empty);
    var t := SetKernel(s, fd, Ctl(DelOp(left.read, left.write), left.read, left.write));
    KernelEvents(s, fd, t.channels[fd].kernel, r);
    if s.channels[fd].Has(ev) {
      TriggerEvents(t, fd, ev, r);
      DropEvents(t, fd, ev, r);
    }
  }

  lemma DropEvents(s: State, fd: nat, ev: Ev, r: nat)
    requires fd < |s.channels| && s.channels[fd].Has(ev) && EventsInv(s, r)
    ensures EventsInv(Drop(s, fd, ev), r)
  {
    hide Regs, Bits;
    DropRegs(s, fd, ev, r);
  }

  lemma DispatchEvents(s: State, fd: nat, read: bool, write: bool, r: nat)
    requires fd < |s.channels| && (read ==> s.channels[fd].read) && (write ==> s.channels[fd].write)
    requires EventsInv(s, r)
    ensures EventsInv(Dispatch(s, fd, read, write), r)
  {
    hide Regs, Bits, RegInv;
    var c := s.channels[fd];
    var op := DelOp(c.read && !read, c.write && !write);
    var k := SetKernel(s, fd, Ctl(op, c.read && !read, c.write && !write));
    KernelEvents(s, fd, k.channels[fd].kernel, r);
    if read {
      TriggerEvents(k, fd, READ, r);
    }
    if write {
      TriggerEvents(if read then Trigger(k, fd, READ) else k, fd, WRITE, r);
    }
  }

  lemma EventStep(s: State, a: Action, r: nat)
    requires ChannelsInv(s) && Enabled(s, a) && EventsInv(s, r)
    ensures EventsInv(Apply(s, a), r)
  {
    hide Apply, EventsInv, ChannelsInv;
    if OnEvents(a) {
      EventOn(s, a, r);
    } else {
      EventOther(s, a, r);
    }
  }

  lemma EventOther(s: State, a: Action, r: nat)
    requires !OnEvents(a)
    requires ChannelsInv(s) && Enabled(s, a) && EventsInv(s, r)
    ensures EventsInv(Apply(s, a), r)
  {
    hide EventsInv, FirstEligible, Recurring, Callbacks, CanStop;
    EventsFrame(s, Apply(s, a), r);
  }

  lemma EventOn(s: State, a: Action, r: nat)
    requires OnEvents(a)
    requires ChannelsInv(s) && Enabled(s, a) && EventsInv(s, r)
    ensures EventsInv(Apply(s, a), r)
  {
    hide Register, DelEvent, Dispatch, EventsInv;
    match a
    case Watch(_, fd, ev) => RegisterEvents(s, fd, ev, Callback(s.nextReg), r);
    case Park(i, fd, ev) =>
      var slot := Waiter(s.nextReg, s.threads[i].pc.fiber);
      RegisterEvents(s, fd, ev, slot, r);
      RegisterFrame(s, fd, ev, slot);
      EventsFrame(Register(s, fd, ev, slot), SetCode(Register(s, fd, ev, slot), i, Parking), r);
    case Delete(_, fd, ev, trigger) => DelEventEvents(s, fd, ev, trigger, r);
    case CallTimeout(i, expired) =>
      var code := s.threads[i].pc.code;
      if expired || code.fd >= |s.channels| {
        EventsFrame(s, Apply(s, a), r);
      } else {
        DelEventEvents(s, code.fd, code.ev, true, r);
        DelEventFrame(s, code.fd, code.ev, true);
        EventsFrame(DelEvent(s, code.fd, code.ev, true), Apply(s, a), r);
      }
    case Poll(_, fd, read, write) => DispatchEvents(s, fd, read, write, r);
  }

  // The count of active threads

  predicate ActiveInv(s: State) { s.active == Holding(s) }

  lemma ActiveFrame(s: State, t: State)
    requires t.threads == s.threads && t.active == s.active && ActiveInv(s)
    ensures ActiveInv(t)
  {
  }

  /** A thread moves on; the counter follows it. */
  lemma ActiveSetPc(s: State, r: State, i: nat, pc: Pc)
    requires i < |s.threads| && r.threads == s.threads && ActiveInv(s)
    requires r.active == s.active + (if Holds(pc) then 1 else 0) - if Holds(s.threads[i].pc) then 1 else 0
    ensures ActiveInv(SetPc(r, i, pc))
  {
    SetPcHolding(r, i, pc);
  }

  lemma ActiveStep(s: State, a: Action)
    requires Enabled(s, a) && ActiveInv(s)
    ensures ActiveInv(Apply(s, a))
  {
    hide Register, DelEvent, Dispatch, ActiveInv, FirstEligible;
    match a
    case Watch(_, fd, ev) =>
      RegisterFrame(s, fd, ev, Callback(s.nextReg));
      ActiveFrame(s, Apply(s, a));
    case Park(i, fd, ev) =>
      var slot := Waiter(s.nextReg, s.threads[i].pc.fiber);
      RegisterFrame(s, fd, ev, slot);
      ActiveSetPc(s, Register(s, fd, ev, slot), i, s.threads[i].pc.(code := Parking));
    case Delete(_, fd, ev, trigger) =>
      DelEventFrame(s, fd, ev, trigger);
      ActiveFrame(s, Apply(s, a));
    case CallTimeout(i, expired) =>
      var code := s.threads[i].pc.code;
      var r := if expired || code.fd >= |s.channels| then s else DelEvent(s, code.fd, code.ev, true);
      if r != s {
        DelEventFrame(s, code.fd, code.ev, true);
      }
      ActiveSetPc(s, r, i, s.threads[i].pc.(code := Ending));
    case Poll(_, fd, read, write) =>
      DispatchFrame(s, fd, read, write);
      ActiveFrame(s, Apply(s, a));
    case _ => ActiveOther(s, a);
  }

  lemma ActiveOther(s: State, a: Action)
    requires Enabled(s, a) && ActiveInv(s) && !OnEvents(a)
    ensures ActiveInv(Apply(s, a))
  {
    hide ActiveInv, Apply;
    if OfFiber(a) {
      ActiveFiber(s, a);
    } else if a.StopCheck? {
      StopActive(s, a.i);
    } else {
      ActiveThread(s, a);
    }
  }

  lemma ActiveFiber(s: State, a: Action)
    requires Enabled(s, a) && ActiveInv(s) && OfFiber(a)
    ensures ActiveInv(Apply(s, a))
  {
    hide ActiveInv, FirstEligible;
    var t := Apply(s, a);
    if t.threads == s.threads && t.active == s.active {
      ActiveFrame(s, t);
    } else {
      assert !a.ExternalAdd? && !a.SetStop?;
      var pc := t.threads[a.i].pc;
      var r := t.(threads := s.threads);
      assert t.threads == s.threads[a.i := s.threads[a.i].(pc := pc)];
      ActiveSetPc(s, r, a.i, pc);
      assert SetPc(r, a.i, pc) == t;
    }
  }

  lemma ActiveThread(s: State, a: Action)
    requires Enabled(s, a) && ActiveInv(s) && !OnEvents(a) && !OfFiber(a) && !a.StopCheck?
    ensures ActiveInv(Apply(s, a))
  {
    hide ActiveInv, FirstEligible, Recurring, Callbacks;
    var t := Apply(s, a);
    if t.threads == s.threads && t.active == s.active {
      ActiveFrame(s, t);
    } else {
      assert !a.ExternalAdd? && !a.SetStop?;
      var pc := t.threads[a.i].pc;
      var r := t.(threads := s.threads);
      assert t.threads == s.threads[a.i := s.threads[a.i].(pc := pc)];
      ActiveSetPc(s, r, a.i, pc);
      assert SetPc(r, a.i, pc) == t;
    }
  }

  lemma StopActive(s: State, i: nat)
    requires IdleWith(s, i, true) && ActiveInv(s)
    ensures ActiveInv(Apply(s, StopCheck(i)))
  {
    SumUpdate(s.threads, i, Thread(Top, true), HoldW());
  }

  /** Every action keeps all accounts of the scheduler and the reactor. */
  lemma LedgersStep(s: State, a: Action)
    requires ChannelsInv(s) && LedgersInv(s) && Enabled(s, a)
    ensures LedgersInv(Apply(s, a))
  {
    hide Apply, ChannelsInv, TaskInv, RegInv, PinInv, Holding, Bits;
    var t := Apply(s, a);
    ActiveStep(s, a);
    assert RegInv(s, 0);
    EventStep(s, a, 0);
    forall id: nat ensures TaskInv(t, id) { TaskStep(s, a, id); }
    forall r: nat ensures RegInv(t, r) { EventStep(s, a, r); }
    ThreadCount(s, a);
    forall j | 0 <= j < |t.threads| ensures PinInv(t.threads[j], j) { PinStep(s, a, j); }
  }
}
