/** What the runtime conserves, as counts over its state, and how its parts change the counts. */
module RuntimeBooks {
  import opened Counting
  import opened Runtime

  // Wake tokens: everything that will make a given fiber runnable again

  function FuncTokens(func: Func, f: nat): nat { if func == Wake(f) then 1 else 0 }

  function BodyTokens(b: Body, f: nat): nat {
    match b
    case RunFiber(g) => if g == f then 1 else 0
    case RunFunc(fn) => FuncTokens(fn, f)
  }

  function FuncW(f: nat): Func -> nat { (fn: Func) => FuncTokens(fn, f) }

  function TaskW(f: nat): Task -> nat { (t: Task) => BodyTokens(t.body, f) }

  function ThreadTokens(pc: Pc, f: nat): nat {
    match pc
    case Picked(t) => BodyTokens(t.body, f)
    case InFiber(_, _, code) => if code == Waking(f) then 1 else 0
    case Idle(cs) => Sum(cs, FuncW(f))
    case _ => 0
  }

  function ThreadW(f: nat): Thread -> nat { (th: Thread) => ThreadTokens(th.pc, f) }

  function SlotTokens(slot: Slot, f: nat): nat {
    match slot
    case Empty => 0
    case Waiter(_, g) => if g == f then 1 else 0
    case Callback(_) => 0
  }

  function ChannelW(f: nat): Channel -> nat { (c: Channel) => SlotTokens(c.onRead, f) + SlotTokens(c.onWrite, f) }

  function TimerW(f: nat): Timer -> nat { (t: Timer) => FuncTokens(t.func, f) }

  /** The wake tokens of a fiber: channel slots, queue entries, picked tasks, and sleep timers from the
      timer set to the end of their callback. */
  function Tokens(s: State, f: nat): nat {
    Sum(s.tasks, TaskW(f)) + Sum(s.threads, ThreadW(f)) + Sum(s.channels, ChannelW(f)) + Sum(s.timers, TimerW(f))
  }

  // Threads inside a given fiber

  function RunW(f: nat): Thread -> nat { (th: Thread) => if th.pc.InFiber? && th.pc.fiber == f then 1 else 0 }

  function ParkW(f: nat): Thread -> nat {
    (th: Thread) => if th.pc.InFiber? && th.pc.fiber == f && th.pc.code.Parking? then 1 else 0
  }

  function Runs(s: State, f: nat): nat { Sum(s.threads, RunW(f)) }

  function Parks(s: State, f: nat): nat { Sum(s.threads, ParkW(f)) }

  // Tasks

  predicate Holds(pc: Pc) { pc.Picked? || pc.InFiber? || pc.Returned? }

  function HoldW(): Thread -> nat { (th: Thread) => if Holds(th.pc) then 1 else 0 }

  /** The threads that have taken a task and are not done with it. */
  function Holding(s: State): nat { Sum(s.threads, HoldW()) }

  function QueuedW(id: nat): Task -> nat { (t: Task) => if t.id == id then 1 else 0 }

  function HeldW(id: nat): Thread -> nat { (th: Thread) => if Holds(th.pc) && th.pc.task.id == id then 1 else 0 }

  function IsW(n: nat): nat -> nat { (m: nat) => if m == n then 1 else 0 }

  /** How often a task is queued, held by a thread, or done. */
  function Places(s: State, id: nat): nat {
    Sum(s.tasks, QueuedW(id)) + Sum(s.threads, HeldW(id)) + Sum(s.done, IsW(id))
  }

  // Registrations

  function SlotRegs(slot: Slot, r: nat): nat { if !slot.Empty? && slot.reg == r then 1 else 0 }

  function RegW(r: nat): Channel -> nat { (c: Channel) => SlotRegs(c.onRead, r) + SlotRegs(c.onWrite, r) }

  /** How often a registration is pending, has been delivered, or has been deleted. */
  function Regs(s: State, r: nat): nat {
    Sum(s.channels, RegW(r)) + Sum(s.fired, IsW(r)) + Sum(s.dropped, IsW(r))
  }

  function BitsW(): Channel -> nat { (c: Channel) => (if c.read then 1 else 0) + (if c.write then 1 else 0) }

  /** The event bits over all channels. */
  function Bits(s: State): nat { Sum(s.channels, BitsW()) }

  // How the counts change

  lemma AddTaskTokens(s: State, b: Body, p: Pin, f: nat)
    ensures Tokens(AddTask(s, b, p), f) == Tokens(s, f) + BodyTokens(b, f)
  {
    SumSnoc(s.tasks, Task(s.nextTask, b, p), TaskW(f));
  }

  lemma SetPcTokens(s: State, i: nat, pc: Pc, f: nat)
    requires i < |s.threads|
    ensures Tokens(SetPc(s, i, pc), f) + ThreadTokens(s.threads[i].pc, f) == Tokens(s, f) + ThreadTokens(pc, f)
  {
    SumUpdate(s.threads, i, s.threads[i].(pc := pc), ThreadW(f));
  }

  lemma SetPcRuns(s: State, i: nat, pc: Pc, f: nat)
    requires i < |s.threads|
    ensures var th := s.threads[i];
            && Runs(SetPc(s, i, pc), f) + RunW(f)(th) == Runs(s, f) + RunW(f)(th.(pc := pc))
            && Parks(SetPc(s, i, pc), f) + ParkW(f)(th) == Parks(s, f) + ParkW(f)(th.(pc := pc))
  {
    SumUpdate(s.threads, i, s.threads[i].(pc := pc), RunW(f));
    SumUpdate(s.threads, i, s.threads[i].(pc := pc), ParkW(f));
  }

  lemma TriggerTokens(s: State, fd: nat, ev: Ev, f: nat)
    requires fd < |s.channels|
    ensures Tokens(Trigger(s, fd, ev), f) == Tokens(s, f)
  {
    var c := s.channels[fd];
    var slot := c.At(ev);
    var r := s.(channels := s.channels[fd := c.With(ev, false, Empty)], pending := s.pending - 1);
    SumUpdate(s.channels, fd, c.With(ev, false, Empty), ChannelW(f));
    assert Tokens(r, f) + SlotTokens(slot, f) == Tokens(s, f);
    if !slot.Empty? {
      AddTaskTokens(r, SlotBody(slot), Any, f);
      assert BodyTokens(SlotBody(slot), f) == SlotTokens(slot, f);
      assert Tokens(Trigger(s, fd, ev), f) == Tokens(AddTask(r, SlotBody(slot), Any), f);
    }
  }

  lemma DropTokens(s: State, fd: nat, ev: Ev, f: nat)
    requires fd < |s.channels|
    ensures Tokens(Drop(s, fd, ev), f) + SlotTokens(s.channels[fd].At(ev), f) == Tokens(s, f)
  {
    SumUpdate(s.channels, fd, s.channels[fd].With(ev, false, Empty), ChannelW(f));
  }

  lemma SetKernelTokens(s: State, fd: nat, k: Kernel, f: nat)
    requires fd < |s.channels|
    ensures Tokens(SetKernel(s, fd, k), f) == Tokens(s, f)
  {
    SumUpdate(s.channels, fd, s.channels[fd].(kernel := k), ChannelW(f));
  }

  lemma RegisterTokens(s: State, fd: nat, ev: Ev, slot: Slot, f: nat)
    requires fd < |s.channels| && s.channels[fd].At(ev).Empty?
    ensures var r := Register(s, fd, ev, slot);
            if CtlFails(s.channels[fd].kernel, AddOp(s.channels[fd])) then r == s
            else Tokens(r, f) == Tokens(s, f) + SlotTokens(slot, f) && r.nextReg == s.nextReg + 1
  {
    var c := s.channels[fd];
    var r := c.With(ev, true, slot);
    SumUpdate(s.channels, fd, r.(kernel := Ctl(AddOp(c), r.read, r.write)), ChannelW(f));
  }

  lemma TimersTokens(s: State, ts: seq<Timer>, f: nat)
    ensures Tokens(s.(timers := ts), f) + Sum(s.timers, TimerW(f)) == Tokens(s, f) + Sum(ts, TimerW(f))
  {
  }

  lemma {:induction false} CallbacksTokens(ts: seq<Timer>, f: nat)
    ensures Sum(Callbacks(ts), FuncW(f)) == Sum(ts, TimerW(f))
  {
    if ts != [] {
      var n := |ts| - 1;
      CallbacksTokens(ts[..n], f);
      assert Callbacks(ts)[..n] == Callbacks(ts[..n]);
    }
  }

  lemma {:induction false} RecurringTokens(ts: seq<Timer>, f: nat)
    requires forall i :: 0 <= i < |ts| && ts[i].recurring ==> !ts[i].func.Wake?
    ensures Sum(Recurring(ts), TimerW(f)) == 0
  {
    if ts != [] {
      var n := |ts| - 1;
      RecurringTokens(ts[..n], f);
      if ts[n].recurring {
        SumSnoc(Recurring(ts[..n]), ts[n], TimerW(f));
      } else {
        assert Recurring(ts) == Recurring(ts[..n]);
      }
    }
  }

  lemma ParksAtMostRuns(ths: seq<Thread>, f: nat)
    ensures Sum(ths, ParkW(f)) <= Sum(ths, RunW(f))
  {
    if ths != [] {
      ParksAtMostRuns(ths[..|ths| - 1], f);
    }
  }

  // Tasks

  lemma AddTaskPlaces(s: State, b: Body, p: Pin, id: nat)
    ensures Places(AddTask(s, b, p), id) == Places(s, id) + if id == s.nextTask then 1 else 0
  {
    SumSnoc(s.tasks, Task(s.nextTask, b, p), QueuedW(id));
  }

  lemma SetPcPlaces(s: State, i: nat, pc: Pc, id: nat)
    requires i < |s.threads|
    ensures var th := s.threads[i];
            Places(SetPc(s, i, pc), id) + HeldW(id)(th) == Places(s, id) + HeldW(id)(th.(pc := pc))
  {
    SumUpdate(s.threads, i, s.threads[i].(pc := pc), HeldW(id));
  }

  lemma SetPcHolding(s: State, i: nat, pc: Pc)
    requires i < |s.threads|
    ensures var th := s.threads[i];
            Holding(SetPc(s, i, pc)) + HoldW()(th) == Holding(s) + HoldW()(th.(pc := pc))
  {
    SumUpdate(s.threads, i, s.threads[i].(pc := pc), HoldW());
  }

  // Registrations

  lemma ClearRegs(s: State, fd: nat, ev: Ev, r: nat)
    requires fd < |s.channels|
    ensures var c := s.channels[fd];
            var cs := s.channels[fd := c.With(ev, false, Empty)];
            && Sum(cs, RegW(r)) + SlotRegs(c.At(ev), r) == Sum(s.channels, RegW(r))
            && (c.Has(ev) ==> Sum(cs, BitsW()) + 1 == Bits(s))
  {
    var c := s.channels[fd];
    SumUpdate(s.channels, fd, c.With(ev, false, Empty), RegW(r));
    SumUpdate(s.channels, fd, c.With(ev, false, Empty), BitsW());
  }

  lemma TriggerRegs(s: State, fd: nat, ev: Ev, r: nat)
    requires fd < |s.channels|
    ensures Regs(Trigger(s, fd, ev), r) == Regs(s, r)
    ensures s.channels[fd].Has(ev) ==> Bits(Trigger(s, fd, ev)) + 1 == Bits(s)
  {
    ClearRegs(s, fd, ev, r);
    var slot := s.channels[fd].At(ev);
    if !slot.Empty? {
      SumSnoc(s.fired, slot.reg, IsW(r));
    }
  }

  lemma DropRegs(s: State, fd: nat, ev: Ev, r: nat)
    requires fd < |s.channels|
    ensures Regs(Drop(s, fd, ev), r) == Regs(s, r)
    ensures s.channels[fd].Has(ev) ==> Bits(Drop(s, fd, ev)) + 1 == Bits(s)
  {
    ClearRegs(s, fd, ev, r);
    var slot := s.channels[fd].At(ev);
    if !slot.Empty? {
      SumSnoc(s.dropped, slot.reg, IsW(r));
    }
  }

  lemma SetKernelRegs(s: State, fd: nat, k: Kernel, r: nat)
    requires fd < |s.channels|
    ensures Regs(SetKernel(s, fd, k), r) == Regs(s, r) && Bits(SetKernel(s, fd, k)) == Bits(s)
  {
    SumUpdate(s.channels, fd, s.channels[fd].(kernel := k), RegW(r));
    SumUpdate(s.channels, fd, s.channels[fd].(kernel := k), BitsW());
  }

  lemma RegisterRegs(s: State, fd: nat, ev: Ev, slot: Slot, r: nat)
    requires fd < |s.channels| && s.channels[fd].At(ev).Empty? && !s.channels[fd].Has(ev)
    requires !slot.Empty? && slot.reg == s.nextReg
    ensures var t := Register(s, fd, ev, slot);
            t != s ==> Regs(t, r) == Regs(s, r) + (if r == s.nextReg then 1 else 0) && Bits(t) == Bits(s) + 1
  {
    var c := s.channels[fd];
    var d := c.With(ev, true, slot);
    SumUpdate(s.channels, fd, d.(kernel := Ctl(AddOp(c), d.read, d.write)), RegW(r));
    SumUpdate(s.channels, fd, d.(kernel := Ctl(AddOp(c), d.read, d.write)), BitsW());
  }
}
