/** Fibers and their wake tokens: a suspended fiber has exactly one, unless its registration was deleted
    without being triggered; a running one has at most one, and a finished one none. */
module RuntimeFibers {
  import opened Counting
  import opened Runtime
  import opened RuntimeBooks

  predicate FiberInv(s: State, f: nat) {
    var tokens, runs, parks := Tokens(s, f), Runs(s, f), Parks(s, f);
    && parks <= runs
    && if f >= |s.fibers| then tokens == 0 && runs == 0 && f !in s.lost
       else match s.fibers[f]
         case Ready => runs == 0 && tokens == (if f in s.lost then 0 else 1)
         case Running =>
           runs == 1 && tokens == (if f in s.lost then 0 else parks) && (f in s.lost ==> parks == 1)
         case Term => runs == 0 && tokens == 0 && f !in s.lost
  }

  /** A task that a thread has taken is one that it can resume. */
  predicate PickedReady(s: State, i: nat)
    requires i < |s.threads|
  {
    var pc := s.threads[i].pc;
    pc.Picked? && pc.task.body.RunFiber? ==> pc.task.body.fiber < |s.fibers| && s.fibers[pc.task.body.fiber].Ready?
  }

  /** A callback slot is filled exactly when its bit is set, and the kernel watches exactly these bits. */
  predicate ChannelInv(c: Channel) {
    && (c.read <==> !c.onRead.Empty?) && (c.write <==> !c.onWrite.Empty?)
    && c.kernel == if c.read || c.write then Registered(c.read, c.write) else Unregistered
  }

  predicate Shape(s: State) {
    && (forall i :: 0 <= i < |s.threads| ==> PickedReady(s, i))
    && ChannelsInv(s)
    && (forall t :: 0 <= t < |s.timers| && s.timers[t].recurring ==> !s.timers[t].func.Wake?)
  }

  ghost predicate FibersInv(s: State) { Shape(s) && forall f: nat :: FiberInv(s, f) }

  lemma InitialFibers(s: State)
    requires Initial(s)
    ensures FibersInv(s)
  {
    forall f: nat ensures FiberInv(s, f) {
      SumZero(s.threads, ThreadW(f));
      SumZero(s.threads, RunW(f));
      SumZero(s.threads, ParkW(f));
      SumZero(s.channels, ChannelW(f));
    }
  }

  /** A thread inside a fiber is the only one there, and the fiber runs. */
  lemma InsideRuns(s: State, i: nat)
    requires FibersInv(s) && i < |s.threads| && s.threads[i].pc.InFiber?
    ensures var f := s.threads[i].pc.fiber; f < |s.fibers| && s.fibers[f].Running? && Runs(s, f) == 1
    ensures s.threads[i].pc.code.Parking? ==> Parks(s, s.threads[i].pc.fiber) == 1
    ensures !s.threads[i].pc.code.Parking? ==> Parks(s, s.threads[i].pc.fiber) == 0
  {
    var f := s.threads[i].pc.fiber;
    assert FiberInv(s, f);
    SumSplit(s.threads, i, RunW(f));
    SumSplit(s.threads, i, ParkW(f));
    ParksAtMostRuns(s.threads[..i], f);
    ParksAtMostRuns(s.threads[i + 1..], f);
  }

  /** A thread that holds a token of a fiber. */
  lemma HoldsToken(s: State, i: nat, f: nat)
    requires i < |s.threads|
    ensures Tokens(s, f) >= ThreadTokens(s.threads[i].pc, f)
  {
    SumSplit(s.threads, i, ThreadW(f));
  }

  lemma QueueToken(s: State, k: nat, f: nat)
    requires k < |s.tasks|
    ensures Tokens(s, f) >= BodyTokens(s.tasks[k].body, f)
  {
    SumSplit(s.tasks, k, TaskW(f));
  }

  lemma SlotToken(s: State, fd: nat, ev: Ev, f: nat)
    requires fd < |s.channels|
    ensures Tokens(s, f) >= SlotTokens(s.channels[fd].At(ev), f)
  {
    SumSplit(s.channels, fd, ChannelW(f));
  }

  // What each action does to the tokens of one fiber

  /** Parts of the state a fiber's account depends on. */
  predicate SameFiber(s: State, t: State, f: nat) {
    && (f in t.lost <==> f in s.lost)
    && (f < |t.fibers| <==> f < |s.fibers|) && (f < |s.fibers| ==> t.fibers[f] == s.fibers[f])
    && Tokens(t, f) == Tokens(s, f) && Runs(t, f) == Runs(s, f) && Parks(t, f) == Parks(s, f)
  }

  lemma SameFiberInv(s: State, t: State, f: nat)
    requires FiberInv(s, f) && SameFiber(s, t, f)
    ensures FiberInv(t, f)
  {
  }

  lemma SpawnFiber(s: State, newFiber: bool, pin: Pin, f: nat)
    requires FiberInv(s, f)
    ensures FiberInv(SpawnTask(s, newFiber, pin), f)
  {
    hide Tokens;
    if newFiber {
      var r := s.(fibers := s.fibers + [Ready]);
      TokensFrame(s, r, f);
      AddTaskTokens(r, RunFiber(|s.fibers|), pin, f);
    } else {
      AddTaskTokens(s, RunFunc(User), pin, f);
    }
  }

  /** Tokens are counted in four parts of the state. */
  lemma TokensFrame(s: State, t: State, f: nat)
    requires t.tasks == s.tasks && t.threads == s.threads && t.channels == s.channels && t.timers == s.timers
    ensures Tokens(t, f) == Tokens(s, f)
  {
  }

  lemma DropFiber(s: State, fd: nat, ev: Ev, f: nat)
    requires fd < |s.channels| && FiberInv(s, f)
    ensures FiberInv(Drop(s, fd, ev), f)
  {
    hide Tokens;
    DropTokens(s, fd, ev, f);
    SlotToken(s, fd, ev, f);
  }

  lemma DelEventFiber(s: State, fd: nat, ev: Ev, trigger: bool, f: nat)
    requires fd < |s.channels| && FiberInv(s, f)
    ensures FiberInv(DelEvent(s, fd, ev, trigger), f)
  {
    hide Tokens, FiberInv, Drop, Trigger;
    var left := s.channels[fd].With(ev, false, Empty);
    var r := SetKernel(s, fd, Ctl(DelOp(left.read, left.write), left.read, left.write));
    SetKernelTokens(s, fd, r.channels[fd].kernel, f);
    SameFiberInv(s, r, f);
    if trigger {
      TriggerFiber(r, fd, ev, f);
    } else {
      DropFiber(r, fd, ev, f);
    }
  }

  lemma TriggerFiber(s: State, fd: nat, ev: Ev, f: nat)
    requires fd < |s.channels| && FiberInv(s, f)
    ensures FiberInv(Trigger(s, fd, ev), f)
  {
    hide Tokens;
    TriggerTokens(s, fd, ev, f);
    SameFiberInv(s, Trigger(s, fd, ev), f);
  }

  lemma DispatchFiber(s: State, fd: nat, read: bool, write: bool, f: nat)
    requires fd < |s.channels| && FiberInv(s, f)
    ensures FiberInv(Dispatch(s, fd, read, write), f)
  {
    hide Tokens, FiberInv, Trigger;
    var c := s.channels[fd];
    var op := DelOp(c.read && !read, c.write && !write);
    var k := SetKernel(s, fd, Ctl(op, c.read && !read, c.write && !write));
    SetKernelTokens(s, fd, k.channels[fd].kernel, f);
    SameFiberInv(s, k, f);
    TriggerFiber(k, fd, READ, f);
    TriggerWidth(k, fd, READ);
    TriggerFiber(if read then Trigger(k, fd, READ) else k, fd, WRITE, f);
  }

  lemma TriggerWidth(s: State, fd: nat, ev: Ev)
    requires fd < |s.channels|
    ensures |Trigger(s, fd, ev).channels| == |s.channels|
  {
  }

  lemma WatchFiber(s: State, fd: nat, ev: Ev, f: nat)
    requires Shape(s) && Unwatched(s, fd, ev) && FiberInv(s, f)
    ensures FiberInv(Register(s, fd, ev, Callback(s.nextReg)), f)
  {
    hide Tokens;
    assert ChannelInv(s.channels[fd]);
    RegisterTokens(s, fd, ev, Callback(s.nextReg), f);
  }

  lemma TimerFiber(s: State, i: nat, a: Action, f: nat)
    requires (a.SetTimer? || a.CancelTimer?) && Enabled(s, a) && FiberInv(s, f)
    ensures FiberInv(Apply(s, a), f)
  {
    hide FiberInv;
    if a.SetTimer? {
      SumSnoc(s.timers, a.timer, TimerW(f));
    } else {
      SumRemove(s.timers, a.k, TimerW(f));
    }
    SameFiberInv(s, Apply(s, a), f);
  }

  /** A fiber that arranges to be woken gets its one token and will yield. */
  lemma ParkingFiber(s: State, r: State, i: nat, f: nat)
    requires FibersInv(s) && In(s, i, Free)
    requires r.threads == s.threads && r.fibers == s.fibers && r.lost == s.lost
    requires Tokens(r, f) == Tokens(s, f) + if f == s.threads[i].pc.fiber then 1 else 0
    ensures FiberInv(SetCode(r, i, Parking), f)
  {
    hide Tokens, Runs, Parks;
    InsideRuns(s, i);
    assert FiberInv(s, f);
    assert Runs(r, f) == Runs(s, f) && Parks(r, f) == Parks(s, f) by { RunsFrame(s, r, f); }
    SetPcRuns(r, i, s.threads[i].pc.(code := Parking), f);
    SetPcTokens(r, i, s.threads[i].pc.(code := Parking), f);
  }

  lemma RunsFrame(s: State, r: State, f: nat)
    requires r.threads == s.threads
    ensures Runs(r, f) == Runs(s, f) && Parks(r, f) == Parks(s, f)
  {
  }

  lemma ParkFiber(s: State, i: nat, fd: nat, ev: Ev, f: nat)
    requires FibersInv(s) && Enabled(s, Park(i, fd, ev))
    ensures FiberInv(ParkIo(s, i, fd, ev), f)
  {
    hide Tokens, FiberInv, SetCode;
    assert FiberInv(s, f);
    assert ChannelInv(s.channels[fd]);
    var slot := Waiter(s.nextReg, s.threads[i].pc.fiber);
    RegisterTokens(s, fd, ev, slot, f);
    if Register(s, fd, ev, slot) != s {
      ParkingFiber(s, Register(s, fd, ev, slot), i, f);
    }
  }

  lemma SleepFiber(s: State, i: nat, f: nat)
    requires FibersInv(s) && In(s, i, Free)
    ensures FiberInv(Apply(s, Sleep(i)), f)
    ensures FiberInv(Apply(s, Requeue(i)), f)
  {
    hide Tokens, FiberInv, SetCode;
    var g := s.threads[i].pc.fiber;
    TimersTokens(s, s.timers + [Timer(Wake(g), false)], f);
    SumSnoc(s.timers, Timer(Wake(g), false), TimerW(f));
    ParkingFiber(s, s.(timers := s.timers + [Timer(Wake(g), false)]), i, f);
    AddTaskTokens(s, RunFiber(g), Any, f);
    ParkingFiber(s, AddTask(s, RunFiber(g), Any), i, f);
  }

  /** Leaving a fiber, parked or for good. */
  lemma LeaveFiber(s: State, i: nat, to: FiberState, f: nat)
    requires FibersInv(s) && i < |s.threads| && s.threads[i].pc.InFiber? && s.threads[i].pc.fiber < |s.fibers|
    requires if s.threads[i].pc.code.Parking? then to.Ready? else to.Term? && !s.threads[i].pc.code.Waking?
    ensures FiberInv(Leave(s, i, to), f)
  {
    hide Tokens, Runs, Parks;
    InsideRuns(s, i);
    assert FiberInv(s, f);
    var r := s.(fibers := s.fibers[s.threads[i].pc.fiber := to]);
    TokensFrame(s, r, f);
    RunsFrame(s, r, f);
    SetPcRuns(r, i, Returned(s.threads[i].pc.task), f);
    SetPcTokens(r, i, Returned(s.threads[i].pc.task), f);
  }

  /** Inside a fiber, from one thing that does not park it to another. */
  lemma CodeFiber(s: State, r: State, i: nat, code: Code, f: nat)
    requires FibersInv(s) && i < |s.threads| && s.threads[i].pc.InFiber?
    requires !s.threads[i].pc.code.Parking? && !code.Parking?
    requires r.threads == s.threads && FiberInv(r, f)
    requires Tokens(SetCode(r, i, code), f) == Tokens(r, f)
    ensures FiberInv(SetCode(r, i, code), f)
  {
    hide Tokens, Runs, Parks;
    SetPcRuns(r, i, s.threads[i].pc.(code := code), f);
  }

  lemma CallWakeFiber(s: State, i: nat, f: nat)
    requires FibersInv(s) && Enabled(s, CallWake(i))
    ensures FiberInv(Apply(s, CallWake(i)), f)
  {
    hide Tokens, Runs, Parks;
    var pc := s.threads[i].pc;
    var r := AddTask(s, RunFiber(pc.code.fiber), Any);
    assert FiberInv(s, f);
    AddTaskTokens(s, RunFiber(pc.code.fiber), Any, f);
    RunsFrame(s, r, f);
    SetPcTokens(r, i, pc.(code := Ending), f);
    SetPcRuns(r, i, pc.(code := Ending), f);
  }

  lemma CallTimeoutFiber(s: State, i: nat, expired: bool, f: nat)
    requires FibersInv(s) && Enabled(s, CallTimeout(i, expired))
    ensures FiberInv(Apply(s, CallTimeout(i, expired)), f)
  {
    hide Tokens, FiberInv, DelEvent;
    assert FiberInv(s, f);
    var pc := s.threads[i].pc;
    var r := if expired || pc.code.fd >= |s.channels| then s else DelEvent(s, pc.code.fd, pc.code.ev, true);
    if r != s {
      DelEventFiber(s, pc.code.fd, pc.code.ev, true, f);
      DelEventFrame(s, pc.code.fd, pc.code.ev, true);
    }
    SetPcTokens(r, i, pc.(code := Ending), f);
    CodeFiber(s, r, i, Ending, f);
  }

  /** Deleting an event moves no thread and no timer. */
  lemma DelEventFrame(s: State, fd: nat, ev: Ev, trigger: bool)
    requires fd < |s.channels|
    ensures var r := DelEvent(s, fd, ev, trigger);
            r == s.(channels := r.channels, pending := r.pending, tasks := r.tasks, nextTask := r.nextTask,
                    fired := r.fired, dropped := r.dropped, lost := r.lost)
    ensures trigger ==> DelEvent(s, fd, ev, trigger).lost == s.lost
  {
  }

  lemma PickFiber(s: State, i: nat, f: nat)
    requires FibersInv(s) && At(s, i, Top)
    ensures FiberInv(PickTask(s, i), f)
  {
    hide Runs, Parks;
    assert FiberInv(s, f);
    var k := FirstEligible(s.tasks, i, s.fibers, 0);
    if k < |s.tasks| {
      var r := s.(tasks := s.tasks[..k] + s.tasks[k + 1..], active := s.active + 1);
      SumRemove(s.tasks, k, TaskW(f));
      assert Tokens(r, f) + BodyTokens(s.tasks[k].body, f) == Tokens(s, f);
      IdleFiber(s, r, i, Picked(s.tasks[k]), f);
    } else {
      IdleFiber(s, s, i, if s.threads[i].idleDone then Exited else Idle([]), f);
    }
  }

  /** A step of a thread outside fibers that moves tokens between it and the rest of the state. */
  lemma IdleFiber(s: State, r: State, i: nat, pc: Pc, f: nat)
    requires i < |s.threads| && !s.threads[i].pc.InFiber? && !pc.InFiber? && FiberInv(s, f)
    requires r.threads == s.threads && r.fibers == s.fibers && r.lost == s.lost
    requires Tokens(r, f) + ThreadTokens(pc, f) == Tokens(s, f) + ThreadTokens(s.threads[i].pc, f)
    ensures FiberInv(SetPc(r, i, pc), f)
  {
    hide Tokens, Runs, Parks;
    RunsFrame(s, r, f);
    SetPcTokens(r, i, pc, f);
    SetPcRuns(r, i, pc, f);
  }

  lemma ResumeFiber(s: State, i: nat, f: nat)
    requires FibersInv(s) && Enabled(s, Resume(i))
    ensures FiberInv(ResumeTask(s, i), f)
  {
    hide Tokens, Runs, Parks;
    assert FiberInv(s, f);
    assert PickedReady(s, i);
    var t := s.threads[i].pc.task;
    HoldsToken(s, i, f);
    match t.body
    case RunFiber(g) =>
      var r := s.(fibers := s.fibers[g := Running]);
      TokensFrame(s, r, f);
      RunsFrame(s, r, f);
      SetPcTokens(r, i, InFiber(t, g, Free), f);
      SetPcRuns(r, i, InFiber(t, g, Free), f);
    case RunFunc(fn) =>
      var r := s.(fibers := s.fibers + [Running]);
      TokensFrame(s, r, f);
      RunsFrame(s, r, f);
      SetPcTokens(r, i, InFiber(t, |s.fibers|, FuncCode(fn)), f);
      SetPcRuns(r, i, InFiber(t, |s.fibers|, FuncCode(fn)), f);
  }

  lemma ExpireFiber(s: State, i: nat, due: seq<Timer>, rest: seq<Timer>, f: nat)
    requires FibersInv(s) && Enabled(s, Expire(i, due, rest))
    ensures FiberInv(Apply(s, Expire(i, due, rest)), f)
  {
    hide Runs, Parks;
    assert FiberInv(s, f);
    DueNotWake(s, due, rest);
    var ts := rest + Recurring(due);
    SumPermutation(rest + due, s.timers, TimerW(f));
    SumConcat(rest, due, TimerW(f));
    SumConcat(rest, Recurring(due), TimerW(f));
    RecurringTokens(due, f);
    CallbacksTokens(due, f);
    TimersTokens(s, ts, f);
    IdleFiber(s, s.(timers := ts), i, Idle(Callbacks(due)), f);
  }

  /** The timers that expire are timers that were set. */
  lemma DueNotWake(s: State, due: seq<Timer>, rest: seq<Timer>)
    requires Shape(s) && multiset(rest + due) == multiset(s.timers)
    ensures forall t :: 0 <= t < |due| && due[t].recurring ==> !due[t].func.Wake?
    ensures forall t :: 0 <= t < |rest| && rest[t].recurring ==> !rest[t].func.Wake?
  {
    forall t | 0 <= t < |due| ensures due[t].recurring ==> !due[t].func.Wake? {
      assert (rest + due)[|rest| + t] in multiset(s.timers);
    }
    forall t | 0 <= t < |rest| ensures rest[t].recurring ==> !rest[t].func.Wake? {
      assert (rest + due)[t] in multiset(s.timers);
    }
  }

  lemma ReaddFiber(s: State, i: nat, f: nat)
    requires FibersInv(s) && Enabled(s, Readd(i))
    ensures FiberInv(Apply(s, Readd(i)), f)
  {
    hide Runs, Parks;
    assert FiberInv(s, f);
    var cs := s.threads[i].pc.callbacks;
    AddTaskTokens(s, RunFunc(cs[0]), Any, f);
    assert cs == [cs[0]] + cs[1..];
    SumConcat([cs[0]], cs[1..], FuncW(f));
    SumOne(cs[0], FuncW(f));
    IdleFiber(s, AddTask(s, RunFunc(cs[0]), Any), i, Idle(cs[1..]), f);
  }

  lemma QuietFiber(s: State, a: Action, f: nat)
    requires FibersInv(s) && Enabled(s, a) && (a.Decrement? || a.IdleYield? || a.StopCheck? || a.SetStop?)
    ensures FiberInv(Apply(s, a), f)
  {
    hide Runs, Parks, Tokens;
    assert FiberInv(s, f);
    match a
    case Decrement(i) =>
      TokensFrame(s, s.(active := s.active - 1, done := s.done + [s.threads[i].pc.task.id]), f);
      IdleFiber(s, s.(active := s.active - 1, done := s.done + [s.threads[i].pc.task.id]), i, Top, f);
    case IdleYield(i) => IdleFiber(s, s, i, Top, f);
    case StopCheck(i) => StopFiber(s, i, f);
    case SetStop =>
      TokensFrame(s, s.(stopping := true), f);
      RunsFrame(s, s.(stopping := true), f);
  }

  lemma StopFiber(s: State, i: nat, f: nat)
    requires IdleWith(s, i, true) && FiberInv(s, f)
    ensures FiberInv(Apply(s, StopCheck(i)), f)
  {
    hide FiberInv;
    SumUpdate(s.threads, i, Thread(Top, true), ThreadW(f));
    SumUpdate(s.threads, i, Thread(Top, true), RunW(f));
    SumUpdate(s.threads, i, Thread(Top, true), ParkW(f));
    SameFiberInv(s, Apply(s, StopCheck(i)), f);
  }

  lemma FiberStep(s: State, a: Action, f: nat)
    requires FibersInv(s) && Enabled(s, a)
    ensures FiberInv(Apply(s, a), f)
  {
    hide Apply, Enabled, FiberInv, FibersInv;
    if OnEvents(a) {
      FiberStepEvents(s, a, f);
    } else if OfFiber(a) {
      FiberStepFiber(s, a, f);
    } else {
      FiberStepThread(s, a, f);
    }
  }

  lemma FiberStepEvents(s: State, a: Action, f: nat)
    requires OnEvents(a)
    requires FibersInv(s) && Enabled(s, a)
    ensures FiberInv(Apply(s, a), f)
  {
    assert FiberInv(s, f);
    hide FiberInv, Tokens, Runs, Parks, SpawnTask, Register, DelEvent, ParkIo, Dispatch, Leave, PickTask, ResumeTask;
    match a
    case Watch(_, fd, ev) => WatchFiber(s, fd, ev, f);
    case Delete(_, fd, ev, trigger) => DelEventFiber(s, fd, ev, trigger, f);
    case Park(i, fd, ev) => ParkFiber(s, i, fd, ev, f);
    case CallTimeout(i, expired) => CallTimeoutFiber(s, i, expired, f);
    case Poll(_, fd, read, write) => DispatchFiber(s, fd, read, write, f);
  }

  lemma FiberStepFiber(s: State, a: Action, f: nat)
    requires OfFiber(a)
    requires FibersInv(s) && Enabled(s, a)
    ensures FiberInv(Apply(s, a), f)
  {
    hide Apply, Enabled, FiberInv, FibersInv;
    if a.Sleep? || a.Requeue? || a.Yield? || a.Finish? || a.CallWake? {
      FiberMoves(s, a, f);
    } else {
      FiberCalls(s, a, f);
    }
  }

  lemma FiberCalls(s: State, a: Action, f: nat)
    requires a.Spawn? || a.ExternalAdd? || a.SetTimer? || a.CancelTimer? || a.SetStop?
    requires FibersInv(s) && Enabled(s, a)
    ensures FiberInv(Apply(s, a), f)
  {
    assert FiberInv(s, f);
    hide FiberInv, Tokens, Runs, Parks, SpawnTask, Leave;
    match a
    case Spawn(_, newFiber, pin) => SpawnFiber(s, newFiber, pin, f);
    case ExternalAdd(newFiber, pin) => SpawnFiber(s, newFiber, pin, f);
    case SetTimer(i, _) => TimerFiber(s, i, a, f);
    case CancelTimer(i, _) => TimerFiber(s, i, a, f);
    case SetStop => QuietFiber(s, a, f);
  }

  lemma FiberMoves(s: State, a: Action, f: nat)
    requires a.Sleep? || a.Requeue? || a.Yield? || a.Finish? || a.CallWake?
    requires FibersInv(s) && Enabled(s, a)
    ensures FiberInv(Apply(s, a), f)
  {
    assert FiberInv(s, f);
    hide FiberInv, Tokens, Runs, Parks, SpawnTask, Leave;
    match a
    case Sleep(i) => SleepFiber(s, i, f);
    case Requeue(i) => SleepFiber(s, i, f);
    case Yield(i) => LeaveFiber(s, i, Ready, f);
    case Finish(i) => LeaveFiber(s, i, Term, f);
    case CallWake(i) => CallWakeFiber(s, i, f);
  }

  lemma FiberStepThread(s: State, a: Action, f: nat)
    requires !OnEvents(a) && !OfFiber(a)
    requires FibersInv(s) && Enabled(s, a)
    ensures FiberInv(Apply(s, a), f)
  {
    assert FiberInv(s, f);
    hide FiberInv, Tokens, Runs, Parks, SpawnTask, Register, DelEvent, ParkIo, Dispatch, Leave, PickTask, ResumeTask;
    match a
    case Pick(i) => PickFiber(s, i, f);
    case Resume(i) => ResumeFiber(s, i, f);
    case Expire(i, due, rest) => ExpireFiber(s, i, due, rest, f);
    case Readd(i) => ReaddFiber(s, i, f);
    case Decrement(_) => QuietFiber(s, a, f);
    case IdleYield(_) => QuietFiber(s, a, f);
    case StopCheck(_) => QuietFiber(s, a, f);
  }

  // The shape of the state

  /** The fiber of a task a thread has taken can only be resumed by that thread. */
  lemma PickedAlone(s: State, i: nat, j: nat)
    requires FibersInv(s) && i < |s.threads| && j < |s.threads| && i != j
    requires s.threads[i].pc.Picked? && s.threads[j].pc.Picked?
    requires s.threads[i].pc.task.body.RunFiber?
    ensures s.threads[i].pc.task.body != s.threads[j].pc.task.body
  {
    var f := s.threads[i].pc.task.body.fiber;
    assert FiberInv(s, f);
    SumTwo(s.threads, if i < j then i else j, if i < j then j else i, ThreadW(f));
  }

  /** A task taken from the queue can be resumed: its fiber is suspended, not finished. */
  lemma EligibleReady(s: State, k: nat, i: nat)
    requires FibersInv(s) && k < |s.tasks| && Eligible(s.tasks[k], i, s.fibers) && s.tasks[k].body.RunFiber?
    ensures var f := s.tasks[k].body.fiber; f < |s.fibers| && s.fibers[f].Ready?
  {
    QueueToken(s, k, s.tasks[k].body.fiber);
    assert FiberInv(s, s.tasks[k].body.fiber);
  }

  lemma PickedStep(s: State, a: Action, j: nat)
    requires FibersInv(s) && Enabled(s, a) && j < |s.threads|
    ensures |Apply(s, a).threads| == |s.threads| && PickedReady(Apply(s, a), j)
  {
    hide Apply, Enabled, FibersInv, PickedReady;
    if OnEvents(a) {
      PickedStepEvents(s, a, j);
    } else if OfFiber(a) {
      PickedStepFiber(s, a, j);
    } else {
      PickedStepThread(s, a, j);
    }
  }

  lemma PickedStepEvents(s: State, a: Action, j: nat)
    requires OnEvents(a)
    requires FibersInv(s) && Enabled(s, a) && j < |s.threads|
    ensures |Apply(s, a).threads| == |s.threads| && PickedReady(Apply(s, a), j)
  {
    hide FiberInv, DelEvent, Dispatch, Register, ChannelsInv;
    assert PickedReady(s, j);
    match a
    case Watch(_, fd, ev) => RegisterFrame(s, fd, ev, Callback(s.nextReg));
    case Delete(_, fd, ev, trigger) => DelEventFrame(s, fd, ev, trigger);
    case Park(i, fd, ev) => RegisterFrame(s, fd, ev, Waiter(s.nextReg, s.threads[i].pc.fiber));
    case CallTimeout(i, _) => CallTimeoutPicked(s, a, j);
    case Poll(_, fd, read, write) => DispatchFrame(s, fd, read, write);
  }

  lemma PickedStepFiber(s: State, a: Action, j: nat)
    requires OfFiber(a)
    requires FibersInv(s) && Enabled(s, a) && j < |s.threads|
    ensures |Apply(s, a).threads| == |s.threads| && PickedReady(Apply(s, a), j)
  {
    hide FiberInv, Leave, ChannelsInv;
    assert PickedReady(s, j);
    match a
    case Yield(i) => LeavePicked(s, i, Ready, j);
    case Finish(i) => LeavePicked(s, i, Term, j);
    case _ =>
  }

  lemma PickedStepThread(s: State, a: Action, j: nat)
    requires !OnEvents(a) && !OfFiber(a)
    requires FibersInv(s) && Enabled(s, a) && j < |s.threads|
    ensures |Apply(s, a).threads| == |s.threads| && PickedReady(Apply(s, a), j)
  {
    hide FiberInv, ChannelsInv, FirstEligible, Recurring, Callbacks, CanStop;
    assert PickedReady(s, j);
    match a
    case Pick(i) =>
      var k := FirstEligible(s.tasks, i, s.fibers, 0);
      if k < |s.tasks| && s.tasks[k].body.RunFiber? {
        EligibleReady(s, k, i);
      }
    case Resume(i) =>
      if i != j && s.threads[j].pc.Picked? && s.threads[j].pc.task.body.RunFiber? {
        PickedAlone(s, j, i);
      }
    case _ =>
  }

  lemma CallTimeoutPicked(s: State, a: Action, j: nat)
    requires FibersInv(s) && a.CallTimeout? && Enabled(s, a) && j < |s.threads|
    ensures |Apply(s, a).threads| == |s.threads| && PickedReady(Apply(s, a), j)
  {
    hide FiberInv, DelEvent;
    assert PickedReady(s, j);
    var code := s.threads[a.i].pc.code;
    if code.fd < |s.channels| {
      DelEventFrame(s, code.fd, code.ev, true);
    }
  }

  lemma LeavePicked(s: State, i: nat, to: FiberState, j: nat)
    requires FibersInv(s) && i < |s.threads| && s.threads[i].pc.InFiber? && s.threads[i].pc.fiber < |s.fibers|
    requires j < |s.threads|
    ensures |Leave(s, i, to).threads| == |s.threads| && PickedReady(Leave(s, i, to), j)
  {
    hide FiberInv;
    assert PickedReady(s, j);
    InsideRuns(s, i);
  }

  lemma DispatchFrame(s: State, fd: nat, read: bool, write: bool)
    requires fd < |s.channels|
    ensures var r := Dispatch(s, fd, read, write);
            r == s.(channels := r.channels, pending := r.pending, tasks := r.tasks, nextTask := r.nextTask,
                    fired := r.fired)
  {
  }

  predicate ChannelsInv(s: State) { forall c :: 0 <= c < |s.channels| ==> ChannelInv(s.channels[c]) }

  lemma RegisterChannels(s: State, fd: nat, ev: Ev, slot: Slot)
    requires ChannelsInv(s) && Unwatched(s, fd, ev) && !slot.Empty?
    ensures ChannelsInv(Register(s, fd, ev, slot))
  {
    assert ChannelInv(s.channels[fd]);
  }

  lemma DelEventChannels(s: State, fd: nat, ev: Ev, trigger: bool)
    requires ChannelsInv(s) && fd < |s.channels|
    ensures ChannelsInv(DelEvent(s, fd, ev, trigger))
  {
    assert ChannelInv(s.channels[fd]);
  }

  lemma DispatchChannels(s: State, fd: nat, read: bool, write: bool)
    requires ChannelsInv(s) && fd < |s.channels|
    ensures ChannelsInv(Dispatch(s, fd, read, write))
  {
    assert ChannelInv(s.channels[fd]);
  }

  lemma RegisterFrame(s: State, fd: nat, ev: Ev, slot: Slot)
    requires fd < |s.channels|
    ensures var r := Register(s, fd, ev, slot);
            r == s.(channels := r.channels, pending := r.pending, nextReg := r.nextReg)
  {
  }

  lemma DispatchWidth(s: State, fd: nat, read: bool, write: bool)
    requires fd < |s.channels|
    ensures |Dispatch(s, fd, read, write).channels| == |s.channels|
  {
  }

  lemma ChannelStep(s: State, a: Action)
    requires ChannelsInv(s) && Enabled(s, a)
    ensures ChannelsInv(Apply(s, a))
  {
    hide Register, DelEvent, Dispatch, ChannelInv, FirstEligible;
    match a
    case Watch(_, fd, ev) => RegisterChannels(s, fd, ev, Callback(s.nextReg));
    case Park(i, fd, ev) => RegisterChannels(s, fd, ev, Waiter(s.nextReg, s.threads[i].pc.fiber));
    case Delete(_, fd, ev, trigger) => DelEventChannels(s, fd, ev, trigger);
    case CallTimeout(i, _) =>
      var code := s.threads[i].pc.code;
      if code.fd < |s.channels| {
        DelEventChannels(s, code.fd, code.ev, true);
      }
    case Poll(_, fd, read, write) => DispatchChannels(s, fd, read, write);
    case _ =>
  }

  lemma TimerStep(s: State, a: Action)
    requires Shape(s) && Enabled(s, a)
    ensures forall t :: 0 <= t < |Apply(s, a).timers| && Apply(s, a).timers[t].recurring ==>
              !Apply(s, a).timers[t].func.Wake?
  {
    hide Apply, Enabled, Shape;
    if OnEvents(a) {
      TimerStepEvents(s, a);
    } else if OfFiber(a) {
      TimerStepFiber(s, a);
    } else {
      TimerStepThread(s, a);
    }
  }

  lemma TimerStepEvents(s: State, a: Action)
    requires OnEvents(a)
    requires Shape(s) && Enabled(s, a)
    ensures forall t :: 0 <= t < |Apply(s, a).timers| && Apply(s, a).timers[t].recurring ==>
              !Apply(s, a).timers[t].func.Wake?
  {
    hide ChannelInv, PickedReady, Register, DelEvent, Dispatch;
    match a
    case Watch(_, fd, ev) => RegisterFrame(s, fd, ev, Callback(s.nextReg));
    case Park(i, fd, ev) => RegisterFrame(s, fd, ev, Waiter(s.nextReg, s.threads[i].pc.fiber));
    case Delete(_, fd, ev, trigger) => DelEventFrame(s, fd, ev, trigger);
    case CallTimeout(i, _) =>
      var code := s.threads[i].pc.code;
      if code.fd < |s.channels| {
        DelEventFrame(s, code.fd, code.ev, true);
      }
    case Poll(_, fd, read, write) => DispatchFrame(s, fd, read, write);
  }

  lemma TimerStepFiber(s: State, a: Action)
    requires OfFiber(a)
    requires Shape(s) && Enabled(s, a)
    ensures forall t :: 0 <= t < |Apply(s, a).timers| && Apply(s, a).timers[t].recurring ==>
              !Apply(s, a).timers[t].func.Wake?
  {
    hide ChannelInv, PickedReady;
  }

  lemma TimerStepThread(s: State, a: Action)
    requires !OnEvents(a) && !OfFiber(a)
    requires Shape(s) && Enabled(s, a)
    ensures forall t :: 0 <= t < |Apply(s, a).timers| && Apply(s, a).timers[t].recurring ==>
              !Apply(s, a).timers[t].func.Wake?
  {
    hide ChannelInv, PickedReady, FirstEligible, Recurring, Callbacks, CanStop;
    if a.Expire? {
      DueNotWake(s, a.due, a.rest);
      RecurringFrom(a.due);
    }
  }

  lemma {:induction false} RecurringFrom(ts: seq<Timer>)
    ensures forall r :: 0 <= r < |Recurring(ts)| ==> Recurring(ts)[r].recurring && Recurring(ts)[r] in ts
  {
    if ts != [] {
      RecurringFrom(ts[..|ts| - 1]);
    }
  }

  lemma ThreadCount(s: State, a: Action)
    requires Enabled(s, a)
    ensures |Apply(s, a).threads| == |s.threads|
  {
    hide FirstEligible, Register, DelEvent, Dispatch;
    match a
    case Watch(_, fd, ev) => RegisterFrame(s, fd, ev, Callback(s.nextReg));
    case Park(i, fd, ev) => RegisterFrame(s, fd, ev, Waiter(s.nextReg, s.threads[i].pc.fiber));
    case Delete(_, fd, ev, trigger) => DelEventFrame(s, fd, ev, trigger);
    case CallTimeout(i, _) =>
      var code := s.threads[i].pc.code;
      if code.fd < |s.channels| {
        DelEventFrame(s, code.fd, code.ev, true);
      }
    case Poll(_, fd, read, write) => DispatchFrame(s, fd, read, write);
    case _ =>
  }

  /** Every action keeps every fiber's account. */
  lemma FibersStep(s: State, a: Action)
    requires FibersInv(s) && Enabled(s, a)
    ensures FibersInv(Apply(s, a))
  {
    hide FiberInv, PickedReady, Apply, ChannelInv;
    var t := Apply(s, a);
    forall f: nat ensures FiberInv(t, f) { FiberStep(s, a, f); }
    ThreadCount(s, a);
    forall j | 0 <= j < |t.threads| ensures PickedReady(t, j) { PickedStep(s, a, j); }
    ChannelStep(s, a);
    TimerStep(s, a);
  }
}
