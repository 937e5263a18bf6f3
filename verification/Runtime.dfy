/** The fiber runtime as a step system: scheduler threads, the task queue, fibers, the channels and timers
    of the reactor, and the parking protocol of the hooked system calls.  One action is one critical
    section (or one access to an atomic); any thread may take the next one. */
module Runtime {

  datatype Ev = READ | WRITE

  datatype FiberState = Ready | Running | Term

  /** The functions the runtime queues: those of its users, the callback of a sleep timer, and the
      callback of the timeout of a hooked system call. */
  datatype Func = User | Wake(fiber: nat) | Timeout(fd: nat, ev: Ev)

  datatype Body = RunFiber(fiber: nat) | RunFunc(func: Func)

  datatype Pin = Any | Only(thread: nat)

  datatype Task = Task(id: nat, body: Body, pin: Pin)

  /** What the code of a running fiber does next: anything; yield, having arranged to be woken; the one
      statement of a timer callback; or return. */
  datatype Code = Free | Parking | Waking(fiber: nat) | TimingOut(fd: nat, ev: Ev) | Ending

  /** Where a thread is in Scheduler::run: at the top of the loop; with a task taken; inside the fiber of a
      task; back from it but still counted; in its idle fiber, with expired callbacks not queued yet; out. */
  datatype Pc =
    | Top
    | Picked(task: Task)
    | InFiber(task: Task, fiber: nat, code: Code)
    | Returned(task: Task)
    | Idle(callbacks: seq<Func>)
    | Exited

  datatype Thread = Thread(pc: Pc, idleDone: bool)

  /** An event callback, a fiber or a function of a user, with the number of its registration. */
  datatype Slot = Empty | Waiter(reg: nat, fiber: nat) | Callback(reg: nat)

  /** The interest set the kernel keeps for a descriptor. */
  datatype Kernel = Unregistered | Registered(read: bool, write: bool)

  datatype Channel = Channel(read: bool, write: bool, onRead: Slot, onWrite: Slot, kernel: Kernel)
  {
    predicate Has(ev: Ev) { if ev.READ? then read else write }

    function At(ev: Ev): Slot { if ev.READ? then onRead else onWrite }

    function With(ev: Ev, bit: bool, slot: Slot): Channel {
      if ev.READ? then this.(read := bit, onRead := slot) else this.(write := bit, onWrite := slot)
    }
  }

  datatype Timer = Timer(func: Func, recurring: bool)

  datatype State = State(
    fibers: seq<FiberState>,
    tasks: seq<Task>,
    threads: seq<Thread>,
    active: int,
    stopping: bool,
    channels: seq<Channel>,
    pending: int,
    timers: seq<Timer>,
    // history
    nextTask: nat,       // tasks accepted so far
    done: seq<nat>,      // tasks whose resume has returned
    nextReg: nat,        // events registered so far
    fired: seq<nat>,     // registrations whose callback was queued
    dropped: seq<nat>,   // registrations deleted without triggering
    lost: set<nat>)      // fibers whose registration was deleted without triggering

  const NO_EVENTS := Channel(false, false, Empty, Empty, Unregistered)

  /** Any number of threads about to enter run, any number of descriptors, nothing registered. */
  predicate Initial(s: State) {
    && s == State([], [], s.threads, 0, false, s.channels, 0, [], 0, [], 0, [], [], {})
    && (forall i :: 0 <= i < |s.threads| ==> s.threads[i] == Thread(Top, false))
    && (forall c :: 0 <= c < |s.channels| ==> s.channels[c] == NO_EVENTS)
  }

  // The kernel

  datatype Op = ADD | MOD | DEL

  /** epoll_ctl fails on an ADD of a registered descriptor and on a MOD or DEL of an unregistered one. */
  predicate CtlFails(k: Kernel, op: Op) { op.ADD? != k.Unregistered? }

  function Ctl(op: Op, read: bool, write: bool): Kernel {
    if op.DEL? then Unregistered else Registered(read, write)
  }

  // The scheduler

  function AddTask(s: State, body: Body, pin: Pin): State {
    s.(tasks := s.tasks + [Task(s.nextTask, body, pin)], nextTask := s.nextTask + 1)
  }

  predicate IsRunning(fibers: seq<FiberState>, f: nat) { f < |fibers| && fibers[f].Running? }

  /** A thread may take a task that is not pinned to another thread and whose fiber, if it has one, has
      already stopped running elsewhere. */
  predicate Eligible(t: Task, me: nat, fibers: seq<FiberState>) {
    && (t.pin == Any || t.pin == Only(me))
    && !(t.body.RunFiber? && IsRunning(fibers, t.body.fiber))
  }

  /** The first eligible task from position k on, or the length of the queue. */
  function FirstEligible(tasks: seq<Task>, me: nat, fibers: seq<FiberState>, k: nat): (r: nat)
    requires k <= |tasks|
    ensures k <= r <= |tasks|
    ensures r < |tasks| ==> Eligible(tasks[r], me, fibers)
    ensures forall j :: k <= j < r ==> !Eligible(tasks[j], me, fibers)
    decreases |tasks| - k
  {
    if k == |tasks| || Eligible(tasks[k], me, fibers) then k else FirstEligible(tasks, me, fibers, k + 1)
  }

  /** Scheduler::stopping, evaluated under the lock of the queue. */
  predicate CanStop(s: State) { s.stopping && s.tasks == [] && s.active == 0 }

  function SetPc(s: State, i: nat, pc: Pc): State
    requires i < |s.threads|
  {
    s.(threads := s.threads[i := s.threads[i].(pc := pc)])
  }

  // The reactor

  function SlotBody(slot: Slot): Body
    requires !slot.Empty?
  {
    match slot
    case Waiter(_, f) => RunFiber(f)
    case Callback(_) => RunFunc(User)
  }

  /** Channel::triggerEvent: clears the bit, queues the callback and empties its slot. */
  function Trigger(s: State, fd: nat, ev: Ev): State
    requires fd < |s.channels|
  {
    var c := s.channels[fd];
    var slot := c.At(ev);
    var r := s.(channels := s.channels[fd := c.With(ev, false, Empty)], pending := s.pending - 1);
    if slot.Empty? then r
    else AddTask(r, SlotBody(slot), Any).(fired := s.fired + [slot.reg])
  }

  /** Deletes an event without running its callback. */
  function Drop(s: State, fd: nat, ev: Ev): State
    requires fd < |s.channels|
  {
    var c := s.channels[fd];
    var slot := c.At(ev);
    var r := s.(channels := s.channels[fd := c.With(ev, false, Empty)], pending := s.pending - 1);
    if slot.Empty? then r
    else r.(dropped := s.dropped + [slot.reg], lost := if slot.Waiter? then s.lost + {slot.fiber} else s.lost)
  }

  function SetKernel(s: State, fd: nat, k: Kernel): State
    requires fd < |s.channels|
  {
    s.(channels := s.channels[fd := s.channels[fd].(kernel := k)])
  }

  function AddOp(c: Channel): Op { if c.read || c.write then MOD else ADD }

  /** The operation that leaves the given bits. */
  function DelOp(read: bool, write: bool): Op { if read || write then MOD else DEL }

  /** Reactor::addEvent on an event that is not registered yet. */
  function Register(s: State, fd: nat, ev: Ev, slot: Slot): State
    requires fd < |s.channels|
  {
    var c := s.channels[fd];
    if CtlFails(c.kernel, AddOp(c)) then s
    else
      var r := c.With(ev, true, slot);
      s.(channels := s.channels[fd := r.(kernel := Ctl(AddOp(c), r.read, r.write))],
         pending := s.pending + 1, nextReg := s.nextReg + 1)
  }

  /** Reactor::delEvent. */
  function DelEvent(s: State, fd: nat, ev: Ev, trigger: bool): State
    requires fd < |s.channels|
  {
    var c := s.channels[fd];
    var left := c.With(ev, false, Empty);
    var op := DelOp(left.read, left.write);
    if !c.Has(ev) || CtlFails(c.kernel, op) then s
    else
      var r := SetKernel(s, fd, Ctl(op, left.read, left.write));
      if trigger then Trigger(r, fd, ev) else Drop(r, fd, ev)
  }

  /** The body of the dispatch loop for one channel, whose registered events reported are read and write. */
  function Dispatch(s: State, fd: nat, read: bool, write: bool): State
    requires fd < |s.channels|
  {
    var c := s.channels[fd];
    var op := DelOp(c.read && !read, c.write && !write);
    if CtlFails(c.kernel, op) then s
    else
      var k := SetKernel(s, fd, Ctl(op, c.read && !read, c.write && !write));
      var r := if read then Trigger(k, fd, READ) else k;
      if write then Trigger(r, fd, WRITE) else r
  }

  // Timers

  /** The callbacks of expired timers, in order. */
  function Callbacks(ts: seq<Timer>): (r: seq<Func>)
    ensures |r| == |ts|
  {
    seq(|ts|, i requires 0 <= i < |ts| => ts[i].func)
  }

  function Recurring(ts: seq<Timer>): seq<Timer> {
    if ts == [] then [] else
      Recurring(ts[..|ts| - 1]) + if ts[|ts| - 1].recurring then [ts[|ts| - 1]] else []
  }

  // Actions

  /** Actions of a thread name it first.  Spawn to Finish happen inside a fiber; Expire to StopCheck in the
      idle fiber. */
  datatype Action =
    | Spawn(i: nat, newFiber: bool, pin: Pin)               // addTask of a new fiber, or of a function
    | Watch(i: nat, fd: nat, ev: Ev)                     // addEvent with a callback
    | SetTimer(i: nat, timer: Timer)                     // addClock, addCondClock
    | CancelTimer(i: nat, k: nat)
    | Delete(i: nat, fd: nat, ev: Ev, trigger: bool)     // delEvent, also as called by close
    | Park(i: nat, fd: nat, ev: Ev)                      // do_io: addEvent for this fiber
    | Sleep(i: nat)                                      // sleep: a timer for this fiber
    | Requeue(i: nat)                                    // addTask of this fiber
    | Yield(i: nat)
    | CallWake(i: nat)
    | CallTimeout(i: nat, expired: bool)                 // expired: the waiting call has returned already
    | Finish(i: nat)
    | Pick(i: nat)
    | Resume(i: nat)
    | Decrement(i: nat)
    | Expire(i: nat, due: seq<Timer>, rest: seq<Timer>)
    | Readd(i: nat)
    | Poll(i: nat, fd: nat, read: bool, write: bool)
    | IdleYield(i: nat)
    | StopCheck(i: nat)
    | ExternalAdd(newFiber: bool, pin: Pin)                 // addTask from outside the scheduler's threads
    | SetStop                                            // Scheduler::stop

  /** Actions on the events of a channel. */
  predicate OnEvents(a: Action) { a.Watch? || a.Park? || a.Delete? || a.CallTimeout? || a.Poll? }

  /** Actions inside a fiber, and from outside, that are not about events. */
  predicate OfFiber(a: Action) {
    a.Spawn? || a.ExternalAdd? || a.SetTimer? || a.CancelTimer? || a.Sleep? || a.Requeue? || a.Yield? ||
    a.CallWake? || a.Finish? || a.SetStop?
  }

  predicate In(s: State, i: nat, code: Code) {
    i < |s.threads| && s.threads[i].pc.InFiber? && s.threads[i].pc.code == code && s.threads[i].pc.fiber < |s.fibers|
  }

  predicate At(s: State, i: nat, pc: Pc) { i < |s.threads| && s.threads[i].pc == pc }

  predicate IdleWith(s: State, i: nat, empty: bool) {
    i < |s.threads| && s.threads[i].pc.Idle? && (s.threads[i].pc.callbacks == [] <==> empty)
  }

  /** addEvent asserts that the event is not registered yet. */
  predicate Unwatched(s: State, fd: nat, ev: Ev) { fd < |s.channels| && !s.channels[fd].Has(ev) }

  predicate Enabled(s: State, a: Action) {
    match a
    case Spawn(i, _, _) => In(s, i, Free)
    case Watch(i, fd, ev) => In(s, i, Free) && Unwatched(s, fd, ev)
    case SetTimer(i, t) => In(s, i, Free) && !t.func.Wake?
    case CancelTimer(i, k) => In(s, i, Free) && k < |s.timers| && !s.timers[k].func.Wake?
    case Delete(i, fd, _, _) => In(s, i, Free) && fd < |s.channels|
    case Park(i, fd, ev) => In(s, i, Free) && Unwatched(s, fd, ev)
    case Sleep(i) => In(s, i, Free)
    case Requeue(i) => In(s, i, Free)
    case Yield(i) => In(s, i, Parking)
    case CallWake(i) => i < |s.threads| && s.threads[i].pc.InFiber? && s.threads[i].pc.code.Waking?
    case CallTimeout(i, _) => i < |s.threads| && s.threads[i].pc.InFiber? && s.threads[i].pc.code.TimingOut?
    case Finish(i) => In(s, i, Free) || In(s, i, Ending)
    case Pick(i) => At(s, i, Top)
    case Resume(i) => i < |s.threads| && s.threads[i].pc.Picked?
    case Decrement(i) => i < |s.threads| && s.threads[i].pc.Returned?
    case Expire(i, due, rest) => IdleWith(s, i, true) && multiset(rest + due) == multiset(s.timers)
    case Readd(i) => IdleWith(s, i, false)
    case Poll(i, fd, read, write) =>
      IdleWith(s, i, true) && fd < |s.channels| &&
      (read ==> s.channels[fd].read) && (write ==> s.channels[fd].write)
    case IdleYield(i) => IdleWith(s, i, true)
    case StopCheck(i) => IdleWith(s, i, true)
    case ExternalAdd(_, _) => true
    case SetStop => true
  }

  /** addTask of a new fiber, or of a function. */
  function SpawnTask(s: State, newFiber: bool, pin: Pin): State {
    if newFiber then AddTask(s.(fibers := s.fibers + [Ready]), RunFiber(|s.fibers|), pin)
    else AddTask(s, RunFunc(User), pin)
  }

  function SetCode(s: State, i: nat, code: Code): State
    requires i < |s.threads| && s.threads[i].pc.InFiber?
  {
    SetPc(s, i, s.threads[i].pc.(code := code))
  }

  /** The fiber parks only when addEvent succeeds. */
  function ParkIo(s: State, i: nat, fd: nat, ev: Ev): State
    requires In(s, i, Free) && fd < |s.channels|
  {
    var r := Register(s, fd, ev, Waiter(s.nextReg, s.threads[i].pc.fiber));
    if r.nextReg == s.nextReg then s else SetCode(r, i, Parking)
  }

  function Leave(s: State, i: nat, fiber: FiberState): State
    requires i < |s.threads| && s.threads[i].pc.InFiber? && s.threads[i].pc.fiber < |s.fibers|
  {
    SetPc(s.(fibers := s.fibers[s.threads[i].pc.fiber := fiber]), i, Returned(s.threads[i].pc.task))
  }

  /** One turn of the loop of run up to the point where it has a task or knows that there is none. */
  function PickTask(s: State, i: nat): State
    requires i < |s.threads|
  {
    var k := FirstEligible(s.tasks, i, s.fibers, 0);
    if k < |s.tasks| then
      SetPc(s.(tasks := s.tasks[..k] + s.tasks[k + 1..], active := s.active + 1), i, Picked(s.tasks[k]))
    else SetPc(s, i, if s.threads[i].idleDone then Exited else Idle([]))
  }

  /** The first thing the fiber made for a function does. */
  function FuncCode(func: Func): Code {
    match func
    case User => Free
    case Wake(f) => Waking(f)
    case Timeout(fd, ev) => TimingOut(fd, ev)
  }

  /** Fiber::resume, in a new fiber when the task is a function. */
  function ResumeTask(s: State, i: nat): State
    requires i < |s.threads| && s.threads[i].pc.Picked?
  {
    var t := s.threads[i].pc.task;
    match t.body
    case RunFiber(f) =>
      SetPc(if f < |s.fibers| then s.(fibers := s.fibers[f := Running]) else s, i, InFiber(t, f, Free))
    case RunFunc(fn) =>
      SetPc(s.(fibers := s.fibers + [Running]), i, InFiber(t, |s.fibers|, FuncCode(fn)))
  }

  function Apply(s: State, a: Action): State
    requires Enabled(s, a)
  {
    match a
    case Spawn(_, newFiber, pin) => SpawnTask(s, newFiber, pin)
    case Watch(_, fd, ev) => Register(s, fd, ev, Callback(s.nextReg))
    case SetTimer(_, t) => s.(timers := s.timers + [t])
    case CancelTimer(_, k) => s.(timers := s.timers[..k] + s.timers[k + 1..])
    case Delete(_, fd, ev, trigger) => DelEvent(s, fd, ev, trigger)
    case Park(i, fd, ev) => ParkIo(s, i, fd, ev)
    case Sleep(i) => SetCode(s.(timers := s.timers + [Timer(Wake(s.threads[i].pc.fiber), false)]), i, Parking)
    case Requeue(i) => SetCode(AddTask(s, RunFiber(s.threads[i].pc.fiber), Any), i, Parking)
    case Yield(i) => Leave(s, i, Ready)
    case CallWake(i) => SetCode(AddTask(s, RunFiber(s.threads[i].pc.code.fiber), Any), i, Ending)
    case CallTimeout(i, expired) =>
      var code := s.threads[i].pc.code;
      SetCode(if expired || code.fd >= |s.channels| then s else DelEvent(s, code.fd, code.ev, true), i, Ending)
    case Finish(i) => Leave(s, i, Term)
    case Pick(i) => PickTask(s, i)
    case Resume(i) => ResumeTask(s, i)
    case Decrement(i) =>
      SetPc(s.(active := s.active - 1, done := s.done + [s.threads[i].pc.task.id]), i, Top)
    case Expire(i, due, rest) => SetPc(s.(timers := rest + Recurring(due)), i, Idle(Callbacks(due)))
    case Readd(i) =>
      var cs := s.threads[i].pc.callbacks;
      SetPc(AddTask(s, RunFunc(cs[0]), Any), i, Idle(cs[1..]))
    case Poll(_, fd, read, write) => Dispatch(s, fd, read, write)
    case IdleYield(i) => SetPc(s, i, Top)
    case StopCheck(i) =>
      if CanStop(s) then s.(threads := s.threads[i := Thread(Top, true)]) else s
    case ExternalAdd(newFiber, pin) => SpawnTask(s, newFiber, pin)
    case SetStop => s.(stopping := true)
  }

  /** A run from an initial state, with all the states it passes through. */
  predicate IsRun(states: seq<State>, run: seq<Action>) {
    && |states| == |run| + 1 && Initial(states[0])
    && forall k :: 0 <= k < |run| ==> Enabled(states[k], run[k]) && states[k + 1] == Apply(states[k], run[k])
  }
}
