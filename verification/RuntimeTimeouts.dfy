/** The timers of the runtime, from their expiry to what their callbacks do: the callbacks of expired timers
    are queued, and the timeout of a hooked call that runs wakes the call. */
module RuntimeTimeouts {
  import opened Counting
  import opened Runtime
  import opened RuntimeBooks
  import opened RuntimeFibers
  import opened RuntimeLedgers
  import opened RuntimeRuns

  /** The action is one of this thread. */
  predicate By(a: Action, i: nat) { !a.ExternalAdd? && !a.SetStop? && a.i == i }

  /** An action leaves every thread but its own where it is. */
  lemma OtherThread(s: State, a: Action, i: nat)
    requires Enabled(s, a) && i < |s.threads| && !By(a, i)
    ensures i < |Apply(s, a).threads| && Apply(s, a).threads[i] == s.threads[i]
  {
    hide Apply, Enabled;
    if OnEvents(a) {
      OtherEvents(s, a, i);
    } else if OfFiber(a) {
      OtherFiber(s, a, i);
    } else {
      OtherLoop(s, a, i);
    }
  }

  lemma OtherEvents(s: State, a: Action, i: nat)
    requires OnEvents(a) && Enabled(s, a) && i < |s.threads| && !By(a, i)
    ensures i < |Apply(s, a).threads| && Apply(s, a).threads[i] == s.threads[i]
  {
    hide Register, DelEvent, Dispatch;
    match a
    case Watch(_, fd, ev) => RegisterFrame(s, fd, ev, Callback(s.nextReg));
    case Park(j, fd, ev) => RegisterFrame(s, fd, ev, Waiter(s.nextReg, s.threads[j].pc.fiber));
    case Delete(_, fd, ev, trigger) => DelEventFrame(s, fd, ev, trigger);
    case CallTimeout(j, _) =>
      var code := s.threads[j].pc.code;
      if code.fd < |s.channels| {
        DelEventFrame(s, code.fd, code.ev, true);
      }
    case Poll(_, fd, read, write) => DispatchFrame(s, fd, read, write);
  }

  lemma OtherFiber(s: State, a: Action, i: nat)
    requires OfFiber(a) && Enabled(s, a) && i < |s.threads| && !By(a, i)
    ensures i < |Apply(s, a).threads| && Apply(s, a).threads[i] == s.threads[i]
  {
  }

  lemma OtherLoop(s: State, a: Action, i: nat)
    requires !OnEvents(a) && !OfFiber(a) && Enabled(s, a) && i < |s.threads| && !By(a, i)
    ensures i < |Apply(s, a).threads| && Apply(s, a).threads[i] == s.threads[i]
  {
    hide FirstEligible, Recurring, Callbacks, CanStop, FuncCode;
  }

  // Expiry

  /** How often an action sets a timer. */
  function TimersSet(s: State, a: Action, x: Timer): nat
    requires Enabled(s, a)
  {
    match a
    case SetTimer(_, t) => if t == x then 1 else 0
    case Sleep(i) => if x == Timer(Wake(s.threads[i].pc.fiber), false) then 1 else 0
    case _ => 0
  }

  /** How often an action takes a timer out: when it is cancelled, and when it is due and does not recur. */
  function TimersEnded(s: State, a: Action, x: Timer): nat
    requires Enabled(s, a)
  {
    match a
    case CancelTimer(_, k) => if s.timers[k] == x then 1 else 0
    case Expire(_, due, _) => if x.recurring then 0 else multiset(due)[x]
    case _ => 0
  }

  /** Timers are set and ended by these actions only, and a recurring one stays until it is cancelled. */
  lemma TimerStep(s: State, a: Action, x: Timer)
    requires Enabled(s, a)
    ensures multiset(Apply(s, a).timers)[x] + TimersEnded(s, a, x) == multiset(s.timers)[x] + TimersSet(s, a, x)
  {
    hide Apply, Enabled, TimersSet, TimersEnded;
    if OnEvents(a) {
      TimerEvents(s, a, x);
    } else if OfFiber(a) {
      TimerFiber(s, a, x);
    } else if a.Expire? {
      ExpireKeeps(s, a.i, a.due, a.rest, x);
    } else {
      TimerLoop(s, a, x);
    }
  }

  lemma TimerEvents(s: State, a: Action, x: Timer)
    requires OnEvents(a) && Enabled(s, a)
    ensures Apply(s, a).timers == s.timers && TimersSet(s, a, x) == TimersEnded(s, a, x) == 0
  {
    hide Register, DelEvent, Dispatch;
    match a
    case Watch(_, fd, ev) => RegisterFrame(s, fd, ev, Callback(s.nextReg));
    case Park(i, fd, ev) => RegisterFrame(s, fd, ev, Waiter(s.nextReg, s.threads[i].pc.fiber));
    case Delete(_, fd, ev, trigger) => DelEventFrame(s, fd, ev, trigger);
    case CallTimeout(i, _) =>
      var code := s.threads[i].pc.code;
      if code.fd < |s.channels| {
        DelEventFrame(s, code.fd, code.ev, true);
      }
    case Poll(_, fd, read, write) => DispatchFrame(s, fd, read, write);
  }

  lemma TimerFiber(s: State, a: Action, x: Timer)
    requires OfFiber(a) && Enabled(s, a)
    ensures multiset(Apply(s, a).timers)[x] + TimersEnded(s, a, x) == multiset(s.timers)[x] + TimersSet(s, a, x)
  {
    if a.CancelTimer? {
      assert s.timers == s.timers[..a.k] + [s.timers[a.k]] + s.timers[a.k + 1..];
    }
  }

  lemma TimerLoop(s: State, a: Action, x: Timer)
    requires !OnEvents(a) && !OfFiber(a) && !a.Expire? && Enabled(s, a)
    ensures Apply(s, a).timers == s.timers && TimersSet(s, a, x) == TimersEnded(s, a, x) == 0
  {
    hide FirstEligible, Recurring, Callbacks, CanStop, FuncCode;
  }

  lemma ExpireKeeps(s: State, i: nat, due: seq<Timer>, rest: seq<Timer>, x: Timer)
    requires Enabled(s, Expire(i, due, rest))
    ensures var a := Expire(i, due, rest);
            multiset(Apply(s, a).timers)[x] + TimersEnded(s, a, x) == multiset(s.timers)[x] + TimersSet(s, a, x)
  {
    hide Recurring, Callbacks;
    RecurringCount(due, x);
    assert multiset(rest + due) == multiset(rest) + multiset(due);
  }

  lemma {:induction false} RecurringCount(ts: seq<Timer>, x: Timer)
    ensures multiset(Recurring(ts))[x] == if x.recurring then multiset(ts)[x] else 0
  {
    if ts != [] {
      var n := |ts| - 1;
      RecurringCount(ts[..n], x);
      assert ts == ts[..n] + [ts[n]];
    }
  }

  /** The task that step j adds at the end of the queue runs the callback func. */
  predicate Queues(s: State, t: State, func: Func) {
    t.tasks == s.tasks + [Task(s.nextTask, RunFunc(func), Any)] && t.nextTask == s.nextTask + 1
  }

  /** What a thread with callbacks of expired timers does next. */
  lemma CallbackStep(s: State, a: Action, i: nat)
    requires Enabled(s, a) && i < |s.threads| && s.threads[i].pc.Idle? && s.threads[i].pc.callbacks != [] && By(a, i)
    ensures a == Readd(i)
    ensures var t, cs := Apply(s, a), s.threads[i].pc.callbacks;
            i < |t.threads| && t.threads[i].pc == Idle(cs[1..]) && Queues(s, t, cs[0])
  {
  }

  /** The steps between k and m at which a thread queued the callbacks of timers, in order. */
  predicate QueuedAt(states: seq<State>, run: seq<Action>, k: nat, m: nat, i: nat, due: seq<Timer>, js: seq<nat>) {
    && |js| <= |due|
    && (forall r :: 0 <= r < |js| ==> k < js[r] < m <= |run| < |states| && run[js[r]] == Readd(i))
    && (forall r :: 0 <= r < |js| ==> Queues(states[js[r]], states[js[r] + 1], due[r].func))
    && forall q, r :: 0 <= q < r < |js| ==> js[q] < js[r]
  }

  lemma {:induction false} ExpiredSteps(states: seq<State>, run: seq<Action>, k: nat, m: nat) returns (js: seq<nat>)
    requires IsRun(states, run) && k < m < |states| && run[k].Expire?
    ensures QueuedAt(states, run, k, m, run[k].i, run[k].due, js)
    ensures var i, due := run[k].i, run[k].due;
            && i < |states[m].threads|
            && (|js| < |due| ==> states[m].threads[i].pc == Idle(Callbacks(due)[|js|..]))
    decreases m
  {
    hide Initial, Enabled, Apply, Callbacks;
    var i, due := run[k].i, run[k].due;
    if m == k + 1 {
      js := [];
      ExpireStep(states[k], run[k]);
    } else {
      var s := states[m - 1];
      js := ExpiredSteps(states, run, k, m - 1);
      assert states[m] == Apply(s, run[m - 1]);
      if By(run[m - 1], i) && |js| < |due| {
        CallbackAt(due, |js|);
        CallbackStep(s, run[m - 1], i);
        js := js + [m - 1];
      } else if By(run[m - 1], i) {
        ThreadCount(s, run[m - 1]);
      } else {
        OtherThread(s, run[m - 1], i);
      }
    }
  }

  lemma CallbackAt(due: seq<Timer>, n: nat)
    requires n < |due|
    ensures var cs := Callbacks(due)[n..];
            cs != [] && cs[0] == due[n].func && cs[1..] == Callbacks(due)[n + 1..]
  {
  }

  lemma ExpireStep(s: State, a: Action)
    requires Enabled(s, a) && a.Expire?
    ensures a.i < |Apply(s, a).threads| && Apply(s, a).threads[a.i].pc == Idle(Callbacks(a.due))
    ensures Callbacks(a.due)[0..] == Callbacks(a.due)
  {
  }

  /** Before a thread does anything else, it queues the callbacks of all the timers that it found expired, one
      task for each and in their order. */
  lemma ExpiredQueued(states: seq<State>, run: seq<Action>, k: nat, m: nat) returns (js: seq<nat>)
    requires IsRun(states, run) && k < m < |states| && run[k].Expire?
    requires run[k].i < |states[m].threads|
    requires var pc := states[m].threads[run[k].i].pc; pc.Idle? ==> pc.callbacks == []
    ensures |js| == |run[k].due| && QueuedAt(states, run, k, m, run[k].i, run[k].due, js)
  {
    hide IsRun;
    js := ExpiredSteps(states, run, k, m);
  }

  // Tasks keep what they are

  /** The task is queued, or a thread holds it. */
  predicate HasTask(s: State, t: Task) {
    t in s.tasks || exists i :: 0 <= i < |s.threads| && HeldBy(s.threads[i], t)
  }

  predicate HeldBy(th: Thread, t: Task) { Holds(th.pc) && th.pc.task == t }

  /** Tasks are added with new numbers. */
  predicate Grows(s: State, t: State) {
    s.nextTask <= t.nextTask && forall u :: u in t.tasks ==> u in s.tasks || s.nextTask <= u.id
  }

  lemma QueueStep(s: State, a: Action)
    requires Enabled(s, a)
    ensures Grows(s, Apply(s, a))
  {
    hide Apply, Enabled, Grows;
    if OnEvents(a) {
      QueueEvents(s, a);
    } else if OfFiber(a) {
      QueueFiber(s, a);
    } else {
      QueueLoop(s, a);
    }
  }

  lemma TriggerGrows(s: State, r: State, fd: nat, ev: Ev)
    requires fd < |r.channels| && Grows(s, r)
    ensures Grows(s, Trigger(r, fd, ev)) && fd < |Trigger(r, fd, ev).channels|
  {
  }

  lemma DelEventGrows(s: State, fd: nat, ev: Ev, trigger: bool)
    requires fd < |s.channels|
    ensures Grows(s, DelEvent(s, fd, ev, trigger))
  {
    hide Trigger;
    var left := s.channels[fd].With(ev, false, Empty);
    TriggerGrows(s, SetKernel(s, fd, Ctl(DelOp(left.read, left.write), left.read, left.write)), fd, ev);
  }

  lemma DispatchGrows(s: State, fd: nat, read: bool, write: bool)
    requires fd < |s.channels|
    ensures Grows(s, Dispatch(s, fd, read, write))
  {
    hide Trigger;
    var c := s.channels[fd];
    var op := DelOp(c.read && !read, c.write && !write);
    var k := SetKernel(s, fd, Ctl(op, c.read && !read, c.write && !write));
    TriggerGrows(s, k, fd, READ);
    TriggerGrows(s, if read then Trigger(k, fd, READ) else k, fd, WRITE);
  }

  lemma QueueEvents(s: State, a: Action)
    requires OnEvents(a) && Enabled(s, a)
    ensures Grows(s, Apply(s, a))
  {
    hide Register, DelEvent, Dispatch;
    match a
    case Watch(_, fd, ev) => RegisterFrame(s, fd, ev, Callback(s.nextReg));
    case Park(i, fd, ev) => RegisterFrame(s, fd, ev, Waiter(s.nextReg, s.threads[i].pc.fiber));
    case Delete(_, fd, ev, trigger) => DelEventGrows(s, fd, ev, trigger);
    case CallTimeout(i, _) =>
      var code := s.threads[i].pc.code;
      if code.fd < |s.channels| {
        DelEventFrame(s, code.fd, code.ev, true);
        DelEventGrows(s, code.fd, code.ev, true);
      }
    case Poll(_, fd, read, write) => DispatchGrows(s, fd, read, write);
  }

  lemma QueueFiber(s: State, a: Action)
    requires OfFiber(a) && Enabled(s, a)
    ensures Grows(s, Apply(s, a))
  {
  }

  lemma QueueLoop(s: State, a: Action)
    requires !OnEvents(a) && !OfFiber(a) && Enabled(s, a)
    ensures Grows(s, Apply(s, a))
  {
    hide FirstEligible, Recurring, Callbacks, CanStop, FuncCode;
  }

  /** A thread takes its task from the queue, and keeps it. */
  lemma HeldStep(s: State, a: Action, i: nat, t: Task)
    requires Enabled(s, a) && i < |s.threads| && i < |Apply(s, a).threads| && HeldBy(Apply(s, a).threads[i], t)
    ensures HeldBy(s.threads[i], t) || t in s.tasks
  {
    hide Apply, Enabled;
    if !By(a, i) {
      OtherThread(s, a, i);
    } else if OnEvents(a) {
      HeldEvents(s, a, i);
    } else if OfFiber(a) {
      HeldFiber(s, a, i);
    } else {
      HeldLoop(s, a, i, t);
    }
  }

  lemma HeldEvents(s: State, a: Action, i: nat)
    requires OnEvents(a) && Enabled(s, a) && i < |s.threads|
    ensures var t := Apply(s, a);
            && i < |t.threads| && Holds(t.threads[i].pc) == Holds(s.threads[i].pc)
            && (Holds(s.threads[i].pc) ==> t.threads[i].pc.task == s.threads[i].pc.task)
  {
    hide Register, DelEvent, Dispatch;
    match a
    case Watch(_, fd, ev) => RegisterFrame(s, fd, ev, Callback(s.nextReg));
    case Park(j, fd, ev) => RegisterFrame(s, fd, ev, Waiter(s.nextReg, s.threads[j].pc.fiber));
    case Delete(_, fd, ev, trigger) => DelEventFrame(s, fd, ev, trigger);
    case CallTimeout(j, _) =>
      var code := s.threads[j].pc.code;
      if code.fd < |s.channels| {
        DelEventFrame(s, code.fd, code.ev, true);
      }
    case Poll(_, fd, read, write) => DispatchFrame(s, fd, read, write);
  }

  lemma HeldFiber(s: State, a: Action, i: nat)
    requires OfFiber(a) && Enabled(s, a) && i < |s.threads|
    ensures var t := Apply(s, a);
            && i < |t.threads| && Holds(t.threads[i].pc) == Holds(s.threads[i].pc)
            && (Holds(s.threads[i].pc) ==> t.threads[i].pc.task == s.threads[i].pc.task)
  {
  }

  lemma HeldLoop(s: State, a: Action, i: nat, t: Task)
    requires !OnEvents(a) && !OfFiber(a) && Enabled(s, a) && By(a, i) && i < |s.threads|
    requires i < |Apply(s, a).threads| && HeldBy(Apply(s, a).threads[i], t)
    ensures HeldBy(s.threads[i], t) || t in s.tasks
  {
    hide FirstEligible, Recurring, Callbacks, CanStop, FuncCode;
  }

  /** A task that is anywhere was there before, or is new. */
  lemma TaskBefore(s: State, a: Action, t: Task)
    requires Enabled(s, a) && HasTask(Apply(s, a), t)
    ensures HasTask(s, t) || s.nextTask <= t.id
  {
    hide Apply, Enabled, HeldBy;
    QueueStep(s, a);
    ThreadCount(s, a);
    var r := Apply(s, a);
    if t !in r.tasks {
      var i :| 0 <= i < |r.threads| && HeldBy(r.threads[i], t);
      HeldStep(s, a, i, t);
    }
  }

  lemma {:induction false} NumbersGrow(states: seq<State>, run: seq<Action>, j: nat, k: nat)
    requires IsRun(states, run) && j <= k < |states|
    ensures states[j].nextTask <= states[k].nextTask
    decreases k
  {
    hide Initial, Enabled, Apply;
    if j < k {
      NumbersGrow(states, run, j, k - 1);
      QueueStep(states[k - 1], run[k - 1]);
    }
  }

  /** Where a task is, its account counts it. */
  lemma TaskPlace(s: State, t: Task)
    requires HasTask(s, t)
    ensures Places(s, t.id) >= 1
  {
    if i :| 0 <= i < |s.tasks| && s.tasks[i] == t {
      SumSplit(s.tasks, i, QueuedW(t.id));
    } else {
      var i :| 0 <= i < |s.threads| && HeldBy(s.threads[i], t);
      SumSplit(s.threads, i, HeldW(t.id));
    }
  }

  lemma TaskNumber(s: State, t: Task)
    requires Inv(s) && HasTask(s, t)
    ensures t.id < s.nextTask
  {
    hide HasTask, Places;
    TaskPlace(s, t);
    assert TaskInv(s, t.id);
  }

  /** Two tasks in a state have two numbers. */
  lemma OneTask(s: State, t: Task, u: Task)
    requires Inv(s) && HasTask(s, t) && HasTask(s, u) && t.id == u.id
    ensures t == u
  {
    assert TaskInv(s, t.id);
    if t != u {
      if t in s.tasks && u in s.tasks {
        BothQueued(s, t, u);
      } else if t in s.tasks {
        QueuedHeld(s, t, u);
      } else if u in s.tasks {
        QueuedHeld(s, u, t);
      } else {
        BothHeld(s, t, u);
      }
    }
  }

  lemma BothQueued(s: State, t: Task, u: Task)
    requires t in s.tasks && u in s.tasks && t.id == u.id && t != u
    ensures Places(s, t.id) >= 2
  {
    var i :| 0 <= i < |s.tasks| && s.tasks[i] == t;
    var j :| 0 <= j < |s.tasks| && s.tasks[j] == u;
    SumTwo(s.tasks, if i < j then i else j, if i < j then j else i, QueuedW(t.id));
  }

  lemma QueuedHeld(s: State, t: Task, u: Task)
    requires t in s.tasks && u !in s.tasks && HasTask(s, u) && t.id == u.id
    ensures Places(s, t.id) >= 2
  {
    var i :| 0 <= i < |s.tasks| && s.tasks[i] == t;
    SumSplit(s.tasks, i, QueuedW(t.id));
    var j :| 0 <= j < |s.threads| && HeldBy(s.threads[j], u);
    SumSplit(s.threads, j, HeldW(t.id));
  }

  lemma BothHeld(s: State, t: Task, u: Task)
    requires t !in s.tasks && u !in s.tasks && HasTask(s, t) && HasTask(s, u) && t.id == u.id && t != u
    ensures Places(s, t.id) >= 2
  {
    var i :| 0 <= i < |s.threads| && HeldBy(s.threads[i], t);
    var j :| 0 <= j < |s.threads| && HeldBy(s.threads[j], u);
    SumTwo(s.threads, if i < j then i else j, if i < j then j else i, HeldW(t.id));
  }

  /** A number names one task in the whole run: body and pin never change. */
  lemma {:induction false} SameTask(states: seq<State>, run: seq<Action>, j: nat, k: nat, t: Task, u: Task)
    requires IsRun(states, run) && j <= k < |states|
    requires HasTask(states[j], t) && HasTask(states[k], u) && t.id == u.id
    ensures t == u
    decreases k
  {
    hide Initial, Enabled, Apply, Inv, HasTask;
    RunInv(states, run, j);
    if j == k {
      OneTask(states[j], t, u);
    } else {
      TaskNumber(states[j], t);
      NumbersGrow(states, run, j, k - 1);
      TaskBefore(states[k - 1], run[k - 1], u);
      SameTask(states, run, j, k - 1, t, u);
    }
  }

  // The timeout of a hooked call

  /** The thread that runs the task t calls the timeout of this event. */
  predicate Calls(s: State, a: Action, t: Task, fd: nat, ev: Ev) {
    && a.CallTimeout? && a.i < |s.threads| && HeldBy(s.threads[a.i], t)
    && s.threads[a.i].pc.InFiber? && s.threads[a.i].pc.code == TimingOut(fd, ev)
  }

  /** The fiber of the task has come further than the call. */
  predicate Past(pc: Pc, t: Task, fd: nat, ev: Ev) {
    (pc.Returned? && pc.task == t) || (pc.InFiber? && pc.task == t && pc.code != TimingOut(fd, ev))
  }

  lemma PastStep(s: State, a: Action, i: nat, t: Task, fd: nat, ev: Ev)
    requires Enabled(s, a) && t.body == RunFunc(Timeout(fd, ev)) && i < |s.threads|
    requires i < |Apply(s, a).threads| && Past(Apply(s, a).threads[i].pc, t, fd, ev)
    ensures Past(s.threads[i].pc, t, fd, ev) || (a.CallTimeout? && a.i == i && Calls(s, a, t, fd, ev))
  {
    hide Apply, Enabled;
    if !By(a, i) {
      OtherThread(s, a, i);
    } else if OnEvents(a) {
      PastEvents(s, a, i, t, fd, ev);
    } else if OfFiber(a) {
      PastFiber(s, a, i, t, fd, ev);
    } else {
      PastLoop(s, a, i, t, fd, ev);
    }
  }

  lemma PastEvents(s: State, a: Action, i: nat, t: Task, fd: nat, ev: Ev)
    requires OnEvents(a) && Enabled(s, a) && i < |s.threads| && By(a, i)
    requires i < |Apply(s, a).threads| && Past(Apply(s, a).threads[i].pc, t, fd, ev)
    ensures Past(s.threads[i].pc, t, fd, ev) || Calls(s, a, t, fd, ev)
  {
    hide Register, DelEvent, Dispatch;
    match a
    case Watch(_, f, e) => RegisterFrame(s, f, e, Callback(s.nextReg));
    case Park(j, f, e) => RegisterFrame(s, f, e, Waiter(s.nextReg, s.threads[j].pc.fiber));
    case Delete(_, f, e, trigger) => DelEventFrame(s, f, e, trigger);
    case CallTimeout(j, _) =>
      var code := s.threads[j].pc.code;
      if code.fd < |s.channels| {
        DelEventFrame(s, code.fd, code.ev, true);
      }
    case Poll(_, f, read, write) => DispatchFrame(s, f, read, write);
  }

  lemma PastFiber(s: State, a: Action, i: nat, t: Task, fd: nat, ev: Ev)
    requires OfFiber(a) && Enabled(s, a) && i < |s.threads| && By(a, i)
    requires i < |Apply(s, a).threads| && Past(Apply(s, a).threads[i].pc, t, fd, ev)
    ensures Past(s.threads[i].pc, t, fd, ev)
  {
  }

  lemma PastLoop(s: State, a: Action, i: nat, t: Task, fd: nat, ev: Ev)
    requires !OnEvents(a) && !OfFiber(a) && Enabled(s, a) && i < |s.threads| && By(a, i)
    requires t.body == RunFunc(Timeout(fd, ev))
    requires i < |Apply(s, a).threads| && Past(Apply(s, a).threads[i].pc, t, fd, ev)
    ensures Past(s.threads[i].pc, t, fd, ev)
  {
    hide FirstEligible, Recurring, Callbacks, CanStop;
  }

  /** A thread that has come further with a timeout task than its call has made the call. */
  lemma {:induction false} TimeoutCalled(states: seq<State>, run: seq<Action>, k: nat, i: nat, t: Task, fd: nat, ev: Ev)
    returns (j: nat)
    requires IsRun(states, run) && k < |states| && i < |states[k].threads| && t.body == RunFunc(Timeout(fd, ev))
    requires var pc := states[k].threads[i].pc;
             pc == Returned(t) || (pc.InFiber? && pc.task == t && pc.code != TimingOut(fd, ev))
    ensures j < k && run[j].CallTimeout? && run[j].i == i && i < |states[j].threads|
    ensures var pc := states[j].threads[i].pc; pc.InFiber? && pc.task == t && pc.code == TimingOut(fd, ev)
    decreases k
  {
    hide Enabled, Apply;
    if k == 0 {
      assert false;
    }
    ThreadCount(states[k - 1], run[k - 1]);
    PastStep(states[k - 1], run[k - 1], i, t, fd, ev);
    if Past(states[k - 1].threads[i].pc, t, fd, ev) {
      j := TimeoutCalled(states, run, k - 1, i, t, fd, ev);
    } else {
      j := k - 1;
    }
  }

  lemma DoneStep(s: State, a: Action, n: nat)
    requires Enabled(s, a) && n in Apply(s, a).done && n !in s.done
    ensures a.Decrement? && s.threads[a.i].pc.Returned? && s.threads[a.i].pc.task.id == n
  {
    hide Apply, Enabled;
    if OnEvents(a) {
      DoneEvents(s, a);
    } else if OfFiber(a) {
      DoneFiber(s, a);
    } else {
      DoneLoop(s, a, n);
    }
  }

  lemma DoneEvents(s: State, a: Action)
    requires OnEvents(a) && Enabled(s, a)
    ensures Apply(s, a).done == s.done
  {
    hide Register, DelEvent, Dispatch;
    match a
    case Watch(_, fd, ev) => RegisterFrame(s, fd, ev, Callback(s.nextReg));
    case Park(i, fd, ev) => RegisterFrame(s, fd, ev, Waiter(s.nextReg, s.threads[i].pc.fiber));
    case Delete(_, fd, ev, trigger) => DelEventFrame(s, fd, ev, trigger);
    case CallTimeout(i, _) =>
      var code := s.threads[i].pc.code;
      if code.fd < |s.channels| {
        DelEventFrame(s, code.fd, code.ev, true);
      }
    case Poll(_, fd, read, write) => DispatchFrame(s, fd, read, write);
  }

  lemma DoneFiber(s: State, a: Action)
    requires OfFiber(a) && Enabled(s, a)
    ensures Apply(s, a).done == s.done
  {
  }

  lemma DoneLoop(s: State, a: Action, n: nat)
    requires !OnEvents(a) && !OfFiber(a) && Enabled(s, a) && n in Apply(s, a).done && n !in s.done
    ensures a.Decrement? && s.threads[a.i].pc.Returned? && s.threads[a.i].pc.task.id == n
  {
    hide FirstEligible, Recurring, Callbacks, CanStop, FuncCode;
  }

  lemma HasReturned(s: State, i: nat)
    requires i < |s.threads| && s.threads[i].pc.Returned?
    ensures HasTask(s, s.threads[i].pc.task)
  {
    assert HeldBy(s.threads[i], s.threads[i].pc.task);
  }

  /** No timeout task is done without its call: if the task of a timeout is accepted at any time and done at
      state k, the thread that ran it has called the timeout of that event before. */
  lemma {:induction false} TimeoutDone(states: seq<State>, run: seq<Action>, l: nat, k: nat, t: Task, fd: nat, ev: Ev)
    returns (j: nat)
    requires IsRun(states, run) && l < |states| && k < |states| && HasTask(states[l], t)
    requires t.body == RunFunc(Timeout(fd, ev)) && t.id in states[k].done
    ensures j < k && Calls(states[j], run[j], t, fd, ev)
    decreases k
  {
    hide Enabled, Apply, HasTask;
    if k == 0 {
      assert false;
    }
    var s := states[k - 1];
    if t.id in s.done {
      j := TimeoutDone(states, run, l, k - 1, t, fd, ev);
    } else {
      DoneStep(s, run[k - 1], t.id);
      var i := run[k - 1].i;
      ReturnedThread(s, run[k - 1]);
      HasReturned(s, i);
      if l <= k - 1 {
        SameTask(states, run, l, k - 1, t, s.threads[i].pc.task);
      } else {
        SameTask(states, run, k - 1, l, s.threads[i].pc.task, t);
      }
      j := TimeoutCalled(states, run, k - 1, i, t, fd, ev);
    }
  }

  lemma ReturnedThread(s: State, a: Action)
    requires a.Decrement? && Enabled(s, a)
    ensures a.i < |s.threads|
  {
  }

  /** Step j calls the timeout of an event for the task t; unless the waiting call has returned already, an
      event that is still registered is removed by this step, and its callback queued. */
  predicate TimesOut(states: seq<State>, run: seq<Action>, j: nat, t: Task, fd: nat, ev: Ev) {
    && j < |run| < |states| && Calls(states[j], run[j], t, fd, ev)
    && (!run[j].expired && fd < |states[j].channels| && states[j].channels[fd].Has(ev) ==>
          && fd < |states[j + 1].channels| && !states[j + 1].channels[fd].Has(ev)
          && Delivered(states[j], states[j + 1], states[j].channels[fd].At(ev)))
  }

  lemma CallDelivers(states: seq<State>, run: seq<Action>, j: nat, t: Task, fd: nat, ev: Ev)
    requires IsRun(states, run) && j < |run| && Calls(states[j], run[j], t, fd, ev)
    ensures TimesOut(states, run, j, t, fd, ev)
  {
    hide Initial, Apply, Inv, Delivered;
    RunInv(states, run, j);
    if fd < |states[j].channels| && states[j].channels[fd].Has(ev) {
      EventRemoved(states[j], run[j], fd, ev);
    }
  }

  /** The task that queues a timeout, once it is done, has woken the call if it was still waiting. */
  lemma QueuedTimeout(states: seq<State>, run: seq<Action>, q: nat, k: nat, fd: nat, ev: Ev) returns (j: nat)
    requires IsRun(states, run) && q < |run| && k < |states| && Queues(states[q], states[q + 1], Timeout(fd, ev))
    requires states[q].nextTask in states[k].done
    ensures q < j < k
    ensures TimesOut(states, run, j, Task(states[q].nextTask, RunFunc(Timeout(fd, ev)), Any), fd, ev)
  {
    hide Initial, Enabled, Apply, Inv, TimesOut, Calls;
    var t := Task(states[q].nextTask, RunFunc(Timeout(fd, ev)), Any);
    assert states[q + 1].tasks[|states[q].tasks|] == t;
    j := TimeoutDone(states, run, q + 1, k, t, fd, ev);
    CallHolds(states[j], run[j], t, fd, ev);
    RunInv(states, run, j);
    TaskNumber(states[j], t);
    if j <= q {
      NumbersGrow(states, run, j, q);
    }
    CallDelivers(states, run, j, t, fd, ev);
  }

  lemma CallHolds(s: State, a: Action, t: Task, fd: nat, ev: Ev)
    requires Calls(s, a, t, fd, ev)
    ensures HasTask(s, t)
  {
  }

  /** From the expiry of a timeout to the wake: its callback is queued before the thread does anything else,
      and when the task that this is has been done, the event has been asked to be removed with its wake. */
  lemma ExpiredTimeout(states: seq<State>, run: seq<Action>, k: nat, m: nat, r: nat, fd: nat, ev: Ev)
    returns (q: nat)
    requires IsRun(states, run) && k < m < |states| && run[k].Expire?
    requires r < |run[k].due| && run[k].due[r].func == Timeout(fd, ev) && run[k].i < |states[m].threads|
    requires var pc := states[m].threads[run[k].i].pc; pc.Idle? ==> pc.callbacks == []
    ensures k < q < m && run[q] == Readd(run[k].i)
    ensures var t := Task(states[q].nextTask, RunFunc(Timeout(fd, ev)), Any);
            && states[q + 1].tasks == states[q].tasks + [t]
            && forall n :: q < n < |states| && t.id in states[n].done ==>
                 exists j :: q < j < n && TimesOut(states, run, j, t, fd, ev)
  {
    hide IsRun, TimesOut;
    var js := ExpiredQueued(states, run, k, m);
    q := js[r];
    var t := Task(states[q].nextTask, RunFunc(Timeout(fd, ev)), Any);
    forall n | q < n < |states| && t.id in states[n].done
      ensures exists j :: q < j < n && TimesOut(states, run, j, t, fd, ev) {
      var j := QueuedTimeout(states, run, q, n, fd, ev);
    }
  }

  // What threads can do

  /** A new fiber, or a function, is queued behind the other tasks with the pin that was asked for. */
  lemma SpawnQueues(s: State, a: Action)
    requires Enabled(s, a) && (a.Spawn? || a.ExternalAdd?)
    ensures var t, n := Apply(s, a), |s.tasks|;
            && |t.tasks| == n + 1 && t.tasks[..n] == s.tasks && t.tasks[n].pin == a.pin
            && (if a.newFiber then t.tasks[n].body == RunFiber(|s.fibers|) && t.fibers == s.fibers + [Ready]
                else t.tasks[n].body == RunFunc(User) && t.fibers == s.fibers)
  {
  }

  /** A fiber that was scheduled, or a function of a user, goes on with anything it likes. */
  lemma UserRuns(s: State, i: nat)
    requires FibersInv(s) && Enabled(s, Resume(i))
    requires var b := s.threads[i].pc.task.body; b.RunFiber? || b == RunFunc(User)
    ensures var t := Apply(s, Resume(i));
            && Enabled(t, Spawn(i, true, Any)) && Enabled(t, Sleep(i)) && Enabled(t, Requeue(i))
            && Enabled(t, Finish(i))
            && t.channels == s.channels
            && forall fd, ev :: Unwatched(s, fd, ev) ==> Enabled(t, Park(i, fd, ev))
  {
    var b := s.threads[i].pc.task.body;
    assert PickedReady(s, i);
    var t := Apply(s, Resume(i));
    assert In(t, i, Free);
  }

  /** A thread that has nothing to do when the scheduler may stop leaves it in two steps. */
  lemma StopLeaves(s: State, i: nat)
    requires CanStop(s) && IdleWith(s, i, true)
    ensures Enabled(s, StopCheck(i)) && Enabled(Apply(s, StopCheck(i)), Pick(i))
    ensures Apply(Apply(s, StopCheck(i)), Pick(i)).threads[i].pc.Exited?
  {
  }
}
