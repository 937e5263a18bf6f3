/** The scheduler and the reactor as objects that update their fields.  Each method is proved to do what the
    step system of the runtime says: s is the state of the whole system before the call, and an object
    matches it when the object's fields are its parts. */
module Scheduling {
  import opened Options
  import opened Runtime
  import RuntimeFibers
  import RuntimeLedgers
  import RuntimeRuns

  predicate PinnedElsewhere(t: Task, me: nat) { t.pin != Any && t.pin != Only(me) }

  class Scheduler {
    var tasks: seq<Task>
    var active: int
    var stopping: bool
    var accepted: nat
    ghost var done: seq<nat>

    ghost predicate Matches(s: State)
      reads this
    {
      tasks == s.tasks && active == s.active && stopping == s.stopping && accepted == s.nextTask && done == s.done
    }

    constructor ()
      ensures tasks == [] && active == 0 && !stopping && accepted == 0 && done == []
    {
      tasks, active, stopping, accepted, done := [], 0, false, 0, [];
    }

    /** Returns whether an idle thread has to be woken. */
    method AddTask(ghost s: State, body: Body, pin: Pin) returns (tickle: bool)
      requires Matches(s)
      modifies `tasks, `accepted
      ensures Matches(Runtime.AddTask(s, body, pin))
      ensures tickle <==> s.tasks == []
    {
      tickle := tasks == [];
      tasks := tasks + [Task(accepted, body, pin)];
      accepted := accepted + 1;
    }

    /** The search of run for a task, under the lock: pinned tasks of other threads and tasks whose fiber is
        still running are passed over.  Returns also whether another thread has to be woken. */
    method Pick(ghost s: State, me: nat, fibers: seq<FiberState>) returns (task: Option<Task>, tickle: bool)
      requires Matches(s) && fibers == s.fibers && me < |s.threads|
      modifies `tasks, `active
      ensures Matches(PickTask(s, me))
      ensures var k := FirstEligible(s.tasks, me, fibers, 0);
              && task == (if k < |s.tasks| then Some(s.tasks[k]) else None)
              && (tickle <==> k + 1 < |s.tasks| || exists j :: 0 <= j < k && PinnedElsewhere(s.tasks[j], me))
    {
      tickle, task := false, None;
      var it := 0;
      while it < |tasks|
        invariant 0 <= it <= |tasks| && tasks == s.tasks && active == s.active && task.None?
        invariant FirstEligible(s.tasks, me, fibers, 0) == FirstEligible(s.tasks, me, fibers, it)
        invariant tickle <==> exists j :: 0 <= j < it && PinnedElsewhere(s.tasks[j], me)
        decreases |tasks| - it
      {
        var t := tasks[it];
        if PinnedElsewhere(t, me) {
          it := it + 1;
          tickle := true;
          continue;
        }
        if t.body.RunFiber? && IsRunning(fibers, t.body.fiber) {
          it := it + 1;
          continue;
        }
        task := Some(t);
        tasks := tasks[..it] + tasks[it + 1..];
        active := active + 1;
        break;
      }
      tickle := tickle || it != |tasks|;
    }

    method Decrement(ghost s: State, ghost id: nat)
      requires Matches(s)
      modifies `active, `done
      ensures Matches(s.(active := s.active - 1, done := s.done + [id]))
    {
      active := active - 1;
      done := done + [id];
    }

    /** Whether stop has been called and every accepted task has been run exactly once. */
    method Stopping(ghost s: State) returns (r: bool)
      requires Matches(s)
      ensures r <==> CanStop(s)
      ensures RuntimeLedgers.LedgersInv(s) ==> (r <==> s.stopping && RuntimeRuns.DoneOnce(s))
    {
      r := stopping && tasks == [] && active == 0;
      if RuntimeLedgers.LedgersInv(s) {
        RuntimeRuns.StopTest(s);
      }
    }
  }

  datatype Report = Report(fd: nat, read: bool, write: bool)

  /** The channels a report is about still have the events it reports. */
  predicate Current(s: State, r: Report) {
    r.fd < |s.channels| && (r.read ==> s.channels[r.fd].read) && (r.write ==> s.channels[r.fd].write)
  }

  /** The reports handled one after another. */
  function DispatchAll(s: State, rs: seq<Report>): (t: State)
    requires forall r :: 0 <= r < |rs| ==> rs[r].fd < |s.channels|
    ensures |t.channels| == |s.channels|
  {
    if rs == [] then s
    else
      var front := DispatchAll(s, rs[..|rs| - 1]);
      var r := rs[|rs| - 1];
      RuntimeFibers.DispatchWidth(front, r.fd, r.read, r.write);
      Dispatch(front, r.fd, r.read, r.write)
  }

  class Reactor {
    const scheduler: Scheduler
    var channels: seq<Channel>
    var pending: int
    var registered: nat
    ghost var fired: seq<nat>
    ghost var dropped: seq<nat>
    ghost var lost: set<nat>

    ghost predicate Matches(s: State)
      reads this, scheduler
    {
      && scheduler.Matches(s)
      && channels == s.channels && pending == s.pending && registered == s.nextReg
      && fired == s.fired && dropped == s.dropped && lost == s.lost
    }

    constructor (scheduler: Scheduler, fds: nat)
      ensures this.scheduler == scheduler
      ensures channels == seq(fds, _ => NO_EVENTS) && pending == 0 && registered == 0
      ensures fired == [] && dropped == [] && lost == {}
    {
      this.scheduler := scheduler;
      channels := seq(fds, _ => NO_EVENTS);
      pending, registered, fired, dropped, lost := 0, 0, [], [], {};
    }

    /** The kernel's answer; the state of the descriptor changes only when the call succeeds. */
    method EpollCtl(op: Op, fd: nat, read: bool, write: bool) returns (ok: bool)
      requires fd < |channels|
      modifies `channels
      ensures ok <==> !CtlFails(old(channels[fd].kernel), op)
      ensures channels == if ok then old(channels)[fd := old(channels[fd]).(kernel := Ctl(op, read, write))]
                          else old(channels)
    {
      ok := !CtlFails(channels[fd].kernel, op);
      if ok {
        channels := channels[fd := channels[fd].(kernel := Ctl(op, read, write))];
      }
    }

    /** Channel::triggerEvent; the pending count is the caller's business. */
    method TriggerEvent(ghost s: State, fd: nat, ev: Ev)
      requires Matches(s) && fd < |channels| && channels[fd].Has(ev) && !channels[fd].At(ev).Empty?
      modifies `channels, `fired, scheduler`tasks, scheduler`accepted
      ensures Matches(Trigger(s, fd, ev).(pending := s.pending))
    {
      var slot := channels[fd].At(ev);
      channels := channels[fd := channels[fd].With(ev, false, slot)];
      var _ := scheduler.AddTask(s, SlotBody(slot), Any);
      channels := channels[fd := channels[fd].With(ev, false, Empty)];
      fired := fired + [slot.reg];
    }

    method AddEvent(ghost s: State, fd: nat, ev: Ev, callback: Slot) returns (ok: bool)
      requires Matches(s) && Unwatched(s, fd, ev) && RuntimeFibers.ChannelInv(s.channels[fd])
      requires !callback.Empty? && callback.reg == registered
      modifies `channels, `pending, `registered
      ensures Matches(Register(s, fd, ev, callback))
      ensures ok <==> Register(s, fd, ev, callback) != s
    {
      var c := channels[fd];
      assert c.At(ev).Empty?;
      var op := if c.read || c.write then MOD else ADD;
      ok := EpollCtl(op, fd, c.read || ev.READ?, c.write || ev.WRITE?);
      if !ok {
        return false;
      }
      pending := pending + 1;
      channels := channels[fd := channels[fd].With(ev, true, callback)];
      registered := registered + 1;
    }

    method DelEvent(ghost s: State, fd: nat, ev: Ev, trigger: bool) returns (ok: bool)
      requires Matches(s) && (fd < |s.channels| ==> RuntimeFibers.ChannelInv(s.channels[fd]))
      modifies `channels, `pending, `fired, `dropped, `lost, scheduler`tasks, scheduler`accepted
      ensures ok <==> fd < |s.channels| && s.channels[fd].Has(ev)
      ensures Matches(if ok then Runtime.DelEvent(s, fd, ev, trigger) else s)
    {
      if |channels| <= fd {
        return false;
      }
      var c := channels[fd];
      if !c.Has(ev) {
        return false;
      }
      var left := c.With(ev, false, c.At(ev));
      ok := EpollCtl(if left.read || left.write then MOD else DEL, fd, left.read, left.write);
      ghost var k := SetKernel(s, fd, channels[fd].kernel);
      if !ok {
        return false;
      }
      Unregister(k, fd, ev, trigger);
    }

    /** The event goes, with its callback queued or dropped. */
    method Unregister(ghost s: State, fd: nat, ev: Ev, trigger: bool)
      requires Matches(s) && fd < |channels| && channels[fd].Has(ev) && !channels[fd].At(ev).Empty?
      modifies `channels, `pending, `fired, `dropped, `lost, scheduler`tasks, scheduler`accepted
      ensures Matches(if trigger then Trigger(s, fd, ev) else Drop(s, fd, ev))
    {
      pending := pending - 1;
      if trigger {
        TriggerEvent(s.(pending := s.pending - 1), fd, ev);
      } else {
        ghost var slot := channels[fd].At(ev);
        dropped := dropped + [slot.reg];
        lost := if slot.Waiter? then lost + {slot.fiber} else lost;
      }
      channels := channels[fd := channels[fd].With(ev, false, Empty)];
    }

    /** The loop over the reports of one epoll_wait. */
    method DispatchReports(ghost s: State, reports: seq<Report>)
      requires Matches(s) && forall c :: 0 <= c < |s.channels| ==> RuntimeFibers.ChannelInv(s.channels[c])
      requires forall r :: 0 <= r < |reports| ==> reports[r].fd < |s.channels| && Current(s, reports[r])
      requires forall q, r :: 0 <= q < r < |reports| ==> reports[q].fd != reports[r].fd
      modifies `channels, `pending, `fired, scheduler`tasks, scheduler`accepted
      ensures Matches(DispatchAll(s, reports))
    {
      var i := 0;
      ghost var t := s;
      while i < |reports|
        invariant 0 <= i <= |reports|
        invariant t == DispatchAll(s, reports[..i]) && Matches(t)
        invariant forall r :: i <= r < |reports| ==> t.channels[reports[r].fd] == s.channels[reports[r].fd]
      {
        var fd := reports[i].fd;
        assert Current(s, reports[i]) && RuntimeFibers.ChannelInv(s.channels[fd]);
        DispatchReport(t, reports[i]);
        assert reports[..i + 1][..i] == reports[..i];
        DispatchOthers(t, reports[i]);
        t := Dispatch(t, fd, reports[i].read, reports[i].write);
        i := i + 1;
      }
      assert reports[..i] == reports;
    }

    method DispatchReport(ghost s: State, r: Report)
      requires Matches(s) && Current(s, r) && RuntimeFibers.ChannelInv(s.channels[r.fd])
      modifies `channels, `pending, `fired, scheduler`tasks, scheduler`accepted
      ensures Matches(Dispatch(s, r.fd, r.read, r.write))
    {
      var c := channels[r.fd];
      var left := c.(read := c.read && !r.read, write := c.write && !r.write);
      var ok := EpollCtl(if left.read || left.write then MOD else DEL, r.fd, left.read, left.write);
      if !ok {
        return;
      }
      ghost var k := SetKernel(s, r.fd, channels[r.fd].kernel);
      if r.read {
        TriggerEvent(k, r.fd, READ);
        pending := pending - 1;
        k := Trigger(k, r.fd, READ);
      }
      if r.write {
        TriggerEvent(k, r.fd, WRITE);
        pending := pending - 1;
      }
    }
  }

  lemma DispatchOthers(s: State, r: Report)
    requires r.fd < |s.channels|
    ensures var t := Dispatch(s, r.fd, r.read, r.write);
            && |t.channels| == |s.channels|
            && forall c :: 0 <= c < |s.channels| && c != r.fd ==> t.channels[c] == s.channels[c]
  {
  }
}
