/** Everything that can change the kernel state, and what holds over every run of it. */
module KernelRuns {
  import opened Basics
  import opened Task
  import opened Semaphores

  datatype Call =
    | ForkCall | WaitCall | ExitCall | ReturnCall
    | ThreadCreateCall(func: nat) | JoinCall | ThreadExitCall
    | PCall(s: nat) | VCall(s: nat) | GetSemCall(v: int) | FreeSemCall(s: nat)
    | KillCall(pid: nat)

  /** TimerEvent and CallEvent carry the registers pushed on kernel entry. */
  datatype Event =
    | TimerEvent(cpu: Regs)
    | CallEvent(call: Call, cpu: Regs)
    | LaunchEvent(img: Regs)
    | ShellScheduleEvent

  /** What the calls demand: a semaphore number in range, a waiter where the counter promises
      one, and no kill of pid 0, the mark of the unused slots. */
  predicate CallOk(k: Kernel, c: Call) {
    match c
    case PCall(s) => s < |k.sems|
    case VCall(s) => HeadThere(k, s)
    case FreeSemCall(s) => s < |k.sems|
    case KillCall(pid) => pid % 256 != 0
    case _ => true
  }

  ghost function DoCall(k: Kernel, c: Call): Kernel
    requires TableOk(k) && k.curr != NULL && CallOk(k, c)
  {
    match c
    case ForkCall => Fork(k)
    case WaitCall => Wait(k)
    case ExitCall => Exit(k)
    case ReturnCall => Return(k)
    case ThreadCreateCall(func) => ThreadCreate(k, func)
    case JoinCall => Wait(k)
    case ThreadExitCall => Exit(k)
    case PCall(s) => SemP(k, s)
    case VCall(s) => SemV(k, s)
    case GetSemCall(v) => GetSem(k, v)
    case FreeSemCall(s) => FreeSem(k, s)
    case KillCall(pid) => Kill(k, pid)
  }

  ghost predicate Enabled(k: Kernel, e: Event) {
    && TableOk(k)
    && match e
       case TimerEvent(_) => true
       case CallEvent(c, _) => k.curr != NULL && CallOk(k, c)
       case LaunchEvent(_) => k.currPid < |k.procs|
       case ShellScheduleEvent => true
  }

  lemma SavedOk(k: Kernel, r: Regs)
    requires TableOk(k)
    ensures TableOk(SaveProc(k, r)) && SaveProc(k, r).curr == k.curr && SaveProc(k, r).sems == k.sems
    ensures OnlyRescheduled(k, SaveProc(k, r))
    ensures forall i :: 0 <= i < |k.procs| ==> SaveProc(k, r).procs[i].status == k.procs[i].status
    ensures forall c :: CallOk(k, c) <==> CallOk(SaveProc(k, r), c)
  {
  }

  ghost function Apply(k: Kernel, e: Event): Kernel
    requires Enabled(k, e)
  {
    match e
    case TimerEvent(r) => Tick(k, r)
    case CallEvent(c, r) => SavedOk(k, r); DoCall(SaveProc(k, r), c)
    case LaunchEvent(img) => FirstNewIs(k); ProcCreate(k, img)
    case ShellScheduleEvent => Schedule(k)
  }

  /** A timer interrupt goes to the scheduler. */
  predicate TimeIsUp(k: Kernel)
    requires Curr(k)
  {
    if k.curr == NULL then k.currPid != 0 else k.procs[k.curr].tick <= 0
  }

  /** The exit of the current process finds its parent waiting. */
  ghost predicate ExitWakes(k: Kernel)
    requires Slot(k, k.curr)
  {
    var p := k.procs[k.curr].parent;
    Slot(k, p) && SomeWaiting(SetStatus(k, k.curr, Terminated), k.procs[p].pid)
  }

  /** The event ends with restart_proc: some process can take the processor and gets it. */
  ghost predicate Picks(k: Kernel, e: Event)
    requires Enabled(k, e)
  {
    match e
    case TimerEvent(_) => TimeIsUp(k) && SomeRunnable(k)
    case ShellScheduleEvent => SomeRunnable(k)
    case LaunchEvent(_) => false
    case CallEvent(c, _) =>
      match c
      case WaitCall => SomeRunnable(SetStatus(k, k.curr, Waiting))
      case JoinCall => SomeRunnable(SetStatus(k, k.curr, Waiting))
      case ExitCall => ExitWakes(k)
      case ThreadExitCall => ExitWakes(k)
      case PCall(s) => k.sems[s].val <= 0 && SomeRunnable(SetStatus(k, k.curr, Waiting))
      case VCall(s) => k.sems[s].val < 0 && SomeWaiting(k, k.procs[k.sems[s].head].pid)
      case _ => false
  }

  /** ks is a run of the kernel under the events es. */
  ghost predicate Run(ks: seq<Kernel>, es: seq<Event>) {
    && |ks| == |es| + 1
    && forall i :: 0 <= i < |es| ==> Next(ks[i], es[i], ks[i+1])
  }

  ghost predicate Next(k: Kernel, e: Event, m: Kernel) {
    TableOk(k) ==> Enabled(k, e) && m == Apply(k, e)
  }

  lemma WakeupOk(k: Kernel, pid: nat)
    requires TableOk(k)
    ensures TableOk(Wakeup(k, pid))
  {
    hide Schedule;
    var t := FindWaiting(k.procs, pid % 256, 0);
    if t != NULL {
      ScheduleFacts(SetStatus(k, t, Ready));
    }
  }

  lemma WaitOk(k: Kernel)
    requires TableOk(k) && k.curr != NULL
    ensures TableOk(Wait(k))
  {
    ScheduleFacts(SetStatus(k, k.curr, Waiting));
  }

  lemma SpawnOk(k: Kernel)
    requires TableOk(k) && k.curr != NULL
    ensures TableOk(Fork(k)) && forall func :: TableOk(ThreadCreate(k, func))
  {
    FirstNewIs(k);
  }

  lemma SemOk(k: Kernel, s: nat)
    requires TableOk(k) && k.curr != NULL && s < |k.sems|
    ensures TableOk(SemP(k, s)) && (HeadThere(k, s) ==> TableOk(SemV(k, s)))
  {
    hide Wait, Wakeup;
    WaitOk(Enqueue(SetVal(k, s, k.sems[s].val - 1), s));
    if HeadThere(k, s) && k.sems[s].val < 0 {
      WakeupOk(SetHead(SetVal(k, s, k.sems[s].val + 1), s, k.procs[k.curr].next), k.procs[k.sems[s].head].pid);
    }
  }

  lemma CallKeepsTable(k: Kernel, c: Call)
    requires TableOk(k) && k.curr != NULL && CallOk(k, c)
    ensures TableOk(DoCall(k, c))
  {
    hide Fork, ThreadCreate, Wait, Exit, SemP, SemV, Kill, TableOk;
    match c
    case ForkCall => SpawnOk(k);
    case ThreadCreateCall(func) => SpawnOk(k);
    case WaitCall => WaitOk(k);
    case JoinCall => WaitOk(k);
    case ExitCall => ExitOk(k);
    case ThreadExitCall => ExitOk(k);
    case PCall(s) => SemOk(k, s);
    case VCall(s) => SemOk(k, s);
    case KillCall(pid) => KillOk(k, pid);
    case _ => SmallCallsOk(k, c);
  }

  lemma SmallCallsOk(k: Kernel, c: Call)
    requires TableOk(k) && k.curr != NULL && CallOk(k, c)
    requires c.ReturnCall? || c.GetSemCall? || c.FreeSemCall?
    ensures TableOk(DoCall(k, c))
  {
  }

  lemma ExitOk(k: Kernel)
    requires TableOk(k) && k.curr != NULL
    ensures TableOk(Exit(k))
  {
    var t := SetStatus(k, k.curr, Terminated);
    if k.procs[k.curr].parent != NULL {
      WakeupOk(t, k.procs[k.procs[k.curr].parent].pid);
    }
  }

  /** kill of a pid in use makes exactly that process TERMINATED; a pid out of use is not
      found, except 0. */
  lemma KillHits(k: Kernel, pid: nat)
    requires TableOk(k) && pid % 256 != 0
    ensures var m, x := Kill(k, pid), pid % 256 - 1;
            if x < k.currPid then
              && m == k.(procs := m.procs) && |m.procs| == |k.procs|
              && m.procs[x] == k.procs[x].(status := Terminated)
              && forall i :: 0 <= i < |k.procs| && i != x ==> m.procs[i] == k.procs[i]
            else m == k
  {
    var t, x := FindPid(k.procs, pid % 256, 0), pid % 256 - 1;
    if x < k.currPid {
      assert k.procs[x].pid == pid % 256;
    }
  }

  /** kill keeps the table in order unless it is asked for pid 0 while a slot is unused: then
      it turns that slot TERMINATED and the used slots stop being counted by currPid. */
  lemma KillOk(k: Kernel, pid: nat)
    requires TableOk(k)
    ensures TableOk(Kill(k, pid)) <==> pid % 256 != 0 || k.currPid == |k.procs|
  {
    var t := FindPid(k.procs, pid % 256, 0);
    if pid % 256 == 0 && k.currPid < |k.procs| {
      assert k.procs[k.currPid].pid == 0;
      assert t >= k.currPid;
      assert Kill(k, pid).procs[t].status != New;
    }
  }

  lemma CountdownOk(k: Kernel, r: Regs)
    requires TableOk(k) && k.curr != NULL && k.procs[k.curr].tick > 0
    ensures TableOk(Tick(k, r)) && OnlyRescheduled(k, Tick(k, r))
  {
  }

  lemma SaveScheduleOk(k: Kernel, r: Regs)
    requires TableOk(k)
    ensures TableOk(Schedule(SaveProc(k, r))) && OnlyRescheduled(k, Schedule(SaveProc(k, r)))
  {
    hide Schedule, SaveProc;
    SavedOk(k, r);
    ScheduleFacts(SaveProc(k, r));
  }

  lemma TickOk(k: Kernel, r: Regs)
    requires TableOk(k)
    ensures TableOk(Tick(k, r)) && OnlyRescheduled(k, Tick(k, r))
  {
    hide Schedule, SaveProc;
    if k.curr == NULL {
      ScheduleFacts(k);
    } else if k.procs[k.curr].tick > 0 {
      CountdownOk(k, r);
    } else {
      SaveScheduleOk(k, r);
    }
  }

  lemma LaunchOk(k: Kernel, img: Regs)
    requires TableOk(k) && k.currPid < |k.procs|
    ensures FirstNew(k.procs, 0) != NULL && TableOk(ProcCreate(k, img))
  {
    FirstNewIs(k);
  }

  lemma EventKeepsTable(k: Kernel, e: Event)
    requires Enabled(k, e)
    ensures TableOk(Apply(k, e))
  {
    hide TableOk, Tick, Schedule, SaveProc, DoCall, ProcCreate, CallOk;
    match e
    case TimerEvent(r) => TickOk(k, r);
    case CallEvent(c, r) =>
      SavedOk(k, r);
      CallKeepsTable(SaveProc(k, r), c);
    case LaunchEvent(img) => LaunchOk(k, img);
    case ShellScheduleEvent => ScheduleFacts(k);
  }

  /** The state left by proc_init and sem_init. */
  ghost predicate Boot(k: Kernel) {
    && |k.procs| <= 255 && k.currPid == 0 && k.curr == NULL
    && (forall i :: 0 <= i < |k.procs| ==>
          k.procs[i].pid == 0 && k.procs[i].status == New && k.procs[i].tick == 0 &&
          k.procs[i].parent == NULL && k.procs[i].next == NULL)
    && (forall s :: 0 <= s < |k.sems| ==> k.sems[s] == Sem(0, false, NULL))
  }

  /** In every reachable state the used slots are a prefix, slot i has pid i + 1, so pids are
      unique and the eight bits wakeup keeps of a pid lose nothing; at most one process is
      RUNNING, and it is the current one. */
  lemma {:induction false} TableInvariant(ks: seq<Kernel>, es: seq<Event>, n: nat)
    requires Run(ks, es) && Boot(ks[0]) && n < |ks|
    ensures TableOk(ks[n])
    ensures forall i, j :: 0 <= i < j < ks[n].currPid ==>
              ks[n].procs[i].pid % 256 == ks[n].procs[i].pid != ks[n].procs[j].pid
  {
    hide Apply, Enabled;
    if n > 0 {
      TableInvariant(ks, es, n - 1);
      assert Next(ks[n-1], es[n-1], ks[n-1+1]);
      EventKeepsTable(ks[n-1], es[n-1]);
    }
  }

  // ---------------------------------------------------------------- termination is final

  /** The calls that put their caller to sleep. */
  predicate Blocks(k: Kernel, c: Call) {
    || c.WaitCall? || c.JoinCall?
    || (c.PCall? && c.s < |k.sems| && k.sems[c.s].val <= 0)
  }

  lemma TerminatedUnderCall(k: Kernel, c: Call, i: nat)
    requires TableOk(k) && k.curr != NULL && CallOk(k, c)
    requires i < |k.procs| && k.procs[i].status == Terminated
    ensures i < |DoCall(k, c).procs|
    ensures DoCall(k, c).procs[i].status != Terminated <==> i == k.curr && Blocks(k, c)
  {
    hide Fork, ThreadCreate, Wait, Exit, SemP, SemV, TableOk;
    match c
    case ForkCall => SpawnKeepsTerminated(k, i);
    case ThreadCreateCall(func) => SpawnKeepsTerminated(k, i);
    case WaitCall => WaitTerminated(k, i);
    case JoinCall => WaitTerminated(k, i);
    case ExitCall => ExitKeepsTerminated(k, i);
    case ThreadExitCall => ExitKeepsTerminated(k, i);
    case PCall(s) => SemTerminated(k, s, i);
    case VCall(s) => SemTerminated(k, s, i);
    case _ => SmallCallsTerminated(k, c, i);
  }

  lemma SmallCallsTerminated(k: Kernel, c: Call, i: nat)
    requires TableOk(k) && k.curr != NULL && CallOk(k, c)
    requires i < |k.procs| && k.procs[i].status == Terminated
    requires c.ReturnCall? || c.GetSemCall? || c.FreeSemCall? || c.KillCall?
    ensures i < |DoCall(k, c).procs| && DoCall(k, c).procs[i].status == Terminated
  {
  }

  lemma SpawnKeepsTerminated(k: Kernel, i: nat)
    requires TableOk(k) && k.curr != NULL && i < |k.procs| && k.procs[i].status == Terminated
    ensures i < |Fork(k).procs| && Fork(k).procs[i].status == Terminated
    ensures forall func :: i < |ThreadCreate(k, func).procs| && ThreadCreate(k, func).procs[i].status == Terminated
  {
    FirstNewIs(k);
  }

  lemma WaitTerminated(k: Kernel, i: nat)
    requires TableOk(k) && k.curr != NULL && i < |k.procs| && k.procs[i].status == Terminated
    ensures i < |Wait(k).procs| && (Wait(k).procs[i].status != Terminated <==> i == k.curr)
  {
    ScheduleFacts(SetStatus(k, k.curr, Waiting));
  }

  lemma SemTerminated(k: Kernel, s: nat, i: nat)
    requires TableOk(k) && k.curr != NULL && s < |k.sems|
    requires i < |k.procs| && k.procs[i].status == Terminated
    ensures i < |SemP(k, s).procs|
    ensures SemP(k, s).procs[i].status != Terminated <==> i == k.curr && k.sems[s].val <= 0
    ensures HeadThere(k, s) ==> i < |SemV(k, s).procs| && SemV(k, s).procs[i].status == Terminated
  {
    hide Wait, Wakeup;
    WaitTerminated(Enqueue(SetVal(k, s, k.sems[s].val - 1), s), i);
    if HeadThere(k, s) && k.sems[s].val < 0 {
      WakeupKeepsTerminated(SetHead(SetVal(k, s, k.sems[s].val + 1), s, k.procs[k.curr].next),
                            k.procs[k.sems[s].head].pid, i);
    }
  }

  lemma WakeupKeepsTerminated(k: Kernel, pid: nat, i: nat)
    requires TableOk(k) && i < |k.procs| && k.procs[i].status == Terminated
    ensures i < |Wakeup(k, pid).procs| && Wakeup(k, pid).procs[i].status == Terminated
  {
    hide Schedule;
    var t := FindWaiting(k.procs, pid % 256, 0);
    if t != NULL {
      ScheduleFacts(SetStatus(k, t, Ready));
    }
  }

  lemma ExitKeepsTerminated(k: Kernel, i: nat)
    requires TableOk(k) && k.curr != NULL && i < |k.procs| && k.procs[i].status == Terminated
    ensures i < |Exit(k).procs| && Exit(k).procs[i].status == Terminated
  {
    var t := SetStatus(k, k.curr, Terminated);
    if k.procs[k.curr].parent != NULL {
      WakeupKeepsTerminated(t, k.procs[k.procs[k.curr].parent].pid, i);
    }
  }

  /** A TERMINATED process comes back to life exactly when it is still the one executing and
      itself makes a blocking call.  (do_exit returns to its caller when it wakes nobody, so
      such a process can go on executing.) */
  lemma TerminatedIsFinal(k: Kernel, e: Event, i: nat)
    requires Enabled(k, e) && i < |k.procs| && k.procs[i].status == Terminated
    ensures i < |Apply(k, e).procs|
    ensures Apply(k, e).procs[i].status != Terminated <==>
            e.CallEvent? && i == k.curr && Blocks(k, e.call)
  {
    hide Tick, Schedule, SaveProc, DoCall, CallOk;
    match e
    case TimerEvent(r) => TickOk(k, r);
    case CallEvent(c, r) =>
      SavedOk(k, r);
      TerminatedUnderCall(SaveProc(k, r), c, i);
    case LaunchEvent(img) => FirstNewIs(k);
    case ShellScheduleEvent => ScheduleFacts(k);
  }

  /** If only RUNNING processes make calls, TERMINATED is absorbing over whole runs. */
  lemma {:induction false} TerminatedAbsorbing(ks: seq<Kernel>, es: seq<Event>, m: nat, n: nat, i: nat)
    requires Run(ks, es) && Boot(ks[0]) && m <= n < |ks|
    requires forall x :: 0 <= x < |es| && es[x].CallEvent? ==> Executing(ks[x])
    requires i < |ks[m].procs| && ks[m].procs[i].status == Terminated
    ensures i < |ks[n].procs| && ks[n].procs[i].status == Terminated
    decreases n - m
  {
    if m < n {
      TerminatedAbsorbing(ks, es, m, n - 1, i);
      TableInvariant(ks, es, n - 1);
      assert Next(ks[n-1], es[n-1], ks[n-1+1]);
      TerminatedIsFinal(ks[n-1], es[n-1], i);
    }
  }
}
