/** Context switches are transparent. */
module ContextSwitch {
  import opened Basics
  import opened Task
  import opened Semaphores
  import opened KernelRuns

  /** The events in which save_proc runs for the current process. */
  predicate Saves(k: Kernel, e: Event) {
    || e.CallEvent?
    || (e.TimerEvent? && Slot(k, k.curr) && k.procs[k.curr].tick <= 0)
  }

  /** The events in which slot currPid comes to life. */
  predicate Births(k: Kernel, e: Event) {
    && k.currPid < |k.procs|
    && (e.LaunchEvent? || (e.CallEvent? && (e.call.ForkCall? || e.call.ThreadCreateCall?)))
  }

  function BirthImage(k: Kernel, e: Event): Regs
    requires Births(k, e)
  {
    match e
    case LaunchEvent(img) => img
    case CallEvent(ForkCall, cpu) => ChildImage(Masked(cpu), k.currPid + 1)
    case CallEvent(ThreadCreateCall(func), cpu) => ThreadImage(Masked(cpu), k.currPid + 1, func)
  }

  /** The image process i last stored on entry to the kernel in the first n events, or its
      creation image if it never did. */
  ghost function LastImage(ks: seq<Kernel>, es: seq<Event>, n: nat, i: nat): Regs
    requires n < |ks| && |ks| == |es| + 1 && i < |ks[0].procs|
  {
    if n == 0 then ks[0].procs[i].regImg
    else
      var k, e := ks[n-1], es[n-1];
      if Births(k, e) && i == k.currPid then BirthImage(k, e)
      else if Saves(k, e) && i == k.curr then Masked(e.cpu)
      else LastImage(ks, es, n - 1, i)
  }

  ghost predicate SameImages(k: Kernel, m: Kernel) {
    |m.procs| == |k.procs| && forall i :: 0 <= i < |k.procs| ==> m.procs[i].regImg == k.procs[i].regImg
  }

  lemma ScheduleImages(k: Kernel)
    requires TableOk(k)
    ensures SameImages(k, Schedule(k))
  {
    ScheduleFacts(k);
  }

  lemma WaitImages(k: Kernel)
    requires TableOk(k) && k.curr != NULL
    ensures SameImages(k, Wait(k))
  {
    hide Schedule;
    ScheduleFacts(SetStatus(k, k.curr, Waiting));
  }

  lemma WakeupImages(k: Kernel, pid: nat)
    requires TableOk(k)
    ensures SameImages(k, Wakeup(k, pid))
  {
    hide Schedule;
    var t := FindWaiting(k.procs, pid % 256, 0);
    if t != NULL {
      ScheduleFacts(SetStatus(k, t, Ready));
    }
  }

  lemma ExitImages(k: Kernel)
    requires TableOk(k) && k.curr != NULL
    ensures SameImages(k, Exit(k))
  {
    hide Wakeup;
    var t := SetStatus(k, k.curr, Terminated);
    if k.procs[k.curr].parent != NULL {
      WakeupImages(t, k.procs[k.procs[k.curr].parent].pid);
    }
  }

  lemma SemImages(k: Kernel, s: nat)
    requires TableOk(k) && k.curr != NULL && s < |k.sems|
    ensures SameImages(k, SemP(k, s)) && (HeadThere(k, s) ==> SameImages(k, SemV(k, s)))
  {
    hide Wait, Wakeup;
    WaitImages(Enqueue(SetVal(k, s, k.sems[s].val - 1), s));
    if HeadThere(k, s) && k.sems[s].val < 0 {
      WakeupImages(SetHead(SetVal(k, s, k.sems[s].val + 1), s, k.procs[k.curr].next), k.procs[k.sems[s].head].pid);
    }
  }

  lemma CallImages(k: Kernel, c: Call)
    requires TableOk(k) && k.curr != NULL && CallOk(k, c)
    requires !c.ForkCall? && !c.ThreadCreateCall?
    ensures SameImages(k, DoCall(k, c))
  {
    hide Wait, Exit, SemP, SemV, TableOk;
    match c
    case WaitCall => WaitImages(k);
    case JoinCall => WaitImages(k);
    case ExitCall => ExitImages(k);
    case ThreadExitCall => ExitImages(k);
    case PCall(s) => SemImages(k, s);
    case VCall(s) => SemImages(k, s);
    case _ => SmallImages(k, c);
  }

  lemma SmallImages(k: Kernel, c: Call)
    requires TableOk(k) && k.curr != NULL && CallOk(k, c)
    requires c.ReturnCall? || c.GetSemCall? || c.FreeSemCall? || c.KillCall?
    ensures SameImages(k, DoCall(k, c))
  {
  }

  lemma SpawnImages(k: Kernel, e: Event, i: nat)
    requires Enabled(k, e) && Births(k, e) && i < |k.procs|
    ensures |Apply(k, e).procs| == |k.procs|
    ensures Apply(k, e).procs[i].regImg ==
            if i == k.currPid then BirthImage(k, e)
            else if e.CallEvent? && i == k.curr then Masked(e.cpu)
            else k.procs[i].regImg
  {
    FirstNewIs(k);
    if e.CallEvent? {
      SavedOk(k, e.cpu);
      FirstNewIs(SaveProc(k, e.cpu));
    }
  }

  lemma SaveImages(k: Kernel, r: Regs, i: nat)
    requires TableOk(k) && i < |k.procs|
    ensures |SaveProc(k, r).procs| == |k.procs|
    ensures SaveProc(k, r).procs[i].regImg == if i == k.curr then Masked(r) else k.procs[i].regImg
  {
  }

  /** One event changes the image of a process only by storing that process's own registers
      or by creating it. */
  lemma EventImages(k: Kernel, e: Event, i: nat)
    requires Enabled(k, e) && i < |k.procs|
    ensures |Apply(k, e).procs| == |k.procs|
    ensures Apply(k, e).procs[i].regImg ==
            if Births(k, e) && i == k.currPid then BirthImage(k, e)
            else if Saves(k, e) && i == k.curr then Masked(e.cpu)
            else k.procs[i].regImg
  {
    if Births(k, e) {
      SpawnImages(k, e, i);
    } else {
      OtherImages(k, e, i);
    }
  }

  lemma OtherImages(k: Kernel, e: Event, i: nat)
    requires Enabled(k, e) && i < |k.procs| && !Births(k, e)
    ensures |Apply(k, e).procs| == |k.procs|
    ensures Apply(k, e).procs[i].regImg == if Saves(k, e) && i == k.curr then Masked(e.cpu) else k.procs[i].regImg
  {
    hide Schedule, SaveProc, DoCall, CallOk;
    match e
    case TimerEvent(r) =>
      SavedOk(k, r);
      SaveImages(k, r, i);
      ScheduleImages(k);
      ScheduleImages(SaveProc(k, r));
    case CallEvent(c, r) =>
      SavedOk(k, r);
      SaveImages(k, r, i);
      if c.ForkCall? || c.ThreadCreateCall? {
        FullTable(SaveProc(k, r), c);
      } else {
        CallImages(SaveProc(k, r), c);
      }
    case ShellScheduleEvent => ScheduleImages(k);
  }

  lemma FullTable(k: Kernel, c: Call)
    requires TableOk(k) && k.curr != NULL && k.currPid == |k.procs|
    requires c.ForkCall? || c.ThreadCreateCall?
    ensures DoCall(k, c) == k
  {
    FirstNewIs(k);
  }

  /** Over whole runs, the image restart_proc loads for a process is the one that process
      last stored through save_proc, or its creation image; no step of another process ever
      alters it. */
  lemma {:induction false} SwitchTransparent(ks: seq<Kernel>, es: seq<Event>, n: nat, i: nat)
    requires Run(ks, es) && Boot(ks[0]) && n < |ks| && i < |ks[0].procs|
    ensures |ks[n].procs| == |ks[0].procs|
    ensures ks[n].procs[i].regImg == LastImage(ks, es, n, i)
  {
    hide Apply, TableOk, Enabled, Boot;
    if n > 0 {
      SwitchTransparent(ks, es, n - 1, i);
      TableInvariant(ks, es, n - 1);
      assert Next(ks[n-1], es[n-1], ks[n-1+1]);
      EventImages(ks[n-1], es[n-1], i);
    }
  }

  // ---------------------------------------------------------------- what the processor loads

  /** Whoever is picked is RUNNING and current afterwards. */
  lemma PickedRuns(k: Kernel, e: Event)
    requires Enabled(k, e) && Picks(k, e)
    ensures Executing(Apply(k, e))
  {
    hide Schedule, Wakeup, SaveProc;
    match e
    case ShellScheduleEvent => ScheduleFacts(k);
    case TimerEvent(r) =>
      ScheduleFacts(k);
      SavedRuns(k, r);
    case CallEvent(c, r) => CallPicked(k, c, r);
  }

  lemma SavedRuns(k: Kernel, r: Regs)
    requires TableOk(k) && SomeRunnable(k)
    ensures Executing(Schedule(SaveProc(k, r)))
  {
    hide Schedule;
    SavedOk(k, r);
    SameChoice(k, SaveProc(k, r), 0);
    ScheduleFacts(SaveProc(k, r));
  }

  lemma WaitPicked(k: Kernel)
    requires TableOk(k) && k.curr != NULL && SomeRunnable(SetStatus(k, k.curr, Waiting))
    ensures Executing(Wait(k))
  {
    hide Schedule;
    ScheduleFacts(SetStatus(k, k.curr, Waiting));
  }

  lemma WakeupPicked(k: Kernel, pid: nat)
    requires TableOk(k) && SomeWaiting(k, pid)
    ensures Executing(Wakeup(k, pid))
  {
    hide Schedule;
    var t := FindWaiting(k.procs, pid % 256, 0);
    assert Runnable(SetStatus(k, t, Ready).procs[t].status);
    ScheduleFacts(SetStatus(k, t, Ready));
  }

  lemma CallPicked(k: Kernel, c: Call, r: Regs)
    requires Enabled(k, CallEvent(c, r)) && Picks(k, CallEvent(c, r))
    ensures Executing(Apply(k, CallEvent(c, r)))
  {
    hide Wait, Exit, SemP, SemV, SaveProc, SomeRunnable, SomeWaiting, ExitWakes;
    SavedOk(k, r);
    SavedLike(k, r);
    var d := SaveProc(k, r);
    match c
    case WaitCall => SameChoice(SetStatus(k, k.curr, Waiting), SetStatus(d, d.curr, Waiting), 0); WaitPicked(d);
    case JoinCall => SameChoice(SetStatus(k, k.curr, Waiting), SetStatus(d, d.curr, Waiting), 0); WaitPicked(d);
    case ExitCall => ExitPicked(k, d);
    case ThreadExitCall => ExitPicked(k, d);
    case PCall(s) => PPicked(k, d, s);
    case VCall(s) => VPicked(k, d, s);
  }

  /** d is k after save_proc, as far as the scheduler can tell. */
  ghost predicate Alike(k: Kernel, d: Kernel) {
    && TableOk(k) && TableOk(d) && d.curr == k.curr && |d.procs| == |k.procs| && d.sems == k.sems
    && forall i :: 0 <= i < |k.procs| ==>
         d.procs[i].status == k.procs[i].status && d.procs[i].pid == k.procs[i].pid
  }

  lemma PPicked(k: Kernel, d: Kernel, s: nat)
    requires Alike(k, d) && k.curr != NULL && s < |k.sems| && k.sems[s].val <= 0
    requires SomeRunnable(SetStatus(k, k.curr, Waiting))
    ensures Executing(SemP(d, s))
  {
    hide Wait, SomeRunnable;
    var b := Enqueue(SetVal(d, s, d.sems[s].val - 1), s);
    SameChoice(SetStatus(k, k.curr, Waiting), SetStatus(b, b.curr, Waiting), 0);
    WaitPicked(b);
  }

  lemma VPicked(k: Kernel, d: Kernel, s: nat)
    requires Alike(k, d) && k.curr != NULL && HeadThere(k, s) && k.sems[s].val < 0
    requires SomeWaiting(k, k.procs[k.sems[s].head].pid)
    ensures HeadThere(d, s) && Executing(SemV(d, s))
  {
    hide Wakeup, SomeWaiting;
    var x := k.procs[k.sems[s].head].pid;
    var b := SetHead(SetVal(d, s, d.sems[s].val + 1), s, d.procs[d.curr].next);
    SameChoice(k, b, x);
    WakeupPicked(b, x);
  }

  lemma SavedLike(k: Kernel, r: Regs)
    requires TableOk(k)
    ensures var d := SaveProc(k, r);
            |d.procs| == |k.procs| && d.currPid == k.currPid &&
            forall i :: 0 <= i < |k.procs| ==>
              d.procs[i].status == k.procs[i].status && d.procs[i].pid == k.procs[i].pid && d.procs[i].parent == k.procs[i].parent
  {
  }

  lemma ExitPicked(k: Kernel, d: Kernel)
    requires TableOk(k) && TableOk(d) && k.curr != NULL && d.curr == k.curr && |d.procs| == |k.procs| && ExitWakes(k)
    requires forall i :: 0 <= i < |k.procs| ==>
               d.procs[i].status == k.procs[i].status && d.procs[i].pid == k.procs[i].pid && d.procs[i].parent == k.procs[i].parent
    ensures Executing(Exit(d))
  {
    hide Wakeup, SomeWaiting;
    var pid := k.procs[k.procs[k.curr].parent].pid;
    SameChoice(SetStatus(k, k.curr, Terminated), SetStatus(d, d.curr, Terminated), pid);
    WakeupPicked(SetStatus(d, d.curr, Terminated), pid);
  }

  /** The processor changes hands only when somebody is picked, or goes back to the shell. */
  lemma OnlyPicksSwitch(k: Kernel, e: Event)
    requires Enabled(k, e) && !Picks(k, e)
    ensures Apply(k, e).curr == k.curr || (e.CallEvent? && e.call.ReturnCall? && Apply(k, e).curr == NULL)
  {
    hide Schedule, Wakeup, SaveProc;
    match e
    case ShellScheduleEvent => ScheduleFacts(k);
    case TimerEvent(r) =>
      SavedOk(k, r);
      SavedLike(k, r);
      SameChoice(k, SaveProc(k, r), 0);
      ScheduleFacts(k);
      ScheduleFacts(SaveProc(k, r));
    case LaunchEvent(img) =>
    case CallEvent(c, r) =>
      SavedOk(k, r);
      if !c.ReturnCall? {
        CallStays(k, c, r);
      }
  }

  lemma NobodyWakes(k: Kernel, pid: nat)
    requires TableOk(k) && !SomeWaiting(k, pid)
    ensures Wakeup(k, pid) == k
  {
  }

  lemma CallStays(k: Kernel, c: Call, r: Regs)
    requires Enabled(k, CallEvent(c, r)) && !Picks(k, CallEvent(c, r)) && !c.ReturnCall?
    ensures Apply(k, CallEvent(c, r)).curr == k.curr
  {
    hide Wait, Exit, SemP, SemV, SaveProc, SomeRunnable, SomeWaiting, ExitWakes;
    SavedOk(k, r);
    SavedLike(k, r);
    var d := SaveProc(k, r);
    match c
    case WaitCall => SameChoice(SetStatus(k, k.curr, Waiting), SetStatus(d, d.curr, Waiting), 0); WaitStays(d);
    case JoinCall => SameChoice(SetStatus(k, k.curr, Waiting), SetStatus(d, d.curr, Waiting), 0); WaitStays(d);
    case ExitCall => ExitStays(k, d);
    case ThreadExitCall => ExitStays(k, d);
    case PCall(s) => PStays(k, d, s);
    case VCall(s) => VStays(k, d, s);
    case _ =>
  }

  lemma PStays(k: Kernel, d: Kernel, s: nat)
    requires Alike(k, d) && k.curr != NULL && s < |k.sems|
    requires !(k.sems[s].val <= 0 && SomeRunnable(SetStatus(k, k.curr, Waiting)))
    ensures SemP(d, s).curr == k.curr
  {
    hide Wait, SomeRunnable;
    var b := Enqueue(SetVal(d, s, d.sems[s].val - 1), s);
    SameChoice(SetStatus(k, k.curr, Waiting), SetStatus(b, b.curr, Waiting), 0);
    if k.sems[s].val <= 0 {
      WaitStays(b);
    }
  }

  lemma VStays(k: Kernel, d: Kernel, s: nat)
    requires Alike(k, d) && k.curr != NULL && HeadThere(k, s)
    requires !(k.sems[s].val < 0 && SomeWaiting(k, k.procs[k.sems[s].head].pid))
    ensures HeadThere(d, s) && SemV(d, s).curr == k.curr
  {
    hide Wakeup, SomeWaiting;
    if k.sems[s].val < 0 {
      var x := k.procs[k.sems[s].head].pid;
      var b := SetHead(SetVal(d, s, d.sems[s].val + 1), s, d.procs[d.curr].next);
      SameChoice(k, b, x);
      NobodyWakes(b, x);
    }
  }

  lemma WaitStays(k: Kernel)
    requires TableOk(k) && k.curr != NULL && !SomeRunnable(SetStatus(k, k.curr, Waiting))
    ensures Wait(k).curr == k.curr
  {
    ScheduleFacts(SetStatus(k, k.curr, Waiting));
  }

  lemma ExitStays(k: Kernel, d: Kernel)
    requires TableOk(k) && TableOk(d) && k.curr != NULL && d.curr == k.curr && |d.procs| == |k.procs| && !ExitWakes(k)
    requires forall i :: 0 <= i < |k.procs| ==>
               d.procs[i].status == k.procs[i].status && d.procs[i].pid == k.procs[i].pid && d.procs[i].parent == k.procs[i].parent
    ensures Exit(d).curr == k.curr
  {
    hide Wakeup, SomeWaiting;
    var p := k.procs[k.curr].parent;
    if p != NULL {
      SameChoice(SetStatus(k, k.curr, Terminated), SetStatus(d, d.curr, Terminated), k.procs[p].pid);
      NobodyWakes(SetStatus(d, d.curr, Terminated), k.procs[p].pid);
    }
  }

  lemma EventLength(k: Kernel, e: Event)
    requires Enabled(k, e)
    ensures |Apply(k, e).procs| == |k.procs|
  {
    if |k.procs| > 0 {
      EventImages(k, e, 0);
    } else {
      ScheduleFacts(k);
    }
  }

  lemma {:induction false} SameTable(ks: seq<Kernel>, es: seq<Event>, n: nat)
    requires Run(ks, es) && Boot(ks[0]) && n < |ks|
    ensures |ks[n].procs| == |ks[0].procs|
  {
    hide Apply, TableOk, Enabled, Boot;
    if n > 0 {
      SameTable(ks, es, n - 1);
      TableInvariant(ks, es, n - 1);
      assert Next(ks[n-1], es[n-1], ks[n-1+1]);
      EventLength(ks[n-1], es[n-1]);
    }
  }

  /** Over whole runs: whenever somebody is picked, the image of the current process, which
      the code leaves in the processor, is the one that process last stored, or its creation
      image; and without a pick the processor does not change hands. */
  lemma ResumesWhereItStopped(ks: seq<Kernel>, es: seq<Event>, n: nat)
    requires Run(ks, es) && Boot(ks[0]) && n < |es|
    ensures Enabled(ks[n], es[n])
    ensures Picks(ks[n], es[n]) ==>
              var x := ks[n+1].curr;
              && 0 <= x < |ks[n+1].procs| == |ks[0].procs| && ks[n+1].procs[x].status == Running
              && ks[n+1].procs[x].regImg == LastImage(ks, es, n + 1, x)
    ensures !Picks(ks[n], es[n]) ==> ks[n+1].curr == ks[n].curr || ks[n+1].curr == NULL
  {
    hide Apply, Picks, Boot;
    TableInvariant(ks, es, n);
    assert Next(ks[n], es[n], ks[n+1]);
    if Picks(ks[n], es[n]) {
      PickedRuns(ks[n], es[n]);
      SameTable(ks, es, n + 1);
      SwitchTransparent(ks, es, n + 1, ks[n+1].curr);
    } else {
      OnlyPicksSwitch(ks[n], es[n]);
    }
  }

  // ---------------------------------------------------------------- creation images

  /** save_proc keeps 16 bits of ds, es, fs and gs and every other register whole. */
  lemma SavedFields(k: Kernel, r: Regs)
    requires TableOk(k) && k.curr != NULL
    ensures k.curr < |SaveProc(k, r).procs|
    ensures var m := SaveProc(k, r).procs[k.curr].regImg;
            && m.ds == r.ds % 0x10000 && m.es == r.es % 0x10000 && m.fs == r.fs % 0x10000 && m.gs == r.gs % 0x10000
            && (m.edi, m.esi, m.ebp, m.esp) == (r.edi, r.esi, r.ebp, r.esp)
            && (m.ebx, m.edx, m.ecx, m.eax) == (r.ebx, r.edx, r.ecx, r.eax)
            && (m.eip, m.cs, m.eflags, m.userEsp, m.ss) == (r.eip, r.cs, r.eflags, r.userEsp, r.ss)
  {
  }

  /** The registers a child shares with its parent at the moment of the call. */
  ghost predicate Inherited(m: Regs, r: Regs) {
    && m.ds == r.ds % 0x10000 && m.es == r.es % 0x10000 && m.fs == r.fs % 0x10000 && m.gs == r.gs % 0x10000
    && (m.edi, m.esi, m.esp) == (r.edi, r.esi, r.esp)
    && (m.ebx, m.edx, m.ecx) == (r.ebx, r.edx, r.ecx)
    && (m.cs, m.eflags, m.ss) == (r.cs, r.eflags, r.ss)
  }

  /** fork with a free slot: the child resumes where the parent called, with 0 as the result
      and on a stack of its own, 0x100 bytes per pid further up; the parent gets the child's
      pid, which is neither 0 nor -1. */
  lemma ForkSplits(k: Kernel, r: Regs)
    requires TableOk(k) && k.curr != NULL && k.currPid < |k.procs|
    ensures Enabled(k, CallEvent(ForkCall, r))
    ensures var m := Apply(k, CallEvent(ForkCall, r));
            && |m.procs| == |k.procs| && m.currPid == k.currPid + 1 && m.curr == k.curr
            && var c := m.procs[k.currPid];
               && c.status == Ready && c.parent == k.curr && c.pid == k.currPid + 1 && c.tick == MAX_TICK
               && Inherited(c.regImg, r) && c.regImg.eip == r.eip && c.regImg.eax == 0
               && c.regImg.ebp == (r.ebp + c.pid * 0x100) % 0x1_0000_0000
               && c.regImg.userEsp == (r.userEsp + c.pid * 0x100) % 0x1_0000_0000
               && ForkResult(SaveProc(k, r)) == c.pid != 0 && ForkResult(SaveProc(k, r)) != -1
  {
    SavedOk(k, r);
    FirstNewIs(k);
    FirstNewIs(SaveProc(k, r));
  }

  /** fork with a full table fails: the result is -1 and nothing but the caller's image
      changes. */
  lemma ForkFails(k: Kernel, r: Regs)
    requires TableOk(k) && k.curr != NULL && k.currPid == |k.procs|
    ensures Enabled(k, CallEvent(ForkCall, r))
    ensures Apply(k, CallEvent(ForkCall, r)) == SaveProc(k, r) && ForkResult(SaveProc(k, r)) == -1
  {
    SavedOk(k, r);
    FirstNewIs(SaveProc(k, r));
  }

  /** A launched program gets the next slot, READY with a full time slice and the image it was
      created with; nobody else changes. */
  lemma LaunchStarts(k: Kernel, img: Regs)
    requires TableOk(k) && k.currPid < |k.procs|
    ensures Enabled(k, LaunchEvent(img))
    ensures var m := Apply(k, LaunchEvent(img));
            && |m.procs| == |k.procs| && m.currPid == k.currPid + 1 && m.curr == k.curr && m.sems == k.sems
            && var c := m.procs[k.currPid];
               && c.status == Ready && c.pid == k.currPid + 1 && c.tick == MAX_TICK && c.regImg == img
               && c.parent == k.procs[k.currPid].parent && c.next == k.procs[k.currPid].next
               && forall i :: 0 <= i < |k.procs| && i != k.currPid ==> m.procs[i] == k.procs[i]
  {
    FirstNewIs(k);
  }

  /** A new thread starts at func, eight bytes down its own stack. */
  lemma ThreadStarts(k: Kernel, func: nat, r: Regs)
    requires TableOk(k) && k.curr != NULL && k.currPid < |k.procs|
    ensures Enabled(k, CallEvent(ThreadCreateCall(func), r))
    ensures var m := Apply(k, CallEvent(ThreadCreateCall(func), r));
            && |m.procs| == |k.procs| && m.currPid == k.currPid + 1 && m.curr == k.curr
            && var c := m.procs[k.currPid];
               && c.status == Ready && c.parent == k.curr && c.pid == k.currPid + 1 && c.tick == MAX_TICK
               && Inherited(c.regImg, r) && c.regImg.eip == func && c.regImg.eax == 0
               && c.regImg.ebp == (r.ebp + c.pid * 0x100) % 0x1_0000_0000
               && c.regImg.userEsp == (r.userEsp + c.pid * 0x100 - 8) % 0x1_0000_0000
  {
    SavedOk(k, r);
    FirstNewIs(k);
    FirstNewIs(SaveProc(k, r));
    StackDown(r.userEsp + (k.currPid + 1) * 0x100);
  }

  lemma StackDown(x: nat)
    ensures (x % WORD - 8) % WORD == (x - 8) % WORD
  {
    var q := x / WORD;
    assert x == q * WORD + x % WORD;
  }

  /** The stacks of any two children that started from the same registers differ. */
  lemma StacksApart(r: Regs, p: nat, q: nat)
    requires p != q && p <= 255 && q <= 255
    ensures ChildImage(r, p).userEsp != ChildImage(r, q).userEsp && ChildImage(r, p).ebp != ChildImage(r, q).ebp
  {
    Apart(r.userEsp, p * 0x100, q * 0x100);
    Apart(r.ebp, p * 0x100, q * 0x100);
  }

  lemma Apart(x: nat, a: nat, b: nat)
    requires a != b && a < WORD && b < WORD
    ensures (x + a) % WORD != (x + b) % WORD
  {
    var i, j := (x + a) / WORD, (x + b) / WORD;
    assert a - b == (i - j) * WORD + ((x + a) % WORD - (x + b) % WORD);
  }
}
