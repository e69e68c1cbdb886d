/** What one kernel event does to the processes of a program that runs alone on the machine:
    the facts the protocols of usr/ are built on.  All of them are about the semaphore code
    as written, on states where no `next` field was ever set. */
module KernelFacts {
  import opened Basics
  import opened Task
  import opened Semaphores
  import opened KernelRuns
  import opened SemaphoreQueues

  ghost predicate Good(k: Kernel) {
    Executing(k) && Unlinked(k)
  }

  /** Only scheduling and, at most, slot x changed. */
  ghost predicate Others(k: Kernel, m: Kernel, x: int) {
    && |m.procs| == |k.procs| && m.currPid == k.currPid
    && forall i :: 0 <= i < |k.procs| ==>
         && m.procs[i].parent == k.procs[i].parent
         && (i != x ==> SameKind(k.procs[i].status, m.procs[i].status))
  }

  lemma TimerFacts(k: Kernel, r: Regs)
    requires Good(k)
    ensures Enabled(k, TimerEvent(r))
    ensures var m := Apply(k, TimerEvent(r)); Good(m) && Others(k, m, NULL) && m.sems == k.sems
  {
    hide Tick;
    TickOk(k, r);
    RescheduledUnlinked(k, Tick(k, r));
    TickExecutes(k, r);
  }

  lemma TickExecutes(k: Kernel, r: Regs)
    requires Executing(k)
    ensures Executing(Tick(k, r))
  {
    hide Schedule;
    SavedOk(k, r);
    TickOk(k, r);
    ScheduleFacts(SaveProc(k, r));
    if k.procs[k.curr].tick <= 0 {
      assert Runnable(SaveProc(k, r).procs[k.curr].status);
    }
  }

  /** SaveProc changes nothing the other facts look at. */
  lemma SavedFacts(k: Kernel, r: Regs)
    requires Good(k)
    ensures var m := SaveProc(k, r);
            && Good(m) && m.curr == k.curr && m.sems == k.sems && Others(k, m, NULL)
            && forall i :: 0 <= i < |k.procs| ==> m.procs[i].status == k.procs[i].status
  {
    SavedOk(k, r);
    SavedUnlinked(k, r);
  }

  lemma PPassesHere(k: Kernel, s: nat)
    requires Good(k) && s < |k.sems| && k.sems[s].val > 0
    ensures var m := SemP(k, s);
            Good(m) && m.curr == k.curr && m.procs == k.procs && m.currPid == k.currPid &&
            m.sems == k.sems[s := k.sems[s].(val := k.sems[s].val - 1)]
  {
  }

  /** A P on a positive counter only counts down. */
  lemma PPasses(k: Kernel, s: nat, r: Regs)
    requires Good(k) && s < |k.sems| && k.sems[s].val > 0
    ensures Enabled(k, CallEvent(PCall(s), r))
    ensures var m := Apply(k, CallEvent(PCall(s), r));
            && Good(m) && m.curr == k.curr && Others(k, m, NULL)
            && m.sems == k.sems[s := k.sems[s].(val := k.sems[s].val - 1)]
            && forall i :: 0 <= i < |k.procs| ==> m.procs[i].status == k.procs[i].status
  {
    hide SaveProc, SemP, Good;
    SavedFacts(k, r);
    GoodTable(k);
    SavedOk(k, r);
    PPassesHere(SaveProc(k, r), s);
  }

  lemma GoodTable(k: Kernel)
    requires Good(k)
    ensures TableOk(k) && k.curr != NULL && Executing(k) && Unlinked(k)
  {
  }

  lemma PBlocksHere(k: Kernel, s: nat)
    requires Good(k) && s < |k.sems| && k.sems[s].val <= 0 && k.sems[s].head == NULL && OtherReady(k)
    ensures var m := SemP(k, s);
            Good(m) && m.curr != k.curr && Others(k, m, k.curr) && m.procs[k.curr].status == Waiting &&
            m.sems == k.sems[s := k.sems[s].(val := k.sems[s].val - 1, head := k.curr)]
  {
    hide Wait, Unlinked;
    PBlocks(k, s);
    SemNext(k, s);
    SemOk(k, s);
    WaitElsewhere(Enqueue(SetVal(k, s, k.sems[s].val - 1), s)) by {
      var i :| 0 <= i < |k.procs| && k.procs[i].status == Ready;
      assert Enqueue(SetVal(k, s, k.sems[s].val - 1), s).procs[i].status == Ready;
    }
  }

  lemma WaitElsewhere(k: Kernel)
    requires Executing(k) && OtherReady(k)
    ensures Executing(Wait(k)) && Wait(k).curr != k.curr && Others(k, Wait(k), k.curr)
  {
    hide Schedule;
    var w := SetStatus(k, k.curr, Waiting);
    assert SomeRunnable(w) by {
      var i :| 0 <= i < |k.procs| && k.procs[i].status == Ready;
      assert w.procs[i].status == Ready;
    }
    ScheduleFacts(w);
  }

  /** A P on a counter that is not positive blocks the caller and runs somebody else. */
  lemma PBlocksCaller(k: Kernel, s: nat, r: Regs)
    requires Good(k) && s < |k.sems| && k.sems[s].val <= 0 && k.sems[s].head == NULL && OtherReady(k)
    ensures Enabled(k, CallEvent(PCall(s), r))
    ensures var m := Apply(k, CallEvent(PCall(s), r));
            Good(m) && m.curr != k.curr && Others(k, m, k.curr) && m.procs[k.curr].status == Waiting &&
            m.sems == k.sems[s := k.sems[s].(val := k.sems[s].val - 1, head := k.curr)]
  {
    hide SaveProc, SemP, Good;
    SavedFacts(k, r);
    GoodTable(k);
    SavedOk(k, r);
    assert OtherReady(SaveProc(k, r)) by {
      var i :| 0 <= i < |k.procs| && k.procs[i].status == Ready;
      assert SaveProc(k, r).procs[i].status == Ready;
    }
    PBlocksHere(SaveProc(k, r), s);
  }

  lemma VPassesHere(k: Kernel, s: nat)
    requires Good(k) && s < |k.sems| && k.sems[s].val >= 0
    ensures HeadThere(k, s)
    ensures var m := SemV(k, s);
            Good(m) && m.curr == k.curr && m.procs == k.procs && m.currPid == k.currPid &&
            m.sems == k.sems[s := k.sems[s].(val := k.sems[s].val + 1)]
  {
  }

  /** A V nobody waits for only counts up. */
  lemma VPasses(k: Kernel, s: nat, r: Regs)
    requires Good(k) && s < |k.sems| && k.sems[s].val >= 0
    ensures Enabled(k, CallEvent(VCall(s), r))
    ensures var m := Apply(k, CallEvent(VCall(s), r));
            && Good(m) && m.curr == k.curr && Others(k, m, NULL)
            && m.sems == k.sems[s := k.sems[s].(val := k.sems[s].val + 1)]
            && forall i :: 0 <= i < |k.procs| ==> m.procs[i].status == k.procs[i].status
  {
    hide SaveProc, SemV, Good;
    SavedFacts(k, r);
    GoodTable(k);
    SavedOk(k, r);
    VPassesHere(SaveProc(k, r), s);
  }

  lemma VWakesHere(k: Kernel, s: nat, x: nat)
    requires Good(k) && s < |k.sems| && k.sems[s].val < 0
    requires k.sems[s].head == x && x < k.currPid && k.procs[x].status == Waiting
    ensures HeadThere(k, s)
    ensures var m := SemV(k, s);
            Good(m) && Others(k, m, x) && Runnable(m.procs[x].status) &&
            m.sems == k.sems[s := k.sems[s].(val := k.sems[s].val + 1, head := NULL)]
  {
    hide Wakeup, Unlinked;
    SemNext(k, s);
    AsWrittenHead(k, s);
    var b := SetHead(SetVal(k, s, k.sems[s].val + 1), s, k.procs[k.curr].next);
    assert k.procs[k.curr].next == NULL by { UnlinkedAt(k, k.curr); }
    WakeupRuns(b, x);
  }

  lemma UnlinkedAt(k: Kernel, i: nat)
    requires Unlinked(k) && i < |k.procs|
    ensures k.procs[i].next == NULL
  {
  }

  lemma WakeupRuns(k: Kernel, x: nat)
    requires Executing(k) && x < k.currPid && k.procs[x].status == Waiting
    ensures var m := Wakeup(k, k.procs[x].pid); Executing(m) && Others(k, m, x) && Runnable(m.procs[x].status)
  {
    hide Schedule;
    var u := FindWaiting(k.procs, k.procs[x].pid % 256, 0);
    assert u == x;
    assert Runnable(SetStatus(k, x, Ready).procs[x].status);
    ScheduleFacts(SetStatus(k, x, Ready));
  }

  /** A V somebody waits for makes that process runnable. */
  lemma VWakesWaiter(k: Kernel, s: nat, r: Regs, x: nat)
    requires Good(k) && s < |k.sems| && k.sems[s].val < 0
    requires k.sems[s].head == x && x < k.currPid && k.procs[x].status == Waiting
    ensures Enabled(k, CallEvent(VCall(s), r))
    ensures var m := Apply(k, CallEvent(VCall(s), r));
            Good(m) && Others(k, m, x) && Runnable(m.procs[x].status) &&
            m.sems == k.sems[s := k.sems[s].(val := k.sems[s].val + 1, head := NULL)]
  {
    hide SaveProc, SemV, Good;
    SavedFacts(k, r);
    GoodTable(k);
    SavedOk(k, r);
    VWakesHere(SaveProc(k, r), s, x);
  }

  /** A fork with room in the table starts slot currPid READY, as a child of the caller. */
  lemma ForkFacts(k: Kernel, r: Regs)
    requires Good(k) && k.currPid < |k.procs|
    ensures Enabled(k, CallEvent(ForkCall, r)) && ForkResult(k) > 0
    ensures var m := Apply(k, CallEvent(ForkCall, r));
            && Good(m) && m.curr == k.curr && m.sems == k.sems && |m.procs| == |k.procs|
            && m.currPid == k.currPid + 1
            && m.procs[k.currPid].status == Ready && m.procs[k.currPid].parent == k.curr
            && forall i :: 0 <= i < |k.procs| && i != k.currPid ==>
                 m.procs[i].status == k.procs[i].status && m.procs[i].parent == k.procs[i].parent
  {
    hide SaveProc, Fork, Good;
    SavedFacts(k, r);
    GoodTable(k);
    SavedOk(k, r);
    FirstNewIs(k);
    ForkHere(SaveProc(k, r));
  }

  lemma ForkHere(k: Kernel)
    requires Good(k) && k.currPid < |k.procs|
    ensures var m := Fork(k);
            && Good(m) && m.curr == k.curr && m.sems == k.sems && |m.procs| == |k.procs|
            && m.currPid == k.currPid + 1
            && m.procs[k.currPid].status == Ready && m.procs[k.currPid].parent == k.curr
            && forall i :: 0 <= i < |k.procs| && i != k.currPid ==>
                 m.procs[i].status == k.procs[i].status && m.procs[i].parent == k.procs[i].parent
  {
    FirstNewIs(k);
    SpawnOk(k);
  }

  // ---------------------------------------------------------------- vocabulary of the programs

  /** A kernel event; the invariant shows that it is always enabled when it happens. */
  ghost function After(k: Kernel, e: Event): Kernel {
    if Enabled(k, e) then Apply(k, e) else k
  }

  ghost function P(k: Kernel, id: nat, r: Regs): Kernel {
    After(k, CallEvent(PCall(id), r))
  }

  ghost function V(k: Kernel, id: nat, r: Regs): Kernel {
    After(k, CallEvent(VCall(id), r))
  }

  function Child(k: Kernel): int {
    if FirstNew(k.procs, 0) == NULL then NULL else k.currPid
  }

  function Val(k: Kernel, id: nat): int {
    if id < |k.sems| then k.sems[id].val else 0
  }

  /** Only slot x ever waits for semaphore id. */
  predicate Link(k: Kernel, id: nat, x: int) {
    && id < |k.sems| && -1 <= k.sems[id].val
    && k.sems[id].head == (if k.sems[id].val < 0 then x else NULL)
  }

  function StatusOf(k: Kernel, x: int): Status {
    if Slot(k, x) then k.procs[x].status else New
  }

  /** A process of the program is runnable unless it waits for its semaphore. */
  predicate Sound(k: Kernel, x: int, waits: bool) {
    && 0 <= x < k.currPid <= |k.procs|
    && (if waits then k.procs[x].status == Waiting else Runnable(k.procs[x].status))
  }

  function Bit(b: bool): int {
    if b then 1 else 0
  }

  // ---------------------------------------------------------------- wait and exit

  /** Slots other than x and y kept their kind; parents never change. */
  ghost predicate OthersExcept(k: Kernel, m: Kernel, x: int, y: int) {
    && |m.procs| == |k.procs| && m.currPid == k.currPid && m.sems == k.sems
    && forall i :: 0 <= i < |k.procs| ==>
         && m.procs[i].parent == k.procs[i].parent
         && (i != x && i != y ==> SameKind(k.procs[i].status, m.procs[i].status))
  }

  lemma SavedAny(k: Kernel, r: Regs)
    requires TableOk(k) && Unlinked(k)
    ensures var m := SaveProc(k, r);
            && TableOk(m) && Unlinked(m) && m.curr == k.curr && OthersExcept(k, m, NULL, NULL)
            && forall i :: 0 <= i < |k.procs| ==>
                 m.procs[i].status == k.procs[i].status && m.procs[i].tick == k.procs[i].tick
  {
    SavedOk(k, r);
    SavedUnlinked(k, r);
  }

  lemma CountdownAny(k: Kernel, r: Regs)
    requires TableOk(k) && Unlinked(k) && k.curr != NULL && k.procs[k.curr].tick > 0
    ensures var m := Tick(k, r);
            && TableOk(m) && Unlinked(m) && OthersExcept(k, m, NULL, NULL)
            && m.curr == k.curr && forall i :: 0 <= i < |k.procs| ==> m.procs[i].status == k.procs[i].status
  {
  }

  lemma ScheduleAny(k: Kernel)
    requires TableOk(k) && Unlinked(k)
    ensures var m := Schedule(k);
            && TableOk(m) && Unlinked(m) && OthersExcept(k, m, NULL, NULL)
            && if SomeRunnable(k) then Executing(m) else m == k
  {
    hide Schedule;
    ScheduleFacts(k);
  }

  lemma SaveScheduleAny(k: Kernel, r: Regs)
    requires TableOk(k) && Unlinked(k)
    ensures var m := Schedule(SaveProc(k, r));
            && TableOk(m) && Unlinked(m) && OthersExcept(k, m, NULL, NULL)
            && (Executing(m) || (m.curr == k.curr && forall i :: 0 <= i < |k.procs| ==> m.procs[i].status == k.procs[i].status))
  {
    hide Schedule, SaveProc, TableOk, Unlinked;
    SavedAny(k, r);
    ScheduleAny(SaveProc(k, r));
  }

  /** A timer interrupt in any state of the table: either nothing but the time slice changes,
      or somebody runnable is running afterwards. */
  lemma TimerAny(k: Kernel, r: Regs)
    requires TableOk(k) && Unlinked(k)
    ensures var m := After(k, TimerEvent(r));
            && TableOk(m) && Unlinked(m) && OthersExcept(k, m, NULL, NULL)
            && (Executing(m) || (m.curr == k.curr && forall i :: 0 <= i < |k.procs| ==> m.procs[i].status == k.procs[i].status))
            && (k.curr == NULL && SomeRunnable(k) ==> Executing(m))
  {
    hide SaveProc, Schedule, Unlinked, SomeRunnable;
    if k.curr == NULL {
      ScheduleAny(k);
      RunnableCounts(k);
    } else if k.procs[k.curr].tick > 0 {
      CountdownAny(k, r);
    } else {
      SaveScheduleAny(k, r);
    }
  }

  lemma RunnableCounts(k: Kernel)
    requires TableOk(k)
    ensures SomeRunnable(k) ==> k.currPid != 0
  {
  }

  ghost predicate ReadyBesides(k: Kernel, x: int) {
    exists i :: 0 <= i < |k.procs| && i != x && k.procs[i].status == Ready
  }

  lemma WaitHere(k: Kernel)
    requires TableOk(k) && k.curr != NULL && Unlinked(k)
    ensures var m := Wait(k);
            && TableOk(m) && Unlinked(m) && OthersExcept(k, m, k.curr, NULL) && m.procs[k.curr].status == Waiting
            && (if ReadyBesides(k, k.curr)
                then Executing(m)
                else m.curr == k.curr && forall i :: 0 <= i < |k.procs| && i != k.curr ==>
                       m.procs[i].status == k.procs[i].status)
  {
    hide Schedule;
    var w := SetStatus(k, k.curr, Waiting);
    ScheduleFacts(w);
    WaitNext(k);
    if ReadyBesides(k, k.curr) {
      var i :| 0 <= i < |k.procs| && i != k.curr && k.procs[i].status == Ready;
      assert w.procs[i].status == Ready;
    }
  }

  /** wait (and join): the caller is marked WAITING; somebody READY takes over, or, when there
      is nobody, the call simply returns. */
  lemma WaitAny(k: Kernel, r: Regs, c: Call)
    requires TableOk(k) && k.curr != NULL && Unlinked(k) && (c == WaitCall || c == JoinCall)
    ensures Enabled(k, CallEvent(c, r))
    ensures var m := After(k, CallEvent(c, r));
            && TableOk(m) && Unlinked(m) && OthersExcept(k, m, k.curr, NULL) && m.procs[k.curr].status == Waiting
            && (if ReadyBesides(k, k.curr)
                then Executing(m)
                else m.curr == k.curr && forall i :: 0 <= i < |k.procs| && i != k.curr ==>
                       m.procs[i].status == k.procs[i].status)
  {
    hide SaveProc, Wait, Unlinked, ReadyBesides;
    SavedAny(k, r);
    SavedOk(k, r);
    WaitHere(SaveProc(k, r));
    ReadySame(k, SaveProc(k, r));
  }

  lemma ReadySame(k: Kernel, m: Kernel)
    requires |m.procs| == |k.procs| && forall i :: 0 <= i < |k.procs| ==> m.procs[i].status == k.procs[i].status
    ensures forall x :: ReadyBesides(k, x) <==> ReadyBesides(m, x)
  {
    forall x ensures ReadyBesides(k, x) <==> ReadyBesides(m, x) {
      if ReadyBesides(k, x) {
        var i :| 0 <= i < |k.procs| && i != x && k.procs[i].status == Ready;
        assert m.procs[i].status == Ready;
      }
    }
  }

  lemma ExitHere(k: Kernel)
    requires TableOk(k) && k.curr != NULL && Unlinked(k)
    ensures var m, p := Exit(k), k.procs[k.curr].parent;
            && TableOk(m) && Unlinked(m) && OthersExcept(k, m, k.curr, p) && m.procs[k.curr].status == Terminated
            && (if p != NULL && p != k.curr && k.procs[p].status == Waiting
                then Executing(m) && Runnable(m.procs[p].status)
                else m.curr == k.curr && forall i :: 0 <= i < |k.procs| && i != k.curr ==>
                       m.procs[i].status == k.procs[i].status)
  {
    hide Wakeup;
    var t, p := SetStatus(k, k.curr, Terminated), k.procs[k.curr].parent;
    ExitOk(k);
    ExitNext(k);
    if p != NULL {
      WakeupAny(t, p);
    }
  }

  lemma WakeupAny(k: Kernel, x: nat)
    requires TableOk(k) && x < k.currPid
    ensures var m := Wakeup(k, k.procs[x].pid);
            && TableOk(m) && OthersExcept(k, m, x, NULL)
            && (if k.procs[x].status == Waiting then Executing(m) && Runnable(m.procs[x].status) else m == k)
  {
    hide Schedule;
    var u := FindWaiting(k.procs, k.procs[x].pid % 256, 0);
    if u != NULL {
      assert u == x;
      assert Runnable(SetStatus(k, x, Ready).procs[x].status);
      ScheduleFacts(SetStatus(k, x, Ready));
    }
  }

  /** exit (and thread exit): a WAITING parent is woken and somebody runs; otherwise the call
      returns to the process that has just been marked TERMINATED. */
  lemma ExitAny(k: Kernel, r: Regs, c: Call)
    requires TableOk(k) && k.curr != NULL && Unlinked(k) && (c == ExitCall || c == ThreadExitCall)
    ensures Enabled(k, CallEvent(c, r))
    ensures var m, p := After(k, CallEvent(c, r)), k.procs[k.curr].parent;
            && TableOk(m) && Unlinked(m) && OthersExcept(k, m, k.curr, p) && m.procs[k.curr].status == Terminated
            && (if p != NULL && p != k.curr && k.procs[p].status == Waiting
                then Executing(m) && Runnable(m.procs[p].status)
                else m.curr == k.curr && forall i :: 0 <= i < |k.procs| && i != k.curr ==>
                       m.procs[i].status == k.procs[i].status)
  {
    hide SaveProc, Exit;
    SavedAny(k, r);
    SavedOk(k, r);
    ExitHere(SaveProc(k, r));
  }

  /** System call 100. */
  lemma ReturnAny(k: Kernel, r: Regs)
    requires TableOk(k) && k.curr != NULL && Unlinked(k)
    ensures Enabled(k, CallEvent(ReturnCall, r))
    ensures var m := After(k, CallEvent(ReturnCall, r));
            && TableOk(m) && Unlinked(m) && OthersExcept(k, m, k.curr, NULL)
            && m.curr == NULL && m.procs[k.curr].status == Terminated
            && forall i :: 0 <= i < |k.procs| && i != k.curr ==> m.procs[i].status == k.procs[i].status
  {
    hide SaveProc;
    SavedAny(k, r);
    SavedOk(k, r);
  }

  /** A thread creation with room in the table starts slot currPid READY, as a child of the
      caller. */
  lemma ThreadFacts(k: Kernel, func: nat, r: Regs)
    requires Good(k) && k.currPid < |k.procs|
    ensures Enabled(k, CallEvent(ThreadCreateCall(func), r))
    ensures var m := After(k, CallEvent(ThreadCreateCall(func), r));
            && Good(m) && m.curr == k.curr && m.sems == k.sems && |m.procs| == |k.procs|
            && m.currPid == k.currPid + 1
            && m.procs[k.currPid].status == Ready && m.procs[k.currPid].parent == k.curr
            && forall i :: 0 <= i < |k.procs| && i != k.currPid ==>
                 m.procs[i].status == k.procs[i].status && m.procs[i].parent == k.procs[i].parent
  {
    hide SaveProc, ThreadCreate, Good;
    SavedFacts(k, r);
    GoodTable(k);
    SavedOk(k, r);
    FirstNewIs(k);
    ThreadHere(SaveProc(k, r), func);
  }

  lemma ThreadHere(k: Kernel, func: nat)
    requires Good(k) && k.currPid < |k.procs|
    ensures var m := ThreadCreate(k, func);
            && Good(m) && m.curr == k.curr && m.sems == k.sems && |m.procs| == |k.procs|
            && m.currPid == k.currPid + 1
            && m.procs[k.currPid].status == Ready && m.procs[k.currPid].parent == k.curr
            && forall i :: 0 <= i < |k.procs| && i != k.currPid ==>
                 m.procs[i].status == k.procs[i].status && m.procs[i].parent == k.procs[i].parent
  {
    FirstNewIs(k);
    SpawnOk(k);
  }

  lemma TimerRuns(k: Kernel, r: Regs)
    requires Executing(k) && Unlinked(k)
    ensures Executing(After(k, TimerEvent(r)))
  {
    hide Tick;
    TickExecutes(k, r);
  }

  /** Process x sleeps on semaphore id. */
  predicate Waits(k: Kernel, id: nat, x: int) {
    id < |k.sems| && k.sems[id].val < 0 && k.sems[id].head == x
  }

  // ---------------------------------------------------------------- time slices

  function TickOf(k: Kernel, x: int): int {
    if Slot(k, x) then k.procs[x].tick else 0
  }

  /** A scheduler call that picks somebody starts a new time slice; it stays with the current
      process only if nobody else is READY. */
  lemma ScheduleTicks(k: Kernel)
    requires Executing(k)
    ensures var m := Schedule(k);
            m.curr != NULL && TickOf(m, m.curr) == MAX_TICK && (m.curr != k.curr <==> OtherReady(k))
  {
    PickFacts(k.procs);
    hide Pick;
    assert Runnable(k.procs[k.curr].status);
  }

  lemma TimerTicks(k: Kernel, r: Regs)
    requires Good(k)
    ensures Enabled(k, TimerEvent(r))
    ensures var m := After(k, TimerEvent(r));
            if TickOf(k, k.curr) > 0 then m.curr == k.curr && TickOf(m, m.curr) == TickOf(k, k.curr) - 1
            else TickOf(m, m.curr) == MAX_TICK && (m.curr != k.curr <==> OtherReady(k))
  {
    hide Schedule;
    SavedFacts(k, r);
    if k.procs[k.curr].tick <= 0 {
      ScheduleTicks(SaveProc(k, r));
      SameReady(k, r);
    }
  }

  lemma SameReady(k: Kernel, r: Regs)
    requires Good(k)
    ensures OtherReady(k) <==> OtherReady(SaveProc(k, r))
    ensures forall i :: 0 <= i < |k.procs| ==> TickOf(SaveProc(k, r), i) == TickOf(k, i)
  {
    SavedFacts(k, r);
    var d := SaveProc(k, r);
    if i :| 0 <= i < |k.procs| && k.procs[i].status == Ready {
      assert d.procs[i].status == Ready;
    }
    if i :| 0 <= i < |d.procs| && d.procs[i].status == Ready {
      assert k.procs[i].status == Ready;
    }
  }

  /** P and V that neither block nor wake leave the time slices alone. */
  lemma QuietTicks(k: Kernel, s: nat, r: Regs)
    requires Good(k) && s < |k.sems|
    ensures k.sems[s].val > 0 ==> forall i :: 0 <= i < |k.procs| ==> TickOf(P(k, s, r), i) == TickOf(k, i)
    ensures k.sems[s].val >= 0 ==> forall i :: 0 <= i < |k.procs| ==> TickOf(V(k, s, r), i) == TickOf(k, i)
  {
    hide SaveProc, SemP, SemV, Good;
    SavedFacts(k, r);
    GoodTable(k);
    SavedOk(k, r);
    SameReady(k, r);
    if k.sems[s].val > 0 {
      PPassesHere(SaveProc(k, r), s);
    }
    if k.sems[s].val >= 0 {
      VPassesHere(SaveProc(k, r), s);
    }
  }

  /** A P that blocks starts somebody else's time slice. */
  lemma BlockTicks(k: Kernel, s: nat, r: Regs)
    requires Good(k) && s < |k.sems| && k.sems[s].val <= 0 && OtherReady(k)
    ensures var m := P(k, s, r); TickOf(m, m.curr) == MAX_TICK
  {
    hide Schedule;
    SavedFacts(k, r);
    SavedOk(k, r);
    SameReady(k, r);
    var d := SaveProc(k, r);
    var b := Enqueue(SetVal(d, s, d.sems[s].val - 1), s);
    var i :| 0 <= i < |d.procs| && d.procs[i].status == Ready;
    assert b.procs[i].status == Ready;
    WaitTicks(b);
  }

  lemma WaitTicks(k: Kernel)
    requires Executing(k) && OtherReady(k)
    ensures var m := Wait(k); TickOf(m, m.curr) == MAX_TICK
  {
    var b := SetStatus(k, k.curr, Waiting);
    var i :| 0 <= i < |k.procs| && k.procs[i].status == Ready;
    assert b.procs[i].status == Ready;
    PickFacts(b.procs);
    hide Pick;
  }

  /** A V that wakes somebody gives the processor away. */
  lemma WakeTicks(k: Kernel, s: nat, r: Regs, x: nat)
    requires Good(k) && s < |k.sems| && k.sems[s].val < 0
    requires k.sems[s].head == x && x < k.currPid && k.procs[x].status == Waiting
    ensures var m := V(k, s, r); TickOf(m, m.curr) == MAX_TICK && m.curr != k.curr
  {
    hide Schedule, SaveProc, Wakeup;
    SavedFacts(k, r);
    SavedOk(k, r);
    var d := SaveProc(k, r);
    WakeupTicks(SetHead(SetVal(d, s, d.sems[s].val + 1), s, d.procs[d.curr].next), x);
  }

  lemma WakeupTicks(k: Kernel, x: nat)
    requires Executing(k) && x < k.currPid && k.procs[x].status == Waiting
    ensures var m := Wakeup(k, k.procs[x].pid); TickOf(m, m.curr) == MAX_TICK && m.curr != k.curr
  {
    hide Schedule;
    var u := FindWaiting(k.procs, k.procs[x].pid % 256, 0);
    assert u == x;
    var b := SetStatus(k, x, Ready);
    assert b.procs[x].status == Ready;
    ScheduleTicks(b);
  }

  // ---------------------------------------------------------------- schedules

  /** The program steps and the timer interrupts of a schedule. */
  function StepsIn(sched: seq<(bool, Regs)>): nat {
    if sched == [] then 0 else StepsIn(sched[..|sched| - 1]) + if sched[|sched| - 1].0 then 0 else 1
  }

  function TimersIn(sched: seq<(bool, Regs)>): nat {
    if sched == [] then 0 else TimersIn(sched[..|sched| - 1]) + if sched[|sched| - 1].0 then 1 else 0
  }

  /** Between two timer interrupts there is a program step. */
  predicate Breathing(sched: seq<(bool, Regs)>) {
    forall i :: 1 <= i < |sched| && sched[i].0 ==> !sched[i-1].0
  }
}
