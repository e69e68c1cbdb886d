/** The shared account of usr/bank.c: the father deposits a hundred times, the child withdraws
    fifty times, each under one semaphore; then the child exits and the father waits for it.
    The model follows the two processes to their last system call, including the paths on
    which exit and wait return to a caller that should no longer run. */
module Bank {
  import opened Basics
  import opened Task
  import opened KernelRuns
  import opened SemaphoreQueues
  import opened KernelFacts

  const DEPOSITS := 100
  const WITHDRAWALS := 50

  datatype Cast = Cast(sem: nat, father: nat, child: int)

  /** FAfter: wait has been called.  FEnd: main has returned through system call 100. */
  datatype FatherPc = FFork | FTest | FLock | FLoad | FStore | FPrint | FUnlock | FNext | FWait | FAfter | FEnd

  /** CExited: exit has been called and may return.  CWaited: the wait after the if-else has
      been called as well. */
  datatype ChildPc = CTest | CLock | CLoad | CStore | CPrint | CUnlock | CNext | CExit | CExited | CWaited | CEnd

  /** i and j are the two loop counters, freg and creg the registers of the two processes. */
  datatype Sys = Sys(
    k: Kernel, c: Cast, fpc: FatherPc, cpc: ChildPc,
    account: int, i: nat, j: nat, freg: int, creg: int,
    deposits: nat, withdrawals: nat)

  ghost function FatherStep(s: Sys, r: Regs): Sys {
    match s.fpc
    case FFork => s.(k := After(s.k, CallEvent(ForkCall, r)), c := s.c.(child := Child(s.k)), fpc := FTest)
    case FTest => if s.i < DEPOSITS then s.(fpc := FLock) else s.(fpc := FWait)
    case FLock => s.(k := P(s.k, s.c.sem, r), fpc := FLoad)
    case FLoad => s.(freg := s.account, fpc := FStore)
    case FStore => s.(account := s.freg + 10, deposits := s.deposits + 1, fpc := FPrint)
    case FPrint => s.(fpc := FUnlock)
    case FUnlock => s.(k := V(s.k, s.c.sem, r), fpc := FNext)
    case FNext => s.(i := s.i + 1, fpc := FTest)
    case FWait => s.(k := After(s.k, CallEvent(WaitCall, r)), fpc := FAfter)
    case FAfter => s.(k := After(s.k, CallEvent(ReturnCall, r)), fpc := FEnd)
    case FEnd => s
  }

  ghost function ChildStep(s: Sys, r: Regs): Sys {
    match s.cpc
    case CTest => if s.j < WITHDRAWALS then s.(cpc := CLock) else s.(cpc := CExit)
    case CLock => s.(k := P(s.k, s.c.sem, r), cpc := CLoad)
    case CLoad => s.(creg := s.account, cpc := CStore)
    case CStore => s.(account := s.creg - 20, withdrawals := s.withdrawals + 1, cpc := CPrint)
    case CPrint => s.(cpc := CUnlock)
    case CUnlock => s.(k := V(s.k, s.c.sem, r), cpc := CNext)
    case CNext => s.(j := s.j + 1, cpc := CTest)
    case CExit => s.(k := After(s.k, CallEvent(ExitCall, r)), cpc := CExited)
    case CExited => s.(k := After(s.k, CallEvent(WaitCall, r)), cpc := CWaited)
    case CWaited => s.(k := After(s.k, CallEvent(ReturnCall, r)), cpc := CEnd)
    case CEnd => s
  }

  ghost function Next(s: Sys, timer: bool, r: Regs): Sys {
    if timer then s.(k := After(s.k, TimerEvent(r)))
    else if s.k.curr == s.c.father then FatherStep(s, r)
    else if s.k.curr == s.c.child && s.c.child != NULL then ChildStep(s, r)
    else s
  }

  ghost function Exec(s: Sys, sched: seq<(bool, Regs)>): Sys {
    if sched == [] then s
    else
      var n := |sched| - 1;
      Next(Exec(s, sched[..n]), sched[n].0, sched[n].1)
  }

  // ---------------------------------------------------------------- the invariant

  /** The kernel while both loops are still to finish, or while only the father is left. */
  ghost predicate Table(k: Kernel, c: Cast) {
    && TableOk(k) && Unlinked(k) && c.sem < |k.sems|
    && c.child >= NULL && c.child != c.father && Slot(k, c.father) && c.father < k.currPid
    && (c.child != NULL ==> c.child < k.currPid && k.procs[c.child].parent == c.father)
    && (forall i :: 0 <= i < |k.procs| && i != c.father && i != c.child ==> !Runnable(k.procs[i].status))
    && (Link(k, c.sem, c.father) || Link(k, c.sem, c.child))
  }

  /** Where the child is: not born, in its loop, or past exit. */
  predicate Looping(p: ChildPc) {
    !p.CExited? && !p.CWaited? && !p.CEnd?
  }

  /** The four ways the machine can stand: somebody runs; the child goes on executing although
      it is TERMINATED; the father goes on executing although it is WAITING, because nobody
      was left to take over; or both are done. */
  ghost predicate Modes(k: Kernel, c: Cast, fpc: FatherPc, cpc: ChildPc) {
    || (Executing(k) && (k.curr == c.father || k.curr == c.child))
    || (k.curr == c.child && c.child != NULL && cpc == CExited)
    || (k.curr == c.father && fpc == FAfter && !Looping(cpc))
    || (k.curr == NULL && fpc == FEnd)
  }

  ghost predicate KernelPart(k: Kernel, c: Cast, fpc: FatherPc, cpc: ChildPc) {
    && Table(k, c) && Modes(k, c, fpc, cpc)
    && (fpc == FEnd ==> k.procs[c.father].status == Terminated && k.curr == NULL && !Looping(cpc))
    && (fpc != FEnd && fpc != FAfter ==> Sound(k, c.father, Waits(k, c.sem, c.father)))
    && (fpc == FAfter && Looping(cpc) ==> k.procs[c.father].status == Waiting && !Waits(k, c.sem, c.father) && k.curr != c.father)
    && (fpc == FAfter && !Looping(cpc) ==> Runnable(k.procs[c.father].status) || k.curr == c.father)
    && (c.child != NULL && Looping(cpc) ==> Sound(k, c.child, Waits(k, c.sem, c.child)))
    && (c.child != NULL && cpc == CExited ==> k.procs[c.child].status == Terminated)
    && (c.child != NULL && cpc == CWaited ==> k.procs[c.child].status == Waiting && k.curr != c.child)
    && cpc != CEnd
    && (c.child == NULL ==> cpc == CTest)
    && (!Looping(cpc) ==> Val(k, c.sem) >= 0)
  }

  predicate FatherIn(p: FatherPc) {
    p.FLoad? || p.FStore? || p.FPrint? || p.FUnlock?
  }

  predicate ChildIn(p: ChildPc) {
    p.CLoad? || p.CStore? || p.CPrint? || p.CUnlock?
  }

  predicate Protocol(s: Sys, v: int, h: int, room: int) {
    && v + Bit(FatherIn(s.fpc)) + Bit(ChildIn(s.cpc)) == 1
    && (v < 0 ==> (h == s.c.father && s.fpc == FLoad) || (h == s.c.child && s.cpc == CLoad))
    && s.account == 1000 + 10 * s.deposits - 20 * s.withdrawals
    && (s.fpc == FStore ==> s.freg == s.account)
    && (s.cpc == CStore ==> s.creg == s.account)
    && s.deposits == s.i + Bit(s.fpc.FPrint? || s.fpc.FUnlock? || s.fpc.FNext?)
    && s.withdrawals == s.j + Bit(s.cpc.CPrint? || s.cpc.CUnlock? || s.cpc.CNext?)
    && s.i <= DEPOSITS && s.j <= WITHDRAWALS
    && (s.fpc.FLock? || FatherIn(s.fpc) || s.fpc.FNext? ==> s.i < DEPOSITS)
    && (s.cpc.CLock? || ChildIn(s.cpc) || s.cpc.CNext? ==> s.j < WITHDRAWALS)
    && (s.fpc.FWait? || s.fpc.FAfter? || s.fpc.FEnd? ==> s.i == DEPOSITS)
    && (s.cpc.CExit? || !Looping(s.cpc) ==> s.j == WITHDRAWALS)
    && (s.c.child == NULL <==> s.fpc == FFork)
    && (s.fpc == FFork ==> room >= 1 && v == 1)
  }

  ghost predicate ProtocolPart(s: Sys) {
    && s.c.sem < |s.k.sems|
    && Protocol(s, Val(s.k, s.c.sem), s.k.sems[s.c.sem].head, |s.k.procs| - s.k.currPid)
  }

  ghost predicate Inv(s: Sys) {
    KernelPart(s.k, s.c, s.fpc, s.cpc) && ProtocolPart(s)
  }

  /** main at its fork: the account holds 1000, the semaphore is 1, one slot is free and
      nobody else can run. */
  ghost predicate Start(s: Sys) {
    && Good(s.k) && s.c.sem < |s.k.sems| && s.k.sems[s.c.sem].val == 1 && s.k.sems[s.c.sem].head == NULL
    && s.c.father == s.k.curr && s.c.child == NULL && s.k.currPid < |s.k.procs|
    && (forall i :: 0 <= i < |s.k.procs| && i != s.c.father ==> !Runnable(s.k.procs[i].status))
    && s.fpc == FFork && s.cpc == CTest && s.account == 1000
    && s.i == 0 && s.j == 0 && s.deposits == 0 && s.withdrawals == 0
  }

  lemma StartInv(s: Sys)
    requires Start(s)
    ensures Inv(s)
  {
  }

  // ---------------------------------------------------------------- kernel steps

  lemma KernelReads(s: Sys)
    requires Inv(s)
    ensures s.c.sem < |s.k.sems| && Val(s.k, s.c.sem) >= -1
    ensures s.k.curr == NULL || s.k.curr == s.c.father || s.k.curr == s.c.child
    ensures s.c.father != s.c.child && Slot(s.k, s.c.father) && (s.c.child != NULL ==> Slot(s.k, s.c.child))
    ensures s.k.curr != NULL && s.k.curr == s.c.father && s.fpc != FAfter ==>
              Good(s.k) && !Waits(s.k, s.c.sem, s.c.father) && s.fpc != FEnd
    ensures s.k.curr != NULL && s.k.curr == s.c.child && Looping(s.cpc) ==>
              Good(s.k) && !Waits(s.k, s.c.sem, s.c.child)
    ensures s.k.curr != NULL && s.k.curr == s.c.child ==> s.cpc != CWaited && s.cpc != CEnd
    ensures s.fpc != FAfter && s.fpc != FEnd && !Waits(s.k, s.c.sem, s.c.father) ==> Runnable(StatusOf(s.k, s.c.father))
    ensures s.c.child != NULL && Looping(s.cpc) && !Waits(s.k, s.c.sem, s.c.child) ==> Runnable(StatusOf(s.k, s.c.child))
  {
  }

  /** The kernel part asks of a place only whether it is one of the last ones. */
  lemma PlacesMatter(k: Kernel, c: Cast, fpc: FatherPc, cpc: ChildPc, np: FatherPc, nc: ChildPc)
    requires KernelPart(k, c, fpc, cpc)
    requires np == fpc || (np != FAfter && np != FEnd && fpc != FAfter && fpc != FEnd)
    requires nc == cpc || (Looping(nc) && Looping(cpc) && c.child != NULL)
    ensures KernelPart(k, c, np, nc)
  {
    hide Table;
  }

  /** The effect of P (d = -1) or V (d = 1) on the kernel part. */
  ghost predicate Counted(s: Sys, m: Kernel, d: int) {
    && KernelPart(m, s.c, s.fpc, s.cpc)
    && Val(m, s.c.sem) == Val(s.k, s.c.sem) + d && |m.sems| == |s.k.sems| && s.c.sem < |m.sems|
    && m.currPid == s.k.currPid && |m.procs| == |s.k.procs|
  }

  /** A step that leaves the processes alone and the semaphore without a waiter. */
  lemma Steady(s: Sys, m: Kernel)
    requires Inv(s) && Good(s.k) && Good(m) && m.curr == s.k.curr && Others(s.k, m, NULL)
    requires forall i :: 0 <= i < |s.k.procs| ==> m.procs[i].status == s.k.procs[i].status
    requires s.c.sem < |m.sems| && Val(s.k, s.c.sem) >= 0 && Val(m, s.c.sem) >= 0 && m.sems[s.c.sem].head == NULL
    ensures KernelPart(m, s.c, s.fpc, s.cpc)
  {
    hide Protocol;
  }

  lemma LockPasses(s: Sys, r: Regs)
    requires Inv(s) && Good(s.k) && Val(s.k, s.c.sem) > 0
    ensures Enabled(s.k, CallEvent(PCall(s.c.sem), r)) && Counted(s, P(s.k, s.c.sem, r), -1)
  {
    hide Apply, Protocol, Good;
    PPasses(s.k, s.c.sem, r);
    Steady(s, P(s.k, s.c.sem, r));
  }

  lemma FatherBlocks(s: Sys, r: Regs)
    requires Inv(s) && Good(s.k) && Val(s.k, s.c.sem) == 0 && Looping(s.cpc) && s.c.child != NULL
    requires s.k.curr == s.c.father && s.fpc == FLock && Runnable(s.k.procs[s.c.child].status)
    ensures Enabled(s.k, CallEvent(PCall(s.c.sem), r)) && Counted(s, P(s.k, s.c.sem, r), -1)
    ensures P(s.k, s.c.sem, r).sems[s.c.sem].head == s.c.father
  {
    hide Apply, Protocol;
    assert s.k.procs[s.c.child].status == Ready;
    PBlocksCaller(s.k, s.c.sem, r);
  }

  lemma ChildBlocks(s: Sys, r: Regs)
    requires Inv(s) && Good(s.k) && Val(s.k, s.c.sem) == 0 && s.cpc == CLock && s.c.child != NULL
    requires s.k.curr == s.c.child && Runnable(s.k.procs[s.c.father].status) && s.fpc != FEnd
    ensures Enabled(s.k, CallEvent(PCall(s.c.sem), r)) && Counted(s, P(s.k, s.c.sem, r), -1)
    ensures P(s.k, s.c.sem, r).sems[s.c.sem].head == s.c.child
  {
    hide Apply, Protocol;
    assert s.k.procs[s.c.father].status == Ready;
    PBlocksCaller(s.k, s.c.sem, r);
  }

  lemma LockKernel(s: Sys, r: Regs, np: FatherPc, nc: ChildPc)
    requires Inv(s) && Good(s.k) && Locking(s, np, nc) && Val(s.k, s.c.sem) >= 0
    requires Val(s.k, s.c.sem) == 0 ==>
               && s.c.child != NULL && Looping(s.cpc)
               && Runnable(StatusOf(s.k, if s.k.curr == s.c.father then s.c.child else s.c.father))
    ensures Enabled(s.k, CallEvent(PCall(s.c.sem), r))
    ensures var m := P(s.k, s.c.sem, r);
            && Counted(s, m, -1) && KernelPart(m, s.c, np, nc)
            && (Val(m, s.c.sem) < 0 ==> m.sems[s.c.sem].head == s.k.curr)
  {
    hide KernelPart, Protocol, P;
    LockFlags(s);
    if Val(s.k, s.c.sem) > 0 {
      LockPasses(s, r);
    } else if s.k.curr == s.c.father {
      FatherBlocks(s, r);
    } else {
      ChildBlocks(s, r);
    }
    PlacesMatter(P(s.k, s.c.sem, r), s.c, s.fpc, s.cpc, np, nc);
  }

  lemma LockFlags(s: Sys)
    requires Inv(s) && Good(s.k) && (s.k.curr == s.c.father || s.k.curr == s.c.child)
    ensures s.fpc != FEnd && s.c.father != s.c.child && Slot(s.k, s.c.father) && (s.c.child != NULL ==> Slot(s.k, s.c.child))
    ensures s.k.curr == s.c.child ==> s.c.child != NULL
  {
  }

  predicate Locking(s: Sys, np: FatherPc, nc: ChildPc) {
    || (s.k.curr == s.c.father && s.fpc == FLock && np == FLoad && nc == s.cpc)
    || (s.k.curr == s.c.child && s.cpc == CLock && np == s.fpc && nc == CLoad)
  }

  predicate Unlocking(s: Sys, np: FatherPc, nc: ChildPc) {
    || (s.k.curr == s.c.father && s.fpc == FUnlock && np == FNext && nc == s.cpc)
    || (s.k.curr == s.c.child && s.cpc == CUnlock && np == s.fpc && nc == CNext)
  }

  lemma UnlockPasses(s: Sys, r: Regs)
    requires Inv(s) && Good(s.k) && Val(s.k, s.c.sem) >= 0
    ensures Enabled(s.k, CallEvent(VCall(s.c.sem), r)) && Counted(s, V(s.k, s.c.sem, r), 1)
  {
    hide Apply, Protocol, Good;
    VPasses(s.k, s.c.sem, r);
    Steady(s, V(s.k, s.c.sem, r));
  }

  lemma UnlockWakes(s: Sys, r: Regs, x: nat)
    requires Inv(s) && Good(s.k) && Val(s.k, s.c.sem) < 0 && s.c.child != NULL && Looping(s.cpc)
    requires s.fpc != FAfter && s.fpc != FEnd && s.k.sems[s.c.sem].head == x
    requires (s.k.curr == s.c.father && x == s.c.child) || (s.k.curr == s.c.child && x == s.c.father)
    ensures Enabled(s.k, CallEvent(VCall(s.c.sem), r)) && Counted(s, V(s.k, s.c.sem, r), 1)
  {
    hide Apply, Protocol;
    VWakesWaiter(s.k, s.c.sem, r, x);
  }

  lemma UnlockKernel(s: Sys, r: Regs, np: FatherPc, nc: ChildPc)
    requires Inv(s) && Good(s.k) && Unlocking(s, np, nc)
    ensures Enabled(s.k, CallEvent(VCall(s.c.sem), r))
    ensures var m := V(s.k, s.c.sem, r); Counted(s, m, 1) && KernelPart(m, s.c, np, nc)
  {
    hide KernelPart, Protocol, V;
    LockFlags(s);
    if Val(s.k, s.c.sem) >= 0 {
      UnlockPasses(s, r);
    } else {
      WaiterIsOther(s);
      UnlockWakes(s, r, s.k.sems[s.c.sem].head);
    }
    PlacesMatter(V(s.k, s.c.sem, r), s.c, s.fpc, s.cpc, np, nc);
  }

  lemma WaiterIsOther(s: Sys)
    requires Inv(s) && Good(s.k) && Val(s.k, s.c.sem) < 0
    requires s.k.curr == s.c.father || s.k.curr == s.c.child
    ensures s.c.child != NULL && Looping(s.cpc) && s.fpc != FAfter && s.fpc != FEnd
    ensures s.k.sems[s.c.sem].head == if s.k.curr == s.c.father then s.c.child else s.c.father
  {
  }

  lemma ForkKernel(s: Sys, r: Regs)
    requires Inv(s) && s.k.curr == s.c.father && s.fpc == FFork
    ensures Enabled(s.k, CallEvent(ForkCall, r)) && Child(s.k) == s.k.currPid
    ensures var m := After(s.k, CallEvent(ForkCall, r));
            m.sems == s.k.sems && KernelPart(m, s.c.(child := s.k.currPid), FTest, s.cpc)
  {
    hide Apply;
    ForkFacts(s.k, r);
    FirstNewIs(s.k);
  }

  /** The father calls wait: either the child runs on, or, if the child has gone past exit,
      nobody is READY and the call returns. */
  lemma FatherWaitsKernel(s: Sys, r: Regs)
    requires Inv(s) && s.k.curr == s.c.father && s.fpc == FWait
    ensures Enabled(s.k, CallEvent(WaitCall, r))
    ensures var m := After(s.k, CallEvent(WaitCall, r));
            KernelPart(m, s.c, FAfter, s.cpc) && m.sems == s.k.sems && m.currPid == s.k.currPid && |m.procs| == |s.k.procs|
  {
    hide Apply;
    WaitAny(s.k, r, WaitCall);
    if Looping(s.cpc) {
      assert s.k.procs[s.c.child].status == Ready;
    }
  }

  lemma FatherReturnsKernel(s: Sys, r: Regs)
    requires Inv(s) && s.k.curr == s.c.father && s.fpc == FAfter
    ensures Enabled(s.k, CallEvent(ReturnCall, r))
    ensures var m := After(s.k, CallEvent(ReturnCall, r));
            KernelPart(m, s.c, FEnd, s.cpc) && m.sems == s.k.sems && m.currPid == s.k.currPid && |m.procs| == |s.k.procs|
    ensures !Looping(s.cpc)
  {
    hide Apply;
    ReturnAny(s.k, r);
  }

  /** exit never takes the father off the semaphore queue: he is not in it then. */
  lemma ChildExitsKernel(s: Sys, r: Regs)
    requires Inv(s) && s.k.curr == s.c.child && s.c.child != NULL && s.cpc == CExit
    ensures Enabled(s.k, CallEvent(ExitCall, r))
    ensures !Waits(s.k, s.c.sem, s.c.father)
    ensures var m := After(s.k, CallEvent(ExitCall, r));
            KernelPart(m, s.c, s.fpc, CExited) && m.sems == s.k.sems && m.currPid == s.k.currPid && |m.procs| == |s.k.procs|
  {
    hide Apply;
    ExitAny(s.k, r, ExitCall);
  }

  /** A child that is still executing after exit goes on to call wait, and then never runs
      again. */
  lemma ChildWaitsKernel(s: Sys, r: Regs)
    requires Inv(s) && s.k.curr == s.c.child && s.c.child != NULL && s.cpc == CExited
    ensures Enabled(s.k, CallEvent(WaitCall, r))
    ensures var m := After(s.k, CallEvent(WaitCall, r));
            KernelPart(m, s.c, s.fpc, CWaited) && m.sems == s.k.sems && m.currPid == s.k.currPid && |m.procs| == |s.k.procs|
  {
    hide Apply;
    WaitAny(s.k, r, WaitCall);
    assert s.k.procs[s.c.father].status == Ready;
  }

  lemma TimerKernel(s: Sys, r: Regs)
    requires Inv(s)
    ensures Enabled(s.k, TimerEvent(r))
    ensures var m := After(s.k, TimerEvent(r));
            KernelPart(m, s.c, s.fpc, s.cpc) && m.sems == s.k.sems && m.currPid == s.k.currPid && |m.procs| == |s.k.procs|
  {
    hide Apply, ProtocolPart;
    TimerAny(s.k, r);
    if Executing(s.k) {
      TimerRuns(s.k, r);
    }
  }

  // ---------------------------------------------------------------- program steps

  lemma FatherKeeps(s: Sys, r: Regs)
    requires Inv(s) && s.k.curr == s.c.father
    ensures Inv(FatherStep(s, r))
  {
    hide KernelPart, P, V, After;
    KernelReads(s);
    match s.fpc
    case FFork => ForkKernel(s, r);
    case FLock => LockKernel(s, r, FLoad, s.cpc);
    case FUnlock => UnlockKernel(s, r, FNext, s.cpc);
    case FWait => FatherWaitsKernel(s, r);
    case FAfter => FatherReturnsKernel(s, r);
    case _ => FatherLocal(s, r);
  }

  lemma FatherLocal(s: Sys, r: Regs)
    requires Inv(s) && s.k.curr == s.c.father
    requires s.fpc.FTest? || s.fpc.FLoad? || s.fpc.FStore? || s.fpc.FPrint? || s.fpc.FNext? || s.fpc.FEnd?
    ensures Inv(FatherStep(s, r))
  {
    hide KernelPart;
    KernelReads(s);
    PlacesMatter(s.k, s.c, s.fpc, s.cpc, FatherStep(s, r).fpc, s.cpc);
  }

  lemma ChildKeeps(s: Sys, r: Regs)
    requires Inv(s) && s.k.curr == s.c.child && s.c.child != NULL
    ensures Inv(ChildStep(s, r))
  {
    hide KernelPart, P, V, After;
    KernelReads(s);
    match s.cpc
    case CLock => LockKernel(s, r, s.fpc, CLoad);
    case CUnlock => UnlockKernel(s, r, s.fpc, CNext);
    case CExit => ChildExitsKernel(s, r);
    case CExited => ChildWaitsKernel(s, r);
    case _ => ChildLocal(s, r);
  }

  lemma ChildLocal(s: Sys, r: Regs)
    requires Inv(s) && s.k.curr == s.c.child && s.c.child != NULL
    requires s.cpc.CTest? || s.cpc.CLoad? || s.cpc.CStore? || s.cpc.CPrint? || s.cpc.CNext?
    ensures Inv(ChildStep(s, r))
  {
    hide KernelPart;
    KernelReads(s);
    PlacesMatter(s.k, s.c, s.fpc, s.cpc, s.fpc, ChildStep(s, r).cpc);
  }

  lemma TimerKeeps(s: Sys, r: Regs)
    requires Inv(s)
    ensures Inv(s.(k := After(s.k, TimerEvent(r))))
  {
    hide KernelPart, After;
    TimerKernel(s, r);
  }

  lemma NextKeeps(s: Sys, timer: bool, r: Regs)
    requires Inv(s)
    ensures Inv(Next(s, timer, r))
  {
    hide Inv, FatherStep, ChildStep, After;
    KernelReads(s);
    if timer {
      TimerKeeps(s, r);
    } else if s.k.curr == s.c.father {
      FatherKeeps(s, r);
    } else if s.k.curr == s.c.child && s.c.child != NULL {
      ChildKeeps(s, r);
    }
  }

  // ---------------------------------------------------------------- results

  ghost predicate InCritical(s: Sys, x: int) {
    ((x == s.c.father && FatherIn(s.fpc)) || (x == s.c.child && ChildIn(s.cpc))) && !Waits(s.k, s.c.sem, x)
  }

  /** Mutual exclusion, the balance at every moment, and the outcome: when the father is back
      from wait, all deposits and withdrawals have been made and 1000 is left.  Until both
      loops are done one of the two is executing. */
  ghost predicate Safe(s: Sys) {
    && (s.c.child != NULL ==> !(InCritical(s, s.c.father) && InCritical(s, s.c.child)))
    && s.account == 1000 + 10 * s.deposits - 20 * s.withdrawals
    && ((s.k.curr == s.c.father && s.fpc == FAfter) || s.fpc == FEnd ==>
          s.deposits == DEPOSITS && s.withdrawals == WITHDRAWALS && s.account == 1000)
    && (Looping(s.cpc) ==> Executing(s.k) && (s.k.curr == s.c.father || s.k.curr == s.c.child))
    && (s.k.curr == s.c.child && s.c.child != NULL && s.cpc == CExit ==> !Waits(s.k, s.c.sem, s.c.father))
  }

  lemma InvSafe(s: Sys)
    requires Inv(s)
    ensures Safe(s)
  {
  }

  lemma {:induction false} EveryInterleaving(s: Sys, sched: seq<(bool, Regs)>)
    requires Start(s)
    ensures Inv(Exec(s, sched)) && Safe(Exec(s, sched))
  {
    hide Inv, Next, Safe, Start;
    if sched == [] {
      StartInv(s);
    } else {
      var n := |sched| - 1;
      EveryInterleaving(s, sched[..n]);
      NextKeeps(Exec(s, sched[..n]), sched[n].0, sched[n].1);
    }
    InvSafe(Exec(s, sched));
  }
}
