/** The unbounded producer/consumer of usr/pro-con.c on the kernel of Task and Semaphores, with
    every load and store of the shared total a step of its own. */
module ProCon {
  import opened Basics
  import opened Task
  import opened KernelRuns
  import opened SemaphoreQueues
  import opened KernelFacts

  /** The semaphore numbers of mutex and n, and the two slots; con is NULL before the fork. */
  datatype Cast = Cast(mutex: nat, n: nat, pro: nat, con: int)

  datatype ProPc = PFork | PLock | PLoad | PStore | PPrint | PUnlock | PSignal
  datatype ConPc = CWait | CLock | CLoad | CStore | CPrint | CUnlock

  /** produced and consumed count the stores to tot; shown lists the totals printed by the
      consumer. */
  datatype Sys = Sys(
    k: Kernel, c: Cast, ppc: ProPc, cpc: ConPc,
    tot: int, preg: int, creg: int,
    produced: nat, consumed: nat, shown: seq<int>)

  ghost function ProStep(s: Sys, r: Regs): Sys {
    match s.ppc
    case PFork => s.(k := After(s.k, CallEvent(ForkCall, r)), c := s.c.(con := Child(s.k)), ppc := PLock)
    case PLock => s.(k := P(s.k, s.c.mutex, r), ppc := PLoad)
    case PLoad => s.(preg := s.tot, ppc := PStore)
    case PStore => s.(tot := s.preg + 1, produced := s.produced + 1, ppc := PPrint)
    case PPrint => s.(ppc := PUnlock)
    case PUnlock => s.(k := V(s.k, s.c.mutex, r), ppc := PSignal)
    case PSignal => s.(k := V(s.k, s.c.n, r), ppc := PLock)
  }

  ghost function ConStep(s: Sys, r: Regs): Sys {
    match s.cpc
    case CWait => s.(k := P(s.k, s.c.n, r), cpc := CLock)
    case CLock => s.(k := P(s.k, s.c.mutex, r), cpc := CLoad)
    case CLoad => s.(creg := s.tot, cpc := CStore)
    case CStore => s.(tot := s.creg - 1, consumed := s.consumed + 1, cpc := CPrint)
    case CPrint => s.(shown := s.shown + [s.creg], cpc := CUnlock)
    case CUnlock => s.(k := V(s.k, s.c.mutex, r), cpc := CWait)
  }

  ghost function Next(s: Sys, timer: bool, r: Regs): Sys {
    if timer then s.(k := After(s.k, TimerEvent(r)))
    else if s.k.curr == s.c.pro then ProStep(s, r)
    else if s.k.curr == s.c.con then ConStep(s, r)
    else s
  }

  ghost function Exec(s: Sys, sched: seq<(bool, Regs)>): Sys {
    if sched == [] then s
    else
      var n := |sched| - 1;
      Next(Exec(s, sched[..n]), sched[n].0, sched[n].1)
  }

  // ---------------------------------------------------------------- the invariant

  ghost predicate KernelPart(k: Kernel, c: Cast) {
    && Good(k) && c.mutex < |k.sems| && c.n < |k.sems| && c.mutex != c.n
    && (forall i :: 0 <= i < |k.procs| && i != c.pro && i != c.con ==> !Runnable(k.procs[i].status))
    && c.con >= NULL && c.con != c.pro
    && Link(k, c.n, c.con)
    && (Link(k, c.mutex, c.pro) || Link(k, c.mutex, c.con))
    && Sound(k, c.pro, Waits(k, c.mutex, c.pro))
    && (c.con != NULL ==> Sound(k, c.con, Waits(k, c.mutex, c.con) || Val(k, c.n) < 0))
  }

  /** P(mutex) has been called, V(mutex) has not. */
  predicate ProIn(p: ProPc) {
    p.PLoad? || p.PStore? || p.PPrint? || p.PUnlock?
  }

  predicate ConIn(p: ConPc) {
    p.CLoad? || p.CStore? || p.CPrint? || p.CUnlock?
  }

  /** An item was produced but not yet signalled. */
  predicate Unsignalled(p: ProPc) {
    p.PPrint? || p.PUnlock? || p.PSignal?
  }

  /** P(n) has been called, the item is not consumed yet. */
  predicate Claimed(p: ConPc) {
    p.CLock? || p.CLoad? || p.CStore?
  }

  /** What holds of the program when mutex and n have the values m and n and, if m is
      negative, h is the process waiting for mutex. */
  predicate Protocol(s: Sys, m: int, h: int, n: int, room: int) {
    && m + Bit(ProIn(s.ppc)) + Bit(ConIn(s.cpc)) == 1
    && n + Bit(Unsignalled(s.ppc)) + Bit(Claimed(s.cpc)) == s.produced - s.consumed
    && (m < 0 ==> (h == s.c.pro && s.ppc == PLoad) || (h == s.c.con && s.cpc == CLoad))
    && (n < 0 ==> s.cpc == CLock)
    && s.tot == s.produced - s.consumed
    && (s.ppc == PStore ==> s.preg == s.tot)
    && (s.cpc == CStore ==> s.creg == s.tot)
    && (s.cpc == CStore || s.cpc == CPrint ==> s.creg >= 1)
    && (s.c.con == NULL <==> s.ppc == PFork)
    && (s.ppc == PFork ==> s.cpc == CWait && room >= 1 && n == 0 && m == 1)
    && (forall i :: 0 <= i < |s.shown| ==> s.shown[i] >= 1)
  }

  ghost predicate ProtocolPart(s: Sys) {
    && s.c.mutex < |s.k.sems|
    && Protocol(s, Val(s.k, s.c.mutex), s.k.sems[s.c.mutex].head, Val(s.k, s.c.n), |s.k.procs| - s.k.currPid)
  }

  ghost predicate Inv(s: Sys) {
    KernelPart(s.k, s.c) && ProtocolPart(s)
  }

  /** The state in which main reaches fork: mutex is 1, n is 0, one slot of the table is free
      and nobody else can run. */
  ghost predicate Start(s: Sys) {
    && Good(s.k) && s.c.mutex < |s.k.sems| && s.c.n < |s.k.sems| && s.c.mutex != s.c.n
    && s.k.sems[s.c.mutex].val == 1 && s.k.sems[s.c.n].val == 0
    && s.k.sems[s.c.mutex].head == NULL && s.k.sems[s.c.n].head == NULL
    && s.c.pro == s.k.curr && s.c.con == NULL && s.k.currPid < |s.k.procs|
    && (forall i :: 0 <= i < |s.k.procs| && i != s.c.pro ==> !Runnable(s.k.procs[i].status))
    && s.ppc == PFork && s.cpc == CWait && s.tot == 0 && s.produced == 0 && s.consumed == 0 && s.shown == []
  }

  lemma StartInv(s: Sys)
    requires Start(s)
    ensures Inv(s)
  {
  }

  // ---------------------------------------------------------------- kernel steps

  /** The facts about the kernel the program steps need. */
  lemma KernelReads(s: Sys)
    requires KernelPart(s.k, s.c)
    ensures s.c.mutex < |s.k.sems| && s.c.n < |s.k.sems| && s.c.mutex != s.c.n
    ensures Val(s.k, s.c.mutex) >= -1 && Val(s.k, s.c.n) >= -1
    ensures s.k.curr == s.c.pro || s.k.curr == s.c.con
    ensures s.k.curr != NULL && s.c.pro != s.c.con && Slot(s.k, s.c.pro) && (s.c.con != NULL ==> Slot(s.k, s.c.con))
    ensures s.k.curr == s.c.pro ==> !Waits(s.k, s.c.mutex, s.c.pro)
    ensures s.k.curr == s.c.con ==> !Waits(s.k, s.c.mutex, s.c.con) && Val(s.k, s.c.n) >= 0
    ensures !Waits(s.k, s.c.mutex, s.c.pro) ==> Runnable(StatusOf(s.k, s.c.pro))
    ensures s.c.con != NULL && !Waits(s.k, s.c.mutex, s.c.con) && Val(s.k, s.c.n) >= 0 ==>
              Runnable(StatusOf(s.k, s.c.con))
  {
  }

  lemma ReadyOther(k: Kernel, c: Cast, y: int)
    requires KernelPart(k, c) && Slot(k, y) && y != k.curr && Runnable(k.procs[y].status)
    ensures OtherReady(k)
  {
    assert k.procs[y].status == Ready;
  }

  /** What an operation on the mutex does to the kernel part: d is added to its counter. */
  ghost predicate MutexStep(k: Kernel, m: Kernel, c: Cast, d: int) {
    && KernelPart(m, c) && Val(m, c.mutex) == Val(k, c.mutex) + d && Val(m, c.n) == Val(k, c.n)
    && m.currPid == k.currPid && |m.procs| == |k.procs| && |m.sems| == |k.sems|
  }

  lemma LockPasses(k: Kernel, c: Cast, r: Regs)
    requires KernelPart(k, c) && Val(k, c.mutex) > 0
    ensures Enabled(k, CallEvent(PCall(c.mutex), r)) && MutexStep(k, P(k, c.mutex, r), c, -1)
    ensures Val(P(k, c.mutex, r), c.mutex) >= 0
  {
    hide Apply;
    PPasses(k, c.mutex, r);
  }

  lemma LockBlocks(k: Kernel, c: Cast, r: Regs)
    requires KernelPart(k, c) && Val(k, c.mutex) == 0 && OtherReady(k)
    ensures Enabled(k, CallEvent(PCall(c.mutex), r)) && MutexStep(k, P(k, c.mutex, r), c, -1)
    ensures P(k, c.mutex, r).sems[c.mutex].head == k.curr
  {
    hide Apply, OtherReady;
    PBlocksCaller(k, c.mutex, r);
  }

  /** P on the mutex by either process; y is the other one. */
  lemma LockKernel(k: Kernel, c: Cast, r: Regs, y: int)
    requires KernelPart(k, c) && Val(k, c.mutex) >= 0
    requires Val(k, c.mutex) == 0 ==> Slot(k, y) && y != k.curr && Runnable(k.procs[y].status)
    ensures Enabled(k, CallEvent(PCall(c.mutex), r)) && MutexStep(k, P(k, c.mutex, r), c, -1)
    ensures var m := P(k, c.mutex, r);
            c.mutex < |m.sems| && (Val(m, c.mutex) < 0 ==> m.sems[c.mutex].head == k.curr)
  {
    hide P, KernelPart;
    if Val(k, c.mutex) > 0 {
      LockPasses(k, c, r);
    } else {
      ReadyOther(k, c, y);
      LockBlocks(k, c, r);
    }
  }

  /** P on n, by the consumer. */
  lemma ClaimKernel(k: Kernel, c: Cast, r: Regs)
    requires KernelPart(k, c) && Val(k, c.n) >= 0 && k.curr == c.con
    requires Val(k, c.n) == 0 ==> Runnable(StatusOf(k, c.pro))
    ensures Enabled(k, CallEvent(PCall(c.n), r))
    ensures var m := P(k, c.n, r);
            && KernelPart(m, c) && Val(m, c.n) == Val(k, c.n) - 1
            && Val(m, c.mutex) == Val(k, c.mutex) && m.sems[c.mutex].head == k.sems[c.mutex].head
            && m.currPid == k.currPid && |m.procs| == |k.procs| && |m.sems| == |k.sems|
  {
    hide Apply;
    if Val(k, c.n) > 0 {
      PPasses(k, c.n, r);
    } else {
      ReadyOther(k, c, c.pro);
      PBlocksCaller(k, c.n, r);
    }
  }

  lemma UnlockPasses(k: Kernel, c: Cast, r: Regs)
    requires KernelPart(k, c) && Val(k, c.mutex) >= 0
    ensures Enabled(k, CallEvent(VCall(c.mutex), r)) && MutexStep(k, V(k, c.mutex, r), c, 1)
  {
    hide Apply;
    VPasses(k, c.mutex, r);
  }

  lemma UnlockWakes(k: Kernel, c: Cast, r: Regs, x: nat)
    requires KernelPart(k, c) && Waits(k, c.mutex, x) && x != k.curr && (x == c.pro || x == c.con)
    requires x == c.con ==> Val(k, c.n) >= 0
    ensures Enabled(k, CallEvent(VCall(c.mutex), r)) && MutexStep(k, V(k, c.mutex, r), c, 1)
  {
    hide Apply;
    VWakesWaiter(k, c.mutex, r, x);
  }

  lemma UnlockKernel(k: Kernel, c: Cast, r: Regs)
    requires KernelPart(k, c) && !Waits(k, c.mutex, k.curr)
    requires Waits(k, c.mutex, c.con) ==> Val(k, c.n) >= 0 && c.con != NULL
    ensures Enabled(k, CallEvent(VCall(c.mutex), r)) && MutexStep(k, V(k, c.mutex, r), c, 1)
  {
    hide V, MutexStep;
    if Val(k, c.mutex) >= 0 {
      UnlockPasses(k, c, r);
    } else {
      UnlockWakes(k, c, r, k.sems[c.mutex].head);
    }
  }

  lemma SignalKernel(k: Kernel, c: Cast, r: Regs)
    requires KernelPart(k, c) && k.curr == c.pro && c.con != NULL
    requires Val(k, c.n) < 0 ==> !Waits(k, c.mutex, c.con)
    ensures Enabled(k, CallEvent(VCall(c.n), r))
    ensures var m := V(k, c.n, r);
            && KernelPart(m, c) && Val(m, c.n) == Val(k, c.n) + 1
            && Val(m, c.mutex) == Val(k, c.mutex) && m.sems[c.mutex].head == k.sems[c.mutex].head
            && m.currPid == k.currPid && |m.procs| == |k.procs| && |m.sems| == |k.sems|
  {
    hide Apply;
    if Val(k, c.n) >= 0 {
      VPasses(k, c.n, r);
    } else {
      VWakesWaiter(k, c.n, r, c.con);
    }
  }

  lemma ForkKernel(k: Kernel, c: Cast, r: Regs)
    requires KernelPart(k, c) && c.con == NULL && k.currPid < |k.procs| && Val(k, c.mutex) == 1 && Val(k, c.n) == 0
    ensures Enabled(k, CallEvent(ForkCall, r)) && Child(k) == k.currPid
    ensures var m := After(k, CallEvent(ForkCall, r)); m.sems == k.sems && KernelPart(m, c.(con := k.currPid))
  {
    hide Apply;
    ForkFacts(k, r);
    FirstNewIs(k);
  }

  lemma TimerKernel(k: Kernel, c: Cast, r: Regs)
    requires KernelPart(k, c)
    ensures Enabled(k, TimerEvent(r))
    ensures var m := After(k, TimerEvent(r));
            KernelPart(m, c) && m.sems == k.sems && m.currPid == k.currPid && |m.procs| == |k.procs|
  {
    hide Apply;
    TimerFacts(k, r);
  }

  // ---------------------------------------------------------------- program steps

  lemma ProKeeps(s: Sys, r: Regs)
    requires Inv(s) && s.k.curr == s.c.pro
    ensures Inv(ProStep(s, r))
  {
    hide KernelPart, P, V, After;
    KernelReads(s);
    match s.ppc
    case PFork => ForkKernel(s.k, s.c, r);
    case PLock => LockKernel(s.k, s.c, r, s.c.con);
    case PUnlock => UnlockKernel(s.k, s.c, r);
    case PSignal => SignalKernel(s.k, s.c, r);
    case _ =>
  }

  lemma ConKeeps(s: Sys, r: Regs)
    requires Inv(s) && s.k.curr == s.c.con
    ensures Inv(ConStep(s, r))
  {
    hide KernelPart, P, V;
    KernelReads(s);
    match s.cpc
    case CWait => ClaimKernel(s.k, s.c, r);
    case CLock => LockKernel(s.k, s.c, r, s.c.pro);
    case CUnlock => UnlockKernel(s.k, s.c, r);
    case _ =>
  }

  lemma TimerKeeps(s: Sys, r: Regs)
    requires Inv(s)
    ensures Inv(s.(k := After(s.k, TimerEvent(r))))
  {
    hide KernelPart, After;
    TimerKernel(s.k, s.c, r);
  }

  lemma NextKeeps(s: Sys, timer: bool, r: Regs)
    requires Inv(s)
    ensures Inv(Next(s, timer, r))
  {
    hide KernelPart, ProtocolPart, ProStep, ConStep, After;
    KernelReads(s);
    if timer {
      TimerKeeps(s, r);
    } else if s.k.curr == s.c.pro {
      ProKeeps(s, r);
    } else {
      ConKeeps(s, r);
    }
  }

  // ---------------------------------------------------------------- results

  /** x is between a completed P(mutex) and the matching V(mutex). */
  ghost predicate InCritical(s: Sys, x: int) {
    ((x == s.c.pro && ProIn(s.ppc)) || (x == s.c.con && ConIn(s.cpc))) && !Waits(s.k, s.c.mutex, x)
  }

  /** Mutual exclusion; the total is the number of items produced and not consumed, never
      negative, and at least one when an item is taken; and one of the two is executing, so
      that they never wait for each other and no P ever falls through. */
  ghost predicate Safe(s: Sys) {
    && !(InCritical(s, s.c.pro) && InCritical(s, s.c.con))
    && s.tot == s.produced - s.consumed >= 0
    && (s.k.curr == s.c.con && (s.cpc == CLoad || s.cpc == CStore) ==> s.tot >= 1)
    && (forall i :: 0 <= i < |s.shown| ==> s.shown[i] >= 1)
    && Executing(s.k) && (s.k.curr == s.c.pro || s.k.curr == s.c.con)
  }

  lemma InvSafe(s: Sys)
    requires Inv(s)
    ensures Safe(s)
  {
    KernelReads(s);
  }

  lemma {:induction false} EveryInterleaving(s: Sys, sched: seq<(bool, Regs)>)
    requires Start(s)
    ensures Inv(Exec(s, sched)) && Safe(Exec(s, sched))
  {
    hide Inv, Next, Safe, Start;
    if sched == [] {
      StartInv(s);
    } else {
      var n := |sched| - 1;
      EveryInterleaving(s, sched[..n]);
      NextKeeps(Exec(s, sched[..n]), sched[n].0, sched[n].1);
    }
    InvSafe(Exec(s, sched));
  }
}
