/** The threaded matrix product of usr/matmal.c over the create, join and exit calls of
    include/systhread.h, for any matrix size and any number of threads that fit the process
    table. */
module MatMul {
  import opened Basics
  import opened Arithmetic
  import opened Task
  import opened KernelRuns
  import opened SemaphoreQueues
  import opened KernelFacts

  type Matrix = seq<seq<int>>

  /** The size of the matrices, the number of threads, and the two factors. */
  datatype Job = Job(size: nat, threads: nat, a: Matrix, b: Matrix)

  predicate Square(m: Matrix, n: nat) {
    |m| == n && forall i :: 0 <= i < n ==> |m[i]| == n
  }

  predicate JobOk(d: Job) {
    d.size > 0 && d.threads > 0 && Square(d.a, d.size) && Square(d.b, d.size)
  }

  /** PCreate(i): i threads have been created.  PJoin(j): join has been called j times. */
  datatype ParentPc = PCreate(i: nat) | PJoin(j: nat)

  /** A thread at the loop indices i, j, k; += is a load, then a store.  TExited: the exit call
      has been made and may return; TGone: system call 100 as well. */
  datatype ThreadPc = TLoad(i: nat, j: nat, k: nat) | TStore(i: nat, j: nat, k: nat, reg: int) | TExit | TExited | TGone

  /** Thread t runs in slot base + t; its argument is t. */
  datatype Sys = Sys(k: Kernel, parent: nat, base: nat, ppc: ParentPc, pcs: seq<ThreadPc>, c: Matrix)

  /** The first row of thread t, which is also the end of the rows of thread t - 1. */
  function Row(d: Job, t: nat): nat
    requires JobOk(d)
  {
    t * d.size / d.threads
  }

  /** Where thread t goes after its innermost statement at i, j, k, and where it starts. */
  function Onward(d: Job, t: nat, i: nat, j: nat, k: nat): ThreadPc
    requires JobOk(d)
  {
    if k < d.size && j < d.size && i < Row(d, t + 1) then TLoad(i, j, k)
    else if k >= d.size && j + 1 < d.size && i < Row(d, t + 1) then TLoad(i, j + 1, 0)
    else if k >= d.size && j + 1 >= d.size && i + 1 < Row(d, t + 1) then TLoad(i + 1, 0, 0)
    else TExit
  }

  function Product(d: Job, i: nat, j: nat, k: nat): int
    requires JobOk(d) && i < d.size && j < d.size && k < d.size
  {
    d.a[i][k] * d.b[k][j]
  }

  ghost function ParentStep(s: Sys, d: Job, func: nat, r: Regs): Sys
    requires JobOk(d)
  {
    match s.ppc
    case PCreate(i) =>
      if i < d.threads then
        s.(k := After(s.k, CallEvent(ThreadCreateCall(func), r)), ppc := PCreate(i + 1),
           pcs := s.pcs + [Onward(d, i, Row(d, i), 0, 0)])
      else s.(ppc := PJoin(0))
    case PJoin(j) =>
      if j < d.threads then s.(k := After(s.k, CallEvent(JoinCall, r)), ppc := PJoin(j + 1)) else s
  }

  predicate CellOk(d: Job, i: nat, j: nat, k: nat) {
    i < d.size && j < d.size && k < d.size
  }

  ghost function ThreadStep(s: Sys, d: Job, t: nat, r: Regs): Sys
    requires JobOk(d) && t < |s.pcs| && Square(s.c, d.size)
  {
    match s.pcs[t]
    case TLoad(i, j, k) =>
      if CellOk(d, i, j, k) then s.(pcs := s.pcs[t := TStore(i, j, k, s.c[i][j])]) else s
    case TStore(i, j, k, reg) =>
      if CellOk(d, i, j, k) then
        s.(c := s.c[i := s.c[i][j := reg + Product(d, i, j, k)]], pcs := s.pcs[t := Onward(d, t, i, j, k + 1)])
      else s
    case TExit => s.(k := After(s.k, CallEvent(ThreadExitCall, r)), pcs := s.pcs[t := TExited])
    case TExited => s.(k := After(s.k, CallEvent(ReturnCall, r)), pcs := s.pcs[t := TGone])
    case TGone => s
  }

  /** While the shell has the processor (curr is NULL) only a timer interrupt does anything. */
  ghost function Next(s: Sys, d: Job, func: nat, timer: bool, r: Regs): Sys
    requires JobOk(d)
  {
    if timer then s.(k := After(s.k, TimerEvent(r)))
    else if s.k.curr == s.parent then ParentStep(s, d, func, r)
    else if s.base <= s.k.curr < s.base + |s.pcs| && Square(s.c, d.size) then ThreadStep(s, d, s.k.curr - s.base, r)
    else s
  }

  ghost function Exec(s: Sys, d: Job, func: nat, sched: seq<(bool, Regs)>): Sys
    requires JobOk(d)
  {
    if sched == [] then s
    else
      var n := |sched| - 1;
      Next(Exec(s, d, func, sched[..n]), d, func, sched[n].0, sched[n].1)
  }

  // ---------------------------------------------------------------- create and join

  /** The thread has called exit. */
  predicate Past(p: ThreadPc) {
    p.TExited? || p.TGone?
  }

  function Finished(pcs: seq<ThreadPc>): nat {
    if pcs == [] then 0 else Finished(pcs[..|pcs|-1]) + Bit(Past(pcs[|pcs|-1]))
  }

  lemma FinishedUpdate(pcs: seq<ThreadPc>, t: nat, p: ThreadPc)
    requires t < |pcs|
    ensures Finished(pcs[t := p]) == Finished(pcs) - Bit(Past(pcs[t])) + Bit(Past(p))
  {
    var n := |pcs| - 1;
    if t < n {
      FinishedUpdate(pcs[..n], t, p);
      assert pcs[t := p][..n] == pcs[..n][t := p];
    } else {
      assert pcs[t := p][..n] == pcs[..n];
    }
  }

  lemma FinishedAll(pcs: seq<ThreadPc>)
    ensures Finished(pcs) <= |pcs|
    ensures Finished(pcs) == |pcs| <==> forall t :: 0 <= t < |pcs| ==> Past(pcs[t])
  {
    if pcs != [] {
      var n := |pcs| - 1;
      FinishedAll(pcs[..n]);
      assert (forall t :: 0 <= t < n ==> Past(pcs[t])) ==> forall t :: 0 <= t < n ==> Past(pcs[..n][t]);
      assert (forall t :: 0 <= t < n ==> Past(pcs[..n][t])) ==> forall t :: 0 <= t < n ==> Past(pcs[t]) by {
        assert forall t :: 0 <= t < n ==> pcs[..n][t] == pcs[t];
      }
    }
  }

  /** The parent sleeps in a join. */
  ghost predicate Asleep(s: Sys) {
    StatusOf(s.k, s.parent) == Waiting && s.k.curr != s.parent
  }

  ghost predicate Slots(s: Sys, d: Job) {
    && TableOk(s.k) && Unlinked(s.k)
    && s.parent < s.base && s.k.currPid == s.base + |s.pcs| && s.base + d.threads <= |s.k.procs|
    && |s.pcs| <= d.threads
    && (forall i :: 0 <= i < |s.k.procs| && i != s.parent && !(s.base <= i < s.k.currPid) ==>
          !Runnable(s.k.procs[i].status))
    && (forall i :: s.base <= i < s.k.currPid ==>
          && s.k.procs[i].parent == s.parent
          && (if Past(s.pcs[i - s.base]) then s.k.procs[i].status == Terminated else Runnable(s.k.procs[i].status)))
  }

  /** Who has the processor: the parent; a thread that is alive; a thread that has exited but
      was not switched away from; or the shell, after such a thread returned to it. */
  ghost predicate Processor(s: Sys) {
    && (s.k.curr == NULL || s.k.curr == s.parent || s.base <= s.k.curr < s.k.currPid)
    && (s.k.curr != s.parent ==>
          Asleep(s) || Runnable(StatusOf(s.k, s.parent)))
    && (Asleep(s) ==> Executing(s.k))
    && (s.base <= s.k.curr < s.base + |s.pcs| && !Past(s.pcs[s.k.curr - s.base]) ==> Executing(s.k))
    && (s.base <= s.k.curr < s.base + |s.pcs| ==> s.pcs[s.k.curr - s.base] != TGone)
    && (s.k.curr == s.parent ==> Executing(s.k) || (StatusOf(s.k, s.parent) == Waiting && Finished(s.pcs) == |s.pcs|))
  }

  /** Every join that has returned is paid for by a thread that has exited. */
  ghost predicate Joins(s: Sys, d: Job) {
    match s.ppc
    case PCreate(i) =>
      i == |s.pcs| <= d.threads && StatusOf(s.k, s.parent) != Waiting
    case PJoin(j) =>
      && |s.pcs| == d.threads && j <= d.threads
      && Finished(s.pcs) + Bit(Asleep(s)) >= j
  }

  ghost predicate KernelPart(s: Sys, d: Job) {
    Slots(s, d) && Processor(s) && Joins(s, d)
  }

  lemma TimerKernel(s: Sys, d: Job, r: Regs)
    requires JobOk(d) && KernelPart(s, d)
    ensures Enabled(s.k, TimerEvent(r)) && KernelPart(s.(k := After(s.k, TimerEvent(r))), d)
  {
    hide Apply, Finished;
    TimerAny(s.k, r);
    FinishedAll(s.pcs);
    if Executing(s.k) {
      TimerRuns(s.k, r);
    }
  }

  lemma CreateKernel(s: Sys, d: Job, func: nat, r: Regs)
    requires JobOk(d) && KernelPart(s, d) && s.k.curr == s.parent && s.ppc.PCreate? && s.ppc.i < d.threads
    ensures Enabled(s.k, CallEvent(ThreadCreateCall(func), r))
    ensures KernelPart(ParentStep(s, d, func, r), d)
  {
    hide Apply, Onward, Row;
    ThreadFacts(s.k, func, r);
    var p := Onward(d, s.ppc.i, Row(d, s.ppc.i), 0, 0);
    assert !Past(p) by { OnwardAlive(d, s.ppc.i, Row(d, s.ppc.i), 0, 0); }
    assert (s.pcs + [p])[..|s.pcs|] == s.pcs;
  }

  lemma OnwardAlive(d: Job, t: nat, i: nat, j: nat, k: nat)
    requires JobOk(d)
    ensures !Past(Onward(d, t, i, j, k))
  {
  }

  lemma JoinKernel(s: Sys, d: Job, func: nat, r: Regs)
    requires JobOk(d) && KernelPart(s, d) && s.k.curr == s.parent && s.ppc.PJoin? && s.ppc.j < d.threads
    ensures Enabled(s.k, CallEvent(JoinCall, r))
    ensures KernelPart(ParentStep(s, d, func, r), d)
  {
    hide Apply, Finished;
    WaitAny(s.k, r, JoinCall);
    FinishedAll(s.pcs);
    if !ReadyBesides(s.k, s.k.curr) {
      forall t | 0 <= t < |s.pcs| ensures Past(s.pcs[t]) {
        assert s.k.procs[s.base + t].status != Ready;
      }
    }
  }

  lemma ExitKernel(s: Sys, d: Job, t: nat, r: Regs)
    requires JobOk(d) && KernelPart(s, d) && t < |s.pcs| && s.k.curr == s.base + t && s.pcs[t] == TExit
    requires Square(s.c, d.size)
    ensures Enabled(s.k, CallEvent(ThreadExitCall, r))
    ensures KernelPart(ThreadStep(s, d, t, r), d)
  {
    hide Apply, Finished;
    ExitAny(s.k, r, ThreadExitCall);
    FinishedUpdate(s.pcs, t, TExited);
  }

  lemma ReturnKernel(s: Sys, d: Job, t: nat, r: Regs)
    requires JobOk(d) && KernelPart(s, d) && t < |s.pcs| && s.k.curr == s.base + t && s.pcs[t] == TExited
    requires Square(s.c, d.size)
    ensures Enabled(s.k, CallEvent(ReturnCall, r))
    ensures KernelPart(ThreadStep(s, d, t, r), d)
  {
    hide Apply, Finished;
    ReturnAny(s.k, r);
    FinishedUpdate(s.pcs, t, TGone);
  }

  lemma ComputeKernel(s: Sys, d: Job, t: nat, p: ThreadPc, c: Matrix)
    requires JobOk(d) && KernelPart(s, d) && t < |s.pcs| && !Past(s.pcs[t]) && !Past(p)
    ensures KernelPart(s.(c := c, pcs := s.pcs[t := p]), d)
  {
    hide Finished;
    FinishedUpdate(s.pcs, t, p);
  }

  // ---------------------------------------------------------------- the product

  /** The sum the three loops are to leave in row i, column j, cut off after n terms. */
  function Partial(d: Job, i: nat, j: nat, n: nat): int
    requires JobOk(d) && i < d.size && j < d.size && n <= d.size
  {
    if n == 0 then 0 else Partial(d, i, j, n - 1) + Product(d, i, j, n - 1)
  }

  /** How many terms a thread at p has added to the cell i, j of its own rows. */
  function Done(d: Job, p: ThreadPc, i: nat, j: nat): nat {
    match p
    case TLoad(x, y, z) => if i < x || (i == x && j < y) then d.size else if i == x && j == y then z else 0
    case TStore(x, y, z, reg) => if i < x || (i == x && j < y) then d.size else if i == x && j == y then z else 0
    case _ => d.size
  }

  /** Row i belongs to thread t. */
  predicate Owns(d: Job, t: nat, i: nat)
    requires JobOk(d)
  {
    Row(d, t) <= i < Row(d, t + 1)
  }

  predicate PlaceOk(d: Job, t: nat, p: ThreadPc)
    requires JobOk(d)
  {
    match p
    case TLoad(i, j, k) => CellOk(d, i, j, k) && Owns(d, t, i)
    case TStore(i, j, k, reg) => CellOk(d, i, j, k) && Owns(d, t, i)
    case _ => true
  }

  ghost predicate Places(d: Job, pcs: seq<ThreadPc>)
    requires JobOk(d)
  {
    |pcs| <= d.threads && forall t :: 0 <= t < |pcs| ==> PlaceOk(d, t, pcs[t])
  }

  /** A loaded value is still what its cell holds. */
  ghost predicate Current(d: Job, c: Matrix, pcs: seq<ThreadPc>)
    requires JobOk(d) && Square(c, d.size) && Places(d, pcs)
  {
    forall t :: 0 <= t < |pcs| ==> PlaceOk(d, t, pcs[t]) && (pcs[t].TStore? ==> pcs[t].reg == c[pcs[t].i][pcs[t].j])
  }

  ghost predicate AddedAt(d: Job, c: Matrix, t: nat, p: ThreadPc, i: nat, j: nat)
    requires JobOk(d) && Square(c, d.size) && i < d.size && j < d.size
  {
    Owns(d, t, i) ==> Done(d, p, i, j) <= d.size && c[i][j] == Partial(d, i, j, Done(d, p, i, j))
  }

  /** Each cell holds the terms its owner has added. */
  ghost predicate Added(d: Job, c: Matrix, pcs: seq<ThreadPc>)
    requires JobOk(d) && Square(c, d.size)
  {
    && (forall t, i, j :: 0 <= t < |pcs| && 0 <= i < d.size && 0 <= j < d.size ==> AddedAt(d, c, t, pcs[t], i, j))
    && (forall i, j :: Row(d, |pcs|) <= i < d.size && 0 <= j < d.size ==> c[i][j] == 0)
  }

  ghost predicate DataPart(d: Job, c: Matrix, pcs: seq<ThreadPc>)
    requires JobOk(d)
  {
    Square(c, d.size) && Places(d, pcs) && Current(d, c, pcs) && Added(d, c, pcs)
  }

  ghost predicate Inv(s: Sys, d: Job) {
    JobOk(d) && KernelPart(s, d) && DataPart(d, s.c, s.pcs)
  }

  lemma RowsOrdered(d: Job, t: nat, u: nat)
    requires JobOk(d) && t <= u
    ensures Row(d, t) <= Row(d, u)
    ensures Row(d, 0) == 0 && Row(d, d.threads) == d.size
  {
    assert u * d.size == t * d.size + (u - t) * d.size;
    QuotientsOrdered(t * d.size, u * d.size, d.threads);
    QuotRem(d.threads * d.size, d.threads, d.size, 0);
  }

  /** The range of thread t starts at t * size / threads, rounded down. */
  lemma RowIsQuotient(d: Job, t: nat)
    requires JobOk(d)
    ensures Row(d, t) * d.threads <= t * d.size < (Row(d, t) + 1) * d.threads
  {
    var x := t * d.size;
    assert x == x / d.threads * d.threads + x % d.threads;
  }

  /** The ranges partition the rows: every row has an owner among the threads, and only one. */
  lemma {:induction false} RowsPartition(d: Job, i: nat, u: nat)
    requires JobOk(d) && i < Row(d, u)
    ensures exists t :: 0 <= t < u && Owns(d, t, i) && forall v :: 0 <= v < u && Owns(d, v, i) ==> v == t
  {
    hide Row;
    RowsOrdered(d, 0, u);
    if u > 0 && i < Row(d, u - 1) {
      RowsPartition(d, i, u - 1);
    } else {
      assert Owns(d, u - 1, i);
      forall v: nat | v < u && Owns(d, v, i) ensures v == u - 1 {
        if v < u - 1 {
          RowsOrdered(d, v + 1, u - 1);
        }
      }
    }
  }

  lemma OneOwner(d: Job, t: nat, u: nat, i: nat)
    requires JobOk(d) && Owns(d, t, i) && Owns(d, u, i)
    ensures t == u
  {
    hide Row;
    if t < u {
      RowsOrdered(d, t + 1, u);
    } else if u < t {
      RowsOrdered(d, u + 1, t);
    }
  }

  /** One more term for the current cell, none for the others. */
  lemma OnwardDone(d: Job, t: nat, p: ThreadPc, i: nat, j: nat)
    requires JobOk(d) && p.TStore? && PlaceOk(d, t, p) && t < d.threads
    requires Owns(d, t, i) && i < d.size && j < d.size
    ensures Done(d, Onward(d, t, p.i, p.j, p.k + 1), i, j) == Done(d, p, i, j) + Bit(i == p.i && j == p.j)
  {
    hide Row;
  }

  lemma OnwardPlace(d: Job, t: nat, i: nat, j: nat, k: nat)
    requires JobOk(d) && t < d.threads && Row(d, t) <= i && (k < d.size ==> j < d.size)
    ensures PlaceOk(d, t, Onward(d, t, i, j, k)) && !Onward(d, t, i, j, k).TStore?
  {
    RowsOrdered(d, t + 1, d.threads);
    hide Row;
  }

  lemma CreateData(d: Job, c: Matrix, pcs: seq<ThreadPc>)
    requires JobOk(d) && DataPart(d, c, pcs) && |pcs| < d.threads
    ensures DataPart(d, c, pcs + [Onward(d, |pcs|, Row(d, |pcs|), 0, 0)])
  {
    hide Row;
    var t := |pcs|;
    OnwardPlace(d, t, Row(d, t), 0, 0);
    RowsOrdered(d, t, t + 1);
    RowsOrdered(d, t + 1, d.threads);
    var p := Onward(d, t, Row(d, t), 0, 0);
    var qcs := pcs + [p];
    forall u: nat, i: nat, j: nat | u < |qcs| && i < d.size && j < d.size ensures AddedAt(d, c, u, qcs[u], i, j) {
      if u < t {
        assert AddedAt(d, c, u, pcs[u], i, j);
      }
    }
  }

  lemma LoadData(d: Job, c: Matrix, pcs: seq<ThreadPc>, t: nat)
    requires JobOk(d) && DataPart(d, c, pcs) && t < |pcs| && pcs[t].TLoad?
    ensures var p := pcs[t];
            CellOk(d, p.i, p.j, p.k) && DataPart(d, c, pcs[t := TStore(p.i, p.j, p.k, c[p.i][p.j])])
  {
    hide Row, Partial;
    var p := pcs[t];
    assert PlaceOk(d, t, p);
    var qcs := pcs[t := TStore(p.i, p.j, p.k, c[p.i][p.j])];
    forall u: nat, i: nat, j: nat | u < |qcs| && i < d.size && j < d.size ensures AddedAt(d, c, u, qcs[u], i, j) {
      assert AddedAt(d, c, u, pcs[u], i, j);
    }
  }

  lemma StoreData(d: Job, c: Matrix, pcs: seq<ThreadPc>, t: nat)
    requires JobOk(d) && DataPart(d, c, pcs) && t < |pcs| && pcs[t].TStore?
    ensures var p := pcs[t];
            && CellOk(d, p.i, p.j, p.k)
            && DataPart(d, c[p.i := c[p.i][p.j := p.reg + Product(d, p.i, p.j, p.k)]],
                        pcs[t := Onward(d, t, p.i, p.j, p.k + 1)])
  {
    hide Row, Product, Onward;
    var p := pcs[t];
    assert PlaceOk(d, t, p);
    var e := c[p.i := c[p.i][p.j := p.reg + Product(d, p.i, p.j, p.k)]];
    var qcs := pcs[t := Onward(d, t, p.i, p.j, p.k + 1)];
    OnwardPlace(d, t, p.i, p.j, p.k + 1);
    RowsOrdered(d, t + 1, |pcs|);
    forall u | 0 <= u < |qcs| && qcs[u].TStore? ensures qcs[u].reg == e[qcs[u].i][qcs[u].j] {
      assert PlaceOk(d, u, qcs[u]);
      if qcs[u].i == p.i {
        OneOwner(d, t, u, p.i);
      }
    }
    StoreAdded(d, c, pcs, t);
  }

  lemma StoreAdded(d: Job, c: Matrix, pcs: seq<ThreadPc>, t: nat)
    requires JobOk(d) && DataPart(d, c, pcs) && t < |pcs| && pcs[t].TStore? && PlaceOk(d, t, pcs[t])
    ensures var p := pcs[t];
            Added(d, c[p.i := c[p.i][p.j := p.reg + Product(d, p.i, p.j, p.k)]], pcs[t := Onward(d, t, p.i, p.j, p.k + 1)])
  {
    hide Row, Product, Onward;
    var p := pcs[t];
    var e := c[p.i := c[p.i][p.j := p.reg + Product(d, p.i, p.j, p.k)]];
    var qcs := pcs[t := Onward(d, t, p.i, p.j, p.k + 1)];
    RowsOrdered(d, t + 1, |pcs|);
    forall u: nat, i: nat, j: nat | u < |qcs| && i < d.size && j < d.size ensures AddedAt(d, e, u, qcs[u], i, j) {
      assert AddedAt(d, c, u, pcs[u], i, j);
      if !Owns(d, u, i) {
      } else if u == t {
        OnwardDone(d, t, p, i, j);
      } else if i == p.i {
        OneOwner(d, t, u, i);
      }
    }
    forall i, j | Row(d, |qcs|) <= i < d.size && 0 <= j < d.size ensures e[i][j] == 0 {
      assert i != p.i;
    }
  }

  lemma LeaveData(d: Job, c: Matrix, pcs: seq<ThreadPc>, t: nat, p: ThreadPc)
    requires JobOk(d) && DataPart(d, c, pcs) && t < |pcs| && (pcs[t].TExit? || Past(pcs[t])) && (p.TExit? || Past(p))
    ensures DataPart(d, c, pcs[t := p])
  {
    hide Row, Partial;
    var qcs := pcs[t := p];
    forall u: nat, i: nat, j: nat | u < |qcs| && i < d.size && j < d.size ensures AddedAt(d, c, u, qcs[u], i, j) {
      assert AddedAt(d, c, u, pcs[u], i, j);
    }
  }

  // ---------------------------------------------------------------- steps

  lemma ParentKeeps(s: Sys, d: Job, func: nat, r: Regs)
    requires Inv(s, d) && s.k.curr == s.parent
    ensures Inv(ParentStep(s, d, func, r), d)
  {
    hide KernelPart, DataPart, After, Row, Onward;
    assert Joins(s, d) && |s.pcs| <= d.threads by { KernelReads(s, d); }
    match s.ppc
    case PCreate(i) =>
      if i < d.threads {
        CreateKernel(s, d, func, r);
        CreateData(d, s.c, s.pcs);
      } else {
        ToJoin(s, d);
      }
    case PJoin(j) =>
      if j < d.threads {
        JoinKernel(s, d, func, r);
      }
  }

  lemma KernelReads(s: Sys, d: Job)
    requires KernelPart(s, d)
    ensures Joins(s, d) && |s.pcs| <= d.threads
    ensures s.k.currPid == s.base + |s.pcs|
    ensures s.k.curr == NULL || s.k.curr == s.parent || s.base <= s.k.curr < s.k.currPid
  {
  }

  lemma ToJoin(s: Sys, d: Job)
    requires Inv(s, d) && s.k.curr == s.parent && s.ppc.PCreate? && s.ppc.i == d.threads
    ensures Inv(s.(ppc := PJoin(0)), d)
  {
  }

  lemma ThreadKeeps(s: Sys, d: Job, t: nat, r: Regs)
    requires Inv(s, d) && t < |s.pcs| && s.k.curr == s.base + t && Square(s.c, d.size)
    ensures Inv(ThreadStep(s, d, t, r), d)
  {
    hide KernelPart, DataPart, After, Row, Onward, Product;
    var p := s.pcs[t];
    match p
    case TLoad(i, j, k) =>
      LoadData(d, s.c, s.pcs, t);
      ComputeKernel(s, d, t, TStore(i, j, k, s.c[i][j]), s.c);
    case TStore(i, j, k, reg) =>
      StoreData(d, s.c, s.pcs, t);
      OnwardAlive(d, t, i, j, k + 1);
      ComputeKernel(s, d, t, Onward(d, t, i, j, k + 1), s.c[i := s.c[i][j := reg + Product(d, i, j, k)]]);
    case TExit =>
      ExitKernel(s, d, t, r);
      LeaveData(d, s.c, s.pcs, t, TExited);
    case TExited =>
      ReturnKernel(s, d, t, r);
      LeaveData(d, s.c, s.pcs, t, TGone);
    case TGone =>
  }

  lemma NextKeeps(s: Sys, d: Job, func: nat, timer: bool, r: Regs)
    requires Inv(s, d)
    ensures Inv(Next(s, d, func, timer, r), d)
  {
    hide KernelPart, DataPart, After, ParentStep, ThreadStep;
    KernelReads(s, d);
    if timer {
      TimerKernel(s, d, r);
    } else if s.k.curr == s.parent {
      ParentKeeps(s, d, func, r);
    } else if s.base <= s.k.curr < s.base + |s.pcs| && Square(s.c, d.size) {
      ThreadKeeps(s, d, s.k.curr - s.base, r);
    }
  }

  // ---------------------------------------------------------------- results

  /** The parent is about to create its first thread and no other process can run. */
  ghost predicate Start(s: Sys, d: Job) {
    && JobOk(d) && Good(s.k)
    && s.k.curr == s.parent && s.parent < s.base == s.k.currPid && s.base + d.threads <= |s.k.procs|
    && (forall i :: 0 <= i < |s.k.procs| && i != s.parent ==> !Runnable(s.k.procs[i].status))
    && s.ppc == PCreate(0) && s.pcs == []
    && Square(s.c, d.size) && forall i, j :: 0 <= i < d.size && 0 <= j < d.size ==> s.c[i][j] == 0
  }

  lemma StartInv(s: Sys, d: Job)
    requires Start(s, d)
    ensures Inv(s, d)
  {
  }

  /** The parent is running its own code after its last join. */
  ghost predicate AfterJoins(s: Sys, d: Job) {
    s.k.curr == s.parent && s.ppc == PJoin(d.threads)
  }

  /** The scalar product of two rows of numbers. */
  function Dot(u: seq<int>, v: seq<int>): int
    requires |u| == |v|
  {
    if u == [] then 0 else u[0] * v[0] + Dot(u[1..], v[1..])
  }

  function Column(m: Matrix, j: nat): (r: seq<int>)
    requires forall i :: 0 <= i < |m| ==> j < |m[i]|
    ensures |r| == |m| && forall i :: 0 <= i < |m| ==> r[i] == m[i][j]
  {
    seq(|m|, i requires 0 <= i < |m| => m[i][j])
  }

  /** c is the matrix product of the two factors. */
  predicate IsProduct(d: Job, c: Matrix)
    requires JobOk(d)
  {
    Square(c, d.size) && forall i, j :: 0 <= i < d.size && 0 <= j < d.size ==> c[i][j] == Dot(d.a[i], Column(d.b, j))
  }

  lemma {:induction false} DotSnoc(u: seq<int>, v: seq<int>, x: int, y: int)
    requires |u| == |v|
    ensures Dot(u + [x], v + [y]) == Dot(u, v) + x * y
  {
    if u != [] {
      DotSnoc(u[1..], v[1..], x, y);
      assert (u + [x])[1..] == u[1..] + [x] && (v + [y])[1..] == v[1..] + [y];
    }
  }

  /** The accumulated terms are the scalar product of row and column. */
  lemma {:induction false} PartialIsDot(d: Job, i: nat, j: nat, n: nat)
    requires JobOk(d) && i < d.size && j < d.size && n <= d.size
    ensures Partial(d, i, j, n) == Dot(d.a[i][..n], Column(d.b, j)[..n])
  {
    if n > 0 {
      PartialIsDot(d, i, j, n - 1);
      var u, v := d.a[i], Column(d.b, j);
      DotSnoc(u[..n-1], v[..n-1], u[n-1], v[n-1]);
      assert u[..n] == u[..n-1] + [u[n-1]] && v[..n] == v[..n-1] + [v[n-1]];
    }
  }

  lemma FullRow(d: Job, i: nat, j: nat)
    requires JobOk(d) && i < d.size && j < d.size
    ensures Partial(d, i, j, d.size) == Dot(d.a[i], Column(d.b, j))
  {
    PartialIsDot(d, i, j, d.size);
    assert d.a[i][..d.size] == d.a[i] && Column(d.b, j)[..d.size] == Column(d.b, j);
  }

  // ---------------------------------------------------------------- laws of the product

  function Unit(n: nat, i: nat): (r: seq<int>)
    ensures |r| == n && forall k :: 0 <= k < n ==> r[k] == if k == i then 1 else 0
  {
    seq(n, k => if k == i then 1 else 0)
  }

  function Identity(n: nat): (r: Matrix)
    ensures Square(r, n) && forall i :: 0 <= i < n ==> r[i] == Unit(n, i)
  {
    seq(n, i requires 0 <= i < n => Unit(n, i))
  }

  lemma {:induction false} DotZero(u: seq<int>, v: seq<int>)
    requires |u| == |v| && forall k :: 0 <= k < |u| ==> u[k] == 0 || v[k] == 0
    ensures Dot(u, v) == 0
  {
    if u != [] {
      DotZero(u[1..], v[1..]);
    }
  }

  lemma {:induction false} DotUnit(u: seq<int>, v: seq<int>, i: nat)
    requires |u| == |v| && i < |u| && forall k :: 0 <= k < |u| ==> u[k] == if k == i then 1 else 0
    ensures Dot(u, v) == v[i]
  {
    if i == 0 {
      DotZero(u[1..], v[1..]);
    } else {
      DotUnit(u[1..], v[1..], i - 1);
    }
  }

  lemma {:induction false} DotCommutes(u: seq<int>, v: seq<int>)
    requires |u| == |v|
    ensures Dot(u, v) == Dot(v, u)
  {
    if u != [] {
      DotCommutes(u[1..], v[1..]);
    }
  }

  /** The identity on either side gives back the other factor. */
  lemma IdentityNeutral(d: Job, c: Matrix)
    requires JobOk(d) && IsProduct(d, c)
    ensures d.a == Identity(d.size) ==> c == d.b
    ensures d.b == Identity(d.size) ==> c == d.a
  {
    if d.a == Identity(d.size) {
      forall i, j | 0 <= i < d.size && 0 <= j < d.size ensures c[i][j] == d.b[i][j] {
        DotUnit(d.a[i], Column(d.b, j), i);
      }
      SameMatrix(c, d.b, d.size);
    }
    if d.b == Identity(d.size) {
      forall i, j | 0 <= i < d.size && 0 <= j < d.size ensures c[i][j] == d.a[i][j] {
        DotCommutes(d.a[i], Column(d.b, j));
        DotUnit(Column(d.b, j), d.a[i], j);
      }
      SameMatrix(c, d.a, d.size);
    }
  }

  lemma SameMatrix(m: Matrix, n: Matrix, size: nat)
    requires Square(m, size) && Square(n, size)
    requires forall i, j :: 0 <= i < size && 0 <= j < size ==> m[i][j] == n[i][j]
    ensures m == n
  {
    forall i | 0 <= i < size ensures m[i] == n[i] {
      assert forall j :: 0 <= j < size ==> m[i][j] == n[i][j];
    }
  }

  ghost predicate Safe(s: Sys, d: Job)
    requires JobOk(d)
  {
    AfterJoins(s, d) ==>
      && |s.pcs| == d.threads
      && (forall i :: s.base <= i < s.base + d.threads ==> StatusOf(s.k, i) == Terminated)
      && IsProduct(d, s.c)
  }

  lemma InvSafe(s: Sys, d: Job)
    requires Inv(s, d)
    ensures Safe(s, d)
  {
    hide Row, Partial, Finished;
    FinishedAll(s.pcs);
    RowsOrdered(d, 0, d.threads);
    if AfterJoins(s, d) {
      forall i, j | 0 <= i < d.size && 0 <= j < d.size ensures s.c[i][j] == Dot(d.a[i], Column(d.b, j)) {
        FullRow(d, i, j);
        RowsPartition(d, i, d.threads);
        var t :| 0 <= t < d.threads && Owns(d, t, i);
        assert Past(s.pcs[t]) && AddedAt(d, s.c, t, s.pcs[t], i, j);
      }
    }
  }

  /** When the last join has returned, however each of them returned, every thread is
      TERMINATED and the matrix is the product. */
  lemma {:induction false} EveryInterleaving(s: Sys, d: Job, func: nat, sched: seq<(bool, Regs)>)
    requires Start(s, d)
    ensures Safe(Exec(s, d, func, sched), d)
    ensures Inv(Exec(s, d, func, sched), d)
  {
    hide Inv, Next, Safe, Start;
    assert JobOk(d) by { StartInv(s, d); InvOk(s, d); }
    if sched == [] {
      StartInv(s, d);
    } else {
      var n := |sched| - 1;
      EveryInterleaving(s, d, func, sched[..n]);
      NextKeeps(Exec(s, d, func, sched[..n]), d, func, sched[n].0, sched[n].1);
    }
    InvSafe(Exec(s, d, func, sched), d);
  }

  lemma InvOk(s: Sys, d: Job)
    requires Inv(s, d)
    ensures JobOk(d)
  {
  }
}
