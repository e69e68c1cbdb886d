/** The last join of usr/matmal.c does return: in every schedule in which the processes do run
    between timer interrupts, a bounded number of interrupts is enough. */
module MatMulProgress {
  import opened Basics
  import opened Task
  import opened KernelFacts
  import opened MatMul

  /** How often the innermost statement is still to be done from the loop indices i, j, k on. */
  function Loops(d: Job, t: nat, i: nat, j: nat, k: nat): nat
    requires JobOk(d)
    decreases Row(d, t + 1) - i, d.size - j, d.size - k
  {
    match Onward(d, t, i, j, k)
    case TLoad(x, y, z) => 1 + Loops(d, t, x, y, z + 1)
    case _ => 0
  }

  /** The steps left to thread t: a load and a store for each statement, exit, and the way
      back to the shell. */
  function ThreadLeft(d: Job, t: nat, p: ThreadPc): nat
    requires JobOk(d)
  {
    match p
    case TLoad(i, j, k) => 2 * Loops(d, t, i, j, k + 1) + 4
    case TStore(i, j, k, reg) => 2 * Loops(d, t, i, j, k + 1) + 3
    case TExit => 2
    case TExited => 1
    case TGone => 0
  }

  function ThreadsLeft(d: Job, pcs: seq<ThreadPc>): nat
    requires JobOk(d)
  {
    if pcs == [] then 0
    else ThreadsLeft(d, pcs[..|pcs| - 1]) + ThreadLeft(d, |pcs| - 1, pcs[|pcs| - 1])
  }

  /** The steps left to the parent, with those of the threads it is still to create. */
  function ParentLeft(d: Job, p: ParentPc): nat
    requires JobOk(d)
    decreases d.threads - if p.PCreate? then p.i else 0
  {
    match p
    case PCreate(i) =>
      if i < d.threads then 1 + ThreadLeft(d, i, Onward(d, i, Row(d, i), 0, 0)) + ParentLeft(d, PCreate(i + 1))
      else 1 + d.threads
    case PJoin(j) => if j < d.threads then d.threads - j else 0
  }

  function Work(d: Job, s: Sys): nat
    requires JobOk(d)
  {
    ParentLeft(d, s.ppc) + ThreadsLeft(d, s.pcs)
  }

  lemma {:induction false} LeftUpdate(d: Job, pcs: seq<ThreadPc>, t: nat, p: ThreadPc)
    requires JobOk(d) && t < |pcs|
    ensures ThreadsLeft(d, pcs[t := p]) == ThreadsLeft(d, pcs) - ThreadLeft(d, t, pcs[t]) + ThreadLeft(d, t, p)
  {
    hide ThreadLeft;
    var n := |pcs| - 1;
    if t < n {
      LeftUpdate(d, pcs[..n], t, p);
      assert pcs[t := p][..n] == pcs[..n][t := p];
    } else {
      assert pcs[t := p][..n] == pcs[..n];
    }
  }

  lemma OnwardLeft(d: Job, t: nat, i: nat, j: nat, k: nat)
    requires JobOk(d)
    ensures ThreadLeft(d, t, Onward(d, t, i, j, k)) == 2 * Loops(d, t, i, j, k) + 2
  {
    hide Row;
  }

  /** A step of a thread that has not gone. */
  lemma ThreadWorks(s: Sys, d: Job, t: nat, r: Regs)
    requires JobOk(d) && DataPart(d, s.c, s.pcs) && t < |s.pcs| && s.pcs[t] != TGone && Square(s.c, d.size)
    ensures var u := ThreadStep(s, d, t, r); u.ppc == s.ppc && ThreadsLeft(d, u.pcs) < ThreadsLeft(d, s.pcs)
  {
    hide Row, Onward, Loops, ThreadsLeft, After;
    var u := ThreadStep(s, d, t, r);
    assert PlaceOk(d, t, s.pcs[t]);
    match s.pcs[t]
    case TLoad(i, j, k) => LeftUpdate(d, s.pcs, t, TStore(i, j, k, s.c[i][j]));
    case TStore(i, j, k, reg) =>
      OnwardLeft(d, t, i, j, k + 1);
      LeftUpdate(d, s.pcs, t, Onward(d, t, i, j, k + 1));
    case TExit => LeftUpdate(d, s.pcs, t, TExited);
    case TExited => LeftUpdate(d, s.pcs, t, TGone);
  }

  lemma ParentWorks(s: Sys, d: Job, func: nat, r: Regs)
    requires JobOk(d) && KernelPart(s, d) && s.ppc != PJoin(d.threads)
    ensures Work(d, ParentStep(s, d, func, r)) < Work(d, s)
  {
    hide Row, Onward, ThreadLeft, After;
    KernelReads(s, d);
    if s.ppc.PCreate? && s.ppc.i < d.threads {
      var p := Onward(d, s.ppc.i, Row(d, s.ppc.i), 0, 0);
      assert (s.pcs + [p])[..|s.pcs|] == s.pcs;
    }
  }

  /** While a process has the processor a program step leaves less work, until the parent is
      back from its last join. */
  lemma StepWorks(s: Sys, d: Job, func: nat, r: Regs)
    requires Inv(s, d) && !AfterJoins(s, d)
    ensures Work(d, Next(s, d, func, false, r)) <= Work(d, s)
    ensures s.k.curr != NULL ==> Work(d, Next(s, d, func, false, r)) < Work(d, s)
  {
    hide KernelPart, DataPart, ThreadStep, ParentStep, ThreadsLeft, ParentLeft;
    KernelReads(s, d);
    Runners(s, d);
    if s.k.curr == s.parent {
      ParentWorks(s, d, func, r);
    } else if s.k.curr != NULL {
      ThreadWorks(s, d, s.k.curr - s.base, r);
    }
  }

  lemma Runners(s: Sys, d: Job)
    requires Inv(s, d)
    ensures Square(s.c, d.size)
    ensures s.base <= s.k.curr < s.base + |s.pcs| ==> s.pcs[s.k.curr - s.base] != TGone
  {
    hide DataPart;
    DataSquare(d, s.c, s.pcs);
  }

  lemma DataSquare(d: Job, c: Matrix, pcs: seq<ThreadPc>)
    requires JobOk(d) && DataPart(d, c, pcs)
    ensures Square(c, d.size)
  {
  }

  /** A timer interrupt leaves the programs alone and puts somebody on the processor. */
  lemma TimerWorks(s: Sys, d: Job, func: nat, r: Regs)
    requires Inv(s, d)
    ensures var t := Next(s, d, func, true, r); Work(d, t) == Work(d, s) && t.k.curr != NULL
  {
    hide DataPart, After, ThreadsLeft, ParentLeft;
    PutsSomebody(s, d, func, r);
  }

  lemma PutsSomebody(s: Sys, d: Job, func: nat, r: Regs)
    requires JobOk(d) && KernelPart(s, d)
    ensures Next(s, d, func, true, r).k.curr != NULL
  {
    hide After;
    TimerAny(s.k, r);
    if s.k.curr == NULL {
      assert Runnable(s.k.procs[s.parent].status);
    }
  }

  /** No interrupt came after the last program step, or there was neither. */
  predicate Stepped(sched: seq<(bool, Regs)>) {
    sched == [] || !sched[|sched| - 1].0
  }

  /** The parent got back from its last join at some point of the schedule. */
  ghost predicate CameBack(s: Sys, d: Job, func: nat, sched: seq<(bool, Regs)>)
    requires JobOk(d)
  {
    exists n :: 0 <= n <= |sched| && AfterJoins(Exec(s, d, func, sched[..n]), d)
  }

  lemma NotYet(s: Sys, d: Job, func: nat, sched: seq<(bool, Regs)>)
    requires JobOk(d) && !CameBack(s, d, func, sched)
    ensures !AfterJoins(Exec(s, d, func, sched), d)
  {
    hide AfterJoins;
    assert sched[..|sched|] == sched;
  }

  lemma {:induction false} WorkUsedUp(s: Sys, d: Job, func: nat, sched: seq<(bool, Regs)>)
    requires Inv(s, d) && Breathing(sched)
    ensures JobOk(d)
    ensures var t := Exec(s, d, func, sched);
            && Inv(t, d)
            && (CameBack(s, d, func, sched) ||
                ((Stepped(sched) || t.k.curr != NULL) &&
                 Work(d, t) + Bit(Stepped(sched)) + TimersIn(sched) <= Work(d, s) + 1))
  {
    hide Inv, Next, Work, AfterJoins;
    InvOk(s, d);
    if sched != [] {
      var n := |sched| - 1;
      WorkUsedUp(s, d, func, sched[..n]);
      var t := Exec(s, d, func, sched[..n]);
      NextKeeps(t, d, func, sched[n].0, sched[n].1);
      if CameBack(s, d, func, sched[..n]) {
        var m :| 0 <= m <= n && AfterJoins(Exec(s, d, func, sched[..n][..m]), d);
        assert sched[..n][..m] == sched[..m];
      } else if sched[n].0 {
        assert Stepped(sched[..n]);
        TimerWorks(t, d, func, sched[n].1);
      } else {
        NotYet(s, d, func, sched[..n]);
        StepWorks(t, d, func, sched[n].1);
      }
    }
  }

  /** A number of interrupts that is enough: one for each step of the parent and the threads,
      and two more. */
  function Enough(d: Job): nat
    requires JobOk(d)
  {
    ParentLeft(d, PCreate(0)) + 2
  }

  /** The last join returns, and then the matrix is the product. */
  lemma ProductComesBack(s: Sys, d: Job, func: nat, sched: seq<(bool, Regs)>)
    requires Start(s, d) && Breathing(sched)
    ensures JobOk(d)
    ensures TimersIn(sched) >= Enough(d) ==>
              exists n :: 0 <= n <= |sched| &&
                var t := Exec(s, d, func, sched[..n]); AfterJoins(t, d) && IsProduct(d, t.c)
  {
    hide Inv, Next, ParentLeft, ThreadsLeft, AfterJoins;
    EveryInterleaving(s, d, func, []);
    assert Exec(s, d, func, []) == s;
    InvOk(s, d);
    assert Work(d, s) == ParentLeft(d, PCreate(0)) by { NoThreads(s, d); }
    WorkUsedUp(s, d, func, sched);
    if TimersIn(sched) >= Enough(d) {
      var n :| 0 <= n <= |sched| && AfterJoins(Exec(s, d, func, sched[..n]), d);
      EveryInterleaving(s, d, func, sched[..n]);
    }
  }

  lemma NoThreads(s: Sys, d: Job)
    requires Start(s, d)
    ensures Work(d, s) == ParentLeft(d, PCreate(0))
  {
  }
}
