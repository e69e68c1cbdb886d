/** From power-on to the first line that matters of each program: the kernel starts, the shell
    launches the program and schedules it, and the program asks for its semaphores. */
module Prologue {
  import opened Basics
  import opened Task
  import opened Semaphores
  import opened KernelRuns
  import opened SemaphoreQueues
  import opened KernelFacts
  import Fruit
  import ProCon
  import Bank
  import MatMul

  /** The kernel while the launched program runs alone, holding one semaphore per entry of
      vals. */
  ghost predicate RunsAlone(k: Kernel, vals: seq<int>) {
    && Good(k) && k.curr == 0 && k.currPid == 1 && |vals| <= |k.sems|
    && (forall i :: 1 <= i < |k.procs| ==> k.procs[i].status == New)
    && (forall i :: 0 <= i < |vals| ==> k.sems[i] == Sem(vals[i], true, NULL))
    && (forall i :: |vals| <= i < |k.sems| ==> k.sems[i] == Sem(0, false, NULL))
  }

  /** The table after proc_create: one READY process in slot 0, none RUNNING. */
  ghost predicate OneReady(k: Kernel) {
    && TableOk(k) && Unlinked(k) && |k.procs| > 0 && k.curr == NULL && k.currPid == 1
    && k.procs[0].status == Ready
    && (forall i :: 1 <= i < |k.procs| ==> k.procs[i].status == New)
    && (forall i :: 0 <= i < |k.sems| ==> k.sems[i] == Sem(0, false, NULL))
  }

  lemma Launches(k: Kernel, img: Regs)
    requires Boot(k) && |k.procs| > 0
    ensures Enabled(k, LaunchEvent(img)) && OneReady(Apply(k, LaunchEvent(img)))
    ensures |Apply(k, LaunchEvent(img)).procs| == |k.procs| && |Apply(k, LaunchEvent(img)).sems| == |k.sems|
  {
    FirstNewIs(k);
  }

  lemma Schedules(k: Kernel)
    requires OneReady(k)
    ensures Enabled(k, ShellScheduleEvent) && RunsAlone(Apply(k, ShellScheduleEvent), [])
    ensures |Apply(k, ShellScheduleEvent).procs| == |k.procs| && |Apply(k, ShellScheduleEvent).sems| == |k.sems|
  {
    hide Pick;
    PickFacts(k.procs);
    assert Pick(k.procs) == 0 by { assert Runnable(k.procs[0].status); }
  }

  lemma Launched(k: Kernel, img: Regs)
    requires Boot(k) && |k.procs| > 0
    ensures Enabled(k, LaunchEvent(img))
    ensures var l := Apply(k, LaunchEvent(img));
            && Enabled(l, ShellScheduleEvent) && RunsAlone(Apply(l, ShellScheduleEvent), [])
            && |Apply(l, ShellScheduleEvent).procs| == |k.procs| && |Apply(l, ShellScheduleEvent).sems| == |k.sems|
  {
    hide Apply, OneReady, RunsAlone, Boot;
    Launches(k, img);
    Schedules(Apply(k, LaunchEvent(img)));
  }

  lemma GotSem(k: Kernel, vals: seq<int>, v: int, r: Regs)
    requires RunsAlone(k, vals) && |vals| < |k.sems|
    ensures Enabled(k, CallEvent(GetSemCall(v), r))
    ensures RunsAlone(Apply(k, CallEvent(GetSemCall(v), r)), vals + [v])
    ensures |Apply(k, CallEvent(GetSemCall(v), r)).procs| == |k.procs|
    ensures |Apply(k, CallEvent(GetSemCall(v), r)).sems| == |k.sems|
  {
    assert !k.sems[|vals|].used;
    assert FirstUnused(k.sems, 0) == |vals|;
  }

  /** The kernel after get_sem has been called for each of vals. */
  ghost function Holding(k: Kernel, vals: seq<int>, r: Regs): Kernel {
    if vals == [] then k
    else After(Holding(k, vals[..|vals| - 1], r), CallEvent(GetSemCall(vals[|vals| - 1]), r))
  }

  /** The kernel a program finds, from a kernel that has just booted. */
  ghost function Loaded(k: Kernel, img: Regs, vals: seq<int>, r: Regs): Kernel {
    Holding(After(After(k, LaunchEvent(img)), ShellScheduleEvent), vals, r)
  }

  lemma {:induction false} HoldingRuns(k: Kernel, vals: seq<int>, r: Regs)
    requires RunsAlone(k, []) && |vals| <= |k.sems|
    ensures RunsAlone(Holding(k, vals, r), vals)
    ensures |Holding(k, vals, r).procs| == |k.procs| && |Holding(k, vals, r).sems| == |k.sems|
  {
    hide RunsAlone, Apply;
    if vals != [] {
      var n := |vals| - 1;
      HoldingRuns(k, vals[..n], r);
      GotSem(Holding(k, vals[..n], r), vals[..n], vals[n], r);
      assert vals[..n] + [vals[n]] == vals;
    }
  }

  lemma LoadedRuns(k: Kernel, img: Regs, vals: seq<int>, r: Regs)
    requires Boot(k) && |k.procs| > 0 && |vals| <= |k.sems|
    ensures RunsAlone(Loaded(k, img, vals, r), vals)
    ensures |Loaded(k, img, vals, r).procs| == |k.procs|
  {
    Launched(k, img);
    HoldingRuns(Apply(Apply(k, LaunchEvent(img)), ShellScheduleEvent), vals, r);
  }

  /** The four programs do reach the states their interleavings start from. */
  lemma FruitStarts(k: Kernel, img: Regs, r: Regs, words: seq<char>, name: int, reg: int)
    requires Boot(k) && |k.procs| >= 3 && |k.sems| >= 4 && |words| == 100
    ensures Fruit.Start(Fruit.Sys(Loaded(k, img, [0, 0, 0, 0], r), Fruit.Cast(0, 1, 2, 3, 0, NULL, NULL),
                                  Fruit.FFork, Fruit.WFork, Fruit.RLoad1, 0, 0, words, name, reg, []))
  {
    hide Loaded;
    LoadedRuns(k, img, [0, 0, 0, 0], r);
  }

  lemma ProConStarts(k: Kernel, img: Regs, r: Regs, preg: int, creg: int)
    requires Boot(k) && |k.procs| >= 2 && |k.sems| >= 2
    ensures ProCon.Start(ProCon.Sys(Loaded(k, img, [1, 0], r), ProCon.Cast(0, 1, 0, NULL),
                                    ProCon.PFork, ProCon.CWait, 0, preg, creg, 0, 0, []))
  {
    hide Loaded;
    LoadedRuns(k, img, [1, 0], r);
  }

  lemma BankStarts(k: Kernel, img: Regs, r: Regs, freg: int, creg: int)
    requires Boot(k) && |k.procs| >= 2 && |k.sems| >= 1
    ensures Bank.Start(Bank.Sys(Loaded(k, img, [1], r), Bank.Cast(0, 0, NULL),
                                Bank.FFork, Bank.CTest, 1000, 0, 0, freg, creg, 0, 0))
  {
    hide Loaded;
    LoadedRuns(k, img, [1], r);
  }

  lemma MatMulStarts(k: Kernel, img: Regs, r: Regs, d: MatMul.Job, c: MatMul.Matrix)
    requires Boot(k) && MatMul.JobOk(d) && |k.procs| > d.threads
    requires MatMul.Square(c, d.size) && forall i, j :: 0 <= i < d.size && 0 <= j < d.size ==> c[i][j] == 0
    ensures MatMul.Start(MatMul.Sys(Loaded(k, img, [], r), 0, 1, MatMul.PCreate(0), [], c), d)
  {
    hide Loaded;
    LoadedRuns(k, img, [], r);
  }
}
