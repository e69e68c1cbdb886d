/** usr/bank.c comes to its end: however the timer interrupts fall, a fixed number of program
    steps completes both loops and main. */
module BankProgress {
  import opened Basics
  import opened Task
  import opened KernelFacts
  import opened Bank

  const ITERATION := 7

  /** The steps left to the father: whole iterations, the rest of the current one, and the
      last three. */
  function FatherLeft(p: FatherPc, i: nat): int {
    var rest := ITERATION * (DEPOSITS - i) + 3;
    match p
    case FFork => rest + 1
    case FTest => rest
    case FLock => rest - 1
    case FLoad => rest - 2
    case FStore => rest - 3
    case FPrint => rest - 4
    case FUnlock => rest - 5
    case FNext => rest - 6
    case FWait => 2
    case FAfter => 1
    case FEnd => 0
  }

  /** And to the child, who never runs again once it has called wait. */
  function ChildLeft(p: ChildPc, j: nat): int {
    var rest := ITERATION * (WITHDRAWALS - j) + 3;
    match p
    case CTest => rest
    case CLock => rest - 1
    case CLoad => rest - 2
    case CStore => rest - 3
    case CPrint => rest - 4
    case CUnlock => rest - 5
    case CNext => rest - 6
    case CExit => 2
    case CExited => 1
    case CWaited => 0
    case CEnd => 0
  }

  function Work(s: Sys): int {
    FatherLeft(s.fpc, s.i) + ChildLeft(s.cpc, s.j)
  }

  lemma WorkBound(s: Sys)
    requires Inv(s)
    ensures 0 <= Work(s) <= 1057
    ensures s.fpc != FEnd ==> Work(s) > 0
  {
    hide KernelPart;
  }

  /** Every program step is one of those counted, until main has returned. */
  lemma StepWorks(s: Sys, r: Regs)
    requires Inv(s)
    ensures var t := Next(s, false, r);
            if s.fpc == FEnd then t.fpc == FEnd && Work(t) <= Work(s) else Work(t) < Work(s)
  {
    hide ProtocolPart, P, V, After;
    KernelReads(s);
    SomebodyRuns(s);
    Loops(s);
  }

  lemma SomebodyRuns(s: Sys)
    requires Inv(s)
    ensures s.k.curr == NULL ==> s.fpc == FEnd
    ensures s.fpc == FEnd ==> s.k.curr == NULL && s.c.father != NULL
  {
    hide ProtocolPart;
  }

  lemma Loops(s: Sys)
    requires Inv(s)
    ensures s.i <= DEPOSITS && s.j <= WITHDRAWALS
  {
    hide KernelPart;
  }

  lemma {:induction false} WorkUsedUp(s: Sys, sched: seq<(bool, Regs)>)
    requires Inv(s)
    ensures var t := Exec(s, sched);
            Inv(t) && (t.fpc == FEnd || Work(t) + StepsIn(sched) <= Work(s))
  {
    hide Inv, Work;
    if sched != [] {
      var n := |sched| - 1;
      WorkUsedUp(s, sched[..n]);
      var t := Exec(s, sched[..n]);
      NextKeeps(t, sched[n].0, sched[n].1);
      if sched[n].0 {
        TimerWorks(t, sched[n].1);
      } else {
        StepWorks(t, sched[n].1);
      }
    }
  }

  lemma TimerWorks(s: Sys, r: Regs)
    requires Inv(s)
    ensures var t := Next(s, true, r); t.fpc == s.fpc && Work(t) == Work(s)
  {
    hide Inv, After;
  }

  /** After 1057 program steps, however they are interrupted, the program is over and the
      account is back at 1000. */
  lemma BankEnds(s: Sys, sched: seq<(bool, Regs)>)
    requires Start(s) && StepsIn(sched) >= 1057
    ensures var t := Exec(s, sched);
            t.fpc == FEnd && t.deposits == DEPOSITS && t.withdrawals == WITHDRAWALS && t.account == 1000
  {
    EveryInterleaving(s, []);
    WorkBound(s);
    WorkUsedUp(s, sched);
    WorkBound(Exec(s, sched));
    EveryInterleaving(s, sched);
  }
}
