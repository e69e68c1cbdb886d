/** The consumer of usr/pro-con.c goes on consuming: in every schedule in which the processes do
    run between timer interrupts, a bounded number of interrupts leads to his next item. */
module ProConProgress {
  import opened Basics
  import opened Task
  import opened KernelFacts
  import opened ProCon

  /** The consumer's own steps up to and including his next store to the total. */
  function ConLeft(p: ConPc): nat {
    match p
    case CStore => 1
    case CLoad => 2
    case CLock => 3
    case CWait => 4
    case CUnlock => 5
    case CPrint => 6
  }

  /** The producer's steps up to his next V(mutex), and up to his next V(n). */
  function ToUnlock(p: ProPc): nat {
    match p
    case PLoad => 4
    case PStore => 3
    case PPrint => 2
    case PUnlock => 1
    case _ => 0
  }

  function ToSignal(p: ProPc): nat {
    match p
    case PLock => 6
    case PLoad => 5
    case PStore => 4
    case PPrint => 3
    case PUnlock => 2
    case PSignal => 1
    case PFork => 0
  }

  /** How far the consumer is from his next own step.  locked and starved say that he waits for
      mutex or n, runs that he has the processor; tp and tc are the time slices of the two
      processes, and stepped says that there was a step since the last interrupt. */
  function Delay(p: ProPc, locked: bool, starved: bool, runs: bool, tp: int, tc: int, stepped: bool): int {
    if locked then 2 * ToUnlock(p) + Bit(stepped)
    else if starved then 2 * ToSignal(p) + Bit(stepped)
    else if !runs then 2 + tp
    else if tc >= 1 then 1
    else if stepped then 4
    else 0
  }

  function DelayOf(s: Sys, stepped: bool): int {
    Delay(s.ppc, Waits(s.k, s.c.mutex, s.c.con), Val(s.k, s.c.n) < 0, s.k.curr == s.c.con,
          TickOf(s.k, s.c.pro), TickOf(s.k, s.c.con), stepped)
  }

  /** An upper bound on the timer interrupts up to the next item. */
  function Rank(s: Sys, stepped: bool): int {
    if s.c.con == NULL then 109 + Bit(stepped) else 16 * ConLeft(s.cpc) + DelayOf(s, stepped)
  }

  lemma DelayBound(s: Sys, stepped: bool)
    requires Inv(s)
    ensures 0 <= DelayOf(s, stepped) <= 13 && 0 <= Rank(s, stepped) <= 110
    ensures 0 <= TickOf(s.k, s.c.pro) <= 1 && 0 <= TickOf(s.k, s.c.con) <= 1
  {
    hide ProtocolPart;
  }

  /** What the protocol says about who can wait. */
  lemma Places(s: Sys)
    requires Inv(s) && s.k.curr == s.c.pro && s.c.con != NULL
    ensures Waits(s.k, s.c.mutex, s.c.con) ==> ProIn(s.ppc) && Val(s.k, s.c.n) >= 0 && Val(s.k, s.c.mutex) == -1
    ensures Val(s.k, s.c.n) < 0 ==> !Waits(s.k, s.c.mutex, s.c.con) && Val(s.k, s.c.mutex) + Bit(ProIn(s.ppc)) == 1
    ensures !Waits(s.k, s.c.mutex, s.c.con) ==> Val(s.k, s.c.mutex) >= 0
    ensures s.ppc != PFork
  {
    hide KernelPart;
    KernelReads(s);
  }

  /** The waiter of a V that finds one. */
  lemma Sleeper(s: Sys)
    requires KernelPart(s.k, s.c) && s.c.con != NULL && s.c.mutex < |s.k.sems| && s.c.n < |s.k.sems|
    ensures Good(s.k)
    ensures Waits(s.k, s.c.mutex, s.c.con) ==>
              s.c.con < s.k.currPid && s.k.procs[s.c.con].status == Waiting && s.k.sems[s.c.mutex].head == s.c.con
    ensures Val(s.k, s.c.n) < 0 ==>
              s.c.con < s.k.currPid && s.k.procs[s.c.con].status == Waiting && s.k.sems[s.c.n].head == s.c.con
  {
  }

  lemma ProLocal(s: Sys, r: Regs)
    requires s.ppc.PLoad? || s.ppc.PStore? || s.ppc.PPrint?
    ensures var t := ProStep(s, r);
            t.consumed == s.consumed && t.k == s.k && t.c == s.c && t.cpc == s.cpc && !t.ppc.PFork? &&
            ToUnlock(t.ppc) == ToUnlock(s.ppc) - 1 && ToSignal(t.ppc) == ToSignal(s.ppc) - 1
  {
  }

  /** The producer gets into the critical section, or gives the processor away. */
  lemma ProLocks(s: Sys, r: Regs, b: bool)
    requires Inv(s) && s.k.curr == s.c.pro && s.ppc == PLock && s.c.con != NULL
    ensures DelayOf(ProStep(s, r), true) <= DelayOf(s, b)
  {
    hide KernelPart, ProtocolPart, P;
    KernelReads(s);
    Places(s);
    Sleeper(s);
    DelayBound(s, b);
    LockKernel(s.k, s.c, r, s.c.con);
    var t := ProStep(s, r);
    KernelReads(t);
    if Val(s.k, s.c.mutex) > 0 {
      PassesHere(s.k, s.c, r);
      QuietTicks(s.k, s.c.mutex, r);
    } else {
      ReadyOther(s.k, s.c, s.c.con);
      BlockTicks(s.k, s.c.mutex, r);
    }
  }

  lemma PassesHere(k: Kernel, c: Cast, r: Regs)
    requires KernelPart(k, c) && Val(k, c.mutex) > 0
    ensures P(k, c.mutex, r).curr == k.curr
  {
    PPasses(k, c.mutex, r);
  }

  lemma SignalsHere(k: Kernel, id: nat, r: Regs)
    requires Good(k) && id < |k.sems| && k.sems[id].val >= 0
    ensures V(k, id, r).curr == k.curr
  {
    VPasses(k, id, r);
  }

  lemma ProUnlocks(s: Sys, r: Regs, b: bool)
    requires Inv(s) && s.k.curr == s.c.pro && s.ppc == PUnlock && s.c.con != NULL
    ensures DelayOf(ProStep(s, r), true) <= DelayOf(s, b)
  {
    hide KernelPart, ProtocolPart, V;
    KernelReads(s);
    Places(s);
    Sleeper(s);
    DelayBound(s, b);
    UnlockKernel(s.k, s.c, r);
    var t := ProStep(s, r);
    KernelReads(t);
    if Waits(s.k, s.c.mutex, s.c.con) {
      WakeTicks(s.k, s.c.mutex, r, s.c.con);
    } else {
      SignalsHere(s.k, s.c.mutex, r);
      QuietTicks(s.k, s.c.mutex, r);
    }
  }

  lemma ProSignals(s: Sys, r: Regs, b: bool)
    requires Inv(s) && s.k.curr == s.c.pro && s.ppc == PSignal && s.c.con != NULL
    ensures DelayOf(ProStep(s, r), true) <= DelayOf(s, b)
  {
    hide KernelPart, ProtocolPart, V;
    KernelReads(s);
    Places(s);
    Sleeper(s);
    DelayBound(s, b);
    SignalKernel(s.k, s.c, r);
    var t := ProStep(s, r);
    KernelReads(t);
    if Val(s.k, s.c.n) < 0 {
      WakeTicks(s.k, s.c.n, r, s.c.con);
    } else {
      SignalsHere(s.k, s.c.n, r);
      QuietTicks(s.k, s.c.n, r);
    }
  }

  /** No step of the producer takes the consumer further from his next item. */
  lemma ProRank(s: Sys, r: Regs, b: bool)
    requires Inv(s) && s.k.curr == s.c.pro
    ensures ProStep(s, r).consumed == s.consumed && Rank(ProStep(s, r), true) <= Rank(s, b)
  {
    hide KernelPart, ProtocolPart, P, V, After, DelayOf;
    KernelReads(s);
    ProKeeps(s, r);
    DelayBound(s, b);
    DelayBound(ProStep(s, r), true);
    Unborn(s);
    if s.ppc == PFork {
      ForkKernel(s.k, s.c, r);
    } else {
      match s.ppc
      case PLock => ProLocks(s, r, b);
      case PUnlock => ProUnlocks(s, r, b);
      case PSignal => ProSignals(s, r, b);
      case _ => ProStays(s, r, b);
    }
  }

  lemma Unborn(s: Sys)
    requires Inv(s)
    ensures s.c.con == NULL <==> s.ppc == PFork
    ensures s.ppc == PFork ==>
              s.cpc == CWait && s.k.currPid < |s.k.procs| && Val(s.k, s.c.mutex) == 1 && Val(s.k, s.c.n) == 0
  {
    hide KernelPart;
  }

  lemma ProStays(s: Sys, r: Regs, b: bool)
    requires Inv(s) && s.k.curr == s.c.pro && s.c.con != NULL && (s.ppc.PLoad? || s.ppc.PStore? || s.ppc.PPrint?)
    ensures DelayOf(ProStep(s, r), true) <= DelayOf(s, b)
  {
    hide KernelPart, ProtocolPart, ProStep;
    KernelReads(s);
    Places(s);
    ProLocal(s, r);
  }

  /** Every step of the consumer is one of his last six. */
  lemma ConRank(s: Sys, r: Regs, b: bool)
    requires Inv(s) && s.k.curr == s.c.con
    ensures var t := ConStep(s, r);
            t.consumed > s.consumed || (t.consumed == s.consumed && Rank(t, true) <= Rank(s, b))
  {
    hide KernelPart, ProtocolPart, P, V, DelayOf;
    KernelReads(s);
    ConKeeps(s, r);
    DelayBound(s, b);
    DelayBound(ConStep(s, r), true);
  }

  /** A timer interrupt after a step brings the next item nearer. */
  lemma TimerRank(s: Sys, r: Regs)
    requires Inv(s)
    ensures var t := Next(s, true, r); t.consumed == s.consumed && Rank(t, false) < Rank(s, true)
  {
    hide KernelPart, ProtocolPart, After;
    KernelReads(s);
    DelayBound(s, true);
    TimerKernel(s.k, s.c, r);
    GoodHere(s);
    TimerTicks(s.k, r);
    var t := Next(s, true, r);
    KernelReads(t);
    TicksAfter(t);
    if s.k.curr == s.c.pro && s.c.con != NULL && !Waits(s.k, s.c.mutex, s.c.con) && Val(s.k, s.c.n) >= 0 {
      ReadyOther(s.k, s.c, s.c.con);
    }
  }

  lemma GoodHere(s: Sys)
    requires KernelPart(s.k, s.c)
    ensures Good(s.k)
  {
  }

  lemma TicksAfter(s: Sys)
    requires KernelPart(s.k, s.c)
    ensures 0 <= TickOf(s.k, s.c.pro) <= 1 && 0 <= TickOf(s.k, s.c.con) <= 1
  {
  }

  /** The last event of a schedule was a program step; before the first one that is taken for
      granted. */
  predicate Stepped(sched: seq<(bool, Regs)>) {
    sched == [] || !sched[|sched| - 1].0
  }

  lemma {:induction false} RankUsedUp(s: Sys, sched: seq<(bool, Regs)>)
    requires Inv(s) && Breathing(sched)
    ensures var t := Exec(s, sched);
            && Inv(t)
            && (t.consumed > s.consumed ||
                (t.consumed == s.consumed && Rank(t, Stepped(sched)) + TimersIn(sched) <= Rank(s, true)))
  {
    hide Inv, Next, Rank;
    if sched != [] {
      var n := |sched| - 1;
      RankUsedUp(s, sched[..n]);
      var t := Exec(s, sched[..n]);
      NextKeeps(t, sched[n].0, sched[n].1);
      if sched[n].0 {
        TimerRank(t, sched[n].1);
        assert Stepped(sched[..n]);
      } else {
        StepRank(t, sched[n].1, Stepped(sched[..n]));
      }
    }
  }

  lemma StepRank(s: Sys, r: Regs, b: bool)
    requires Inv(s)
    ensures var t := Next(s, false, r);
            t.consumed > s.consumed || (t.consumed == s.consumed && Rank(t, true) <= Rank(s, b))
  {
    hide KernelPart, ProtocolPart, ProStep, ConStep, Rank;
    KernelReads(s);
    if s.k.curr == s.c.pro {
      ProRank(s, r, b);
    } else {
      ConRank(s, r, b);
    }
  }

  /** From every reachable state, in every schedule with 111 timer interrupts, no two of them
      without a program step in between, the consumer takes another item. */
  lemma ConsumerEatsAgain(s: Sys, before: seq<(bool, Regs)>, sched: seq<(bool, Regs)>)
    requires Start(s) && Breathing(sched) && TimersIn(sched) >= 111
    ensures Exec(Exec(s, before), sched).consumed > Exec(s, before).consumed
  {
    EveryInterleaving(s, before);
    var t := Exec(s, before);
    RankUsedUp(t, sched);
    DelayBound(t, true);
    DelayBound(Exec(t, sched), Stepped(sched));
  }
}
