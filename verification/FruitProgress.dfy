/** The father of usr/fruit.c goes on eating: however the timer interrupts fall, a bounded number
    of program steps leads to his next line. */
module FruitProgress {
  import opened Basics
  import opened Task
  import opened KernelFacts
  import opened Fruit

  const COPIES := 26                    // the blessing and its terminator
  const WORD_ROUND := COPIES + 2        // strcpy, V(word), P(word_full)
  const FRUIT_ROUND := 9                // put_fruit at its longest, V(fruit), P(fruit_full)

  /** The steps of the father up to and including his next line. */
  function FatherLeft(p: FatherPc): nat {
    match p
    case FPrint => 1
    case FTest3 => 2
    case FTest2 => 3
    case FTest1 => 4
    case FPFruit => 5
    case FPWord => 6
    case FFork => 7
    case FVFruit => 7
    case FClear => 8
    case FVWord => 9
  }

  /** The steps of the word child in the round it is in; none while it waits. */
  function WordLeft(p: WordPc, wf: int): int {
    match p
    case WFork => WORD_ROUND + 1
    case WCopy(i) => if wf < 0 then 0 else WORD_ROUND - i
    case WV => 2
    case WP => 1
  }

  function FruitLeft(p: FruitPc, ff: int): int {
    match p
    case RLoad1 => if ff < 0 then 0 else FRUIT_ROUND
    case RStore1 => 8
    case RTest => 7
    case RLoad2 => 6
    case RStore2 => 5
    case RLoad3 => 4
    case RStore3 => 3
    case RV => 2
    case RP => 1
  }

  /** A child has one more round before the father's next line if its token is back, or will
      come back by then. */
  function MoreRounds(p: FatherPc, wf: int, ff: int): nat {
    (if p.FVWord? || wf > 0 then WORD_ROUND else 0) +
    (if p.FVWord? || p.FClear? || p.FVFruit? || ff > 0 then FRUIT_ROUND else 0)
  }

  function Left(p: FatherPc, q: WordPc, t: FruitPc, wf: int, ff: int): int {
    FatherLeft(p) + WordLeft(q, wf) + FruitLeft(t, ff) + MoreRounds(p, wf, ff)
  }

  /** An upper bound on the program steps up to the father's next line. */
  function Work(s: Sys): int {
    Left(s.fpc, s.wpc, s.rpc, Val(s.k, s.c.wf), Val(s.k, s.c.ff))
  }

  lemma WorkBound(s: Sys)
    requires Inv(s)
    ensures 0 < Work(s) <= 84
  {
    hide KernelPart, Picking, Eating, Printed;
    ValsOk(s);
  }

  /** One program step prints a line, or leaves less work. */
  ghost predicate Progress(s: Sys, t: Sys) {
    |t.log| > |s.log| || (t.log == s.log && Work(t) < Work(s))
  }

  /** What the protocol says about the counters and the places. */
  lemma Places(s: Sys)
    requires Inv(s)
    ensures IdsOk(s.k, s.c)
    ensures Tokens(Val(s.k, s.c.w), Val(s.k, s.c.f), Val(s.k, s.c.wf), Val(s.k, s.c.ff), s.fpc, s.wpc, s.rpc)
    ensures s.wpc.WCopy? && Val(s.k, s.c.wf) >= 0 ==> s.wpc.i < COPIES && s.wpc.i < |s.words|
    ensures s.wpc == WFork ==> Val(s.k, s.c.wf) == 0 && Val(s.k, s.c.ff) == 0
    ensures s.fpc == FFork ==> s.wpc == WFork && s.c.word == NULL && s.k.currPid < |s.k.procs|
    ensures s.wpc == WFork ==> s.c.fruit == NULL && s.k.currPid < |s.k.procs|
  {
    hide KernelPart, Picking, Eating, Printed, Tokens;
    ValsOk(s);
  }

  lemma ForkWorks(s: Sys, r: Regs)
    requires Inv(s) && ((s.k.curr == s.c.father && s.fpc == FFork) || (s.k.curr == s.c.word && s.wpc == WFork))
    ensures s.fpc == FFork ==> Progress(s, FatherStep(s, r))
    ensures s.k.curr == s.c.word && s.wpc == WFork ==> Progress(s, WordStep(s, r))
  {
    hide KernelPart, ProtocolPart, After;
    Places(s);
    ForkKernel(s.k, s.c, r);
  }

  lemma FatherWaitWorks(s: Sys, r: Regs)
    requires Inv(s) && s.k.curr == s.c.father && (s.fpc == FPWord || s.fpc == FPFruit)
    ensures Progress(s, FatherStep(s, r))
  {
    hide KernelPart, ProtocolPart, P;
    ValsOk(s);
    var id := if s.fpc == FPWord then s.c.w else s.c.f;
    var y := FatherLeaves(s, id);
    PKernel(s.k, s.c, id, r, y);
  }

  lemma FatherSignalWorks(s: Sys, r: Regs)
    requires Inv(s) && s.k.curr == s.c.father && (s.fpc == FVWord || s.fpc == FVFruit)
    ensures Progress(s, FatherStep(s, r))
  {
    hide KernelPart, ProtocolPart, V;
    ValsOk(s);
    Places(s);
    SignalReady(s);
    VKernel(s.k, s.c, if s.fpc == FVWord then s.c.wf else s.c.ff, r);
  }

  /** Whoever waits for what the father signals is there. */
  lemma SignalReady(s: Sys)
    requires Inv(s)
    ensures !(Val(s.k, s.c.w) < 0 && Val(s.k, s.c.f) < 0)
    ensures Val(s.k, s.c.wf) < 0 ==> s.c.word != NULL
    ensures Val(s.k, s.c.ff) < 0 ==> s.c.fruit != NULL
  {
    hide KernelPart, Picking, Eating, Printed;
    ValsOk(s);
  }

  lemma FatherWorks(s: Sys, r: Regs)
    requires Inv(s) && s.k.curr == s.c.father
    ensures Progress(s, FatherStep(s, r))
  {
    hide KernelPart, ProtocolPart, P, V, After;
    match s.fpc
    case FFork => ForkWorks(s, r);
    case FPWord => FatherWaitWorks(s, r);
    case FPFruit => FatherWaitWorks(s, r);
    case FVWord => FatherSignalWorks(s, r);
    case FVFruit => FatherSignalWorks(s, r);
    case _ =>
  }

  lemma WordCallWorks(s: Sys, r: Regs)
    requires Inv(s) && s.k.curr == s.c.word && (s.wpc == WV || s.wpc == WP)
    ensures Progress(s, WordStep(s, r))
  {
    hide KernelPart, ProtocolPart, P, V;
    ValsOk(s);
    Places(s);
    SignalReady(s);
    if s.wpc == WV {
      VKernel(s.k, s.c, s.c.w, r);
    } else {
      var y := WordLeaves(s);
      PKernel(s.k, s.c, s.c.wf, r, y);
    }
  }

  lemma WordCopyWorks(s: Sys, r: Regs)
    requires Inv(s) && s.k.curr == s.c.word && s.wpc.WCopy?
    ensures Progress(s, WordStep(s, r))
  {
    hide KernelPart, ProtocolPart;
    ValsOk(s);
    Places(s);
    assert |TEXT| == COPIES && (TEXT[s.wpc.i] == '\0' <==> s.wpc.i == |TEXT| - 1);
  }

  lemma WordWorks(s: Sys, r: Regs)
    requires Inv(s) && s.k.curr == s.c.word
    ensures Progress(s, WordStep(s, r))
  {
    hide KernelPart, ProtocolPart, Progress, WordStep;
    ValsOk(s);
    match s.wpc
    case WFork => ForkWorks(s, r);
    case WCopy(_) => WordCopyWorks(s, r);
    case WV => WordCallWorks(s, r);
    case WP => WordCallWorks(s, r);
  }

  lemma FruitCallWorks(s: Sys, r: Regs)
    requires Inv(s) && s.k.curr == s.c.fruit && (s.rpc == RV || s.rpc == RP)
    ensures Progress(s, FruitStep(s, r))
  {
    hide KernelPart, ProtocolPart, P, V;
    ValsOk(s);
    Places(s);
    SignalReady(s);
    if s.rpc == RV {
      VKernel(s.k, s.c, s.c.f, r);
    } else {
      var y := FruitLeaves(s);
      PKernel(s.k, s.c, s.c.ff, r, y);
    }
  }

  lemma FruitPickWorks(s: Sys, r: Regs)
    requires s.rpc != RV && s.rpc != RP && Val(s.k, s.c.ff) >= 0
    ensures Progress(s, FruitStep(s, r))
  {
  }

  lemma FruitWorks(s: Sys, r: Regs)
    requires Inv(s) && s.k.curr == s.c.fruit
    ensures Progress(s, FruitStep(s, r))
  {
    hide KernelPart, ProtocolPart, Progress, FruitStep;
    ValsOk(s);
    if s.rpc == RV || s.rpc == RP {
      FruitCallWorks(s, r);
    } else {
      FruitPickWorks(s, r);
    }
  }

  lemma StepWorks(s: Sys, r: Regs)
    requires Inv(s)
    ensures Progress(s, Next(s, false, r))
  {
    hide KernelPart, ProtocolPart, FatherStep, WordStep, FruitStep, Progress;
    CurrIsOurs(s.k, s.c);
    if s.k.curr == s.c.father {
      FatherWorks(s, r);
    } else if s.k.curr == s.c.word {
      WordWorks(s, r);
    } else {
      FruitWorks(s, r);
    }
  }

  lemma TimerWorks(s: Sys, r: Regs)
    requires Inv(s)
    ensures Next(s, true, r).log == s.log && Work(Next(s, true, r)) == Work(s)
  {
    hide KernelPart, After;
    ValsOk(s);
    TimerKernel(s.k, s.c, r);
  }

  lemma {:induction false} WorkUsedUp(s: Sys, sched: seq<(bool, Regs)>)
    requires Inv(s)
    ensures var t := Exec(s, sched);
            Inv(t) && (|t.log| > |s.log| || (t.log == s.log && Work(t) + StepsIn(sched) <= Work(s)))
  {
    hide Inv, Next, Work;
    if sched != [] {
      var n := |sched| - 1;
      WorkUsedUp(s, sched[..n]);
      var t := Exec(s, sched[..n]);
      NextKeeps(t, sched[n].0, sched[n].1);
      if sched[n].0 {
        TimerWorks(t, sched[n].1);
      } else {
        StepWorks(t, sched[n].1);
      }
    }
  }

  /** From every reachable state, in every schedule of 84 program steps and any number of timer
      interrupts, the father prints another line. */
  lemma FatherEatsAgain(s: Sys, before: seq<(bool, Regs)>, sched: seq<(bool, Regs)>)
    requires Start(s) && StepsIn(sched) >= 84
    ensures |Exec(Exec(s, before), sched).log| > |Exec(s, before).log|
  {
    EveryInterleaving(s, before);
    var t := Exec(s, before);
    WorkBound(t);
    WorkUsedUp(t, sched);
    WorkBound(Exec(t, sched));
  }
}
