/** The rendezvous of usr/fruit.c: a father who waits for a blessing and a piece of fruit, and
    two children who provide them.  The program runs on the kernel of Task and Semaphores;
    every load and store of a shared global is a step of its own, and a timer interrupt may
    come between any two steps. */
module Fruit {
  import opened Basics
  import opened Task
  import opened KernelRuns
  import opened SemaphoreQueues
  import opened KernelFacts

  const BLESSING := "Father will live forever!"
  const TEXT := BLESSING + ['\0']

  /** The shared semaphore numbers (word, fruit, word_full, fruit_full) and the slots of the
      three processes; a child's slot is NULL before the fork that makes it. */
  datatype Cast = Cast(w: nat, f: nat, wf: nat, ff: nat, father: nat, word: int, fruit: int)

  /** Where the father is.  FTest1..3 load the plate and compare it with one fruit each. */
  datatype FatherPc = FFork | FPWord | FPFruit | FTest1 | FTest2 | FTest3 | FPrint | FVWord | FClear | FVFruit

  /** The child that runs put_words; strcpy writes character i in WCopy(i). */
  datatype WordPc = WFork | WCopy(i: nat) | WV | WP

  /** The child that runs put_fruit, statement by statement, loads and stores apart. */
  datatype FruitPc = RLoad1 | RStore1 | RTest | RLoad2 | RStore2 | RLoad3 | RStore3 | RV | RP

  /** name and reg are the father's fruit_name and the fruit child's register. */
  datatype Sys = Sys(
    k: Kernel, c: Cast,
    fpc: FatherPc, wpc: WordPc, rpc: FruitPc,
    plate: int, index: int, words: seq<char>, name: int, reg: int,
    log: seq<(string, int)>)

  /** The text of a C string buffer. */
  function CText(b: seq<char>): string {
    if b == [] || b[0] == '\0' then [] else [b[0]] + CText(b[1..])
  }

  ghost function FatherStep(s: Sys, r: Regs): Sys {
    match s.fpc
    case FFork => s.(k := After(s.k, CallEvent(ForkCall, r)), c := s.c.(word := Child(s.k)), fpc := FPWord)
    case FPWord => s.(k := P(s.k, s.c.w, r), fpc := FPFruit)
    case FPFruit => s.(k := P(s.k, s.c.f, r), fpc := FTest1)
    case FTest1 => if s.plate == 1 then s.(name := 1, fpc := FPrint) else s.(fpc := FTest2)
    case FTest2 => if s.plate == 2 then s.(name := 2, fpc := FPrint) else s.(fpc := FTest3)
    case FTest3 => if s.plate == 3 then s.(name := 3, fpc := FPrint) else s.(fpc := FPrint)
    case FPrint => s.(log := s.log + [(CText(s.words), s.name)], fpc := FVWord)
    case FVWord => s.(k := V(s.k, s.c.wf, r), fpc := FClear)
    case FClear => s.(plate := 0, fpc := FVFruit)
    case FVFruit => s.(k := V(s.k, s.c.ff, r), fpc := FPWord)
  }

  ghost function WordStep(s: Sys, r: Regs): Sys {
    match s.wpc
    case WFork => s.(k := After(s.k, CallEvent(ForkCall, r)), c := s.c.(fruit := Child(s.k)), wpc := WCopy(0))
    case WCopy(i) =>
      if i < |TEXT| && i < |s.words| then
        s.(words := s.words[i := TEXT[i]], wpc := if TEXT[i] == '\0' then WV else WCopy(i + 1))
      else s
    case WV => s.(k := V(s.k, s.c.w, r), wpc := WP)
    case WP => s.(k := P(s.k, s.c.wf, r), wpc := WCopy(0))
  }

  ghost function FruitStep(s: Sys, r: Regs): Sys {
    match s.rpc
    case RLoad1 => s.(reg := s.index, rpc := RStore1)
    case RStore1 => s.(index := (s.reg + 1) % 4, rpc := RTest)
    case RTest => if s.index == 0 then s.(rpc := RLoad2) else s.(rpc := RLoad3)
    case RLoad2 => s.(reg := s.index, rpc := RStore2)
    case RStore2 => s.(index := s.reg + 1, rpc := RLoad3)
    case RLoad3 => s.(reg := s.index, rpc := RStore3)
    case RStore3 => s.(plate := s.reg, rpc := RV)
    case RV => s.(k := V(s.k, s.c.f, r), rpc := RP)
    case RP => s.(k := P(s.k, s.c.ff, r), rpc := RLoad1)
  }

  /** Either a timer interrupt, or the current process executes its next step. */
  ghost function Next(s: Sys, timer: bool, r: Regs): Sys {
    if timer then s.(k := After(s.k, TimerEvent(r)))
    else if s.k.curr == s.c.father then FatherStep(s, r)
    else if s.k.curr == s.c.word then WordStep(s, r)
    else if s.k.curr == s.c.fruit then FruitStep(s, r)
    else s
  }

  ghost function Exec(s: Sys, sched: seq<(bool, Regs)>): Sys {
    if sched == [] then s
    else
      var n := |sched| - 1;
      Next(Exec(s, sched[..n]), sched[n].0, sched[n].1)
  }

  // ---------------------------------------------------------------- the invariant

  predicate IdsOk(k: Kernel, d: Cast) {
    && d.w < |k.sems| && d.f < |k.sems| && d.wf < |k.sems| && d.ff < |k.sems|
    && d.w != d.f && d.w != d.wf && d.w != d.ff && d.f != d.wf && d.f != d.ff && d.wf != d.ff
  }

  ghost predicate Alone(k: Kernel, c: Cast) {
    forall i :: 0 <= i < |k.procs| && i != c.father && i != c.word && i != c.fruit ==>
      !Runnable(k.procs[i].status)
  }

  /** The father has called P(word) and not yet V(word_full). */
  predicate FatherHasWord(p: FatherPc) {
    p.FPFruit? || p.FTest1? || p.FTest2? || p.FTest3? || p.FPrint? || p.FVWord?
  }

  /** The father has called P(fruit) and not yet V(fruit_full). */
  predicate FatherHasFruit(p: FatherPc) {
    p.FTest1? || p.FTest2? || p.FTest3? || p.FPrint? || p.FVWord? || p.FClear? || p.FVFruit?
  }

  /** Conservation: for each of the two meeting points there is exactly one token, on one of
      the two semaphores or with one of the two parties. */
  predicate Tokens(w: int, f: int, wf: int, ff: int, fpc: FatherPc, wpc: WordPc, rpc: FruitPc) {
    && w + Bit(FatherHasWord(fpc)) + wf + Bit(!wpc.WP?) == 1
    && f + Bit(FatherHasFruit(fpc)) + ff + Bit(!rpc.RP?) == 1
    && (w == -1 ==> fpc == FPFruit)
    && (f == -1 ==> fpc == FTest1)
    && (wf == -1 ==> wpc == WCopy(0))
    && (ff == -1 ==> rpc == RLoad1)
  }

  /** The k-th piece of fruit, counted from 0. */
  function FruitAt(k: nat): int {
    1 + k % 3
  }

  /** fruit_index after n pieces. */
  function IndexAfter(n: nat): int {
    if n == 0 then 0 else FruitAt(n - 1)
  }

  /** The fruit child holds the token and has not put the n-th piece on the plate yet. */
  predicate Picking(rpc: FruitPc, plate: int, index: int, reg: int, n: nat) {
    match rpc
    case RLoad1 => plate == 0 && index == IndexAfter(n)
    case RStore1 => plate == 0 && index == IndexAfter(n) && reg == index
    case RTest => plate == 0 && index == (IndexAfter(n) + 1) % 4
    case RLoad2 => plate == 0 && index == 0 && (IndexAfter(n) + 1) % 4 == 0
    case RStore2 => plate == 0 && index == 0 && reg == 0 && (IndexAfter(n) + 1) % 4 == 0
    case RLoad3 => plate == 0 && index == FruitAt(n)
    case RStore3 => plate == 0 && index == FruitAt(n) && reg == index
    case RV => plate == index == FruitAt(n)
    case RP => true
  }

  /** The father holds the fruit token; n lines are printed. */
  predicate Eating(fpc: FatherPc, plate: int, index: int, name: int, n: nat) {
    match fpc
    case FTest1 => plate == index == FruitAt(n)
    case FTest2 => plate == index == FruitAt(n) && plate != 1
    case FTest3 => plate == index == FruitAt(n) && plate != 1 && plate != 2
    case FPrint => plate == index == FruitAt(n) && name == plate
    case FVWord => n > 0 && plate == index == FruitAt(n - 1)
    case FClear => n > 0 && plate == index == FruitAt(n - 1)
    case FVFruit => n > 0 && plate == 0 && index == FruitAt(n - 1)
    case _ => true
  }

  predicate Printed(log: seq<(string, int)>) {
    forall i :: 0 <= i < |log| ==> log[i] == (BLESSING, FruitAt(i))
  }

  /** What holds of the program when the counters of word, fruit, word_full and fruit_full
      are w, f, wf and ff, and room slots of the table are unused. */
  predicate Protocol(s: Sys, w: int, f: int, wf: int, ff: int, room: int) {
    && Tokens(w, f, wf, ff, s.fpc, s.wpc, s.rpc)
    // the forks
    && (s.c.word == NULL ==> s.fpc == FFork && s.wpc == WFork && room >= 2)
    && (s.fpc == FFork ==> s.c.word == NULL)
    && (s.c.fruit == NULL <==> s.wpc == WFork)
    && (s.c.fruit == NULL ==> s.rpc == RLoad1 && room >= 1 && ff == 0)
    && (s.wpc == WFork ==> wf == 0)
    // the fruit: whoever holds the token knows what is on the plate
    && Printed(s.log)
    && (!s.rpc.RP? && ff >= 0 ==> Picking(s.rpc, s.plate, s.index, s.reg, |s.log|))
    && (f > 0 ==> s.plate == s.index == FruitAt(|s.log|))
    && (FatherHasFruit(s.fpc) && f >= 0 ==> Eating(s.fpc, s.plate, s.index, s.name, |s.log|))
    && (ff > 0 ==> s.plate == 0 && s.index == IndexAfter(|s.log|))
    // the blessing: words[..i] is as far as strcpy has come
    && |s.words| == 100
    && (s.wpc.WCopy? && wf >= 0 ==> s.wpc.i < |TEXT| && s.words[..s.wpc.i] == TEXT[..s.wpc.i])
    && (s.wpc.WCopy? && wf < 0 ==> s.wpc.i == 0)
    && (s.wpc.WV? || s.wpc.WP? || (s.wpc.WCopy? && wf < 0) ==> s.words[..|TEXT|] == TEXT)
  }

  ghost predicate ProtocolPart(s: Sys) {
    Protocol(s, Val(s.k, s.c.w), Val(s.k, s.c.f), Val(s.k, s.c.wf), Val(s.k, s.c.ff), |s.k.procs| - s.k.currPid)
  }

  /** The part of the invariant that speaks about the kernel. */
  ghost predicate KernelPart(k: Kernel, c: Cast) {
    && Good(k) && IdsOk(k, c) && Alone(k, c)
    && Link(k, c.w, c.father) && Link(k, c.f, c.father)
    && Link(k, c.wf, c.word) && Link(k, c.ff, c.fruit)
    && Sound(k, c.father, Val(k, c.w) < 0 || Val(k, c.f) < 0)
    && (c.word != NULL ==> Sound(k, c.word, Val(k, c.wf) < 0))
    && (c.fruit != NULL ==> Sound(k, c.fruit, Val(k, c.ff) < 0))
    && c.father != c.word && c.father != c.fruit && (c.word != NULL ==> c.word != c.fruit)
    && c.word >= NULL && c.fruit >= NULL
  }

  ghost predicate Inv(s: Sys) {
    KernelPart(s.k, s.c) && ProtocolPart(s)
  }

  /** The state in which main reaches its first fork, with two free slots in the table and
      nobody else to run. */
  ghost predicate Start(s: Sys) {
    && Good(s.k) && IdsOk(s.k, s.c) && s.c.father == s.k.curr && s.c.word == NULL && s.c.fruit == NULL
    && s.k.currPid + 2 <= |s.k.procs|
    && (forall id :: id in {s.c.w, s.c.f, s.c.wf, s.c.ff} ==>
          s.k.sems[id].val == 0 && s.k.sems[id].head == NULL)
    && (forall i :: 0 <= i < |s.k.procs| && i != s.c.father ==> !Runnable(s.k.procs[i].status))
    && s.fpc == FFork && s.wpc == WFork && s.rpc == RLoad1
    && s.plate == 0 && s.index == 0 && |s.words| == 100 && s.log == []
  }

  lemma StartInv(s: Sys)
    requires Start(s)
    ensures Inv(s)
  {
  }

  // ---------------------------------------------------------------- kernel steps

  predicate OneOf(d: Cast, id: nat) {
    id == d.w || id == d.f || id == d.wf || id == d.ff
  }

  /** The only process that ever waits for semaphore id. */
  function Waiter(c: Cast, id: nat): int {
    if id == c.w || id == c.f then c.father else if id == c.wf then c.word else c.fruit
  }

  /** The counters after an operation that adds d to semaphore id. */
  predicate Counted(k: Kernel, m: Kernel, c: Cast, id: nat, d: int) {
    && Val(m, c.w) == Val(k, c.w) + (if id == c.w then d else 0)
    && Val(m, c.f) == Val(k, c.f) + (if id == c.f then d else 0)
    && Val(m, c.wf) == Val(k, c.wf) + (if id == c.wf then d else 0)
    && Val(m, c.ff) == Val(k, c.ff) + (if id == c.ff then d else 0)
    && m.currPid == k.currPid && |m.procs| == |k.procs|
  }

  lemma CurrIsOurs(k: Kernel, c: Cast)
    requires KernelPart(k, c)
    ensures k.curr == c.father || k.curr == c.word || k.curr == c.fruit
  {
  }

  lemma TimerKernel(k: Kernel, c: Cast, r: Regs)
    requires KernelPart(k, c)
    ensures Enabled(k, TimerEvent(r))
    ensures var m := After(k, TimerEvent(r)); KernelPart(m, c) && Counted(k, m, c, c.w, 0)
  {
    hide Apply, Good;
    TimerFacts(k, r);
    GoodTable(k);
  }

  lemma ReadyOther(k: Kernel, c: Cast, y: int)
    requires KernelPart(k, c) && Slot(k, y) && y != k.curr && Runnable(k.procs[y].status)
    ensures OtherReady(k)
  {
    assert k.procs[y].status == Ready;
  }

  /** The father's other semaphore. */
  function Sibling(d: Cast, id: nat): nat {
    if id == d.w then d.f else d.w
  }

  /** An event that touched slot x and semaphore id only keeps the kernel part if it leaves
      the semaphore linked to its waiter and that waiter asleep exactly when it waits. */
  lemma KernelFrame(k: Kernel, c: Cast, m: Kernel, id: nat, x: int, v: int, h: int)
    requires KernelPart(k, c) && OneOf(c, id) && x == Waiter(c, id)
    requires Good(m) && Others(k, m, x) && m.sems == k.sems[id := k.sems[id].(val := v, head := h)]
    requires -1 <= v && h == (if v < 0 then x else NULL)
    requires x != NULL ==>
               if v < 0 || (x == c.father && Val(k, Sibling(c, id)) < 0)
               then m.procs[x].status == Waiting else Runnable(m.procs[x].status)
    ensures KernelPart(m, c) && Counted(k, m, c, id, v - Val(k, id))
  {
    hide Good;
  }

  /** P by the process that may wait on the semaphore; y is somebody else who can run. */
  lemma PKernel(k: Kernel, c: Cast, id: nat, r: Regs, y: int)
    requires KernelPart(k, c) && OneOf(c, id) && k.curr == Waiter(c, id) && Val(k, id) >= 0
    requires Val(k, id) == 0 ==> Slot(k, y) && y != k.curr && Runnable(k.procs[y].status)
    ensures Enabled(k, CallEvent(PCall(id), r))
    ensures var m := P(k, id, r); KernelPart(m, c) && Counted(k, m, c, id, -1)
  {
    hide Apply;
    if Val(k, id) > 0 {
      PPasses(k, id, r);
      KernelFrame(k, c, P(k, id, r), id, k.curr, Val(k, id) - 1, NULL);
    } else {
      ReadyOther(k, c, y);
      PBlocksCaller(k, id, r);
      KernelFrame(k, c, P(k, id, r), id, k.curr, -1, k.curr);
    }
  }

  /** V by somebody else. */
  lemma VKernel(k: Kernel, c: Cast, id: nat, r: Regs)
    requires KernelPart(k, c) && OneOf(c, id) && k.curr != Waiter(c, id)
    requires !(Val(k, c.w) < 0 && Val(k, c.f) < 0)
    requires Val(k, id) < 0 ==> Waiter(c, id) != NULL
    ensures Enabled(k, CallEvent(VCall(id), r))
    ensures var m := V(k, id, r); KernelPart(m, c) && Counted(k, m, c, id, 1)
  {
    hide Apply;
    if Val(k, id) >= 0 {
      VPasses(k, id, r);
      KernelFrame(k, c, V(k, id, r), id, Waiter(c, id), Val(k, id) + 1, NULL);
    } else {
      VWakesWaiter(k, id, r, Waiter(c, id));
      KernelFrame(k, c, V(k, id, r), id, Waiter(c, id), 0, NULL);
    }
  }

  // ---------------------------------------------------------------- program steps

  lemma ValsOk(s: Sys)
    requires KernelPart(s.k, s.c)
    ensures Val(s.k, s.c.w) >= -1 && Val(s.k, s.c.f) >= -1 && Val(s.k, s.c.wf) >= -1 && Val(s.k, s.c.ff) >= -1
    ensures IdsOk(s.k, s.c)
    ensures OneOf(s.c, s.c.w) && OneOf(s.c, s.c.f) && OneOf(s.c, s.c.wf) && OneOf(s.c, s.c.ff)
    ensures Waiter(s.c, s.c.w) == s.c.father && Waiter(s.c, s.c.f) == s.c.father
    ensures Waiter(s.c, s.c.wf) == s.c.word && Waiter(s.c, s.c.ff) == s.c.fruit
    ensures s.k.curr == s.c.father ==> Val(s.k, s.c.w) >= 0 && Val(s.k, s.c.f) >= 0
    ensures s.k.curr == s.c.word ==> Val(s.k, s.c.wf) >= 0
    ensures s.k.curr == s.c.fruit ==> Val(s.k, s.c.ff) >= 0
    ensures s.k.curr != NULL && s.c.father != s.c.word && s.c.father != s.c.fruit && (s.c.word != NULL ==> s.c.word != s.c.fruit)
    ensures Slot(s.k, s.c.father) && (s.c.word != NULL ==> Slot(s.k, s.c.word)) && (s.c.fruit != NULL ==> Slot(s.k, s.c.fruit))
    ensures Val(s.k, s.c.w) >= 0 && Val(s.k, s.c.f) >= 0 ==> Runnable(StatusOf(s.k, s.c.father))
    ensures s.c.word != NULL && Val(s.k, s.c.wf) >= 0 ==> Runnable(StatusOf(s.k, s.c.word))
    ensures s.c.fruit != NULL && Val(s.k, s.c.ff) >= 0 ==> Runnable(StatusOf(s.k, s.c.fruit))
  {
  }

  /** Whom the father's P leaves to run. */
  lemma FatherLeaves(s: Sys, id: nat) returns (y: int)
    requires Inv(s) && s.k.curr == s.c.father
    requires (s.fpc == FPWord && id == s.c.w) || (s.fpc == FPFruit && id == s.c.f)
    ensures Val(s.k, id) == 0 ==> Slot(s.k, y) && y != s.k.curr && Runnable(s.k.procs[y].status)
  {
    hide KernelPart;
    ValsOk(s);
    y := if Val(s.k, s.c.wf) >= 0 && (s.fpc == FPWord || s.c.fruit == NULL) then s.c.word else s.c.fruit;
  }

  lemma CTextIs(b: seq<char>, t: string)
    requires |t| < |b| && b[..|t|] == t && b[|t|] == '\0' && '\0' !in t
    ensures CText(b) == t
  {
    if t != [] {
      assert b[0] == t[0];
      assert b[1..][..|t|-1] == t[1..] by {
        assert b[..|t|][1..] == t[1..];
      }
      CTextIs(b[1..], t[1..]);
    }
  }

  lemma BlessingIs(words: seq<char>)
    requires |words| >= |TEXT| && words[..|TEXT|] == TEXT
    ensures CText(words) == BLESSING
  {
    assert words[..|BLESSING|] == TEXT[..|BLESSING|] == BLESSING by {
      assert words[..|TEXT|][..|BLESSING|] == words[..|BLESSING|];
    }
    assert words[|BLESSING|] == words[..|TEXT|][|BLESSING|];
    CTextIs(words, BLESSING);
  }

  /** When the father prints, the blessing is complete and the fruit is the next in turn. */
  lemma FatherPrints(s: Sys, r: Regs)
    requires Inv(s) && s.k.curr == s.c.father && s.fpc == FPrint
    ensures Inv(FatherStep(s, r))
  {
    hide KernelPart, P, V;
    ValsOk(s);
    BlessingIs(s.words);
  }

  lemma FatherWaitsWord(s: Sys, r: Regs)
    requires Inv(s) && s.k.curr == s.c.father && s.fpc == FPWord
    ensures Inv(FatherStep(s, r))
  {
    hide KernelPart, P, V, Picking, Printed;
    ValsOk(s);
    var y := FatherLeaves(s, s.c.w);
    PKernel(s.k, s.c, s.c.w, r, y);
  }

  lemma FatherWaitsFruit(s: Sys, r: Regs)
    requires Inv(s) && s.k.curr == s.c.father && s.fpc == FPFruit
    ensures Inv(FatherStep(s, r))
  {
    hide KernelPart, P, V, Picking, Printed;
    ValsOk(s);
    var y := FatherLeaves(s, s.c.f);
    PKernel(s.k, s.c, s.c.f, r, y);
  }

  lemma FatherReturnsWord(s: Sys, r: Regs)
    requires Inv(s) && s.k.curr == s.c.father && s.fpc == FVWord
    ensures Inv(FatherStep(s, r))
  {
    hide KernelPart, P, V, Picking, Printed;
    ValsOk(s);
    VKernel(s.k, s.c, s.c.wf, r);
  }

  lemma FatherReturnsFruit(s: Sys, r: Regs)
    requires Inv(s) && s.k.curr == s.c.father && s.fpc == FVFruit
    ensures Inv(FatherStep(s, r))
  {
    hide KernelPart, P, V, Printed;
    ValsOk(s);
    VKernel(s.k, s.c, s.c.ff, r);
  }

  lemma FatherForks(s: Sys, r: Regs)
    requires Inv(s) && s.k.curr == s.c.father && s.fpc == FFork
    ensures Inv(FatherStep(s, r))
  {
    hide KernelPart, P, V, After;
    ValsOk(s);
    ForkKernel(s.k, s.c, r);
  }

  lemma FatherEats(s: Sys, r: Regs)
    requires Inv(s) && s.k.curr == s.c.father
    requires s.fpc == FTest1 || s.fpc == FTest2 || s.fpc == FTest3 || s.fpc == FClear
    ensures Inv(FatherStep(s, r))
  {
    hide KernelPart, P, V;
    ValsOk(s);
  }

  lemma FatherKeeps(s: Sys, r: Regs)
    requires Inv(s) && s.k.curr == s.c.father
    ensures Inv(FatherStep(s, r))
  {
    hide Inv, FatherStep;
    match s.fpc
    case FPWord => FatherWaitsWord(s, r);
    case FPFruit => FatherWaitsFruit(s, r);
    case FVWord => FatherReturnsWord(s, r);
    case FVFruit => FatherReturnsFruit(s, r);
    case FPrint => FatherPrints(s, r);
    case FFork => FatherForks(s, r);
    case _ => FatherEats(s, r);
  }

  /** A fork with room in the table: the child takes slot currPid. */
  lemma ForkKernel(k: Kernel, c: Cast, r: Regs)
    requires KernelPart(k, c) && k.currPid < |k.procs|
    requires c.fruit == NULL && Val(k, c.ff) == 0
    ensures Enabled(k, CallEvent(ForkCall, r)) && Child(k) == k.currPid
    ensures var m := After(k, CallEvent(ForkCall, r));
            && m.currPid == k.currPid + 1 && |m.procs| == |k.procs| && m.sems == k.sems
            && (c.word != NULL ==> KernelPart(m, c.(fruit := k.currPid)))
            && (c.word == NULL && Val(k, c.wf) == 0 ==> KernelPart(m, c.(word := k.currPid)))
  {
    hide Apply;
    ForkFacts(k, r);
    FirstNewIs(k);
  }

  lemma WordLeaves(s: Sys) returns (y: int)
    requires Inv(s) && s.k.curr == s.c.word && s.wpc == WP
    ensures Val(s.k, s.c.wf) == 0 ==> Slot(s.k, y) && y != s.k.curr && Runnable(s.k.procs[y].status)
  {
    hide KernelPart;
    ValsOk(s);
    y := if Val(s.k, s.c.w) >= 0 && Val(s.k, s.c.f) >= 0 then s.c.father else s.c.fruit;
  }

  lemma WordForks(s: Sys, r: Regs)
    requires Inv(s) && s.k.curr == s.c.word && s.wpc == WFork
    ensures Inv(WordStep(s, r))
  {
    hide KernelPart, P, V, After;
    ValsOk(s);
    ForkKernel(s.k, s.c, r);
    assert s.words[..0] == TEXT[..0];
  }

  lemma WordSignals(s: Sys, r: Regs)
    requires Inv(s) && s.k.curr == s.c.word && s.wpc == WV
    ensures Inv(WordStep(s, r))
  {
    hide KernelPart, P, V;
    ValsOk(s);
    VKernel(s.k, s.c, s.c.w, r);
  }

  lemma WordWaits(s: Sys, r: Regs)
    requires Inv(s) && s.k.curr == s.c.word && s.wpc == WP
    ensures Inv(WordStep(s, r))
  {
    hide KernelPart, P, V;
    ValsOk(s);
    var y := WordLeaves(s);
    PKernel(s.k, s.c, s.c.wf, r, y);
    assert s.words[..0] == TEXT[..0];
  }

  lemma WordKeeps(s: Sys, r: Regs)
    requires Inv(s) && s.k.curr == s.c.word
    ensures Inv(WordStep(s, r))
  {
    hide Inv, WordStep;
    match s.wpc
    case WFork => WordForks(s, r);
    case WCopy(i) => WordCopies(s, r);
    case WV => WordSignals(s, r);
    case WP => WordWaits(s, r);
  }

  lemma WordCopies(s: Sys, r: Regs)
    requires Inv(s) && s.k.curr == s.c.word && s.wpc.WCopy?
    ensures Inv(WordStep(s, r))
  {
    hide KernelPart, Protocol;
    ValsOk(s);
    CopyAdvances(s, r, Val(s.k, s.c.w), Val(s.k, s.c.f), Val(s.k, s.c.wf), Val(s.k, s.c.ff), |s.k.procs| - s.k.currPid);
  }

  /** One character of strcpy keeps the protocol. */
  lemma CopyAdvances(s: Sys, r: Regs, w: int, f: int, wf: int, ff: int, room: int)
    requires Protocol(s, w, f, wf, ff, room) && s.wpc.WCopy? && wf >= 0
    ensures Protocol(WordStep(s, r), w, f, wf, ff, room)
    ensures WordStep(s, r).k == s.k && WordStep(s, r).c == s.c
  {
    hide Picking, Eating, Printed;
    OneMore(s.words, s.wpc.i);
  }

  lemma OneMore(words: seq<char>, i: nat)
    requires i < |TEXT| <= |words| && words[..i] == TEXT[..i]
    ensures words[i := TEXT[i]][..i+1] == TEXT[..i+1]
    ensures TEXT[i] == '\0' <==> i == |TEXT| - 1
    ensures TEXT[i] == '\0' ==> words[i := TEXT[i]][..|TEXT|] == TEXT
  {
    var u := words[i := TEXT[i]];
    assert u[..i+1] == words[..i] + [TEXT[i]] == TEXT[..i+1];
    assert TEXT[..|TEXT|] == TEXT;
  }

  lemma FruitLeaves(s: Sys) returns (y: int)
    requires Inv(s) && s.k.curr == s.c.fruit && s.rpc == RP
    ensures Val(s.k, s.c.ff) == 0 ==> Slot(s.k, y) && y != s.k.curr && Runnable(s.k.procs[y].status)
  {
    hide KernelPart;
    ValsOk(s);
    y := if Val(s.k, s.c.w) >= 0 && Val(s.k, s.c.f) >= 0 then s.c.father else s.c.word;
  }

  /** The steps of put_fruit keep the protocol while the fruit child holds the token. */
  lemma PickingAdvances(s: Sys, r: Regs)
    requires s.rpc != RV && s.rpc != RP && Picking(s.rpc, s.plate, s.index, s.reg, |s.log|)
    ensures var t := FruitStep(s, r);
            && t == s.(rpc := t.rpc, plate := t.plate, index := t.index, reg := t.reg) && !t.rpc.RP?
            && t.rpc != RLoad1 && Picking(t.rpc, t.plate, t.index, t.reg, |t.log|)
  {
  }

  lemma FruitPicks(s: Sys, r: Regs)
    requires Inv(s) && s.k.curr == s.c.fruit && s.rpc != RV && s.rpc != RP
    ensures Inv(FruitStep(s, r))
  {
    hide KernelPart, FruitStep, Picking, Eating;
    ValsOk(s);
    PickingAdvances(s, r);
  }

  lemma FruitSignals(s: Sys, r: Regs)
    requires Inv(s) && s.k.curr == s.c.fruit && s.rpc == RV
    ensures Inv(FruitStep(s, r))
  {
    hide KernelPart, P, V;
    ValsOk(s);
    VKernel(s.k, s.c, s.c.f, r);
  }

  lemma FruitWaits(s: Sys, r: Regs)
    requires Inv(s) && s.k.curr == s.c.fruit && s.rpc == RP
    ensures Inv(FruitStep(s, r))
  {
    hide KernelPart, P, V;
    ValsOk(s);
    var y := FruitLeaves(s);
    PKernel(s.k, s.c, s.c.ff, r, y);
  }

  lemma FruitKeeps(s: Sys, r: Regs)
    requires Inv(s) && s.k.curr == s.c.fruit
    ensures Inv(FruitStep(s, r))
  {
    hide Inv, FruitStep;
    match s.rpc
    case RV => FruitSignals(s, r);
    case RP => FruitWaits(s, r);
    case _ => FruitPicks(s, r);
  }

  lemma NextKeeps(s: Sys, timer: bool, r: Regs)
    requires Inv(s)
    ensures Inv(Next(s, timer, r))
  {
    hide KernelPart, ProtocolPart, FatherStep, WordStep, FruitStep, After;
    CurrIsOurs(s.k, s.c);
    if timer {
      TimerKeeps(s, r);
    } else if s.k.curr == s.c.father {
      FatherKeeps(s, r);
    } else if s.k.curr == s.c.word {
      WordKeeps(s, r);
    } else {
      FruitKeeps(s, r);
    }
  }

  lemma TimerKeeps(s: Sys, r: Regs)
    requires Inv(s)
    ensures Inv(s.(k := After(s.k, TimerEvent(r))))
  {
    hide KernelPart, After;
    TimerKernel(s.k, s.c, r);
  }

  // ---------------------------------------------------------------- results

  /** The father looks only at a full plate, the fruit child puts fruit only on an empty one,
      the lines printed so far carry the whole blessing and the fruits in turn, and at least
      one of the three processes is not blocked: the one that is executing. */
  ghost predicate Safe(s: Sys) {
    && (s.k.curr == s.c.father && (s.fpc.FTest1? || s.fpc.FTest2? || s.fpc.FTest3? || s.fpc.FPrint?) ==>
          1 <= s.plate <= 3)
    && (s.k.curr == s.c.fruit && s.rpc == RStore3 ==> s.plate == 0)
    && (forall i :: 0 <= i < |s.log| ==> s.log[i] == (BLESSING, 1 + i % 3))
    && Executing(s.k) && (s.k.curr == s.c.father || s.k.curr == s.c.word || s.k.curr == s.c.fruit)
  }

  lemma InvSafe(s: Sys)
    requires Inv(s)
    ensures Safe(s)
  {
    ValsOk(s);
    CurrIsOurs(s.k, s.c);
  }

  /** Safety and freedom from deadlock over every interleaving. */
  lemma {:induction false} EveryInterleaving(s: Sys, sched: seq<(bool, Regs)>)
    requires Start(s)
    ensures Inv(Exec(s, sched)) && Safe(Exec(s, sched))
  {
    hide Inv, Next, Safe, Start;
    if sched == [] {
      StartInv(s);
    } else {
      var n := |sched| - 1;
      EveryInterleaving(s, sched[..n]);
      NextKeeps(Exec(s, sched[..n]), sched[n].0, sched[n].1);
    }
    InvSafe(Exec(s, sched));
  }
}
