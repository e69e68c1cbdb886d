/** The states in which the semaphores go wrong are reachable: runs of the kernel from power-on,
    every step of which is fair, that lead to each of them. */
module SemaphoreWitnesses {
  import opened Basics
  import opened Task
  import opened Semaphores
  import opened KernelRuns
  import opened SemaphoreQueues
  import opened SemaphoreLimits
  import opened KernelFacts
  import opened Prologue

  /** The fair run es leads from k0 to k, with these queues and tallies. */
  ghost predicate Reached(k0: Kernel, k: Kernel, qs: seq<seq<nat>>, ts: seq<Tally>, es: seq<Event>) {
    exists ks, qss, tss :: FairRun(ks, qss, tss, es) && ks[0] == k0 && ks[|es|] == k && qss[|es|] == qs && tss[|es|] == ts
  }

  lemma ReachedRefines(k0: Kernel, k: Kernel, qs: seq<seq<nat>>, ts: seq<Tally>, es: seq<Event>)
    requires Reached(k0, k, qs, ts, es)
    ensures Refines(k, qs, ts) && |qs| == |ts| == |k.sems|
  {
    hide Refines, FairStep, Counts;
    var ks, qss, tss :| FairRun(ks, qss, tss, es) && ks[0] == k0 && ks[|es|] == k && qss[|es|] == qs && tss[|es|] == ts;
    CountingSafety(ks, qss, tss, es, |es|);
    CountsSizes(k, qs, ts);
  }

  lemma CountsSizes(k: Kernel, qs: seq<seq<nat>>, ts: seq<Tally>)
    requires Counts(k, qs, ts)
    ensures |qs| == |ts| == |k.sems|
  {
  }

  lemma ReachedBoot(k: Kernel)
    requires Boot(k)
    ensures var qs, ts := seq(|k.sems|, _ => []), seq(|k.sems|, _ => Tally(0, 0, 0));
            Reached(k, k, qs, ts, [])
  {
    hide Boot;
    var qs: seq<seq<nat>>, ts := seq(|k.sems|, _ => []), seq(|k.sems|, _ => Tally(0, 0, 0));
    assert FairRun([k], [qs], [ts], []);
    var none: seq<Event> := [];
    assert [k][|none|] == k;
  }

  /** One more fair step. */
  lemma Extend(k0: Kernel, k: Kernel, qs: seq<seq<nat>>, ts: seq<Tally>, es: seq<Event>, e: Event)
    requires Reached(k0, k, qs, ts, es) && Enabled(k, e) && |qs| == |ts| == |k.sems| && Fair(k, qs, e)
    ensures Reached(k0, ApplyIntended(k, e), ActQueues(qs, ts, ActOf(k, e)), ActTallies(qs, ts, ActOf(k, e)), es + [e])
  {
    hide Fair, ApplyIntended, ActQueues, ActTallies, ActOf, Refines, Boot, NoneWaiting;
    var ks, qss, tss :| FairRun(ks, qss, tss, es) && ks[0] == k0 && ks[|es|] == k && qss[|es|] == qs && tss[|es|] == ts;
    var a, n := ActOf(k, e), |es|;
    var ks', qss', tss', es' := ks + [ApplyIntended(k, e)], qss + [ActQueues(qs, ts, a)], tss + [ActTallies(qs, ts, a)], es + [e];
    forall i | 0 <= i < |es'| ensures FairStep(ks'[i], qss'[i], tss'[i], es'[i], ks'[i+1], qss'[i+1], tss'[i+1]) {
      if i < n {
        assert FairStep(ks[i], qss[i], tss[i], es[i], ks[i+1], qss[i+1], tss[i+1]);
      }
    }
    assert FairRun(ks', qss', tss', es');
  }

  /** A program that holds semaphore 0, whose counter is -b: it consists of the slots below n,
      of which those in the queue of the semaphore wait and the others can run. */
  ghost predicate Family(k: Kernel, qs: seq<seq<nat>>, n: nat, b: nat) {
    && Executing(k) && k.currPid == n <= |k.procs| && |qs| == |k.sems| >= 1
    && k.sems[0].used && k.sems[0].val + b == 0 && |qs[0]| == b
    && (forall i :: 0 <= i < n ==>
          (if i in qs[0] then k.procs[i].status == Waiting else Runnable(k.procs[i].status) && k.procs[i].next == NULL))
    && (forall i :: 1 <= i < n ==> k.procs[i].parent == 0)
  }

  /** Launch, schedule, get_sem(0). */
  lemma Starts(k0: Kernel, img: Regs, r: Regs) returns (k: Kernel, qs: seq<seq<nat>>, ts: seq<Tally>, es: seq<Event>)
    requires Boot(k0) && |k0.procs| >= 1 && |k0.sems| >= 1
    ensures Reached(k0, k, qs, ts, es) && RunsAlone(k, [0]) && |k.procs| == |k0.procs| && |qs| == |k.sems|
    ensures qs[0] == [] && Good(k)
  {
    hide Apply, Reached, OneReady, RunsAlone, Boot;
    ReachedBoot(k0);
    qs, ts := seq(|k0.sems|, _ => []), seq(|k0.sems|, _ => Tally(0, 0, 0));
    Launches(k0, img);
    Extend(k0, k0, qs, ts, [], LaunchEvent(img));
    var k1 := Apply(k0, LaunchEvent(img));
    Schedules(k1);
    Extend(k0, k1, qs, ts, [] + [LaunchEvent(img)], ShellScheduleEvent);
    var k2 := Apply(k1, ShellScheduleEvent);
    GotSem(k2, [], 0, r);
    RunsGood(k2, []);
    es := [] + [LaunchEvent(img)] + [ShellScheduleEvent];
    var e := CallEvent(GetSemCall(0), r);
    Extend(k0, k2, qs, ts, es, e);
    k, ts, es := Apply(k2, e), ActTallies(qs, ts, ActOf(k2, e)), es + [e];
    assert [] + [0] == [0];
    RunsGood(k, [0]);
  }

  lemma RunsGood(k: Kernel, vals: seq<int>)
    requires RunsAlone(k, vals)
    ensures Good(k)
  {
  }

  lemma AloneFamily(k: Kernel, qs: seq<seq<nat>>)
    requires RunsAlone(k, [0]) && |qs| == |k.sems| && qs[0] == []
    ensures Family(k, qs, 1, 0)
  {
  }

  /** A fork by slot 0, nobody waiting. */
  lemma Forks(k: Kernel, qs: seq<seq<nat>>, n: nat, r: Regs)
    requires Family(k, qs, n, 0) && Good(k) && k.curr == 0 && n < |k.procs|
    ensures Enabled(k, CallEvent(ForkCall, r))
    ensures var m := Apply(k, CallEvent(ForkCall, r));
            && Family(m, qs, n + 1, 0) && Good(m) && m.curr == 0 && |m.procs| == |k.procs| && m.sems == k.sems
  {
    hide Apply, Unlinked;
    ForkFacts(k, r);
    FirstNewIs(k);
    NoLinks(Apply(k, CallEvent(ForkCall, r)));
  }

  lemma NoLinks(k: Kernel)
    requires Unlinked(k)
    ensures forall i :: 0 <= i < |k.procs| ==> k.procs[i].next == NULL
  {
  }

  /** SemP changes no parent and no count. */
  lemma PKeepsRest(k: Kernel, s: nat)
    requires TableOk(k) && k.curr != NULL && s < |k.sems|
    ensures var m := SemP(k, s);
            && m.currPid == k.currPid && |m.procs| == |k.procs|
            && forall i :: 0 <= i < |k.procs| ==> m.procs[i].parent == k.procs[i].parent
  {
    hide Schedule;
    if k.sems[s].val <= 0 {
      var b := SetStatus(Enqueue(SetVal(k, s, k.sems[s].val - 1), s), k.curr, Waiting);
      assert TableOk(b);
      ScheduleFacts(b);
    }
  }

  /** A P that blocks while somebody else can run. */
  lemma BlocksHere(k: Kernel, qs: seq<seq<nat>>, n: nat, b: nat)
    requires Family(k, qs, n, b) && Queues(k, qs) && OtherReady(k)
    ensures Family(SemP(k, 0), qs[0 := [k.curr] + qs[0]], n, b + 1)
    ensures |SemP(k, 0).procs| == |k.procs| && SemP(k, 0).curr != k.curr
  {
    hide SemP, Queues, TableOk;
    ExecutingTable(k);
    PBlocks(k, 0);
    BlockedPReturns(k, 0);
    PKeepsRest(k, 0);
    SemCounts(k, 0);
    RunningOffQueues(k, qs, k.curr);
    ExecutingTable(SemP(k, 0));
  }

  lemma ExecutingTable(k: Kernel)
    requires Executing(k)
    ensures TableOk(k) && 0 <= k.curr < k.currPid <= |k.procs| && k.procs[k.curr].status == Running
  {
  }

  lemma Blocks(k: Kernel, qs: seq<seq<nat>>, n: nat, b: nat, r: Regs)
    requires Family(k, qs, n, b) && Queues(k, qs) && OtherReady(k)
    ensures Enabled(k, CallEvent(PCall(0), r))
    ensures var m := Apply(k, CallEvent(PCall(0), r));
            Family(m, qs[0 := [k.curr] + qs[0]], n, b + 1) && |m.procs| == |k.procs| && m.curr != k.curr
  {
    hide SemP, Queues;
    SavedOk(k, r);
    SavedQueues(k, r, qs);
    var d := SaveProc(k, r);
    assert OtherReady(d) by {
      var i :| 0 <= i < |k.procs| && k.procs[i].status == Ready;
      assert d.procs[i].status == Ready;
    }
    BlocksHere(d, qs, n, b);
  }

  // ---------------------------------------------------------------- the witnesses

  /** A P falls through: a program that is alone waits for its own semaphore. */
  lemma FallsThroughReachable(k0: Kernel, img: Regs, r: Regs)
    returns (k: Kernel, qs: seq<seq<nat>>, ts: seq<Tally>, es: seq<Event>)
    requires Boot(k0) && |k0.procs| >= 1 && |k0.sems| >= 1
    ensures Reached(k0, k, qs, ts, es) && Executing(k) && |k.sems| >= 1 && k.sems[0].used && k.sems[0].val == 0
    ensures SemP(k, 0).curr == k.curr && SemP(k, 0).procs[k.curr].status == Waiting
  {
    hide Reached, SemP;
    k, qs, ts, es := Starts(k0, img, r);
    NobodyElse(k);
    BlockedPReturns(k, 0);
  }

  lemma NobodyElse(k: Kernel)
    requires RunsAlone(k, [0])
    ensures Executing(k) && !OtherReady(k) && |k.sems| >= 1 && k.sems[0].used && k.sems[0].val == 0
  {
  }

  /** A father waits for the semaphore while his child runs. */
  lemma FatherQueued(k0: Kernel, img: Regs, r: Regs)
    returns (k: Kernel, qs: seq<seq<nat>>, ts: seq<Tally>, es: seq<Event>)
    requires Boot(k0) && |k0.procs| >= 2 && |k0.sems| >= 1
    ensures Reached(k0, k, qs, ts, es) && Family(k, qs, 2, 1) && Queues(k, qs) && qs[0] == [0] && k.curr == 1
  {
    hide Reached, RunsAlone, Apply, Good, Queues;
    var k1;
    k1, qs, ts, es := Starts(k0, img, r);
    AloneFamily(k1, qs);
    AloneCurr(k1);
    Forks(k1, qs, 1, r);
    k, ts, es := ForkStep(k0, k1, qs, ts, es, 1, r);
    SomebodyElse(k, qs, 2, 0, 1);
    k, qs, ts, es := BlockStep(k0, k, qs, ts, es, 2, 0, r);
  }

  lemma AloneCurr(k: Kernel)
    requires RunsAlone(k, [0])
    ensures k.curr == 0
  {
  }

  lemma SomebodyElse(k: Kernel, qs: seq<seq<nat>>, n: nat, b: nat, y: nat)
    requires Family(k, qs, n, b) && y < n && y != k.curr && y !in qs[0]
    ensures OtherReady(k)
  {
    assert k.procs[y].status == Ready;
  }

  lemma ForkStep(k0: Kernel, k: Kernel, qs: seq<seq<nat>>, ts: seq<Tally>, es: seq<Event>, n: nat, r: Regs)
    returns (m: Kernel, us: seq<Tally>, fs: seq<Event>)
    requires Reached(k0, k, qs, ts, es) && Family(k, qs, n, 0) && Good(k) && k.curr == 0 && n < |k.procs|
    ensures Reached(k0, m, qs, us, fs) && Family(m, qs, n + 1, 0) && Good(m) && m.curr == 0 && |m.procs| == |k.procs|
  {
    hide Reached, Apply, Good, Family;
    var e := CallEvent(ForkCall, r);
    ReachedRefines(k0, k, qs, ts, es);
    FamilyRuns(k, qs, n, 0);
    Forks(k, qs, n, r);
    Extend(k0, k, qs, ts, es, e);
    m, us, fs := Apply(k, e), ts, es + [e];
  }

  lemma FamilyRuns(k: Kernel, qs: seq<seq<nat>>, n: nat, b: nat)
    requires Family(k, qs, n, b)
    ensures Executing(k) && TableOk(k) && |qs| == |k.sems| >= 1 && k.sems[0].used && k.sems[0].val + b == 0
  {
  }

  lemma BlockStep(k0: Kernel, k: Kernel, qs: seq<seq<nat>>, ts: seq<Tally>, es: seq<Event>, n: nat, b: nat, r: Regs)
    returns (m: Kernel, ps: seq<seq<nat>>, us: seq<Tally>, fs: seq<Event>)
    requires Reached(k0, k, qs, ts, es) && Family(k, qs, n, b) && OtherReady(k)
    ensures |qs| >= 1 && ps == qs[0 := [k.curr] + qs[0]]
    ensures Reached(k0, m, ps, us, fs) && Queues(m, ps)
    ensures Family(m, ps, n, b + 1) && |m.procs| == |k.procs| && m.curr != k.curr
  {
    hide Reached, Apply, Good, Family, Queues, Balanced, OtherReady, TableOk;
    var e := CallEvent(PCall(0), r);
    ReachedRefines(k0, k, qs, ts, es);
    FamilyRuns(k, qs, n, b);
    CountersAgree(k, qs, ts, 0);
    Blocks(k, qs, n, b, r);
    Extend(k0, k, qs, ts, es, e);
    m, ps, us, fs := Apply(k, e), qs[0 := [k.curr] + qs[0]], ActTallies(qs, ts, ActOf(k, e)), es + [e];
    ReachedRefines(k0, m, ps, us, fs);
  }

  /** exit takes a father out of the queue of a semaphore he waits for, and so does kill. */
  lemma ExitAndKillReachable(k0: Kernel, img: Regs, r: Regs)
    returns (k: Kernel, qs: seq<seq<nat>>, ts: seq<Tally>, es: seq<Event>)
    requires Boot(k0) && |k0.procs| >= 2 && |k0.sems| >= 1
    ensures Reached(k0, k, qs, ts, es) && Executing(k) && Queues(k, qs)
    ensures k.procs[k.curr].parent == 0 && |qs| >= 1 && qs[0] == [0]
    ensures !exists rs :: Queues(Exit(k), rs)
    ensures !exists rs :: Queues(Kill(k, 1), rs)
  {
    hide Reached, Queues, Exit, Kill;
    k, qs, ts, es := FatherQueued(k0, img, r);
    assert 0 in qs[0];
    ExitKeepsQueuesIff(k, qs);
    KillKeepsQueuesIff(k, 1, qs);
    assert FindPid(k.procs, 1, 0) == 0;
  }

  /** Two processes wait for one semaphore, and a third one that never waited signals it: the
      code as written leaves a counter that promises a waiter and an empty list. */
  lemma LostWaitersReachable(k0: Kernel, img: Regs, r: Regs)
    returns (k: Kernel, qs: seq<seq<nat>>, ts: seq<Tally>, es: seq<Event>)
    requires Boot(k0) && |k0.procs| >= 3 && |k0.sems| >= 1
    ensures Reached(k0, k, qs, ts, es) && Executing(k) && Queues(k, qs) && |qs| >= 1 && |qs[0]| == 2
    ensures Enabled(k, CallEvent(VCall(0), r)) && |Apply(k, CallEvent(VCall(0), r)).sems| >= 1
    ensures var m := Apply(k, CallEvent(VCall(0), r)); m.sems[0].val < 0 && !HeadThere(m, 0)
  {
    hide Reached, RunsAlone, Apply, Good, Queues;
    var k1;
    k1, qs, ts, es := Starts(k0, img, r);
    AloneFamily(k1, qs);
    AloneCurr(k1);
    k, ts, es := ForkStep(k0, k1, qs, ts, es, 1, r);
    k, ts, es := ForkStep(k0, k, qs, ts, es, 2, r);
    SomebodyElse(k, qs, 3, 0, 1);
    k, qs, ts, es := BlockStep(k0, k, qs, ts, es, 3, 0, r);
    SomebodyElse(k, qs, 3, 1, 3 - k.curr);
    k, qs, ts, es := BlockStep(k0, k, qs, ts, es, 3, 1, r);
    SignalLoses(k, qs, r);
  }

  lemma SignalLoses(k: Kernel, qs: seq<seq<nat>>, r: Regs)
    requires Family(k, qs, 3, 2) && Queues(k, qs)
    ensures Enabled(k, CallEvent(VCall(0), r)) && |Apply(k, CallEvent(VCall(0), r)).sems| >= 1
    ensures var m := Apply(k, CallEvent(VCall(0), r)); m.sems[0].val < 0 && !HeadThere(m, 0)
  {
    hide SemV, Queues, HeadThere;
    SavedOk(k, r);
    SavedQueues(k, r, qs);
    RunningOffQueues(k, qs, k.curr);
    PopLosesWaiters(SaveProc(k, r), 0, qs);
  }
}
