/** Bounded waiting under the round-robin scheduler, for any table size. */
module RoundRobin {
  import opened Basics
  import opened Task
  import opened Semaphores
  import opened KernelRuns

  /** Number of slots the scan of proc_pick passes to get from slot r to slot p. */
  function Dist(n: nat, r: nat, p: nat): (d: nat)
    requires r < n && p < n
    ensures 1 <= d <= n && (r + d == p || r + d == p + n)
  {
    if p > r then p - r else p + n - r
  }

  lemma NthDist(n: nat, r: nat, i: nat)
    requires r < n && i < n
    ensures Dist(n, r, Nth(n, r, i)) == i + 1
  {
    hide Nth;
    NthIs(n, r, i);
  }

  lemma NthOfDist(n: nat, r: nat, p: nat)
    requires r < n && p < n
    ensures Nth(n, r, Dist(n, r, p) - 1) == p
  {
    hide Nth;
    NthIs(n, r, Dist(n, r, p) - 1);
  }

  /** proc_pick never passes over a READY process: whoever it picks lies on the way from the
      RUNNING slot r to p, and leaves exactly the rest of the way. */
  lemma PickOnTheWay(ps: seq<Pcb>, r: nat, p: nat)
    requires r < |ps| && p < |ps| && ps[r].status == Running && ps[p].status == Ready
    requires forall i :: 0 <= i < |ps| && ps[i].status == Running ==> i == r
    ensures var j := Pick(ps);
            && 0 <= j < |ps| && ps[j].status == Ready
            && (j != p ==> Dist(|ps|, r, p) == Dist(|ps|, r, j) + Dist(|ps|, j, p))
  {
    hide Nth, PickFrom;
    var n := |ps|;
    PickFromFacts(ps, r, 0);
    NthOfDist(n, r, p);
    var d := Dist(n, r, p) - 1;
    assert ps[Nth(n, r, d)].status == Ready;
    var m: nat :| m < n && Pick(ps) == Nth(n, r, m) && ps[Pick(ps)].status == Ready &&
      forall l: nat :: 0 <= l < m ==> ps[Nth(n, r, l)].status != Ready;
    NthDist(n, r, m);
  }

  ghost predicate WaitsReady(k: Kernel, p: nat) {
    Executing(k) && p < |k.procs| && k.procs[p].status == Ready
  }

  /** An upper bound on the timer interrupts until p runs. */
  ghost function Patience(k: Kernel, p: nat): int
    requires WaitsReady(k, p)
  {
    (MAX_TICK + 1) * (Dist(|k.procs|, k.curr, p) - 1) + k.procs[k.curr].tick + 1
  }

  /** Timer interrupts and calls that neither block nor end a process. */
  predicate Undisturbed(k: Kernel, e: Event) {
    || e.TimerEvent?
    || (e.CallEvent? && !Blocks(k, e.call) &&
        (e.call.ForkCall? || e.call.ThreadCreateCall? || e.call.PCall? || e.call.VCall? ||
         e.call.GetSemCall? || e.call.FreeSemCall?))
  }

  /** Progress of the waiting process p from k to m: either it got the processor, or the
      RUNNING slot came strictly nearer, or it stayed and its time slice did not grow. */
  ghost predicate Nearer(k: Kernel, m: Kernel, p: nat, ticks: int)
    requires WaitsReady(k, p)
  {
    && Executing(m) && |m.procs| == |k.procs|
    && (m.curr != p ==>
          && m.procs[p].status == Ready
          && Patience(m, p) <= Patience(k, p) - ticks
          && (m.curr != k.curr ==> Dist(|k.procs|, m.curr, p) < Dist(|k.procs|, k.curr, p)))
  }

  lemma SwitchNearer(k: Kernel, p: nat)
    requires WaitsReady(k, p)
    ensures Nearer(k, Schedule(k), p, 1)
  {
    PickOnTheWay(k.procs, k.curr, p);
    ScheduleFacts(k);
  }

  lemma WakeupNearer(k: Kernel, p: nat, pid: nat)
    requires WaitsReady(k, p)
    ensures Nearer(k, Wakeup(k, pid), p, 0)
  {
    hide Schedule;
    var t := FindWaiting(k.procs, pid % 256, 0);
    if t != NULL {
      var w := SetStatus(k, t, Ready);
      SwitchNearer(w, p);
    }
  }

  lemma SemNearer(k: Kernel, p: nat, s: nat)
    requires WaitsReady(k, p) && s < |k.sems|
    ensures k.sems[s].val > 0 ==> Nearer(k, SemP(k, s), p, 0)
    ensures HeadThere(k, s) ==> Nearer(k, SemV(k, s), p, 0)
  {
    hide Wakeup, Wait;
    if HeadThere(k, s) && k.sems[s].val < 0 {
      WakeupNearer(SetHead(SetVal(k, s, k.sems[s].val + 1), s, k.procs[k.curr].next), p, k.procs[k.sems[s].head].pid);
    }
  }

  lemma SpawnNearer(k: Kernel, p: nat)
    requires WaitsReady(k, p)
    ensures Nearer(k, Fork(k), p, 0) && forall func :: Nearer(k, ThreadCreate(k, func), p, 0)
  {
    FirstNewIs(k);
    SpawnOk(k);
  }

  lemma CallNearer(k: Kernel, p: nat, c: Call)
    requires WaitsReady(k, p) && CallOk(k, c) && !Blocks(k, c)
    requires c.ForkCall? || c.ThreadCreateCall? || c.PCall? || c.VCall? || c.GetSemCall? || c.FreeSemCall?
    ensures Nearer(k, DoCall(k, c), p, 0)
  {
    hide Fork, ThreadCreate, SemP, SemV, Nearer;
    match c
    case ForkCall => SpawnNearer(k, p);
    case ThreadCreateCall(func) => SpawnNearer(k, p);
    case PCall(s) => SemNearer(k, p, s);
    case VCall(s) => SemNearer(k, p, s);
    case _ => SmallNearer(k, p, c);
  }

  lemma SmallNearer(k: Kernel, p: nat, c: Call)
    requires WaitsReady(k, p) && CallOk(k, c)
    requires c.GetSemCall? || c.FreeSemCall?
    ensures Nearer(k, DoCall(k, c), p, 0)
  {
  }

  lemma SavedWaits(k: Kernel, r: Regs, p: nat)
    requires WaitsReady(k, p)
    ensures WaitsReady(SaveProc(k, r), p) && Patience(SaveProc(k, r), p) == Patience(k, p)
    ensures SaveProc(k, r).curr == k.curr && |SaveProc(k, r).procs| == |k.procs|
  {
  }

  lemma TickNearer(k: Kernel, r: Regs, p: nat)
    requires WaitsReady(k, p)
    ensures Nearer(k, Tick(k, r), p, 1)
  {
    hide Schedule, SaveProc;
    SavedWaits(k, r, p);
    if k.procs[k.curr].tick > 0 {
      CountdownOk(k, r);
    } else {
      SwitchNearer(SaveProc(k, r), p);
    }
  }

  lemma EventNearer(k: Kernel, e: Event, p: nat)
    requires WaitsReady(k, p) && Enabled(k, e) && Undisturbed(k, e)
    ensures Nearer(k, Apply(k, e), p, if e.TimerEvent? then 1 else 0)
  {
    match e
    case TimerEvent(r) => TickNearer(k, r, p);
    case CallEvent(c, r) => SavedCallNearer(k, c, r, p);
  }

  lemma SavedCallNearer(k: Kernel, c: Call, r: Regs, p: nat)
    requires WaitsReady(k, p) && Enabled(k, CallEvent(c, r)) && Undisturbed(k, CallEvent(c, r))
    ensures Nearer(k, Apply(k, CallEvent(c, r)), p, 0)
  {
    hide SaveProc, DoCall, CallOk, TableOk;
    SavedOk(k, r);
    SavedWaits(k, r, p);
    CallNearer(SaveProc(k, r), p, c);
  }

  function Timers(es: seq<Event>, n: nat): nat
    requires n <= |es|
  {
    if n == 0 then 0 else Timers(es, n - 1) + if es[n-1].TimerEvent? then 1 else 0
  }

  lemma PatienceBound(k: Kernel, p: nat)
    requires WaitsReady(k, p)
    ensures 1 <= Patience(k, p) <= (MAX_TICK + 1) * Dist(|k.procs|, k.curr, p)
  {
  }

  /** Bounded waiting: as long as p is READY and not chosen, fewer than (MAX_TICK + 1) *
      distance timer interrupts have passed, whatever other processes become READY in the
      meantime. */
  lemma {:induction false} BoundedWaiting(ks: seq<Kernel>, es: seq<Event>, p: nat, n: nat)
    requires Run(ks, es) && WaitsReady(ks[0], p) && n <= |es|
    requires forall i :: 0 <= i < n ==> Undisturbed(ks[i], es[i])
    requires forall i :: 0 <= i <= n ==> ks[i].curr != p
    ensures WaitsReady(ks[n], p)
    ensures Patience(ks[n], p) <= Patience(ks[0], p) - Timers(es, n)
    ensures Timers(es, n) < (MAX_TICK + 1) * Dist(|ks[0].procs|, ks[0].curr, p)
  {
    hide Apply, TableOk, Enabled, Patience, Undisturbed;
    if n > 0 {
      BoundedWaiting(ks, es, p, n - 1);
      assert Next(ks[n-1], es[n-1], ks[n-1+1]);
      EventNearer(ks[n-1], es[n-1], p);
    }
    PatienceBound(ks[0], p);
    PatienceBound(ks[n], p);
  }
}
