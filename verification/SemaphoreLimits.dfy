/** Where the counting discipline ends: the exact conditions under which P falls through, and
    exit and kill tear a waiting process out of a queue. */
module SemaphoreLimits {
  import opened Basics
  import opened Task
  import opened Semaphores
  import opened SemaphoreQueues

  /** A P that does not pass returns to its caller, counted as a waiter but executing,
      exactly when nobody else is READY. */
  lemma BlockedPReturns(k: Kernel, s: nat)
    requires Executing(k) && s < |k.sems| && k.sems[s].val <= 0
    ensures var m := SemP(k, s);
            && m.procs[k.curr].status == Waiting
            && (m.curr == k.curr <==> !OtherReady(k))
            && (m.curr == k.curr <==> !Executing(m))
  {
    hide Schedule;
    var b := SetStatus(Enqueue(SetVal(k, s, k.sems[s].val - 1), s), k.curr, Waiting);
    EnqueuedOk(k, s);
    ScheduleFacts(b);
    if OtherReady(k) {
      var i :| 0 <= i < |k.procs| && k.procs[i].status == Ready;
      assert Runnable(b.procs[i].status);
    }
  }

  lemma EnqueuedOk(k: Kernel, s: nat)
    requires Executing(k) && s < |k.sems|
    ensures TableOk(SetStatus(Enqueue(SetVal(k, s, k.sems[s].val - 1), s), k.curr, Waiting))
  {
  }

  /** m has the semaphores and the links of k. */
  ghost predicate SameLinks(k: Kernel, m: Kernel) {
    && m.sems == k.sems && |m.procs| == |k.procs|
    && forall i :: 0 <= i < |k.procs| ==> m.procs[i].next == k.procs[i].next
  }

  lemma {:induction false} SameWalk(k: Kernel, m: Kernel, s: nat, p: seq<nat>, q: seq<nat>, i: nat)
    requires SameLinks(k, m) && s < |k.sems| && Queue(k, s, p) && Queue(m, s, q) && i < |p|
    ensures |q| == |p| && q[i] == p[i]
  {
    if i > 0 {
      SameWalk(k, m, s, p, q, i - 1);
    }
  }

  /** A process that stopped waiting while it was linked into a queue spoils that queue. */
  lemma LostWaiter(k: Kernel, m: Kernel, qs: seq<seq<nat>>, x: nat)
    requires Queues(k, qs) && SameLinks(k, m) && x < |k.procs|
    requires m.procs[x].status != Waiting && !OffQueues(qs, x)
    ensures !exists rs :: Queues(m, rs)
  {
    var s :| 0 <= s < |qs| && x in qs[s];
    var i :| 0 <= i < |qs[s]| && qs[s][i] == x;
    assert Queue(k, s, qs[s]);
    if rs :| Queues(m, rs) {
      assert Queue(m, s, rs[s]);
      SameWalk(k, m, s, qs[s], rs[s], i);
      assert false;
    }
  }

  lemma WakeupLinks(k: Kernel, pid: nat)
    requires TableOk(k)
    ensures SameLinks(k, Wakeup(k, pid))
  {
    hide Schedule;
    var t := FindWaiting(k.procs, pid % 256, 0);
    if t != NULL {
      ScheduleFacts(SetStatus(k, t, Ready));
    }
  }

  /** exit leaves every semaphore with a proper queue exactly when the parent of the caller
      waits for no semaphore: wakeup does not ask what its process is waiting for. */
  lemma ExitKeepsQueuesIff(k: Kernel, qs: seq<seq<nat>>)
    requires Executing(k) && Queues(k, qs)
    ensures (exists rs :: Queues(Exit(k), rs)) <==>
            (k.procs[k.curr].parent == NULL || OffQueues(qs, k.procs[k.curr].parent))
  {
    hide Queues, OffQueues, Wakeup;
    RunningOffQueues(k, qs, k.curr);
    var p := k.procs[k.curr].parent;
    if p == NULL || OffQueues(qs, p) {
      ExitTouches(k, qs);
    } else {
      var t := SetStatus(k, k.curr, Terminated);
      WakeupLinks(t, k.procs[p].pid);
      WakeupTouches(t, p);
      QueuedWaits(k, qs, p);
      LostWaiter(k, Exit(k), qs, p);
    }
  }

  lemma QueuedWaits(k: Kernel, qs: seq<seq<nat>>, p: nat)
    requires Queues(k, qs) && p < |k.procs| && !OffQueues(qs, p)
    ensures k.procs[p].status == Waiting
  {
    var s :| 0 <= s < |qs| && p in qs[s];
    assert Queue(k, s, qs[s]);
  }

  /** And so does kill exactly when its victim waits for no semaphore. */
  lemma KillKeepsQueuesIff(k: Kernel, pid: nat, qs: seq<seq<nat>>)
    requires Queues(k, qs)
    ensures var t := FindPid(k.procs, pid % 256, 0);
            (exists rs :: Queues(Kill(k, pid), rs)) <==> (t == NULL || OffQueues(qs, t))
  {
    hide Queues, OffQueues;
    var t := FindPid(k.procs, pid % 256, 0);
    if t == NULL || OffQueues(qs, t) {
      KillTouches(k, pid, qs);
    } else {
      LostWaiter(k, Kill(k, pid), qs, t);
    }
  }

  /** do_freesem clears the queue head but keeps the counter: the next V goes through a null
      pointer exactly when the counter still promises waiters. */
  lemma FreedHeadIff(k: Kernel, s: nat)
    requires s < |k.sems|
    ensures HeadThere(FreeSem(k, s), s) <==> k.sems[s].val >= 0
  {
  }

  /** The processes that waited for a freed semaphore still wait, and are in no queue. */
  lemma FreedWaitersStranded(k: Kernel, qs: seq<seq<nat>>, s: nat)
    requires Queues(k, qs) && s < |qs|
    ensures s < |k.sems|
    ensures var m := FreeSem(k, s);
            && m.procs == k.procs && Queues(m, qs[s := []])
            && forall rs, x :: Queues(m, rs) && x in qs[s] ==> k.procs[x].status == Waiting && OffQueues(rs, x)
  {
    var m, ps := FreeSem(k, s), qs[s := []];
    forall t | 0 <= t < |ps| ensures Queue(m, t, ps[t]) {
      assert Queue(k, t, qs[t]);
    }
    forall t, u | 0 <= t < u < |ps| ensures Apart(ps[t], ps[u]) {
      assert Apart(qs[t], qs[u]);
    }
    forall rs, x | Queues(m, rs) && x in qs[s] ensures k.procs[x].status == Waiting && OffQueues(rs, x) {
      assert Queue(k, s, qs[s]);
      forall t | 0 <= t < |rs| ensures x !in rs[t] {
        FreedQueue(k, qs, rs, s, t);
        assert Apart(qs[if s < t then s else t], qs[if s < t then t else s]) || s == t;
      }
    }
  }

  /** Freeing s leaves every other queue what it was. */
  lemma FreedQueue(k: Kernel, qs: seq<seq<nat>>, rs: seq<seq<nat>>, s: nat, t: nat)
    requires Queues(k, qs) && s < |qs| == |k.sems| && Queues(FreeSem(k, s), rs) && t < |qs|
    ensures t < |rs| && rs[t] == if t == s then [] else qs[t]
  {
    var m := FreeSem(k, s);
    assert Queue(m, t, rs[t]) && Queue(k, t, qs[t]);
    if t != s {
      forall i | 0 <= i < |rs[t]| ensures rs[t][i] == qs[t][i] {
        WalkAlong(k, m, t, qs[t], rs[t], i);
      }
    }
  }

  lemma {:induction false} WalkAlong(k: Kernel, m: Kernel, s: nat, p: seq<nat>, q: seq<nat>, i: nat)
    requires m.procs == k.procs && s < |k.sems| && s < |m.sems| && m.sems[s] == k.sems[s]
    requires Queue(k, s, p) && Queue(m, s, q) && i < |p|
    ensures |q| == |p| && q[i] == p[i]
  {
    if i > 0 {
      WalkAlong(k, m, s, p, q, i - 1);
    }
  }

  /** do_getsem hands out the first unused semaphore with the given counter and leaves its old
      queue head; when all are used nothing changes. */
  lemma HandedOut(k: Kernel, v: int)
    ensures var m, i := GetSem(k, v), FirstUnused(k.sems, 0);
            if i == NULL then m == k
            else
              && m.procs == k.procs && m.curr == k.curr && m.currPid == k.currPid && |m.sems| == |k.sems|
              && m.sems[i].val == v && m.sems[i].used && m.sems[i].head == k.sems[i].head
              && forall t :: 0 <= t < |k.sems| && t != i ==> m.sems[t] == k.sems[t]
  {
  }
}
