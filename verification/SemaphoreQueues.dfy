/** The kernel semaphores refine abstract counting semaphores over whole runs. */
module SemaphoreQueues {
  import opened Basics
  import opened Task
  import opened Semaphores
  import opened KernelRuns

  function Following(q: seq<nat>, i: nat): int {
    if i < |q| then q[i] else NULL
  }

  ghost predicate Listed(ps: seq<Pcb>, q: seq<nat>) {
    forall i :: 0 <= i < |q| ==> q[i] < |ps| && ps[q[i]].status == Waiting && ps[q[i]].next == Following(q, i + 1)
  }

  /** The list that starts at the head of semaphore s and follows `next` is q: distinct
      WAITING processes, as many as the counter is below zero. */
  ghost predicate Queue(k: Kernel, s: nat, q: seq<nat>)
    requires s < |k.sems|
  {
    && Listed(k.procs, q)
    && Distinct(q)
    && k.sems[s].head == Following(q, 0)
    && |q| == (if k.sems[s].used && k.sems[s].val < 0 then -k.sems[s].val else 0)
  }

  ghost predicate Apart(a: seq<nat>, b: seq<nat>) {
    forall x :: x in a ==> x !in b
  }

  ghost predicate Queues(k: Kernel, qs: seq<seq<nat>>) {
    && |qs| == |k.sems|
    && (forall s :: 0 <= s < |qs| ==> Queue(k, s, qs[s]))
    && (forall s, t :: 0 <= s < t < |qs| ==> Apart(qs[s], qs[t]))
  }

  /** The abstract semaphore: its initial value, the P operations that have returned and the
      V operations issued since do_getsem handed it out. */
  datatype Tally = Tally(init: int, passed: nat, signals: nat)

  function Max0(v: int): nat {
    if v < 0 then 0 else v
  }

  ghost predicate Balanced(k: Kernel, ts: seq<Tally>) {
    && |ts| == |k.sems|
    && forall s :: 0 <= s < |ts| && k.sems[s].used ==>
         Max0(k.sems[s].val) == ts[s].init + ts[s].signals - ts[s].passed
  }

  // ---------------------------------------------------------------- the abstract semaphores

  /** What an event asks of the abstract semaphores: a P by process x, a V, a new semaphore
      with an initial value, or nothing. */
  datatype Act = Quiet | PAct(s: nat, x: nat) | VAct(s: nat) | NewAct(s: nat, v: int)

  predicate CanPass(t: Tally) {
    t.passed < t.init + t.signals
  }

  /** A P passes if the tally allows it and queues its process otherwise; a V releases the
      process at the head of the queue, if there is one. */
  function ActQueues(qs: seq<seq<nat>>, ts: seq<Tally>, a: Act): seq<seq<nat>>
    requires |ts| == |qs|
  {
    match a
    case PAct(s, x) => if s < |qs| && !CanPass(ts[s]) then qs[s := [x] + qs[s]] else qs
    case VAct(s) => if s < |qs| && qs[s] != [] then qs[s := qs[s][1..]] else qs
    case _ => qs
  }

  function ActTallies(qs: seq<seq<nat>>, ts: seq<Tally>, a: Act): seq<Tally>
    requires |ts| == |qs|
  {
    match a
    case PAct(s, x) => if s < |ts| && CanPass(ts[s]) then ts[s := ts[s].(passed := ts[s].passed + 1)] else ts
    case VAct(s) =>
      if s >= |ts| then ts
      else
        ts[s := ts[s].(signals := ts[s].signals + 1, passed := ts[s].passed + if qs[s] != [] then 1 else 0)]
    case NewAct(s, v) => if s < |ts| then ts[s := Tally(v, 0, 0)] else ts
    case Quiet => ts
  }

  /** The act of a kernel event: who calls, which semaphore, and which one do_getsem hands
      out.  The counters play no part in it. */
  ghost function ActOf(k: Kernel, e: Event): Act
    requires TableOk(k)
  {
    match e
    case CallEvent(PCall(s), _) => if k.curr == NULL then Quiet else PAct(s, k.curr)
    case CallEvent(VCall(s), _) => VAct(s)
    case CallEvent(GetSemCall(v), _) =>
      var i := FirstUnused(k.sems, 0); if i == NULL then Quiet else NewAct(i, v)
    case _ => Quiet
  }

  /** The same kernel with the pop of line 52 put right. */
  ghost function ApplyIntended(k: Kernel, e: Event): Kernel
    requires Enabled(k, e)
  {
    match e
    case CallEvent(VCall(s), r) => SavedOk(k, r); SemVIntended(SaveProc(k, r), s)
    case _ => Apply(k, e)
  }

  ghost predicate OffQueues(qs: seq<seq<nat>>, i: nat) {
    forall s :: 0 <= s < |qs| ==> i !in qs[s]
  }

  ghost predicate OtherReady(k: Kernel) {
    exists i :: 0 <= i < |k.procs| && k.procs[i].status == Ready
  }

  /** What the counting discipline needs from the callers: calls come from the RUNNING
      process; P and V use semaphores that were handed out, with a non-negative initial
      value; P does not block the last runnable process, because do_wait would then fall
      through; and no exit or kill hits a process that waits for a semaphore. */
  ghost predicate Fair(k: Kernel, qs: seq<seq<nat>>, e: Event)
    requires TableOk(k) && |qs| == |k.sems|
  {
    match e
    case CallEvent(c, _) =>
      && Executing(k)
      && (match c
          case PCall(s) => s < |k.sems| && k.sems[s].used && (k.sems[s].val <= 0 ==> OtherReady(k))
          case VCall(s) => s < |k.sems| && k.sems[s].used
          case GetSemCall(v) => v >= 0
          case FreeSemCall(s) => s < |k.sems| && qs[s] == []
          case ExitCall => k.procs[k.curr].parent == NULL || OffQueues(qs, k.procs[k.curr].parent)
          case ThreadExitCall => k.procs[k.curr].parent == NULL || OffQueues(qs, k.procs[k.curr].parent)
          case KillCall(pid) =>
            var t := FindPid(k.procs, pid % 256, 0); t == NULL || OffQueues(qs, t)
          case _ => true)
    case _ => true
  }

  /** What the code makes of the queues, going by its counters. */
  ghost function NextQueues(k: Kernel, qs: seq<seq<nat>>, e: Event): seq<seq<nat>>
    requires TableOk(k) && |qs| == |k.sems| && Fair(k, qs, e)
  {
    match e
    case CallEvent(PCall(s), _) => if k.sems[s].val <= 0 then qs[s := [k.curr] + qs[s]] else qs
    case CallEvent(VCall(s), _) => if k.sems[s].val < 0 && qs[s] != [] then qs[s := qs[s][1..]] else qs
    case _ => qs
  }

  /** And of the tallies: a P returns at once if the counter is positive; a V that finds a
      waiter lets that waiter's P return. */
  ghost function NextTallies(k: Kernel, ts: seq<Tally>, e: Event): seq<Tally>
    requires TableOk(k) && |ts| == |k.sems|
  {
    match e
    case CallEvent(PCall(s), _) =>
      if s < |ts| && k.sems[s].val > 0 then ts[s := ts[s].(passed := ts[s].passed + 1)] else ts
    case CallEvent(VCall(s), _) =>
      if s >= |ts| then ts
      else
        ts[s := ts[s].(signals := ts[s].signals + 1,
                       passed := ts[s].passed + if k.sems[s].val < 0 then 1 else 0)]
    case CallEvent(GetSemCall(v), _) =>
      var i := FirstUnused(k.sems, 0); if i == NULL then ts else ts[i := Tally(v, 0, 0)]
    case _ => ts
  }

  // ---------------------------------------------------------------- frames

  /** m keeps everything the queues of k depend on. */
  ghost predicate KeepsQueues(k: Kernel, m: Kernel, qs: seq<seq<nat>>) {
    && |m.procs| == |k.procs| && m.sems == k.sems
    && forall s, i | 0 <= s < |qs| && 0 <= i < |qs[s]| ::
         qs[s][i] < |k.procs| && k.procs[qs[s][i]].status == Waiting ==>
           m.procs[qs[s][i]].status == Waiting && m.procs[qs[s][i]].next == k.procs[qs[s][i]].next
  }

  lemma QueuesFrame(k: Kernel, m: Kernel, qs: seq<seq<nat>>)
    requires Queues(k, qs) && KeepsQueues(k, m, qs)
    ensures Queues(m, qs)
  {
    forall s | 0 <= s < |qs| ensures Queue(m, s, qs[s]) {
      assert Queue(k, s, qs[s]);
    }
  }

  /** Everything except slot x (and running versus ready) is as it was. */
  ghost predicate OnlyTouches(k: Kernel, m: Kernel, x: int) {
    && |m.procs| == |k.procs| && m.sems == k.sems
    && forall i :: 0 <= i < |k.procs| && i != x ==>
         SameKind(k.procs[i].status, m.procs[i].status) && m.procs[i].next == k.procs[i].next
  }

  lemma TouchFrame(k: Kernel, m: Kernel, x: int, qs: seq<seq<nat>>)
    requires Queues(k, qs) && OnlyTouches(k, m, x) && (x < 0 || OffQueues(qs, x))
    ensures Queues(m, qs)
  {
    forall s, i | 0 <= s < |qs| && 0 <= i < |qs[s]| ensures qs[s][i] != x {
      assert qs[s][i] in qs[s];
    }
    QueuesFrame(k, m, qs);
  }

  lemma RunningOffQueues(k: Kernel, qs: seq<seq<nat>>, i: nat)
    requires Queues(k, qs) && i < |k.procs| && k.procs[i].status != Waiting
    ensures OffQueues(qs, i)
  {
    forall s | 0 <= s < |qs| ensures i !in qs[s] {
      assert Queue(k, s, qs[s]);
    }
  }

  lemma WaitTouches(k: Kernel)
    requires TableOk(k) && k.curr != NULL
    ensures OnlyTouches(k, Wait(k), k.curr)
    ensures OtherReady(k) && k.procs[k.curr].status == Running ==>
              Wait(k).procs[k.curr].status == Waiting && Wait(k).procs[k.curr].next == k.procs[k.curr].next
  {
    hide Schedule;
    ScheduleFacts(SetStatus(k, k.curr, Waiting));
  }

  lemma WakeupTouches(k: Kernel, t: nat)
    requires TableOk(k) && t < k.currPid
    ensures OnlyTouches(k, Wakeup(k, k.procs[t].pid), t)
    ensures k.procs[t].status == Waiting ==> Runnable(Wakeup(k, k.procs[t].pid).procs[t].status)
    ensures k.procs[t].status != Waiting ==> Wakeup(k, k.procs[t].pid) == k
  {
    hide Schedule;
    var u := FindWaiting(k.procs, k.procs[t].pid % 256, 0);
    if u != NULL {
      ScheduleFacts(SetStatus(k, u, Ready));
    }
  }

  lemma ExitTouches(k: Kernel, qs: seq<seq<nat>>)
    requires TableOk(k) && k.curr != NULL && Queues(k, qs) && OffQueues(qs, k.curr)
    requires k.procs[k.curr].parent == NULL || OffQueues(qs, k.procs[k.curr].parent)
    ensures Queues(Exit(k), qs)
  {
    hide Wakeup, Queues, OffQueues;
    var t := SetStatus(k, k.curr, Terminated);
    TouchFrame(k, t, k.curr, qs);
    if k.procs[k.curr].parent != NULL {
      WakeupTouches(t, k.procs[k.curr].parent);
      TouchFrame(t, Exit(k), k.procs[k.curr].parent, qs);
    }
  }

  // ---------------------------------------------------------------- P and V

  /** m is k with slot x put first in the queue of s, counted down. */
  ghost predicate Entered(k: Kernel, m: Kernel, s: nat, x: nat)
    requires s < |k.sems| && x < |k.procs|
  {
    && |m.procs| == |k.procs|
    && m.sems == k.sems[s := k.sems[s].(val := k.sems[s].val - 1, head := x)]
    && m.procs[x].status == Waiting && m.procs[x].next == k.sems[s].head
    && forall i :: 0 <= i < |k.procs| && i != x ==>
         SameKind(k.procs[i].status, m.procs[i].status) && m.procs[i].next == k.procs[i].next
  }

  lemma EnteredElsewhere(k: Kernel, m: Kernel, s: nat, x: nat, t: nat, q: seq<nat>)
    requires s < |k.sems| && x < |k.procs| && Entered(k, m, s, x)
    requires t < |k.sems| && t != s && Queue(k, t, q) && x !in q
    ensures Queue(m, t, q)
  {
    forall i | 0 <= i < |q| ensures q[i] != x {
      assert q[i] in q;
    }
  }

  lemma DistinctCons(x: nat, q: seq<nat>)
    requires Distinct(q) && x !in q
    ensures Distinct([x] + q)
  {
    var p := [x] + q;
    forall i, j | 0 <= i < j < |p| ensures p[i] != p[j] {
      assert p[j] == q[j-1] && q[j-1] in q;
      assert i > 0 ==> p[i] == q[i-1];
    }
  }

  lemma ListedCons(a: seq<Pcb>, b: seq<Pcb>, x: nat, q: seq<nat>)
    requires Listed(a, q) && x !in q && |b| == |a| && x < |b|
    requires b[x].status == Waiting && b[x].next == Following(q, 0)
    requires forall i :: 0 <= i < |a| && i != x ==> SameKind(a[i].status, b[i].status) && b[i].next == a[i].next
    ensures Listed(b, [x] + q)
  {
    var p := [x] + q;
    forall i | 0 <= i < |p|
      ensures p[i] < |b| && b[p[i]].status == Waiting && b[p[i]].next == Following(p, i + 1)
    {
      if i > 0 {
        assert p[i] == q[i-1] && q[i-1] in q;
        assert Following(p, i + 1) == Following(q, i);
      } else {
        assert Following(p, 1) == Following(q, 0);
      }
    }
  }

  lemma EnteredHere(k: Kernel, m: Kernel, s: nat, x: nat, q: seq<nat>)
    requires s < |k.sems| && x < |k.procs| && Entered(k, m, s, x)
    requires k.sems[s].used && k.sems[s].val <= 0
    requires Queue(k, s, q) && x !in q
    ensures s < |m.sems| && Queue(m, s, [x] + q)
  {
    hide Listed, Distinct;
    DistinctCons(x, q);
    ListedCons(k.procs, m.procs, x, q);
  }

  lemma EnterQueues(k: Kernel, m: Kernel, s: nat, x: nat, qs: seq<seq<nat>>)
    requires Queues(k, qs) && s < |qs| && x < |k.procs| && OffQueues(qs, x) && Entered(k, m, s, x)
    requires k.sems[s].used && k.sems[s].val <= 0
    ensures Queues(m, qs[s := [x] + qs[s]])
  {
    hide Queue, Entered, Distinct;
    var rs := qs[s := [x] + qs[s]];
    assert |m.sems| == |k.sems| by { EnteredCount(k, m, s, x); }
    forall t | 0 <= t < |rs| ensures Queue(m, t, rs[t]) {
      if t == s {
        EnteredHere(k, m, s, x, qs[s]);
      } else {
        EnteredElsewhere(k, m, s, x, t, qs[t]);
      }
    }
    forall t, u | 0 <= t < u < |rs| ensures Apart(rs[t], rs[u]) {
      assert Apart(qs[t], qs[u]);
    }
  }

  lemma EnteredCount(k: Kernel, m: Kernel, s: nat, x: nat)
    requires s < |k.sems| && x < |k.procs| && Entered(k, m, s, x)
    ensures |m.sems| == |k.sems|
  {
  }

  lemma PBlocks(k: Kernel, s: nat)
    requires Executing(k) && s < |k.sems| && k.sems[s].val <= 0 && OtherReady(k)
    ensures Entered(k, SemP(k, s), s, k.curr)
  {
    hide Wait;
    var b := Enqueue(SetVal(k, s, k.sems[s].val - 1), s);
    assert OtherReady(b) by {
      var i :| 0 <= i < |k.procs| && k.procs[i].status == Ready;
      assert b.procs[i].status == Ready;
    }
    WaitTouches(b);
  }

  lemma PKeepsQueues(k: Kernel, s: nat, qs: seq<seq<nat>>)
    requires Executing(k) && Queues(k, qs) && s < |qs| && k.sems[s].used
    requires k.sems[s].val <= 0 ==> OtherReady(k)
    ensures Queues(SemP(k, s), if k.sems[s].val <= 0 then qs[s := [k.curr] + qs[s]] else qs)
  {
    hide Wait, Entered, OtherReady;
    if k.sems[s].val <= 0 {
      RunningOffQueues(k, qs, k.curr);
      PBlocks(k, s);
      EnterQueues(k, SemP(k, s), s, k.curr, qs);
    } else {
      forall t | 0 <= t < |qs| ensures Queue(SemP(k, s), t, qs[t]) {
        assert Queue(k, t, qs[t]);
      }
    }
  }

  /** m is k with the first waiter x of s unlinked and awake, counted up. */
  ghost predicate Left(k: Kernel, m: Kernel, s: nat, x: nat)
    requires s < |k.sems| && x < |k.procs|
  {
    && |m.procs| == |k.procs|
    && m.sems == k.sems[s := k.sems[s].(val := k.sems[s].val + 1, head := k.procs[x].next)]
    && forall i :: 0 <= i < |k.procs| && i != x ==>
         SameKind(k.procs[i].status, m.procs[i].status) && m.procs[i].next == k.procs[i].next
  }

  lemma ListedTail(a: seq<Pcb>, b: seq<Pcb>, q: seq<nat>)
    requires Listed(a, q) && Distinct(q) && q != [] && |b| == |a|
    requires forall i :: 0 <= i < |a| && i != q[0] ==> SameKind(a[i].status, b[i].status) && b[i].next == a[i].next
    ensures Listed(b, q[1..]) && Distinct(q[1..]) && a[q[0]].next == Following(q[1..], 0)
  {
    var p := q[1..];
    forall i | 0 <= i < |p|
      ensures p[i] < |b| && b[p[i]].status == Waiting && b[p[i]].next == Following(p, i + 1)
    {
      assert p[i] == q[i+1] && q[i+1] != q[0];
      assert Following(p, i + 1) == Following(q, i + 2);
    }
    assert Following(p, 0) == Following(q, 1);
  }

  lemma LeftHere(k: Kernel, m: Kernel, s: nat, q: seq<nat>)
    requires s < |k.sems| && Queue(k, s, q) && q != [] && q[0] < |k.procs| && Left(k, m, s, q[0])
    ensures s < |m.sems| && Queue(m, s, q[1..])
  {
    hide Listed, Distinct;
    ListedTail(k.procs, m.procs, q);
  }

  lemma LeftElsewhere(k: Kernel, m: Kernel, s: nat, x: nat, t: nat, q: seq<nat>)
    requires s < |k.sems| && x < |k.procs| && Left(k, m, s, x)
    requires t < |k.sems| && t != s && Queue(k, t, q) && x !in q
    ensures Queue(m, t, q)
  {
    forall i | 0 <= i < |q| ensures q[i] != x {
      assert q[i] in q;
    }
  }

  lemma LeaveQueues(k: Kernel, m: Kernel, s: nat, qs: seq<seq<nat>>)
    requires Queues(k, qs) && s < |qs| && qs[s] != [] && qs[s][0] < |k.procs|
    requires Left(k, m, s, qs[s][0]) && |m.sems| == |k.sems|
    ensures Queues(m, qs[s := qs[s][1..]])
  {
    hide Queue, Left;
    var rs := qs[s := qs[s][1..]];
    assert qs[s][0] in qs[s];
    forall t | 0 <= t < |rs| ensures Queue(m, t, rs[t]) {
      if t == s {
        LeftHere(k, m, s, qs[s]);
      } else {
        assert Apart(qs[if s < t then s else t], qs[if s < t then t else s]);
        LeftElsewhere(k, m, s, qs[s][0], t, qs[t]);
      }
    }
    forall t, u | 0 <= t < u < |rs| ensures Apart(rs[t], rs[u]) {
      assert Apart(qs[t], qs[u]);
    }
  }

  lemma VWakes(k: Kernel, s: nat, x: nat)
    requires TableOk(k) && k.curr != NULL && s < |k.sems| && k.sems[s].val < 0
    requires k.sems[s].head == x && x < k.currPid && k.procs[x].status == Waiting
    ensures HeadThere(k, s) && Left(k, SemVIntended(k, s), s, x)
    ensures Runnable(SemVIntended(k, s).procs[x].status)
  {
    hide Wakeup;
    WakeupTouches(SetHead(SetVal(k, s, k.sems[s].val + 1), s, k.procs[x].next), x);
  }

  lemma HeadWaits(k: Kernel, s: nat, q: seq<nat>)
    requires TableOk(k) && s < |k.sems| && k.sems[s].used && Queue(k, s, q)
    ensures HeadThere(k, s)
    ensures k.sems[s].val < 0 ==>
              q != [] && k.sems[s].head == q[0] && q[0] < k.currPid <= |k.procs| && k.procs[q[0]].status == Waiting
  {
  }

  /** A V on a semaphore somebody waits for wakes exactly the process it unlinks. */
  lemma VWakesOne(k: Kernel, s: nat, qs: seq<seq<nat>>)
    requires TableOk(k) && k.curr != NULL && Queues(k, qs) && s < |qs| && k.sems[s].used && k.sems[s].val < 0
    ensures HeadThere(k, s) && qs[s] != [] && |SemVIntended(k, s).procs| == |k.procs|
    ensures forall i :: 0 <= i < |k.procs| && k.procs[i].status == Waiting ==>
              (SemVIntended(k, s).procs[i].status != Waiting <==> i == qs[s][0])
  {
    hide Queue, Apart, SemVIntended;
    HeadWaits(k, s, qs[s]);
    VWakes(k, s, qs[s][0]);
  }

  lemma VKeepsQueues(k: Kernel, s: nat, qs: seq<seq<nat>>)
    requires TableOk(k) && k.curr != NULL && Queues(k, qs) && s < |qs| && k.sems[s].used
    ensures HeadThere(k, s)
    ensures k.sems[s].val < 0 ==> qs[s] != [] && Queues(SemVIntended(k, s), qs[s := qs[s][1..]])
    ensures k.sems[s].val >= 0 ==> Queues(SemVIntended(k, s), qs)
  {
    hide Queue, Distinct, Apart, SemVIntended, Left;
    HeadWaits(k, s, qs[s]);
    if k.sems[s].val < 0 {
      VWakes(k, s, qs[s][0]);
      VCount(k, s);
      LeaveQueues(k, SemVIntended(k, s), s, qs);
    } else {
      VQuiet(k, s, qs);
    }
  }

  lemma VCount(k: Kernel, s: nat)
    requires TableOk(k) && k.curr != NULL && HeadThere(k, s)
    ensures |SemVIntended(k, s).sems| == |k.sems|
  {
    hide Wakeup;
    if k.sems[s].val < 0 {
      var b := SetHead(SetVal(k, s, k.sems[s].val + 1), s, k.procs[k.sems[s].head].next);
      WakeupSems(b, k.procs[k.sems[s].head].pid);
    }
  }

  lemma WakeupSems(k: Kernel, pid: nat)
    requires TableOk(k)
    ensures Wakeup(k, pid).sems == k.sems && |Wakeup(k, pid).procs| == |k.procs|
  {
    hide Schedule;
    var t := FindWaiting(k.procs, pid % 256, 0);
    if t != NULL {
      ScheduleFacts(SetStatus(k, t, Ready));
    }
  }

  lemma VQuiet(k: Kernel, s: nat, qs: seq<seq<nat>>)
    requires TableOk(k) && k.curr != NULL && Queues(k, qs) && s < |qs| && k.sems[s].used && k.sems[s].val >= 0
    ensures HeadThere(k, s) && Queues(SemVIntended(k, s), qs)
  {
    forall t | 0 <= t < |qs| ensures Queue(SemVIntended(k, s), t, qs[t]) {
      assert Queue(k, t, qs[t]);
    }
  }

  lemma GetFreeQueues(k: Kernel, s: nat, v: int, qs: seq<seq<nat>>)
    requires Queues(k, qs)
    ensures v >= 0 ==> Queues(GetSem(k, v), qs)
    ensures s < |qs| && qs[s] == [] ==> Queues(FreeSem(k, s), qs)
  {
    if v >= 0 {
      forall t | 0 <= t < |qs| ensures Queue(GetSem(k, v), t, qs[t]) {
        assert Queue(k, t, qs[t]);
      }
    }
    if s < |qs| && qs[s] == [] {
      forall t | 0 <= t < |qs| ensures Queue(FreeSem(k, s), t, qs[t]) {
        assert Queue(k, t, qs[t]);
      }
    }
  }

  lemma SpawnTouches(k: Kernel, func: nat)
    requires TableOk(k) && k.curr != NULL
    ensures OnlyTouches(k, Fork(k), k.currPid) && OnlyTouches(k, ThreadCreate(k, func), k.currPid)
  {
    FirstNewIs(k);
  }

  lemma UnusedOffQueues(k: Kernel, qs: seq<seq<nat>>)
    requires TableOk(k) && Queues(k, qs)
    ensures OffQueues(qs, k.currPid)
  {
    forall s | 0 <= s < |qs| ensures k.currPid !in qs[s] {
      assert Queue(k, s, qs[s]);
    }
  }

  lemma CallKeepsQueues(k: Kernel, c: Call, r: Regs, qs: seq<seq<nat>>)
    requires TableOk(k) && k.curr != NULL && CallOk(k, c) && Queues(k, qs) && Fair(k, qs, CallEvent(c, r))
    requires !c.VCall?
    ensures Queues(DoCall(k, c), NextQueues(k, qs, CallEvent(c, r)))
  {
    hide Queues, OffQueues, Wait, Exit, Fork, ThreadCreate, SemP, GetSem, FreeSem, Kill, OtherReady;
    RunningOffQueues(k, qs, k.curr);
    match c
    case ForkCall => SpawnTouches(k, 0); UnusedOffQueues(k, qs); TouchFrame(k, Fork(k), k.currPid, qs);
    case ThreadCreateCall(f) => SpawnTouches(k, f); UnusedOffQueues(k, qs); TouchFrame(k, ThreadCreate(k, f), k.currPid, qs);
    case WaitCall => WaitTouches(k); TouchFrame(k, Wait(k), k.curr, qs);
    case JoinCall => WaitTouches(k); TouchFrame(k, Wait(k), k.curr, qs);
    case ExitCall => ExitTouches(k, qs);
    case ThreadExitCall => ExitTouches(k, qs);
    case ReturnCall => TouchFrame(k, Return(k), k.curr, qs);
    case PCall(s) => QueuesCount(k, qs); PKeepsQueues(k, s, qs);
    case GetSemCall(v) => GetFreeQueues(k, 0, v, qs);
    case FreeSemCall(s) => QueuesCount(k, qs); GetFreeQueues(k, s, -1, qs);
    case KillCall(pid) => KillTouches(k, pid, qs);
  }

  lemma QueuesCount(k: Kernel, qs: seq<seq<nat>>)
    requires Queues(k, qs)
    ensures |qs| == |k.sems|
  {
  }

  lemma KillTouches(k: Kernel, pid: nat, qs: seq<seq<nat>>)
    requires Queues(k, qs)
    requires var t := FindPid(k.procs, pid % 256, 0); t == NULL || OffQueues(qs, t)
    ensures Queues(Kill(k, pid), qs)
  {
    var t := FindPid(k.procs, pid % 256, 0);
    if t != NULL {
      TouchFrame(k, Kill(k, pid), t, qs);
    }
  }

  // ---------------------------------------------------------------- runs

  /** Everything the refinement needs to know about a state. */
  ghost predicate Refines(k: Kernel, qs: seq<seq<nat>>, ts: seq<Tally>) {
    TableOk(k) && Queues(k, qs) && Balanced(k, ts)
  }

  lemma SavedFair(k: Kernel, c: Call, r: Regs, qs: seq<seq<nat>>)
    requires TableOk(k) && Queues(k, qs) && Enabled(k, CallEvent(c, r)) && Fair(k, qs, CallEvent(c, r))
    ensures var m := SaveProc(k, r);
            && TableOk(m) && m.curr == k.curr && m.sems == k.sems && CallOk(m, c) && Executing(m) && |qs| == |m.sems|
            && Fair(m, qs, CallEvent(c, r))
            && NextQueues(m, qs, CallEvent(c, r)) == NextQueues(k, qs, CallEvent(c, r))
  {
    hide Queues;
    QueuesCount(k, qs);
    SavedOk(k, r);
    if OtherReady(k) {
      var i :| 0 <= i < |k.procs| && k.procs[i].status == Ready;
      assert SaveProc(k, r).procs[i].status == Ready;
    }
    if c.KillCall? {
      FindPidSame(k.procs, SaveProc(k, r).procs, c.pid % 256, 0);
    }
  }

  lemma FindPidSame(a: seq<Pcb>, b: seq<Pcb>, pid: nat, i: nat)
    requires |a| == |b| && forall x :: 0 <= x < |a| ==> a[x].pid == b[x].pid
    ensures FindPid(a, pid, i) == FindPid(b, pid, i)
    decreases |a| - i
  {
  }

  lemma SavedQueues(k: Kernel, r: Regs, qs: seq<seq<nat>>)
    requires TableOk(k) && Queues(k, qs)
    ensures Queues(SaveProc(k, r), qs)
  {
    hide Queues;
    SavedOk(k, r);
    TouchFrame(k, SaveProc(k, r), NULL, qs);
  }

  lemma EventKeepsQueues(k: Kernel, e: Event, qs: seq<seq<nat>>)
    requires TableOk(k) && Queues(k, qs) && Enabled(k, e) && Fair(k, qs, e)
    ensures Queues(ApplyIntended(k, e), NextQueues(k, qs, e))
  {
    hide Queues, Queue, Tick, Schedule, SaveProc, DoCall, SemVIntended, CallOk, Fair, NextQueues;
    QueuesCount(k, qs);
    match e
    case TimerEvent(r) => TickOk(k, r); QuietFrame(k, e, Tick(k, r), qs);
    case ShellScheduleEvent => ScheduleFacts(k); QuietFrame(k, e, Schedule(k), qs);
    case LaunchEvent(img) => LaunchQueues(k, img, qs);
    case CallEvent(c, r) =>
      SavedOk(k, r);
      SavedQueues(k, r, qs);
      SavedFair(k, c, r, qs);
      if c.VCall? {
        VCallQueues(SaveProc(k, r), c.s, r, qs);
      } else {
        CallKeepsQueues(SaveProc(k, r), c, r, qs);
      }
  }

  lemma VCallQueues(k: Kernel, s: nat, r: Regs, qs: seq<seq<nat>>)
    requires TableOk(k) && k.curr != NULL && CallOk(k, VCall(s)) && Queues(k, qs)
    requires |qs| == |k.sems| && Fair(k, qs, CallEvent(VCall(s), r))
    ensures Queues(SemVIntended(k, s), NextQueues(k, qs, CallEvent(VCall(s), r)))
  {
    hide Queues, SemVIntended;
    VKeepsQueues(k, s, qs);
  }

  lemma QuietFrame(k: Kernel, e: Event, m: Kernel, qs: seq<seq<nat>>)
    requires TableOk(k) && Queues(k, qs) && OnlyRescheduled(k, m) && |qs| == |k.sems|
    requires Fair(k, qs, e) && !e.CallEvent?
    ensures Queues(m, NextQueues(k, qs, e))
  {
    hide Queues;
    TouchFrame(k, m, NULL, qs);
  }

  lemma LaunchQueues(k: Kernel, img: Regs, qs: seq<seq<nat>>)
    requires TableOk(k) && Queues(k, qs) && k.currPid < |k.procs| && |qs| == |k.sems|
    requires Fair(k, qs, LaunchEvent(img))
    ensures FirstNew(k.procs, 0) != NULL
    ensures Queues(ProcCreate(k, img), NextQueues(k, qs, LaunchEvent(img)))
  {
    hide Queues, OffQueues;
    FirstNewIs(k);
    UnusedOffQueues(k, qs);
    TouchFrame(k, ProcCreate(k, img), k.currPid, qs);
  }

  // ---------------------------------------------------------------- counting

  lemma WaitSems(k: Kernel)
    requires TableOk(k) && k.curr != NULL
    ensures Wait(k).sems == k.sems
  {
    hide Schedule;
    ScheduleFacts(SetStatus(k, k.curr, Waiting));
  }

  /** The counter of a semaphore after an operation on it. */
  lemma SemCounts(k: Kernel, s: nat)
    requires TableOk(k) && k.curr != NULL && s < |k.sems|
    ensures |SemP(k, s).sems| == |k.sems| && SemP(k, s).sems[s].val == k.sems[s].val - 1
    ensures SemP(k, s).sems[s].used == k.sems[s].used
    ensures forall t :: 0 <= t < |k.sems| && t != s ==> SemP(k, s).sems[t] == k.sems[t]
    ensures HeadThere(k, s) ==>
              && |SemVIntended(k, s).sems| == |k.sems| && SemVIntended(k, s).sems[s].val == k.sems[s].val + 1
              && SemVIntended(k, s).sems[s].used == k.sems[s].used
              && forall t :: 0 <= t < |k.sems| && t != s ==> SemVIntended(k, s).sems[t] == k.sems[t]
  {
    hide Wait, Wakeup;
    if k.sems[s].val - 1 < 0 {
      WaitSems(Enqueue(SetVal(k, s, k.sems[s].val - 1), s));
    }
    if HeadThere(k, s) && k.sems[s].val < 0 {
      WakeupSems(SetHead(SetVal(k, s, k.sems[s].val + 1), s, k.procs[k.sems[s].head].next), k.procs[k.sems[s].head].pid);
    }
  }

  lemma ExitSems(k: Kernel)
    requires TableOk(k) && k.curr != NULL
    ensures Exit(k).sems == k.sems
  {
    hide Wakeup;
    var t := SetStatus(k, k.curr, Terminated);
    if k.procs[k.curr].parent != NULL {
      WakeupSems(t, k.procs[k.procs[k.curr].parent].pid);
    }
  }

  lemma OtherCallSems(k: Kernel, c: Call)
    requires TableOk(k) && k.curr != NULL && CallOk(k, c)
    requires !c.PCall? && !c.VCall? && !c.GetSemCall? && !c.FreeSemCall?
    ensures DoCall(k, c).sems == k.sems
  {
    hide Wait, Exit;
    match c
    case WaitCall => WaitSems(k);
    case JoinCall => WaitSems(k);
    case ExitCall => ExitSems(k);
    case ThreadExitCall => ExitSems(k);
    case _ =>
  }

  lemma CallBalanced(k: Kernel, c: Call, r: Regs, qs: seq<seq<nat>>, ts: seq<Tally>)
    requires TableOk(k) && k.curr != NULL && CallOk(k, c) && |qs| == |k.sems|
    requires Fair(k, qs, CallEvent(c, r)) && Balanced(k, ts)
    ensures var m := if c.VCall? then SemVIntended(k, c.s) else DoCall(k, c);
            Balanced(m, NextTallies(k, ts, CallEvent(c, r)))
  {
    hide Wait, Exit, SemP, SemVIntended, Fork, ThreadCreate, Kill, Return, TableOk;
    match c
    case PCall(s) => SemCounts(k, s);
    case VCall(s) => SemCounts(k, s);
    case GetSemCall(v) =>
    case FreeSemCall(s) =>
    case _ => OtherCallSems(k, c);
  }

  lemma EventBalanced(k: Kernel, e: Event, qs: seq<seq<nat>>, ts: seq<Tally>)
    requires TableOk(k) && Queues(k, qs) && Enabled(k, e) && Fair(k, qs, e) && Balanced(k, ts)
    ensures Balanced(ApplyIntended(k, e), NextTallies(k, ts, e))
  {
    hide Queues, Tick, Schedule, SaveProc, DoCall, SemVIntended, CallOk, Fair, NextQueues;
    QueuesCount(k, qs);
    match e
    case TimerEvent(r) => TickOk(k, r);
    case ShellScheduleEvent => ScheduleFacts(k);
    case LaunchEvent(img) => FirstNewIs(k);
    case CallEvent(c, r) =>
      SavedOk(k, r);
      SavedFair(k, c, r, qs);
      CallBalanced(SaveProc(k, r), c, r, qs, ts);
  }

  lemma EventTableIntended(k: Kernel, e: Event)
    requires TableOk(k) && Enabled(k, e)
    ensures TableOk(ApplyIntended(k, e))
  {
    if e.CallEvent? && e.call.VCall? {
      SavedOk(k, e.cpu);
      VTable(SaveProc(k, e.cpu), e.call.s);
    } else {
      EventKeepsTable(k, e);
    }
  }

  lemma VTable(k: Kernel, s: nat)
    requires TableOk(k) && k.curr != NULL && HeadThere(k, s)
    ensures TableOk(SemVIntended(k, s))
  {
    hide Wakeup;
    if k.sems[s].val < 0 {
      WakeupOk(SetHead(SetVal(k, s, k.sems[s].val + 1), s, k.procs[k.sems[s].head].next), k.procs[k.sems[s].head].pid);
    }
  }

  // ---------------------------------------------------------------- runs

  /** One fair step, with the queues and tallies that go with it. */
  ghost predicate FairStep(k: Kernel, qs: seq<seq<nat>>, ts: seq<Tally>, e: Event,
                           m: Kernel, qs': seq<seq<nat>>, ts': seq<Tally>) {
    Refines(k, qs, ts) ==>
      && Enabled(k, e) && |qs| == |k.sems| && Fair(k, qs, e)
      && |ts| == |qs| && m == ApplyIntended(k, e)
      && qs' == ActQueues(qs, ts, ActOf(k, e)) && ts' == ActTallies(qs, ts, ActOf(k, e))
  }

  ghost predicate FairRun(ks: seq<Kernel>, qss: seq<seq<seq<nat>>>, tss: seq<seq<Tally>>, es: seq<Event>) {
    && |ks| == |qss| == |tss| == |es| + 1
    && Boot(ks[0]) && NoneWaiting(ks[0], qss[0]) && |tss[0]| == |ks[0].sems|
    && forall i :: 0 <= i < |es| ==> FairStep(ks[i], qss[i], tss[i], es[i], ks[i+1], qss[i+1], tss[i+1])
  }

  ghost predicate NoneWaiting(k: Kernel, qs: seq<seq<nat>>) {
    |qs| == |k.sems| && forall s :: 0 <= s < |qs| ==> qs[s] == []
  }

  lemma BootRefines(k: Kernel, qs: seq<seq<nat>>, ts: seq<Tally>)
    requires Boot(k) && NoneWaiting(k, qs) && |ts| == |k.sems|
    ensures Refines(k, qs, ts)
  {
  }

  /** The counters decide as the tallies and the queues do. */
  lemma CountersAgree(k: Kernel, qs: seq<seq<nat>>, ts: seq<Tally>, s: nat)
    requires Queues(k, qs) && Balanced(k, ts) && s < |k.sems| && k.sems[s].used
    ensures |qs| == |ts| == |k.sems|
    ensures k.sems[s].val > 0 <==> CanPass(ts[s])
    ensures k.sems[s].val < 0 <==> qs[s] != []
  {
    assert Queue(k, s, qs[s]);
  }

  lemma ActsAgree(k: Kernel, qs: seq<seq<nat>>, ts: seq<Tally>, e: Event)
    requires Refines(k, qs, ts) && Enabled(k, e) && |qs| == |k.sems| && Fair(k, qs, e)
    ensures |ts| == |qs|
    ensures NextQueues(k, qs, e) == ActQueues(qs, ts, ActOf(k, e))
    ensures NextTallies(k, ts, e) == ActTallies(qs, ts, ActOf(k, e))
  {
    hide Queues, CanPass;
    match e
    case CallEvent(PCall(s), _) => CountersAgree(k, qs, ts, s);
    case CallEvent(VCall(s), _) => CountersAgree(k, qs, ts, s);
    case _ =>
  }

  /** Every fair step of the kernel is the step of the abstract semaphores. */
  lemma StepRefines(k: Kernel, qs: seq<seq<nat>>, ts: seq<Tally>, e: Event)
    requires Refines(k, qs, ts) && Enabled(k, e) && |qs| == |k.sems| && Fair(k, qs, e)
    ensures |ts| == |qs|
    ensures var a := ActOf(k, e); Refines(ApplyIntended(k, e), ActQueues(qs, ts, a), ActTallies(qs, ts, a))
  {
    hide Queues, Balanced, Fair, TableOk, NextQueues, NextTallies, ActQueues, ActTallies, ActOf, ApplyIntended;
    ActsAgree(k, qs, ts, e);
    EventTableIntended(k, e);
    EventKeepsQueues(k, e, qs);
    EventBalanced(k, e, qs, ts);
  }

  /** What a counting semaphore promises. */
  ghost predicate Counts(k: Kernel, qs: seq<seq<nat>>, ts: seq<Tally>) {
    && |qs| == |ts| == |k.sems|
    && forall s :: 0 <= s < |k.sems| && k.sems[s].used ==>
         && ts[s].passed <= ts[s].init + ts[s].signals
         && |qs[s]| == Max0(-k.sems[s].val)
         && (qs[s] != [] ==> ts[s].passed == ts[s].init + ts[s].signals)
         && (forall i :: 0 <= i < |qs[s]| ==> qs[s][i] < |k.procs| && k.procs[qs[s][i]].status == Waiting)
  }

  lemma RefinesCounts(k: Kernel, qs: seq<seq<nat>>, ts: seq<Tally>)
    requires Refines(k, qs, ts)
    ensures Counts(k, qs, ts)
  {
    forall s | 0 <= s < |k.sems| && k.sems[s].used
      ensures
        && ts[s].passed <= ts[s].init + ts[s].signals
        && |qs[s]| == Max0(-k.sems[s].val)
        && (qs[s] != [] ==> ts[s].passed == ts[s].init + ts[s].signals)
        && (forall i :: 0 <= i < |qs[s]| ==> qs[s][i] < |k.procs| && k.procs[qs[s][i]].status == Waiting)
    {
      assert Queue(k, s, qs[s]);
    }
  }

  /** Over every fair run of the kernel with the intended pop, whatever the number of
      waiters: the P operations that returned never exceed the initial value plus the V
      operations, nobody waits while one more could pass, and the linked list of each
      semaphore holds exactly max(0, -val) distinct WAITING processes. */
  lemma {:induction false} CountingSafety(ks: seq<Kernel>, qss: seq<seq<seq<nat>>>, tss: seq<seq<Tally>>,
                                          es: seq<Event>, n: nat)
    requires FairRun(ks, qss, tss, es) && n < |ks|
    ensures Refines(ks[n], qss[n], tss[n]) && Counts(ks[n], qss[n], tss[n])
  {
    hide Refines, Fair, Enabled, ApplyIntended, ActQueues, ActTallies, ActOf, Counts, Boot, NoneWaiting;
    if n == 0 {
      BootRefines(ks[0], qss[0], tss[0]);
    } else {
      CountingSafety(ks, qss, tss, es, n - 1);
      assert FairStep(ks[n-1], qss[n-1], tss[n-1], es[n-1], ks[n-1+1], qss[n-1+1], tss[n-1+1]);
      StepRefines(ks[n-1], qss[n-1], tss[n-1], es[n-1]);
    }
    RefinesCounts(ks[n], qss[n], tss[n]);
  }

  // ---------------------------------------------------------------- the pop as written

  /** Line 52 does what it was meant to do exactly when the caller's `next` happens to equal
      that of the process it wakes. */
  lemma PopAgrees(k: Kernel, s: nat)
    requires TableOk(k) && k.curr != NULL && HeadThere(k, s) && k.sems[s].val < 0
    ensures SemV(k, s) == SemVIntended(k, s) <==> k.procs[k.curr].next == k.procs[k.sems[s].head].next
  {
    hide Wakeup;
    var u, h := SetVal(k, s, k.sems[s].val + 1), k.sems[s].head;
    WakeupSems(SetHead(u, s, k.procs[k.curr].next), k.procs[h].pid);
    WakeupSems(SetHead(u, s, k.procs[h].next), k.procs[h].pid);
    if k.procs[k.curr].next != k.procs[h].next {
      assert SemV(k, s).sems[s].head != SemVIntended(k, s).sems[s].head;
    }
  }

  /** With two or more waiters, a caller that never blocked behind anybody (its `next` is
      NULL) empties the list although processes are still waiting; the next V then follows a
      null pointer. */
  lemma PopLosesWaiters(k: Kernel, s: nat, qs: seq<seq<nat>>)
    requires TableOk(k) && k.curr != NULL && Queues(k, qs) && s < |qs| && k.sems[s].used
    requires |qs[s]| >= 2 && k.procs[k.curr].next == NULL
    ensures HeadThere(k, s) && s < |SemV(k, s).sems|
    ensures SemV(k, s).sems[s].val < 0 && !HeadThere(SemV(k, s), s)
  {
    hide SemV, Distinct, Listed, Queues;
    QueueOf(k, s, qs);
    HeadWaits(k, s, qs[s]);
    AsWrittenHead(k, s);
  }

  lemma AsWrittenHead(k: Kernel, s: nat)
    requires TableOk(k) && k.curr != NULL && HeadThere(k, s) && k.sems[s].val < 0
    ensures |SemV(k, s).procs| == |k.procs|
    ensures SemV(k, s).sems == k.sems[s := k.sems[s].(val := k.sems[s].val + 1, head := k.procs[k.curr].next)]
  {
    hide Wakeup;
    WakeupSems(SetHead(SetVal(k, s, k.sems[s].val + 1), s, k.procs[k.curr].next), k.procs[k.sems[s].head].pid);
  }

  lemma QueueOf(k: Kernel, s: nat, qs: seq<seq<nat>>)
    requires Queues(k, qs) && s < |qs|
    ensures s < |k.sems| && Queue(k, s, qs[s])
  {
  }

  /** No process was ever linked behind another one. */
  ghost predicate Unlinked(k: Kernel) {
    forall i :: 0 <= i < |k.procs| ==> k.procs[i].next == NULL
  }

  /** At most one waiter per semaphore. */
  ghost predicate Solitary(k: Kernel, qs: seq<seq<nat>>, e: Event)
    requires |qs| == |k.sems|
  {
    match e
    case CallEvent(PCall(s), _) => s < |k.sems| && k.sems[s].val <= 0 ==> qs[s] == []
    case _ => true
  }

  lemma WakeupNext(k: Kernel, pid: nat)
    requires TableOk(k) && Unlinked(k)
    ensures Unlinked(Wakeup(k, pid))
  {
    hide Schedule;
    var t := FindWaiting(k.procs, pid % 256, 0);
    if t != NULL {
      ScheduleFacts(SetStatus(k, t, Ready));
    }
  }

  lemma WaitNext(k: Kernel)
    requires TableOk(k) && k.curr != NULL && Unlinked(k)
    ensures Unlinked(Wait(k))
  {
    hide Schedule;
    ScheduleFacts(SetStatus(k, k.curr, Waiting));
  }

  lemma ExitNext(k: Kernel)
    requires TableOk(k) && k.curr != NULL && Unlinked(k)
    ensures Unlinked(Exit(k))
  {
    hide Wakeup;
    var t := SetStatus(k, k.curr, Terminated);
    if k.procs[k.curr].parent != NULL {
      WakeupNext(t, k.procs[k.procs[k.curr].parent].pid);
    }
  }

  lemma SemNext(k: Kernel, s: nat)
    requires TableOk(k) && k.curr != NULL && s < |k.sems| && Unlinked(k)
    ensures k.sems[s].val > 0 || k.sems[s].head == NULL ==> Unlinked(SemP(k, s))
    ensures HeadThere(k, s) ==> SemV(k, s) == SemVIntended(k, s) && Unlinked(SemV(k, s))
  {
    hide Wait, Wakeup;
    if k.sems[s].val <= 0 && k.sems[s].head == NULL {
      WaitNext(Enqueue(SetVal(k, s, k.sems[s].val - 1), s));
    }
    if HeadThere(k, s) && k.sems[s].val < 0 {
      WakeupNext(SetHead(SetVal(k, s, k.sems[s].val + 1), s, NULL), k.procs[k.sems[s].head].pid);
    }
  }

  lemma CallNext(k: Kernel, c: Call, r: Regs, qs: seq<seq<nat>>)
    requires TableOk(k) && k.curr != NULL && CallOk(k, c) && Unlinked(k)
    requires Queues(k, qs) && |qs| == |k.sems| && Solitary(k, qs, CallEvent(c, r))
    ensures Unlinked(DoCall(k, c))
  {
    hide Wait, Exit, SemP, SemV, TableOk, Queues, Unlinked;
    match c
    case WaitCall => WaitNext(k);
    case JoinCall => WaitNext(k);
    case ExitCall => ExitNext(k);
    case ThreadExitCall => ExitNext(k);
    case PCall(s) => QueueOf(k, s, qs); SemNext(k, s);
    case VCall(s) => SemNext(k, s);
    case _ => SmallNext(k, c);
  }

  lemma SmallNext(k: Kernel, c: Call)
    requires TableOk(k) && k.curr != NULL && CallOk(k, c) && Unlinked(k)
    requires c.ForkCall? || c.ThreadCreateCall? || c.ReturnCall? || c.GetSemCall? || c.FreeSemCall? || c.KillCall?
    ensures Unlinked(DoCall(k, c))
  {
    FirstNewIs(k);
  }

  lemma SavedUnlinked(k: Kernel, r: Regs)
    requires TableOk(k) && Unlinked(k)
    ensures Unlinked(SaveProc(k, r))
  {
  }

  lemma RescheduledUnlinked(k: Kernel, m: Kernel)
    requires Unlinked(k) && OnlyRescheduled(k, m)
    ensures Unlinked(m)
  {
  }

  lemma LaunchUnlinked(k: Kernel, img: Regs)
    requires TableOk(k) && Unlinked(k) && k.currPid < |k.procs|
    ensures FirstNew(k.procs, 0) != NULL && Unlinked(ProcCreate(k, img))
  {
    FirstNewIs(k);
  }

  /** While every semaphore has at most one waiter, the code as written takes the same steps
      as the intended code. */
  lemma AsWrittenAgrees(k: Kernel, e: Event, qs: seq<seq<nat>>)
    requires TableOk(k) && Queues(k, qs) && Unlinked(k) && Enabled(k, e)
    requires |qs| == |k.sems| && Fair(k, qs, e) && Solitary(k, qs, e)
    ensures Apply(k, e) == ApplyIntended(k, e) && Unlinked(Apply(k, e))
  {
    hide Queues, Unlinked, Tick, Schedule, SaveProc, DoCall, SemVIntended, CallOk, Fair, ProcCreate;
    match e
    case TimerEvent(r) => TickOk(k, r); RescheduledUnlinked(k, Tick(k, r));
    case ShellScheduleEvent => ScheduleFacts(k); RescheduledUnlinked(k, Schedule(k));
    case LaunchEvent(img) => LaunchUnlinked(k, img);
    case CallEvent(c, r) =>
      SavedOk(k, r);
      SavedUnlinked(k, r);
      SavedQueues(k, r, qs);
      CallNext(SaveProc(k, r), c, r, qs);
      if c.VCall? {
        VCallSame(SaveProc(k, r), c.s);
      }
  }

  lemma VCallSame(k: Kernel, s: nat)
    requires TableOk(k) && k.curr != NULL && CallOk(k, VCall(s)) && Unlinked(k)
    ensures DoCall(k, VCall(s)) == SemVIntended(k, s)
  {
    hide SemV, SemVIntended;
    SemNext(k, s);
  }

  /** A fair run of the kernel as written in which no P finds somebody already waiting. */
  ghost predicate SolitaryStep(k: Kernel, qs: seq<seq<nat>>, ts: seq<Tally>, e: Event,
                               m: Kernel, qs': seq<seq<nat>>, ts': seq<Tally>) {
    Refines(k, qs, ts) && Unlinked(k) ==>
      && Enabled(k, e) && |qs| == |k.sems| && Fair(k, qs, e) && Solitary(k, qs, e)
      && |ts| == |qs| && m == Apply(k, e)
      && qs' == ActQueues(qs, ts, ActOf(k, e)) && ts' == ActTallies(qs, ts, ActOf(k, e))
  }

  ghost predicate SolitaryRun(ks: seq<Kernel>, qss: seq<seq<seq<nat>>>, tss: seq<seq<Tally>>, es: seq<Event>) {
    && |ks| == |qss| == |tss| == |es| + 1
    && Boot(ks[0]) && NoneWaiting(ks[0], qss[0]) && |tss[0]| == |ks[0].sems|
    && forall i :: 0 <= i < |es| ==> SolitaryStep(ks[i], qss[i], tss[i], es[i], ks[i+1], qss[i+1], tss[i+1])
  }

  lemma BootUnlinked(k: Kernel)
    requires Boot(k)
    ensures Unlinked(k)
  {
  }

  /** The counting discipline for the code as written, with at most one waiter per semaphore. */
  lemma {:induction false} CountingSafetyAsWritten(ks: seq<Kernel>, qss: seq<seq<seq<nat>>>, tss: seq<seq<Tally>>,
                                                   es: seq<Event>, n: nat)
    requires SolitaryRun(ks, qss, tss, es) && n < |ks|
    ensures Refines(ks[n], qss[n], tss[n]) && Unlinked(ks[n]) && Counts(ks[n], qss[n], tss[n])
  {
    hide Queues, Balanced, TableOk, Unlinked, Fair, Solitary, Enabled, Apply, ApplyIntended, ActQueues, ActTallies,
         ActOf, Counts, Boot, NoneWaiting;
    if n == 0 {
      BootRefines(ks[0], qss[0], tss[0]);
      BootUnlinked(ks[0]);
    } else {
      CountingSafetyAsWritten(ks, qss, tss, es, n - 1);
      assert SolitaryStep(ks[n-1], qss[n-1], tss[n-1], es[n-1], ks[n-1+1], qss[n-1+1], tss[n-1+1]);
      AsWrittenAgrees(ks[n-1], es[n-1], qss[n-1]);
      StepRefines(ks[n-1], qss[n-1], tss[n-1], es[n-1]);
    }
    RefinesCounts(ks[n], qss[n], tss[n]);
  }
}
