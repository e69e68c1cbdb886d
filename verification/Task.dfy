/** The process table and round-robin scheduler of include/task.h and the thread calls of
    include/systhread.h, as functions on the kernel's global state.  Slots are named by
    their index in proc_list; NULL stands for a null process pointer. */
module Task {
  import opened Basics

  const MAX_TICK := 1

  datatype Status = New | Ready | Running | Waiting | Terminated

  /** struct regs: the image pushed by pusha and by the interrupt. */
  datatype Regs = Regs(gs: nat, fs: nat, es: nat, ds: nat,
                       edi: nat, esi: nat, ebp: nat, esp: nat,
                       ebx: nat, edx: nat, ecx: nat, eax: nat,
                       eip: nat, cs: nat, eflags: nat, userEsp: nat, ss: nat)

  datatype Pcb = Pcb(regImg: Regs, pid: nat, parent: int, next: int, status: Status, tick: int)

  datatype Sem = Sem(val: int, used: bool, head: int)

  datatype Kernel = Kernel(procs: seq<Pcb>, curr: int, currPid: nat, sems: seq<Sem>)

  // ---------------------------------------------------------------- scheduling

  function FirstRunning(ps: seq<Pcb>, i: nat): (r: int)
    ensures r == NULL || (i <= r < |ps| && ps[r].status == Running)
    ensures r == NULL ==> forall x :: i <= x < |ps| ==> ps[x].status != Running
    decreases |ps| - i
  {
    if i >= |ps| then NULL
    else if ps[i].status == Running then i
    else FirstRunning(ps, i + 1)
  }

  /** The slot the i-th round of the round-robin loop of proc_pick looks at. */
  function Nth(n: nat, base: int, i: nat): (r: nat)
    requires n > 0 && base >= -1
    ensures r < n
  {
    (i + 1 + base) % n
  }

  function PickFrom(ps: seq<Pcb>, base: int, i: nat): (r: int)
    requires -1 <= base < |ps|
    ensures -1 <= r < |ps|
    decreases |ps| - i
  {
    if i >= |ps| then base
    else if ps[Nth(|ps|, base, i)].status == Ready then Nth(|ps|, base, i)
    else PickFrom(ps, base, i + 1)
  }

  /** proc_pick: the first READY slot after the RUNNING one in cyclic order, else the RUNNING
      one, else NULL. */
  function Pick(ps: seq<Pcb>): int {
    PickFrom(ps, FirstRunning(ps, 0), 0)
  }

  function SetStatus(k: Kernel, i: nat, s: Status): Kernel
    requires i < |k.procs|
  {
    k.(procs := k.procs[i := k.procs[i].(status := s)])
  }

  predicate Slot(k: Kernel, i: int) {
    0 <= i < |k.procs|
  }

  predicate Curr(k: Kernel) {
    k.curr == NULL || Slot(k, k.curr)
  }

  /** proc_switch: demote the current process if it is RUNNING, run slot j.  The register
      image of j is what restart_proc loads. */
  function Switch(k: Kernel, j: nat): Kernel
    requires j < |k.procs| && Curr(k)
  {
    var d :=
      if k.currPid != 0 && k.curr != NULL && k.procs[k.curr].status == Running
      then SetStatus(k, k.curr, Ready) else k;
    d.(procs := d.procs[j := d.procs[j].(tick := MAX_TICK, status := Running)], curr := j)
  }

  function Schedule(k: Kernel): Kernel
    requires Curr(k)
  {
    var j := Pick(k.procs);
    if j == NULL then k else Switch(k, j)
  }

  /** save_proc keeps 16 bits of the data segment registers. */
  function Masked(r: Regs): Regs {
    r.(ds := r.ds % 0x10000, es := r.es % 0x10000, fs := r.fs % 0x10000, gs := r.gs % 0x10000)
  }

  function SaveProc(k: Kernel, r: Regs): Kernel
    requires Curr(k)
  {
    if k.curr == NULL then k
    else k.(procs := k.procs[k.curr := k.procs[k.curr].(regImg := Masked(r))])
  }

  /** pit_handler_main. */
  function Tick(k: Kernel, r: Regs): Kernel
    requires Curr(k)
  {
    if k.curr == NULL then
      if k.currPid != 0 then Schedule(k) else k
    else if k.procs[k.curr].tick > 0 then
      k.(procs := k.procs[k.curr := k.procs[k.curr].(tick := k.procs[k.curr].tick - 1)])
    else
      Schedule(SaveProc(k, r))
  }

  // ---------------------------------------------------------------- process calls

  function FirstNew(ps: seq<Pcb>, i: nat): (r: int)
    ensures r == NULL || (i <= r < |ps| && ps[r].status == New)
    ensures forall x :: i <= x < |ps| && (r == NULL || x < r) ==> ps[x].status != New
    decreases |ps| - i
  {
    if i >= |ps| then NULL
    else if ps[i].status == New then i
    else FirstNew(ps, i + 1)
  }

  /** proc_alloc on the slot it found. */
  function Alloc(k: Kernel, i: nat): Kernel
    requires i < |k.procs|
  {
    k.(procs := k.procs[i := k.procs[i].(status := Ready, pid := k.currPid + 1)], currPid := k.currPid + 1)
  }

  /** proc_create, run by the shell for a new program with the given creation image. */
  function ProcCreate(k: Kernel, img: Regs): Kernel
    requires FirstNew(k.procs, 0) != NULL
  {
    var i := FirstNew(k.procs, 0);
    var a := Alloc(k, i);
    a.(procs := a.procs[i := a.procs[i].(regImg := img, tick := MAX_TICK)])
  }

  /** The image a forked child starts from: its parent's, on a stack shifted by pid * 0x100,
      with 0 as the result of the call. */
  function ChildImage(r: Regs, pid: nat): Regs {
    r.(ebp := (r.ebp + pid * 0x100) % WORD, userEsp := (r.userEsp + pid * 0x100) % WORD, eax := 0)
  }

  /** A thread's image: like a forked child's, entered at func with two words pushed. */
  function ThreadImage(r: Regs, pid: nat, func: nat): Regs {
    var c := ChildImage(r, pid);
    c.(eip := func, userEsp := (c.userEsp - 8) % WORD)
  }

  function Spawn(k: Kernel, i: nat, img: Regs): Kernel
    requires i < |k.procs|
  {
    var a := Alloc(k, i);
    a.(procs := a.procs[i := a.procs[i].(regImg := img, parent := k.curr, status := Ready, tick := MAX_TICK)])
  }

  function Fork(k: Kernel): Kernel
    requires Slot(k, k.curr)
  {
    var i := FirstNew(k.procs, 0);
    if i == NULL then k else Spawn(k, i, ChildImage(k.procs[k.curr].regImg, k.currPid + 1))
  }

  function ThreadCreate(k: Kernel, func: nat): Kernel
    requires Slot(k, k.curr)
  {
    var i := FirstNew(k.procs, 0);
    if i == NULL then k else Spawn(k, i, ThreadImage(k.procs[k.curr].regImg, k.currPid + 1, func))
  }

  /** What fork returns to the parent. */
  function ForkResult(k: Kernel): int {
    if FirstNew(k.procs, 0) == NULL then -1 else k.currPid + 1
  }

  function FindWaiting(ps: seq<Pcb>, pid: nat, i: nat): (r: int)
    ensures r == NULL || (i <= r < |ps| && ps[r].pid == pid && ps[r].status == Waiting)
    ensures forall x :: i <= x < |ps| && (r == NULL || x < r) ==> !(ps[x].pid == pid && ps[x].status == Waiting)
    decreases |ps| - i
  {
    if i >= |ps| then NULL
    else if ps[i].pid == pid && ps[i].status == Waiting then i
    else FindWaiting(ps, pid, i + 1)
  }

  /** wakeup; its parameter is eight bits wide. */
  function Wakeup(k: Kernel, pid: nat): Kernel
    requires Curr(k)
  {
    var t := FindWaiting(k.procs, pid % 256, 0);
    if t == NULL then k else Schedule(SetStatus(k, t, Ready))
  }

  /** do_wait and do_thread_join. */
  function Wait(k: Kernel): Kernel
    requires Slot(k, k.curr)
  {
    Schedule(SetStatus(k, k.curr, Waiting))
  }

  /** do_exit and the first part of do_thread_exit. */
  function Exit(k: Kernel): Kernel
    requires Slot(k, k.curr)
    requires k.procs[k.curr].parent == NULL || Slot(k, k.procs[k.curr].parent)
  {
    var p := k.procs[k.curr].parent;
    var t := SetStatus(k, k.curr, Terminated);
    if p == NULL then t else Wakeup(t, k.procs[p].pid)
  }

  /** System call 100, where a process that returned from main ends: back to the shell. */
  function Return(k: Kernel): Kernel
    requires Slot(k, k.curr)
  {
    SetStatus(k, k.curr, Terminated).(curr := NULL)
  }

  function FindPid(ps: seq<Pcb>, pid: nat, i: nat): (r: int)
    ensures r == NULL || (i <= r < |ps| && ps[r].pid == pid)
    ensures forall x :: i <= x < |ps| && (r == NULL || x < r) ==> ps[x].pid != pid
    decreases |ps| - i
  {
    if i >= |ps| then NULL
    else if ps[i].pid == pid then i
    else FindPid(ps, pid, i + 1)
  }

  function Kill(k: Kernel, pid: nat): Kernel {
    var t := FindPid(k.procs, pid % 256, 0);
    if t == NULL then k else SetStatus(k, t, Terminated)
  }

  // ---------------------------------------------------------------- the table invariant

  /** The used slots are a prefix, slot i has pid i + 1, currPid counts them, and only the
      current process can be RUNNING. */
  ghost predicate TableOk(k: Kernel) {
    && k.currPid <= |k.procs| <= 255
    && (forall i :: 0 <= i < k.currPid ==> k.procs[i].pid == i + 1 && k.procs[i].status != New)
    && (forall i :: k.currPid <= i < |k.procs| ==> k.procs[i].pid == 0 && k.procs[i].status == New)
    && (k.curr == NULL || 0 <= k.curr < k.currPid)
    && (forall i :: 0 <= i < |k.procs| && k.procs[i].status == Running ==> i == k.curr)
    && (forall i :: 0 <= i < |k.procs| ==> k.procs[i].parent == NULL || 0 <= k.procs[i].parent < k.currPid)
    && (forall i :: 0 <= i < |k.procs| ==> 0 <= k.procs[i].tick <= MAX_TICK)
  }

  /** A process is executing and the table says so. */
  ghost predicate Executing(k: Kernel) {
    TableOk(k) && k.curr != NULL && k.procs[k.curr].status == Running
  }

  predicate Runnable(s: Status) {
    s == Ready || s == Running
  }

  /** Scheduling may exchange READY and RUNNING but nothing else. */
  predicate SameKind(s: Status, t: Status) {
    s == t || (Runnable(s) && Runnable(t))
  }

  ghost predicate OnlyRescheduled(k: Kernel, m: Kernel) {
    && |m.procs| == |k.procs| && m.currPid == k.currPid && m.sems == k.sems
    && forall i :: 0 <= i < |k.procs| ==>
         && SameKind(k.procs[i].status, m.procs[i].status)
         && m.procs[i].pid == k.procs[i].pid
         && m.procs[i].parent == k.procs[i].parent
         && m.procs[i].next == k.procs[i].next
  }

  ghost predicate SomeRunnable(k: Kernel) {
    exists i :: 0 <= i < |k.procs| && Runnable(k.procs[i].status)
  }

  /** Who can run, and whom wakeup finds, depends on the statuses and pids. */
  lemma SameChoice(k: Kernel, m: Kernel, pid: nat)
    requires |m.procs| == |k.procs|
    requires forall i :: 0 <= i < |k.procs| ==> m.procs[i].status == k.procs[i].status && m.procs[i].pid == k.procs[i].pid
    ensures SomeRunnable(m) <==> SomeRunnable(k)
    ensures SomeWaiting(m, pid) <==> SomeWaiting(k, pid)
  {
    if i :| 0 <= i < |k.procs| && Runnable(k.procs[i].status) {
      assert Runnable(m.procs[i].status);
    }
    if i :| 0 <= i < |m.procs| && Runnable(m.procs[i].status) {
      assert Runnable(k.procs[i].status);
    }
    if i :| 0 <= i < |k.procs| && k.procs[i].pid == pid % 256 && k.procs[i].status == Waiting {
      assert m.procs[i].status == Waiting;
    }
    if i :| 0 <= i < |m.procs| && m.procs[i].pid == pid % 256 && m.procs[i].status == Waiting {
      assert k.procs[i].status == Waiting;
    }
  }

  /** wakeup(pid) finds somebody. */
  ghost predicate SomeWaiting(k: Kernel, pid: nat) {
    exists i :: 0 <= i < |k.procs| && k.procs[i].pid == pid % 256 && k.procs[i].status == Waiting
  }

  lemma Wrap(y: nat, n: nat)
    requires y < n
    ensures (y + n) % n == y && y % n == y
  {
  }

  lemma NthIs(n: nat, base: int, i: nat)
    requires -1 <= base < n && i < n
    ensures Nth(n, base, i) == if i + 1 + base < n then i + 1 + base else i + 1 + base - n
  {
    Wrap(if i + 1 + base < n then i + 1 + base else i + 1 + base - n, n);
  }

  lemma NthCovers(n: nat, base: int, x: nat) returns (i: nat)
    requires x < n && -1 <= base < n
    ensures i < n && Nth(n, base, i) == x
  {
    hide Nth;
    i := if x > base then x - base - 1 else x + n - base - 1;
    NthIs(n, base, i);
  }

  lemma PickFromFacts(ps: seq<Pcb>, base: int, i: nat)
    requires -1 <= base < |ps| && i <= |ps|
    ensures
      var r := PickFrom(ps, base, i);
      || (exists m: nat :: i <= m < |ps| && r == Nth(|ps|, base, m) && ps[r].status == Ready &&
            forall l: nat :: i <= l < m ==> ps[Nth(|ps|, base, l)].status != Ready)
      || (r == base && forall l: nat :: i <= l < |ps| ==> ps[Nth(|ps|, base, l)].status != Ready)
    decreases |ps| - i
  {
    if i < |ps| && ps[Nth(|ps|, base, i)].status != Ready {
      PickFromFacts(ps, base, i + 1);
    }
  }

  /** proc_pick finds a READY process whenever there is one, keeps the RUNNING one when it
      is alone, and fails only when neither exists. */
  lemma PickFacts(ps: seq<Pcb>)
    ensures var r := Pick(ps);
            && -1 <= r < |ps|
            && (r != NULL ==> Runnable(ps[r].status))
            && (r == NULL ==> forall x :: 0 <= x < |ps| ==> !Runnable(ps[x].status))
            && (r != NULL && ps[r].status == Running ==> forall x :: 0 <= x < |ps| ==> ps[x].status != Ready)
  {
    var base, r := FirstRunning(ps, 0), Pick(ps);
    PickFromFacts(ps, base, 0);
    if r == NULL || ps[r].status != Ready {
      forall x: nat | x < |ps| ensures ps[x].status != Ready {
        var i := NthCovers(|ps|, base, x);
      }
    }
  }

  lemma SwitchFacts(k: Kernel, j: nat)
    requires TableOk(k) && j < |k.procs| && Runnable(k.procs[j].status)
    ensures TableOk(Switch(k, j)) && OnlyRescheduled(k, Switch(k, j)) && Executing(Switch(k, j))
    ensures forall i :: 0 <= i < |k.procs| ==> Switch(k, j).procs[i].regImg == k.procs[i].regImg
  {
  }

  lemma ScheduleFacts(k: Kernel)
    requires TableOk(k)
    ensures TableOk(Schedule(k)) && OnlyRescheduled(k, Schedule(k))
    ensures if SomeRunnable(k) then Executing(Schedule(k)) else Schedule(k) == k
    ensures forall i :: 0 <= i < |k.procs| ==> Schedule(k).procs[i].regImg == k.procs[i].regImg
  {
    hide Switch, Pick;
    PickFacts(k.procs);
    if Pick(k.procs) != NULL {
      SwitchFacts(k, Pick(k.procs));
    }
  }

  lemma FirstNewIs(k: Kernel)
    requires TableOk(k)
    ensures FirstNew(k.procs, 0) == if k.currPid < |k.procs| then k.currPid else NULL
  {
    if k.currPid < |k.procs| {
      assert k.procs[k.currPid].status == New;
    }
  }
}
