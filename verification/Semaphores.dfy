/** The kernel semaphores of include/semaphore.h: a counter and a stack of blocked processes
    threaded through the `next` field of the process table. */
module Semaphores {
  import opened Basics
  import opened Task

  function SetVal(k: Kernel, s: nat, v: int): Kernel
    requires s < |k.sems|
  {
    k.(sems := k.sems[s := k.sems[s].(val := v)])
  }

  /** The current process pushed on the queue of s. */
  function Enqueue(k: Kernel, s: nat): Kernel
    requires Slot(k, k.curr) && s < |k.sems|
  {
    k.(procs := k.procs[k.curr := k.procs[k.curr].(next := k.sems[s].head)],
       sems := k.sems[s := k.sems[s].(head := k.curr)])
  }

  function SetHead(k: Kernel, s: nat, h: int): Kernel
    requires s < |k.sems|
  {
    k.(sems := k.sems[s := k.sems[s].(head := h)])
  }

  /** do_sem_p. */
  function SemP(k: Kernel, s: nat): Kernel
    requires Slot(k, k.curr) && s < |k.sems|
  {
    var d := SetVal(k, s, k.sems[s].val - 1);
    if d.sems[s].val < 0 then Wait(Enqueue(d, s)) else d
  }

  /** do_sem_v finds a waiter, so the head of the queue has to be there. */
  predicate HeadThere(k: Kernel, s: nat) {
    s < |k.sems| && (k.sems[s].val < 0 ==> Slot(k, k.sems[s].head))
  }

  function Popped(k: Kernel, s: nat, newHead: int): Kernel
    requires Slot(k, k.curr) && HeadThere(k, s)
  {
    var u := SetVal(k, s, k.sems[s].val + 1);
    if u.sems[s].val <= 0 then Wakeup(SetHead(u, s, newHead), k.procs[k.sems[s].head].pid) else u
  }

  /** do_sem_v as written: line 52 makes the caller's own `next` the new head. */
  function SemV(k: Kernel, s: nat): Kernel
    requires Slot(k, k.curr) && HeadThere(k, s)
  {
    Popped(k, s, k.procs[k.curr].next)
  }

  /** do_sem_v with the pop it was meant to do: the successor of the old head. */
  function SemVIntended(k: Kernel, s: nat): Kernel
    requires Slot(k, k.curr) && HeadThere(k, s)
  {
    Popped(k, s, if k.sems[s].val < 0 then k.procs[k.sems[s].head].next else NULL)
  }

  function FirstUnused(ss: seq<Sem>, i: nat): (r: int)
    ensures r == NULL || (i <= r < |ss| && !ss[r].used)
    ensures forall x :: i <= x < |ss| && (r == NULL || x < r) ==> ss[x].used
    decreases |ss| - i
  {
    if i >= |ss| then NULL
    else if !ss[i].used then i
    else FirstUnused(ss, i + 1)
  }

  /** do_getsem; its result is FirstUnused(k.sems, 0).  The queue head is not reset. */
  function GetSem(k: Kernel, v: int): Kernel {
    var i := FirstUnused(k.sems, 0);
    if i == NULL then k else k.(sems := k.sems[i := k.sems[i].(val := v, used := true)])
  }

  function FreeSem(k: Kernel, s: nat): Kernel
    requires s < |k.sems|
  {
    k.(sems := k.sems[s := k.sems[s].(used := false, head := NULL)])
  }
}
