/** The code of include/task.h, include/semaphore.h and include/systhread.h as it works in
    place on the global tables, against the functions of Task and Semaphores. */
module KernelCode {
  import opened Basics
  import opened Task
  import opened Semaphores
  import opened KernelRuns

  class Machine {
    const procs: array<Pcb>
    const sems: array<Sem>
    var curr: int
    var currPid: nat
    var cpu: Regs  // what restart_proc loads

    ghost predicate Valid()
      reads this
    {
      curr == NULL || 0 <= curr < procs.Length
    }

    /** The processor has been given the image of the current process. */
    ghost predicate Loaded()
      reads this, procs
    {
      0 <= curr < procs.Length && cpu == procs[curr].regImg
    }

    ghost function Abs(): Kernel
      reads this, procs, sems
    {
      Kernel(procs[..], curr, currPid, sems[..])
    }

    /** The kernel's start: both tables are laid out and initialised. */
    constructor (maxProcess: nat, maxSem: nat, zero: Regs)
      requires maxProcess <= 255
      ensures Valid() && fresh(procs) && fresh(sems)
      ensures Boot(Abs()) && procs.Length == maxProcess && sems.Length == maxSem
    {
      curr, currPid, cpu := NULL, 0, zero;
      procs := new Pcb[maxProcess](_ => Pcb(zero, 0, 0, 0, New, 0));
      sems := new Sem[maxSem](_ => Sem(0, false, 0));
      new;
      ProcInit(zero);
      SemInit();
    }

    method ProcInit(zero: Regs)
      modifies procs
      ensures forall k :: 0 <= k < procs.Length ==> procs[k] == Pcb(zero, 0, NULL, NULL, New, 0)
    {
      for i := 0 to procs.Length
        invariant forall k :: 0 <= k < i ==> procs[k] == Pcb(zero, 0, NULL, NULL, New, 0)
      {
        procs[i] := Pcb(zero, 0, NULL, NULL, New, 0);
      }
    }

    method SemInit()
      modifies sems
      ensures forall k :: 0 <= k < sems.Length ==> sems[k] == Sem(0, false, NULL)
    {
      for i := 0 to sems.Length
        invariant forall k :: 0 <= k < i ==> sems[k] == Sem(0, false, NULL)
      {
        sems[i] := Sem(0, false, NULL);
      }
    }

    method ProcAlloc() returns (i: int)
      requires Valid()
      modifies this`currPid, procs
      ensures i == FirstNew(old(procs[..]), 0)
      ensures Abs() == if i == NULL then old(Abs()) else Alloc(old(Abs()), i)
    {
      i := 0;
      while i < procs.Length
        invariant 0 <= i <= procs.Length
        invariant FirstNew(procs[..], i) == FirstNew(procs[..], 0)
      {
        if procs[i].status == New {
          procs[i] := procs[i].(status := Ready);
          currPid := currPid + 1;
          procs[i] := procs[i].(pid := currPid);
          return;
        }
        i := i + 1;
      }
      i := NULL;
    }

    method ProcPick() returns (r: int)
      requires Valid()
      ensures r == Pick(procs[..])
    {
      var currIndex := NULL;
      var i := 0;
      while i < procs.Length
        invariant 0 <= i <= procs.Length && currIndex == NULL
        invariant FirstRunning(procs[..], i) == FirstRunning(procs[..], 0)
      {
        if procs[i].status == Running {
          currIndex := i;
          break;
        }
        i := i + 1;
      }
      assert currIndex == FirstRunning(procs[..], 0);
      i := 0;
      while i < procs.Length
        invariant 0 <= i <= procs.Length
        invariant PickFrom(procs[..], currIndex, i) == Pick(procs[..])
      {
        var index := (i + 1 + currIndex) % procs.Length;
        assert index == Nth(procs.Length, currIndex, i);
        if procs[index].status == Ready {
          return index;
        }
        i := i + 1;
      }
      return currIndex;
    }

    method SaveRegs(r: Regs)
      requires Valid()
      modifies procs
      ensures Abs() == SaveProc(old(Abs()), r)
    {
      if curr == NULL {
        return;
      }
      procs[curr] := procs[curr].(regImg := Masked(r));
    }

    method ProcSwitch(j: nat)
      requires Valid() && j < procs.Length
      modifies this`curr, this`cpu, procs
      ensures Valid() && Abs() == Switch(old(Abs()), j) && cpu == old(procs[j].regImg) && Loaded()
    {
      if currPid != 0 && curr != NULL && procs[curr].status == Running {
        procs[curr] := procs[curr].(status := Ready);
      }
      procs[j] := procs[j].(tick := MAX_TICK);
      procs[j] := procs[j].(status := Running);
      curr := j;
      cpu := procs[j].regImg;
    }

    /** Whenever somebody is picked the processor gets the image that process last saved. */
    method ScheduleProc()
      requires Valid()
      modifies this`curr, this`cpu, procs
      ensures Valid() && Abs() == Schedule(old(Abs()))
      ensures if SomeRunnable(old(Abs())) then Loaded() else cpu == old(cpu)
    {
      PickFacts(procs[..]);
      var j := ProcPick();
      if j == NULL {
        return;
      }
      ProcSwitch(j);
    }

    method PitHandler(r: Regs)
      requires Valid()
      modifies this`curr, this`cpu, procs
      ensures Valid() && Abs() == Tick(old(Abs()), r)
      ensures if TimeIsUp(old(Abs())) && SomeRunnable(old(Abs())) then Loaded() else cpu == old(cpu)
    {
      if curr == NULL {
        if currPid != 0 {
          ScheduleProc();
        }
        return;
      }
      if procs[curr].tick > 0 {
        procs[curr] := procs[curr].(tick := procs[curr].tick - 1);
        return;
      }
      SaveRegs(r);
      SameChoice(old(Abs()), Abs(), 0);
      ScheduleProc();
    }

    /** proc_create, which uses the slot proc_alloc returns without looking whether it is NULL. */
    method CreateProcess(img: Regs) returns (i: int)
      requires Valid() && FirstNew(procs[..], 0) != NULL
      modifies this`currPid, procs
      ensures Valid() && i == FirstNew(old(procs[..]), 0) && Abs() == ProcCreate(old(Abs()), img)
    {
      i := ProcAlloc();
      procs[i] := procs[i].(regImg := img);
      procs[i] := procs[i].(tick := MAX_TICK);
    }

    method FillChild(i: nat, img: Regs)
      requires Valid() && i < procs.Length
      modifies procs
      ensures procs[..] ==
              old(procs[..])[i := old(procs[i]).(regImg := img, parent := curr, status := Ready, tick := MAX_TICK)]
    {
      procs[i] := procs[i].(regImg := img);
      procs[i] := procs[i].(parent := curr);
      procs[i] := procs[i].(status := Ready);
      procs[i] := procs[i].(tick := MAX_TICK);
    }

    method DoFork() returns (pid: int)
      requires Valid() && curr != NULL
      modifies this`currPid, procs
      ensures Valid() && Abs() == Fork(old(Abs())) && pid == ForkResult(old(Abs()))
    {
      var i := ProcAlloc();
      if i == NULL {
        return -1;
      }
      FillChild(i, ChildImage(procs[curr].regImg, procs[i].pid));
      return procs[i].pid;
    }

    /** The result goes to *tid, whose old value stays when the table is full. */
    method DoThreadCreate(tid: int, func: nat) returns (newTid: int, result: int)
      requires Valid() && curr != NULL
      modifies this`currPid, procs
      ensures Valid() && Abs() == ThreadCreate(old(Abs()), func)
      ensures if FirstNew(old(procs[..]), 0) == NULL then (newTid, result) == (tid, -1)
              else (newTid, result) == (old(currPid) + 1, 0)
    {
      var i := ProcAlloc();
      if i == NULL {
        return tid, -1;
      }
      FillChild(i, ThreadImage(procs[curr].regImg, procs[i].pid, func));
      return procs[i].pid, 0;
    }

    method DoWakeup(pid: nat)
      requires Valid()
      modifies this`curr, this`cpu, procs
      ensures Valid() && Abs() == Wakeup(old(Abs()), pid)
      ensures if SomeWaiting(old(Abs()), pid) then Loaded() else cpu == old(cpu)
    {
      var low := pid % 256;
      var i := 0;
      while i < procs.Length
        invariant 0 <= i <= procs.Length
        invariant Valid() && Abs() == old(Abs())
        invariant FindWaiting(procs[..], low, i) == FindWaiting(procs[..], low, 0)
      {
        if procs[i].pid == low && procs[i].status == Waiting {
          procs[i] := procs[i].(status := Ready);
          ScheduleProc();
          return;
        }
        i := i + 1;
      }
    }

    /** do_wait and do_thread_join. */
    method DoWait()
      requires Valid() && curr != NULL
      modifies this`curr, this`cpu, procs
      ensures Valid() && Abs() == Wait(old(Abs()))
      ensures if SomeRunnable(SetStatus(old(Abs()), old(curr), Waiting)) then Loaded() else cpu == old(cpu)
    {
      procs[curr] := procs[curr].(status := Waiting);
      ScheduleProc();
    }

    method DoExit()
      requires Valid() && curr != NULL
      requires procs[curr].parent == NULL || 0 <= procs[curr].parent < procs.Length
      modifies this`curr, this`cpu, procs
      ensures Valid() && Abs() == Exit(old(Abs()))
      ensures if ExitWakes(old(Abs())) then Loaded() else cpu == old(cpu)
    {
      var parent := procs[curr].parent;
      procs[curr] := procs[curr].(status := Terminated);
      if parent != NULL {
        assert procs[parent].pid == old(procs[parent].pid);
        DoWakeup(procs[parent].pid);
      }
    }

    method KillPid(pid: nat) returns (result: int)
      modifies procs
      ensures Abs() == Kill(old(Abs()), pid)
      ensures result == if FindPid(old(procs[..]), pid % 256, 0) == NULL then -1 else 0
    {
      var low := pid % 256;
      var i := 0;
      while i < procs.Length
        invariant 0 <= i <= procs.Length
        invariant procs[..] == old(procs[..])
        invariant FindPid(procs[..], low, i) == FindPid(procs[..], low, 0)
      {
        if procs[i].pid == low {
          procs[i] := procs[i].(status := Terminated);
          return 0;
        }
        i := i + 1;
      }
      return -1;
    }

    method DoSemP(s: nat)
      requires Valid() && curr != NULL && s < sems.Length
      modifies this`curr, this`cpu, procs, sems
      ensures Valid() && Abs() == SemP(old(Abs()), s)
      ensures if old(sems[s].val) <= 0 && SomeRunnable(SetStatus(old(Abs()), old(curr), Waiting)) then Loaded()
              else cpu == old(cpu)
    {
      hide Wait, SomeRunnable, SomeWaiting;
      sems[s] := sems[s].(val := sems[s].val - 1);
      if sems[s].val < 0 {
        procs[curr] := procs[curr].(next := sems[s].head);
        sems[s] := sems[s].(head := curr);
        assert Abs() == Enqueue(SetVal(old(Abs()), s, old(sems[s].val) - 1), s);
        SameChoice(SetStatus(old(Abs()), curr, Waiting), SetStatus(Abs(), curr, Waiting), 0);
        DoWait();
      }
    }

    /** As written: the caller's own `next` becomes the head. */
    method DoSemV(s: nat)
      requires Valid() && curr != NULL && HeadThere(Abs(), s)
      modifies this`curr, this`cpu, procs, sems
      ensures Valid() && Abs() == SemV(old(Abs()), s)
      ensures if old(sems[s].val) < 0 && SomeWaiting(old(Abs()), old(procs[sems[s].head].pid)) then Loaded()
              else cpu == old(cpu)
    {
      hide Wakeup, SomeRunnable, SomeWaiting;
      sems[s] := sems[s].(val := sems[s].val + 1);
      if sems[s].val <= 0 {
        var pid := procs[sems[s].head].pid;
        sems[s] := sems[s].(head := procs[curr].next);
        assert Abs() == SetHead(SetVal(old(Abs()), s, old(sems[s].val) + 1), s, old(procs[curr].next));
        SameChoice(old(Abs()), Abs(), pid);
        DoWakeup(pid);
      }
    }

    method DoGetSem(v: int) returns (r: int)
      modifies sems
      ensures r == FirstUnused(old(sems[..]), 0) && Abs() == GetSem(old(Abs()), v)
    {
      r := 0;
      while r < sems.Length
        invariant 0 <= r <= sems.Length
        invariant sems[..] == old(sems[..])
        invariant FirstUnused(sems[..], r) == FirstUnused(sems[..], 0)
      {
        if !sems[r].used {
          sems[r] := sems[r].(val := v);
          sems[r] := sems[r].(used := true);
          return;
        }
        r := r + 1;
      }
      r := NULL;
    }

    method DoFreeSem(s: nat)
      requires s < sems.Length
      modifies sems
      ensures Abs() == FreeSem(old(Abs()), s)
    {
      sems[s] := sems[s].(used := false);
      sems[s] := sems[s].(head := NULL);
    }
  }
}
