/** How long a descriptor can be used again, and when Create is refused. */
module KernelRetirement {
  import opened Arithmetic
  import opened Lists
  import opened KernelModel
  import opened KernelInvariant
  import opened KernelSteps
  import opened KernelDestroy
  import opened KernelRuns
  import opened KernelTheorems
  import opened KernelLineage
  import opened KernelTransitions

  /** There is no next tid for the descriptor. */
  predicate LastTid(k: Kernel, i: nat)
    requires i < |k.tasks|
  {
    k.tasks[i].tid >= LONG_MAX - |k.tasks|
  }

  /** Only descriptors whose tids are used up are retired, and the greatest word is never a tid. */
  ghost predicate RetiredLast(k: Kernel) {
    && |k.tasks| <= LONG_MAX
    && forall i :: 0 <= i < |k.tasks| ==> k.tasks[i].tid < LONG_MAX && (k.tasks[i].state == Destroyed ==> LastTid(k, i))
  }

  lemma StepRetires(k: Kernel, call: Call)
    requires Running(k) && Enabled(k, call) && RetiredLast(k)
    ensures CanCreate(k) && RetiredLast(Step(k, call))
  {
    hide Partition, Tids, Forest, Mail, Ledger, NullTask, CanCreate, Ranked, Within, Slot, Step, Enabled, Kills,
      Releases, MailAfter, Told;
    if call.Store? {
      StepKeeps(k, call);
      StoreExact(k, call);
    } else {
      StepTabled(k, call);
      if Creates(k, call) { NextFits(k); }
    }
  }

  lemma NextFits(k: Kernel)
    requires Shape(k) && k.lists[FREE_LIST] != []
    ensures var i := k.lists[FREE_LIST][0]; i < |k.tasks| && k.tasks[i].tid + |k.tasks| < LONG_MAX
  {
    hide Slot, Ranked, Within;
    FirstIn(k.lists[FREE_LIST]);
    HomeOf(k, k.lists[FREE_LIST][0], FREE_LIST);
  }

  lemma {:induction false} RunRetires(k: Kernel, calls: seq<Call>)
    requires Running(k) && Legal(k, calls) && RetiredLast(k)
    ensures RetiredLast(Run(k, calls))
    decreases |calls|
  {
    hide Partition, Tids, Forest, Mail, Ledger, NullTask, Enabled, CanCreate, Step, Ranked, Within, RetiredLast;
    if calls != [] {
      StepKeeps(k, calls[0]);
      StepRetires(k, calls[0]);
      RunRetires(Step(k, calls[0]), calls[1..]);
    }
  }

  /** Whether a descriptor without a task can be used again. */
  lemma FreeOrRetired(k: Kernel, i: nat)
    requires WF(k) && Partition(k) && Tids(k) && RetiredLast(k) && i < |k.tasks| && !Listed(k.tasks[i])
    ensures i in k.lists[FREE_LIST] <==> !LastTid(k, i)
    ensures k.tasks[i].state == (if LastTid(k, i) then Destroyed else Free)
  {
    hide Slot, Ranked, Within;
    assert i in k.lists[FREE_LIST] <==> Home(k, i) == FREE_LIST;
  }

  /** A task with the last tid of its descriptor has been destroyed. */
  ghost predicate UsedUp(k: Kernel) {
    exists t :: Reaped(t) in k.log && t >= LONG_MAX - |k.tasks|
  }

  /** A descriptor is retired exactly when its last task was destroyed. */
  lemma RetiredByHistory(k: Kernel)
    requires Core(k) && Lineage(k) && RetiredLast(k)
    ensures UsedUp(k) <==> exists i :: 0 <= i < |k.tasks| && k.tasks[i].state == Destroyed
  {
    hide Partition, Forest, Mail, Phases, Fifo, Lives, Ranked, Within, Slot;
    if UsedUp(k) {
      var t :| Reaped(t) in k.log && t >= LONG_MAX - |k.tasks|;
      var i := Slot(|k.tasks|, t);
      assert Issued(k, Reaped(t).tid);
      LastOfSlot(k, t);
      assert OfLine(k, i);
    }
    if i :| 0 <= i < |k.tasks| && k.tasks[i].state == Destroyed {
      assert OfLine(k, i);
      assert LastTid(k, i);
      assert Reaped(k.tasks[i].tid) in k.log;
    }
  }

  /** A tid that has no successor is its descriptor's last. */
  lemma LastOfSlot(k: Kernel, t: int)
    requires WF(k) && Tids(k) && RetiredLast(k) && Issued(k, t) && t >= LONG_MAX - |k.tasks|
    ensures k.tasks[Slot(|k.tasks|, t)].tid == t
  {
    var i := Slot(|k.tasks|, t);
    OwnSlot(k, i);
    SameSlotNear(|k.tasks|, t, k.tasks[i].tid);
  }

  lemma SameSlotNear(n: nat, t: int, u: int)
    requires n > 0 && Slot(n, t) == Slot(n, u) && t <= u < t + n
    ensures t == u
  {
    var r := t % n + (u - t);
    if r < n {
      DivModUnique(u, n, t / n, r);
    } else {
      assert n * (t / n + 1) == n * (t / n) + n;
      DivModUnique(u, n, t / n + 1, r - n);
    }
  }

  // ------------------------------------------------------------------ over runs from boot

  lemma BootRetires(n: nat)
    requires 2 <= n <= LONG_MAX
    ensures RetiredLast(Boot(n))
  {
    hide Partition, Tids, Forest, Mail, Ledger, NullTask, ActiveIsCurrent, Ranked, Within, Boot;
    BootIsNew(n);
    BootLineage(n);
    assert OfLine(Boot(n), 0) && OfLine(Boot(n), 1);
  }

  /** In every state of every run from boot: a descriptor without a task is available exactly if there is a next
      tid for it, and some descriptor is retired exactly if a task with the last tid of its descriptor
      was destroyed. */
  lemma DescriptorsLast(n: nat, calls: seq<Call>)
    requires 2 <= n <= LONG_MAX
    requires Running(Boot(n)) && Legal(Boot(n), calls)
    ensures var k := Run(Boot(n), calls);
            && |k.tasks| == n
            && (forall i :: 0 <= i < n && !Listed(k.tasks[i]) ==>
                  (i in k.lists[FREE_LIST] <==> k.tasks[i].tid < LONG_MAX - n))
            && ((exists i :: 0 <= i < n && k.tasks[i].state == Destroyed) <==>
                exists t :: Reaped(t) in k.log && t >= LONG_MAX - n)
  {
    hide Partition, Tids, Forest, Mail, Ledger, NullTask, ActiveIsCurrent, Ranked, Within, Boot, Run, Legal, Lineage;
    BootSize(n);
    RunSize(Boot(n), calls);
    BootRetires(n);
    RunRetires(Boot(n), calls);
    BootLineage(n);
    RunKeepsLineage(Boot(n), calls);
    var k := Run(Boot(n), calls);
    RetiredByHistory(k);
    forall i | 0 <= i < n && !Listed(k.tasks[i])
      ensures i in k.lists[FREE_LIST] <==> k.tasks[i].tid < LONG_MAX - n
    {
      FreeOrRetired(k, i);
    }
  }

  /** Create with a proper priority is refused exactly when every descriptor has a task or no next tid; while no
      last tid was used up, exactly when every descriptor has a task. Otherwise a descriptor without a
      task gets one, with its next tid, which is the answer. */
  ghost predicate HandsOut(k: Kernel, priority: int, k': Kernel) {
    && |k'.tasks| == |k.tasks| && 0 <= k.current < |k.tasks|
    && var ret := k'.tasks[k.current].ret;
       && (ret == ERR_UNAVAILABLE_DESCRIPTOR <==>
           forall i :: 0 <= i < |k.tasks| ==> Listed(k.tasks[i]) || k.tasks[i].tid >= LONG_MAX - |k.tasks|)
       && ((forall t :: Reaped(t) in k.log ==> t < LONG_MAX - |k.tasks|) ==>
             (ret == ERR_UNAVAILABLE_DESCRIPTOR <==> forall i :: 0 <= i < |k.tasks| ==> Listed(k.tasks[i])))
       && (ret != ERR_UNAVAILABLE_DESCRIPTOR ==>
             exists i :: 0 <= i < |k.tasks| && !Listed(k.tasks[i]) && ret == k.tasks[i].tid + |k.tasks| &&
                         k'.tasks[i].tid == ret && Listed(k'.tasks[i]) && k'.tasks[i].priority == priority)
  }

  lemma CreateAnswers(k: Kernel, priority: int)
    requires Running(k) && Lineage(k) && RetiredLast(k) && k.current != 0 && 0 <= priority <= 3
    ensures Enabled(k, CreateCall(priority)) && CanCreate(k)
    ensures HandsOut(k, priority, Step(k, CreateCall(priority)))
  {
    hide Partition, Tids, Forest, Mail, Ledger, NullTask, CanCreate, Ranked, Within, Slot, Step, MailAfter, Lineage,
      RetiredLast, ActiveIsCurrent, Kills;
    var call := CreateCall(priority);
    StepTabled(k, call);
    StepKeeps(k, call);
    NoneKilled(k, call);
    RetiredByHistory(k);
    AvailableFirst(k);
    forall i | 0 <= i < |k.tasks| && !Listed(k.tasks[i])
      ensures i in k.lists[FREE_LIST] <==> !LastTid(k, i)
      ensures k.tasks[i].state == (if LastTid(k, i) then Destroyed else Free)
    {
      FreeOrRetired(k, i);
    }
  }

  lemma AvailableFirst(k: Kernel)
    requires Shape(k)
    ensures k.lists[FREE_LIST] != [] ==>
              var i := k.lists[FREE_LIST][0];
              i in k.lists[FREE_LIST] && i < |k.tasks| && k.tasks[i].state == Free && k.tasks[i].tid >= -|k.tasks|
    ensures forall i :: 0 <= i < |k.tasks| && i in k.lists[FREE_LIST] ==> k.lists[FREE_LIST] != []
  {
    hide Slot, Ranked, Within;
    FirstIn(k.lists[FREE_LIST]);
    if k.lists[FREE_LIST] != [] { HomeOf(k, k.lists[FREE_LIST][0], FREE_LIST); }
  }

  /** In every state of every run from boot, what the running task's Create does. */
  lemma CreateInRuns(n: nat, calls: seq<Call>, priority: int)
    requires 2 <= n <= LONG_MAX && 0 <= priority <= 3
    requires Running(Boot(n)) && Legal(Boot(n), calls) && Run(Boot(n), calls).current != 0
    ensures var k := Run(Boot(n), calls); CanCreate(k) && HandsOut(k, priority, Step(k, CreateCall(priority)))
  {
    hide Partition, Tids, Forest, Mail, Ledger, NullTask, Ranked, Within, Boot, Run, Lineage, RetiredLast, HandsOut,
      Step, CanCreate;
    BootRetires(n);
    RunRetires(Boot(n), calls);
    BootLineage(n);
    RunKeepsLineage(Boot(n), calls);
    CreateAnswers(Run(Boot(n), calls), priority);
  }
}
