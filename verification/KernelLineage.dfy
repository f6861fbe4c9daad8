/** Who has a parent, whose tid is used up, and so which calls of Destroy leave the tables. */
module KernelLineage {
  import opened Lists
  import opened KernelModel
  import opened KernelInvariant
  import opened KernelSteps
  import opened KernelDestroy
  import opened KernelRuns
  import opened KernelTheorems
  import opened KernelCounting
  import opened KernelRecords
  import opened KernelScenarios

  // ------------------------------------------------------------------ what may happen to a descriptor

  ghost predicate Stays(k: Kernel, k': Kernel, i: nat)
    requires i < |k.tasks| == |k'.tasks|
  {
    var t, t' := k.tasks[i], k'.tasks[i];
    && t'.tid == t.tid && t'.parentTid == t.parentTid && Listed(t') == Listed(t)
    && (Reaped(t.tid) in k'.log <==> Reaped(t.tid) in k.log)
  }

  ghost predicate Begins(k: Kernel, k': Kernel, i: nat)
    requires i < |k.tasks| == |k'.tasks|
  {
    var t, t' := k.tasks[i], k'.tasks[i];
    && !Listed(t) && Listed(t') && t'.tid == t.tid + |k.tasks| >= 0 && t'.parentTid >= 0
    && Created(t'.tid) in k'.log && Reaped(t'.tid) !in k'.log
  }

  ghost predicate Ends(k: Kernel, k': Kernel, i: nat)
    requires i < |k.tasks| == |k'.tasks|
  {
    var t, t' := k.tasks[i], k'.tasks[i];
    && Listed(t) && !Listed(t') && t'.tid == t.tid && t'.parentTid == t.parentTid != -1
    && Reaped(t.tid) in k'.log
  }

  /** Every descriptor keeps its task, gets one with a parent, or loses one that has a parent. */
  ghost predicate Succeeds(k: Kernel, k': Kernel) {
    && |k'.tasks| == |k.tasks| && (forall e :: e in k.log ==> e in k'.log)
    && forall i :: 0 <= i < |k.tasks| ==> Stays(k, k', i) || Begins(k, k', i) || Ends(k, k', i)
  }

  /** Nobody is born, and nobody dies. */
  ghost predicate SameLives(k: Kernel, k': Kernel) {
    && |k'.tasks| == |k.tasks|
    && (forall e :: e in k.log ==> e in k'.log) && (forall t :: Reaped(t) in k'.log ==> Reaped(t) in k.log)
    && forall i :: 0 <= i < |k.tasks| ==>
         && k'.tasks[i].tid == k.tasks[i].tid && k'.tasks[i].parentTid == k.tasks[i].parentTid
         && Listed(k'.tasks[i]) == Listed(k.tasks[i])
  }

  lemma NobodyNew(k: Kernel, k': Kernel)
    requires SameLives(k, k')
    ensures Succeeds(k, k')
  {
    assert forall i :: 0 <= i < |k.tasks| ==> Stays(k, k', i);
  }

  lemma ThenSame(k: Kernel, k1: Kernel, k': Kernel)
    requires Succeeds(k, k1) && SameLives(k1, k')
    ensures Succeeds(k, k')
  {
    forall i | 0 <= i < |k.tasks| ensures Stays(k, k', i) || Begins(k, k', i) || Ends(k, k', i) {
      assert Stays(k, k1, i) || Begins(k, k1, i) || Ends(k, k1, i);
    }
  }

  // ------------------------------------------------------------------ handlers

  /** While the history only speaks of messages the same tasks exist. */
  lemma UncountedLives(k: Kernel, k': Kernel)
    requires Core(k) && Core(k') && Uncounted(k, k')
    ensures SameLives(k, k')
  {
    hide Partition, Forest, Mail, Phases, Fifo, Known, Ranked, Within;
    forall i | 0 <= i < |k.tasks| ensures Listed(k.tasks[i]) == Listed(k'.tasks[i]) {
      LivingByHistory(k, i);
      LivingByHistory(k', i);
      SameLife(k.log, k'.log, k.tasks[i].tid);
    }
    assert forall e :: e in k'.log && !Talk(e) ==> e in k.log;
  }

  lemma MessageCallLives(k: Kernel, call: Call)
    requires Core(k) && CanCreate(k) && k.current != NONE && k.tasks[k.current].state == Active
    requires call.SendCall? || call.ReceiveCall? || call.ReplyCall?
    ensures SameLives(k, Handle(k, call))
  {
    hide Partition, Tids, Forest, Mail, Ledger, CanCreate, Create, Destroy, Send, Receive, Reply, Uncounted, Slot,
      Ranked, Within;
    match call {
      case SendCall(tid, msg, msgLen, reply, replyLen, junk) =>
        SendKeeps(k, tid, msg, msgLen, reply, replyLen, junk);
        SendUncounted(k, tid, msg, msgLen, reply, replyLen, junk);
        UncountedLives(k, Send(k, tid, msg, msgLen, reply, replyLen, junk).0);
      case ReceiveCall(put, buf, len, junk, oldest) =>
        ReceiveIsCore(k, put, buf, len, junk, oldest);
        ReceiveUncounted(k, put, buf, len, junk, oldest);
        UncountedLives(k, Receive(k, put, buf, len, junk, oldest).0);
      case ReplyCall(tid, buf, len) =>
        ReplyKeeps(k, tid, buf, len);
        ReplyUncounted(k, tid, buf, len);
        UncountedLives(k, Reply(k, tid, buf, len).0);
    }
  }

  /** Calls that only touch the running task's own fields. */
  lemma OwnCallLives(k: Kernel, call: Call)
    requires Core(k) && CanCreate(k) && k.current != NONE && k.tasks[k.current].state == Active
    requires call.PassCall? || call.ParentCall? || call.PriorityCall? || call.AwaitCall? || call.ExitCall?
    ensures SameLives(k, Handle(k, call))
  {
    hide Partition, Tids, Forest, Mail, Ledger, CanCreate, Create, Destroy, Slot, Ranked, Within;
  }

  lemma CreateLives(k: Kernel, priority: nat)
    requires Core(k) && CanCreate(k) && k.current != NONE && k.tasks[k.current].state == Active
    requires priority < NUM_PRIORITIES
    ensures Succeeds(k, Create(k, priority).0)
  {
    hide Partition, Forest, Mail, Phases, Fifo, Lives, Ranked, Within, CanCreate, Known, Create;
    if k.lists[FREE_LIST] == [] {
      NothingCreated(k, priority);
      NobodyNew(k, k);
    } else {
      var i, k' := k.lists[FREE_LIST][0], Create(k, priority).0;
      CreateEffect(k, priority);
      BornFresh(k, i, priority, k');
      assert Begins(k, k', i);
      assert forall j :: 0 <= j < |k.tasks| && j != i ==> Stays(k, k', j);
    }
  }

  lemma Mourned(tasks: seq<Task>, order: seq<nat>)
    requires forall x :: x in order ==> x < |tasks|
    ensures forall x :: x in order ==> Reaped(tasks[x].tid) in Obituary(tasks, order)
    ensures forall e :: e in Obituary(tasks, order) ==> exists x :: x in order && e == Reaped(tasks[x].tid)
  {
    forall x | x in order ensures Reaped(tasks[x].tid) in Obituary(tasks, order) {
      var j :| 0 <= j < |order| && order[j] == x;
      assert Obituary(tasks, order)[j] == Reaped(tasks[x].tid);
    }
    forall e | e in Obituary(tasks, order) ensures exists x :: x in order && e == Reaped(tasks[x].tid) {
      var j :| 0 <= j < |order| && Obituary(tasks, order)[j] == e;
      assert order[j] in order;
    }
  }

  /** The target, within bounds, has a parent, and so has everything below it. */
  lemma HasParent(k: Kernel, a: nat, d: nat)
    requires WF(k) && Forest(k) && a < |k.tasks| && d < |k.tasks| && Descends(k, a, d) && k.tasks[a].parentTid != -1
    ensures k.tasks[d].parentTid != -1
  {
  }

  lemma DestroyLives(k: Kernel, tid: int)
    requires Core(k) && Accepted(k, tid) && DestroyInBounds(k, tid)
    ensures Succeeds(k, Destroy(k, tid).0)
  {
    hide Partition, Tids, Forest, Mail, Ledger, ActiveIsCurrent, Ranked, Within, Slot, Destroy, Descends, DeathRow,
      Severed, Obituary;
    var i, order, k' := Slot(|k.tasks|, tid), DeathRow(k, tid), Destroy(k, tid).0;
    DestroyEffect(k, tid);
    Mourned(k.tasks, order);
    forall x | 0 <= x < |k.tasks| ensures Stays(k, k', x) || Ends(k, k', x) {
      if x in order {
        DescendantsAreListed(k, i, x);
        HasParent(k, i, x);
        assert Ends(k, k', x);
      } else {
        if Reaped(k.tasks[x].tid) in Obituary(k.tasks, order) {
          var y :| y in order && Reaped(k.tasks[x].tid) == Reaped(k.tasks[y].tid);
          DistinctTids(k, x, y);
        }
        assert Stays(k, k', x);
      }
    }
  }

  lemma AnswerLives(a: (Kernel, int))
    requires WF(a.0)
    ensures SameLives(a.0, Answer(a))
  {
    hide Ranked, Within;
  }

  lemma HandleLives(k: Kernel, call: Call)
    requires Core(k) && CanCreate(k) && k.current != NONE && k.tasks[k.current].state == Active
    requires !call.Store? && Enabled(k, call)
    ensures Succeeds(k, Handle(k, call))
  {
    hide Partition, Tids, Forest, Mail, Ledger, CanCreate, Create, Exit, Destroy, Answer, UnblockFrom, Slot, Ranked,
      Within, SubtreeQuiet, Succeeds, SameLives, Send, Receive, Reply, EventId;
    if call.CreateCall? {
      var r := CreateSafe(k, call.priority);
      if HIGHEST_PRIORITY <= call.priority <= LOW_PRIORITY { CreateLives(k, call.priority); } else { Nothing(k); }
      AnswerLives(r);
      ThenSame(k, r.0, Handle(k, call));
    } else if call.DestroyCall? {
      var r := Destroy(k, call.tid);
      if Accepted(k, call.tid) { DestroyLives(k, call.tid); } else { RejectedDestroy(k, call.tid); Nothing(k); }
      AnswerLives(r);
      ThenSame(k, r.0, Handle(k, call));
    } else {
      if call.SendCall? || call.ReceiveCall? || call.ReplyCall? {
        MessageCallLives(k, call);
      } else if call.Interrupt? {
        IrqLives(k, call.code);
      } else {
        OwnCallLives(k, call);
      }
      NobodyNew(k, Handle(k, call));
    }
  }

  lemma Nothing(k: Kernel)
    ensures Succeeds(k, k) && SameLives(k, k)
  {
    NobodyNew(k, k);
  }

  lemma IrqLives(k: Kernel, code: int)
    requires Core(k)
    ensures SameLives(k, Irq(k, code))
  {
    hide Partition, Tids, Forest, Mail, Ledger, UnblockFrom, Ranked, Within, EventId, Uncounted, SameLives;
    if code < 0 {
      UnblockKeeps(k, EventId(code), HIGHEST_PRIORITY);
      UnblockUncounted(k, EventId(code), HIGHEST_PRIORITY);
      UncountedLives(k, UnblockFrom(k, EventId(code), HIGHEST_PRIORITY));
    } else {
      Nothing(k);
    }
  }

  lemma StepLives(k: Kernel, call: Call)
    requires Running(k) && Enabled(k, call) && CanCreate(k)
    ensures Succeeds(k, Step(k, call))
  {
    hide Partition, Tids, Forest, Mail, Ledger, NullTask, CanCreate, Handle, Schedule, Slot, Ranked, Within,
      SubtreeQuiet, Uncounted, Succeeds;
    if call.Store? {
      NobodyNew(k, Step(k, call));
    } else {
      var k1 := Handle(k, call);
      HandleKeeps(k, call);
      HandleLives(k, call);
      ScheduleKeeps(k1);
      ScheduleUncounted(k1);
      UncountedLives(k1, Schedule(k1));
      ThenSame(k, k1, Schedule(k1));
    }
  }

  // ------------------------------------------------------------------ runs

  /** The task in slot i has no parent. */
  predicate Orphan(k: Kernel, i: nat)
    requires i < |k.tasks|
  {
    Listed(k.tasks[i]) && k.tasks[i].parentTid == -1
  }

  /** No run ever makes a task without a parent: whoever has none was there when it began. */
  lemma {:induction false} OrphansAreOld(k: Kernel, calls: seq<Call>, i: nat)
    requires Running(k) && Legal(k, calls) && i < |k.tasks|
    ensures |Run(k, calls).tasks| == |k.tasks|
    ensures Orphan(Run(k, calls), i) <==> Orphan(k, i)
    ensures Orphan(k, i) ==> Run(k, calls).tasks[i].tid == k.tasks[i].tid
    decreases |calls|
  {
    hide Partition, Tids, Forest, Mail, Ledger, NullTask, Enabled, CanCreate, Step, Ranked, Within;
    if calls != [] {
      StepKeeps(k, calls[0]);
      StepLives(k, calls[0]);
      var k1 := Step(k, calls[0]);
      assert Stays(k, k1, i) || Begins(k, k1, i) || Ends(k, k1, i);
      OrphansAreOld(Step(k, calls[0]), calls[1..], i);
    }
  }

  /** What a run from boot keeps: the two tasks made at boot are the only ones without a parent and stay
      where they are, and a descriptor's last tid was handed out and is reaped exactly when nobody has it. */
  ghost predicate Lineage(k: Kernel) {
    && 2 <= |k.tasks|
    && forall i :: 0 <= i < |k.tasks| ==> OfLine(k, i)
  }

  ghost predicate OfLine(k: Kernel, i: nat)
    requires i < |k.tasks|
  {
    && (Orphan(k, i) <==> i < 2)
    && (i < 2 ==> k.tasks[i].tid == i)
    && (k.tasks[i].tid >= 0 ==>
          Created(k.tasks[i].tid) in k.log && (Reaped(k.tasks[i].tid) in k.log <==> !Listed(k.tasks[i])))
  }

  lemma StepKeepsLineage(k: Kernel, k': Kernel)
    requires Lineage(k) && Succeeds(k, k')
    ensures Lineage(k')
  {
    forall i | 0 <= i < |k.tasks| ensures OfLine(k', i) {
      assert OfLine(k, i);
      assert Stays(k, k', i) || Begins(k, k', i) || Ends(k, k', i);
    }
  }

  lemma {:induction false} RunKeepsLineage(k: Kernel, calls: seq<Call>)
    requires Running(k) && Legal(k, calls) && Lineage(k)
    ensures Lineage(Run(k, calls))
    decreases |calls|
  {
    hide Partition, Tids, Forest, Mail, Ledger, NullTask, Enabled, CanCreate, Step, Ranked, Within, Lineage, Succeeds;
    if calls != [] {
      StepKeeps(k, calls[0]);
      StepLives(k, calls[0]);
      StepKeepsLineage(k, Step(k, calls[0]));
      RunKeepsLineage(Step(k, calls[0]), calls[1..]);
    }
  }

  /** The first m descriptors hold tasks without a parent, and nobody has died. */
  ghost predicate FirstBorn(k: Kernel, m: nat) {
    && (forall i :: 0 <= i < |k.tasks| ==> (Listed(k.tasks[i]) <==> i < m))
    && (forall i :: 0 <= i < |k.tasks| && i < m ==>
          k.tasks[i].tid == i && k.tasks[i].parentTid == -1 && Created(i) in k.log)
    && (forall i :: m <= i < |k.tasks| ==> k.tasks[i].tid < 0)
    && (forall t :: Reaped(t) !in k.log)
  }

  lemma NextFirstBorn(k: Kernel, m: nat, priority: nat)
    requires Core(k) && k.current == NONE && Unused(k, m) && FirstBorn(k, m) && m < |k.tasks|
    requires priority < NUM_PRIORITIES
    ensures CanCreate(k) && FirstBorn(Create(k, priority).0, m + 1)
  {
    hide Partition, Tids, Forest, Mail, Ledger, ActiveIsCurrent, Ranked, Within, CanCreate, Create;
    CreateEffect(k, priority);
    assert k.lists[FREE_LIST][0] == m;
  }

  lemma BootLineage(n: nat)
    requires 2 <= n <= LONG_MAX
    ensures Lineage(Boot(n))
    ensures |Boot(n).tasks| == n && forall i :: 2 <= i < n ==> Boot(n).tasks[i].tid < 0
  {
    hide Partition, Tids, Forest, Mail, Ledger, ActiveIsCurrent, Ranked, Within, CanCreate, Create, Schedule, Unused,
      Uncounted;
    var k0 := InitState(n);
    InitHolds(n);
    InitUnused(n);
    NextFirstBorn(k0, 0, NULL_PRIORITY);
    NextUnused(k0, 0, NULL_PRIORITY);
    CreateKeeps(k0, NULL_PRIORITY);
    var k1 := Create(k0, NULL_PRIORITY).0;
    StillNobody(k1, 1);
    NextFirstBorn(k1, 1, LOW_PRIORITY);
    CreateKeeps(k1, LOW_PRIORITY);
    var k2 := Create(k1, LOW_PRIORITY).0;
    ScheduleKeeps(k2);
    ScheduleUncounted(k2);
    UncountedLives(k2, Schedule(k2));
    BornInLine(k2, Schedule(k2));
  }

  lemma StillNobody(k: Kernel, m: nat)
    requires WF(k) && Unused(k, m)
    ensures k.current == NONE
  {
    hide Ranked, Within;
  }

  lemma BornInLine(k: Kernel, k': Kernel)
    requires FirstBorn(k, 2) && SameLives(k, k') && 2 <= |k.tasks|
    ensures Lineage(k')
  {
    assert forall i :: 0 <= i < |k.tasks| ==> OfLine(k', i);
  }

  // ------------------------------------------------------------------ which calls of Destroy leave the tables

  /** The descriptor has not been given to another task after this one. */
  ghost predicate NotHandedOutSince(k: Kernel, tid: int)
    requires WF(k)
  {
    forall t :: Created(t) in k.log && Slot(|k.tasks|, t) == Slot(|k.tasks|, tid) ==> t <= tid
  }

  /** A tid is accepted exactly when it was handed out and is the last of its descriptor. */
  lemma AcceptedByHistory(k: Kernel, tid: int)
    requires Core(k) && Lineage(k)
    ensures Accepted(k, tid) <==> Created(tid) in k.log && NotHandedOutSince(k, tid)
    ensures Reaped(tid) in k.log ==> Created(tid) in k.log || !NotHandedOutSince(k, tid)
  {
    hide Partition, Forest, Mail, Phases, Fifo, Lives, Ranked, Within, Slot;
    var i := Slot(|k.tasks|, tid);
    var last := k.tasks[i].tid;
    OwnSlot(k, i);
    assert OfLine(k, i);
    assert Created(tid) in k.log ==> Issued(k, Created(tid).tid);
    assert Reaped(tid) in k.log ==> Issued(k, Reaped(tid).tid);
    forall t | Created(t) in k.log && Slot(|k.tasks|, t) == i ensures t <= last {
      assert Issued(k, Created(t).tid);
    }
  }

  /** In every state of every run from boot the handler indexes outside its tables for exactly the tids of
      the two tasks made at boot, and for the tids of destroyed tasks whose descriptors have not been
      handed out since. */
  lemma DestroyOutOfBounds(n: nat, calls: seq<Call>, tid: int)
    requires 2 <= n <= LONG_MAX
    requires Running(Boot(n)) && Legal(Boot(n), calls)
    ensures var k := Run(Boot(n), calls);
            && (Accepted(k, tid) <==> Created(tid) in k.log && NotHandedOutSince(k, tid))
            && (!DestroyInBounds(k, tid) <==>
                  tid == 0 || tid == 1 || (Reaped(tid) in k.log && NotHandedOutSince(k, tid)))
  {
    hide Partition, Forest, Mail, Ledger, NullTask, Ranked, Within, Boot, Run, Lineage, Slot, NotHandedOutSince, Legal;
    BootLineage(n);
    RunKeepsLineage(Boot(n), calls);
    BoundsByHistory(Run(Boot(n), calls), tid);
  }

  lemma BoundsByHistory(k: Kernel, tid: int)
    requires Core(k) && Lineage(k)
    ensures Accepted(k, tid) <==> Created(tid) in k.log && NotHandedOutSince(k, tid)
    ensures !DestroyInBounds(k, tid) <==>
              tid == 0 || tid == 1 || (Reaped(tid) in k.log && NotHandedOutSince(k, tid))
  {
    hide Partition, Forest, Mail, Ledger, Ranked, Within, Slot, NotHandedOutSince;
    AcceptedByHistory(k, tid);
    var i := Slot(|k.tasks|, tid);
    OwnSlot(k, i);
    OwnSlot(k, 0);
    OwnSlot(k, 1);
    assert OfLine(k, i) && OfLine(k, 0) && OfLine(k, 1);
  }

  // ------------------------------------------------------------------ who one's parent is

  /** In every state of every run from boot only the two tasks made at boot have no parent; anybody else is
      told its creator's tid, or, exactly when the creator has exited, that there is none any more: a
      creator that was destroyed has taken its children along. */
  lemma ParentTold(n: nat, calls: seq<Call>)
    requires 2 <= n <= LONG_MAX
    requires Running(Boot(n)) && Legal(Boot(n), calls)
    ensures var k := Run(Boot(n), calls);
            var parent := k.tasks[k.current].parentTid;
            && (MyParentTid(k) == ERR_NO_PARENT <==> k.current < 2)
            && (k.current >= 2 ==>
                  var p := Slot(|k.tasks|, parent);
                  && k.tasks[p].tid == parent && k.current in k.kids[p]
                  && MyParentTid(k) == if k.tasks[p].state == Zombie then ERR_PARENT_DESTROYED else parent)
  {
    hide Partition, Forest, Mail, Ledger, NullTask, Ranked, Within, Boot, Run, Lineage, Slot, Legal;
    BootLineage(n);
    RunKeepsLineage(Boot(n), calls);
    ParentByState(Run(Boot(n), calls));
  }

  lemma ParentByState(k: Kernel)
    requires Running(k) && Lineage(k)
    ensures var parent := k.tasks[k.current].parentTid;
            && (MyParentTid(k) == ERR_NO_PARENT <==> k.current < 2)
            && (k.current >= 2 ==>
                  var p := Slot(|k.tasks|, parent);
                  && k.tasks[p].tid == parent && k.current in k.kids[p]
                  && MyParentTid(k) == if k.tasks[p].state == Zombie then ERR_PARENT_DESTROYED else parent)
  {
    hide Partition, Forest, Mail, Ledger, Ranked, Within, Slot, NullTask;
    assert OfLine(k, k.current);
    if k.current >= 2 {
      ParentIsElder(k, k.current);
      OwnSlot(k, Slot(|k.tasks|, k.tasks[k.current].parentTid));
    }
  }

  // ------------------------------------------------------------------ what Destroy says and does

  /** Right after boot the running task's own Destroy leaves the tables. */
  lemma BootTaskDestroysItself(n: nat)
    requires 2 <= n <= LONG_MAX
    ensures Running(Boot(n)) && Boot(n).current == 1 && Accepted(Boot(n), 1) && !DestroyInBounds(Boot(n), 1)
  {
    hide Partition, Forest, Mail, Ledger, NullTask, Ranked, Within, Boot, Lineage, NotHandedOutSince, Slot;
    BootSpare(n);
    BootLineage(n);
    BoundsByHistory(Boot(n), 1);
    OwnSlot(Boot(n), 1);
  }

  /** A tid is still accepted once its task is destroyed, and then the handler leaves its tables. */
  lemma SecondDestroy(k: Kernel, tid: int)
    requires Core(k) && Accepted(k, tid) && DestroyInBounds(k, tid)
    ensures Accepted(Destroy(k, tid).0, tid) && !DestroyInBounds(Destroy(k, tid).0, tid)
  {
    hide Partition, Tids, Forest, Mail, Ledger, Ranked, Within, Slot, Destroy, Buried;
    DestroyEffect(k, tid);
  }

  /** Whoever calls, a tid is impossible, or has no task, or is destroyed: that the caller is not the
      parent is never an answer. */
  lemma DestroyResults(k: Kernel, tid: int, caller: int)
    requires WF(k) && NONE <= caller < |k.tasks|
    ensures var ret := Destroy(k.(current := caller), tid).1;
            && (ret == OK <==> Accepted(k, tid))
            && (ret == ERR_IMPOSSIBLE_TID <==> !IsValidTid(tid))
            && (ret == ERR_NONEXISTENT_TASK <==> IsValidTid(tid) && !Accepted(k, tid))
  {
    hide Ranked, Within, Slot;
  }

  // ------------------------------------------------------------------ a task destroys its parent

  /** The running child c has a child of its own, which runs at once. */
  lemma SpawnBelow(k: Kernel, c: nat)
    requires Running(k) && ChildRuns(k, c) && c + 1 < |k.tasks|
    ensures CanCreate(k) && Enabled(k, CreateCall(HIGHEST_PRIORITY))
    ensures var k' := Step(k, CreateCall(HIGHEST_PRIORITY));
            && |k'.tasks| == |k.tasks| && k'.current == c + 1 && k'.tasks[c + 1].tid == c + 1
            && k'.tasks[c + 1].parentTid == c && k'.tasks[c + 1].state == Active
            && k'.tasks[c].tid == c && k'.tasks[c].parentTid == 1 && k'.tasks[c].state == Ready
            && k'.mail == k.mail
            && forall i :: 0 <= i < |k.tasks| && i != c && i != c + 1 ==> k'.tasks[i] == k.tasks[i]
  {
    hide Partition, Tids, Forest, Mail, Ledger, NullTask, Ranked, CanCreate, Create, Schedule;
    StepKeeps(k, CreateCall(HIGHEST_PRIORITY));
    CreateEffect(k, HIGHEST_PRIORITY);
    Picks(Handle(k, CreateCall(HIGHEST_PRIORITY)), HIGHEST_PRIORITY);
  }

  /** A call of Destroy on the caller's parent, which has a parent itself. */
  lemma QuietParent(k: Kernel, c: nat)
    requires Running(k) && AllZombieQuiet(k) && 2 <= c < |k.tasks|
    requires k.current != 0 && k.tasks[c].tid == c && Listed(k.tasks[c]) && k.tasks[c].parentTid != -1
    ensures Accepted(k, c) && Enabled(k, DestroyCall(c)) && Destroy(k, c).1 == OK
  {
    hide Partition, Forest, Mail, Ledger, NullTask, Ranked, Within, Slot, Descends;
    OwnSlot(k, c);
    DestroyResults(k, c, k.current);
    assert k.(current := k.current) == k;
  }

  /** From boot with any four descriptors or more: a task destroys its own parent, of which it is not the
      parent, and is told that all went well. */
  lemma ChildDestroysParent(n: nat)
    requires 4 <= n <= LONG_MAX
    ensures Running(Boot(n)) && Legal(Boot(n), [CreateCall(HIGHEST_PRIORITY), CreateCall(HIGHEST_PRIORITY)])
    ensures var k := Run(Boot(n), [CreateCall(HIGHEST_PRIORITY), CreateCall(HIGHEST_PRIORITY)]);
            && k.current == 3 && |k.tasks| == n && k.tasks[3].tid == 3 && k.tasks[3].parentTid == 2
            && k.tasks[2].tid == 2 && k.tasks[2].parentTid == 1 && k.tasks[2].state == Ready
            && Enabled(k, DestroyCall(2)) && Destroy(k, 2).1 == OK
            && !Listed(Destroy(k, 2).0.tasks[2])
  {
    hide Core, NullTask, Boot, Step, Enabled, Legal, Run, AllZombiesDestroyed, Destroy;
    var create := CreateCall(HIGHEST_PRIORITY);
    BootSpare(n);
    Spawn(Boot(n), 2);
    OneMoreCall(Boot(n), create, [create]);
    var k1 := Step(Boot(n), create);
    SpawnBelow(k1, 2);
    OneMoreCall(k1, create, []);
    var k := Step(k1, create);
    NothingMore(k);
    assert [create] + [] == [create] && [create] + [create] == [create, create];
    QuietParent(k, 2);
    TargetDies(k, 2);
  }

  lemma TargetDies(k: Kernel, c: nat)
    requires Core(k) && c < |k.tasks| && k.tasks[c].tid == c && Accepted(k, c) && Enabled(k, DestroyCall(c))
    ensures !Listed(Destroy(k, c).0.tasks[c])
  {
    hide Partition, Forest, Mail, Ledger, Ranked, Within, Slot, Destroy, Buried, SubtreeQuiet;
    OwnSlot(k, c);
    DestroyEffect(k, c);
    assert Descends(k, c, c);
  }

  /** From boot with any three descriptors or more: a child is created, exits and is destroyed, and destroying
      it once more leaves the tables. */
  lemma DestroyedTwice(n: nat)
    requires 3 <= n <= LONG_MAX
    ensures Running(Boot(n)) && Legal(Boot(n), [CreateCall(HIGHEST_PRIORITY), ExitCall, DestroyCall(2)])
    ensures var k := Run(Boot(n), [CreateCall(HIGHEST_PRIORITY), ExitCall, DestroyCall(2)]);
            k.current != 0 && Accepted(k, 2) && !DestroyInBounds(k, 2)
  {
    hide Core, NullTask, Boot, Step, Enabled, Legal, Run, AllZombiesDestroyed, ZombiesDestroyed;
    BootSpare(n);
    var create, destroy := CreateCall(HIGHEST_PRIORITY), DestroyCall(2);
    Spawn(Boot(n), 2);
    OneMoreCall(Boot(n), create, [ExitCall, destroy]);
    var k1 := Step(Boot(n), create);
    Leave(k1, 2);
    OneMoreCall(k1, ExitCall, [destroy]);
    var k2 := Step(k1, ExitCall);
    BuryZombie(k2, 2);
    OneMoreCall(k2, destroy, []);
    NothingMore(Step(k2, destroy));
    assert [destroy] + [] == [destroy] && [ExitCall] + [destroy] == [ExitCall, destroy];
    assert [create] + [ExitCall, destroy] == [create, ExitCall, destroy];
    NotAgain(k2, 2);
  }

  lemma NotAgain(k: Kernel, c: nat)
    requires Running(k) && ParentRuns(k, c + 1) && 2 <= c && AllZombieQuiet(k) && CanCreate(k)
    requires k.tasks[c].tid == c && k.tasks[c].parentTid == 1 && k.tasks[c].state == Zombie && k.kids[c] == []
    requires Enabled(k, DestroyCall(c))
    ensures var k' := Step(k, DestroyCall(c)); k'.current == 1 && Accepted(k', c) && !DestroyInBounds(k', c)
  {
    hide Partition, Forest, Mail, Ledger, NullTask, Ranked, Within, CanCreate, Destroy, Schedule, SubtreeQuiet, Slot;
    OwnSlot(k, c);
    SecondDestroy(k, c);
    ParentSurvives(k, c);
    Picks(Handle(k, DestroyCall(c)), LOW_PRIORITY);
  }

  /** A parent that destroys a childless child goes on, with nobody else ready. */
  lemma ParentSurvives(k: Kernel, c: nat)
    requires Running(k) && ParentRuns(k, c + 1) && 2 <= c && k.tasks[c].tid == c && k.kids[c] == []
    requires Accepted(k, c) && DestroyInBounds(k, c)
    ensures var k' := Destroy(k, c).0;
            && k'.current == 1 && k'.tasks[1] == k.tasks[1]
            && forall p :: 0 <= p < NULL_PRIORITY ==> k'.lists[ListOf(Ready, p)] == []
  {
    hide Partition, Forest, Mail, Ledger, NullTask, Ranked, Within, Destroy, Slot, DeathRow, Buried;
    OwnSlot(k, c);
    ChildlessDeathRow(k, c);
    DestroyEffect(k, c);
    DestroyLists(k, c);
  }
}
