/** What num_tasks counts: every birth and every death, and the death of a task that had exited twice. */
module KernelCounting {
  import opened Lists
  import opened KernelModel
  import opened KernelInvariant
  import opened KernelSteps
  import opened KernelDestroy
  import opened KernelRuns
  import opened KernelTheorems

  predicate Living(t: Task) {
    Code(t.state) > 0
  }

  /** How many tasks are alive. */
  function Alive(tasks: seq<Task>): nat {
    if tasks == [] then 0 else Alive(tasks[..|tasks| - 1]) + if Living(tasks[|tasks| - 1]) then 1 else 0
  }

  /** How many of the listed descriptors hold zombies. */
  function Zombies(tasks: seq<Task>, order: seq<nat>): nat
    requires forall i :: i in order ==> i < |tasks|
  {
    if order == [] then 0
    else
      var front, last := order[..|order| - 1], order[|order| - 1];
      assert last in order && forall i :: i in front ==> i in order;
      Zombies(tasks, front) + if tasks[last].state == Zombie then 1 else 0
  }

  lemma {:induction false} AliveSame(tasks: seq<Task>, tasks': seq<Task>)
    requires |tasks| == |tasks'| && forall i :: 0 <= i < |tasks| ==> Living(tasks[i]) == Living(tasks'[i])
    ensures Alive(tasks) == Alive(tasks')
  {
    if tasks != [] { AliveSame(tasks[..|tasks| - 1], tasks'[..|tasks| - 1]); }
  }

  lemma {:induction false} AliveOne(tasks: seq<Task>, i: nat, t: Task)
    requires i < |tasks|
    ensures Alive(tasks[i := t]) + (if Living(tasks[i]) then 1 else 0) == Alive(tasks) + if Living(t) then 1 else 0
  {
    var n := |tasks| - 1;
    if i < n {
      AliveOne(tasks[..n], i, t);
      assert tasks[i := t][..n] == tasks[..n][i := t];
    } else {
      assert tasks[i := t][..n] == tasks[..n];
    }
  }

  lemma ZombiesEnd(tasks: seq<Task>, order: seq<nat>)
    requires forall i :: i in order ==> i < |tasks|
    ensures order == [] ==> Zombies(tasks, order) == 0
    ensures order != [] ==>
              var front, last := order[..|order| - 1], order[|order| - 1];
              && last < |tasks| && (forall i :: i in front ==> i < |tasks|)
              && Zombies(tasks, order) == Zombies(tasks, front) + if tasks[last].state == Zombie then 1 else 0
  {
    if order != [] {
      var front := order[..|order| - 1];
      assert order[|order| - 1] in order && forall i :: i in front ==> i in order;
    }
  }

  /** Tasks that were listed die, and nobody else changes sides. */
  lemma {:induction false} AliveAfterDeaths(tasks: seq<Task>, order: seq<nat>, tasks': seq<Task>)
    requires NoDup(order) && |tasks'| == |tasks|
    requires forall i :: i in order ==> i < |tasks| && Listed(tasks[i]) && !Living(tasks'[i])
    requires forall i :: 0 <= i < |tasks| && i !in order ==> Living(tasks'[i]) == Living(tasks[i])
    ensures Alive(tasks') + |order| == Alive(tasks) + Zombies(tasks, order)
    decreases |order|
  {
    hide Alive, Zombies;
    ZombiesEnd(tasks, order);
    if order == [] {
      AliveSame(tasks, tasks');
    } else {
      var front, last := order[..|order| - 1], order[|order| - 1];
      assert order == front + [last];
      assert last in order && forall i :: i in order <==> i in front || i == last;
      var before := tasks'[last := tasks[last]];
      AliveAfterDeaths(tasks, front, before);
      AliveOne(before, last, tasks'[last]);
      assert before[last := tasks'[last]] == tasks';
    }
  }

  // ------------------------------------------------------------------ handlers that are nobody's birth or death

  predicate Talk(e: Event) {
    e.Sent? || e.Received? || e.Replied?
  }

  /** The count, the tids and the parents are the same, nobody dies, and the history goes on with messages
      only. */
  ghost predicate Uncounted(k: Kernel, k': Kernel) {
    && |k'.tasks| == |k.tasks| && k'.numTasks == k.numTasks
    && (forall i :: 0 <= i < |k.tasks| ==>
          && k'.tasks[i].tid == k.tasks[i].tid && k'.tasks[i].parentTid == k.tasks[i].parentTid
          && (k'.tasks[i].state == k.tasks[i].state || Living(k'.tasks[i])))
    && k.log <= k'.log && forall j :: |k.log| <= j < |k'.log| ==> Talk(k'.log[j])
  }

  lemma DeliverUncounted(k: Kernel, tid: int)
    requires WF(k) && k.mail[Slot(|k.tasks|, tid)] != []
    ensures Uncounted(k, Deliver(k, tid).0)
  {
    hide Ranked, Within, Slot, CopyBytes, Exchanged;
    InBox(k, Slot(|k.tasks|, tid));
    FirstIn(k.mail[Slot(|k.tasks|, tid)]);
    var m := k.msgs[k.mail[Slot(|k.tasks|, tid)][0]];
    ExchangedUncounted(Unboxed(k, tid), m);
  }

  lemma ExchangedUncounted(k: Kernel, m: Msg)
    requires WF(k)
    ensures Uncounted(k, Exchanged(k, m))
  {
    hide Ranked, Within, Slot, SetState, SetRet;
    StateUncounted(k, m.fromTid, ReplyBlocked);
    StateUncounted(SetState(k, m.fromTid, ReplyBlocked), m.toTid, Ready);
    RetUncounted(SetState(SetState(k, m.fromTid, ReplyBlocked), m.toTid, Ready), m.toTid, m.msgLen);
  }

  lemma StateUncounted(k: Kernel, tid: int, to: TaskState)
    requires WF(k) && Code(to) > 0
    ensures Uncounted(k, SetState(k, tid, to)) && SetState(k, tid, to).log == k.log
  {
    hide Ranked, Within, Slot, Enlist, Delist, ListOf;
  }

  lemma RetUncounted(k: Kernel, tid: int, v: int)
    requires WF(k)
    ensures Uncounted(k, SetRet(k, tid, v)) && SetRet(k, tid, v).log == k.log
  {
    hide Ranked, Within, Slot;
  }

  lemma SendUncounted(k: Kernel, tid: int, msg: int, msgLen: nat, reply: int, replyLen: nat, junk: Msg)
    requires WF(k) && k.current != NONE
    ensures Uncounted(k, Send(k, tid, msg, msgLen, reply, replyLen, junk).0)
  {
    hide Ranked, Slot, Deliver;
    if IsValidTid(tid) && IsTaskAlive(k, tid) {
      var me := CurrentTid(k);
      var mine, theirs := Slot(|k.tasks|, me), Slot(|k.tasks|, tid);
      var m := Msg(me, tid, junk.putTid, msg, msgLen, reply, replyLen, junk.recv, junk.recvLen);
      var k1 := Note(SetCurrentState(k.(msgs := k.msgs[mine := m], mail := Enlist(k.mail, theirs, mine)),
                                     ReceiveBlocked),
                     Sent(me, tid));
      if GetTaskState(k1, tid) == SendBlocked {
        var w := k1.msgs[theirs];
        DeliverUncounted(k1.(msgs := k1.msgs[mine := m.(putTid := w.putTid, recv := w.recv, recvLen := w.recvLen)]),
                         tid);
      }
    }
  }

  lemma ReceiveUncounted(k: Kernel, put: int, buf: int, len: nat, junk: Msg, oldest: bool)
    requires WF(k) && k.current != NONE
    ensures Uncounted(k, Receive(k, put, buf, len, junk, oldest).0)
  {
    hide Ranked, Slot, Deliver;
    var me := CurrentTid(k);
    var box := k.mail[Slot(|k.tasks|, me)];
    if box != [] {
      var i := box[RecordFor(k, oldest)];
      assert i in box;
      DeliverUncounted(k.(msgs := k.msgs[i := k.msgs[i].(putTid := put, recv := buf, recvLen := len)]), me);
    }
  }

  lemma ReplyUncounted(k: Kernel, tid: int, buf: int, len: nat)
    requires WF(k) && k.current != NONE
    ensures Uncounted(k, Reply(k, tid, buf, len).0)
  {
    hide Ranked, Within, Slot, CopyBytes;
  }

  lemma UnblockUncounted(k: Kernel, intr: int, priority: nat)
    requires WF(k) && priority <= NUM_PRIORITIES
    ensures Uncounted(k, UnblockFrom(k, intr, priority))
    decreases NUM_PRIORITIES - priority
  {
    hide Ranked, Slot;
    if priority < NUM_PRIORITIES && FirstAwaiting(k.tasks, k.lists[ListOf(EventBlocked, priority)], intr) == NONE {
      UnblockUncounted(k, intr, priority + 1);
    }
  }

  lemma RequeueUncounted(k: Kernel)
    requires WF(k)
    ensures Uncounted(k, Requeue(k)) && Requeue(k).current == k.current
  {
    hide Ranked, Within, Enlist, ListOf;
  }

  lemma ScheduleUncounted(k: Kernel)
    requires WF(k)
    ensures Uncounted(k, Schedule(k))
  {
    hide Ranked, Within, Requeue, ReadyPriority, ListOf;
    RequeueUncounted(k);
  }

  /** Whoever is alive by the history stays so while it only speaks of messages. */
  lemma UncountedKeepsAlive(k: Kernel, k': Kernel)
    requires Core(k) && Core(k') && Uncounted(k, k')
    ensures Alive(k'.tasks) == Alive(k.tasks)
  {
    hide Partition, Forest, Mail, Phases, Fifo, Known, Ranked, Within;
    forall i | 0 <= i < |k.tasks| ensures Living(k.tasks[i]) == Living(k'.tasks[i]) {
      LivingByHistory(k, i);
      LivingByHistory(k', i);
      SameLife(k.log, k'.log, k.tasks[i].tid);
    }
    AliveSame(k.tasks, k'.tasks);
  }

  lemma LivingByHistory(k: Kernel, i: nat)
    requires WF(k) && Tids(k) && Lives(k) && i < |k.tasks|
    ensures Living(k.tasks[i]) <==> Life(k.log, k.tasks[i].tid) && k.tasks[i].tid >= 0
  {
    hide Ranked, Within;
  }

  ghost predicate Life(log: seq<Event>, t: int) {
    Created(t) in log && Exited(t) !in log && Reaped(t) !in log
  }

  lemma SameLife(log: seq<Event>, log': seq<Event>, t: int)
    requires log <= log' && forall j :: |log| <= j < |log'| ==> Talk(log'[j])
    ensures Life(log, t) <==> Life(log', t)
  {
    assert forall e :: e in log' && !Talk(e) ==> e in log;
  }

  // ------------------------------------------------------------------ births and deaths

  /** How far the count is behind the tasks alive. */
  function Missing(k: Kernel): int {
    Alive(k.tasks) - k.numTasks
  }

  /** The zombies that a call destroys. */
  ghost function ZombiesDestroyed(k: Kernel, call: Call): nat
    requires WF(k)
  {
    if call.DestroyCall? && Accepted(k, call.tid) then Zombies(k.tasks, DeathRow(k, call.tid)) else 0
  }

  lemma CreateCounts(k: Kernel, priority: nat)
    requires Core(k) && (k.current != NONE ==> Listed(k.tasks[k.current])) && priority < NUM_PRIORITIES && CanCreate(k)
    ensures Missing(Create(k, priority).0) == Missing(k)
  {
    hide Partition, Tids, Forest, Mail, Ledger, Ranked, Within, Slot, Alive, CanCreate;
    if k.lists[FREE_LIST] != [] {
      CreateEffect(k, priority);
      var i := k.lists[FREE_LIST][0];
      AliveOne(k.tasks, i, Create(k, priority).0.tasks[i]);
    }
  }

  lemma ExitCounts(k: Kernel)
    requires WF(k) && k.current != NONE && k.tasks[k.current].state == Active
    ensures Missing(Exit(k)) == Missing(k)
  {
    hide Ranked, Within, Alive;
    AliveOne(k.tasks, k.current, k.tasks[k.current].(state := Zombie));
  }

  lemma DestroyCounts(k: Kernel, tid: int)
    requires Core(k) && Accepted(k, tid) && DestroyInBounds(k, tid)
    ensures Missing(Destroy(k, tid).0) == Missing(k) + Zombies(k.tasks, DeathRow(k, tid))
  {
    hide Partition, Tids, Forest, Mail, Ledger, ActiveIsCurrent, Ranked, Within, Slot, Alive, Zombies, Descends,
      Destroy, ReapAll, DeathRow, Buried;
    var i, order, k' := Slot(|k.tasks|, tid), DeathRow(k, tid), Destroy(k, tid).0;
    DestroyEffect(k, tid);
    DestroyLists(k, tid);
    forall x | x in order ensures Listed(k.tasks[x]) && !Living(k'.tasks[x]) {
      DescendantsAreListed(k, i, x);
      GraveIsDead(k, x);
    }
    AliveAfterDeaths(k.tasks, order, k'.tasks);
  }

  lemma GraveIsDead(k: Kernel, i: nat)
    requires WF(k) && i < |k.tasks|
    ensures Code(Grave(k, i)) < 0
  {
  }

  // ------------------------------------------------------------------ calls and runs

  lemma AnswerCounts(r: (Kernel, int))
    requires WF(r.0)
    ensures Missing(Answer(r)) == Missing(r.0)
  {
    hide Ranked, Within, Alive;
    AliveSame(r.0.tasks, Answer(r).tasks);
  }

  lemma UncountedMissing(k: Kernel, k': Kernel)
    requires Core(k) && Core(k') && Uncounted(k, k')
    ensures Missing(k') == Missing(k)
  {
    hide Core, Alive;
    UncountedKeepsAlive(k, k');
  }

  lemma MessageCallCounts(k: Kernel, call: Call)
    requires Core(k) && CanCreate(k) && k.current != NONE && k.tasks[k.current].state == Active
    requires call.SendCall? || call.ReceiveCall? || call.ReplyCall?
    ensures Missing(Handle(k, call)) == Missing(k)
  {
    hide Partition, Tids, Forest, Mail, Ledger, CanCreate, Create, Destroy, Send, Receive, Reply, Answer, Uncounted,
      Missing, Slot, Ranked, Within;
    match call {
      case SendCall(tid, msg, msgLen, reply, replyLen, junk) =>
        var r := Send(k, tid, msg, msgLen, reply, replyLen, junk);
        SendKeeps(k, tid, msg, msgLen, reply, replyLen, junk);
        SendUncounted(k, tid, msg, msgLen, reply, replyLen, junk);
        UncountedMissing(k, r.0);
        AnswerCounts(r);
      case ReceiveCall(put, buf, len, junk, oldest) =>
        var r := Receive(k, put, buf, len, junk, oldest);
        ReceiveIsCore(k, put, buf, len, junk, oldest);
        ReceiveUncounted(k, put, buf, len, junk, oldest);
        UncountedMissing(k, r.0);
        AnswerCounts(r);
      case ReplyCall(tid, buf, len) =>
        var r := Reply(k, tid, buf, len);
        ReplyKeeps(k, tid, buf, len);
        ReplyUncounted(k, tid, buf, len);
        UncountedMissing(k, r.0);
        AnswerCounts(r);
    }
  }

  lemma ReceiveIsCore(k: Kernel, put: int, buf: int, len: nat, junk: Msg, oldest: bool)
    requires Core(k) && k.current != NONE && k.tasks[k.current].state == Active
    ensures Core(Receive(k, put, buf, len, junk, oldest).0)
  {
    hide Partition, Tids, Forest, Mail, Ledger, ReceiveInto, Slot, Ranked, Within;
    ReceiveKeeps(k, put, buf, len, junk, RecordFor(k, oldest));
  }

  /** Calls that only touch the running task's own fields. */
  lemma OwnCallCounts(k: Kernel, call: Call)
    requires Core(k) && CanCreate(k) && k.current != NONE && k.tasks[k.current].state == Active
    requires call.PassCall? || call.ParentCall? || call.PriorityCall? || call.AwaitCall?
    ensures Missing(Handle(k, call)) == Missing(k)
  {
    hide Partition, Tids, Forest, Mail, Ledger, CanCreate, Create, Destroy, Slot, Ranked, Within, Alive;
    AliveSame(k.tasks, Handle(k, call).tasks);
  }

  lemma HandleCounts(k: Kernel, call: Call)
    requires Core(k) && CanCreate(k) && k.current != NONE && k.tasks[k.current].state == Active
    requires !call.Store? && Enabled(k, call)
    ensures Missing(Handle(k, call)) == Missing(k) + ZombiesDestroyed(k, call)
  {
    hide Partition, Tids, Forest, Mail, Ledger, CanCreate, Create, Exit, Destroy, Answer, Returning, UnblockFrom,
      Missing, Slot, Ranked, Within, SubtreeQuiet, DeathRow, Zombies;
    if call.SendCall? || call.ReceiveCall? || call.ReplyCall? {
      MessageCallCounts(k, call);
    } else if call.CreateCall? {
      if HIGHEST_PRIORITY <= call.priority <= LOW_PRIORITY { CreateCounts(k, call.priority); }
      AnswerCounts(CreateSafe(k, call.priority));
    } else if call.ExitCall? {
      ExitCounts(k);
    } else if call.DestroyCall? {
      if Accepted(k, call.tid) { DestroyCounts(k, call.tid); } else { RejectedDestroy(k, call.tid); }
      AnswerCounts(Destroy(k, call.tid));
    } else if call.Interrupt? {
      if call.code < 0 {
        UnblockKeeps(k, EventId(call.code), HIGHEST_PRIORITY);
        UnblockUncounted(k, EventId(call.code), HIGHEST_PRIORITY);
        UncountedMissing(k, UnblockFrom(k, EventId(call.code), HIGHEST_PRIORITY));
      }
    } else {
      OwnCallCounts(k, call);
    }
  }

  lemma StepCounts(k: Kernel, call: Call)
    requires Running(k) && Enabled(k, call) && CanCreate(k)
    ensures Missing(Step(k, call)) == Missing(k) + ZombiesDestroyed(k, call)
  {
    hide Partition, Tids, Forest, Mail, Ledger, NullTask, CanCreate, Handle, Schedule, ZombiesDestroyed, Slot,
      Ranked, Within, Alive, Uncounted, SubtreeQuiet;
    if call.Store? {
      NoneDestroyed(k, call);
    } else {
      var k1 := Handle(k, call);
      HandleKeeps(k, call);
      HandleCounts(k, call);
      ScheduleKeeps(k1);
      ScheduleUncounted(k1);
      UncountedMissing(k1, Schedule(k1));
    }
  }

  lemma NoneDestroyed(k: Kernel, call: Call)
    requires WF(k) && !call.DestroyCall?
    ensures ZombiesDestroyed(k, call) == 0
  {
  }

  /** The zombies destroyed by a whole run. */
  ghost function AllZombiesDestroyed(k: Kernel, calls: seq<Call>): nat
    requires Running(k) && Legal(k, calls)
    decreases |calls|
  {
    if calls == [] then 0
    else
      StepKeeps(k, calls[0]);
      ZombiesDestroyed(k, calls[0]) + AllZombiesDestroyed(Step(k, calls[0]), calls[1..])
  }

  lemma {:induction false} RunCounts(k: Kernel, calls: seq<Call>)
    requires Running(k) && Legal(k, calls)
    ensures Missing(Run(k, calls)) == Missing(k) + AllZombiesDestroyed(k, calls)
    decreases |calls|
  {
    hide Partition, Tids, Forest, Mail, Ledger, NullTask, Enabled, CanCreate, Step, Missing, ZombiesDestroyed,
      Ranked, Within;
    if calls != [] {
      StepKeeps(k, calls[0]);
      StepCounts(k, calls[0]);
      RunCounts(Step(k, calls[0]), calls[1..]);
    }
  }

  lemma {:induction false} NobodyAlive(tasks: seq<Task>)
    requires forall i :: 0 <= i < |tasks| ==> !Living(tasks[i])
    ensures Alive(tasks) == 0
  {
    if tasks != [] { NobodyAlive(tasks[..|tasks| - 1]); }
  }

  lemma BootCounts(n: nat)
    requires 2 <= n <= LONG_MAX
    ensures Missing(Boot(n)) == 0
  {
    hide Partition, Tids, Forest, Mail, Ledger, NullTask, CanCreate, Create, Schedule, Uncounted, Ranked, Within,
      Alive;
    var k0 := InitState(n);
    InitHolds(n);
    NobodyAlive(k0.tasks);
    CreateKeeps(k0, NULL_PRIORITY);
    CreateListsCurrent(k0, NULL_PRIORITY);
    CreateCounts(k0, NULL_PRIORITY);
    var k1 := Create(k0, NULL_PRIORITY).0;
    CreateKeeps(k1, LOW_PRIORITY);
    CreateListsCurrent(k1, LOW_PRIORITY);
    CreateCounts(k1, LOW_PRIORITY);
    var k2 := Create(k1, LOW_PRIORITY).0;
    ScheduleKeeps(k2);
    ScheduleUncounted(k2);
    UncountedMissing(k2, Schedule(k2));
  }

  /** Over every run from boot, num_tasks falls behind the number of tasks alive by one for every task
      that was destroyed after it had exited, and is right exactly when there was none. */
  lemma TasksCounted(n: nat, calls: seq<Call>)
    requires 2 <= n <= LONG_MAX
    requires Running(Boot(n)) && Legal(Boot(n), calls)
    ensures var k := Run(Boot(n), calls);
            && Alive(k.tasks) == k.numTasks + AllZombiesDestroyed(Boot(n), calls)
            && (k.numTasks == Alive(k.tasks) <==> AllZombiesDestroyed(Boot(n), calls) == 0)
  {
    hide Partition, Tids, Forest, Mail, Ledger, NullTask, Boot, Run, AllZombiesDestroyed, Alive, Ranked, Within;
    BootCounts(n);
    RunCounts(Boot(n), calls);
  }
}
