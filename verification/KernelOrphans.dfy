/** What becomes of the tasks that wait for a task that has exited. */
module KernelOrphans {
  import opened Lists
  import opened KernelModel
  import opened KernelInvariant
  import opened KernelSteps
  import opened KernelDestroy
  import opened KernelRuns
  import opened KernelTheorems
  import opened KernelCounting
  import opened KernelRecords
  import opened KernelScenarios

  /** The task in slot i has sent to the task in slot r, which exited without receiving. */
  ghost predicate Left(k: Kernel, r: nat, i: nat) {
    && WF(k) && r < |k.tasks| && i < |k.tasks|
    && k.tasks[r].state == Zombie && k.tasks[i].state == ReceiveBlocked && i in k.mail[r]
  }

  /** Both are as they were, and the queue has neither lost nor gained a message. */
  ghost predicate Unchanged(k: Kernel, k': Kernel, r: nat, i: nat)
    requires Left(k, r, i)
  {
    && WF(k') && |k'.tasks| == |k.tasks| && k'.mail[r] == k.mail[r]
    && k'.tasks[r].tid == k.tasks[r].tid && k'.tasks[r].state == Zombie
    && k'.tasks[i].tid == k.tasks[i].tid && k'.tasks[i].state == ReceiveBlocked
  }

  // ------------------------------------------------------------------ handlers

  /** A sender waits in one queue only. */
  lemma OneQueue(k: Kernel, i: nat, q: nat, r: nat)
    requires WF(k) && Tids(k) && Mail(k) && q < |k.tasks| && r < |k.tasks| && i in k.mail[q] && i in k.mail[r]
    ensures q == r
  {
    hide Ranked, Within, Slot;
    assert QueueOk(k, q) && QueueOk(k, r);
    DistinctTids(k, q, r);
  }

  /** A delivery to somebody else. */
  lemma DeliveryElsewhere(k: Kernel, r: nat, i: nat, q: nat, sender: nat, k': Kernel)
    requires Left(k, r, i) && WF(k') && |k'.tasks| == |k.tasks|
    requires sender < |k.tasks| && q < |k.tasks| && k.mail[q] != [] && sender != i && q != r && q != i && sender != r
    requires Delivered(k, sender, q, k')
    ensures Unchanged(k, k', r, i)
  {
    hide Ranked, Within;
  }

  lemma SendLeaves(k: Kernel, r: nat, i: nat, tid: int, msg: int, msgLen: nat, reply: int, replyLen: nat, junk: Msg)
    requires Running(k) && Left(k, r, i)
    ensures Unchanged(k, Send(k, tid, msg, msgLen, reply, replyLen, junk).0, r, i)
  {
    hide Partition, Forest, Ledger, NullTask, Ranked, Within, Deliver, ReadyGrows, MailBut;
    if IsValidTid(tid) && IsTaskAlive(k, tid) {
      var q := Slot(|k.tasks|, tid);
      var m := Msg(CurrentTid(k), tid, junk.putTid, msg, msgLen, reply, replyLen, junk.recv, junk.recvLen);
      PostKeeps(k, tid, m);
      OwnSlot(k, k.current);
      hide Slot, Tids;
      var k1 := Post(k, tid, m);
      if k1.tasks[q].state == SendBlocked {
        var w := k1.msgs[q];
        var k2 := k1.(msgs := k1.msgs[k.current := m.(putTid := w.putTid, recv := w.recv, recvLen := w.recvLen)]);
        SameRecordsKept(k1, k2, q);
        ShapeKept(k1, k2);
        Delivery(k2, q);
        WaiterHasNoMail(k, q);
        assert k2.mail[q] == [k.current];
        DeliveryElsewhere(k2, r, i, q, k.current, Deliver(k2, tid).0);
      }
    }
  }

  lemma WaiterHasNoMail(k: Kernel, q: nat)
    requires WF(k) && Mail(k) && q < |k.tasks| && k.tasks[q].state == SendBlocked
    ensures k.mail[q] == []
  {
  }

  lemma ReceiveLeaves(k: Kernel, r: nat, i: nat, put: int, buf: int, len: nat, junk: Msg, oldest: bool)
    requires Running(k) && Left(k, r, i)
    ensures Unchanged(k, Receive(k, put, buf, len, junk, oldest).0, r, i)
  {
    hide Partition, Forest, Ledger, NullTask, Ranked, Within, Deliver, ReadyGrows, MailBut, Slot;
    OwnSlot(k, k.current);
    var box := k.mail[k.current];
    if box != [] {
      var at := RecordFor(k, oldest);
      InBox(k, k.current);
      assert box[at] in box && box[0] in box;
      if box[0] == i { OneQueue(k, i, k.current, r); }
      var k1 := k.(msgs := k.msgs[box[at] := k.msgs[box[at]].(putTid := put, recv := buf, recvLen := len)]);
      ShapeKept(k, k1);
      SameRecordsKept(k, k1, NONE);
      WithoutException(k1, k.current);
      Delivery(k1, k.current);
      DeliveryElsewhere(k1, r, i, k.current, box[0], Deliver(k1, k.tasks[k.current].tid).0);
    }
  }

  lemma ReplyLeaves(k: Kernel, r: nat, i: nat, tid: int, buf: int, len: nat)
    requires Running(k) && Left(k, r, i)
    ensures Unchanged(k, Reply(k, tid, buf, len).0, r, i)
  {
    hide Partition, Forest, Ledger, NullTask, Ranked, Within, CopyBytes, QueueOk;
    if IsValidTid(tid) && IsTaskAlive(k, tid) && GetTaskState(k, tid) == ReplyBlocked {
      assert RecordOk(k, Slot(|k.tasks|, tid));
      hide MailBut, RecordOk, Slot;
    }
  }

  lemma CreateLeavesBoth(k: Kernel, r: nat, i: nat, priority: nat)
    requires Running(k) && CanCreate(k) && Left(k, r, i) && priority < NUM_PRIORITIES
    ensures Unchanged(k, Create(k, priority).0, r, i)
  {
    hide Partition, Tids, Forest, Ledger, Mail, NullTask, Ranked, Within, CanCreate;
    if k.lists[FREE_LIST] != [] {
      CreateEffect(k, priority);
      hide Create;
    }
  }

  /** A subtree that may be destroyed holds neither of them. */
  lemma DestroyLeaves(k: Kernel, r: nat, i: nat, tid: int)
    requires Running(k) && Left(k, r, i) && Enabled(k, DestroyCall(tid))
    ensures Unchanged(k, Destroy(k, tid).0, r, i)
  {
    hide Partition, Tids, Forest, Ledger, Mail, NullTask, Ranked, Within, Slot, Destroy, Descends, Buried;
    if Accepted(k, tid) { DestroyEffect(k, tid); } else { RejectedDestroy(k, tid); }
  }

  lemma IrqLeaves(k: Kernel, r: nat, i: nat, code: int)
    requires Running(k) && Left(k, r, i)
    ensures Unchanged(k, Irq(k, code), r, i)
  {
    hide Partition, Tids, Forest, Ledger, Mail, NullTask, Ranked, Within, UnblockFrom, EventId;
    if code < 0 {
      UnblockKeeps(k, EventId(code), HIGHEST_PRIORITY);
      UnblockFrame(k, EventId(code), HIGHEST_PRIORITY);
    }
  }

  lemma AnswerLeaves(k: Kernel, r: nat, i: nat, a: (Kernel, int))
    requires Left(k, r, i) && WF(a.0) && Unchanged(k, a.0, r, i)
    ensures Unchanged(k, Answer(a), r, i)
  {
    hide Ranked, Within;
  }

  lemma HandleLeaves(k: Kernel, call: Call, r: nat, i: nat)
    requires Running(k) && Enabled(k, call) && CanCreate(k) && !call.Store? && Left(k, r, i)
    ensures Unchanged(k, Handle(k, call), r, i)
  {
    hide Partition, Tids, Forest, Ledger, Mail, NullTask, Ranked, Within, Slot, CanCreate, Create, Send, Receive,
      Reply, Destroy, Irq, Answer, SubtreeQuiet;
    match call {
      case CreateCall(priority) =>
        if HIGHEST_PRIORITY <= priority <= LOW_PRIORITY { CreateLeavesBoth(k, r, i, priority); }
        AnswerLeaves(k, r, i, CreateSafe(k, priority));
      case PriorityCall(to) =>
        AnswerLeaves(k, r, i, SetMyPriority(k, to));
      case ReplyCall(tid, buf, len) =>
        ReplyLeaves(k, r, i, tid, buf, len);
        AnswerLeaves(k, r, i, Reply(k, tid, buf, len));
      case SendCall(tid, msg, msgLen, reply, replyLen, junk) =>
        SendLeaves(k, r, i, tid, msg, msgLen, reply, replyLen, junk);
        AnswerLeaves(k, r, i, Send(k, tid, msg, msgLen, reply, replyLen, junk));
      case ReceiveCall(put, buf, len, junk, oldest) =>
        ReceiveLeaves(k, r, i, put, buf, len, junk, oldest);
        AnswerLeaves(k, r, i, Receive(k, put, buf, len, junk, oldest));
      case DestroyCall(tid) =>
        DestroyLeaves(k, r, i, tid);
        AnswerLeaves(k, r, i, Destroy(k, tid));
      case Interrupt(code) =>
        IrqLeaves(k, r, i, code);
      case _ =>
    }
  }

  // ------------------------------------------------------------------ scheduling, and whole runs

  /** A scheduling decision changes the state of nobody who is neither active nor ready. */
  lemma ScheduleSpares(k: Kernel, i: nat)
    requires Core(k) && i < |k.tasks| && k.tasks[i].state != Active && k.tasks[i].state != Ready
    ensures Schedule(k).tasks[i] == k.tasks[i]
  {
    hide Requeue, Slot, Ranked, Within, Tids, Forest, Mail, Ledger, Partition, ReadyGrows;
    var k1 := Requeue(k).(current := NONE);
    RequeueKeeps(k);
    var p := ReadyPriority(k1.lists, HIGHEST_PRIORITY);
    if p < NUM_PRIORITIES { ReadyHome(k1, p); }
  }

  lemma StepLeaves(k: Kernel, call: Call, r: nat, i: nat)
    requires Running(k) && Enabled(k, call) && CanCreate(k) && Left(k, r, i)
    ensures Unchanged(k, Step(k, call), r, i)
  {
    hide Partition, Tids, Forest, Ledger, Mail, NullTask, Ranked, Within, Slot, CanCreate, Handle, Schedule, Enabled;
    if !call.Store? {
      var k1 := Handle(k, call);
      HandleKeeps(k, call);
      HandleLeaves(k, call, r, i);
      ScheduleFrame(k1);
      ScheduleSpares(k1, r);
      ScheduleSpares(k1, i);
    }
  }

  lemma LeftStill(k: Kernel, k1: Kernel, r: nat, i: nat)
    requires Left(k, r, i) && Unchanged(k, k1, r, i)
    ensures Left(k1, r, i)
  {
  }

  lemma UnchangedAgain(k: Kernel, k1: Kernel, k': Kernel, r: nat, i: nat)
    requires Left(k, r, i) && Left(k1, r, i) && Unchanged(k, k1, r, i) && Unchanged(k1, k', r, i)
    ensures Unchanged(k, k', r, i)
  {
  }

  /** Over every run the sender stays blocked on the task that has exited, with its message in that
      task's queue: nothing any task does ever releases it. */
  lemma {:induction false} LeftForEver(k: Kernel, calls: seq<Call>, r: nat, i: nat)
    requires Running(k) && Legal(k, calls) && Left(k, r, i)
    ensures Unchanged(k, Run(k, calls), r, i) && Left(Run(k, calls), r, i)
    decreases |calls|
  {
    hide Partition, Tids, Forest, Ledger, Mail, NullTask, Ranked, Within, Step, Enabled, CanCreate, Left, Unchanged;
    if calls != [] {
      StepKeeps(k, calls[0]);
      StepLeaves(k, calls[0], r, i);
      LeftStill(k, Step(k, calls[0]), r, i);
      LeftForEver(Step(k, calls[0]), calls[1..], r, i);
      UnchangedAgain(k, Step(k, calls[0]), Run(k, calls), r, i);
      LeftStill(k, Run(k, calls), r, i);
    } else {
      NothingHappened(k, r, i);
    }
  }

  lemma NothingHappened(k: Kernel, r: nat, i: nat)
    requires Left(k, r, i)
    ensures Unchanged(k, k, r, i)
  {
  }

  // ------------------------------------------------------------------ which Exits do it

  lemma SendersWait(k: Kernel, r: nat, i: nat)
    requires WF(k) && Mail(k) && r < |k.tasks| && i in k.mail[r]
    ensures i < |k.tasks| && k.tasks[i].state == ReceiveBlocked
  {
    assert QueueOk(k, r);
  }

  /** Exit leaves behind exactly the senders of the messages the task has not received. */
  lemma ExitLeaves(k: Kernel)
    requires Running(k) && k.current != 0
    ensures CanCreate(k)
    ensures forall i: nat :: Left(Step(k, ExitCall), k.current, i) <==> i in k.mail[k.current]
    ensures (exists i: nat :: Left(Step(k, ExitCall), k.current, i)) <==> k.mail[k.current] != []
  {
    hide Partition, Tids, Forest, Ledger, Mail, NullTask, Ranked, Within, Slot, CanCreate, Schedule;
    StepKeeps(k, ExitCall);
    HandleKeeps(k, ExitCall);
    var r, k1, k' := k.current, Handle(k, ExitCall), Step(k, ExitCall);
    ScheduleFrame(k1);
    ScheduleSpares(k1, r);
    forall i: nat | i in k.mail[r] ensures Left(k', r, i) {
      SendersWait(k, r, i);
      ScheduleSpares(k1, i);
    }
    if k.mail[r] != [] {
      FirstIn(k.mail[r]);
      assert Left(k', r, k.mail[r][0]);
    }
  }

  /** From boot with any three descriptors or more: a child sends to its parent, the parent exits, and
      the child waits for ever, whatever happens next. */
  lemma ParentExitsUnread(n: nat, call: Call, later: seq<Call>)
    requires 3 <= n <= LONG_MAX && call.SendCall? && call.tid == 1
    ensures Running(Boot(n)) && Legal(Boot(n), [CreateCall(HIGHEST_PRIORITY), call, ExitCall])
    ensures var k := Run(Boot(n), [CreateCall(HIGHEST_PRIORITY), call, ExitCall]);
            && Left(k, 1, 2) && k.tasks[1].tid == 1 && k.tasks[2].tid == 2
            && (Legal(k, later) ==> Unchanged(k, Run(k, later), 1, 2))
  {
    hide Core, NullTask, Boot, Step, Enabled, Legal, Run, AllZombiesDestroyed, Unchanged, Left;
    BootSpare(n);
    var k := OneReports(Boot(n), 2, call, [ExitCall]);
    OwnExit(k, 2);
    OneMoreCall(k, ExitCall, []);
    NothingMore(Step(k, ExitCall));
    assert [ExitCall] + [] == [ExitCall];
    assert [CreateCall(HIGHEST_PRIORITY), call] + [ExitCall] == [CreateCall(HIGHEST_PRIORITY), call, ExitCall];
    if Legal(Step(k, ExitCall), later) { LeftForEver(Step(k, ExitCall), later, 1, 2); }
  }

  lemma OwnExit(k: Kernel, i: nat)
    requires Running(k) && k.current == 1 && 2 <= i < |k.tasks| && i in k.mail[1]
    requires k.tasks[1].tid == 1 && k.tasks[i].tid == i
    ensures Enabled(k, ExitCall) && CanCreate(k)
    ensures Left(Step(k, ExitCall), 1, i)
    ensures var k' := Step(k, ExitCall); |k'.tasks| == |k.tasks| && k'.tasks[1].tid == 1 && k'.tasks[i].tid == i
  {
    hide Partition, Tids, Forest, Ledger, Mail, NullTask, Ranked, Within, Slot, CanCreate, Schedule, Left;
    ExitLeaves(k);
    ScheduleFrame(Handle(k, ExitCall));
  }
}
