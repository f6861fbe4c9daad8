/** Whole runs of the kernel: any sequence of calls by whatever task is running, and interrupts. */
module KernelRuns {
  import opened Cells
  import opened Lists
  import opened KernelModel
  import opened KernelInvariant
  import opened KernelSteps
  import opened KernelDestroy

  datatype Call =
    | CreateCall(priority: int) | PassCall | ExitCall | ParentCall | PriorityCall(to: nat)
    | SendCall(tid: int, msg: int, msgLen: nat, reply: int, replyLen: nat, junk: Msg)
    | ReceiveCall(put: int, buf: int, len: nat, junk: Msg, oldest: bool)
    | ReplyCall(tid: int, buf: int, len: nat)
    | AwaitCall(intr: int) | DestroyCall(tid: int)
    | Interrupt(code: int)
    | Store(addr: int, value: Byte)  // the running task writes a byte of memory without entering the kernel

  function Returning(k: Kernel, v: int): (r: Kernel)
    requires WF(k) && k.current != NONE
    ensures WF(r) && |r.tasks| == |k.tasks|
  {
    k.(tasks := k.tasks[k.current := k.tasks[k.current].(ret := v)])
  }

  function CreateSafe(k: Kernel, priority: int): (r: (Kernel, int))
    requires WF(k) && CanCreate(k)
    ensures WF(r.0) && |r.0.tasks| == |k.tasks|
  {
    if priority < HIGHEST_PRIORITY || LOW_PRIORITY < priority then (k, ERR_INVALID_PRIORITY) else Create(k, priority)
  }

  /** The handler of a call or interrupt; the value it returns becomes the caller's. */
  function Handle(k: Kernel, call: Call): (r: Kernel)
    requires WF(k) && CanCreate(k) && k.current != NONE && !call.Store?
    ensures WF(r) && |r.tasks| == |k.tasks|
  {
    match call
    case CreateCall(priority) => Answer(CreateSafe(k, priority))
    case PassCall => k
    case ExitCall => Exit(k)
    case ParentCall => Returning(k, MyParentTid(k))
    case PriorityCall(to) => Answer(SetMyPriority(k, to))
    case SendCall(tid, msg, msgLen, reply, replyLen, junk) => Answer(Send(k, tid, msg, msgLen, reply, replyLen, junk))
    case ReceiveCall(put, buf, len, junk, oldest) => Answer(Receive(k, put, buf, len, junk, oldest))
    case ReplyCall(tid, buf, len) => Answer(Reply(k, tid, buf, len))
    case AwaitCall(intr) => Returning(AwaitEvent(k, intr), OK)
    case DestroyCall(tid) => Answer(Destroy(k, tid))
    case Interrupt(code) => Irq(k, code)
  }

  function Answer(r: (Kernel, int)): (k: Kernel)
    requires WF(r.0)
    ensures WF(k) && |k.tasks| == |r.0.tasks|
  {
    if r.0.current == NONE then r.0 else Returning(r.0, r.1)
  }

  function Step(k: Kernel, call: Call): (r: Kernel)
    requires WF(k) && CanCreate(k) && k.current != NONE
    ensures WF(r) && |r.tasks| == |k.tasks|
  {
    if call.Store? then k.(mem := k.mem[call.addr := call.value]) else Schedule(Handle(k, call))
  }

  /** The null task calls nothing; a Destroy stays inside the tables and leaves no message behind. */
  ghost predicate Enabled(k: Kernel, call: Call)
    requires WF(k) && Forest(k)
  {
    && (!call.Interrupt? ==> k.current != 0)
    && (call.DestroyCall? ==> DestroyInBounds(k, call.tid) && (Accepted(k, call.tid) ==> SubtreeQuiet(k, call.tid)))
  }

  // ------------------------------------------------------------------ one step

  lemma ReturningKeeps(k: Kernel, v: int)
    requires Core(k) && k.current != NONE
    ensures Core(Returning(k, v))
  {
    hide Slot, Ranked, Within, Partition, Tids, Forest, MailBut, Ledger;
    var k' := Returning(k, v);
    PartitionKept(k, k');
    TreeKept(k, k');
    MailKept(k, k');
    LedgerKept(k, k');
  }

  lemma AnswerKeeps(r: (Kernel, int))
    requires Core(r.0)
    ensures Core(Answer(r))
  {
    hide Partition, Tids, Forest, MailBut, Ledger, Returning;
    if r.0.current != NONE { ReturningKeeps(r.0, r.1); }
  }

  lemma MessageCallKeeps(k: Kernel, call: Call)
    requires Core(k) && CanCreate(k) && k.current != NONE && k.tasks[k.current].state == Active
    requires call.SendCall? || call.ReceiveCall? || call.ReplyCall?
    ensures Core(Handle(k, call))
  {
    hide Slot, Ranked, Within, Partition, Tids, Forest, MailBut, Ledger, CanCreate, Create, Destroy, Send,
      ReceiveInto, Reply, Answer;
    match call {
      case SendCall(tid, msg, msgLen, reply, replyLen, junk) =>
        SendKeeps(k, tid, msg, msgLen, reply, replyLen, junk);
        AnswerKeeps(Send(k, tid, msg, msgLen, reply, replyLen, junk));
      case ReceiveCall(put, buf, len, junk, oldest) =>
        ReceiveKeeps(k, put, buf, len, junk, RecordFor(k, oldest));
        AnswerKeeps(Receive(k, put, buf, len, junk, oldest));
      case ReplyCall(tid, buf, len) =>
        ReplyKeeps(k, tid, buf, len);
        AnswerKeeps(Reply(k, tid, buf, len));
    }
  }

  lemma TaskCallKeeps(k: Kernel, call: Call)
    requires Core(k) && CanCreate(k) && k.current != NONE && k.tasks[k.current].state == Active && !call.Store?
    requires !call.SendCall? && !call.ReceiveCall? && !call.ReplyCall? && !call.DestroyCall?
    ensures Core(Handle(k, call))
  {
    hide Slot, Ranked, Within, Partition, Tids, Forest, MailBut, Ledger, CanCreate;
    hide Create, SetMyPriority, UnblockFrom, Exit, Returning, Answer, IsTaskAlive, Destroy;
    match call {
      case CreateCall(priority) =>
        if HIGHEST_PRIORITY <= priority <= LOW_PRIORITY { CreateKeeps(k, priority); }
        AnswerKeeps(CreateSafe(k, priority));
      case PassCall =>
      case ExitCall =>
        ExitKeeps(k);
      case ParentCall =>
        ReturningKeeps(k, MyParentTid(k));
      case PriorityCall(to) =>
        SetMyPriorityKeeps(k, to);
        AnswerKeeps(SetMyPriority(k, to));
      case AwaitCall(intr) =>
        AwaitEventKeeps(k, intr);
        ReturningKeeps(AwaitEvent(k, intr), OK);
      case Interrupt(code) =>
        if code < 0 { UnblockKeeps(k, EventId(code), HIGHEST_PRIORITY); }
    }
  }

  lemma HandleKeeps(k: Kernel, call: Call)
    requires Core(k) && k.current != NONE && k.tasks[k.current].state == Active && !call.Store? && Enabled(k, call)
    ensures CanCreate(k) && Core(Handle(k, call))
  {
    CanCreateHere(k);
    hide Slot, Ranked, Within, Partition, Tids, Forest, MailBut, Ledger, SubtreeQuiet, Descends, CanCreate, Create,
      Answer, Destroy, Exit;
    if call.SendCall? || call.ReceiveCall? || call.ReplyCall? {
      MessageCallKeeps(k, call);
    } else if call.DestroyCall? {
      DestroyKeeps(k, call.tid);
      AnswerKeeps(Destroy(k, call.tid));
    } else {
      TaskCallKeeps(k, call);
    }
  }

  // ------------------------------------------------------------------ bystanders

  /** A ready task that is not running keeps everything but, at most, its place in the ready list. */
  ghost predicate Spares(k: Kernel, k': Kernel)
    requires WF(k) && WF(k')
  {
    |k'.tasks| == |k.tasks| && k'.current == k.current &&
    forall j :: 0 <= j < |k.tasks| && j != k.current && k.tasks[j].state == Ready ==> k'.tasks[j] == k.tasks[j]
  }

  lemma SendSpares(k: Kernel, tid: int, msg: int, msgLen: nat, reply: int, replyLen: nat, junk: Msg)
    requires Core(k) && k.current != NONE && k.tasks[k.current].state == Active
    ensures Spares(k, Send(k, tid, msg, msgLen, reply, replyLen, junk).0)
  {
    hide Partition, Forest, Ledger, Ranked, Within, Deliver, ReadyGrows, MailBut;
    if IsValidTid(tid) && IsTaskAlive(k, tid) {
      var r := Slot(|k.tasks|, tid);
      var m := Msg(CurrentTid(k), tid, junk.putTid, msg, msgLen, reply, replyLen, junk.recv, junk.recvLen);
      PostKeeps(k, tid, m);
      OwnSlot(k, k.current);
      hide Slot, Tids;
      var k1 := Post(k, tid, m);
      if k1.tasks[r].state == SendBlocked {
        var w := k1.msgs[r];
        var k2 := k1.(msgs := k1.msgs[k.current := m.(putTid := w.putTid, recv := w.recv, recvLen := w.recvLen)]);
        SameRecordsKept(k1, k2, r);
        ShapeKept(k1, k2);
        Delivery(k2, r);
      }
    }
  }

  lemma ReceiveSpares(k: Kernel, put: int, buf: int, len: nat, junk: Msg, at: int)
    requires Core(k) && k.current != NONE && k.tasks[k.current].state == Active
    requires var box := k.mail[Slot(|k.tasks|, CurrentTid(k))]; box != [] ==> 0 <= at < |box|
    ensures Spares(k, ReceiveInto(k, put, buf, len, junk, at).0)
  {
    hide Partition, Tids, Forest, Ledger, Ranked, Within, Deliver, ReadyGrows, MailBut, Slot;
    OwnSlot(k, k.current);
    var box := k.mail[k.current];
    if box != [] {
      InBox(k, k.current);
      assert box[at] in box;
      var k1 := k.(msgs := k.msgs[box[at] := k.msgs[box[at]].(putTid := put, recv := buf, recvLen := len)]);
      ShapeKept(k, k1);
      SameRecordsKept(k, k1, NONE);
      WithoutException(k1, k.current);
      Delivery(k1, k.current);
    }
  }

  lemma ReplySpares(k: Kernel, tid: int, buf: int, len: nat)
    requires Core(k) && k.current != NONE
    ensures Spares(k, Reply(k, tid, buf, len).0)
  {
    hide Partition, Forest, Ledger, Ranked, Within, ReadyGrows, CopyBytes, QueueOk;
    if IsValidTid(tid) && IsTaskAlive(k, tid) && GetTaskState(k, tid) == ReplyBlocked {
      assert RecordOk(k, Slot(|k.tasks|, tid));
      hide MailBut, RecordOk, Slot;
    }
  }

  lemma UnblockSpares(k: Kernel, intr: int, priority: nat)
    requires Core(k) && priority <= NUM_PRIORITIES
    ensures Spares(k, UnblockFrom(k, intr, priority)) && ReadyGrows(k, UnblockFrom(k, intr, priority))
    ensures forall j :: 0 <= j < |k.tasks| && k.tasks[j].state != EventBlocked ==>
              UnblockFrom(k, intr, priority).tasks[j] == k.tasks[j]
    decreases NUM_PRIORITIES - priority
  {
    hide Partition, Tids, Forest, Mail, Ledger, Slot, SetState;
    if priority < NUM_PRIORITIES {
      var q := ListOf(EventBlocked, priority);
      var i := FirstAwaiting(k.tasks, k.lists[q], intr);
      if i == NONE {
        UnblockSpares(k, intr, priority + 1);
      } else {
        HomeOf(k, i, q);
        StateChanged(k, i, Ready);
        OwnSlot(k, i);
        GrowsTo(k, SetState(k, k.tasks[i].tid, Ready), UnblockFrom(k, intr, priority));
      }
    } else {
      GrowsFrom(k, k, k);
    }
  }

  lemma MessageCallSpares(k: Kernel, call: Call)
    requires Core(k) && CanCreate(k) && k.current != NONE && k.tasks[k.current].state == Active
    requires call.SendCall? || call.ReceiveCall? || call.ReplyCall?
    ensures Spares(k, Handle(k, call)) && ReadyGrows(k, Handle(k, call))
  {
    hide Slot, Ranked, Within, Partition, Tids, Forest, MailBut, Ledger, CanCreate, Send, ReceiveInto, Reply,
      ReadyGrows;
    var k' := Handle(k, call);
    match call {
      case SendCall(tid, msg, msgLen, reply, replyLen, junk) =>
        SendSpares(k, tid, msg, msgLen, reply, replyLen, junk);
        SendKeeps(k, tid, msg, msgLen, reply, replyLen, junk);
        GrowsTo(k, Send(k, tid, msg, msgLen, reply, replyLen, junk).0, k');
      case ReceiveCall(put, buf, len, junk, oldest) =>
        var at := RecordFor(k, oldest);
        ReceiveSpares(k, put, buf, len, junk, at);
        ReceiveKeeps(k, put, buf, len, junk, at);
        GrowsTo(k, Receive(k, put, buf, len, junk, oldest).0, k');
      case ReplyCall(tid, buf, len) =>
        ReplySpares(k, tid, buf, len);
        ReplyKeeps(k, tid, buf, len);
        GrowsTo(k, Reply(k, tid, buf, len).0, k');
    }
  }

  /** No handler touches a ready task that is not running, unless it destroys it. */
  lemma HandleSpares(k: Kernel, call: Call)
    requires Core(k) && k.current != NONE && k.tasks[k.current].state == Active && !call.Store? && !call.DestroyCall?
    requires CanCreate(k)
    ensures Spares(k, Handle(k, call)) && ReadyGrows(k, Handle(k, call))
  {
    hide Slot, Ranked, Within, Partition, Tids, Forest, MailBut, Ledger, CanCreate, UnblockFrom, ReadyGrows,
      Destroy, IsTaskAlive;
    if call.SendCall? || call.ReceiveCall? || call.ReplyCall? {
      MessageCallSpares(k, call);
    } else if call.CreateCall? && HIGHEST_PRIORITY <= call.priority <= LOW_PRIORITY {
      CreateKeeps(k, call.priority);
      if k.lists[FREE_LIST] != [] { CreateEffect(k, call.priority); }
      GrowsTo(k, Create(k, call.priority).0, Handle(k, call));
    } else if call.Interrupt? && call.code < 0 {
      UnblockSpares(k, EventId(call.code), HIGHEST_PRIORITY);
    } else {
      GrowsFrom(k, Handle(k, call), Handle(k, call));
    }
  }

  /** Whoever made the call is still current when its handler is done, even if it destroyed itself. */
  lemma HandleKeepsCurrent(k: Kernel, call: Call)
    requires Core(k) && k.current != NONE && k.tasks[k.current].state == Active && !call.Store? && Enabled(k, call)
    requires CanCreate(k)
    ensures Handle(k, call).current == k.current
  {
    hide Slot, Ranked, Within, Partition, Tids, Forest, MailBut, Ledger, CanCreate, Destroy, SubtreeQuiet, Descends,
      Buried;
    if call.DestroyCall? {
      if Accepted(k, call.tid) { DestroyEffect(k, call.tid); } else { RejectedDestroy(k, call.tid); }
    } else {
      hide Handle, ReadyGrows;
      HandleSpares(k, call);
    }
  }

  // ------------------------------------------------------------------ the running invariant

  lemma NullStays(k: Kernel, call: Call)
    requires Running(k) && !call.Store? && Enabled(k, call) && CanCreate(k)
    ensures NullTask(Handle(k, call))
  {
    hide Slot, Ranked, Within, Partition, Tids, MailBut, Ledger, CanCreate, Handle;
    if call.DestroyCall? {
      NullSurvives(k, call.tid);
    } else if k.current != 0 {
      assert k.tasks[0].state == Ready;
      HandleSpares(k, call);
    } else {
      NullInterrupted(k, call);
    }
  }

  lemma NullInterrupted(k: Kernel, call: Call)
    requires Running(k) && call.Interrupt? && CanCreate(k)
    ensures NullTask(Handle(k, call))
  {
    hide Slot, Ranked, Within, Partition, Tids, Forest, MailBut, Ledger, CanCreate, UnblockFrom, ReadyGrows;
    if call.code < 0 { UnblockSpares(k, EventId(call.code), HIGHEST_PRIORITY); }
  }

  /** The null task has no parent, so it is in nobody's subtree but its own. */
  lemma NullSurvives(k: Kernel, tid: int)
    requires Running(k) && k.current != 0 && CanCreate(k) && Enabled(k, DestroyCall(tid))
    ensures NullTask(Handle(k, DestroyCall(tid)))
  {
    hide Ranked, Within, Partition, Forest, MailBut, Ledger, CanCreate, Destroy, SubtreeQuiet, Slot, Tids, Cut,
      Descends, Buried;
    if Accepted(k, tid) {
      DestroyEffect(k, tid);
      CutSparesNull(k, Slot(|k.tasks|, tid), Destroy(k, tid).0);
    } else {
      RejectedDestroy(k, tid);
    }
  }

  lemma RejectedDestroy(k: Kernel, tid: int)
    requires WF(k) && !Accepted(k, tid)
    ensures Destroy(k, tid) == (k, if IsValidTid(tid) then ERR_NONEXISTENT_TASK else ERR_IMPOSSIBLE_TID)
  {
    hide Slot;
  }

  lemma CutSparesNull(k: Kernel, i: nat, k': Kernel)
    requires Cut(k, i, k') && NullTask(k) && k.tasks[i].parentTid != -1
    ensures k'.tasks[0] == k.tasks[0] && k'.current == k.current
  {
    hide Ranked, Within, Slot;
  }

  /** Somebody is always ready to run. */
  lemma NullIsReady(k: Kernel)
    requires Core(k) && NullTask(k)
    ensures Schedule(k).current != NONE && NullTask(Schedule(k))
  {
    hide Slot, Ranked, Within, Tids, Forest, MailBut, Ledger;
    var k1 := Requeue(k).(current := NONE);
    RequeueKeeps(k);
    hide Requeue;
    assert Home(k1, 0) == ListOf(Ready, NULL_PRIORITY);
    assert 0 in k1.lists[ListOf(Ready, NULL_PRIORITY)];
    var p := ReadyPriority(k1.lists, HIGHEST_PRIORITY);
    ReadyHome(k1, p);
  }

  lemma StoreKeeps(k: Kernel, call: Call)
    requires Running(k) && call.Store? && CanCreate(k)
    ensures Running(Step(k, call))
  {
    hide Slot, Ranked, Within, Partition, Tids, Forest, MailBut, Ledger, CanCreate, Handle, Schedule;
    var k' := Step(k, call);
    ShapeKept(k, k');
    MailKept(k, k');
    LedgerKept(k, k');
  }

  /** One step of a run keeps the whole invariant, and again some task runs. */
  lemma StepKeeps(k: Kernel, call: Call)
    requires Running(k) && Enabled(k, call)
    ensures CanCreate(k) && Running(Step(k, call))
  {
    CanCreateHere(k);
    if call.Store? {
      StoreKeeps(k, call);
    } else {
      hide Slot, Ranked, Within, Partition, Tids, Forest, MailBut, Ledger, CanCreate, Handle, Schedule, Enabled;
      HandleKeeps(k, call);
      NullStays(k, call);
      ScheduleKeeps(Handle(k, call));
      NullIsReady(Handle(k, call));
    }
  }

  // ------------------------------------------------------------------ runs

  /** The calls of a run are enabled one after the other. */
  ghost predicate Legal(k: Kernel, calls: seq<Call>)
    requires Running(k)
    decreases |calls|
  {
    calls == [] || (Enabled(k, calls[0]) && (StepKeeps(k, calls[0]); Legal(Step(k, calls[0]), calls[1..])))
  }

  ghost function Run(k: Kernel, calls: seq<Call>): (k': Kernel)
    requires Running(k) && Legal(k, calls)
    ensures Running(k')
    decreases |calls|
  {
    if calls == [] then k
    else
      StepKeeps(k, calls[0]);
      Run(Step(k, calls[0]), calls[1..])
  }
}
