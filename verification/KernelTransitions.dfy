/** What every call does to every task, in one table: no task changes in any other way. */
module KernelTransitions {
  import opened Lists
  import opened KernelModel
  import opened KernelInvariant
  import opened KernelSteps
  import opened KernelDestroy
  import opened KernelRuns
  import opened KernelTheorems
  import opened KernelCounting
  import opened KernelRecords
  import opened KernelMemory
  import opened KernelReceive
  import opened KernelScheduling
  import opened KernelInterrupts
  import opened KernelOrphans
  import opened KernelExchange
  import opened KernelScenarios
  import opened KernelLineage

  // ------------------------------------------------------------------ the table

  /** The call reaches a task that is alive. */
  predicate Reaches(k: Kernel, tid: int)
    requires WF(k)
  {
    0 <= tid <= LONG_MAX && k.tasks[Slot(|k.tasks|, tid)].tid == tid && Code(k.tasks[Slot(|k.tasks|, tid)].state) > 0
  }

  /** A descriptor is handed out. */
  predicate Creates(k: Kernel, call: Call)
    requires WF(k)
  {
    call.CreateCall? && 0 <= call.priority <= 3 && k.lists[FREE_LIST] != []
  }

  /** What the caller is told. */
  function Told(k: Kernel, call: Call): int
    requires WF(k) && k.current != NONE
  {
    match call
    case CreateCall(priority) =>
      if !(0 <= priority <= 3) then ERR_INVALID_PRIORITY
      else if k.lists[FREE_LIST] == [] then ERR_UNAVAILABLE_DESCRIPTOR
      else assert k.lists[FREE_LIST][0] in k.lists[FREE_LIST]; k.tasks[k.lists[FREE_LIST][0]].tid + |k.tasks|
    case ParentCall => MyParentTid(k)
    case PriorityCall(to) => if to > 3 then ERR_INVALID_PRIORITY else OK
    case SendCall(tid, _, msgLen, _, _, _) =>
      if !(0 <= tid <= LONG_MAX) then ERR_IMPOSSIBLE_TID
      else if !Reaches(k, tid) then ERR_NONEXISTENT_TASK
      else if k.tasks[Slot(|k.tasks|, tid)].state == SendBlocked then msgLen
      else OK
    case ReceiveCall(_, _, _, _, _) =>
      var box := k.mail[k.current];
      if box == [] then OK else assert box[0] in k.mail[k.current]; k.msgs[box[0]].msgLen
    case ReplyCall(tid, _, len) =>
      if !(0 <= tid <= LONG_MAX) then ERR_IMPOSSIBLE_TID
      else if !Reaches(k, tid) then ERR_NONEXISTENT_TASK
      else if k.tasks[Slot(|k.tasks|, tid)].state != ReplyBlocked then ERR_NOT_REPLY_BLOCKED
      else if len > k.msgs[Slot(|k.tasks|, tid)].replyLen then ERR_BUFFER_TOO_SMALL
      else OK
    case AwaitCall(_) => OK
    case DestroyCall(tid) =>
      if !(0 <= tid <= LONG_MAX) then ERR_IMPOSSIBLE_TID
      else if k.tasks[Slot(|k.tasks|, tid)].tid != tid then ERR_NONEXISTENT_TASK
      else OK
    case _ => k.tasks[k.current].ret
  }

  /** The task is in the subtree that the call destroys. */
  ghost predicate Kills(k: Kernel, call: Call, i: nat)
    requires WF(k) && Forest(k) && i < |k.tasks|
  {
    call.DestroyCall? && Accepted(k, call.tid) && Descends(k, Slot(|k.tasks|, call.tid), i)
  }

  /** The caller when the handler is done: blocked, an exited task, or able to go on. */
  ghost function CallerAfter(k: Kernel, call: Call): Task
    requires WF(k) && Forest(k) && k.current != NONE
  {
    var t := k.tasks[k.current].(ret := Told(k, call));
    match call
    case ExitCall => t.(state := Zombie)
    case PriorityCall(to) => if to > 3 then t else t.(priority := to)
    case SendCall(tid, _, _, _, _, _) =>
      if !Reaches(k, tid) then t
      else t.(state := if k.tasks[Slot(|k.tasks|, tid)].state == SendBlocked then ReplyBlocked else ReceiveBlocked)
    case ReceiveCall(_, _, _, _, _) => t.(state := if k.mail[k.current] == [] then SendBlocked else Ready)
    case AwaitCall(intr) => t.(state := EventBlocked, event := intr)
    case DestroyCall(_) => if Kills(k, call, k.current) then t.(state := Grave(k, k.current)) else t
    case _ => t
  }

  /** The call ends what the task is blocked on: a message for a receiver, the reception of the oldest
      message or the reply for a sender, an interrupt for the next of those who await it. */
  ghost predicate Releases(k: Kernel, call: Call, i: nat)
    requires WF(k) && k.current != NONE && i < |k.tasks|
  {
    var t := k.tasks[i];
    match t.state
    case SendBlocked => call.SendCall? && call.tid == t.tid
    case ReceiveBlocked => call.ReceiveCall? && k.mail[k.current] != [] && k.mail[k.current][0] == i
    case ReplyBlocked => call.ReplyCall? && call.tid == t.tid
    case EventBlocked => call.Interrupt? && call.code < 0 && NextWaiter(k, EventId(call.code), i)
    case _ => false
  }

  /** A task after what it was blocked on has ended. */
  function AfterRelease(t: Task, call: Call): Task {
    if t.state == ReceiveBlocked then t.(state := ReplyBlocked)
    else
      t.(state := Ready,
         ret := if call.SendCall? then call.msgLen else if call.ReplyCall? then call.len else ERR_COLLECT_DATA)
  }

  /** Anybody else when the handler is done. */
  ghost function OtherAfter(k: Kernel, call: Call, i: nat): Task
    requires WF(k) && Forest(k) && k.current != NONE && i < |k.tasks|
  {
    var t := k.tasks[i];
    if Kills(k, call, i) then t.(state := Grave(k, i))
    else if Creates(k, call) && k.lists[FREE_LIST][0] == i then
      Task(t.tid + |k.tasks|, Ready, call.priority, k.tasks[k.current].tid, NONE, t.ret)
    else if Releases(k, call, i) then AfterRelease(t, call)
    else t
  }

  ghost function After(k: Kernel, call: Call, i: nat): Task
    requires WF(k) && Forest(k) && k.current != NONE && i < |k.tasks|
  {
    if i == k.current then CallerAfter(k, call) else OtherAfter(k, call, i)
  }

  /** The message queues: a message joins the queue of a task that does not wait for one, and the oldest leaves
      when it is received. */
  function MailAfter(k: Kernel, call: Call): seq<seq<nat>>
    requires WF(k) && k.current != NONE
  {
    if call.SendCall? && Reaches(k, call.tid) && k.tasks[Slot(|k.tasks|, call.tid)].state != SendBlocked then
      Enlist(k.mail, Slot(|k.tasks|, call.tid), k.current)
    else if call.ReceiveCall? && k.mail[k.current] != [] then k.mail[k.current := k.mail[k.current][1..]]
    else k.mail
  }

  /** Tasks and queues are as the table says, and only the three message calls touch memory and records. */
  ghost predicate Tabled(k: Kernel, call: Call, k': Kernel)
    requires WF(k) && Forest(k) && k.current != NONE
  {
    && |k'.tasks| == |k.tasks| && k'.current == k.current
    && (forall i :: 0 <= i < |k.tasks| ==> k'.tasks[i] == After(k, call, i))
    && k'.mail == MailAfter(k, call)
    && (!call.SendCall? && !call.ReceiveCall? && !call.ReplyCall? ==>
          k'.mem == k.mem && k'.words == k.words && k'.msgs == k.msgs)
  }

  // ------------------------------------------------------------------ the handlers are in it

  lemma AnswerStores(k: Kernel, r: (Kernel, int), k': Kernel)
    requires WF(r.0) && r.0.current == k.current && 0 <= k.current < |r.0.tasks| && k' == Answer(r)
    ensures k'.tasks == r.0.tasks[k.current := r.0.tasks[k.current].(ret := r.1)] && k'.current == k.current
    ensures k'.mail == r.0.mail && k'.mem == r.0.mem && k'.words == r.0.words && k'.msgs == r.0.msgs
  {
    hide Ranked, Within;
  }

  lemma OwnCallTabled(k: Kernel, call: Call)
    requires Running(k) && CanCreate(k)
    requires call.PassCall? || call.ParentCall? || call.PriorityCall? || call.AwaitCall? || call.ExitCall?
    ensures Tabled(k, call, Handle(k, call))
  {
    hide Partition, Tids, Mail, Ledger, Forest, NullTask, CanCreate, Create, Destroy, Slot, Ranked, Within, Descends,
      MyParentTid, NextWaiter;
  }

  lemma CreateTabled(k: Kernel, call: Call)
    requires Running(k) && CanCreate(k) && call.CreateCall?
    ensures Tabled(k, call, Handle(k, call))
  {
    hide Partition, Tids, Mail, Ledger, Forest, NullTask, CanCreate, Create, Destroy, Slot, Ranked, Within, Descends,
      NextWaiter;
    if 0 <= call.priority <= 3 {
      if k.lists[FREE_LIST] == [] {
        NothingCreated(k, call.priority);
      } else {
        CreateEffect(k, call.priority);
        CreateLeaves(k, call.priority);
      }
    }
  }

  lemma RefusedSend(k: Kernel, call: Call)
    requires Running(k) && CanCreate(k) && call.SendCall? && !Reaches(k, call.tid)
    ensures Tabled(k, call, Handle(k, call))
  {
    hide Partition, Tids, Mail, Ledger, Forest, NullTask, CanCreate, Slot, Ranked, Within, Descends, Deliver,
      NextWaiter;
    forall i | 0 <= i < |k.tasks| && i != k.current ensures OtherAfter(k, call, i) == k.tasks[i] {
      if Code(k.tasks[i].state) > 0 { OnlyAliveWait(k, i); }
    }
  }

  /** Whoever waits in an exchange of messages is alive under its tid. */
  lemma OnlyAliveWait(k: Kernel, i: nat)
    requires WF(k) && Tids(k) && i < |k.tasks| && Code(k.tasks[i].state) > 0
    ensures Reaches(k, k.tasks[i].tid) && Slot(|k.tasks|, k.tasks[i].tid) == i
  {
    OwnSlot(k, i);
    hide Ranked, Within, Slot;
  }

  /** Somebody is released by a Send or a Reply exactly if it is the one addressed. */
  lemma Addressed(k: Kernel, call: Call, i: nat)
    requires Running(k) && i < |k.tasks| && (call.SendCall? || call.ReplyCall?) && Code(k.tasks[i].state) > 0
    ensures call.tid == k.tasks[i].tid <==> Reaches(k, call.tid) && Slot(|k.tasks|, call.tid) == i
  {
    OnlyAliveWait(k, i);
    hide Ranked, Within, Slot;
  }

  lemma PostedSend(k: Kernel, call: Call)
    requires Running(k) && CanCreate(k) && call.SendCall? && Reaches(k, call.tid)
    requires k.tasks[Slot(|k.tasks|, call.tid)].state != SendBlocked
    ensures Tabled(k, call, Handle(k, call))
  {
    hide Partition, Forest, Mail, Ledger, NullTask, CanCreate, Ranked, Within, Descends, Deliver, NextWaiter;
    OwnSlot(k, k.current);
    forall i | 0 <= i < |k.tasks| && Code(k.tasks[i].state) > 0
      ensures call.tid == k.tasks[i].tid <==> Slot(|k.tasks|, call.tid) == i
    {
      Addressed(k, call, i);
    }
    hide Slot, Tids;
  }

  /** A Send to a task that waits for one: both move on. */
  lemma ServedSend(k: Kernel, call: Call)
    requires Running(k) && call.SendCall? && Reaches(k, call.tid)
    requires k.tasks[Slot(|k.tasks|, call.tid)].state == SendBlocked
    ensures var q, r := Slot(|k.tasks|, call.tid), Sent(k, call);
            && r.0.current == k.current && q != k.current && r.0.mail == k.mail && r.1 == call.msgLen
            && r.0.tasks == k.tasks[k.current := k.tasks[k.current].(state := ReplyBlocked)]
                                   [q := k.tasks[q].(state := Ready, ret := call.msgLen)]
  {
    hide Partition, Forest, Ledger, NullTask, CanCreate, Ranked, Within, Deliver, ReadyGrows, MailBut;
    var q, c := Slot(|k.tasks|, call.tid), k.current;
    var m := Msg(CurrentTid(k), call.tid, call.junk.putTid, call.msg, call.msgLen, call.reply, call.replyLen,
                 call.junk.recv, call.junk.recvLen);
    PostKeeps(k, call.tid, m);
    OwnSlot(k, c);
    hide Slot, Tids;
    var k1 := Post(k, call.tid, m);
    var w := k1.msgs[q];
    var k2 := k1.(msgs := k1.msgs[c := m.(putTid := w.putTid, recv := w.recv, recvLen := w.recvLen)]);
    SameRecordsKept(k1, k2, q);
    ShapeKept(k1, k2);
    WaiterHasNoMail(k, q);
    assert k2.mail[q] == [c];
    Delivery(k2, q);
    DeliverReturns(k2, q);
    hide *;
    BothMoveOn(k, c, q, k1, k2, Deliver(k2, call.tid).0, call.msgLen);
  }

  lemma BothMoveOn(k: Kernel, c: nat, q: nat, k1: Kernel, k2: Kernel, k': Kernel, len: nat)
    requires Posted(k, c, q, k1) && k.mail[q] == [] && c != q && k.tasks[q].state == SendBlocked
    requires WF(k2) && k2.tasks == k1.tasks && k2.mail == k1.mail && k2.msgs[c].msgLen == len
    requires k2.current == c && WF(k') && Delivered(k2, c, q, k')
    ensures k'.current == c && k'.mail == k.mail
    ensures k'.tasks == k.tasks[c := k.tasks[c].(state := ReplyBlocked)][q := k.tasks[q].(state := Ready, ret := len)]
  {
    hide Ranked, Within, Slot, Tids;
    assert k.mail[q] + [c] == [c] && [c][1..] == [];
    assert k'.mail == k.mail[q := [c]][q := []];
  }

  function Sent(k: Kernel, call: Call): (r: (Kernel, int))
    requires WF(k) && k.current != NONE && call.SendCall?
    ensures WF(r.0) && |r.0.tasks| == |k.tasks|
  {
    Send(k, call.tid, call.msg, call.msgLen, call.reply, call.replyLen, call.junk)
  }

  lemma SendTabled(k: Kernel, call: Call)
    requires Running(k) && CanCreate(k) && call.SendCall?
    ensures Tabled(k, call, Handle(k, call))
  {
    hide Partition, Tids, Forest, Mail, Ledger, NullTask, CanCreate, Ranked, Within, Descends, Answer, Send,
      NextWaiter, Slot;
    if !Reaches(k, call.tid) {
      RefusedSend(k, call);
    } else if k.tasks[Slot(|k.tasks|, call.tid)].state != SendBlocked {
      PostedSend(k, call);
    } else {
      ServedSend(k, call);
      AnswerStores(k, Sent(k, call), Handle(k, call));
      forall i | 0 <= i < |k.tasks| && Code(k.tasks[i].state) > 0
        ensures call.tid == k.tasks[i].tid <==> Slot(|k.tasks|, call.tid) == i
      {
        Addressed(k, call, i);
      }
    }
  }

  function Got(k: Kernel, call: Call): (r: (Kernel, int))
    requires WF(k) && k.current != NONE && call.ReceiveCall?
    ensures WF(r.0) && |r.0.tasks| == |k.tasks|
  {
    Receive(k, call.put, call.buf, call.len, call.junk, call.oldest)
  }

  lemma Receiving(k: Kernel, call: Call)
    requires Running(k) && call.ReceiveCall?
    ensures var c, box, r := k.current, k.mail[k.current], Got(k, call);
            && r.0.current == c && r.1 == Told(k, call)
            && (box == [] ==> r.0.mail == k.mail && r.0.tasks == k.tasks[c := k.tasks[c].(state := SendBlocked)])
            && (box != [] ==>
                  && box[0] < |k.tasks| && box[0] != c && k.tasks[box[0]].state == ReceiveBlocked
                  && r.0.mail == k.mail[c := box[1..]]
                  && r.0.tasks == k.tasks[box[0] := k.tasks[box[0]].(state := ReplyBlocked)]
                                         [c := k.tasks[c].(state := Ready, ret := k.msgs[box[0]].msgLen)])
  {
    hide Partition, Tids, Forest, Ledger, NullTask, Ranked, Within, Deliver, ReadyGrows, MailBut, Slot;
    OwnSlot(k, k.current);
    var box := k.mail[k.current];
    if box != [] {
      var at := RecordFor(k, call.oldest);
      InBox(k, k.current);
      assert box[at] in box && box[0] in box;
      var m := k.msgs[box[at]].(putTid := call.put, recv := call.buf, recvLen := call.len);
      var k1 := k.(msgs := k.msgs[box[at] := m]);
      ShapeKept(k, k1);
      SameRecordsKept(k, k1, NONE);
      WithoutException(k1, k.current);
      Delivery(k1, k.current);
      DeliverReturns(k1, k.current);
      NotWaiting(k, k.current, box[0]);
    }
  }

  lemma ReceiveTabled(k: Kernel, call: Call)
    requires Running(k) && CanCreate(k) && call.ReceiveCall?
    ensures Tabled(k, call, Handle(k, call))
  {
    hide Partition, Tids, Forest, Mail, Ledger, NullTask, CanCreate, Ranked, Within, Descends, Receive, Slot,
      NextWaiter, Answer, Told;
    Receiving(k, call);
    AnswerStores(k, Got(k, call), Handle(k, call));
    NoneKilled(k, call);
  }

  lemma Replied(k: Kernel, call: Call)
    requires Running(k) && call.ReplyCall?
    ensures var i, r := Slot(|k.tasks|, call.tid), Reply(k, call.tid, call.buf, call.len);
            && r.0.current == k.current && r.0.mail == k.mail && r.1 == Told(k, call)
            && r.0.tasks == if Reaches(k, call.tid) && k.tasks[i].state == ReplyBlocked
                            then k.tasks[i := k.tasks[i].(state := Ready, ret := call.len)] else k.tasks
  {
    hide Partition, Forest, Mail, Ledger, NullTask, Ranked, Within, CopyBytes, Slot, Tids;
    if Reaches(k, call.tid) && k.tasks[Slot(|k.tasks|, call.tid)].state == ReplyBlocked {
      RecordIsOwn(k, Slot(|k.tasks|, call.tid));
    }
  }

  lemma ReplyTabled(k: Kernel, call: Call)
    requires Running(k) && CanCreate(k) && call.ReplyCall?
    ensures Tabled(k, call, Handle(k, call))
  {
    hide Partition, Tids, Forest, Mail, Ledger, NullTask, CanCreate, Ranked, Within, Descends, NextWaiter, Answer,
      Reply, Slot, Told, Reaches;
    Replied(k, call);
    AnswerStores(k, Reply(k, call.tid, call.buf, call.len), Handle(k, call));
    forall i | 0 <= i < |k.tasks| && Code(k.tasks[i].state) > 0
      ensures call.tid == k.tasks[i].tid <==> Reaches(k, call.tid) && Slot(|k.tasks|, call.tid) == i
    {
      Addressed(k, call, i);
    }
  }

  lemma Destroyed(k: Kernel, call: Call)
    requires Running(k) && call.DestroyCall? && Enabled(k, call)
    ensures var r := Destroy(k, call.tid);
            && r.0.current == k.current && r.0.mail == k.mail && r.1 == Told(k, call) && |r.0.tasks| == |k.tasks|
            && r.0.mem == k.mem && r.0.words == k.words && r.0.msgs == k.msgs
            && forall i :: 0 <= i < |k.tasks| ==>
                 r.0.tasks[i] == if Kills(k, call, i) then k.tasks[i].(state := Grave(k, i)) else k.tasks[i]
  {
    hide Partition, Tids, Forest, Mail, Ledger, NullTask, Ranked, Within, Descends, Slot, Destroy, Buried,
      SubtreeQuiet, Cut, Grave, DeathRow, Tables, Severed;
    DestroyTold(k, call);
    if Accepted(k, call.tid) {
      DestroyEffect(k, call.tid);
      CutTasks(k, Slot(|k.tasks|, call.tid), Destroy(k, call.tid).0);
    } else {
      RejectedDestroy(k, call.tid);
    }
  }

  lemma DestroyTold(k: Kernel, call: Call)
    requires Running(k) && call.DestroyCall?
    ensures Destroy(k, call.tid).1 == Told(k, call)
  {
    hide Partition, Tids, Forest, Mail, Ledger, NullTask, Ranked, Within, Slot, Destroy;
    DestroyResults(k, call.tid, k.current);
    assert k.(current := k.current) == k;
  }

  lemma CutTasks(k: Kernel, i: nat, k': Kernel)
    requires Cut(k, i, k')
    ensures k'.current == k.current && k'.mail == k.mail && |k'.tasks| == |k.tasks|
    ensures k'.mem == k.mem && k'.words == k.words && k'.msgs == k.msgs
    ensures forall x :: 0 <= x < |k.tasks| ==>
              k'.tasks[x] == if Descends(k, i, x) then k.tasks[x].(state := Grave(k, x)) else k.tasks[x]
  {
    hide Descends, Slot, Ranked, Within, Forest, Grave;
  }

  lemma DestroyTabled(k: Kernel, call: Call)
    requires Running(k) && CanCreate(k) && call.DestroyCall? && Enabled(k, call)
    ensures Tabled(k, call, Handle(k, call))
  {
    hide Partition, Tids, Forest, Mail, Ledger, NullTask, CanCreate, Ranked, Within, NextWaiter, Slot, Destroy,
      SubtreeQuiet, Kills, Answer, Told, Grave;
    Destroyed(k, call);
    AnswerStores(k, Destroy(k, call.tid), Handle(k, call));
  }

  lemma NoneKilled(k: Kernel, call: Call)
    requires WF(k) && Forest(k) && !call.DestroyCall?
    ensures forall i :: 0 <= i < |k.tasks| ==> !Kills(k, call, i)
  {
  }

  lemma InterruptTabled(k: Kernel, call: Call)
    requires Running(k) && CanCreate(k) && call.Interrupt?
    ensures Tabled(k, call, Handle(k, call))
  {
    hide Partition, Tids, Forest, Mail, Ledger, NullTask, CanCreate, Ranked, Within, Descends, Handle, EventId, Behind;
    InterruptExact(k, call.code);
    if call.code < 0 {
      var intr := EventId(call.code);
      if exists i: nat :: Awaits(k, intr, i) {
        var i: nat :| NextWaiter(k, intr, i) && Handle(k, call) == WokenUp(k, i);
        forall j: nat | j < |k.tasks| && NextWaiter(k, intr, j) ensures j == i {
          OneNextWaiter(k, intr, i, j);
        }
      }
    }
  }

  /** Any call's handler is in the table. */
  lemma HandleTabled(k: Kernel, call: Call)
    requires Running(k) && CanCreate(k) && Enabled(k, call) && !call.Store?
    ensures Tabled(k, call, Handle(k, call))
  {
    hide Core, NullTask, CanCreate, Handle, Tabled, Enabled;
    match call {
      case CreateCall(_) => CreateTabled(k, call);
      case SendCall(_, _, _, _, _, _) => SendTabled(k, call);
      case ReceiveCall(_, _, _, _, _) => ReceiveTabled(k, call);
      case ReplyCall(_, _, _) => ReplyTabled(k, call);
      case DestroyCall(_) => DestroyTabled(k, call);
      case Interrupt(_) => InterruptTabled(k, call);
      case _ => OwnCallTabled(k, call);
    }
  }

  // ------------------------------------------------------------------ with the scheduling decision that follows

  /** A decision takes the processor from one task and gives it to another, and changes nothing else of anybody. */
  function Decided(t: Task, runs: bool): Task {
    t.(state := if runs then Active else if t.state == Active then Ready else t.state)
  }

  lemma DecisionTabled(k: Kernel)
    requires Core(k) && NullTask(k)
    ensures var k' := Schedule(k);
            && |k'.tasks| == |k.tasks| && 0 <= k'.current < |k.tasks| && k'.mail == k.mail && k'.mem == k.mem
            && k'.words == k.words && k'.msgs == k.msgs
            && (k.tasks[k'.current].state == Ready || k.tasks[k'.current].state == Active)
            && forall i :: 0 <= i < |k.tasks| ==> k'.tasks[i] == Decided(k.tasks[i], i == k'.current)
  {
    hide Slot, Ranked, Within, Partition, Tids, Forest, Mail, Ledger, NullTask, Requeue, ReadyGrows, ListOf;
    NullIsReady(k);
    RequeueKeeps(k);
    RequeueSpares(k);
    HeadIsPicked(k);
    HeadIsReady(k);
  }

  lemma RequeueSpares(k: Kernel)
    requires WF(k)
    ensures Requeue(k).mail == k.mail && Requeue(k).mem == k.mem && Requeue(k).words == k.words
    ensures Requeue(k).msgs == k.msgs
  {
    hide Ranked, Within, Enlist, ListOf;
  }

  lemma HeadIsReady(k: Kernel)
    requires Core(k) && NullTask(k)
    ensures 0 <= Schedule(k).current < |k.tasks| && Requeue(k).tasks[Schedule(k).current].state == Ready
  {
    hide Slot, Ranked, Within, Partition, Tids, Forest, Mail, Ledger, NullTask, Requeue, ReadyGrows;
    NullIsReady(k);
    RequeueKeeps(k);
    ReadyHome(Requeue(k).(current := NONE), ReadyPriority(Requeue(k).lists, HIGHEST_PRIORITY));
  }

  /** One whole step: every task is what the table says, but for who runs. */
  lemma StepTabled(k: Kernel, call: Call)
    requires Running(k) && Enabled(k, call) && !call.Store?
    ensures CanCreate(k)
    ensures var k' := Step(k, call);
            && |k'.tasks| == |k.tasks| && 0 <= k'.current < |k.tasks| && k'.mail == MailAfter(k, call)
            && (forall i :: 0 <= i < |k.tasks| ==> k'.tasks[i] == Decided(After(k, call, i), i == k'.current))
            && (After(k, call, k'.current).state == Ready || After(k, call, k'.current).state == Active)
            && (!call.SendCall? && !call.ReceiveCall? && !call.ReplyCall? ==>
                  k'.mem == k.mem && k'.words == k.words && k'.msgs == k.msgs)
  {
    hide Partition, Tids, Forest, Mail, Ledger, NullTask, CanCreate, Ranked, Within, Slot, Handle, Schedule, Enabled,
      After, MailAfter, Decided;
    StepKeeps(k, call);
    HandleKeeps(k, call);
    NullStays(k, call);
    HandleTabled(k, call);
    DecisionTabled(Handle(k, call));
  }

  /** A store changes one byte. */
  lemma StoreExact(k: Kernel, call: Call)
    requires Running(k) && CanCreate(k) && call.Store?
    ensures var k' := Step(k, call);
            && k' == k.(mem := k'.mem)
            && forall a {:trigger Load(k'.mem, a)} ::
                 Load(k'.mem, a) == if a == call.addr then call.value else Load(k.mem, a)
  {
    hide Core, NullTask, CanCreate, Handle, Schedule;
  }

  // ------------------------------------------------------------------ blocked until released

  predicate Blocked(st: TaskState) {
    st == SendBlocked || st == ReceiveBlocked || st == ReplyBlocked || st == EventBlocked
  }

  /** The call ends what the task is blocked on, or the task. */
  ghost predicate Unblocks(k: Kernel, call: Call, i: nat)
    requires WF(k) && Forest(k) && k.current != NONE && i < |k.tasks|
  {
    !call.Store? && (Releases(k, call, i) || Kills(k, call, i))
  }

  /** A blocked task stays exactly as it is through every step that does not end what it is blocked on. */
  lemma StepOnBlocked(k: Kernel, call: Call, i: nat)
    requires Running(k) && Enabled(k, call) && i < |k.tasks| && Blocked(k.tasks[i].state)
    ensures CanCreate(k)
    ensures !Unblocks(k, call, i) ==> Step(k, call).tasks[i] == k.tasks[i]
    ensures Unblocks(k, call, i) ==>
              Step(k, call).tasks[i] ==
              Decided(if Kills(k, call, i) then k.tasks[i].(state := Grave(k, i)) else AfterRelease(k.tasks[i], call),
                      i == Step(k, call).current)
  {
    hide Partition, Tids, Mail, Ledger, NullTask, CanCreate, Ranked, Within, Slot, Step, Enabled, Kills, Releases,
      Forest;
    if call.Store? {
      StepKeeps(k, call);
      StoreExact(k, call);
    } else {
      StepTabled(k, call);
      HeadOfFree(k, i);
    }
  }

  lemma HeadOfFree(k: Kernel, i: nat)
    requires WF(k) && Partition(k) && i < |k.tasks| && k.tasks[i].state != Free
    ensures k.lists[FREE_LIST] != [] ==> k.lists[FREE_LIST][0] != i
  {
    FirstIn(k.lists[FREE_LIST]);
    if k.lists[FREE_LIST] != [] { HomeOf(k, k.lists[FREE_LIST][0], FREE_LIST); }
  }

  /** Over any run a blocked task stays as it is until a call ends what it is blocked on: j is the position of
      that call, or the end of the run. */
  lemma {:induction false} BlockedUntil(k: Kernel, calls: seq<Call>, i: nat) returns (j: nat)
    requires Running(k) && Legal(k, calls) && i < |k.tasks| && Blocked(k.tasks[i].state)
    ensures j <= |calls|
    ensures j == |calls| ==> |Run(k, calls).tasks| == |k.tasks| && Run(k, calls).tasks[i] == k.tasks[i]
    ensures j < |calls| ==>
              var b := Before(k, calls, j);
              |b.tasks| == |k.tasks| && b.tasks[i] == k.tasks[i] && Unblocks(b, calls[j], i)
    decreases |calls|
  {
    hide Partition, Tids, Forest, Mail, Ledger, NullTask, CanCreate, Ranked, Within, Step, Enabled, Unblocks;
    j := 0;
    if calls != [] && !Unblocks(k, calls[0], i) {
      StepKeeps(k, calls[0]);
      StepOnBlocked(k, calls[0], i);
      j := BlockedUntil(Step(k, calls[0]), calls[1..], i);
      j := j + 1;
    }
  }

  // ------------------------------------------------------------------ interrupts, over runs

  /** A task that awaits an event goes on awaiting it over any run, until an interrupt of a line with that event
      finds it to be the next in line, or it is destroyed. */
  lemma AwaitsUntil(k: Kernel, intr: int, calls: seq<Call>) returns (j: nat)
    requires Running(k) && k.current != 0
    ensures Enabled(k, AwaitCall(intr)) && CanCreate(k) && Running(Step(k, AwaitCall(intr)))
    ensures var i, k1 := k.current, Step(k, AwaitCall(intr));
            && Awaits(k1, intr, i)
            && (Legal(k1, calls) ==>
                  && j <= |calls|
                  && (j == |calls| ==> Awaits(Run(k1, calls), intr, i))
                  && (j < |calls| ==>
                        var b, call := Before(k1, calls, j), calls[j];
                        && Awaits(b, intr, i)
                        && ((call.Interrupt? && call.code < 0 && EventId(call.code) == intr &&
                             NextWaiter(b, intr, i)) ||
                            Kills(b, call, i))))
  {
    hide Partition, Tids, Forest, Mail, Ledger, NullTask, CanCreate, Ranked, Within, Step, Kills, Legal, Run,
      MailAfter, EventId;
    var i, call := k.current, AwaitCall(intr);
    StepKeeps(k, call);
    StepTabled(k, call);
    var k1 := Step(k, call);
    j := 0;
    if Legal(k1, calls) {
      j := BlockedUntil(k1, calls, i);
    }
  }

  /** Not used yet, or able to run. */
  predicate New(st: TaskState) {
    st == Free || st == Ready || st == Active
  }

  /** At boot nobody is blocked, and no descriptor is retired. */
  lemma BootIsNew(n: nat)
    requires 2 <= n <= LONG_MAX
    ensures Running(Boot(n)) && Boot(n).current == 1 && |Boot(n).tasks| == n
    ensures forall i :: 0 <= i < n ==> New(Boot(n).tasks[i].state)
  {
    hide Partition, Tids, Forest, Mail, Ledger, NullTask, Ranked, Within, CanCreate, Create, Schedule;
    BootSpare(n);
    var k0 := InitState(n);
    InitHolds(n);
    CreateKeeps(k0, NULL_PRIORITY);
    CreateEffect(k0, NULL_PRIORITY);
    var k1 := Create(k0, NULL_PRIORITY).0;
    CreateKeeps(k1, LOW_PRIORITY);
    CreateEffect(k1, LOW_PRIORITY);
    ScheduleNew(Create(k1, LOW_PRIORITY).0);
  }

  lemma ScheduleNew(k: Kernel)
    requires WF(k)
    ensures forall i :: 0 <= i < |k.tasks| && New(k.tasks[i].state) ==> New(Schedule(k).tasks[i].state)
  {
    hide Ranked, Within, ReadyPriority, Requeue, ListOf;
    RequeueFrame(k);
  }

  /** From boot, for every size and each of the lines that are not ignored: the first task awaits the line's
      event, the line interrupts, and the task is told to collect its data. */
  lemma AwaitedIsWoken(n: nat, line: int)
    requires 2 <= n <= LONG_MAX && 0 < line < 32
    ensures Running(Boot(n)) && Legal(Boot(n), [AwaitCall(EventId(-line)), Interrupt(-line)])
    ensures var k := Run(Boot(n), [AwaitCall(EventId(-line)), Interrupt(-line)]);
            |k.tasks| == n && k.tasks[1].state != EventBlocked && k.tasks[1].ret == ERR_COLLECT_DATA
  {
    hide Partition, Tids, Forest, Mail, Ledger, NullTask, ActiveIsCurrent, Ranked, Within, CanCreate, Boot, Step,
      Enabled, Legal, Run, AllZombiesDestroyed, ZombiesDestroyed, EventId, Awaits;
    var intr := EventId(-line);
    var await, interrupt := AwaitCall(intr), Interrupt(-line);
    BootIsNew(n);
    SoleWaiter(Boot(n), intr);
    OneMoreCall(Boot(n), await, [interrupt]);
    var k1 := Step(Boot(n), await);
    WaiterIsWoken(k1, -line, 1);
    OneMoreCall(k1, interrupt, []);
    NothingMore(Step(k1, interrupt));
    assert [interrupt] + [] == [interrupt] && [await] + [interrupt] == [await, interrupt];
  }

  lemma SoleWaiter(k: Kernel, intr: int)
    requires Running(k) && k.current == 1 && forall i :: 0 <= i < |k.tasks| ==> k.tasks[i].state != EventBlocked
    ensures Enabled(k, AwaitCall(intr)) && CanCreate(k)
    ensures forall i: nat :: Awaits(Step(k, AwaitCall(intr)), intr, i) <==> i == 1
  {
    hide Partition, Tids, Forest, Mail, Ledger, NullTask, CanCreate, Ranked, Within, Step, MailAfter;
    StepKeeps(k, AwaitCall(intr));
    StepTabled(k, AwaitCall(intr));
  }

  lemma WaiterIsWoken(k: Kernel, code: int, i: nat)
    requires Running(k) && code < 0 && forall j: nat :: Awaits(k, EventId(code), j) <==> j == i
    ensures Enabled(k, Interrupt(code)) && CanCreate(k)
    ensures i < |k.tasks| == |Step(k, Interrupt(code)).tasks|
    ensures var t := Step(k, Interrupt(code)).tasks[i]; t.state != EventBlocked && t.ret == ERR_COLLECT_DATA
  {
    hide Partition, Tids, Forest, Mail, Ledger, NullTask, CanCreate, Ranked, Within, Step, MailAfter, EventId, Kills,
      Behind;
    var call := Interrupt(code);
    StepKeeps(k, call);
    assert Awaits(k, EventId(code), i);
    InterruptExact(k, code);
    StepOnBlocked(k, call, i);
    NoneKilled(k, call);
  }
}
