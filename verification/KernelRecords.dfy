/** What the message records hold, and the record of a waiting receiver in particular. */
module KernelRecords {
  import opened Lists
  import opened KernelModel
  import opened KernelInvariant
  import opened KernelSteps
  import opened KernelDestroy
  import opened KernelRuns
  import opened KernelTheorems

  // ------------------------------------------------------------------ what handlers leave alone

  lemma UnblockFrame(k: Kernel, intr: int, priority: nat)
    requires WF(k) && priority <= NUM_PRIORITIES
    ensures var k' := UnblockFrom(k, intr, priority);
            && k'.msgs == k.msgs && k'.mem == k.mem && k'.mail == k.mail
            && forall i :: 0 <= i < |k.tasks| ==> k'.tasks[i].tid == k.tasks[i].tid
    decreases NUM_PRIORITIES - priority
  {
    hide Ranked, Slot;
    if priority < NUM_PRIORITIES && FirstAwaiting(k.tasks, k.lists[ListOf(EventBlocked, priority)], intr) == NONE {
      UnblockFrame(k, intr, priority + 1);
    }
  }

  lemma RequeueFrame(k: Kernel)
    requires WF(k)
    ensures Requeue(k).msgs == k.msgs && Requeue(k).mem == k.mem && Requeue(k).current == k.current
    ensures Requeue(k).mail == k.mail
    ensures forall i :: 0 <= i < |k.tasks| ==>
              Requeue(k).tasks[i] == k.tasks[i] || Requeue(k).tasks[i] == k.tasks[i].(state := Ready)
  {
    hide Ranked, Within, Enlist, ListOf;
  }

  lemma ScheduleFrame(k: Kernel)
    requires WF(k)
    ensures Schedule(k).msgs == k.msgs && Schedule(k).mem == k.mem && Schedule(k).mail == k.mail
    ensures forall i :: 0 <= i < |k.tasks| ==>
              Schedule(k).tasks[i].tid == k.tasks[i].tid &&
              (Schedule(k).tasks[i].state == k.tasks[i].state || Calm(Schedule(k).tasks[i].state))
  {
    hide Ranked, Within, ReadyPriority, Requeue, ListOf;
    RequeueFrame(k);
  }

  lemma DeliverRecords(k: Kernel, tid: int)
    requires WF(k) && k.mail[Slot(|k.tasks|, tid)] != []
    ensures Deliver(k, tid).0.msgs == k.msgs
  {
    FirstIn(k.mail[Slot(|k.tasks|, tid)]);
    hide Ranked, Within, Slot, CopyBytes;
  }

  lemma SendRecords(k: Kernel, tid: int, msg: int, msgLen: nat, reply: int, replyLen: nat, junk: Msg)
    requires Running(k)
    ensures forall j :: 0 <= j < |k.tasks| && j != k.current ==>
              Send(k, tid, msg, msgLen, reply, replyLen, junk).0.msgs[j] == k.msgs[j]
  {
    hide Partition, Forest, Ledger, Ranked, Within, MailBut, NullTask, Deliver, Tids;
    assert Slot(|k.tasks|, CurrentTid(k)) == k.current by { OwnSlot(k, k.current); }
    if IsValidTid(tid) && IsTaskAlive(k, tid) {
      var m := Msg(CurrentTid(k), tid, junk.putTid, msg, msgLen, reply, replyLen, junk.recv, junk.recvLen);
      var k1 := Post(k, tid, m);
      var w := k1.msgs[Slot(|k.tasks|, tid)];
      var k2 := k1.(msgs := k1.msgs[k.current := m.(putTid := w.putTid, recv := w.recv, recvLen := w.recvLen)]);
      DeliverRecords(k2, tid);
    }
  }

  lemma ReceiveRecords(k: Kernel, put: int, buf: int, len: nat, junk: Msg, oldest: bool, i: nat)
    requires Running(k) && i < |k.tasks| && k.tasks[i].state == SendBlocked
    ensures Receive(k, put, buf, len, junk, oldest).0.msgs[i] == k.msgs[i]
  {
    hide Partition, Forest, Ledger, Ranked, Within, MailBut, NullTask, Deliver, Tids, Slot;
    OwnSlot(k, k.current);
    var box := k.mail[k.current];
    if box != [] {
      InBox(k, k.current);
      var j := box[RecordFor(k, oldest)];
      assert j in box;
      NotWaiting(k, k.current, j);
      DeliverRecords(k.(msgs := k.msgs[j := k.msgs[j].(putTid := put, recv := buf, recvLen := len)]), CurrentTid(k));
    }
  }

  lemma NotWaiting(k: Kernel, r: nat, j: nat)
    requires WF(k) && Mail(k) && r < |k.tasks| && j in k.mail[r]
    ensures j < |k.tasks| && k.tasks[j].state == ReceiveBlocked
  {
    assert QueueOk(k, r);
  }

  lemma DestroyRecords(k: Kernel, tid: int)
    requires Running(k)
    ensures Destroy(k, tid).0.msgs == k.msgs
  {
    hide Partition, Forest, Ledger, Ranked, Within, MailBut, NullTask, Tids, Slot;
    if Accepted(k, tid) {
      var i := Slot(|k.tasks|, tid);
      var order := DeathRow(k, tid);
      SeveredWF(k, i, order);
      ReapAllRecords(k.(kids := Severed(k.kids, i, order)), order);
    }
  }

  lemma {:induction false} ReapAllRecords(k: Kernel, order: seq<nat>)
    requires WF(k) && forall i :: i in order ==> i < |k.tasks|
    ensures ReapAll(k, order).msgs == k.msgs
    decreases |order|
  {
    hide Ranked, Within, Slot;
    if order != [] {
      var front := order[..|order| - 1];
      assert order[|order| - 1] in order && forall i :: i in front ==> i in order;
      ReapAllRecords(k, front);
    }
  }

  /** The record of a waiting receiver keeps naming the buffer of its own Receive. */
  lemma WaitingRecordStays(k: Kernel, call: Call, i: nat)
    requires Running(k) && CanCreate(k) && !call.Store? && i < |k.tasks| && k.tasks[i].state == SendBlocked
    ensures Handle(k, call).msgs[i] == k.msgs[i]
  {
    hide Partition, Forest, Ledger, Ranked, Within, MailBut, NullTask, CanCreate, Deliver, UnblockFrom, ReapAll,
      PostOrder;
    OwnSlot(k, k.current);
    hide Slot, Tids;
    match call {
      case SendCall(tid, msg, msgLen, reply, replyLen, junk) =>
        SendRecords(k, tid, msg, msgLen, reply, replyLen, junk);
      case ReceiveCall(put, buf, len, junk, oldest) =>
        ReceiveRecords(k, put, buf, len, junk, oldest, i);
      case DestroyCall(tid) =>
        DestroyRecords(k, tid);
      case Interrupt(code) =>
        if code < 0 { UnblockFrame(k, EventId(code), HIGHEST_PRIORITY); }
      case _ =>
    }
  }

  // ------------------------------------------------------------------ who starts to wait

  /** Nobody starts to wait for a message. */
  ghost predicate NoNewWaiter(k: Kernel, k': Kernel) {
    && |k'.tasks| == |k.tasks|
    && forall i :: 0 <= i < |k.tasks| && k'.tasks[i].state == SendBlocked ==> k.tasks[i].state == SendBlocked
  }

  lemma DeliverStates(k: Kernel, tid: int)
    requires WF(k) && k.mail[Slot(|k.tasks|, tid)] != []
    ensures NoNewWaiter(k, Deliver(k, tid).0)
  {
    hide Ranked, Within, Slot, CopyBytes;
  }

  lemma SendStates(k: Kernel, tid: int, msg: int, msgLen: nat, reply: int, replyLen: nat, junk: Msg)
    requires Running(k)
    ensures NoNewWaiter(k, Send(k, tid, msg, msgLen, reply, replyLen, junk).0)
  {
    hide Partition, Forest, Ledger, Ranked, Within, MailBut, NullTask, Deliver, Tids;
    assert Slot(|k.tasks|, CurrentTid(k)) == k.current by { OwnSlot(k, k.current); }
    if IsValidTid(tid) && IsTaskAlive(k, tid) {
      var m := Msg(CurrentTid(k), tid, junk.putTid, msg, msgLen, reply, replyLen, junk.recv, junk.recvLen);
      var k1 := Post(k, tid, m);
      var w := k1.msgs[Slot(|k.tasks|, tid)];
      DeliverStates(k1.(msgs := k1.msgs[k.current := m.(putTid := w.putTid, recv := w.recv, recvLen := w.recvLen)]),
                    tid);
    }
  }

  lemma ReceiveStates(k: Kernel, put: int, buf: int, len: nat, junk: Msg, oldest: bool)
    requires Running(k) && k.mail[k.current] != []
    ensures NoNewWaiter(k, Receive(k, put, buf, len, junk, oldest).0)
  {
    hide Partition, Forest, Ledger, Ranked, Within, MailBut, NullTask, Deliver, Tids, Slot;
    OwnSlot(k, k.current);
    InBox(k, k.current);
    var i := k.mail[k.current][RecordFor(k, oldest)];
    assert i in k.mail[k.current];
    DeliverStates(k.(msgs := k.msgs[i := k.msgs[i].(putTid := put, recv := buf, recvLen := len)]), CurrentTid(k));
  }

  lemma UnblockStates(k: Kernel, intr: int, priority: nat)
    requires WF(k) && priority <= NUM_PRIORITIES
    ensures NoNewWaiter(k, UnblockFrom(k, intr, priority))
    decreases NUM_PRIORITIES - priority
  {
    hide Ranked, Slot;
    if priority < NUM_PRIORITIES && FirstAwaiting(k.tasks, k.lists[ListOf(EventBlocked, priority)], intr) == NONE {
      UnblockStates(k, intr, priority + 1);
    }
  }

  lemma DestroyStates(k: Kernel, tid: int)
    requires Running(k) && DestroyInBounds(k, tid)
    ensures NoNewWaiter(k, Destroy(k, tid).0)
  {
    hide Partition, Tids, Forest, Ledger, Mail, NullTask, Ranked, Within, Slot, Destroy, Descends, Buried;
    if Accepted(k, tid) { DestroyEffect(k, tid); } else { RejectedDestroy(k, tid); }
  }

  lemma CreateStates(k: Kernel, priority: nat)
    requires WF(k) && CanCreate(k) && priority < NUM_PRIORITIES
    ensures NoNewWaiter(k, Create(k, priority).0)
  {
    hide Ranked, Within;
  }

  lemma ReplyStates(k: Kernel, tid: int, buf: int, len: nat)
    requires WF(k) && k.current != NONE
    ensures NoNewWaiter(k, Reply(k, tid, buf, len).0)
  {
    hide Ranked, Within, Slot, CopyBytes;
  }

  /** Whoever starts to wait does so in a Receive that finds no message. */
  lemma OnlyReceiveWaits(k: Kernel, call: Call)
    requires Running(k) && CanCreate(k) && !call.Store? && Enabled(k, call)
    requires !(call.ReceiveCall? && k.mail[k.current] == [])
    ensures NoNewWaiter(k, Handle(k, call))
  {
    hide Partition, Tids, Forest, Ledger, Mail, NullTask, Ranked, Within, Slot, CanCreate, Create, Send, Receive,
      Reply, Destroy, UnblockFrom, SubtreeQuiet;
    match call {
      case CreateCall(priority) =>
        if HIGHEST_PRIORITY <= priority <= LOW_PRIORITY { CreateStates(k, priority); }
      case ReplyCall(tid, buf, len) =>
        ReplyStates(k, tid, buf, len);
      case SendCall(tid, msg, msgLen, reply, replyLen, junk) =>
        SendStates(k, tid, msg, msgLen, reply, replyLen, junk);
      case ReceiveCall(put, buf, len, junk, oldest) =>
        ReceiveStates(k, put, buf, len, junk, oldest);
      case DestroyCall(tid) =>
        DestroyStates(k, tid);
      case Interrupt(code) =>
        if code < 0 { UnblockStates(k, EventId(code), HIGHEST_PRIORITY); }
      case _ =>
    }
  }

  // ------------------------------------------------------------------ the record of a waiting receiver

  /** What a task passed to the Receive it waits in. */
  datatype Named = Named(put: int, buf: int, len: nat)

  /** A Receive that finds no message is remembered. */
  function Names(k: Kernel, call: Call, named: map<nat, Named>): map<nat, Named>
    requires WF(k) && k.current != NONE
  {
    if call.ReceiveCall? && k.mail[k.current] == [] then named[k.current := Named(call.put, call.buf, call.len)]
    else named
  }

  /** The record of every waiting receiver holds what it passed to its Receive. */
  ghost predicate RecordsNamed(k: Kernel, named: map<nat, Named>)
    requires WF(k)
  {
    forall i :: 0 <= i < |k.tasks| && k.tasks[i].state == SendBlocked ==>
      i in named && Named(k.msgs[i].putTid, k.msgs[i].recv, k.msgs[i].recvLen) == named[i]
  }

  lemma ReceiveNames(k: Kernel, call: Call)
    requires Running(k) && CanCreate(k) && call.ReceiveCall? && k.mail[k.current] == []
    ensures var k', c := Handle(k, call), k.current;
            && Named(k'.msgs[c].putTid, k'.msgs[c].recv, k'.msgs[c].recvLen) == Named(call.put, call.buf, call.len)
            && |k'.tasks| == |k.tasks|
            && forall i :: 0 <= i < |k.tasks| && i != c ==> k'.tasks[i].state == k.tasks[i].state
  {
    hide Partition, Forest, Ledger, Mail, NullTask, Ranked, Within, CanCreate, Slot, Tids;
    OwnSlot(k, k.current);
  }

  lemma StepNames(k: Kernel, call: Call, named: map<nat, Named>)
    requires Running(k) && Enabled(k, call) && CanCreate(k) && RecordsNamed(k, named)
    ensures RecordsNamed(Step(k, call), Names(k, call, named))
  {
    hide Partition, Tids, Forest, Ledger, Mail, NullTask, Ranked, Within, Slot, CanCreate, Handle, Schedule, Enabled;
    if !call.Store? {
      var k1 := Handle(k, call);
      forall i | 0 <= i < |k.tasks| && k1.tasks[i].state == SendBlocked
        ensures i in Names(k, call, named)
        ensures Named(k1.msgs[i].putTid, k1.msgs[i].recv, k1.msgs[i].recvLen) == Names(k, call, named)[i]
      {
        if call.ReceiveCall? && k.mail[k.current] == [] {
          ReceiveNames(k, call);
        } else {
          OnlyReceiveWaits(k, call);
        }
        if i != k.current || !call.ReceiveCall? || k.mail[k.current] != [] {
          WaitingRecordStays(k, call, i);
        }
      }
      ScheduleFrame(k1);
    }
  }

  ghost function NamedDuring(k: Kernel, calls: seq<Call>, named: map<nat, Named>): map<nat, Named>
    requires Running(k) && Legal(k, calls)
    decreases |calls|
  {
    if calls == [] then named
    else
      StepKeeps(k, calls[0]);
      NamedDuring(Step(k, calls[0]), calls[1..], Names(k, calls[0], named))
  }

  lemma {:induction false} RunNames(k: Kernel, calls: seq<Call>, named: map<nat, Named>)
    requires Running(k) && Legal(k, calls) && RecordsNamed(k, named)
    ensures RecordsNamed(Run(k, calls), NamedDuring(k, calls, named))
    decreases |calls|
  {
    hide Partition, Tids, Forest, Ledger, Mail, NullTask, Ranked, Within, CanCreate, RecordsNamed, Step, Enabled, Names;
    if calls != [] {
      StepKeeps(k, calls[0]);
      StepNames(k, calls[0], named);
      RunNames(Step(k, calls[0]), calls[1..], Names(k, calls[0], named));
    }
  }

  // ------------------------------------------------------------------ from boot

  ghost predicate AllCalm(k: Kernel) {
    && |k.mail| == |k.tasks|
    && forall i :: 0 <= i < |k.tasks| ==> Calm(k.tasks[i].state) && k.mail[i] == []
  }

  lemma CreateCalm(k: Kernel, priority: nat)
    requires Core(k) && AllCalm(k) && k.current == NONE && priority < NUM_PRIORITIES
    ensures CanCreate(k) && AllCalm(Create(k, priority).0) && Create(k, priority).0.current == NONE
  {
    hide Partition, Tids, Forest, Mail, Ledger, Ranked, Within, CanCreate, Create;
    CreateListsCurrent(k, priority);
    if k.lists[FREE_LIST] != [] {
      CreateEffect(k, priority);
    } else {
      NothingCreated(k, priority);
    }
  }

  lemma NothingCreated(k: Kernel, priority: nat)
    requires WF(k) && CanCreate(k) && priority < NUM_PRIORITIES && k.lists[FREE_LIST] == []
    ensures Create(k, priority) == (k, ERR_UNAVAILABLE_DESCRIPTOR)
  {
    hide Ranked, Within;
  }

  /** At boot nobody is in any exchange of messages. */
  lemma BootIsCalm(n: nat)
    requires 2 <= n <= LONG_MAX
    ensures AllCalm(Boot(n))
  {
    hide Partition, Tids, Forest, Mail, Ledger, Ranked, Within, CanCreate, Create, Schedule, AllCalm;
    var k0 := InitState(n);
    InitHolds(n);
    InitCalm(n);
    CreateCalm(k0, NULL_PRIORITY);
    CreateKeeps(k0, NULL_PRIORITY);
    var k1 := Create(k0, NULL_PRIORITY).0;
    CreateCalm(k1, LOW_PRIORITY);
    CreateKeeps(k1, LOW_PRIORITY);
    ScheduleCalm(Create(k1, LOW_PRIORITY).0);
  }

  lemma InitCalm(n: nat)
    ensures AllCalm(InitState(n)) && InitState(n).current == NONE
  {
  }

  lemma ScheduleCalm(k: Kernel)
    requires WF(k) && AllCalm(k)
    ensures AllCalm(Schedule(k))
  {
    hide Ranked, Within, Schedule;
    ScheduleFrame(k);
  }

  /** In every reachable state the record of every task that waits for a message holds the tid address,
      buffer and length that the task itself passed to the Receive it waits in. */
  lemma WaitersAreNamed(n: nat, calls: seq<Call>)
    requires 2 <= n <= LONG_MAX
    requires Running(Boot(n)) && Legal(Boot(n), calls)
    ensures RecordsNamed(Run(Boot(n), calls), NamedDuring(Boot(n), calls, map[]))
  {
    hide Boot, Core, Run, NamedDuring;
    BootIsCalm(n);
    RunNames(Boot(n), calls, map[]);
  }
}
