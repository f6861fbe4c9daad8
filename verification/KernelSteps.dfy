/** Every handler keeps the invariant. */
module KernelSteps {
  import opened Arithmetic
  import opened Lists
  import opened KernelModel
  import opened KernelInvariant

  // ------------------------------------------------------------------ reading a longer history

  lemma LogGrown(log: seq<Event>, e: Event, t: int)
    ensures PhaseOf(log + [e], t) == Advance(PhaseOf(log, t), e, t)
    ensures SentTo(log + [e], t) == SentTo(log, t) + if e.Sent? && e.to == t then [e.tid] else []
    ensures TakenBy(log + [e], t) == TakenBy(log, t) + if e.Received? && e.receiver == t then [e.tid] else []
  {
    assert (log + [e])[..|log|] == log;
  }

  lemma DistinctTids(k: Kernel, i: nat, j: nat)
    requires WF(k) && Tids(k) && i < |k.tasks| && j < |k.tasks| && k.tasks[i].tid == k.tasks[j].tid
    ensures i == j
  {
    assert Slot(|k.tasks|, k.tasks[i].tid) == i && Slot(|k.tasks|, k.tasks[j].tid) == j;
  }

  lemma OtherTid(k: Kernel, i: nat, j: nat)
    requires WF(k) && Tids(k) && i < |k.tasks| && j < |k.tasks| && i != j
    ensures k.tasks[i].tid != k.tasks[j].tid
  {
    OwnSlot(k, i);
    OwnSlot(k, j);
  }

  lemma SameTids(tasks: seq<Task>, tasks': seq<Task>, list: seq<nat>)
    requires |tasks'| == |tasks| && forall x :: x in list ==> x < |tasks|
    requires forall x :: x in list ==> tasks'[x].tid == tasks[x].tid
    ensures TidsOf(tasks', list) == TidsOf(tasks, list)
  {
    assert forall j :: 0 <= j < |list| ==> list[j] in list;
  }

  // ------------------------------------------------------------------ steps that pass no message

  predicate Calm(st: TaskState) {
    st != SendBlocked && st != ReceiveBlocked && st != ReplyBlocked
  }

  /** Messages and history apart, tasks only change between states that have nothing to do with messages. */
  ghost predicate Quiet(k: Kernel, k': Kernel)
    requires WF(k) && WF(k')
  {
    && |k'.tasks| == |k.tasks| && k'.msgs == k.msgs && k'.mail == k.mail
    && forall i :: 0 <= i < |k.tasks| ==>
         && k'.tasks[i].tid == k.tasks[i].tid
         && Listed(k'.tasks[i]) == Listed(k.tasks[i])
         && (k'.tasks[i].state == k.tasks[i].state || (Calm(k'.tasks[i].state) && Calm(k.tasks[i].state)))
  }

  lemma MailKept(k: Kernel, k': Kernel)
    requires WF(k) && WF(k') && Quiet(k, k') && Mail(k)
    ensures Mail(k')
  {
    hide Slot, Ranked;
    assert forall q :: 0 <= q < |k.tasks| && QueueOk(k, q) ==> QueueOk(k', q);
    assert forall i :: 0 <= i < |k.tasks| && RecordOk(k, i) ==> RecordOk(k', i);
  }

  lemma LedgerKept(k: Kernel, k': Kernel)
    requires WF(k) && WF(k') && Quiet(k, k') && Ledger(k) && k'.log == k.log
    requires forall i :: 0 <= i < |k.tasks| ==> (Code(k'.tasks[i].state) > 0 <==> Code(k.tasks[i].state) > 0)
    ensures Ledger(k')
  {
    hide Slot, Ranked;
    forall i | 0 <= i < |k.tasks| && Listed(k'.tasks[i]) ensures PhaseOk(k', i) && FifoOk(k', i) {
      assert PhaseOk(k, i) && FifoOk(k, i);
      MailTids(k, k', i);
    }
    assert forall t :: 0 <= t <= LONG_MAX ==> IsTaskAlive(k', t) == IsTaskAlive(k, t);
    assert forall t :: Issued(k', t) == Issued(k, t);
  }

  lemma SetMyPriorityKeeps(k: Kernel, to: nat)
    requires Core(k) && k.current != NONE
    ensures Core(SetMyPriority(k, to).0)
  {
    hide Partition, Tids, Forest, Mail, Ledger;
    var k' := SetMyPriority(k, to).0;
    PartitionKept(k, k');
    TreeKept(k, k');
    MailKept(k, k');
    LedgerKept(k, k');
  }

  lemma AwaitEventKeeps(k: Kernel, intr: int)
    requires Core(k) && k.current != NONE && k.tasks[k.current].state == Active
    ensures Core(AwaitEvent(k, intr))
  {
    hide Partition, Tids, Forest, Mail, Ledger;
    var k1 := k.(tasks := k.tasks[k.current := k.tasks[k.current].(event := intr)]);
    var k' := AwaitEvent(k, intr);
    PartitionKept(k, k1);
    TreeKept(k, k1);
    CurrentStateChanged(k1, EventBlocked);
    MailKept(k, k');
    LedgerKept(k, k');
  }

  lemma HomeOf(k: Kernel, i: nat, q: nat)
    requires WF(k) && Partition(k) && q < |k.lists| && i in k.lists[q]
    ensures i < |k.tasks| && Home(k, i) == q
  {
  }

  /** An interrupt changes no state but that of tasks waiting for its event, which become ready. */
  lemma UnblockKeeps(k: Kernel, intr: int, priority: nat)
    requires Core(k) && priority <= NUM_PRIORITIES
    ensures Core(UnblockFrom(k, intr, priority))
    ensures forall i :: 0 <= i < |k.tasks| ==>
              UnblockFrom(k, intr, priority).tasks[i].state == k.tasks[i].state ||
              (k.tasks[i].state == EventBlocked && k.tasks[i].event == intr &&
               UnblockFrom(k, intr, priority).tasks[i].state == Ready)
    decreases NUM_PRIORITIES - priority
  {
    hide Partition, Tids, Forest, Mail, Ledger, Slot, SetState, SetRet;
    if priority < NUM_PRIORITIES {
      var q := ListOf(EventBlocked, priority);
      var i := FirstAwaiting(k.tasks, k.lists[q], intr);
      if i == NONE {
        UnblockKeeps(k, intr, priority + 1);
      } else {
        HomeOf(k, i, q);
        assert k.tasks[i].state == EventBlocked;
        var k1 := SetState(k, k.tasks[i].tid, Ready);
        StateChanged(k, i, Ready);
        RetSet(k1, k.tasks[i].tid, ERR_COLLECT_DATA);
        var k' := UnblockFrom(k, intr, priority);
        MailKept(k, k');
        LedgerKept(k, k');
      }
    }
  }

  lemma ExitKeeps(k: Kernel)
    requires Core(k) && k.current != NONE && k.tasks[k.current].state == Active
    ensures Core(Exit(k))
  {
    hide Partition, Tids, Forest, Mail, Ledger;
    var k1 := SetCurrentState(k, Zombie);
    CurrentStateChanged(k, Zombie);
    ShapeKept(k1, Exit(k));
    MailKept(k, Exit(k));
    ExitKeepsLedger(k);
  }

  lemma ExitKeepsLedger(k: Kernel)
    requires Core(k) && k.current != NONE && k.tasks[k.current].state == Active
    ensures Ledger(Exit(k))
  {
    hide Partition, Forest, Mail, Slot, Ranked, Within, Phases, Fifo, Known, Lives;
    var me := CurrentTid(k);
    assert Slot(|k.tasks|, me) == k.current;
    QuietNote(k, Exit(k), Exited(me));
    Death(k, Exit(k), Exited(me));
  }

  /** A birth or a death says nothing about messages. */
  lemma QuietNote(k: Kernel, k': Kernel, e: Event)
    requires WF(k) && WF(k') && Quiet(k, k') && Phases(k) && Fifo(k) && k'.log == k.log + [e]
    requires e.Created? || e.Exited? || e.Reaped?
    ensures Phases(k') && Fifo(k')
  {
    hide Slot, Ranked, PhaseOf, SentTo, TakenBy;
    forall i | 0 <= i < |k.tasks| && Listed(k'.tasks[i]) ensures PhaseOk(k', i) && FifoOk(k', i) {
      assert PhaseOk(k, i) && FifoOk(k, i);
      LogGrown(k.log, e, k.tasks[i].tid);
      MailTids(k, k', i);
    }
  }

  /** An exit or a destruction ends one life and no other. */
  lemma Death(k: Kernel, k': Kernel, e: Event)
    requires WF(k) && WF(k') && Known(k) && Lives(k) && k'.log == k.log + [e]
    requires e.Exited? || e.Reaped?
    requires Issued(k, e.tid)
    requires |k'.tasks| == |k.tasks|
    requires forall i :: 0 <= i < |k.tasks| ==> k'.tasks[i].tid == k.tasks[i].tid
    requires forall i :: 0 <= i < |k.tasks| ==>
               (Code(k'.tasks[i].state) > 0 <==> Code(k.tasks[i].state) > 0 && k.tasks[i].tid != e.tid)
    ensures Known(k') && Lives(k')
  {
    hide Slot, Ranked, Within;
    assert forall t :: Issued(k', t) <==> Issued(k, t);
    forall t | 0 <= t <= LONG_MAX
      ensures IsTaskAlive(k', t) <==> Created(t) in k'.log && Exited(t) !in k'.log && Reaped(t) !in k'.log
    {
      assert IsTaskAlive(k', t) <==> IsTaskAlive(k, t) && t != e.tid;
      assert Created(t) in k'.log <==> Created(t) in k.log;
      assert Exited(t) in k'.log <==> Exited(t) in k.log || e == Exited(t);
      assert Reaped(t) in k'.log <==> Reaped(t) in k.log || e == Reaped(t);
    }
  }

  // ------------------------------------------------------------------ a message is sent, received, answered

  /** What a delivery from the task in slot i to the one in slot r changes. */
  ghost predicate Delivered(k: Kernel, i: nat, r: nat, k': Kernel)
    requires WF(k) && WF(k') && i < |k.tasks| && r < |k.tasks| && k.mail[r] != []
  {
    && k'.tasks == k.tasks[i := k.tasks[i].(state := ReplyBlocked)]
                          [r := k.tasks[r].(state := Ready, ret := k.msgs[i].msgLen)]
    && k'.msgs == k.msgs && k'.current == k.current && k'.kids == k.kids && k'.born == k.born
    && k'.mail == k.mail[r := k.mail[r][1..]]
    && k'.log == k.log + [Received(k.tasks[i].tid, k.tasks[r].tid)]
  }

  /** The task in slot r can take the message of the task in slot i, which is the oldest one it has. */
  ghost predicate Deliverable(k: Kernel, i: nat, r: nat)
    requires WF(k)
  {
    && i < |k.tasks| && r < |k.tasks| && i != r
    && k.mail[r] != [] && k.mail[r][0] == i
    && k.tasks[i].state == ReceiveBlocked && Listed(k.tasks[r])
    && k.msgs[i].fromTid == k.tasks[i].tid && k.msgs[i].toTid == k.tasks[r].tid
    && (k.tasks[r].state == SendBlocked || (r == k.current && k.tasks[r].state == Active))
  }

  lemma FirstIsDeliverable(k: Kernel, r: nat)
    requires WF(k) && MailBut(k, r) && r < |k.tasks| && k.mail[r] != []
    requires k.tasks[r].state == SendBlocked || (r == k.current && k.tasks[r].state == Active)
    ensures Deliverable(k, k.mail[r][0], r)
  {
    assert QueueOk(k, r) && k.mail[r][0] in k.mail[r];
    assert RecordOk(k, k.mail[r][0]);
  }

  lemma DeliverEffect(k: Kernel, i: nat, r: nat)
    requires Shape(k) && Deliverable(k, i, r)
    requires Slot(|k.tasks|, k.tasks[r].tid) == r
    ensures var k' := Deliver(k, k.tasks[r].tid).0;
            Shape(k') && Delivered(k, i, r, k') && ReadyGrows(k, k')
  {
    hide Partition, Tids, Forest, ActiveIsCurrent, Slot, SetState, SetRet, Ranked, CopyBytes;
    var m := k.msgs[i];
    assert forall x :: x in k.mail[r][1..] ==> x in k.mail[r];
    var k1 := k.(mail := k.mail[r := k.mail[r][1..]], words := k.words[m.putTid := m.fromTid],
                 mem := if m.recv != NULL && m.msg != NULL
                        then CopyBytes(k.mem, m.recv, m.msg, Min(m.recvLen, m.msgLen)) else k.mem);
    hide Within;
    ShapeKept(k, k1);
    var k2 := SetState(k1, m.fromTid, ReplyBlocked);
    StateChanged(k1, i, ReplyBlocked);
    var k3 := SetState(k2, m.toTid, Ready);
    StateChanged(k2, r, Ready);
    var k4 := SetRet(k3, m.toTid, m.msgLen);
    Woken(k3, r, m.msgLen);
    ShapeKept(k4, Note(k4, Received(m.fromTid, m.toTid)));
  }

  /** A task that was just made ready gets its return value. */
  lemma Woken(k: Kernel, r: nat, v: int)
    requires Shape(k) && r < |k.tasks| && Code(k.tasks[r].state) > 0
    ensures SetRet(k, k.tasks[r].tid, v) == k.(tasks := k.tasks[r := k.tasks[r].(ret := v)])
    ensures Shape(SetRet(k, k.tasks[r].tid, v))
  {
    hide Partition, Forest, ActiveIsCurrent, Ranked, Within;
    assert Slot(|k.tasks|, k.tasks[r].tid) == r;
    hide Slot;
    RetSet(k, k.tasks[r].tid, v);
  }

  ghost predicate DeliveredOk(k: Kernel, i: nat, r: nat, k': Kernel) {
    WF(k) && WF(k') && Tids(k) && Deliverable(k, i, r) && Delivered(k, i, r, k')
  }

  lemma InBox(k: Kernel, q: nat)
    requires WF(k) && q < |k.tasks|
    ensures forall x :: x in k.mail[q] ==> x < |k.tasks|
  {
  }

  /** What is left in a queue once the delivered record is gone. */
  lemma DeliveredBox(k: Kernel, i: nat, r: nat, k': Kernel, q: nat)
    requires DeliveredOk(k, i, r, k') && q < |k.tasks| && QueueOk(k, q)
    ensures NoDup(k'.mail[q])
    ensures forall j :: j in k'.mail[q] <==> j in k.mail[q] && j != i
  {
    hide Ranked, Slot;
    assert k.mail[r][0] in k.mail[r];
    if i in k.mail[q] {
      DistinctTids(k, q, r);
      hide Tids, Within;
      MinusAt(k.mail[r], 0);
      assert k.mail[r][..0] + k.mail[r][0 + 1..] == k.mail[r][1..];
      assert k'.mail[q] == Minus(k.mail[q], {i});
    } else {
      assert k'.mail[q] == k.mail[q];
    }
  }

  lemma DeliverQueue(k: Kernel, i: nat, r: nat, k': Kernel, q: nat)
    requires DeliveredOk(k, i, r, k') && q < |k.tasks| && QueueOk(k, q)
    ensures QueueOk(k', q)
  {
    hide Ranked, Within, Slot;
    DeliveredBox(k, i, r, k', q);
    InBox(k, q);
    InBox(k', q);
    hide Tids;
    assert forall j :: j in k'.mail[q] ==> j != i && j != r && k'.tasks[j] == k.tasks[j];
  }

  lemma DeliverRecord(k: Kernel, i: nat, r: nat, k': Kernel, j: nat)
    requires DeliveredOk(k, i, r, k') && j < |k.tasks| && RecordOk(k, j)
    ensures RecordOk(k', j)
  {
    hide Ranked, Within, Slot, Tids;
    assert k.mail[r] == [i] + k.mail[r][1..];
    if k'.tasks[j].state == ReceiveBlocked {
      assert j != i && j in k'.mail[Slot(|k.tasks|, k.msgs[j].toTid)];
    }
  }

  lemma DeliverKeepsMail(k: Kernel, i: nat, r: nat, k': Kernel)
    requires DeliveredOk(k, i, r, k') && MailBut(k, r)
    ensures Mail(k')
  {
    hide Ranked, Within, Slot, Tids, QueueOk, RecordOk;
    forall q | 0 <= q < |k.tasks| ensures QueueOk(k', q) && RecordOk(k', q) {
      DeliverQueue(k, i, r, k', q);
      DeliverRecord(k, i, r, k', q);
    }
  }

  lemma DeliverPhase(k: Kernel, i: nat, r: nat, k': Kernel, j: nat)
    requires DeliveredOk(k, i, r, k') && j < |k.tasks| && Listed(k.tasks[j]) && PhaseOk(k, j)
    ensures PhaseOk(k', j)
  {
    hide Ranked, Within, Slot;
    LogGrown(k.log, Received(k.tasks[i].tid, k.tasks[r].tid), k.tasks[j].tid);
    if k.tasks[j].tid == k.tasks[i].tid { DistinctTids(k, i, j); }
  }

  lemma DeliverFifo(k: Kernel, i: nat, r: nat, k': Kernel, j: nat)
    requires DeliveredOk(k, i, r, k') && j < |k.tasks| && Listed(k.tasks[j]) && FifoOk(k, j)
    ensures FifoOk(k', j)
  {
    hide Ranked, Slot, PhaseOf, SentTo, TakenBy;
    LogGrown(k.log, Received(k.tasks[i].tid, k.tasks[r].tid), k.tasks[j].tid);
    MailTids(k, k', j);
    if k.tasks[j].tid == k.tasks[r].tid { DistinctTids(k, r, j); }
    if j == r {
      assert TidsOf(k.tasks, k.mail[r]) == [k.tasks[i].tid] + TidsOf(k.tasks, k.mail[r][1..]);
    }
  }

  /** The delivered message leaves the queue as the reception enters the history. */
  lemma DeliverKeepsLedger(k: Kernel, i: nat, r: nat, k': Kernel)
    requires DeliveredOk(k, i, r, k') && Ledger(k)
    ensures Ledger(k')
  {
    hide Ranked, Within, Slot, Known, Lives, PhaseOk, FifoOk;
    forall j | 0 <= j < |k.tasks| && Listed(k'.tasks[j]) ensures PhaseOk(k', j) && FifoOk(k', j) {
      DeliverPhase(k, i, r, k', j);
      DeliverFifo(k, i, r, k', j);
    }
    assert Known(k') && Lives(k') by {
      var e := Received(k.tasks[i].tid, k.tasks[r].tid);
      assert Slot(|k.tasks|, k.tasks[i].tid) == i && Slot(|k.tasks|, k.tasks[r].tid) == r;
      AlivenessKept(k, k', e);
    }
  }

  lemma MailTids(k: Kernel, k': Kernel, j: nat)
    requires WF(k) && WF(k') && |k'.tasks| == |k.tasks| && j < |k.tasks|
    requires forall i :: 0 <= i < |k.tasks| ==> k'.tasks[i].tid == k.tasks[i].tid
    ensures forall x :: x in k.mail[j] ==> x < |k.tasks|
    ensures forall x :: x in k'.mail[j] ==> x < |k.tasks|
    ensures TidsOf(k'.tasks, k.mail[j]) == TidsOf(k.tasks, k.mail[j])
    ensures TidsOf(k'.tasks, k'.mail[j]) == TidsOf(k.tasks, k'.mail[j])
  {
    SameTids(k.tasks, k'.tasks, k.mail[j]);
    SameTids(k.tasks, k'.tasks, k'.mail[j]);
  }

  /** An event that is not a birth or a death, among tasks whose aliveness stays. */
  lemma AlivenessKept(k: Kernel, k': Kernel, e: Event)
    requires WF(k) && WF(k') && Known(k) && Lives(k) && k'.log == k.log + [e]
    requires e.Sent? || e.Received? || e.Replied?
    requires Issued(k, e.tid) && (e.Sent? ==> Issued(k, e.to)) && (e.Received? ==> Issued(k, e.receiver))
    requires |k'.tasks| == |k.tasks|
    requires forall i :: 0 <= i < |k.tasks| ==>
               k'.tasks[i].tid == k.tasks[i].tid && (Code(k'.tasks[i].state) > 0 <==> Code(k.tasks[i].state) > 0)
    ensures Known(k') && Lives(k')
  {
    assert forall t :: Slot(|k'.tasks|, t) == Slot(|k.tasks|, t) && (Issued(k', t) <==> Issued(k, t));
    assert forall t :: 0 <= t <= LONG_MAX ==> IsTaskAlive(k', t) == IsTaskAlive(k, t);
  }

  // ------------------------------------------------------------------ Send

  /** The running task in slot i has queued its record at the task in slot r. */
  ghost predicate Posted(k: Kernel, i: nat, r: nat, k': Kernel) {
    && WF(k) && WF(k') && Tids(k)
    && i == k.current && i < |k.tasks| && r < |k.tasks| && k.tasks[i].state == Active && Code(k.tasks[r].state) > 0
    && k'.tasks == k.tasks[i := k.tasks[i].(state := ReceiveBlocked)]
    && |k'.msgs| == |k.msgs| && (forall j :: 0 <= j < |k.msgs| && j != i ==> k'.msgs[j] == k.msgs[j])
    && k'.msgs[i].fromTid == k.tasks[i].tid && k'.msgs[i].toTid == k.tasks[r].tid
    && k'.mail == k.mail[r := k.mail[r] + [i]]
    && k'.log == k.log + [Sent(k.tasks[i].tid, k.tasks[r].tid)]
  }

  lemma PostedQueue(k: Kernel, i: nat, r: nat, k': Kernel, q: nat)
    requires Posted(k, i, r, k') && q < |k.tasks| && QueueOk(k, q)
    ensures QueueOk(k', q)
  {
    hide Ranked, Slot, Tids, Within;
    InBox(k, q);
    InBox(k', q);
    assert i !in k.mail[q];
    assert forall j :: j in k.mail[q] ==> k'.tasks[j] == k.tasks[j] && k'.msgs[j] == k.msgs[j];
  }

  lemma PostedRecord(k: Kernel, i: nat, r: nat, k': Kernel, j: nat)
    requires Posted(k, i, r, k') && j < |k.tasks| && RecordOk(k, j)
    ensures RecordOk(k', j)
  {
    assert Slot(|k.tasks|, k.tasks[r].tid) == r && k.tasks[r].tid >= 0;
    hide Ranked, Within, Slot, Tids;
    if j == i {
      assert i in k'.mail[r];
    } else if k.tasks[j].state == ReceiveBlocked {
      var q := Slot(|k.tasks|, k.msgs[j].toTid);
      assert j in k.mail[q] && k.mail[q] <= k'.mail[q];
    }
  }

  lemma PostedKeepsMail(k: Kernel, i: nat, r: nat, k': Kernel)
    requires Posted(k, i, r, k') && Mail(k)
    ensures MailBut(k', r)
  {
    hide Ranked, Within, Slot, Tids, QueueOk, RecordOk;
    forall q | 0 <= q < |k.tasks| ensures QueueOk(k', q) && RecordOk(k', q) {
      PostedQueue(k, i, r, k', q);
      PostedRecord(k, i, r, k', q);
    }
  }

  lemma PostedPhase(k: Kernel, i: nat, r: nat, k': Kernel, j: nat)
    requires Posted(k, i, r, k') && j < |k.tasks| && Listed(k.tasks[j]) && PhaseOk(k, j)
    ensures PhaseOk(k', j)
  {
    hide Ranked, Within, Slot;
    LogGrown(k.log, Sent(k.tasks[i].tid, k.tasks[r].tid), k.tasks[j].tid);
    if k.tasks[j].tid == k.tasks[i].tid { DistinctTids(k, i, j); }
  }

  lemma PostedFifo(k: Kernel, i: nat, r: nat, k': Kernel, j: nat)
    requires Posted(k, i, r, k') && j < |k.tasks| && Listed(k.tasks[j]) && FifoOk(k, j)
    ensures FifoOk(k', j)
  {
    hide Ranked, Slot;
    LogGrown(k.log, Sent(k.tasks[i].tid, k.tasks[r].tid), k.tasks[j].tid);
    MailTids(k, k', j);
    if k.tasks[j].tid == k.tasks[r].tid { DistinctTids(k, r, j); }
    hide Within, Tids;
    if j == r {
      assert TidsOf(k.tasks, k'.mail[r]) == TidsOf(k.tasks, k.mail[r]) + [k.tasks[i].tid];
    }
  }

  lemma PostedKeepsLedger(k: Kernel, i: nat, r: nat, k': Kernel)
    requires Posted(k, i, r, k') && Ledger(k)
    ensures Ledger(k')
  {
    hide Ranked, Within, Slot, Known, Lives, PhaseOk, FifoOk;
    forall j | 0 <= j < |k.tasks| && Listed(k'.tasks[j]) ensures PhaseOk(k', j) && FifoOk(k', j) {
      PostedPhase(k, i, r, k', j);
      PostedFifo(k, i, r, k', j);
    }
    assert Known(k') && Lives(k') by {
      assert Slot(|k.tasks|, k.tasks[i].tid) == i && Slot(|k.tasks|, k.tasks[r].tid) == r;
      AlivenessKept(k, k', Sent(k.tasks[i].tid, k.tasks[r].tid));
    }
  }

  /** Only the buffers named by message records differ. */
  ghost predicate SameRecords(k: Kernel, k': Kernel) {
    && WF(k) && WF(k')
    && k'.tasks == k.tasks && k'.mail == k.mail && k'.log == k.log
    && forall j :: 0 <= j < |k.tasks| ==> k'.msgs[j].fromTid == k.msgs[j].fromTid && k'.msgs[j].toTid == k.msgs[j].toTid
  }

  lemma SameRecordsKept(k: Kernel, k': Kernel, r: int)
    requires SameRecords(k, k') && MailBut(k, r) && Ledger(k)
    ensures MailBut(k', r) && Ledger(k')
  {
    hide Ranked, Within, Slot;
    forall q | 0 <= q < |k.tasks| ensures QueueOk(k', q) && RecordOk(k', q) {
      assert QueueOk(k, q) && RecordOk(k, q);
      InBox(k, q);
    }
    assert forall j :: 0 <= j < |k.tasks| && PhaseOk(k, j) ==> PhaseOk(k', j);
    assert forall j :: 0 <= j < |k.tasks| && FifoOk(k, j) ==> FifoOk(k', j);
    assert forall t :: Issued(k', t) <==> Issued(k, t);
    assert forall t :: 0 <= t <= LONG_MAX ==> IsTaskAlive(k', t) == IsTaskAlive(k, t);
  }

  lemma Delivery(k: Kernel, r: nat)
    requires Shape(k) && MailBut(k, r) && r < |k.tasks| && k.mail[r] != []
    requires k.tasks[r].state == SendBlocked || (r == k.current && k.tasks[r].state == Active)
    ensures Slot(|k.tasks|, k.tasks[r].tid) == r
    ensures Deliverable(k, k.mail[r][0], r)
    ensures DeliveredOk(k, k.mail[r][0], r, Deliver(k, k.tasks[r].tid).0)
    ensures Shape(Deliver(k, k.tasks[r].tid).0) && ReadyGrows(k, Deliver(k, k.tasks[r].tid).0)
  {
    hide Slot, Partition, Forest, ActiveIsCurrent, MailBut, Deliver, Ranked, Within;
    OwnSlot(k, r);
    FirstIsDeliverable(k, r);
    DeliverEffect(k, k.mail[r][0], r);
  }

  lemma DeliverKeeps(k: Kernel, r: nat)
    requires Shape(k) && MailBut(k, r) && Ledger(k) && r < |k.tasks| && k.mail[r] != []
    requires k.tasks[r].state == SendBlocked || (r == k.current && k.tasks[r].state == Active)
    ensures Slot(|k.tasks|, k.tasks[r].tid) == r
    ensures Core(Deliver(k, k.tasks[r].tid).0) && ReadyGrows(k, Deliver(k, k.tasks[r].tid).0)
  {
    hide Slot, Partition, Tids, Forest, ActiveIsCurrent, Ranked, Within, MailBut, Ledger, Deliver, ReadyGrows,
      DeliveredOk;
    Delivery(k, r);
    DeliverKeepsMail(k, k.mail[r][0], r, Deliver(k, k.tasks[r].tid).0);
    DeliverKeepsLedger(k, k.mail[r][0], r, Deliver(k, k.tasks[r].tid).0);
  }

  lemma OwnSlot(k: Kernel, i: nat)
    requires WF(k) && Tids(k) && i < |k.tasks|
    ensures Slot(|k.tasks|, k.tasks[i].tid) == i
  {
  }

  /** The state in which an accepted Send leaves its record queued. */
  function Post(k: Kernel, tid: int, m: Msg): (r: Kernel)
    requires WF(k) && k.current != NONE
    ensures WF(r) && |r.tasks| == |k.tasks|
  {
    var mine := Slot(|k.tasks|, CurrentTid(k));
    Note(SetCurrentState(k.(msgs := k.msgs[mine := m], mail := Enlist(k.mail, Slot(|k.tasks|, tid), mine)),
                         ReceiveBlocked),
         Sent(CurrentTid(k), tid))
  }

  lemma PostKeeps(k: Kernel, tid: int, m: Msg)
    requires Core(k) && k.current != NONE && k.tasks[k.current].state == Active
    requires IsTaskAlive(k, tid) && m.fromTid == CurrentTid(k) && m.toTid == tid
    ensures var r := Slot(|k.tasks|, tid);
            var k' := Post(k, tid, m);
            && Posted(k, k.current, r, k') && Shape(k') && MailBut(k', r) && Ledger(k') && k'.lists == k.lists
            && k.tasks[r].tid == tid && k'.current == k.current && k'.msgs[k.current] == m
  {
    assert Slot(|k.tasks|, k.tasks[k.current].tid) == k.current;
    hide Slot, Partition, Forest, Tids, Ledger, Mail, MailBut, Ranked;
    var k' := Post(k, tid, m);
    var k1 := SetCurrentState(k, ReceiveBlocked);
    CurrentStateChanged(k, ReceiveBlocked);
    ShapeKept(k1, k');
    var r := Slot(|k.tasks|, tid);
    PostedKeepsMail(k, k.current, r, k');
    PostedKeepsLedger(k, k.current, r, k');
  }

  lemma GrowsFrom(k: Kernel, k1: Kernel, k': Kernel)
    requires WF(k) && WF(k1) && WF(k') && k1.lists == k.lists && (k' == k1 || ReadyGrows(k1, k'))
    ensures ReadyGrows(k, k')
  {
  }

  lemma NobodyWaits(k: Kernel, r: nat)
    requires WF(k) && r < |k.tasks| && MailBut(k, r) && k.tasks[r].state != SendBlocked
    ensures Mail(k)
  {
  }

  lemma SendKeeps(k: Kernel, tid: int, msg: int, msgLen: nat, reply: int, replyLen: nat, junk: Msg)
    requires Core(k) && k.current != NONE && k.tasks[k.current].state == Active
    ensures Core(Send(k, tid, msg, msgLen, reply, replyLen, junk).0)
    ensures ReadyGrows(k, Send(k, tid, msg, msgLen, reply, replyLen, junk).0)
  {
    hide Partition, Forest, Ledger, Ranked, Within, Deliver, ReadyGrows, MailBut;
    GrowsFrom(k, k, k);
    if IsValidTid(tid) && IsTaskAlive(k, tid) {
      var r := Slot(|k.tasks|, tid);
      var m := Msg(CurrentTid(k), tid, junk.putTid, msg, msgLen, reply, replyLen, junk.recv, junk.recvLen);
      PostKeeps(k, tid, m);
      assert Slot(|k.tasks|, CurrentTid(k)) == k.current;
      hide Slot, Tids;
      var k1 := Post(k, tid, m);
      assert k1.tasks[r].tid == tid;
      if k1.tasks[r].state == SendBlocked {
        var w := k1.msgs[r];
        var k2 := k1.(msgs := k1.msgs[k.current := m.(putTid := w.putTid, recv := w.recv, recvLen := w.recvLen)]);
        SameRecordsKept(k1, k2, r);
        ShapeKept(k1, k2);
        DeliverKeeps(k2, r);
        GrowsFrom(k, k2, Deliver(k2, tid).0);
      } else {
        GrowsFrom(k, k1, k1);
        NobodyWaits(k1, r);
      }
    }
  }

  // ------------------------------------------------------------------ Receive and Reply

  /** The running task starts to wait; its own record is free for any use. */
  ghost predicate Waits(k: Kernel, i: nat, k': Kernel) {
    && WF(k) && WF(k') && i < |k.tasks|
    && k.tasks[i].state == Active && k.mail[i] == []
    && k'.tasks == k.tasks[i := k.tasks[i].(state := SendBlocked)]
    && k'.mail == k.mail && k'.log == k.log
    && (forall j :: 0 <= j < |k.msgs| && j != i ==> k'.msgs[j] == k.msgs[j])
  }

  lemma WaitsKeeps(k: Kernel, i: nat, k': Kernel)
    requires Waits(k, i, k') && Mail(k) && Ledger(k)
    ensures Mail(k') && Ledger(k')
  {
    hide Ranked, Within, Slot;
    forall q | 0 <= q < |k.tasks| ensures QueueOk(k', q) && RecordOk(k', q) {
      assert QueueOk(k, q) && RecordOk(k, q);
      InBox(k, q);
      assert i !in k.mail[q];
    }
    forall j | 0 <= j < |k.tasks| && Listed(k'.tasks[j]) ensures PhaseOk(k', j) && FifoOk(k', j) {
      assert PhaseOk(k, j) && FifoOk(k, j);
      MailTids(k, k', j);
    }
    assert forall t :: Issued(k', t) <==> Issued(k, t);
    assert forall t :: 0 <= t <= LONG_MAX ==> IsTaskAlive(k', t) == IsTaskAlive(k, t);
  }

  lemma ReceiveKeeps(k: Kernel, put: int, buf: int, len: nat, junk: Msg, at: int)
    requires Core(k) && k.current != NONE && k.tasks[k.current].state == Active
    requires var box := k.mail[Slot(|k.tasks|, CurrentTid(k))]; box != [] ==> 0 <= at < |box|
    ensures Core(ReceiveInto(k, put, buf, len, junk, at).0)
    ensures ReadyGrows(k, ReceiveInto(k, put, buf, len, junk, at).0)
  {
    hide Partition, Tids, Forest, Ledger, Ranked, Within, Deliver, ReadyGrows, MailBut, Slot;
    OwnSlot(k, k.current);
    var box := k.mail[k.current];
    var k' := ReceiveInto(k, put, buf, len, junk, at).0;
    if box == [] {
      var k1 := SetCurrentState(k, SendBlocked);
      CurrentStateChanged(k, SendBlocked);
      ShapeKept(k1, k');
      WaitsKeeps(k, k.current, k');
      GrowsFrom(k, k', k');
    } else {
      InBox(k, k.current);
      assert box[at] in box;
      var k1 := k.(msgs := k.msgs[box[at] := k.msgs[box[at]].(putTid := put, recv := buf, recvLen := len)]);
      ShapeKept(k, k1);
      SameRecordsKept(k, k1, NONE);
      WithoutException(k1, k.current);
      DeliverKeeps(k1, k.current);
      GrowsFrom(k, k1, k');
    }
  }

  lemma WithoutException(k: Kernel, r: int)
    requires WF(k) && MailBut(k, NONE)
    ensures MailBut(k, r)
  {
  }

  /** The task in slot i waits for a reply and gets it. */
  ghost predicate Answered(k: Kernel, i: nat, replier: int, k': Kernel) {
    && WF(k) && WF(k') && Tids(k) && i < |k.tasks| && k.tasks[i].state == ReplyBlocked
    && |k'.tasks| == |k.tasks| && (forall j :: 0 <= j < |k.tasks| && j != i ==> k'.tasks[j] == k.tasks[j])
    && k'.tasks[i].state == Ready && k'.tasks[i].tid == k.tasks[i].tid
    && k'.msgs == k.msgs && k'.mail == k.mail
    && k'.log == k.log + [Replied(k.tasks[i].tid, replier)]
  }

  lemma AnsweredKeepsMail(k: Kernel, i: nat, replier: int, k': Kernel)
    requires Answered(k, i, replier, k') && Mail(k)
    ensures Mail(k')
  {
    hide Ranked, Within, Slot, Tids;
    forall q | 0 <= q < |k.tasks| ensures QueueOk(k', q) && RecordOk(k', q) {
      assert QueueOk(k, q) && RecordOk(k, q);
      InBox(k, q);
    }
  }

  lemma AnsweredStory(k: Kernel, i: nat, replier: int, k': Kernel, j: nat)
    requires Answered(k, i, replier, k') && j < |k.tasks| && Listed(k.tasks[j]) && PhaseOk(k, j) && FifoOk(k, j)
    ensures PhaseOk(k', j) && FifoOk(k', j)
  {
    hide Ranked, Slot, PhaseOf, SentTo, TakenBy;
    LogGrown(k.log, Replied(k.tasks[i].tid, replier), k.tasks[j].tid);
    MailTids(k, k', j);
    if k.tasks[j].tid == k.tasks[i].tid { DistinctTids(k, i, j); }
  }

  lemma AnsweredKeepsLedger(k: Kernel, i: nat, replier: int, k': Kernel)
    requires Answered(k, i, replier, k') && Ledger(k)
    ensures Ledger(k')
  {
    OwnSlot(k, i);
    hide Ranked, Within, Slot, Known, Lives, PhaseOk, FifoOk;
    forall j | 0 <= j < |k.tasks| && Listed(k'.tasks[j]) ensures PhaseOk(k', j) && FifoOk(k', j) {
      AnsweredStory(k, i, replier, k', j);
    }
    AlivenessKept(k, k', Replied(k.tasks[i].tid, replier));
  }

  lemma ReplyKeeps(k: Kernel, tid: int, buf: int, len: nat)
    requires Core(k) && k.current != NONE
    ensures Core(Reply(k, tid, buf, len).0)
    ensures ReadyGrows(k, Reply(k, tid, buf, len).0)
  {
    hide Partition, Tids, Forest, Ledger, Ranked, Within, ReadyGrows, Slot, CopyBytes, SetState, SetRet, QueueOk;
    GrowsFrom(k, k, k);
    if IsValidTid(tid) && IsTaskAlive(k, tid) && GetTaskState(k, tid) == ReplyBlocked {
      var i := Slot(|k.tasks|, tid);
      assert RecordOk(k, i);
      hide MailBut, RecordOk;
      var m := k.msgs[i];
      assert m.fromTid == tid;
      var k1 := k.(mem := if m.reply != NULL && buf != NULL
                          then CopyBytes(k.mem, m.reply, buf, Min(m.replyLen, len)) else k.mem);
      ShapeKept(k, k1);
      var k2 := SetState(k1, tid, Ready);
      StateChanged(k1, i, Ready);
      var k3 := SetRet(k2, tid, len);
      Woken(k2, i, len);
      var k' := Note(k3, Replied(tid, CurrentTid(k)));
      ShapeKept(k3, k');
      AnsweredKeepsMail(k, i, CurrentTid(k), k');
      AnsweredKeepsLedger(k, i, CurrentTid(k), k');
      GrowsFrom(k, k1, k2);
      GrowsTo(k, k2, k');
    }
  }

  lemma GrowsTo(k: Kernel, k1: Kernel, k': Kernel)
    requires WF(k) && WF(k1) && WF(k') && ReadyGrows(k, k1) && k'.lists == k1.lists
    ensures ReadyGrows(k, k')
  {
  }

  // ------------------------------------------------------------------ Create

  /** A tid the history has never mentioned. */
  ghost predicate Fresh(log: seq<Event>, t: int) {
    forall e :: e in log ==> e.tid != t && (e.Sent? ==> e.to != t) && (e.Received? ==> e.receiver != t)
  }

  lemma {:induction false} FreshHistory(log: seq<Event>, t: int)
    requires Fresh(log, t)
    ensures PhaseOf(log, t) == Idle && SentTo(log, t) == [] && TakenBy(log, t) == []
  {
    if log != [] {
      assert log[|log| - 1] in log;
      assert forall e :: e in log[..|log| - 1] ==> e in log;
      FreshHistory(log[..|log| - 1], t);
    }
  }

  lemma NextTid(n: nat, tid: int)
    requires n > 0
    ensures Slot(n, tid + n) == Slot(n, tid)
  {
    assert tid == n * (tid / n) + tid % n;
    assert n * (tid / n + 1) == n * (tid / n) + n;
    DivModUnique(tid + n, n, tid / n + 1, tid % n);
  }

  lemma FirstIn(s: seq<nat>)
    ensures s != [] ==> s[0] in s
  {
  }

  /** A descriptor that is not listed is nobody's child and has no children. */
  lemma Unrelated(k: Kernel, i: nat)
    requires WF(k) && Forest(k) && i < |k.tasks| && !Listed(k.tasks[i])
    ensures k.kids[i] == [] && Absent(k.kids, i)
  {
    hide Slot;
    FirstIn(k.kids[i]);
    assert forall c :: c !in k.kids[i];
    assert forall p :: 0 <= p < |k.kids| ==> i !in k.kids[p];
  }

  lemma CanCreateHere(k: Kernel)
    requires Shape(k) && (k.current != NONE ==> Listed(k.tasks[k.current]))
    ensures CanCreate(k)
    ensures k.lists[FREE_LIST] != [] ==>
              var i := k.lists[FREE_LIST][0];
              i < |k.tasks| && k.tasks[i].state == Free && k.kids[i] == []
  {
    hide Tids, Slot, Ranked;
    if k.lists[FREE_LIST] != [] {
      var i := k.lists[FREE_LIST][0];
      assert i in k.lists[FREE_LIST];
      HomeOf(k, i, FREE_LIST);
      Unrelated(k, i);
    }
  }

  /** Descriptor i, free until now, starts its life with the next tid of its slot. */
  ghost predicate Born(k: Kernel, i: nat, priority: nat, k': Kernel) {
    && WF(k) && WF(k') && i < |k.tasks| && k.tasks[i].state == Free && i != k.current && k.kids[i] == []
    && (k.current != NONE ==> Listed(k.tasks[k.current])) && priority < NUM_PRIORITIES
    && k.lists[FREE_LIST] != [] && k.lists[FREE_LIST][0] == i
    && k'.tasks == k.tasks[i := Task(k.tasks[i].tid + |k.tasks|, Ready, priority, CurrentTid(k), NONE, k.tasks[i].ret)]
    && k'.lists == Enlist(k.lists[FREE_LIST := k.lists[FREE_LIST][1..]], ListOf(Ready, priority), i)
    && k'.kids == (if k.current == NONE then k.kids else Enlist(k.kids, k.current, i))
    && k'.born == k.born[i := |k.log|] && k'.msgs == k.msgs && k'.mail == k.mail && k'.current == k.current
    && k'.log == k.log + [Created(k.tasks[i].tid + |k.tasks|)]
  }

  lemma CreateEffect(k: Kernel, priority: nat)
    requires Shape(k) && (k.current != NONE ==> Listed(k.tasks[k.current])) && priority < NUM_PRIORITIES
    requires k.lists[FREE_LIST] != []
    ensures CanCreate(k) && Born(k, k.lists[FREE_LIST][0], priority, Create(k, priority).0)
    ensures Create(k, priority).1 == k.tasks[k.lists[FREE_LIST][0]].tid + |k.tasks|
  {
    CanCreateHere(k);
    hide Partition, Tids, Forest, ActiveIsCurrent, Slot;
    assert k.kids[k.lists[FREE_LIST][0] := []] == k.kids;
  }

  lemma NoDupList(k: Kernel, q: nat)
    requires WF(k) && Partition(k) && q < |k.lists|
    ensures NoDup(k.lists[q])
  {
  }

  lemma WithoutFirst(s: seq<nat>)
    requires NoDup(s) && s != []
    ensures Minus(s, {s[0]}) == s[1..]
  {
    MinusAt(s, 0);
    assert s[..0] + s[0 + 1..] == s[1..];
  }

  lemma BornPartition(k: Kernel, i: nat, priority: nat, k': Kernel)
    requires Born(k, i, priority, k') && Partition(k)
    ensures Partition(k') && ReadyGrows(k, k')
  {
    hide Slot, Ranked, Within, Partition;
    NoDupList(k, FREE_LIST);
    hide NoDup;
    WithoutFirst(k.lists[FREE_LIST]);
    PartitionMoved(k, k', i);
  }

  lemma BornTids(k: Kernel, i: nat, priority: nat, k': Kernel)
    requires Born(k, i, priority, k') && Tids(k)
    ensures Tids(k')
  {
    OwnSlot(k, i);
    NextTid(|k.tasks|, k.tasks[i].tid);
    hide Slot, Ranked, Within;
  }

  lemma BornChildren(k: Kernel, i: nat, priority: nat, k': Kernel, p: nat)
    requires Born(k, i, priority, k') && Forest(k) && p < |k.tasks|
    ensures i !in k.kids[p] && NoDup(k'.kids[p])
    ensures forall c :: c in k'.kids[p] ==>
              Listed(k'.tasks[p]) && Listed(k'.tasks[c]) && k'.tasks[c].parentTid == k'.tasks[p].tid
  {
    hide Slot;
    Unrelated(k, i);
    forall c | c in k'.kids[p]
      ensures Listed(k'.tasks[p]) && Listed(k'.tasks[c]) && k'.tasks[c].parentTid == k'.tasks[p].tid
    {
      if p == k.current && c !in k.kids[p] {
        assert c == i && p != i;
        assert k'.tasks[p] == k.tasks[p];
      } else {
        assert c in k.kids[p] && p != i && c != i;
      }
    }
  }

  lemma BornParent(k: Kernel, i: nat, priority: nat, k': Kernel, c: nat)
    requires Born(k, i, priority, k') && Forest(k) && c < |k.tasks| && Listed(k'.tasks[c])
    requires k'.tasks[c].parentTid != -1
    requires k.current != NONE ==> Slot(|k.tasks|, k.tasks[k.current].tid) == k.current && k.tasks[k.current].tid >= 0
    ensures k'.tasks[c].parentTid >= 0 && c in k'.kids[Slot(|k'.tasks|, k'.tasks[c].parentTid)]
  {
    hide Slot, Ranked, Within;
    if c == i {
      assert k'.kids[k.current] == k.kids[k.current] + [i];
    } else {
      var p := Slot(|k.tasks|, k.tasks[c].parentTid);
      assert c in k.kids[p] && k.kids[p] <= k'.kids[p];
    }
  }

  lemma BornForest(k: Kernel, i: nat, priority: nat, k': Kernel)
    requires Born(k, i, priority, k') && Tids(k) && Forest(k)
    ensures Forest(k')
  {
    if k.current != NONE { OwnSlot(k, k.current); }
    hide Slot, Ranked;
    forall p | 0 <= p < |k.tasks|
      ensures NoDup(k'.kids[p])
      ensures forall c :: c in k'.kids[p] ==>
                Listed(k'.tasks[p]) && Listed(k'.tasks[c]) && k'.tasks[c].parentTid == k'.tasks[p].tid
    {
      BornChildren(k, i, priority, k', p);
    }
    forall c | 0 <= c < |k.tasks| && Listed(k'.tasks[c]) && k'.tasks[c].parentTid != -1
      ensures k'.tasks[c].parentTid >= 0 && c in k'.kids[Slot(|k'.tasks|, k'.tasks[c].parentTid)]
    {
      BornParent(k, i, priority, k', c);
    }
  }

  lemma BornMail(k: Kernel, i: nat, priority: nat, k': Kernel)
    requires Born(k, i, priority, k') && Mail(k)
    ensures Mail(k')
    ensures forall q :: 0 <= q < |k.tasks| ==> i !in k.mail[q]
  {
    hide Slot, Ranked;
    forall q | 0 <= q < |k.tasks| ensures QueueOk(k', q) && RecordOk(k', q) && i !in k.mail[q] {
      assert QueueOk(k, q) && RecordOk(k, q);
      InBox(k, q);
    }
  }

  lemma BornFresh(k: Kernel, i: nat, priority: nat, k': Kernel)
    requires Born(k, i, priority, k') && Tids(k) && Known(k)
    ensures Fresh(k.log, k'.tasks[i].tid)
  {
    OwnSlot(k, i);
    NextTid(|k.tasks|, k.tasks[i].tid);
    hide Slot, Ranked, Within;
    assert !Issued(k, k'.tasks[i].tid);
  }

  lemma NoMail(k: Kernel, i: nat)
    requires WF(k) && Mail(k) && i < |k.tasks| && !Listed(k.tasks[i])
    ensures k.mail[i] == []
  {
    FirstIn(k.mail[i]);
    assert QueueOk(k, i);
  }

  lemma BornStory(k: Kernel, i: nat, priority: nat, k': Kernel, j: nat)
    requires Born(k, i, priority, k') && Fresh(k.log, k'.tasks[i].tid) && j < |k.tasks| && Listed(k'.tasks[j])
    requires k.mail[i] == [] && i !in k.mail[j]
    requires j != i ==> PhaseOk(k, j) && FifoOk(k, j)
    ensures PhaseOk(k', j) && FifoOk(k', j)
  {
    hide Slot, Ranked, Fresh, PhaseOf, SentTo, TakenBy;
    var t := k'.tasks[i].tid;
    FreshHistory(k.log, t);
    LogGrown(k.log, Created(t), k'.tasks[j].tid);
    if j != i {
      SameTids(k.tasks, k'.tasks, k.mail[j]);
    }
  }

  lemma BornStories(k: Kernel, i: nat, priority: nat, k': Kernel)
    requires Born(k, i, priority, k') && Mail(k) && Phases(k) && Fifo(k) && Fresh(k.log, k'.tasks[i].tid)
    ensures Phases(k') && Fifo(k')
  {
    BornMail(k, i, priority, k');
    NoMail(k, i);
    hide Slot, Ranked, Within, Fresh, PhaseOk, FifoOk, MailBut;
    forall j | 0 <= j < |k.tasks| && Listed(k'.tasks[j]) ensures PhaseOk(k', j) && FifoOk(k', j) {
      BornStory(k, i, priority, k', j);
    }
  }

  lemma BornLives(k: Kernel, i: nat, priority: nat, k': Kernel)
    requires Born(k, i, priority, k') && Tids(k) && Known(k) && Lives(k)
    ensures Known(k') && Lives(k')
  {
    var t := k'.tasks[i].tid;
    BornFresh(k, i, priority, k');
    BornTids(k, i, priority, k');
    OwnSlot(k', i);
    hide Slot, Ranked, Within;
    assert forall x :: Issued(k, x) ==> Issued(k', x);
    assert Issued(k', t);
    forall x | 0 <= x <= LONG_MAX
      ensures IsTaskAlive(k', x) <==> Created(x) in k'.log && Exited(x) !in k'.log && Reaped(x) !in k'.log
    {
      assert Created(x) in k'.log <==> Created(x) in k.log || x == t;
      assert Exited(x) in k'.log <==> Exited(x) in k.log;
      assert Reaped(x) in k'.log <==> Reaped(x) in k.log;
      assert IsTaskAlive(k', x) <==> IsTaskAlive(k, x) || x == t;
    }
  }

  lemma CreateKeeps(k: Kernel, priority: nat)
    requires Core(k) && (k.current != NONE ==> Listed(k.tasks[k.current])) && priority < NUM_PRIORITIES
    ensures CanCreate(k) && Core(Create(k, priority).0) && ReadyGrows(k, Create(k, priority).0)
  {
    CanCreateHere(k);
    hide Slot, Ranked, Within, Partition, Tids, Forest, MailBut, Phases, Fifo, Known, Lives, CanCreate, ReadyGrows;
    if k.lists[FREE_LIST] == [] {
      GrowsFrom(k, k, k);
    } else {
      CreateEffect(k, priority);
      BornKeeps(k, k.lists[FREE_LIST][0], priority, Create(k, priority).0);
    }
  }

  lemma BornKeeps(k: Kernel, i: nat, priority: nat, k': Kernel)
    requires Core(k) && Born(k, i, priority, k')
    ensures Core(k') && ReadyGrows(k, k')
  {
    hide Slot, Ranked, Within, Partition, Tids, Forest, MailBut, Phases, Fifo, Known, Lives, ReadyGrows;
    assert ActiveIsCurrent(k');
    hide Born, ActiveIsCurrent;
    BornPartition(k, i, priority, k');
    BornTids(k, i, priority, k');
    BornForest(k, i, priority, k');
    BornMail(k, i, priority, k');
    BornFresh(k, i, priority, k');
    BornStories(k, i, priority, k');
    BornLives(k, i, priority, k');
  }

  // ------------------------------------------------------------------ scheduling

  /** The kernel between two tasks: nobody is current, and nobody is active. */
  ghost predicate Between(k: Kernel, k1: Kernel) {
    && WF(k) && WF(k1) && SameTree(k, k1) && Quiet(k, k1) && k1.log == k.log && k1.current == NONE
    && Partition(k1) && ReadyGrows(k, k1)
    && forall i :: 0 <= i < |k1.tasks| ==>
         && k1.tasks[i].state != Active
         && (k1.tasks[i] == k.tasks[i] || (k.tasks[i].state == Active && k1.tasks[i] == k.tasks[i].(state := Ready)))
  }

  lemma RequeuePartition(k: Kernel)
    requires WF(k) && Partition(k)
    ensures Partition(Requeue(k).(current := NONE))
  {
    hide Ranked, Within, Partition, Enlist;
    var k1 := Requeue(k).(current := NONE);
    if k.current == NONE || !Listed(k.tasks[k.current]) {
      PartitionKept(k, k1);
    } else {
      PartitionMoved(k, k1, k.current);
    }
  }

  lemma RequeueKeeps(k: Kernel)
    requires Shape(k)
    ensures Between(k, Requeue(k).(current := NONE))
  {
    hide Slot, Ranked, Within, Tids, Forest, Partition, ReadyGrows, Enlist, ListOf;
    RequeuePartition(k);
    RequeueGrows(k);
  }

  lemma RequeueGrows(k: Kernel)
    requires WF(k)
    ensures ReadyGrows(k, Requeue(k).(current := NONE))
  {
    hide Ranked, Within;
  }

  /** The oldest task of a ready list is taken from it and runs. */
  lemma PickKeeps(k: Kernel, q: nat, i: nat, k': Kernel)
    requires WF(k) && WF(k') && Partition(k) && k.current == NONE && q < FREE_LIST && k.lists[q] != []
    requires i == k.lists[q][0]
    requires i < |k.tasks| && k.tasks[i].state == Ready
    requires k' == k.(lists := k.lists[q := k.lists[q][1..]], current := i,
                      tasks := k.tasks[i := k.tasks[i].(state := Active)])
    ensures Partition(k') && SameTree(k, k')
  {
    hide Slot, Ranked, Within;
    NoDupList(k, q);
    assert i in k.lists[q];
    HomeOf(k, i, q);
    hide NoDup, Partition;
    WithoutFirst(k.lists[q]);
    PartitionMoved(k, k', i);
  }

  lemma ReadyHome(k: Kernel, p: nat)
    requires WF(k) && Partition(k) && p < NUM_PRIORITIES && k.lists[ListOf(Ready, p)] != []
    ensures var i := k.lists[ListOf(Ready, p)][0];
            i < |k.tasks| && k.tasks[i].state == Ready && k.tasks[i].priority == p
  {
    var q := ListOf(Ready, p);
    assert k.lists[q][0] in k.lists[q];
    HomeOf(k, k.lists[q][0], q);
  }

  /** Scheduling keeps the invariant whatever state the current task is in, and whoever it makes
      current is active. */
  lemma ScheduleKeeps(k: Kernel)
    requires Core(k)
    ensures Core(Schedule(k))
    ensures Schedule(k).current != NONE ==> Schedule(k).tasks[Schedule(k).current].state == Active
  {
    hide Requeue, Slot, Ranked, Within, Tids, Forest, MailBut, Phases, Fifo, Known, Lives, Partition, ReadyGrows;
    var k1 := Requeue(k).(current := NONE);
    RequeueKeeps(k);
    var k' := Schedule(k);
    var p := ReadyPriority(k1.lists, HIGHEST_PRIORITY);
    if p < NUM_PRIORITIES {
      ReadyHome(k1, p);
      PickKeeps(k1, ListOf(Ready, p), k1.lists[ListOf(Ready, p)][0], k');
    }
    TreeKept(k, k1);
    TreeKept(k1, k');
    MailKept(k, k');
    LedgerKept(k, k');
  }
}
