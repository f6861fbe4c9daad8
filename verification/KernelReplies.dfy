/** What a sender's record holds while it is blocked, and where the reply to it goes. */
module KernelReplies {
  import opened Cells
  import opened Lists
  import opened KernelModel
  import opened KernelInvariant
  import opened KernelSteps
  import opened KernelDestroy
  import opened KernelRuns
  import opened KernelTheorems
  import opened KernelRecords
  import opened KernelMemory
  import opened KernelExchange
  import opened KernelTransitions

  /** What a task passed to its last Send. */
  datatype Passed = Passed(to: int, msg: int, msgLen: nat, reply: int, replyLen: nat)

  function Passes(k: Kernel, call: Call, passed: map<nat, Passed>): map<nat, Passed>
    requires WF(k) && k.current != NONE
  {
    if call.SendCall? then passed[k.current := Passed(call.tid, call.msg, call.msgLen, call.reply, call.replyLen)]
    else passed
  }

  predicate InSend(st: TaskState) {
    st == ReceiveBlocked || st == ReplyBlocked
  }

  function Holds(m: Msg): Passed {
    Passed(m.toTid, m.msg, m.msgLen, m.reply, m.replyLen)
  }

  /** The record of every task in a Send holds what it passed to it. */
  ghost predicate RecordsPassed(k: Kernel, passed: map<nat, Passed>)
    requires WF(k)
  {
    forall i :: 0 <= i < |k.tasks| && InSend(k.tasks[i].state) ==> i in passed && Holds(k.msgs[i]) == passed[i]
  }

  // ------------------------------------------------------------------ handlers

  lemma SendFillsRecord(k: Kernel, call: Call)
    requires Running(k) && CanCreate(k) && call.SendCall? && Reaches(k, call.tid)
    ensures Holds(Handle(k, call).msgs[k.current]) ==
            Passed(call.tid, call.msg, call.msgLen, call.reply, call.replyLen)
  {
    hide Partition, Forest, Ledger, Ranked, Within, MailBut, NullTask, CanCreate, Deliver, Tids;
    assert Slot(|k.tasks|, CurrentTid(k)) == k.current by { OwnSlot(k, k.current); }
    var junk := call.junk;
    var m := Msg(CurrentTid(k), call.tid, junk.putTid, call.msg, call.msgLen, call.reply, call.replyLen, junk.recv,
                 junk.recvLen);
    var k1 := Post(k, call.tid, m);
    var w := k1.msgs[Slot(|k.tasks|, call.tid)];
    var k2 := k1.(msgs := k1.msgs[k.current := m.(putTid := w.putTid, recv := w.recv, recvLen := w.recvLen)]);
    if k1.mail[Slot(|k.tasks|, call.tid)] != [] { DeliverRecords(k2, call.tid); }
  }

  lemma SendSparesRecord(k: Kernel, call: Call, i: nat)
    requires Running(k) && CanCreate(k) && call.SendCall? && i < |k.tasks| && i != k.current
    ensures Handle(k, call).msgs[i] == k.msgs[i]
  {
    hide Core, NullTask, CanCreate, Send, Ranked, Within;
    SendRecords(k, call.tid, call.msg, call.msgLen, call.reply, call.replyLen, call.junk);
  }

  /** Receive only fills in where the message is to go. */
  lemma ReceiveSparesRecord(k: Kernel, call: Call, i: nat)
    requires Running(k) && CanCreate(k) && call.ReceiveCall? && i < |k.tasks| && i != k.current
    ensures Holds(Handle(k, call).msgs[i]) == Holds(k.msgs[i])
  {
    hide Partition, Forest, Ledger, Ranked, Within, MailBut, NullTask, CanCreate, Deliver, Tids, Slot;
    OwnSlot(k, k.current);
    var box := k.mail[k.current];
    if box != [] {
      InBox(k, k.current);
      var j := box[RecordFor(k, call.oldest)];
      assert j in box;
      var m := k.msgs[j].(putTid := call.put, recv := call.buf, recvLen := call.len);
      DeliverRecords(k.(msgs := k.msgs[j := m]), CurrentTid(k));
    }
  }

  lemma ReplySparesRecords(k: Kernel, call: Call)
    requires Running(k) && CanCreate(k) && call.ReplyCall?
    ensures Handle(k, call).msgs == k.msgs
  {
    hide Partition, Tids, Forest, Mail, Ledger, NullTask, CanCreate, Ranked, Within, Slot, CopyBytes;
  }

  lemma HandlePasses(k: Kernel, call: Call, passed: map<nat, Passed>, i: nat)
    requires Running(k) && Enabled(k, call) && CanCreate(k) && !call.Store? && RecordsPassed(k, passed)
    requires i < |k.tasks| == |Handle(k, call).tasks| && InSend(Handle(k, call).tasks[i].state)
    ensures i in Passes(k, call, passed) && Holds(Handle(k, call).msgs[i]) == Passes(k, call, passed)[i]
  {
    hide Partition, Tids, Forest, Mail, Ledger, NullTask, CanCreate, Ranked, Within, Slot, Handle, Enabled, Kills,
      Releases, MailAfter, Told, Holds;
    HandleTabled(k, call);
    if i == k.current {
      SendFillsRecord(k, call);
    } else if call.SendCall? {
      SendSparesRecord(k, call, i);
    } else if call.ReceiveCall? {
      ReceiveSparesRecord(k, call, i);
    } else if call.ReplyCall? {
      ReplySparesRecords(k, call);
    }
  }

  lemma StepPasses(k: Kernel, call: Call, passed: map<nat, Passed>)
    requires Running(k) && Enabled(k, call) && RecordsPassed(k, passed)
    ensures CanCreate(k) && RecordsPassed(Step(k, call), Passes(k, call, passed))
  {
    hide Partition, Tids, Forest, Mail, Ledger, NullTask, CanCreate, Ranked, Within, Slot, Handle, Schedule, Enabled,
      Holds, Passes;
    StepKeeps(k, call);
    if call.Store? {
      StoreExact(k, call);
      StorePasses(k, call, passed);
    } else {
      HandleKeeps(k, call);
      NullStays(k, call);
      DecisionTabled(Handle(k, call));
      forall i | 0 <= i < |k.tasks| && InSend(Handle(k, call).tasks[i].state)
        ensures i in Passes(k, call, passed) && Holds(Handle(k, call).msgs[i]) == Passes(k, call, passed)[i]
      {
        HandlePasses(k, call, passed, i);
      }
    }
  }

  lemma StorePasses(k: Kernel, call: Call, passed: map<nat, Passed>)
    requires WF(k) && k.current != NONE && call.Store?
    ensures Passes(k, call, passed) == passed
  {
  }

  // ------------------------------------------------------------------ over runs

  ghost function PassedDuring(k: Kernel, calls: seq<Call>, passed: map<nat, Passed>): map<nat, Passed>
    requires Running(k) && Legal(k, calls)
    decreases |calls|
  {
    if calls == [] then passed
    else
      StepKeeps(k, calls[0]);
      PassedDuring(Step(k, calls[0]), calls[1..], Passes(k, calls[0], passed))
  }

  lemma {:induction false} RunPasses(k: Kernel, calls: seq<Call>, passed: map<nat, Passed>)
    requires Running(k) && Legal(k, calls) && RecordsPassed(k, passed)
    ensures RecordsPassed(Run(k, calls), PassedDuring(k, calls, passed))
    decreases |calls|
  {
    hide Partition, Tids, Forest, Ledger, Mail, NullTask, Ranked, Within, CanCreate, RecordsPassed, Step, Enabled,
      Passes;
    if calls != [] {
      StepKeeps(k, calls[0]);
      StepPasses(k, calls[0], passed);
      RunPasses(Step(k, calls[0]), calls[1..], Passes(k, calls[0], passed));
    }
  }

  /** In every reachable state the record of every task in a Send holds the addressee, the message and the
      reply buffer that the task itself passed to that Send. */
  lemma SendersAreNamed(n: nat, calls: seq<Call>)
    requires 2 <= n <= LONG_MAX
    requires Running(Boot(n)) && Legal(Boot(n), calls)
    ensures RecordsPassed(Run(Boot(n), calls), PassedDuring(Boot(n), calls, map[]))
  {
    hide Boot, Core, Run, PassedDuring;
    BootIsCalm(n);
    RunPasses(Boot(n), calls, map[]);
  }

  /** Over any run from boot: a Reply to a task that waits for one puts the start of the reply into the buffer that
      the task passed to its Send, and nothing beyond, if the two buffers do not overlap; the sender is
      told the full length. */
  lemma ReplyArrives(n: nat, calls: seq<Call>, call: Call)
    requires 2 <= n <= LONG_MAX && call.ReplyCall?
    requires Running(Boot(n)) && Legal(Boot(n), calls)
    requires var k := Run(Boot(n), calls); IsTaskAlive(k, call.tid) && GetTaskState(k, call.tid) == ReplyBlocked
    ensures var k, passed := Run(Boot(n), calls), PassedDuring(Boot(n), calls, map[]);
            var i, k' := Slot(|k.tasks|, call.tid), Reply(k, call.tid, call.buf, call.len).0;
            && i in passed && k'.tasks[i].ret == call.len
            && (passed[i].reply == NULL || call.buf == NULL ==> k'.mem == k.mem)
            && (passed[i].reply != NULL && call.buf != NULL &&
                (passed[i].reply + passed[i].replyLen <= call.buf || call.buf + call.len <= passed[i].reply) ==>
                  Arrives(k.mem, k'.mem, passed[i].reply, passed[i].replyLen, Bytes(k.mem, call.buf, call.len)))
  {
    hide Partition, Tids, Forest, Mail, Ledger, NullTask, ActiveIsCurrent, Ranked, Within, Slot, Boot, Run, Legal,
      PassedDuring, Reply, Arrives;
    SendersAreNamed(n, calls);
    ReplyDelivers(Run(Boot(n), calls), call.tid, call.buf, call.len);
  }
}
