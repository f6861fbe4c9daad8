/** Tasks that await events at one priority stand in line in the order in which they began to wait. */
module KernelLines {
  import opened Lists
  import opened KernelModel
  import opened KernelInvariant
  import opened KernelSteps
  import opened KernelDestroy
  import opened KernelRuns
  import opened KernelTheorems
  import opened KernelRecords
  import opened KernelScheduling
  import opened KernelInterrupts
  import opened KernelOrphans
  import opened KernelLineage
  import opened KernelTransitions

  function LineAt(lists: seq<seq<nat>>, priority: nat): seq<nat>
    requires |lists| == FREE_LIST + 1 && priority < NUM_PRIORITIES
  {
    lists[ListOf(EventBlocked, priority)]
  }

  // ------------------------------------------------------------------ handlers only take tasks out of a line

  lemma StateLeavesLine(k: Kernel, i: nat, to: TaskState, p: nat)
    requires WF(k) && Tids(k) && i < |k.tasks| && k.tasks[i].state != EventBlocked && to != EventBlocked
    requires p < NUM_PRIORITIES
    ensures LineAt(SetState(k, k.tasks[i].tid, to).lists, p) == LineAt(k.lists, p)
  {
    OwnSlot(k, i);
    hide Ranked, Within, Slot, Tids;
  }

  lemma RetLeavesLists(k: Kernel, tid: int, v: int)
    requires WF(k)
    ensures SetRet(k, tid, v).lists == k.lists
  {
    hide Ranked, Within, Slot;
  }

  lemma DeliverLeavesLine(k: Kernel, i: nat, r: nat, p: nat)
    requires Shape(k) && Deliverable(k, i, r) && Slot(|k.tasks|, k.tasks[r].tid) == r && p < NUM_PRIORITIES
    ensures LineAt(Deliver(k, k.tasks[r].tid).0.lists, p) == LineAt(k.lists, p)
  {
    hide Partition, Forest, ActiveIsCurrent, Slot, SetState, SetRet, Ranked, Within, CopyBytes, ListOf;
    var m := k.msgs[i];
    var k1 := Unboxed(k, k.tasks[r].tid);
    assert k1.tasks == k.tasks && k1.lists == k.lists;
    ShapeKept(k, k1);
    StateChanged(k1, i, ReplyBlocked);
    StateLeavesLine(k1, i, ReplyBlocked, p);
    var k2 := SetState(k1, m.fromTid, ReplyBlocked);
    StateLeavesLine(k2, r, Ready, p);
    RetLeavesLists(SetState(k2, m.toTid, Ready), m.toTid, m.msgLen);
  }

  lemma SendLeavesLine(k: Kernel, call: Call, p: nat)
    requires Running(k) && CanCreate(k) && call.SendCall? && p < NUM_PRIORITIES
    ensures LineAt(Handle(k, call).lists, p) == LineAt(k.lists, p)
  {
    hide Partition, Forest, Ledger, NullTask, CanCreate, Ranked, Within, Deliver, ReadyGrows, MailBut, ListOf;
    if Reaches(k, call.tid) {
      var q, c := Slot(|k.tasks|, call.tid), k.current;
      var m := Msg(CurrentTid(k), call.tid, call.junk.putTid, call.msg, call.msgLen, call.reply, call.replyLen,
                   call.junk.recv, call.junk.recvLen);
      PostKeeps(k, call.tid, m);
      OwnSlot(k, c);
      hide Slot, Tids;
      var k1 := Post(k, call.tid, m);
      if k1.tasks[q].state == SendBlocked {
        var w := k1.msgs[q];
        var k2 := k1.(msgs := k1.msgs[c := m.(putTid := w.putTid, recv := w.recv, recvLen := w.recvLen)]);
        SameRecordsKept(k1, k2, q);
        ShapeKept(k1, k2);
        Delivery(k2, q);
        DeliverLeavesLine(k2, k2.mail[q][0], q, p);
      }
    }
  }

  lemma ReceiveLeavesLine(k: Kernel, call: Call, p: nat)
    requires Running(k) && CanCreate(k) && call.ReceiveCall? && p < NUM_PRIORITIES
    ensures LineAt(Handle(k, call).lists, p) == LineAt(k.lists, p)
  {
    hide Partition, Tids, Forest, Ledger, NullTask, CanCreate, Ranked, Within, Deliver, ReadyGrows, MailBut, Slot,
      ListOf;
    OwnSlot(k, k.current);
    var box := k.mail[k.current];
    if box != [] {
      var at := RecordFor(k, call.oldest);
      InBox(k, k.current);
      assert box[at] in box && box[0] in box;
      var m := k.msgs[box[at]].(putTid := call.put, recv := call.buf, recvLen := call.len);
      var k1 := k.(msgs := k.msgs[box[at] := m]);
      ShapeKept(k, k1);
      SameRecordsKept(k, k1, NONE);
      WithoutException(k1, k.current);
      Delivery(k1, k.current);
      DeliverLeavesLine(k1, box[0], k.current, p);
    }
  }

  lemma ReplyLeavesLine(k: Kernel, call: Call, p: nat)
    requires Running(k) && CanCreate(k) && call.ReplyCall? && p < NUM_PRIORITIES
    ensures LineAt(Handle(k, call).lists, p) == LineAt(k.lists, p)
  {
    hide Partition, Forest, Ledger, NullTask, CanCreate, Ranked, Within, CopyBytes, QueueOk, ListOf, SetState, SetRet;
    if Reaches(k, call.tid) && k.tasks[Slot(|k.tasks|, call.tid)].state == ReplyBlocked {
      var i := Slot(|k.tasks|, call.tid);
      assert RecordOk(k, i);
      hide MailBut, RecordOk;
      var m := k.msgs[i];
      var k1 := k.(mem := if m.reply != NULL && call.buf != NULL
                          then CopyBytes(k.mem, m.reply, call.buf, Min(m.replyLen, call.len)) else k.mem);
      TidsIndependent(k, k1);
      StateLeavesLine(k1, i, Ready, p);
      RetLeavesLists(SetState(k1, m.fromTid, Ready), m.fromTid, call.len);
    }
  }

  /** The others. */
  lemma HandlerTakesOut(k: Kernel, call: Call, p: nat) returns (out: set<nat>)
    requires Running(k) && Enabled(k, call) && CanCreate(k) && !call.Store? && p < NUM_PRIORITIES
    ensures LineAt(Handle(k, call).lists, p) == Minus(LineAt(k.lists, p), out)
  {
    hide Partition, Tids, Forest, Mail, Ledger, NullTask, ActiveIsCurrent, CanCreate, Ranked, Within, Slot, Create,
      Destroy, Send, Receive, Reply, Irq, SubtreeQuiet, DeathRow, WornOut, Minus, EventId, Awaits, NextWaiter;
    out := {};
    MinusNothing(LineAt(k.lists, p), {});
    match call {
      case CreateCall(priority) =>
        if 0 <= priority <= 3 {
          if k.lists[FREE_LIST] == [] { NothingCreated(k, priority); } else { CreateEffect(k, priority); }
        }
      case SendCall(_, _, _, _, _, _) => SendLeavesLine(k, call, p);
      case ReceiveCall(_, _, _, _, _) => ReceiveLeavesLine(k, call, p);
      case ReplyCall(_, _, _) => ReplyLeavesLine(k, call, p);
      case DestroyCall(tid) =>
        if Accepted(k, tid) {
          DestroyLists(k, tid);
          out := ToSet(DeathRow(k, tid));
        } else {
          RejectedDestroy(k, tid);
        }
      case Interrupt(code) =>
        InterruptExact(k, code);
        if code < 0 && exists i: nat :: Awaits(k, EventId(code), i) {
          out := WokenLeaves(k, code, p);
        }
      case _ =>
    }
  }

  lemma WokenLeaves(k: Kernel, code: int, p: nat) returns (out: set<nat>)
    requires Running(k) && CanCreate(k) && code < 0 && p < NUM_PRIORITIES
    requires exists i: nat :: Awaits(k, EventId(code), i)
    ensures LineAt(Handle(k, Interrupt(code)).lists, p) == Minus(LineAt(k.lists, p), out)
  {
    hide Partition, Tids, Forest, Mail, Ledger, NullTask, ActiveIsCurrent, CanCreate, Ranked, Within, Handle, EventId,
      Behind, Minus;
    InterruptExact(k, code);
    var i: nat :| NextWaiter(k, EventId(code), i) && Handle(k, Interrupt(code)) == WokenUp(k, i);
    MinusNothing(LineAt(k.lists, p), {});
    out := if k.tasks[i].priority == p then {i} else {};
  }

  // ------------------------------------------------------------------ a whole step, and runs

  /** Whoever stays in line keeps its order, and the only one to join joins at the end. */
  ghost predicate LineKept(s: seq<nat>, s': seq<nat>, who: int) {
    && NoDup(s) && NoDup(s')
    && (forall x :: x in s' && x !in s ==> x == who && Position(s', x) == |s'| - 1)
    && forall x, y {:trigger Position(s, x), Position(s, y)} ::
         x in s && y in s && x in s' && y in s' && Position(s, x) < Position(s, y) ==> Position(s', x) < Position(s', y)
  }

  lemma {:induction false} OrderAfterRemoval(s: seq<nat>, out: set<nat>, x: nat, y: nat)
    requires NoDup(s) && x in s && y in s && x !in out && y !in out && Position(s, x) < Position(s, y)
    ensures x in Minus(s, out) && y in Minus(s, out) && Position(Minus(s, out), x) < Position(Minus(s, out), y)
  {
    var front, last := s[..|s| - 1], s[|s| - 1];
    assert s == front + [last];
    PositionUnique(s, last, |front|);
    assert x in front;
    PositionInLonger(front, s, x);
    PositionAfterRemoval(front, out, x);
    PositionInLonger(Minus(front, out), Minus(s, out), x);
    if y == last {
      assert Minus(s, out) == Minus(front, out) + [y];
      PositionUnique(Minus(s, out), y, |Minus(front, out)|);
    } else {
      assert y in front;
      PositionInLonger(front, s, y);
      OrderAfterRemoval(front, out, x, y);
      PositionInLonger(Minus(front, out), Minus(s, out), y);
    }
  }

  lemma OutAndIn(s: seq<nat>, out: set<nat>, s': seq<nat>, who: nat)
    requires NoDup(s) && NoDup(s') && who !in s && (s' == Minus(s, out) || s' == Minus(s, out) + [who])
    ensures LineKept(s, s', who)
  {
    hide Minus;
    var r := Minus(s, out);
    forall x | x in s' && x !in s ensures x == who && Position(s', x) == |s'| - 1 {
      PositionUnique(s', x, |s'| - 1);
    }
    forall x, y | x in s && y in s && x in s' && y in s' && Position(s, x) < Position(s, y)
      ensures Position(s', x) < Position(s', y)
    {
      OrderAfterRemoval(s, out, x, y);
      PositionInLonger(r, s', x);
      PositionInLonger(r, s', y);
    }
  }

  lemma DecisionExtendsLine(k: Kernel, p: nat)
    requires Core(k) && NullTask(k) && k.current != NONE && p < NUM_PRIORITIES
    ensures LineAt(Schedule(k).lists, p) == LineAt(k.lists, p) ||
            LineAt(Schedule(k).lists, p) == LineAt(k.lists, p) + [k.current]
  {
    hide Slot, Ranked, Within, Partition, Tids, Forest, Mail, Ledger, NullTask, Requeue, ReadyGrows;
    RequeueExtends(k, p);
    HeadIsPicked(k);
  }

  lemma RequeueExtends(k: Kernel, p: nat)
    requires WF(k) && k.current != NONE && p < NUM_PRIORITIES
    ensures LineAt(Requeue(k).lists, p) == LineAt(k.lists, p) ||
            LineAt(Requeue(k).lists, p) == LineAt(k.lists, p) + [k.current]
  {
    hide Ranked, Within;
  }

  lemma NotInLine(k: Kernel, p: nat)
    requires WF(k) && Partition(k) && p < NUM_PRIORITIES
    ensures NoDup(LineAt(k.lists, p)) && (k.current != NONE ==> k.current !in LineAt(k.lists, p))
  {
    hide Ranked, Within;
    if k.current != NONE && k.current in LineAt(k.lists, p) {
      HomeOf(k, k.current, ListOf(EventBlocked, p));
    }
  }

  /** One step, for the line of each priority. */
  lemma StepKeepsLine(k: Kernel, call: Call, p: nat)
    requires Running(k) && Enabled(k, call) && p < NUM_PRIORITIES
    ensures CanCreate(k) && LineKept(LineAt(k.lists, p), LineAt(Step(k, call).lists, p), k.current)
  {
    hide Partition, Tids, Forest, Mail, Ledger, NullTask, CanCreate, Ranked, Within, Slot, Handle, Schedule, Enabled,
      LineKept, Minus, NoDup;
    StepKeeps(k, call);
    NotInLine(k, p);
    NotInLine(Step(k, call), p);
    var out: set<nat> := {};
    if call.Store? {
      MinusNothing(LineAt(k.lists, p), {});
    } else {
      HandleKeeps(k, call);
      NullStays(k, call);
      HandleKeepsCurrent(k, call);
      out := HandlerTakesOut(k, call, p);
      DecisionExtendsLine(Handle(k, call), p);
    }
    OutAndIn(LineAt(k.lists, p), out, LineAt(Step(k, call).lists, p), k.current);
  }

  /** In every state of the run i awaits an event at priority p and stands in the line before j. */
  ghost predicate Ahead(k: Kernel, i: nat, j: nat, p: nat)
    requires WF(k) && p < NUM_PRIORITIES
  {
    var line := LineAt(k.lists, p);
    i in line && j in line && Position(line, i) < Position(line, j)
  }

  /** Over any run: of two tasks that await events at one priority, the one that began first stays ahead of the other
      as long as both wait. */
  lemma {:induction false} FirstStaysFirst(k: Kernel, calls: seq<Call>, i: nat, j: nat, p: nat)
    requires Running(k) && Legal(k, calls) && p < NUM_PRIORITIES && Ahead(k, i, j, p)
    requires BothWait(k, calls, i, j, p)
    ensures Ahead(Run(k, calls), i, j, p)
    decreases |calls|
  {
    hide Partition, Tids, Forest, Mail, Ledger, NullTask, Ranked, Within, CanCreate, Step, Enabled, Position;
    if calls != [] {
      StepKeeps(k, calls[0]);
      StepKeepsLine(k, calls[0], p);
      FirstStaysFirst(Step(k, calls[0]), calls[1..], i, j, p);
    }
  }

  ghost predicate BothWait(k: Kernel, calls: seq<Call>, i: nat, j: nat, p: nat)
    requires Running(k) && Legal(k, calls) && p < NUM_PRIORITIES
    decreases |calls|
  {
    i in LineAt(k.lists, p) && j in LineAt(k.lists, p) &&
    (calls == [] || (StepKeeps(k, calls[0]); BothWait(Step(k, calls[0]), calls[1..], i, j, p)))
  }

  /** Whoever begins to await an event does so behind everybody who awaits one at its priority. */
  lemma LastComesLast(k: Kernel, intr: int)
    requires Running(k) && k.current != 0
    ensures Enabled(k, AwaitCall(intr)) && CanCreate(k)
    ensures var c, k' := k.current, Step(k, AwaitCall(intr));
            var p := k.tasks[c].priority;
            && c in LineAt(k'.lists, p) && Position(LineAt(k'.lists, p), c) == |LineAt(k'.lists, p)| - 1
            && forall x :: x in LineAt(k'.lists, p) ==> x in LineAt(k.lists, p) || x == c
  {
    hide Partition, Tids, Forest, Mail, Ledger, NullTask, CanCreate, Ranked, Within, Slot, Step, Position, MailAfter;
    var call, p := AwaitCall(intr), k.tasks[k.current].priority;
    StepKeeps(k, call);
    StepTabled(k, call);
    StepKeepsLine(k, call, p);
    NotInLine(k, p);
    InItsLine(Step(k, call), k.current);
  }

  lemma InItsLine(k: Kernel, i: nat)
    requires WF(k) && Partition(k) && i < |k.tasks| && i != k.current && k.tasks[i].state == EventBlocked
    ensures i in LineAt(k.lists, k.tasks[i].priority)
  {
    assert Home(k, i) == ListOf(EventBlocked, k.tasks[i].priority);
  }
}
