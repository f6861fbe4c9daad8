/** What every reachable kernel state satisfies. */
module KernelInvariant {
  import opened Lists
  import opened KernelModel

  predicate Listed(t: Task) {
    Code(t.state) >= 0
  }

  // ------------------------------------------------------------------ one place per descriptor

  /** Where descriptor i belongs: the current task in no list, a free one in the free list, a
      retired one in none, any other in the list for its state and priority. */
  function Home(k: Kernel, i: nat): (q: int)
    requires WF(k) && i < |k.tasks|
  {
    var t := k.tasks[i];
    if t.state == Free then FREE_LIST
    else if t.state == Destroyed || i == k.current then NONE
    else ListOf(t.state, t.priority)
  }

  ghost predicate Partition(k: Kernel)
    requires WF(k)
  {
    && (forall q :: 0 <= q < |k.lists| ==> NoDup(k.lists[q]))
    && (forall i, q {:trigger i in k.lists[q]} :: 0 <= i < |k.tasks| && 0 <= q < |k.lists| ==>
        (i in k.lists[q] <==> Home(k, i) == q))
  }

  function Moved(lists: seq<seq<nat>>, src: int, i: nat, dst: int): seq<seq<nat>>
    requires src < |lists| && dst < |lists|
  {
    var off := if src >= 0 then Delist(lists, src, i) else lists;
    if dst >= 0 then Enlist(off, dst, i) else off
  }

  /** Taking one descriptor out of its old home and appending it to its new one keeps the partition. */
  lemma PartitionMoved(k: Kernel, k': Kernel, i: nat)
    requires WF(k) && WF(k') && Partition(k) && |k'.tasks| == |k.tasks| && i < |k.tasks|
    requires forall j :: 0 <= j < |k.tasks| && j != i ==> Home(k', j) == Home(k, j)
    requires k'.lists == Moved(k.lists, Home(k, i), i, Home(k', i))
    ensures Partition(k')
  {
    var src, dst := Home(k, i), Home(k', i);
    var off := if src >= 0 then Delist(k.lists, src, i) else k.lists;
    assert forall q :: 0 <= q < |off| ==> NoDup(off[q]) && i !in off[q];
    assert forall j, q :: 0 <= j < |k.tasks| && 0 <= q < |off| && j != i ==> (j in off[q] <==> Home(k, j) == q);
  }

  lemma PartitionKept(k: Kernel, k': Kernel)
    requires WF(k) && WF(k') && Partition(k) && |k'.tasks| == |k.tasks| && k'.lists == k.lists
    requires forall i :: 0 <= i < |k.tasks| ==> Home(k', i) == Home(k, i)
    ensures Partition(k')
  {
  }

  // ------------------------------------------------------------------ tids and the family tree

  /** A descriptor only ever carries tids of its own slot, and the next one never overflows. */
  ghost predicate Tids(k: Kernel)
    requires WF(k)
  {
    forall i :: 0 <= i < |k.tasks| ==>
      && Slot(|k.tasks|, k.tasks[i].tid) == i
      && -|k.tasks| <= k.tasks[i].tid <= LONG_MAX
      && (k.tasks[i].state == Free ==> k.tasks[i].tid < LONG_MAX - |k.tasks|)
      && (Listed(k.tasks[i]) ==> k.tasks[i].tid >= 0)
  }

  /** The children lists and the parent tids of the listed tasks describe the same forest. */
  ghost predicate Forest(k: Kernel)
    requires WF(k)
  {
    && (forall p :: 0 <= p < |k.kids| ==> NoDup(k.kids[p]))
    && (forall p, c {:trigger c in k.kids[p]} :: 0 <= p < |k.kids| && c in k.kids[p] ==>
          Listed(k.tasks[p]) && Listed(k.tasks[c]) && k.tasks[c].parentTid == k.tasks[p].tid)
    && (forall c :: 0 <= c < |k.tasks| && Listed(k.tasks[c]) && k.tasks[c].parentTid != -1 ==>
          k.tasks[c].parentTid >= 0 && c in k.kids[Slot(|k.tasks|, k.tasks[c].parentTid)])
    && (forall i :: 0 <= i < |k.tasks| && Listed(k.tasks[i]) ==> k.born[i] < |k.log|)
  }

  ghost predicate ActiveIsCurrent(k: Kernel)
    requires WF(k)
  {
    forall i :: 0 <= i < |k.tasks| && k.tasks[i].state == Active ==> i == k.current
  }

  ghost predicate Shape(k: Kernel) {
    WF(k) && Partition(k) && Tids(k) && Forest(k) && ActiveIsCurrent(k)
  }

  // ------------------------------------------------------------------ messages

  /** The queue of slot r holds, once each, records of RECEIVE_BLOCKED tasks sent to the listed task there. */
  ghost predicate QueueOk(k: Kernel, r: nat)
    requires WF(k) && r < |k.tasks|
  {
    && NoDup(k.mail[r])
    && forall i {:trigger i in k.mail[r]} :: i in k.mail[r] ==>
         Listed(k.tasks[r]) && k.tasks[i].state == ReceiveBlocked && k.msgs[i].toTid == k.tasks[r].tid
  }

  /** A RECEIVE_BLOCKED task's record is in the queue of the task it was sent to; a REPLY_BLOCKED
      task's record still names it as the sender. */
  ghost predicate RecordOk(k: Kernel, i: nat)
    requires WF(k) && i < |k.tasks|
  {
    && (k.tasks[i].state == ReceiveBlocked ==>
          k.msgs[i].fromTid == k.tasks[i].tid && k.msgs[i].toTid >= 0 && i in k.mail[Slot(|k.tasks|, k.msgs[i].toTid)])
    && (k.tasks[i].state == ReplyBlocked ==> k.msgs[i].fromTid == k.tasks[i].tid)
  }

  /** Mail, where the task in slot r may be waiting with a message already in its queue. */
  ghost predicate MailBut(k: Kernel, r: int)
    requires WF(k)
  {
    && (forall q :: 0 <= q < |k.tasks| ==> QueueOk(k, q))
    && (forall i :: 0 <= i < |k.tasks| ==> RecordOk(k, i))
    && (forall i :: 0 <= i < |k.tasks| && i != r && k.tasks[i].state == SendBlocked ==> k.mail[i] == [])
  }

  /** One record per task suffices: it is in the queue of the receiver exactly while the task is
      RECEIVE_BLOCKED, and a task waiting for messages has none. */
  ghost predicate Mail(k: Kernel)
    requires WF(k)
  {
    MailBut(k, NONE)
  }

  // ------------------------------------------------------------------ history

  /** How far the current Send of one task has come, read off the history. */
  datatype Phase = Idle | Pending(to: int) | Taken | Broken

  function Advance(p: Phase, e: Event, t: int): Phase {
    match e
    case Sent(x, to) => if x != t then p else if p == Idle then Pending(to) else Broken
    case Received(x, receiver) => if x != t then p else if p == Pending(receiver) then Taken else Broken
    case Replied(x, _) => if x != t then p else if p == Taken then Idle else Broken
    case _ => p
  }

  function PhaseOf(log: seq<Event>, t: int): Phase {
    if log == [] then Idle else Advance(PhaseOf(log[..|log| - 1], t), log[|log| - 1], t)
  }

  /** The senders to task r, in the order they sent. */
  function SentTo(log: seq<Event>, r: int): seq<int> {
    if log == [] then []
    else
      var e := log[|log| - 1];
      SentTo(log[..|log| - 1], r) + if e.Sent? && e.to == r then [e.tid] else []
  }

  /** The senders whose messages task r received, in the order it received them. */
  function TakenBy(log: seq<Event>, r: int): seq<int> {
    if log == [] then []
    else
      var e := log[|log| - 1];
      TakenBy(log[..|log| - 1], r) + if e.Received? && e.receiver == r then [e.tid] else []
  }

  function TidsOf(tasks: seq<Task>, list: seq<nat>): (r: seq<int>)
    requires forall x :: x in list ==> x < |tasks|
    ensures |r| == |list|
  {
    seq(|list|, j requires 0 <= j < |list| => assert list[j] in list; tasks[list[j]].tid)
  }

  function PhaseIn(t: Task, m: Msg): Phase {
    if t.state == ReceiveBlocked then Pending(m.toTid) else if t.state == ReplyBlocked then Taken else Idle
  }

  ghost predicate PhaseOk(k: Kernel, i: nat)
    requires WF(k) && i < |k.tasks|
  {
    PhaseOf(k.log, k.tasks[i].tid) == PhaseIn(k.tasks[i], k.msgs[i])
  }

  ghost predicate FifoOk(k: Kernel, i: nat)
    requires WF(k) && i < |k.tasks|
  {
    SentTo(k.log, k.tasks[i].tid) == TakenBy(k.log, k.tasks[i].tid) + TidsOf(k.tasks, k.mail[i])
  }

  /** Every listed task's history is a repetition of sent, received, replied, broken off where its state says. */
  ghost predicate Phases(k: Kernel)
    requires WF(k)
  {
    forall i :: 0 <= i < |k.tasks| && Listed(k.tasks[i]) ==> PhaseOk(k, i)
  }

  /** Every listed task has received the messages sent to it in the order they were sent, up to those still waiting. */
  ghost predicate Fifo(k: Kernel)
    requires WF(k)
  {
    forall i :: 0 <= i < |k.tasks| && Listed(k.tasks[i]) ==> FifoOk(k, i)
  }

  predicate Issued(k: Kernel, t: int)
    requires WF(k)
  {
    0 <= t <= k.tasks[Slot(|k.tasks|, t)].tid
  }

  /** The history only speaks of tids that have been handed out. */
  ghost predicate Known(k: Kernel)
    requires WF(k)
  {
    forall e :: e in k.log ==>
      && Issued(k, e.tid)
      && (e.Sent? ==> Issued(k, e.to))
      && (e.Received? ==> Issued(k, e.receiver))
  }

  /** A tid is alive exactly when it was handed out and has neither exited nor been destroyed, and
      no tid is handed out twice. */
  ghost predicate Lives(k: Kernel)
    requires WF(k)
  {
    && (forall t :: 0 <= t <= LONG_MAX ==>
          (IsTaskAlive(k, t) <==> Created(t) in k.log && Exited(t) !in k.log && Reaped(t) !in k.log))
    && (forall a, b :: 0 <= a < b < |k.log| && k.log[a].Created? && k.log[b].Created? ==> k.log[a].tid != k.log[b].tid)
  }

  ghost predicate Ledger(k: Kernel)
    requires WF(k)
  {
    Phases(k) && Fifo(k) && Known(k) && Lives(k)
  }

  ghost predicate Core(k: Kernel) {
    Shape(k) && Mail(k) && Ledger(k)
  }

  /** The null task exists for ever and is always ready or running. */
  ghost predicate NullTask(k: Kernel)
    requires WF(k)
  {
    var t := k.tasks[0];
    t.tid == 0 && t.priority == NULL_PRIORITY && t.parentTid == -1 && (t.state == Ready || t.state == Active)
  }

  ghost predicate Inv(k: Kernel) {
    Core(k) && NullTask(k)
  }

  /** A state in which a task runs user code. */
  ghost predicate Running(k: Kernel) {
    Inv(k) && k.current != NONE && k.tasks[k.current].state == Active
  }

  // ------------------------------------------------------------------ state changes that keep the shape

  /** The tasks that differ between two states, and how: in state, priority, event and return value only. */
  ghost predicate SameTree(k: Kernel, k': Kernel)
    requires WF(k) && WF(k')
  {
    && |k'.tasks| == |k.tasks|
    && k'.kids == k.kids && k'.born == k.born && |k'.log| >= |k.log|
    && forall i :: 0 <= i < |k.tasks| ==>
         && k'.tasks[i].tid == k.tasks[i].tid && k'.tasks[i].parentTid == k.tasks[i].parentTid
         && Listed(k'.tasks[i]) == Listed(k.tasks[i])
         && (k'.tasks[i].state == Free <==> k.tasks[i].state == Free)
  }

  lemma TidsKept(k: Kernel, k': Kernel)
    requires WF(k) && WF(k') && SameTree(k, k') && Tids(k)
    ensures Tids(k')
  {
    forall i | 0 <= i < |k.tasks|
      ensures Slot(|k'.tasks|, k'.tasks[i].tid) == i
    {
      assert Slot(|k.tasks|, k.tasks[i].tid) == i;
    }
  }

  lemma ForestKept(k: Kernel, k': Kernel)
    requires WF(k) && WF(k') && SameTree(k, k') && Forest(k)
    ensures Forest(k')
  {
    forall c | 0 <= c < |k.tasks| && Listed(k'.tasks[c]) && k'.tasks[c].parentTid != -1
      ensures k'.tasks[c].parentTid >= 0 && c in k'.kids[Slot(|k'.tasks|, k'.tasks[c].parentTid)]
    {
      assert Slot(|k'.tasks|, k'.tasks[c].parentTid) == Slot(|k.tasks|, k.tasks[c].parentTid);
    }
  }

  lemma TreeKept(k: Kernel, k': Kernel)
    requires WF(k) && WF(k') && SameTree(k, k') && Tids(k) && Forest(k)
    ensures Tids(k') && Forest(k')
  {
    TidsKept(k, k');
    ForestKept(k, k');
  }

  /** Ready lists are only appended to. */
  ghost predicate ReadyGrows(k: Kernel, k': Kernel)
    requires WF(k) && WF(k')
  {
    forall p: nat :: p < NUM_PRIORITIES ==> k.lists[ListOf(Ready, p)] <= k'.lists[ListOf(Ready, p)]
  }

  /** SetState on a listed task, to a listed state other than ACTIVE. */
  lemma StateChanged(k: Kernel, i: nat, to: TaskState)
    requires Shape(k) && i < |k.tasks| && Listed(k.tasks[i]) && Code(to) >= 0 && to != Active
    ensures var k' := SetState(k, k.tasks[i].tid, to);
            && Shape(k') && SameTree(k, k')
            && k' == k.(lists := k'.lists, tasks := k.tasks[i := k.tasks[i].(state := to)])
            && (k.tasks[i].state != Ready ==> ReadyGrows(k, k'))
  {
    hide Partition, Forest, Ranked, Within;
    var t := k.tasks[i];
    var k' := SetState(k, t.tid, to);
    assert Slot(|k.tasks|, t.tid) == i;
    assert t.tid == CurrentTid(k) <==> i == k.current by {
      if k.current != NONE {
        assert Slot(|k.tasks|, k.tasks[k.current].tid) == k.current;
      }
    }
    hide Slot, Tids;
    if i == k.current {
      AbsentFromLists(k, i, ListOf(t.state, t.priority));
    }
    PartitionMoved(k, k', i);
    TreeKept(k, k');
  }

  lemma AbsentFromLists(k: Kernel, i: nat, q: nat)
    requires WF(k) && Partition(k) && i < |k.tasks| && q < |k.lists| && Home(k, i) != q
    ensures Delist(k.lists, q, i) == k.lists
  {
    MinusNothing(k.lists[q], {i});
  }

  lemma CurrentStateChanged(k: Kernel, to: TaskState)
    requires Shape(k) && k.current != NONE && Listed(k.tasks[k.current]) && Code(to) >= 0
    ensures Shape(SetCurrentState(k, to)) && SameTree(k, SetCurrentState(k, to))
  {
    PartitionMoved(k, SetCurrentState(k, to), k.current);
    TreeKept(k, SetCurrentState(k, to));
  }

  /** Fields outside the tables of tasks and lists do not matter to the shape, and the log may grow. */
  lemma ShapeKept(k: Kernel, k': Kernel)
    requires Shape(k) && WF(k')
    requires k'.current == k.current && k'.tasks == k.tasks && k'.lists == k.lists
    requires k'.kids == k.kids && k'.born == k.born && |k'.log| >= |k.log|
    ensures Shape(k')
  {
    PartitionKept(k, k');
    TreeKept(k, k');
  }

  lemma RetSet(k: Kernel, tid: int, v: int)
    requires Shape(k)
    ensures var k' := SetRet(k, tid, v);
            && Shape(k') && SameTree(k, k') && k' == k.(tasks := k'.tasks)
            && (forall i :: 0 <= i < |k.tasks| ==> k'.tasks[i] == k.tasks[i].(ret := k'.tasks[i].ret))
  {
    var k' := SetRet(k, tid, v);
    PartitionKept(k, k');
    TreeKept(k, k');
  }
}
