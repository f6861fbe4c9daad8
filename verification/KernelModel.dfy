/** The kernel as a value, and what each system call, interrupt and scheduling decision does to it.
    Queues are sequences of descriptor indices here; class Rtk of KernelCode shows that the linked
    structures of kernel/task.c and kernel/communication.c compute exactly these functions. */
module KernelModel {
  import opened Cells
  import opened Lists
  import opened Words

  datatype TaskState =
    | Destroyed | Free | Zombie | Ready | Active
    | SendBlocked | ReceiveBlocked | ReplyBlocked | EventBlocked

  /** The enumeration's value: negative for the two states that have no queue. */
  function Code(st: TaskState): (c: int) {
    match st
    case Destroyed => -2
    case Free => -1
    case Zombie => 0
    case Ready => 1
    case Active => 2
    case SendBlocked => 3
    case ReceiveBlocked => 4
    case ReplyBlocked => 5
    case EventBlocked => 6
  }

  const HIGHEST_PRIORITY := 0
  const LOW_PRIORITY := 3
  const NULL_PRIORITY := 4
  const NUM_PRIORITIES := 5
  const NUM_STATES := 7
  /** The list of available descriptors comes after the lists of the scheduler. */
  const FREE_LIST := NUM_STATES * NUM_PRIORITIES
  const LONG_MAX := 0x7fff_ffff
  /** No current task. */
  const NONE := -1
  const NULL := 0

  const OK := 0
  const ERR_INVALID_PRIORITY := -1
  const ERR_UNAVAILABLE_DESCRIPTOR := -2
  const ERR_IMPOSSIBLE_TID := -1
  const ERR_NONEXISTENT_TASK := -2
  const ERR_NOT_REPLY_BLOCKED := -3
  const ERR_BUFFER_TOO_SMALL := -4
  const ERR_PARENT_DESTROYED := -1
  const ERR_NO_PARENT := -2
  const ERR_COLLECT_DATA := -3

  datatype Task = Task(tid: int, state: TaskState, priority: nat, parentTid: int, event: int, ret: int)

  /** One message record per task: it serves the task as sender, as receiver and as replyee. */
  datatype Msg = Msg(fromTid: int, toTid: int, putTid: int, msg: int, msgLen: nat,
                     reply: int, replyLen: nat, recv: int, recvLen: nat)

  /** What happened so far; a history that no step reads. */
  datatype Event =
    | Created(tid: int) | Exited(tid: int) | Reaped(tid: int)
    | Sent(tid: int, to: int) | Received(tid: int, receiver: int) | Replied(tid: int, replier: int)

  /** `lists` holds the scheduler's list for every (state, priority) and then the free list, `kids` the
      children of each task, `mail` its waiting messages. `born` and `log` are history. */
  datatype Kernel = Kernel(
    current: int, tasks: seq<Task>, lists: seq<seq<nat>>, kids: seq<seq<nat>>,
    msgs: seq<Msg>, mail: seq<seq<nat>>, mem: map<int, Byte>, words: map<int, int>,
    numTasks: int, born: seq<nat>, log: seq<Event>)

  ghost predicate Within(qs: seq<seq<nat>>, n: nat) {
    forall q, x {:trigger x in qs[q]} :: 0 <= q < |qs| && x in qs[q] ==> x < n
  }

  /** Children are younger than their parents. */
  ghost predicate Ranked(kids: seq<seq<nat>>, born: seq<nat>, bound: nat) {
    && |kids| == |born|
    && Within(kids, |kids|)
    && (forall p, c {:trigger c in kids[p]} :: 0 <= p < |kids| && c in kids[p] ==> born[p] < born[c])
    && (forall p :: 0 <= p < |born| ==> born[p] <= bound)
  }

  ghost predicate WF(k: Kernel) {
    && 0 < |k.tasks| == |k.kids| == |k.msgs| == |k.mail| == |k.born|
    && |k.lists| == FREE_LIST + 1
    && NONE <= k.current < |k.tasks|
    && (forall i :: 0 <= i < |k.tasks| ==> k.tasks[i].priority < NUM_PRIORITIES)
    && Within(k.lists, |k.tasks|) && Within(k.mail, |k.tasks|)
    && Ranked(k.kids, k.born, |k.log|)
  }

  /** The descriptor a tid belongs to. */
  function Slot(n: nat, tid: int): (i: nat)
    requires n > 0
    ensures i < n
  {
    tid % n
  }

  function ListOf(st: TaskState, priority: nat): (q: nat)
    requires Code(st) >= 0 && priority < NUM_PRIORITIES
    ensures q < FREE_LIST
  {
    Code(st) * NUM_PRIORITIES + priority
  }

  // ------------------------------------------------------------------ task table

  /** The boot state before any task exists: every descriptor free, in index order. */
  function InitState(n: nat): Kernel {
    Kernel(NONE, seq(n, i => Task(i - n, Free, 0, 0, 0, 0)),
           seq(FREE_LIST, _ => []) + [seq(n, i => i)], seq(n, _ => []),
           seq(n, _ => Msg(0, 0, 0, 0, 0, 0, 0, 0, 0)), seq(n, _ => []), map[], map[], 0, seq(n, _ => 0), [])
  }

  function CurrentTid(k: Kernel): int
    requires WF(k)
  {
    if k.current == NONE then -1 else k.tasks[k.current].tid
  }

  predicate IsValidTid(tid: int) {
    0 <= tid <= LONG_MAX
  }

  function GetTaskState(k: Kernel, tid: int): TaskState
    requires WF(k)
  {
    if k.tasks[Slot(|k.tasks|, tid)].tid != tid then Free else k.tasks[Slot(|k.tasks|, tid)].state
  }

  predicate IsTaskAlive(k: Kernel, tid: int)
    requires WF(k)
  {
    IsValidTid(tid) && Code(GetTaskState(k, tid)) > 0
  }

  function Enlist(lists: seq<seq<nat>>, q: nat, i: nat): (r: seq<seq<nat>>)
    requires q < |lists|
    ensures |r| == |lists|
  {
    lists[q := lists[q] + [i]]
  }

  function Delist(lists: seq<seq<nat>>, q: nat, i: nat): (r: seq<seq<nat>>)
    requires q < |lists|
    ensures |r| == |lists|
  {
    lists[q := Minus(lists[q], {i})]
  }

  /** A task in a state with a list leaves that list, takes the new state, and joins the list of
      that state unless it is the current task. */
  function SetState(k: Kernel, tid: int, to: TaskState): (r: Kernel)
    requires WF(k)
    ensures WF(r) && |r.tasks| == |k.tasks| && r.current == k.current
  {
    var i := Slot(|k.tasks|, tid);
    var t := k.tasks[i];
    if t.tid != tid then k
    else
      var off := if Code(t.state) >= 0 then Delist(k.lists, ListOf(t.state, t.priority), i) else k.lists;
      var lists := if tid != CurrentTid(k) && Code(to) >= 0 then Enlist(off, ListOf(to, t.priority), i) else off;
      k.(tasks := k.tasks[i := t.(state := to)], lists := lists)
  }

  function SetCurrentState(k: Kernel, to: TaskState): (r: Kernel)
    requires WF(k) && k.current != NONE
    ensures WF(r) && |r.tasks| == |k.tasks|
  {
    k.(tasks := k.tasks[k.current := k.tasks[k.current].(state := to)])
  }

  function SetRet(k: Kernel, tid: int, v: int): (r: Kernel)
    requires WF(k)
    ensures WF(r) && |r.tasks| == |k.tasks| && r.current == k.current
  {
    var i := Slot(|k.tasks|, tid);
    if IsTaskAlive(k, tid) then k.(tasks := k.tasks[i := k.tasks[i].(ret := v)]) else k
  }

  function Note(k: Kernel, e: Event): (r: Kernel)
    requires WF(k)
    ensures WF(r) && |r.tasks| == |k.tasks|
  {
    k.(log := k.log + [e])
  }

  /** The creator is older than anything to come, and the descriptor to be handed out is not in use. */
  ghost predicate CanCreate(k: Kernel)
    requires WF(k)
  {
    && (k.current != NONE ==> k.born[k.current] < |k.log|)
    && (k.lists[FREE_LIST] != [] ==> k.lists[FREE_LIST][0] != k.current)
    && (k.lists[FREE_LIST] != [] ==> Absent(k.kids, k.lists[FREE_LIST][0]))
  }

  /** The oldest free descriptor gets the next tid of its slot and joins the ready list and its
      creator's children. */
  function Create(k: Kernel, priority: nat): (r: (Kernel, int))
    requires WF(k) && priority < NUM_PRIORITIES && CanCreate(k)
    ensures WF(r.0) && |r.0.tasks| == |k.tasks|
  {
    var free := k.lists[FREE_LIST];
    if free == [] then (k, ERR_UNAVAILABLE_DESCRIPTOR)
    else
      var i := free[0];
      assert i in free && forall x :: x in free[1..] ==> x in free;
      var tid := k.tasks[i].tid + |k.tasks|;
      var kids := k.kids[i := []];
      var k' := k.(
        tasks := k.tasks[i := Task(tid, Ready, priority, CurrentTid(k), NONE, k.tasks[i].ret)],
        lists := Enlist(k.lists[FREE_LIST := free[1..]], ListOf(Ready, priority), i),
        kids := if k.current == NONE then kids else Enlist(kids, k.current, i),
        numTasks := k.numTasks + 1,
        born := k.born[i := |k.log|],
        log := k.log + [Created(tid)]);
      assert forall q, x :: 0 <= q < |k'.lists| && x in k'.lists[q] ==> x == i || x in k.lists[q];
      assert forall p, c :: 0 <= p < |k'.kids| && c in k'.kids[p] ==> (c == i && p == k.current) || c in k.kids[p];
      (k', tid)
  }

  function Exit(k: Kernel): (r: Kernel)
    requires WF(k) && k.current != NONE
    ensures WF(r) && |r.tasks| == |k.tasks|
  {
    Note(SetCurrentState(k, Zombie).(numTasks := k.numTasks - 1), Exited(CurrentTid(k)))
  }

  /** A priority is an unsigned enumeration in the source: there is nothing below the highest. */
  function SetMyPriority(k: Kernel, to: nat): (r: (Kernel, int))
    requires WF(k) && k.current != NONE
    ensures WF(r.0) && |r.0.tasks| == |k.tasks|
  {
    if LOW_PRIORITY < to then (k, ERR_INVALID_PRIORITY)
    else (k.(tasks := k.tasks[k.current := k.tasks[k.current].(priority := to)]), OK)
  }

  function MyParentTid(k: Kernel): int
    requires WF(k) && k.current != NONE
  {
    var parent := k.tasks[k.current].parentTid;
    if parent == -1 then ERR_NO_PARENT
    else if !IsTaskAlive(k, parent) then ERR_PARENT_DESTROYED
    else parent
  }

  // ------------------------------------------------------------------ events

  function AwaitEvent(k: Kernel, intr: int): (r: Kernel)
    requires WF(k) && k.current != NONE
    ensures WF(r) && |r.tasks| == |k.tasks|
  {
    SetCurrentState(k.(tasks := k.tasks[k.current := k.tasks[k.current].(event := intr)]), EventBlocked)
  }

  /** The first task of a list that waits for the event. */
  function FirstAwaiting(tasks: seq<Task>, list: seq<nat>, intr: int): (i: int)
    requires forall x :: x in list ==> x < |tasks|
    ensures i == NONE || (i in list && tasks[i].event == intr)
  {
    if list == [] then NONE
    else
      assert list[0] in list && forall x :: x in list[1..] ==> x in list;
      if tasks[list[0]].event == intr then list[0]
      else FirstAwaiting(tasks, list[1..], intr)
  }

  /** Wakes the oldest waiter of the most urgent priority from `priority` on that has one. */
  function UnblockFrom(k: Kernel, intr: int, priority: nat): (r: Kernel)
    requires WF(k) && priority <= NUM_PRIORITIES
    ensures WF(r) && |r.tasks| == |k.tasks|
    decreases NUM_PRIORITIES - priority
  {
    if priority == NUM_PRIORITIES then k
    else
      var i := FirstAwaiting(k.tasks, k.lists[ListOf(EventBlocked, priority)], intr);
      if i == NONE then UnblockFrom(k, intr, priority + 1)
      else SetRet(SetState(k, k.tasks[i].tid, Ready), k.tasks[i].tid, ERR_COLLECT_DATA)
  }

  function Pow2(n: nat): (p: nat)
    ensures p > 0
  {
    if n == 0 then 1 else 2 * Pow2(n - 1)
  }

  /** What tasks await for a line: its bit of the status word, taken as a signed number. The code is
      minus the line's number. */
  function EventId(code: int): int
    requires code < 0
  {
    Wrap(Pow2(-code))
  }

  /** The interrupt code is minus the number of the highest pending line; line 0 is ignored. */
  function Irq(k: Kernel, code: int): (r: Kernel)
    requires WF(k)
    ensures WF(r) && |r.tasks| == |k.tasks|
  {
    if code < 0 then UnblockFrom(k, EventId(code), HIGHEST_PRIORITY) else k
  }

  // ------------------------------------------------------------------ messages

  function Load(mem: map<int, Byte>, a: int): Byte {
    if a in mem then mem[a] else 0
  }

  /** Bytes copied one after the other, lowest address first. */
  function CopyBytes(mem: map<int, Byte>, dst: int, src: int, n: nat): map<int, Byte> {
    if n == 0 then mem
    else
      var m := CopyBytes(mem, dst, src, n - 1);
      m[dst + n - 1 := Load(m, src + n - 1)]
  }

  function Min(a: nat, b: nat): nat {
    if a < b then a else b
  }

  /** The oldest message of `tid` leaves its queue and is copied to the buffers its record names. */
  function Unboxed(k: Kernel, tid: int): (r: Kernel)
    requires WF(k) && k.mail[Slot(|k.tasks|, tid)] != []
    ensures WF(r) && r.current == k.current && |r.tasks| == |k.tasks|
  {
    var box := k.mail[Slot(|k.tasks|, tid)];
    assert box[0] in k.mail[Slot(|k.tasks|, tid)] && forall x :: x in box[1..] ==> x in k.mail[Slot(|k.tasks|, tid)];
    var m := k.msgs[box[0]];
    k.(mail := k.mail[Slot(|k.tasks|, tid) := box[1..]],
       words := k.words[m.putTid := m.fromTid],
       mem := if m.recv != NULL && m.msg != NULL
              then CopyBytes(k.mem, m.recv, m.msg, Min(m.recvLen, m.msgLen)) else k.mem)
  }

  /** The sender of a received message now waits for the reply, and the receiver can run. */
  function Exchanged(k: Kernel, m: Msg): (r: Kernel)
    requires WF(k)
    ensures WF(r) && |r.tasks| == |k.tasks|
  {
    var k1 := SetState(k, m.fromTid, ReplyBlocked);
    Note(SetRet(SetState(k1, m.toTid, Ready), m.toTid, m.msgLen), Received(m.fromTid, m.toTid))
  }

  /** CompleteReceive. */
  function Deliver(k: Kernel, tid: int): (r: (Kernel, int))
    requires WF(k) && k.mail[Slot(|k.tasks|, tid)] != []
    ensures WF(r.0) && |r.0.tasks| == |k.tasks|
  {
    var box := k.mail[Slot(|k.tasks|, tid)];
    assert box[0] in k.mail[Slot(|k.tasks|, tid)];
    var m := k.msgs[box[0]];
    (Exchanged(Unboxed(k, tid), m), m.msgLen)
  }

  /** `junk` stands for the fields of the record that SendProxy leaves uninitialised. */
  function Send(k: Kernel, tid: int, msg: int, msgLen: nat, reply: int, replyLen: nat, junk: Msg): (r: (Kernel, int))
    requires WF(k) && k.current != NONE
    ensures WF(r.0) && |r.0.tasks| == |k.tasks|
  {
    if !IsValidTid(tid) then (k, ERR_IMPOSSIBLE_TID)
    else if !IsTaskAlive(k, tid) then (k, ERR_NONEXISTENT_TASK)
    else
      var me := CurrentTid(k);
      var mine, theirs := Slot(|k.tasks|, me), Slot(|k.tasks|, tid);
      var m := Msg(me, tid, junk.putTid, msg, msgLen, reply, replyLen, junk.recv, junk.recvLen);
      var k1 := Note(SetCurrentState(k.(msgs := k.msgs[mine := m], mail := Enlist(k.mail, theirs, mine)),
                                     ReceiveBlocked),
                     Sent(me, tid));
      if GetTaskState(k1, tid) == SendBlocked then
        var w := k1.msgs[theirs];
        Deliver(k1.(msgs := k1.msgs[mine := m.(putTid := w.putTid, recv := w.recv, recvLen := w.recvLen)]), tid)
      else (k1, OK)
  }

  /** Which waiting message's record the caller's buffer goes into. The OLDEST message is the one that is
      delivered; the source, for which `oldest` is false, takes the record of the LAST one. */
  function RecordFor(k: Kernel, oldest: bool): int
    requires WF(k) && k.current != NONE
  {
    if oldest then 0 else |k.mail[Slot(|k.tasks|, CurrentTid(k))]| - 1
  }

  function Receive(k: Kernel, put: int, buf: int, len: nat, junk: Msg, oldest: bool): (r: (Kernel, int))
    requires WF(k) && k.current != NONE
    ensures WF(r.0) && |r.0.tasks| == |k.tasks|
  {
    ReceiveInto(k, put, buf, len, junk, RecordFor(k, oldest))
  }

  /** Receive with the buffer put into the record of the message at position `at` of the caller's queue. */
  function ReceiveInto(k: Kernel, put: int, buf: int, len: nat, junk: Msg, at: int): (r: (Kernel, int))
    requires WF(k) && k.current != NONE
    requires var box := k.mail[Slot(|k.tasks|, CurrentTid(k))]; box != [] ==> 0 <= at < |box|
    ensures WF(r.0) && |r.0.tasks| == |k.tasks|
  {
    var me := CurrentTid(k);
    var mine := Slot(|k.tasks|, me);
    var box := k.mail[mine];
    if box == [] then
      (SetCurrentState(k.(msgs := k.msgs[mine := junk.(putTid := put, recv := buf, recvLen := len)]), SendBlocked), OK)
    else
      var i := box[at];
      assert i in k.mail[mine];
      Deliver(k.(msgs := k.msgs[i := k.msgs[i].(putTid := put, recv := buf, recvLen := len)]), me)
  }

  function Reply(k: Kernel, tid: int, buf: int, len: nat): (r: (Kernel, int))
    requires WF(k) && k.current != NONE
    ensures WF(r.0) && |r.0.tasks| == |k.tasks|
  {
    if !IsValidTid(tid) then (k, ERR_IMPOSSIBLE_TID)
    else if !IsTaskAlive(k, tid) then (k, ERR_NONEXISTENT_TASK)
    else if GetTaskState(k, tid) != ReplyBlocked then (k, ERR_NOT_REPLY_BLOCKED)
    else
      var m := k.msgs[Slot(|k.tasks|, tid)];
      var k1 := k.(mem := if m.reply != NULL && buf != NULL
                          then CopyBytes(k.mem, m.reply, buf, Min(m.replyLen, len)) else k.mem);
      var k2 := SetRet(SetState(k1, m.fromTid, Ready), m.fromTid, len);
      (Note(k2, Replied(m.fromTid, CurrentTid(k))), if len > m.replyLen then ERR_BUFFER_TOO_SMALL else OK)
  }

  // ------------------------------------------------------------------ destroying

  /** The subtree below i, every task after all of its children, elder children first. */
  function PostOrder(kids: seq<seq<nat>>, born: seq<nat>, bound: nat, i: nat): (r: seq<nat>)
    requires Ranked(kids, born, bound) && i < |kids|
    decreases bound - born[i], 1, 0
  {
    PostOrders(kids, born, bound, born[i], kids[i]) + [i]
  }

  function PostOrders(kids: seq<seq<nat>>, born: seq<nat>, bound: nat, above: nat, cs: seq<nat>): (r: seq<nat>)
    requires Ranked(kids, born, bound) && above <= bound
    requires forall c :: c in cs ==> c < |kids| && above < born[c]
    decreases bound - above, 0, |cs|
  {
    if cs == [] then []
    else
      assert cs[0] in cs && forall c :: c in cs[1..] ==> c in cs;
      PostOrder(kids, born, bound, cs[0]) + PostOrders(kids, born, bound, above, cs[1..])
  }

  predicate Reusable(k: Kernel, i: nat)
    requires i < |k.tasks|
  {
    k.tasks[i].tid < LONG_MAX - |k.tasks|
  }

  /** Frees one task; a descriptor whose tids are used up is retired instead. */
  function Reap(k: Kernel, i: nat): (r: Kernel)
    requires WF(k) && i < |k.tasks|
    ensures WF(r) && |r.tasks| == |k.tasks|
  {
    var tid := k.tasks[i].tid;
    var k1 := SetState(k, tid, if Reusable(k, i) then Free else Destroyed);
    Note(k1.(lists := if Reusable(k, i) then Enlist(k1.lists, FREE_LIST, i) else k1.lists,
             numTasks := k.numTasks - 1), Reaped(tid))
  }

  function ReapAll(k: Kernel, order: seq<nat>): (r: Kernel)
    requires WF(k) && forall i :: i in order ==> i < |k.tasks|
    ensures WF(r) && |r.tasks| == |k.tasks|
    decreases |order|
  {
    if order == [] then k
    else
      var front, last := order[..|order| - 1], order[|order| - 1];
      assert last in order && forall i :: i in front ==> i in order;
      Reap(ReapAll(k, front), last)
  }

  /** i is taken from its parent's children, and everything below i becomes childless. */
  function Severed(kids: seq<seq<nat>>, i: nat, order: seq<nat>): seq<seq<nat>> {
    seq(|kids|, p requires 0 <= p < |kids| => if p in order then [] else Minus(kids[p], {i}))
  }

  function Destroy(k: Kernel, tid: int): (r: (Kernel, int))
    requires WF(k)
    ensures WF(r.0) && |r.0.tasks| == |k.tasks|
  {
    if !IsValidTid(tid) then (k, ERR_IMPOSSIBLE_TID)
    else if k.tasks[Slot(|k.tasks|, tid)].tid != tid then (k, ERR_NONEXISTENT_TASK)
    else
      var i := Slot(|k.tasks|, tid);
      var order := PostOrder(k.kids, k.born, |k.log|, i);
      PostOrderWithin(k.kids, k.born, |k.log|, i);
      (ReapAll(k.(kids := Severed(k.kids, i, order)), order), OK)
  }

  lemma {:induction false} PostOrderWithin(kids: seq<seq<nat>>, born: seq<nat>, bound: nat, i: nat)
    requires Ranked(kids, born, bound) && i < |kids|
    ensures forall x :: x in PostOrder(kids, born, bound, i) ==> x < |kids| && born[i] <= born[x]
    decreases bound - born[i], 1, 0
  {
    PostOrdersWithin(kids, born, bound, born[i], kids[i]);
  }

  lemma {:induction false} PostOrdersWithin(kids: seq<seq<nat>>, born: seq<nat>, bound: nat, above: nat, cs: seq<nat>)
    requires Ranked(kids, born, bound) && above <= bound
    requires forall c :: c in cs ==> c < |kids| && above < born[c]
    ensures forall x :: x in PostOrders(kids, born, bound, above, cs) ==> x < |kids| && above < born[x]
    decreases bound - above, 0, |cs|
  {
    if cs != [] {
      assert cs[0] in cs && forall c :: c in cs[1..] ==> c in cs;
      PostOrderWithin(kids, born, bound, cs[0]);
      PostOrdersWithin(kids, born, bound, above, cs[1..]);
    }
  }

  // ------------------------------------------------------------------ scheduling

  /** The most urgent priority from p on that has a ready task, or NUM_PRIORITIES. */
  function ReadyPriority(lists: seq<seq<nat>>, p: nat): (r: nat)
    requires |lists| == FREE_LIST + 1 && p <= NUM_PRIORITIES
    ensures p <= r <= NUM_PRIORITIES
    ensures forall q :: p <= q < r ==> lists[ListOf(Ready, q)] == []
    ensures r < NUM_PRIORITIES ==> lists[ListOf(Ready, r)] != []
    decreases NUM_PRIORITIES - p
  {
    if p == NUM_PRIORITIES || lists[ListOf(Ready, p)] != [] then p else ReadyPriority(lists, p + 1)
  }

  /** The current task, if it can still be listed, goes to the end of the list for its state. */
  function Requeue(k: Kernel): (r: Kernel)
    requires WF(k)
    ensures WF(r) && |r.tasks| == |k.tasks|
  {
    if k.current == NONE then k
    else
      var k1 := if k.tasks[k.current].state == Active then SetCurrentState(k, Ready) else k;
      var t := k1.tasks[k.current];
      if Code(t.state) >= 0 then k1.(lists := Enlist(k1.lists, ListOf(t.state, t.priority), k.current)) else k1
  }

  /** With nobody ready the kernel would dereference null: no current task then. */
  function Schedule(k: Kernel): (r: Kernel)
    requires WF(k)
    ensures WF(r) && |r.tasks| == |k.tasks|
  {
    var k1 := Requeue(k);
    var p := ReadyPriority(k1.lists, HIGHEST_PRIORITY);
    if p == NUM_PRIORITIES then k1.(current := NONE)
    else
      var q := ListOf(Ready, p);
      var i := k1.lists[q][0];
      assert i in k1.lists[q];
      k1.(lists := k1.lists[q := k1.lists[q][1..]], current := i, tasks := k1.tasks[i := k1.tasks[i].(state := Active)])
  }
}
