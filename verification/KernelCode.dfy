/** kernel/task.c, kernel/task_queue.c and kernel/communication.c over their tables: every handler
    computes the function of the same name in KernelModel. */
module KernelCode {
  import opened Cells
  import opened Lists
  import opened IntrusiveQueue
  import M = KernelModel
  import opened KernelModel
  import opened KernelInvariant
  import opened KernelSteps
  import opened KernelDestroy
  import opened KernelRuns
  import opened KernelTheorems
  import opened KernelReaping
  import opened KernelStats

  class Rtk {
    const size: nat
    const tasks: array<Task>
    /** The scheduler's lists and the list of available descriptors, through the descriptors' own links. */
    const sched: QueuePool
    /** One children list per task, through the sibling links. */
    const kids: QueuePool
    const msgs: array<Msg>
    /** One message queue per task, through the links of the message records. */
    const mail: QueuePool
    var current: int
    var numTasks: int
    var mem: map<int, Byte>
    var words: map<int, int>
    ghost var born: seq<nat>
    ghost var log: seq<Event>

    ghost function Footprint(): set<object> {
      {this, tasks, msgs, sched, sched.nodes, sched.queues, kids, kids.nodes, kids.queues, mail, mail.nodes,
       mail.queues}
    }

    /** The three pools share nothing. */
    ghost predicate Separate() {
      && sched != kids && kids != mail && sched != mail
      && sched.nodes != kids.nodes && kids.nodes != mail.nodes && sched.nodes != mail.nodes
      && sched.queues != kids.queues && kids.queues != mail.queues && sched.queues != mail.queues
    }

    ghost predicate Valid()
      reads Footprint()
    {
      && Separate()
      && tasks.Length == msgs.Length == size && |born| == size
      && sched.nodes.Length == kids.nodes.Length == mail.nodes.Length == size
      && sched.queues.Length == FREE_LIST + 1 && kids.queues.Length == mail.queues.Length == size
      && sched.loose == FREE_LIST && kids.loose == NIL && mail.loose == NIL
      && sched.Valid() && kids.Valid() && mail.Valid()
      && sched.Clean() && kids.Clean()
    }

    ghost function Abs(): M.Kernel
      reads Footprint()
    {
      M.Kernel(current, tasks[..], sched.contents, kids.contents, msgs[..], mail.contents, mem, words, numTasks,
               born, log)
    }

    // ---------------------------------------------------------------- boot

    /** The tables as the program image holds them: everything zero, nothing linked. */
    ghost predicate Zeroed()
      reads Footprint()
    {
      && current == NONE && numTasks == 0 && mem == map[] && words == map[]
      && born == seq(size, _ => 0) && log == []
      && tasks[..] == seq(size, _ => Task(0, Zombie, 0, 0, 0, 0))
      && msgs[..] == seq(size, _ => Msg(0, 0, 0, 0, 0, 0, 0, 0, 0))
      && sched.contents == seq(FREE_LIST + 1, _ => [])
      && kids.contents == seq(size, _ => []) && mail.contents == seq(size, _ => [])
    }

    constructor (n: nat)
      ensures Valid() && fresh(Footprint()) && Zeroed() && size == n
    {
      hide Threads, Apart, NoDup, QueuePool.Valid, QueuePool.Clean;
      size := n;
      var schedPool := new QueuePool(n, FREE_LIST + 1, FREE_LIST);
      var kidsPool := new QueuePool(n, n, NIL);
      var mailPool := new QueuePool(n, n, NIL);
      sched, kids, mail := schedPool, kidsPool, mailPool;
      tasks := new Task[n](_ => Task(0, Zombie, 0, 0, 0, 0));
      msgs := new Msg[n](_ => Msg(0, 0, 0, 0, 0, 0, 0, 0, 0));
      current, numTasks, mem, words := NONE, 0, map[], map[];
      born, log := seq(n, _ => 0), [];
    }

    /** The list of available descriptors starts as a first and a last with no links between them;
        appending every descriptor in turn makes it the list of all of them, in order. */
    method InitTasks()
      requires Valid() && size > 0 && Zeroed()
      modifies tasks, sched, sched.nodes, sched.queues
      ensures Valid() && Abs() == InitState(size)
    {
      EmptyLists();
      sched.queues[FREE_LIST] := Ends(0, size - 1);
      AppendAll();
      sched.contents := seq(FREE_LIST, _ => []) + [seq(size, i => i)];
      ChainThreads(sched.nodes[..]);
      forall n | 0 <= n < size ensures !Absent(sched.contents, n) {
        assert sched.contents[FREE_LIST][n] == n;
      }
    }

    lemma EmptyLists()
      requires Valid() && Zeroed()
      ensures forall q :: 0 <= q < FREE_LIST ==> sched.queues[q] == Ends(NIL, NIL)
    {
      assert forall q :: 0 <= q <= FREE_LIST ==> Threads(sched.queues[q], sched.contents[q], sched.nodes[..],
                                                         q == sched.loose);
    }

    /** RtkLaunch up to the first user instruction. */
    method Launch()
      requires Valid() && 2 <= size <= LONG_MAX && Zeroed()
      modifies Footprint()
      ensures Valid() && Abs() == Boot(size)
    {
      InitHolds(size);
      assert InitState(size).current == NONE;
      hide Zeroed, Apart, Threads, NoDup, Create, CanCreate, Schedule, InitState, Partition, Tids, Forest, Mail,
        Ledger, Ranked, Within, ActiveIsCurrent;
      InitTasks();
      assert current == NONE;
      CreateKeeps(Abs(), NULL_PRIORITY);
      CreateListsCurrent(Abs(), NULL_PRIORITY);
      var tid := CreateTask(NULL_PRIORITY);
      CreateKeeps(Abs(), LOW_PRIORITY);
      tid := CreateTask(LOW_PRIORITY);
      ScheduleAndActivate();
    }

    method AppendAll()
      requires size > 0 && tasks.Length == sched.nodes.Length == size && sched.queues.Length == FREE_LIST + 1
      requires sched.queues[FREE_LIST] == Ends(0, size - 1)
      requires tasks[..] == seq(size, _ => Task(0, Zombie, 0, 0, 0, 0))
      modifies tasks, sched.nodes, sched.queues
      ensures sched.queues[..] == old(sched.queues[..])
      ensures Chained(sched.nodes[..], size)
      ensures tasks[..] == seq(size, i => Task(i - size, Free, 0, 0, 0, 0))
    {
      ghost var ends := sched.queues[..];
      for i := 0 to size
        invariant sched.queues[..] == ends[FREE_LIST := Ends(0, LastSoFar(size, i))]
        invariant Chained(sched.nodes[..], i)
        invariant forall j :: 0 <= j < size ==>
                    tasks[j] == if j < i then Task(j - size, Free, 0, 0, 0, 0) else Task(0, Zombie, 0, 0, 0, 0)
      {
        tasks[i] := tasks[i].(tid := i - size);
        tasks[i] := tasks[i].(state := Free);
        assert sched.queues[FREE_LIST] == sched.queues[..][FREE_LIST];
        assert sched.nodes[LastSoFar(size, i)] == sched.nodes[..][LastSoFar(size, i)];
        ChainGrows(sched.nodes[..], i);
        sched.Append(FREE_LIST, i);
      }
    }

    // ---------------------------------------------------------------- tasks

    function GetTaskState(tid: int): (st: TaskState)
      requires size == tasks.Length > 0
      reads tasks
    {
      if tasks[tid % size].tid != tid then Free else tasks[tid % size].state
    }

    predicate IsTaskAlive(tid: int)
      requires size == tasks.Length > 0
      reads tasks
    {
      IsValidTid(tid) && Code(GetTaskState(tid)) > 0
    }

    /** The task leaves the list for its state, or is in none. */
    method LeaveList(i: nat)
      requires Valid() && WF(Abs()) && i < size && Listed(tasks[i])
      requires i in sched.contents[ListOf(tasks[i].state, tasks[i].priority)] || Absent(sched.contents, i)
      modifies sched, sched.nodes, sched.queues
      ensures Valid()
      ensures sched.contents == Delist(old(sched.contents), ListOf(tasks[i].state, tasks[i].priority), i)
    {
      hide Ranked, Within, Apart, Threads, NoDup, QueuePool.Clean, QueuePool.Valid, Absent;
      sched.CleanLinks(i);
      sched.RemoveQueueNode(ListOf(tasks[i].state, tasks[i].priority), i);
    }

    method SetTaskState(tid: int, to: TaskState)
      requires Valid() && WF(Abs()) && Partition(Abs()) && Tids(Abs()) && current != NONE
      requires tasks[Slot(size, tid)].tid == tid ==> Listed(tasks[Slot(size, tid)])
      modifies Footprint()
      ensures Valid() && Abs() == SetState(old(Abs()), tid, to)
    {
      hide Ranked, Apart, Threads, NoDup, QueuePool.Clean, QueuePool.Valid, Partition, Tids, Absent, Slot, Within;
      var i := Slot(size, tid);
      if tasks[i].tid != tid {
        return;
      }
      ghost var k := Abs();
      RemovableTask(k, i);
      LeaveList(i);
      tasks[i] := tasks[i].(state := to);
      assert tasks[..] == k.tasks[i := k.tasks[i].(state := to)];
      if tid != tasks[current].tid && Code(to) >= 0 {
        sched.EnqueueQueue(ListOf(to, tasks[i].priority), i);
      }
    }

    method SetTaskReturnValue(tid: int, ret: int)
      requires Valid() && WF(Abs())
      modifies tasks
      ensures Valid() && Abs() == SetRet(old(Abs()), tid, ret)
    {
      if !IsTaskAlive(tid) {
        return;
      }
      tasks[tid % size] := tasks[tid % size].(ret := ret);
    }

    /** A blocked task is made ready with a return value. */
    method Wake(tid: int, ret: int)
      requires Valid() && WF(Abs()) && Partition(Abs()) && Tids(Abs()) && current != NONE
      requires tasks[Slot(size, tid)].tid == tid ==> Listed(tasks[Slot(size, tid)])
      modifies Footprint()
      ensures Valid() && Abs() == SetRet(SetState(old(Abs()), tid, Ready), tid, ret)
    {
      hide Partition, Tids, Ranked, Within, Apart, Threads, NoDup, SetState, SetRet, Slot;
      SetTaskState(tid, Ready);
      SetTaskReturnValue(tid, ret);
    }

    method CreateTask(priority: nat) returns (ret: int)
      requires Valid() && Shape(Abs()) && priority < NUM_PRIORITIES
      requires current != NONE ==> Listed(tasks[current])
      modifies Footprint()
      ensures CanCreate(old(Abs())) && Valid() && (Abs(), ret) == Create(old(Abs()), priority)
    {
      hide Partition, Tids, Forest, ActiveIsCurrent, Ranked, Within, Slot, Enlist, ListOf, CanCreate, Apart,
        Threads, NoDup, QueuePool.Clean;
      ghost var k := Abs();
      CanCreateHere(k);
      var task := sched.DequeueQueue(FREE_LIST);
      if task == NIL {
        return ERR_UNAVAILABLE_DESCRIPTOR;
      }
      DequeuedDescriptor(k);
      hide Create;
      ret := StartTask(task, priority);
      CreateComputes(k, priority, task, Abs());
    }

    /** The dequeued descriptor becomes a ready child of the current task. */
    method StartTask(task: nat, priority: nat) returns (tid: int)
      requires Valid() && task < size && task != current && priority < NUM_PRIORITIES && NONE <= current < size
      requires kids.contents[task] == [] && Absent(kids.contents, task) && Absent(sched.contents, task)
      modifies this, tasks, kids, kids.nodes, kids.queues, sched, sched.nodes, sched.queues
      ensures Valid() && tid == old(tasks[task].tid) + size && current == old(current)
      ensures tasks[..] == old(tasks[..])[task := Task(tid, Ready, priority,
                                                       if current == NONE then -1 else old(tasks[current].tid),
                                                       NONE, old(tasks[task].ret))]
      ensures sched.contents == Enlist(old(sched.contents), ListOf(Ready, priority), task)
      ensures kids.contents == if current == NONE then old(kids.contents) else Enlist(old(kids.contents), current, task)
      ensures mail.contents == old(mail.contents)
      ensures mem == old(mem) && words == old(words) && numTasks == old(numTasks) + 1
      ensures born == old(born)[task := |old(log)|] && log == old(log) + [Created(tid)]
    {
      hide Apart, Threads, NoDup, QueuePool.Clean, QueuePool.Valid;
      InitDescriptor(task, priority);
      LinkNewTask(task, priority);
      numTasks := numTasks + 1;
      tid := tasks[task].tid;
      born, log := born[task := |log|], log + [Created(tid)];
    }

    /** The new task's fields are set, and its children and sibling links cleared; the links already were. */
    method InitDescriptor(task: nat, priority: nat)
      requires Valid() && task < size && kids.contents[task] == [] && Absent(kids.contents, task)
      requires NONE <= current < size
      modifies tasks, kids.nodes, kids.queues
      ensures kids.Valid() && kids.Clean()
      ensures tasks[..] == old(tasks[..])[task := Task(old(tasks[task].tid) + size, Ready, priority,
                                                       if current == NONE then -1 else old(tasks[current].tid),
                                                       NONE, old(tasks[task].ret))]
    {
      ghost var links, ends := kids.nodes[..], kids.queues[..];
      assert Threads(kids.queues[task], kids.contents[task], kids.nodes[..], task == kids.loose);
      tasks[task] := Task(tasks[task].tid + size, Ready, priority, if current == NONE then -1 else tasks[current].tid,
                          NONE, tasks[task].ret);
      kids.queues[task] := Ends(NIL, NIL);
      kids.nodes[task] := Link(NIL, NIL);
      assert kids.nodes[..] == links && kids.queues[..] == ends;
      assert forall q :: 0 <= q < size ==> kids.queues[q] == ends[q];
    }

    method LinkNewTask(task: nat, priority: nat)
      requires Valid() && task < size && priority < NUM_PRIORITIES && NONE <= current < size
      requires Absent(kids.contents, task) && Absent(sched.contents, task)
      modifies kids, kids.nodes, kids.queues, sched, sched.nodes, sched.queues
      ensures Valid()
      ensures kids.contents == if current == NONE then old(kids.contents) else Enlist(old(kids.contents), current, task)
      ensures sched.contents == Enlist(old(sched.contents), ListOf(Ready, priority), task)
    {
      if current != NONE {
        kids.EnqueueQueue(current, task);
      }
      sched.EnqueueQueue(ListOf(Ready, priority), task);
    }

    method CreateTaskSafe(priority: int) returns (ret: int)
      requires Valid() && Shape(Abs())
      requires current != NONE ==> Listed(tasks[current])
      modifies Footprint()
      ensures CanCreate(old(Abs())) && Valid() && (Abs(), ret) == CreateSafe(old(Abs()), priority)
    {
      CanCreateHere(Abs());
      if priority < HIGHEST_PRIORITY || LOW_PRIORITY < priority {
        return ERR_INVALID_PRIORITY;
      }
      ret := CreateTask(priority);
    }

    method ExitTask()
      requires Valid() && WF(Abs()) && current != NONE
      modifies this, tasks
      ensures Valid() && Abs() == Exit(old(Abs()))
    {
      numTasks := numTasks - 1;
      tasks[current] := tasks[current].(state := Zombie);
      log := log + [Exited(tasks[current].tid)];
    }

    method SetCurrentTaskPriority(to: nat) returns (ret: int)
      requires Valid() && WF(Abs()) && current != NONE
      modifies tasks
      ensures Valid() && (Abs(), ret) == SetMyPriority(old(Abs()), to)
    {
      if LOW_PRIORITY < to {
        return ERR_INVALID_PRIORITY;
      }
      tasks[current] := tasks[current].(priority := to);
      return OK;
    }

    /** MyParentTid. */
    method GetParentTid() returns (ret: int)
      requires Valid() && WF(Abs()) && current != NONE
      ensures ret == MyParentTid(Abs())
    {
      if tasks[current].parentTid == -1 {
        return ERR_NO_PARENT;
      }
      if !IsTaskAlive(tasks[current].parentTid) {
        return ERR_PARENT_DESTROYED;
      }
      return tasks[current].parentTid;
    }

    method SetCurrentTaskReturnValue(ret: int)
      requires Valid() && WF(Abs()) && current != NONE
      modifies tasks
      ensures Valid() && Abs() == Returning(old(Abs()), ret)
    {
      tasks[current] := tasks[current].(ret := ret);
    }

    method SetCurrentTaskState(to: TaskState)
      requires Valid() && WF(Abs()) && current != NONE
      modifies tasks
      ensures Valid() && Abs() == SetCurrentState(old(Abs()), to)
    {
      tasks[current] := tasks[current].(state := to);
    }

    // ---------------------------------------------------------------- events

    method AwaitEventHandler(intr: int) returns (ret: int)
      requires Valid() && WF(Abs()) && current != NONE
      modifies tasks
      ensures Valid() && Abs() == AwaitEvent(old(Abs()), intr) && ret == OK
    {
      tasks[current] := tasks[current].(event := intr);
      SetCurrentTaskState(EventBlocked);
      return OK;
    }

    method UnblockTaskWaitingOnEvent(intr: int)
      requires Valid() && Shape(Abs()) && current != NONE
      modifies Footprint()
      ensures Valid() && Abs() == UnblockFrom(old(Abs()), intr, HIGHEST_PRIORITY)
    {
      hide Partition, Tids, Forest, ActiveIsCurrent, Ranked, Apart, Threads, NoDup, QueuePool.Clean,
        QueuePool.Valid, SetState, SetRet, Slot, Within, FirstAwaiting;
      var prio := HIGHEST_PRIORITY;
      while prio < NUM_PRIORITIES
        invariant 0 <= prio <= NUM_PRIORITIES
        invariant Valid() && Abs() == old(Abs())
        invariant UnblockFrom(Abs(), intr, HIGHEST_PRIORITY) == UnblockFrom(Abs(), intr, prio)
      {
        var head := FindWaiting(ListOf(EventBlocked, prio), intr);
        if head != NIL {
          ListedInList(Abs(), ListOf(EventBlocked, prio), head);
          OwnSlot(Abs(), head);
          Wake(tasks[head].tid, ERR_COLLECT_DATA);
          return;
        }
        prio := prio + 1;
      }
    }

    method HandleIrq(code: int)
      requires Valid() && Shape(Abs()) && current != NONE
      modifies Footprint()
      ensures Valid() && Abs() == Irq(old(Abs()), code)
    {
      if code < 0 {
        UnblockTaskWaitingOnEvent(EventId(code));
      }
    }

    /** The walk along one list's next links. */
    method FindWaiting(q: nat, intr: int) returns (head: int)
      requires Valid() && WF(Abs()) && q < FREE_LIST
      ensures forall x :: x in sched.contents[q] ==> x < size
      ensures head == FirstAwaiting(tasks[..], sched.contents[q], intr)
    {
      ghost var list := sched.contents[q];
      assert Threads(sched.queues[q], list, sched.nodes[..], q == sched.loose);
      head := sched.queues[q].first;
      ghost var n := 0;
      assert list[0..] == list;
      while head != NIL
        invariant 0 <= n <= |list|
        invariant head == if n < |list| then list[n] else NIL
        invariant forall x :: x in list[n..] ==> x in list && x < size
        invariant FirstAwaiting(tasks[..], list, intr) == FirstAwaiting(tasks[..], list[n..], intr)
        decreases |list| - n
      {
        assert sched.nodes[head] == sched.nodes[..][list[n]] && sched.nodes[head].next == After(list, n);
        if tasks[head].event == intr {
          return;
        }
        head := sched.nodes[head].next;
        assert list[n..][1..] == list[n + 1..];
        n := n + 1;
      }
    }

    // ---------------------------------------------------------------- scheduling

    method DequeuePriorityTaskQueue() returns (dequeued: int)
      requires Valid() && WF(Abs())
      modifies sched, sched.nodes, sched.queues
      ensures Valid()
      ensures var p := ReadyPriority(old(sched.contents), HIGHEST_PRIORITY);
              if p == NUM_PRIORITIES then dequeued == NIL && sched.contents == old(sched.contents)
              else
                var q := ListOf(Ready, p);
                dequeued == old(sched.contents)[q][0] &&
                sched.contents == old(sched.contents)[q := old(sched.contents)[q][1..]]
    {
      var priority := HIGHEST_PRIORITY;
      while priority < NUM_PRIORITIES
        invariant 0 <= priority <= NUM_PRIORITIES
        invariant Valid() && sched.contents == old(sched.contents)
        invariant ReadyPriority(sched.contents, HIGHEST_PRIORITY) == ReadyPriority(sched.contents, priority)
      {
        dequeued := sched.DequeueQueue(ListOf(Ready, priority));
        if dequeued != NIL {
          return;
        }
        priority := priority + 1;
      }
      dequeued := NIL;
    }

    /** Before the first task is current there is nothing to put back. */
    method PutBack()
      requires Valid() && Shape(Abs())
      modifies Footprint()
      ensures Valid() && Abs() == Requeue(old(Abs()))
    {
      hide Partition, Tids, Forest, ActiveIsCurrent, Ranked;
      if current != NONE {
        ghost var k := Abs();
        if tasks[current].state == Active {
          tasks[current] := tasks[current].(state := Ready);
        }
        if Code(tasks[current].state) >= 0 {
          CurrentIsUnlisted(k);
          sched.EnqueueQueue(ListOf(tasks[current].state, tasks[current].priority), current);
        }
      }
    }

    /** With nobody ready the kernel would dereference null. */
    method ScheduleAndActivate()
      requires Valid() && Shape(Abs())
      modifies Footprint()
      ensures Valid() && Abs() == Schedule(old(Abs()))
    {
      hide Partition, Tids, Forest, ActiveIsCurrent, Ranked, Requeue, ReadyPriority, Within;
      PutBack();
      ghost var k := Abs();
      NextIsTask(k);
      current := DequeuePriorityTaskQueue();
      if current != NIL {
        tasks[current] := tasks[current].(state := Active);
        assert tasks[..] == k.tasks[current := k.tasks[current].(state := Active)];
      }
    }

    // ---------------------------------------------------------------- destroying

    /** The last part of DestroyHandler: the task itself is freed, or retired when its tids are used up. */
    method FreeDescriptor(tid: int)
      requires Valid() && Tables(Abs()) && current != NONE
      requires tasks[Slot(size, tid)].tid == tid && Listed(tasks[Slot(size, tid)])
      modifies Footprint()
      ensures Valid() && Abs() == Reap(old(Abs()), Slot(size, tid)) && current == old(current)
    {
      hide Partition, Tids, Ledger, ActiveIsCurrent, Ranked, Within, Apart, Threads, NoDup, Slot, QueuePool.Clean;
      var i := Slot(size, tid);
      RemovableTask(Abs(), i);
      if tid < LONG_MAX - size {
        SetTaskState(tid, Free);
        sched.EnqueueQueue(FREE_LIST, i);
      } else {
        SetTaskState(tid, Destroyed);
      }
      numTasks := numTasks - 1;
      log := log + [Reaped(tid)];
    }

    /** `before` and `bound` record the children lists, and the age of the youngest task, when the
        outermost call began. */
    method DestroyHandler(tid: int, ghost before: seq<seq<nat>>, ghost bound: nat) returns (ret: int)
      requires Valid() && WF(Abs()) && current != NONE
      requires Accepted(Abs(), tid) ==> Doomed(Abs(), before, bound, Slot(size, tid))
      modifies Footprint()
      ensures Valid() && current == old(current)
      ensures !Accepted(old(Abs()), tid) ==>
                Abs() == old(Abs()) && ret == if IsValidTid(tid) then ERR_NONEXISTENT_TASK else ERR_IMPOSSIBLE_TID
      ensures Accepted(old(Abs()), tid) ==> ret == OK && Freed(old(Abs()), before, bound, Slot(size, tid), Abs())
      decreases bound - born[Slot(size, tid)], 1
    {
      hide Tables, Ranked, Within, Apart, Threads, NoDup, Slot, QueuePool.Clean, QueuePool.Valid, Doomed, Partway,
        Absent, Freed, Reap, PostOrder, Done;
      if !IsValidTid(tid) {
        return ERR_IMPOSSIBLE_TID;
      }
      var i := Slot(size, tid);
      if tasks[i].tid != tid {
        return ERR_NONEXISTENT_TASK;
      }
      ghost var k0 := Abs();
      DoomedFacts(k0, before, bound, i);
      LeaveParent(i, before, bound);
      DestroyChildren(i, k0, before, bound);
      NotYetDone(k0, before, bound, i, |before[i]|, [], Abs());
      PartwayTables(k0, before, bound, i, |before[i]|, [], Abs());
      PartwayFinish(k0, before, bound, i, Abs());
      FreeDescriptor(tid);
      return OK;
    }

    method DestroyChildren(i: nat, ghost k0: M.Kernel, ghost before: seq<seq<nat>>, ghost bound: nat)
      requires Valid() && i < |before| && |before| == size && current == k0.current && current != NONE
      requires born == k0.born
      requires Partway(k0, before, bound, i, 0, before[i], Abs())
      modifies Footprint()
      ensures Valid() && current == k0.current
      ensures Partway(k0, before, bound, i, |before[i]|, [], Abs())
      decreases bound - born[i], 0
    {
      hide Ranked, Within, Apart, Threads, NoDup, Slot, QueuePool.Clean, Doomed, Partway, Absent, PostOrder, Done,
        Accepted, Freed;
      ghost var cs := before[i];
      assert cs[0..] == cs;
      ghost var j := 0;
      var node := NextChild(i, k0, before, bound, 0);
      while node != NIL
        invariant Valid() && current == k0.current
        invariant 0 <= j <= |cs| && node == (if j < |cs| then cs[j] else NIL)
        invariant Partway(k0, before, bound, i, j, if j < |cs| then cs[j + 1..] else [], Abs())
        invariant node != NIL ==> Absent(kids.contents, node)
        decreases |cs| - j
      {
        NextChildFacts(k0, before, bound, i, j, Abs());
        var r := DestroyHandler(tasks[node].tid, before, bound);
        j := j + 1;
        node := NextChild(i, k0, before, bound, j);
      }
    }

    /** The system call: the handler called from outside. */
    method DestroyCall(tid: int) returns (ret: int)
      requires Valid() && Core(Abs()) && current != NONE && DestroyInBounds(Abs(), tid)
      modifies Footprint()
      ensures Valid() && (Abs(), ret) == M.Destroy(old(Abs()), tid)
    {
      ghost var k := Abs();
      if Accepted(k, tid) { DoomedByDestroy(k, tid); }
      hide Core, Shape, Ranked, Within, Threads, Apart, NoDup, Slot, ReapAll, PostOrder, Severed, Doomed;
      ret := DestroyHandler(tid, kids.contents, |log|);
    }

    /** The reference from the parent's children list, if there is one, is removed. */
    method LeaveParent(i: nat, ghost before: seq<seq<nat>>, ghost bound: nat)
      requires Valid() && Doomed(Abs(), before, bound, i)
      modifies kids, kids.nodes, kids.queues
      ensures Valid() && Partway(old(Abs()), before, bound, i, 0, before[i], Abs())
    {
      PartwayStart(Abs(), before, bound, i, Slot(size, tasks[i].parentTid));
      hide Tables, Ranked, Slot, Partway, PostOrder, NoDup, Threads, Apart;
      kids.RemoveQueueNode(Slot(size, tasks[i].parentTid), i);
    }

    method NextChild(i: nat, ghost k0: M.Kernel, ghost before: seq<seq<nat>>, ghost bound: nat, ghost j: nat)
      returns (node: int)
      requires Valid() && i < |before| && j <= |before[i]|
      requires Partway(k0, before, bound, i, j, before[i][j..], Abs())
      modifies kids, kids.nodes, kids.queues
      ensures Valid() && node == if j < |before[i]| then before[i][j] else NIL
      ensures Partway(k0, before, bound, i, j, if j < |before[i]| then before[i][j + 1..] else [], Abs())
      ensures node != NIL ==> Absent(kids.contents, node)
    {
      hide Ranked, Within, Apart, Threads, NoDup, Slot, QueuePool.Clean, Partway, Absent, PostOrder, Done;
      NotYetDone(k0, before, bound, i, j, before[i][j..], Abs());
      if j < |before[i]| {
        PartwayDequeue(k0, before, bound, i, j, before[i][j..], Abs(), before[i][j + 1..]);
        assert before[i][j..][1..] == before[i][j + 1..];
        DequeuedAbsent(kids.contents, i);
      }
      node := kids.DequeueQueue(i);
    }

    // ---------------------------------------------------------------- statistics

    /** Copies the entries of one list to the caller's table from position `index` on. */
    method CollectList(q: nat, stats: array<Task>, index: nat) returns (next: nat)
      requires Valid() && WF(Abs()) && q < FREE_LIST && stats != tasks
      requires index + |sched.contents[q]| <= stats.Length
      modifies stats
      ensures Valid() && Abs() == old(Abs())
      ensures next == index + |sched.contents[q]|
      ensures (forall x :: x in sched.contents[q] ==> x < size) &&
              stats[..next] == old(stats[..index]) + Entries(tasks[..], sched.contents[q])
    {
      hide Ranked, Apart, NoDup, QueuePool.Clean, Absent;
      ghost var list := sched.contents[q];
      assert Threads(sched.queues[q], list, sched.nodes[..], q == sched.loose);
      assert forall n :: 0 <= n < |list| ==> list[n] in list;
      var head := sched.queues[q].first;
      next := index;
      ghost var n := 0;
      while head != NIL
        invariant 0 <= n <= |list| && next == index + n
        invariant head == if n < |list| then list[n] else NIL
        invariant tasks[..] == old(tasks[..])
        invariant sched.nodes[..] == old(sched.nodes[..]) && sched.queues[..] == old(sched.queues[..])
        invariant stats[..index] == old(stats[..index])
        invariant forall u :: 0 <= u < n ==> stats[index + u] == tasks[list[u]]
        decreases |list| - n
      {
        assert sched.nodes[head] == sched.nodes[..][list[n]] && sched.nodes[head].next == After(list, n);
        stats[next] := tasks[head];
        next := next + 1;
        head := sched.nodes[head].next;
        n := n + 1;
      }
    }

    /** The snapshot fits the table of MAX_TASKS entries, and the scheduler is as it was. */
    method TasksStatsHandler(stats: array<Task>) returns (alive: int, count: nat)
      requires Valid() && Shape(Abs()) && current != NONE && Listed(tasks[current])
      requires stats != tasks && stats.Length == size
      modifies Footprint(), stats
      ensures Valid() && Abs() == old(Abs()) && alive == numTasks
      ensures var order := Rows(WithCurrent(old(Abs())), FREE_LIST);
              && count == |order| <= size
              && (forall x :: x in order ==> x < size)
              && stats[..count] == Entries(old(tasks[..]), order)
    {
      hide Partition, Tids, Forest, ActiveIsCurrent, Ranked, Apart, Threads, NoDup, Slot, QueuePool.Clean,
        QueuePool.Valid, Rows, Absent;
      ghost var k := Abs();
      SnapshotExact(k);
      NoRows(WithCurrent(k));
      ghost var order := Rows(WithCurrent(k), FREE_LIST);
      CurrentIsUnlisted(k);
      alive := numTasks;
      var own := ListOf(tasks[current].state, tasks[current].priority);
      sched.EnqueueQueue(own, current);
      count := CollectAll(stats, k);
      TakenBack(k.lists, own, current);
      sched.RemoveQueueNode(own, current);
    }

    /** The scheduler is as during the snapshot, and the entries of the first m lists are in the table. */
    ghost predicate Collecting(stats: array<Task>, k: M.Kernel, m: nat, count: nat)
      reads Footprint(), stats
    {
      && Valid() && WF(k) && Partition(k) && k.current != NONE && Listed(k.tasks[k.current]) && WF(Abs())
      && Abs() == k.(lists := WithCurrent(k)) && stats != tasks && stats.Length == size
      && m <= FREE_LIST && Collected(stats[..], k.tasks, Rows(WithCurrent(k), m), count)
    }

    method CollectAll(stats: array<Task>, ghost k: M.Kernel) returns (count: nat)
      requires Collecting(stats, k, 0, 0)
      modifies stats
      ensures Collecting(stats, k, FREE_LIST, count)
    {
      hide Collecting;
      count := 0;
      var priority := HIGHEST_PRIORITY;
      while priority <= NULL_PRIORITY
        invariant 0 <= priority <= NUM_PRIORITIES
        invariant Collecting(stats, k, priority * NUM_STATES, count)
      {
        var state := 0;
        while state < NUM_STATES
          invariant 0 <= state <= NUM_STATES
          invariant Collecting(stats, k, priority * NUM_STATES + state, count)
        {
          count := CollectNext(stats, k, state, priority, count);
          state := state + 1;
        }
        priority := priority + 1;
      }
    }

    method CollectNext(stats: array<Task>, ghost k: M.Kernel, state: nat, priority: nat, count: nat) returns (next: nat)
      requires state < NUM_STATES && priority < NUM_PRIORITIES
      requires Collecting(stats, k, priority * NUM_STATES + state, count)
      modifies stats
      ensures Collecting(stats, k, priority * NUM_STATES + state + 1, next)
    {
      hide Partition, Ranked, Apart, Threads, NoDup, QueuePool.Clean, QueuePool.Valid, WithCurrent, Visited, Rows,
        ListOf;
      ghost var m := priority * NUM_STATES + state;
      VisitedAt(priority, state);
      RoomForNext(k, m);
      ghost var rows := Rows(WithCurrent(k), m);
      ghost var list := sched.contents[state * NUM_PRIORITIES + priority];
      next := CollectList(state * NUM_PRIORITIES + priority, stats, count);
      hide Valid, Within, WF;
      EntriesConcat(k.tasks, rows, list);
    }

    // ---------------------------------------------------------------- messages

    /** memcpy: byte by byte, upwards. */
    method CopyMemory(dst: int, src: int, num: nat)
      modifies `mem
      ensures mem == CopyBytes(old(mem), dst, src, num)
    {
      var n := 0;
      while n < num
        invariant 0 <= n <= num
        invariant mem == CopyBytes(old(mem), dst, src, n)
      {
        mem := mem[dst + n := Load(mem, src + n)];
        n := n + 1;
      }
    }

    /** The oldest message leaves its queue and is copied to where its record says. */
    method TakeMessage(tid: int) returns (m: Msg)
      requires Valid() && WF(Abs()) && mail.contents[Slot(size, tid)] != []
      modifies this, mail, mail.nodes, mail.queues
      ensures Valid() && Abs() == Unboxed(old(Abs()), tid)
      ensures m == old(msgs[SenderTo(Abs(), tid)])
    {
      hide Ranked, Apart, Threads, NoDup, Slot, CopyBytes, QueuePool.Clean;
      ghost var k := Abs();
      FirstIn(mail.contents[Slot(size, tid)]);
      var i := mail.DequeueQueue(Slot(size, tid));
      m := msgs[i];
      words := words[m.putTid := m.fromTid];
      if m.recv != NULL && m.msg != NULL {
        CopyMemory(m.recv, m.msg, Min(m.recvLen, m.msgLen));
      }
    }

    method CompleteReceive(tid: int) returns (ret: int)
      requires Valid() && Shape(Abs()) && tid >= 0 && current != NONE
      requires Deliverable(Abs(), SenderTo(Abs(), tid), Slot(size, tid)) && tasks[Slot(size, tid)].tid == tid
      modifies Footprint()
      ensures Valid() && (Abs(), ret) == Deliver(old(Abs()), tid)
    {
      ghost var k := Abs();
      DeliverStages(k, SenderTo(k, tid), tid);
      hide Shape, Ranked, Within, Apart, Threads, NoDup, Exchanged, Exchangeable, Slot, Unboxed, QueuePool.Clean,
        Deliverable, Code;
      var m := TakeMessage(tid);
      Exchange(m);
      return m.msgLen;
    }

    method Exchange(m: Msg)
      requires Valid() && Exchangeable(Abs(), m) && current != NONE
      modifies Footprint()
      ensures Valid() && Abs() == Exchanged(old(Abs()), m)
    {
      hide Partition, Tids, Forest, ActiveIsCurrent, Ranked, Within, Apart, Threads, NoDup, SetState, SetRet, Slot,
        QueuePool.Clean, Code;
      SetTaskState(m.fromTid, ReplyBlocked);
      Wake(m.toTid, m.msgLen);
      log := log + [Received(m.fromTid, m.toTid)];
    }

    /** The sender's record is filled in and queued, and the sender blocks. `junk` is what the
        uninitialised fields of the record happen to hold. */
    method PostMessage(tid: int, m: Msg)
      requires Valid() && WF(Abs()) && current != NONE
      requires Slot(size, tasks[current].tid) == current && Absent(mail.contents, current)
      modifies Footprint()
      ensures Valid() && Abs() == Post(old(Abs()), tid, m)
    {
      hide Ranked, Apart, Threads, NoDup, Slot, QueuePool.Clean, Code;
      msgs[current] := m;
      mail.EnqueueQueue(Slot(size, tid), current);
      SetCurrentTaskState(ReceiveBlocked);
      log := log + [Sent(tasks[current].tid, tid)];
    }

    method SendProxy(tid: int, msg: int, msgLen: nat, reply: int, replyLen: nat, junk: Msg) returns (ret: int)
      requires Valid() && Core(Abs()) && current != NONE && tasks[current].state == Active
      modifies Footprint()
      ensures Valid() && (Abs(), ret) == Send(old(Abs()), tid, msg, msgLen, reply, replyLen, junk)
    {
      hide Send, Partition, Tids, Forest, ActiveIsCurrent, Mail, Ledger, Ranked, Within, Apart, Threads, NoDup,
        QueuePool.Clean, Post, Deliver, Deliverable;
      SendUnfolded(Abs(), tid, msg, msgLen, reply, replyLen, junk);
      if !IsValidTid(tid) {
        return ERR_IMPOSSIBLE_TID;
      }
      if !IsTaskAlive(tid) {
        return ERR_NONEXISTENT_TASK;
      }
      ghost var k := Abs();
      var m := Msg(tasks[current].tid, tid, junk.putTid, msg, msgLen, reply, replyLen, junk.recv, junk.recvLen);
      SendStages(k, tid, m);
      PostMessage(tid, m);
      if GetTaskState(tid) == SendBlocked {
        var w := msgs[Slot(size, tid)];
        msgs[current] := m.(putTid := w.putTid, recv := w.recv, recvLen := w.recvLen);
        ret := CompleteReceive(tid);
        return;
      }
      return OK;
    }

    /** As written, for which `oldest` is false, the caller's buffer is put into the record of the last
        waiting message. A caller that has to wait overwrites its own record, links included; `junk` and
        the links are what the fields that are not set happen to hold. */
    method ReceiveProxy(put: int, buf: int, len: nat, junk: Msg, oldest: bool) returns (ret: int)
      requires Valid() && Core(Abs()) && current != NONE && tasks[current].state == Active
      modifies Footprint()
      ensures Valid() && (Abs(), ret) == Receive(old(Abs()), put, buf, len, junk, oldest)
    {
      hide Receive, Partition, Tids, Forest, ActiveIsCurrent, Mail, Ledger, Ranked, Within, Apart, Threads, NoDup,
        Slot, QueuePool.Clean, Deliver, Deliverable;
      ReceiveUnfolded(Abs(), put, buf, len, junk, oldest);
      ReceiveStages(Abs(), put, buf, len, oldest);
      mail.EndsAre(current);
      if mail.queues[current].first == NIL {
        SetCurrentTaskState(SendBlocked);
        msgs[current] := junk.(putTid := put, recv := buf, recvLen := len);
        ActiveHasNoMail(old(Abs()), current);
        var links: Link := *;
        mail.Scribble(current, links);
        return OK;
      }
      var i := if oldest then mail.queues[current].first else mail.queues[current].last;
      msgs[i] := msgs[i].(putTid := put, recv := buf, recvLen := len);
      ret := CompleteReceive(tasks[current].tid);
    }

    method ReplyProxy(tid: int, buf: int, len: nat) returns (ret: int)
      requires Valid() && Core(Abs()) && current != NONE
      modifies Footprint()
      ensures Valid() && (Abs(), ret) == Reply(old(Abs()), tid, buf, len)
    {
      if !IsValidTid(tid) {
        return ERR_IMPOSSIBLE_TID;
      }
      if !IsTaskAlive(tid) {
        return ERR_NONEXISTENT_TASK;
      }
      if GetTaskState(tid) != ReplyBlocked {
        return ERR_NOT_REPLY_BLOCKED;
      }
      ReplyStages(Abs(), tid);
      hide Core, Shape, Mail, Ledger, Partition, Tids, Forest, ActiveIsCurrent, Ranked, Within, Apart, Threads,
        NoDup, Slot, QueuePool.Clean;
      hide SetState, SetRet, AfterReply;
      var m := msgs[Slot(size, tid)];
      AnswerSender(m, buf, len);
      return if len > m.replyLen then ERR_BUFFER_TOO_SMALL else OK;
    }

    method AnswerSender(m: Msg, buf: int, len: nat)
      requires Valid() && WF(Abs()) && Partition(Abs()) && Tids(Abs()) && current != NONE
      requires Listed(tasks[Slot(size, m.fromTid)])
      modifies Footprint()
      ensures Valid() && Abs() == AfterReply(old(Abs()), m, buf, len)
    {
      hide Partition, Tids, Ranked, Within, Apart, Threads, NoDup, Slot, QueuePool.Clean, SetState, SetRet,
        ReplyCopied;
      ghost var me := tasks[current].tid;
      CopyReply(m, buf, len);
      Wake(m.fromTid, len);
      log := log + [Replied(m.fromTid, me)];
    }

    method CopyReply(m: Msg, buf: int, len: nat)
      requires Valid() && WF(Abs()) && Partition(Abs()) && Tids(Abs())
      modifies `mem
      ensures Valid() && Abs() == old(Abs()).(mem := ReplyCopied(old(mem), m, buf, len)) && Partition(Abs())
      ensures Tids(Abs())
    {
      ghost var k := Abs();
      if m.reply != NULL && buf != NULL {
        CopyMemory(m.reply, buf, Min(m.replyLen, len));
      }
      PartitionIndependent(k, Abs());
    }

    // ---------------------------------------------------------------- whole runs

    method DispatchMessage(call: Call)
      requires Valid() && Running(Abs()) && Enabled(Abs(), call)
      requires call.SendCall? || call.ReceiveCall? || call.ReplyCall?
      modifies Footprint()
      ensures CanCreate(old(Abs())) && Valid() && Abs() == Handle(old(Abs()), call)
    {
      hide Partition, Tids, Forest, ActiveIsCurrent, Mail, Ledger, NullTask, Ranked, Within, Apart, Threads, NoDup,
        Slot, QueuePool.Clean, QueuePool.Valid, Separate, Valid, CanCreate, Send, Receive, Reply, Returning;
      CanCreateHere(Abs());
      HandleKeepsCurrent(Abs(), call);
      var ret;
      match call {
        case SendCall(tid, msg, msgLen, reply, replyLen, junk) =>
          ret := SendProxy(tid, msg, msgLen, reply, replyLen, junk);
        case ReceiveCall(put, buf, len, junk, oldest) => ret := ReceiveProxy(put, buf, len, junk, oldest);
        case ReplyCall(tid, buf, len) => ret := ReplyProxy(tid, buf, len);
      }
      SetCurrentTaskReturnValue(ret);
    }

    /** The handler of a call or interrupt, and the return value for the calls that have one. */
    method Dispatch(call: Call)
      requires Valid() && Running(Abs()) && Enabled(Abs(), call) && !call.Store?
      modifies Footprint()
      ensures CanCreate(old(Abs())) && Valid() && Abs() == Handle(old(Abs()), call)
    {
      hide Partition, Tids, Forest, ActiveIsCurrent, Mail, Ledger, NullTask, Ranked, Within, Apart, Threads, NoDup,
        Slot, QueuePool.Clean, QueuePool.Valid, Separate, Valid, CanCreate, Create, Exit, M.Destroy, Irq, SubtreeQuiet,
        Returning, SetMyPriority, AwaitEvent, MyParentTid;
      CanCreateHere(Abs());
      HandleKeepsCurrent(Abs(), call);
      if call.SendCall? || call.ReceiveCall? || call.ReplyCall? {
        DispatchMessage(call);
        return;
      }
      var ret;
      match call {
        case CreateCall(priority) => ret := CreateTaskSafe(priority);
        case ParentCall => ret := GetParentTid();
        case PriorityCall(to) => ret := SetCurrentTaskPriority(to);
        case AwaitCall(intr) => ret := AwaitEventHandler(intr);
        case DestroyCall(tid) => ret := DestroyCall(tid);
        case PassCall => return;
        case ExitCall => ExitTask(); return;
        case Interrupt(code) => HandleIrq(code); return;
      }
      SetCurrentTaskReturnValue(ret);
    }

    /** One turn of the kernel loop: what the running task, or the hardware, asks for, and the next decision.
        A store to memory does not enter the kernel. */
    method Serve(call: Call)
      requires Valid() && Running(Abs()) && Enabled(Abs(), call)
      modifies Footprint()
      ensures CanCreate(old(Abs())) && Valid() && Abs() == Step(old(Abs()), call)
    {
      hide Partition, Tids, Forest, ActiveIsCurrent, Mail, Ledger, NullTask, Ranked, Within, Apart, Threads, NoDup,
        QueuePool.Clean, QueuePool.Valid, CanCreate, Handle, Schedule, Enabled;
      CanCreateHere(Abs());
      if call.Store? {
        mem := mem[call.addr := call.value];
      } else {
        HandleKeeps(Abs(), call);
        Dispatch(call);
        ScheduleAndActivate();
      }
    }

    /** Any run: after each of its steps the linked structures are sound and hold the run's state. */
    method RunAll(calls: seq<Call>)
      requires Valid() && Running(Abs()) && Legal(Abs(), calls)
      modifies Footprint()
      ensures Valid() && Abs() == Run(old(Abs()), calls)
    {
      hide Core, NullTask, Valid, Separate, Abs, Enabled, Step, CanCreate;
      assert calls[0..] == calls;
      for i := 0 to |calls|
        invariant Valid() && Running(Abs()) && Legal(Abs(), calls[i..])
        invariant Run(Abs(), calls[i..]) == Run(old(Abs()), calls)
      {
        assert calls[i..][1..] == calls[i + 1..];
        StepKeeps(Abs(), calls[i]);
        Serve(calls[i]);
      }
    }

    /** Every list of the state k, forwards from its first node and backwards from its last, is what the
        links say; only the list of available descriptors promises nothing before its first. */
    ghost predicate Linked(k: M.Kernel)
      reads Footprint()
    {
      && (|k.lists| == sched.queues.Length && forall q :: 0 <= q < |k.lists| ==>
            Threads(sched.queues[q], k.lists[q], sched.nodes[..], q == FREE_LIST))
      && (|k.kids| == kids.queues.Length && forall p :: 0 <= p < |k.kids| ==>
            Threads(kids.queues[p], k.kids[p], kids.nodes[..], false))
      && (|k.mail| == mail.queues.Length && forall r :: 0 <= r < |k.mail| ==>
            Threads(mail.queues[r], k.mail[r], mail.nodes[..], false))
    }

    lemma ValidIsLinked()
      requires Valid()
      ensures Linked(Abs())
    {
      hide Apart, Threads, QueuePool.Clean;
    }

    /** From the program image on: boot, and then any run. In the state it reaches every list of the
        scheduler, every children list and every message queue is well-formed. */
    method Session(calls: seq<Call>)
      requires Valid() && 2 <= size <= LONG_MAX && Zeroed()
      requires Running(Boot(size)) && Legal(Boot(size), calls)
      modifies Footprint()
      ensures Valid() && Abs() == Run(Boot(size), calls) && Linked(Run(Boot(size), calls))
    {
      hide Core, NullTask, Valid, Separate, Abs, Zeroed, Boot, Run, Legal, Linked;
      Launch();
      RunAll(calls);
      ValidIsLinked();
    }
  }

  function ReplyCopied(mem: map<int, Byte>, m: Msg, buf: int, len: nat): map<int, Byte> {
    if m.reply != NULL && buf != NULL then CopyBytes(mem, m.reply, buf, Min(m.replyLen, len)) else mem
  }

  function AfterReply(k: Kernel, m: Msg, buf: int, len: nat): (r: Kernel)
    requires WF(k)
    ensures WF(r)
  {
    Note(SetRet(SetState(k.(mem := ReplyCopied(k.mem, m, buf, len)), m.fromTid, Ready), m.fromTid, len),
         Replied(m.fromTid, CurrentTid(k)))
  }

  /** A task waiting for a reply is the sender its record names. */
  lemma ReplyStages(k: Kernel, tid: int)
    requires Core(k) && IsTaskAlive(k, tid) && GetTaskState(k, tid) == ReplyBlocked
    ensures WF(k) && Partition(k) && Tids(k)
    ensures var i := Slot(|k.tasks|, tid); k.msgs[i].fromTid == tid && Listed(k.tasks[i])
  {
    hide Partition, Tids, Forest, Ledger, Ranked, Within, Slot;
    assert RecordOk(k, Slot(|k.tasks|, tid));
  }

  lemma PartitionIndependent(k: Kernel, k': Kernel)
    requires WF(k) && Partition(k) && Tids(k) && k' == k.(mem := k'.mem)
    ensures WF(k') && Partition(k') && Tids(k')
  {
    assert forall i :: 0 <= i < |k.tasks| ==> Home(k', i) == Home(k, i);
  }

  lemma ActiveHasNoMail(k: Kernel, i: nat)
    requires WF(k) && Mail(k) && i < |k.tasks| && k.tasks[i].state != ReceiveBlocked
    ensures Absent(k.mail, i)
  {
    forall r | 0 <= r < |k.mail| ensures i !in k.mail[r] {
      assert QueueOk(k, r);
    }
  }

  /** The sender whose record the caller's buffer goes into. */
  function Chosen(box: seq<nat>, oldest: bool): (i: nat)
    requires box != []
    ensures i in box
  {
    if oldest then box[0] else box[|box| - 1]
  }

  /** What Receive finds in its own queue. */
  lemma ReceiveStages(k: Kernel, put: int, buf: int, len: nat, oldest: bool)
    requires Core(k) && k.current != NONE && k.tasks[k.current].state == Active
    ensures WF(k) && Slot(|k.tasks|, k.tasks[k.current].tid) == k.current && k.tasks[k.current].tid >= 0
    ensures var box := k.mail[k.current];
            box != [] ==>
              && Chosen(box, oldest) < |k.tasks|
              && var i := Chosen(box, oldest);
                 var k1 := k.(msgs := k.msgs[i := k.msgs[i].(putTid := put, recv := buf, recvLen := len)]);
                 Shape(k1) && Deliverable(k1, box[0], k.current)
  {
    OwnSlot(k, k.current);
    hide Partition, Forest, Ledger, Ranked, Within, MailBut, Slot;
    var box := k.mail[k.current];
    if box != [] {
      InBox(k, k.current);
      var i := Chosen(box, oldest);
      var k1 := k.(msgs := k.msgs[i := k.msgs[i].(putTid := put, recv := buf, recvLen := len)]);
      ShapeKept(k, k1);
      SameRecordsKept(k, k1, NONE);
      WithoutException(k1, k.current);
      FirstIsDeliverable(k1, k.current);
    }
  }

  lemma SendUnfolded(k: Kernel, tid: int, msg: int, msgLen: nat, reply: int, replyLen: nat, junk: Msg)
    requires Core(k) && k.current != NONE && k.tasks[k.current].state == Active
    ensures Send(k, tid, msg, msgLen, reply, replyLen, junk) ==
            if !IsValidTid(tid) then (k, ERR_IMPOSSIBLE_TID)
            else if !IsTaskAlive(k, tid) then (k, ERR_NONEXISTENT_TASK)
            else
              var m := Msg(CurrentTid(k), tid, junk.putTid, msg, msgLen, reply, replyLen, junk.recv, junk.recvLen);
              var k1, r := Post(k, tid, m), Slot(|k.tasks|, tid);
              if k1.tasks[r].tid == tid && k1.tasks[r].state == SendBlocked then
                var w := k1.msgs[r];
                Deliver(k1.(msgs := k1.msgs[k.current := m.(putTid := w.putTid, recv := w.recv, recvLen := w.recvLen)]),
                        tid)
              else (k1, OK)
  {
    hide Partition, Forest, Mail, Ledger, Ranked, Within, Deliver;
    OwnSlot(k, k.current);
  }

  lemma ReceiveUnfolded(k: Kernel, put: int, buf: int, len: nat, junk: Msg, oldest: bool)
    requires Core(k) && k.current != NONE && k.tasks[k.current].state == Active
    ensures Receive(k, put, buf, len, junk, oldest) ==
            var box := k.mail[k.current];
            if box == [] then
              (SetCurrentState(k.(msgs := k.msgs[k.current := junk.(putTid := put, recv := buf, recvLen := len)]),
                               SendBlocked), OK)
            else
              var i := Chosen(box, oldest);
              assert i in k.mail[k.current];
              Deliver(k.(msgs := k.msgs[i := k.msgs[i].(putTid := put, recv := buf, recvLen := len)]),
                      k.tasks[k.current].tid)
  {
    hide Partition, Forest, Mail, Ledger, Ranked, Deliver;
    OwnSlot(k, k.current);
  }

  /** What Send finds when it looks at the receiver. */
  lemma SendStages(k: Kernel, tid: int, m: Msg)
    requires Core(k) && k.current != NONE && k.tasks[k.current].state == Active
    requires IsTaskAlive(k, tid) && m.fromTid == CurrentTid(k) && m.toTid == tid
    ensures var k1, r := Post(k, tid, m), Slot(|k.tasks|, tid);
            && Slot(|k.tasks|, k.tasks[k.current].tid) == k.current
            && Absent(k.mail, k.current)
            && k1.current == k.current && k1.tasks[r].tid == tid && Shape(k1)
            && (k1.tasks[r].state == SendBlocked ==>
                  var w := k1.msgs[r];
                  var k2 := k1.(msgs := k1.msgs[k.current := m.(putTid := w.putTid, recv := w.recv,
                                                                recvLen := w.recvLen)]);
                  Shape(k2) && k2.mail[r] != [] && Deliverable(k2, k2.mail[r][0], r))
  {
    hide Slot, Tids, Partition, Forest, Ledger, Ranked, Within, MailBut, Post, Absent;
    PostKeeps(k, tid, m);
    OwnSlot(k, k.current);
    ActiveHasNoMail(k, k.current);
    var k1, r := Post(k, tid, m), Slot(|k.tasks|, tid);
    if k1.tasks[r].state == SendBlocked {
      var w := k1.msgs[r];
      var k2 := k1.(msgs := k1.msgs[k.current := m.(putTid := w.putTid, recv := w.recv, recvLen := w.recvLen)]);
      SameRecordsKept(k1, k2, r);
      ShapeKept(k1, k2);
      FirstIsDeliverable(k2, r);
    }
  }

  /** What each step of a delivery finds. */
  lemma DeliverStages(k: Kernel, i: nat, tid: int)
    requires Shape(k) && Deliverable(k, i, Slot(|k.tasks|, tid)) && k.tasks[Slot(|k.tasks|, tid)].tid == tid
    ensures Exchangeable(Unboxed(k, tid), k.msgs[i])
  {
    hide Partition, Forest, ActiveIsCurrent, Ranked, CopyBytes, Slot, SetState;
    OwnSlot(k, i);
    hide Tids;
    ShapeKept(k, Unboxed(k, tid));
    hide Within;
    StateChanged(Unboxed(k, tid), i, ReplyBlocked);
  }

  ghost predicate Exchangeable(k: Kernel, m: Msg) {
    && Shape(k) && Listed(k.tasks[Slot(|k.tasks|, m.fromTid)])
    && var k1 := SetState(k, m.fromTid, ReplyBlocked);
       Shape(k1) && Listed(k1.tasks[Slot(|k.tasks|, m.toTid)])
  }

  ghost function SenderTo(k: Kernel, tid: int): (i: nat)
    requires WF(k)
    ensures i < |k.tasks|
  {
    var box := k.mail[Slot(|k.tasks|, tid)];
    if box == [] then 0 else assert box[0] in k.mail[Slot(|k.tasks|, tid)]; box[0]
  }

  lemma NextIsTask(k: Kernel)
    requires WF(k)
    ensures var p := ReadyPriority(k.lists, HIGHEST_PRIORITY);
            p < NUM_PRIORITIES ==> k.lists[ListOf(Ready, p)][0] < |k.tasks|
  {
    var p := ReadyPriority(k.lists, HIGHEST_PRIORITY);
    if p < NUM_PRIORITIES {
      FirstIn(k.lists[ListOf(Ready, p)]);
    }
  }

  function Entries(tasks: seq<Task>, list: seq<nat>): (r: seq<Task>)
    requires forall x :: x in list ==> x < |tasks|
    ensures |r| == |list|
  {
    seq(|list|, n requires 0 <= n < |list| => assert list[n] in list; tasks[list[n]])
  }

  ghost predicate Collected(stats: seq<Task>, tasks: seq<Task>, rows: seq<nat>, count: nat) {
    && count == |rows| <= |stats| && (forall x :: x in rows ==> x < |tasks|)
    && stats[..count] == Entries(tasks, rows)
  }

  lemma EntriesConcat(tasks: seq<Task>, a: seq<nat>, b: seq<nat>)
    requires (forall x :: x in a ==> x < |tasks|) && (forall x :: x in b ==> x < |tasks|)
    ensures Entries(tasks, a + b) == Entries(tasks, a) + Entries(tasks, b)
  {
    assert forall n :: 0 <= n < |a| ==> a[n] in a;
    assert forall n :: 0 <= n < |b| ==> b[n] in b;
  }

  /** Enqueueing a task and removing it again leaves the lists as they were. */
  lemma TakenBack(lists: seq<seq<nat>>, q: nat, i: nat)
    requires q < |lists| && Absent(lists, i)
    ensures Delist(Enlist(lists, q, i), q, i) == lists
  {
    MinusConcat(lists[q], [i], {i});
    MinusNothing(lists[q], {i});
  }

  lemma DequeuedAbsent(qs: seq<seq<nat>>, q: nat)
    requires Apart(qs) && q < |qs| && qs[q] != []
    ensures Absent(qs[q := qs[q][1..]], qs[q][0])
  {
    WithoutFirst(qs[q]);
    FirstIn(qs[q]);
  }

  lemma DequeuedDescriptor(k: Kernel)
    requires Shape(k) && k.lists[FREE_LIST] != [] && (k.current != NONE ==> Listed(k.tasks[k.current]))
    ensures var i := k.lists[FREE_LIST][0];
            && i < |k.tasks| && i != k.current && k.kids[i] == [] && Absent(k.kids, i)
            && Absent(k.lists[FREE_LIST := k.lists[FREE_LIST][1..]], i)
  {
    CanCreateHere(k);
    hide Tids, Forest, Ranked, Within, Slot;
    FirstIn(k.lists[FREE_LIST]);
    WithoutFirst(k.lists[FREE_LIST]);
  }

  lemma CreateComputes(k: Kernel, priority: nat, i: nat, k': Kernel)
    requires WF(k) && CanCreate(k) && priority < NUM_PRIORITIES && k.lists[FREE_LIST] != []
    requires i == k.lists[FREE_LIST][0] && i < |k.tasks| && k.kids[i] == []
    requires k'.tasks == k.tasks[i := Task(k.tasks[i].tid + |k.tasks|, Ready, priority, CurrentTid(k), NONE,
                                           k.tasks[i].ret)]
    requires k'.lists == Enlist(k.lists[FREE_LIST := k.lists[FREE_LIST][1..]], ListOf(Ready, priority), i)
    requires k'.kids == if k.current == NONE then k.kids else Enlist(k.kids, k.current, i)
    requires k'.numTasks == k.numTasks + 1
    requires k'.born == k.born[i := |k.log|]
    requires k'.log == k.log + [Created(k.tasks[i].tid + |k.tasks|)]
    requires k'.current == k.current && k'.msgs == k.msgs && k'.mail == k.mail && k'.mem == k.mem && k'.words == k.words
    ensures (k', k.tasks[i].tid + |k.tasks|) == Create(k, priority)
  {
    hide Ranked, Within;
    assert k.kids[i := []] == k.kids;
  }

  lemma ListedInList(k: Kernel, q: nat, i: nat)
    requires WF(k) && Partition(k) && q < FREE_LIST && i in k.lists[q]
    ensures i < |k.tasks| && Listed(k.tasks[i]) && i != k.current
  {
    assert Home(k, i) == q;
  }

  lemma NoRows(lists: seq<seq<nat>>)
    requires |lists| == FREE_LIST + 1
    ensures Rows(lists, 0) == []
  {
  }

  lemma CurrentIsUnlisted(k: Kernel)
    requires WF(k) && Partition(k) && k.current != NONE && Listed(k.tasks[k.current])
    ensures Absent(k.lists, k.current)
  {
  }

  /** The last descriptor of the list of available ones before the i-th was appended. */
  function LastSoFar(n: nat, i: nat): (last: nat)
    requires 0 < n && i <= n
    ensures last < n
  {
    if i == 0 then n - 1 else i - 1
  }

  /** The first i descriptors are linked in order, but for the backward link of the first. */
  ghost predicate Chained(links: seq<Link>, i: nat) {
    && i <= |links|
    && (forall j {:trigger links[j]} :: 0 <= j < i ==> links[j].next == if j + 1 < i then j + 1 else NIL)
    && (forall j {:trigger links[j]} :: 0 < j < i ==> links[j].prev == j - 1)
  }

  lemma ChainGrows(links: seq<Link>, i: nat)
    requires i < |links| && Chained(links, i)
    ensures var last := LastSoFar(|links|, i);
            Chained(links[last := links[last].(next := i)][i := Link(NIL, last)], i + 1)
  {
  }

  lemma ChainThreads(links: seq<Link>)
    requires 0 < |links| && Chained(links, |links|)
    ensures Threads(Ends(0, |links| - 1), seq(|links|, i => i), links, true)
  {
    var c := seq(|links|, i => i);
    assert forall k :: 0 <= k < |c| ==> c[k] == k && links[c[k]].next == After(c, k);
  }

  /** A listed task is in the list for its state and in no other, or it is current and in none. */
  lemma RemovableTask(k: Kernel, i: nat)
    requires WF(k) && Partition(k) && i < |k.tasks| && Listed(k.tasks[i])
    ensures var q := ListOf(k.tasks[i].state, k.tasks[i].priority);
            && (i in k.lists[q] || Absent(k.lists, i))
            && Absent(Delist(k.lists, q, i), i)
  {
  }
}
