/** What the invariant says about whole runs from boot. */
module KernelTheorems {
  import opened Lists
  import opened KernelModel
  import opened KernelInvariant
  import opened KernelSteps
  import opened KernelDestroy
  import opened KernelRuns

  // ------------------------------------------------------------------ boot

  lemma InitPartition(n: nat)
    requires 0 < n
    ensures WF(InitState(n)) && Partition(InitState(n))
  {
    var k := InitState(n);
    assert forall q :: 0 <= q < FREE_LIST ==> k.lists[q] == [];
    forall i, q | 0 <= i < n && 0 <= q < |k.lists| ensures i in k.lists[q] <==> Home(k, i) == q {
      assert k.lists[FREE_LIST][i] == i && Home(k, i) == FREE_LIST;
    }
  }

  lemma InitTids(n: nat)
    requires 0 < n <= LONG_MAX && WF(InitState(n))
    ensures Tids(InitState(n))
  {
    hide Slot, Ranked, Within;
    var k := InitState(n);
    forall i | 0 <= i < n
      ensures k.tasks[i].tid == i - n && Slot(n, k.tasks[i].tid) == i
    {
      InitSlot(n, i);
    }
  }

  lemma InitSlot(n: nat, i: nat)
    requires i < n
    ensures Slot(n, i - n) == i
  {
    NextTid(n, i - n);
  }

  lemma InitHolds(n: nat)
    requires 0 < n <= LONG_MAX
    ensures Core(InitState(n))
  {
    InitPartition(n);
    InitTids(n);
    hide Partition, Tids, Slot, Ranked, Within;
    var k := InitState(n);
    assert forall i :: 0 <= i < n ==> QueueOk(k, i) && RecordOk(k, i);
    assert forall t :: 0 <= t <= LONG_MAX ==> !IsTaskAlive(k, t);
  }

  /** The kernel once launched: the null task, the first user task, and the first scheduling decision. */
  function Boot(n: nat): (k: Kernel)
    requires 2 <= n <= LONG_MAX
  {
    InitHolds(n);
    CreateKeeps(InitState(n), NULL_PRIORITY);
    var k1 := Create(InitState(n), NULL_PRIORITY).0;
    CreateKeeps(k1, LOW_PRIORITY);
    Schedule(Create(k1, LOW_PRIORITY).0)
  }

  /** The first task ever created becomes the null task, and boot ends with some task running. */
  lemma BootRuns(n: nat)
    requires 2 <= n <= LONG_MAX
    ensures Running(Boot(n))
  {
    var k0 := InitState(n);
    InitHolds(n);
    CreateKeeps(k0, NULL_PRIORITY);
    var k1 := Create(k0, NULL_PRIORITY).0;
    assert k0.lists[FREE_LIST][0] == 0;
    CreateEffect(k0, NULL_PRIORITY);
    assert NullTask(k1);
    SecondCreate(k1);
    var k2 := Create(k1, LOW_PRIORITY).0;
    hide Core, NullTask, Create, InitState;
    ScheduleKeeps(k2);
    NullIsReady(k2);
  }

  lemma SecondCreate(k1: Kernel)
    requires Core(k1) && NullTask(k1) && k1.current == NONE
    ensures CanCreate(k1) && Core(Create(k1, LOW_PRIORITY).0) && NullTask(Create(k1, LOW_PRIORITY).0)
  {
    CreateKeeps(k1, LOW_PRIORITY);
    hide Partition, Tids, Forest, MailBut, Ledger, Slot, Ranked, Within, CanCreate;
    if k1.lists[FREE_LIST] != [] {
      CreateEffect(k1, LOW_PRIORITY);
      hide Create;
    }
  }

  /** In every state of every run from boot, for any number of descriptors: each descriptor is in
      exactly one place, the family tree is sound, one message record per task suffices, and the
      history is as the states say. */
  lemma {:induction false} EveryReachableState(n: nat, calls: seq<Call>)
    requires 2 <= n <= LONG_MAX
    requires Running(Boot(n)) && Legal(Boot(n), calls)
    ensures var k := Run(Boot(n), calls);
            && |k.tasks| == n
            && Partition(k) && Tids(k) && Forest(k) && Mail(k) && Ledger(k) && NullTask(k)
            && k.current != NONE && k.tasks[k.current].state == Active
  {
    BootSize(n);
    RunSize(Boot(n), calls);
    hide Boot;
  }

  lemma BootSize(n: nat)
    requires 2 <= n <= LONG_MAX
    ensures |Boot(n).tasks| == n
  {
    InitHolds(n);
    CreateKeeps(InitState(n), NULL_PRIORITY);
    hide Core, Create, Schedule;
  }

  lemma {:induction false} RunSize(k: Kernel, calls: seq<Call>)
    requires Running(k) && Legal(k, calls)
    ensures |Run(k, calls).tasks| == |k.tasks|
    decreases |calls|
  {
    hide Partition, Tids, Forest, Mail, Ledger, NullTask, Enabled, CanCreate, Step, Ranked, Within;
    if calls != [] {
      StepKeeps(k, calls[0]);
      RunSize(Step(k, calls[0]), calls[1..]);
    }
  }

  // ------------------------------------------------------------------ Send, Receive, Reply

  predicate About(e: Event, t: int) {
    (e.Sent? || e.Received? || e.Replied?) && e.tid == t
  }

  /** No message event of task t strictly between positions a and b. */
  ghost predicate Silent(log: seq<Event>, t: int, a: int, b: int) {
    forall c :: 0 <= c < |log| && a < c < b ==> !About(log[c], t)
  }

  /** The Send at position j was received at a, by the task it was sent to, and answered at b,
      with no other message event of that sender in between. */
  ghost predicate Answers(log: seq<Event>, t: int, to: int, j: int, a: int, b: int) {
    && 0 <= j < a < b < |log|
    && log[a] == Received(t, to)
    && log[b].Replied? && log[b].tid == t
    && Silent(log, t, j, a) && Silent(log, t, a, b)
  }

  /** Every Send of a task whose history is in order was received once by its addressee and then
      answered once, or is the one the task is still blocked on. */
  lemma {:induction false} Conversation(log: seq<Event>, t: int, j: nat) returns (a: int, b: int)
    requires PhaseOf(log, t) != Broken && j < |log| && log[j].Sent? && log[j].tid == t
    ensures Answers(log, t, log[j].to, j, a, b) ||
            (PhaseOf(log, t) == Pending(log[j].to) && Silent(log, t, j, |log|)) ||
            (PhaseOf(log, t) == Taken && j < a < |log| && log[a] == Received(t, log[j].to) &&
             Silent(log, t, j, a) && Silent(log, t, a, |log|))
    decreases |log|
  {
    var front, e := log[..|log| - 1], log[|log| - 1];
    a, b := NONE, NONE;
    if j < |front| {
      a, b := Conversation(front, t, j);
      if !Answers(front, t, front[j].to, j, a, b) && About(e, t) {
        if PhaseOf(front, t) == Taken { b := |front|; } else { a := |front|; }
      }
      if Answers(front, t, front[j].to, j, a, b) {
        assert Silent(log, t, j, a) && Silent(log, t, a, b);
      }
    }
  }

  /** In every reachable state every Send made so far by a task that is not blocked in one was
      received exactly once, by its addressee, and after that answered exactly once: nothing else
      ever releases a sender. */
  lemma SendersAreReleasedByReply(k: Kernel, i: nat, j: nat) returns (a: int, b: int)
    requires Running(k) && i < |k.tasks| && Listed(k.tasks[i])
    requires k.tasks[i].state != ReceiveBlocked && k.tasks[i].state != ReplyBlocked
    requires j < |k.log| && k.log[j].Sent? && k.log[j].tid == k.tasks[i].tid
    ensures Answers(k.log, k.tasks[i].tid, k.log[j].to, j, a, b)
  {
    hide Partition, Tids, Forest, MailBut, Known, Lives, Slot, Answers, Silent, Fifo, Ranked, Within;
    assert PhaseOk(k, i);
    a, b := Conversation(k.log, k.tasks[i].tid, j);
  }

  /** A receiver has taken the messages of its senders in the order they sent them; those it has
      not taken yet are waiting, in that order. */
  lemma FirstComeFirstServed(k: Kernel, r: nat)
    requires Running(k) && r < |k.tasks| && Listed(k.tasks[r])
    ensures forall x :: x in k.mail[r] ==> x < |k.tasks|
    ensures TakenBy(k.log, k.tasks[r].tid) <= SentTo(k.log, k.tasks[r].tid)
    ensures SentTo(k.log, k.tasks[r].tid)[|TakenBy(k.log, k.tasks[r].tid)|..] == TidsOf(k.tasks, k.mail[r])
  {
    hide Partition, Tids, Forest, MailBut, Known, Lives, Phases, Slot, Ranked;
    InBox(k, r);
    assert FifoOk(k, r);
  }

  /** A task's record is in exactly one message queue if the task is RECEIVE_BLOCKED, and in none otherwise. */
  lemma OneRecordPerTask(k: Kernel, i: nat)
    requires Running(k) && i < |k.tasks|
    ensures forall r :: 0 <= r < |k.mail| ==>
              (i in k.mail[r] <==> k.tasks[i].state == ReceiveBlocked && k.msgs[i].toTid == k.tasks[r].tid)
    ensures k.tasks[i].state == ReceiveBlocked ==>
              var r := Slot(|k.tasks|, k.msgs[i].toTid);
              k.tasks[r].tid == k.msgs[i].toTid && Listed(k.tasks[r]) && i in k.mail[r]
  {
    hide Partition, Forest, Ledger, Ranked, Within, Slot;
    assert RecordOk(k, i);
    forall r | 0 <= r < |k.mail|
      ensures i in k.mail[r] <==> k.tasks[i].state == ReceiveBlocked && k.msgs[i].toTid == k.tasks[r].tid
    {
      assert QueueOk(k, r);
      OwnSlot(k, r);
    }
    if k.tasks[i].state == ReceiveBlocked {
      assert QueueOk(k, Slot(|k.tasks|, k.msgs[i].toTid));
    }
  }

  // ------------------------------------------------------------------ tids

  /** IsTaskAlive answers, for every tid there is, whether the creation that returned it has neither
      exited nor been destroyed; no tid is returned twice. */
  lemma TidsIdentifyLives(k: Kernel, t: int)
    requires Running(k) && IsValidTid(t)
    ensures IsTaskAlive(k, t) <==> Created(t) in k.log && Exited(t) !in k.log && Reaped(t) !in k.log
    ensures forall a, b :: 0 <= a < |k.log| && 0 <= b < |k.log| && k.log[a] == Created(t) == k.log[b] ==> a == b
  {
    hide Partition, Tids, Forest, MailBut, Phases, Fifo, Slot, Ranked, Within;
  }

  /** Creating again and again without a Destroy hands out the descriptors in the order of the free list. */
  function CreateMany(k: Kernel, priorities: seq<nat>): (r: (Kernel, seq<int>))
    requires Core(k) && (k.current != NONE ==> Listed(k.tasks[k.current]))
    requires forall p :: p in priorities ==> p < NUM_PRIORITIES
    ensures Core(r.0) && (r.0.current != NONE ==> Listed(r.0.tasks[r.0.current])) && |r.0.tasks| == |k.tasks|
    decreases |priorities|
  {
    if priorities == [] then (k, [])
    else
      var front, last := priorities[..|priorities| - 1], priorities[|priorities| - 1];
      assert last in priorities && forall p :: p in front ==> p in priorities;
      var (k1, tids) := CreateMany(k, front);
      CreateKeeps(k1, last);
      CreateListsCurrent(k1, last);
      var (k2, tid) := Create(k1, last);
      (k2, tids + [tid])
  }

  lemma CreateListsCurrent(k: Kernel, priority: nat)
    requires Core(k) && (k.current != NONE ==> Listed(k.tasks[k.current])) && priority < NUM_PRIORITIES
    ensures CanCreate(k)
    ensures var k' := Create(k, priority).0;
            k'.current == k.current && (k'.current != NONE ==> Listed(k'.tasks[k'.current]))
  {
    CanCreateHere(k);
    hide Partition, Tids, Forest, MailBut, Ledger, Slot, Ranked, Within, CanCreate;
    if k.lists[FREE_LIST] != [] { CreateEffect(k, priority); hide Create; }
  }

  /** The free list holds the descriptors from m on, none of them used before. */
  ghost predicate Unused(k: Kernel, m: nat)
    requires WF(k)
  {
    && k.current == NONE
    && k.lists[FREE_LIST] == (if m < |k.tasks| then seq(|k.tasks| - m, j => m + j) else [])
    && forall i :: m <= i < |k.tasks| ==> k.tasks[i].tid == i - |k.tasks|
  }

  lemma BornUnused(k: Kernel, m: nat, priority: nat, k': Kernel)
    requires m < |k.tasks| && Born(k, m, priority, k') && Unused(k, m)
    ensures Unused(k', m + 1) && k'.tasks[m].tid == m
  {
    hide Ranked, Within;
  }

  lemma NextUnused(k: Kernel, m: nat, priority: nat)
    requires Core(k) && Unused(k, m) && priority < NUM_PRIORITIES
    ensures CanCreate(k) && Unused(Create(k, priority).0, m + 1)
    ensures Create(k, priority).1 == if m < |k.tasks| then m else ERR_UNAVAILABLE_DESCRIPTOR
  {
    CanCreateHere(k);
    hide Partition, Tids, Forest, Mail, Ledger, Slot, Ranked, Within, CanCreate, ActiveIsCurrent, Born;
    if m < |k.tasks| {
      CreateEffect(k, priority);
      assert k.lists[FREE_LIST][0] == m;
      BornUnused(k, m, priority, Create(k, priority).0);
      BornTid(k, m, priority, Create(k, priority).0);
    }
  }

  lemma BornTid(k: Kernel, m: nat, priority: nat, k': Kernel)
    requires Born(k, m, priority, k')
    ensures k'.tasks[m].tid == k.tasks[m].tid + |k.tasks|
  {
    hide Ranked, Within;
  }

  /** From a table whose descriptors are unused from m on, the tids come out as m, m + 1, ... and
      after the last descriptor every attempt is refused. */
  lemma {:induction false} TidsFollow(k: Kernel, m: nat, priorities: seq<nat>)
    requires Core(k) && k.current == NONE && Unused(k, m) && forall p :: p in priorities ==> p < NUM_PRIORITIES
    ensures var (k', tids) := CreateMany(k, priorities);
            && Unused(k', m + |priorities|) && |tids| == |priorities|
            && (forall j :: 0 <= j < |tids| ==>
                  tids[j] == if m + j < |k.tasks| then m + j else ERR_UNAVAILABLE_DESCRIPTOR)
    decreases |priorities|
  {
    hide Shape, Mail, Ledger, Create, CanCreate, Unused, WF;
    if priorities != [] {
      hide CreateMany;
      var front, last := priorities[..|priorities| - 1], priorities[|priorities| - 1];
      assert last in priorities && forall p :: p in front ==> p in priorities;
      TidsFollow(k, m, front);
      OneMore(k, m, priorities);
    }
  }

  lemma OneMore(k: Kernel, m: nat, priorities: seq<nat>)
    requires Core(k) && (k.current != NONE ==> Listed(k.tasks[k.current])) && priorities != []
    requires forall p :: p in priorities ==> p < NUM_PRIORITIES
    ensures var front, last := priorities[..|priorities| - 1], priorities[|priorities| - 1];
            && (forall p :: p in front ==> p < NUM_PRIORITIES)
            && var (k1, tids) := CreateMany(k, front);
               (Unused(k1, m + |front|) ==>
                  && Unused(CreateMany(k, priorities).0, m + |priorities|)
                  && CreateMany(k, priorities).1 ==
                     tids + [if m + |front| < |k.tasks| then m + |front| else ERR_UNAVAILABLE_DESCRIPTOR])
  {
    hide Partition, Tids, Forest, ActiveIsCurrent, Ranked, Within, Mail, Ledger, Create, CanCreate, Unused;
    var front, last := priorities[..|priorities| - 1], priorities[|priorities| - 1];
    assert last in priorities && forall p :: p in front ==> p in priorities;
    var k1 := CreateMany(k, front).0;
    if Unused(k1, m + |front|) {
      NextUnused(k1, m + |front|, last);
    }
  }

  /** At boot, repeated creation yields 0, 1, 2, ..., n - 1 and then ERR_UNAVAILABLE_DESCRIPTOR. */
  lemma TidsInOrder(n: nat, priorities: seq<nat>)
    requires 0 < n <= LONG_MAX && forall p :: p in priorities ==> p < NUM_PRIORITIES
    ensures Core(InitState(n)) && InitState(n).current == NONE
    ensures var tids := CreateMany(InitState(n), priorities).1;
            && |tids| == |priorities|
            && (forall j :: 0 <= j < |tids| ==> tids[j] == if j < n then j else ERR_UNAVAILABLE_DESCRIPTOR)
  {
    InitHolds(n);
    InitUnused(n);
    hide Shape, Mail, Ledger, CreateMany;
    TidsFollow(InitState(n), 0, priorities);
  }

  lemma InitUnused(n: nat)
    requires 0 < n && WF(InitState(n))
    ensures Unused(InitState(n), 0) && InitState(n).current == NONE && |InitState(n).tasks| == n
  {
    hide Ranked, Within;
  }
}
