/** Runs from boot that reach the states in which the source falls short of its promises. */
module KernelScenarios {
  import opened Cells
  import opened Lists
  import opened KernelModel
  import opened KernelInvariant
  import opened KernelSteps
  import opened KernelDestroy
  import opened KernelRuns
  import opened KernelTheorems
  import opened KernelCounting
  import opened KernelRecords
  import opened KernelMemory
  import opened KernelReceive

  // ------------------------------------------------------------------ two kinds of states

  /** The descriptors from m on have never been used. */
  ghost predicate Spare(k: Kernel, m: nat)
    requires WF(k)
  {
    && m <= |k.tasks| && k.lists[FREE_LIST] == seq(|k.tasks| - m, j => m + j)
    && forall i :: m <= i < |k.tasks| ==> k.tasks[i].tid == i - |k.tasks|
  }

  /** The first user task runs, and nobody but the null task is ready. */
  ghost predicate ParentRuns(k: Kernel, m: nat) {
    && WF(k) && 2 <= m && Spare(k, m)
    && k.current == 1 && k.tasks[1].tid == 1 && k.tasks[1].priority == LOW_PRIORITY && k.tasks[1].state == Active
    && forall p :: 0 <= p < NULL_PRIORITY ==> k.lists[ListOf(Ready, p)] == []
  }

  /** Its youngest child c runs at the highest priority, and the parent is next. */
  ghost predicate ChildRuns(k: Kernel, c: nat) {
    && WF(k) && 2 <= c && Spare(k, c + 1)
    && k.current == c && k.tasks[c].tid == c && k.tasks[c].priority == HIGHEST_PRIORITY && k.tasks[c].state == Active
    && k.tasks[c].parentTid == 1 && k.kids[c] == []
    && k.tasks[1].tid == 1 && k.tasks[1].priority == LOW_PRIORITY && k.tasks[1].state == Ready
    && (forall p :: 0 <= p < LOW_PRIORITY ==> k.lists[ListOf(Ready, p)] == [])
    && k.lists[ListOf(Ready, LOW_PRIORITY)] == [1]
  }

  /** Everybody else is as before. */
  ghost predicate SameOthers(k: Kernel, k': Kernel, c: nat) {
    && |k'.tasks| == |k.tasks|
    && forall i :: 0 <= i < |k.tasks| && i != c && i != 1 ==> k'.tasks[i] == k.tasks[i]
  }

  /** What the next decision is when the first ready list with somebody in it is that of priority p. */
  lemma Picks(k: Kernel, p: nat)
    requires WF(k) && p < NUM_PRIORITIES
    requires var lists := Requeue(k).lists;
             lists[ListOf(Ready, p)] != [] && forall q :: 0 <= q < p ==> lists[ListOf(Ready, q)] == []
    ensures var k1, q := Requeue(k), ListOf(Ready, p);
            && k1.lists[q][0] < |k1.tasks|
            && Schedule(k) == k1.(lists := k1.lists[q := k1.lists[q][1..]], current := k1.lists[q][0],
                                  tasks := k1.tasks[k1.lists[q][0] := k1.tasks[k1.lists[q][0]].(state := Active)])
  {
    hide Ranked, Requeue;
    FirstIn(Requeue(k).lists[ListOf(Ready, p)]);
  }

  /** The handler, before the next decision: the child is ready and the parent still current. */
  lemma SpawnHandled(k: Kernel, c: nat)
    requires Running(k) && ParentRuns(k, c) && c < |k.tasks| && CanCreate(k)
    ensures var h := Handle(k, CreateCall(HIGHEST_PRIORITY));
            && h.tasks == k.tasks[c := Task(c, Ready, HIGHEST_PRIORITY, 1, NONE, k.tasks[c].ret)]
                                 [1 := k.tasks[1].(ret := c)]
            && h.lists == k.lists[FREE_LIST := k.lists[FREE_LIST][1..]][ListOf(Ready, HIGHEST_PRIORITY) := [c]]
            && h.current == 1 && h.kids[c] == [] && h.mail == k.mail && h.mem == k.mem && h.words == k.words
            && h.msgs == k.msgs && h.numTasks == k.numTasks + 1
  {
    hide Partition, Tids, Forest, Mail, Ledger, NullTask, Ranked, Within, Slot, CanCreate, Create;
    CreateEffect(k, HIGHEST_PRIORITY);
    CreateLeaves(k, HIGHEST_PRIORITY);
    assert k.lists[ListOf(Ready, HIGHEST_PRIORITY)] + [c] == [c];
  }

  lemma Spawn(k: Kernel, c: nat)
    requires Running(k) && ParentRuns(k, c) && c < |k.tasks|
    ensures CanCreate(k) && Enabled(k, CreateCall(HIGHEST_PRIORITY))
    ensures var k' := Step(k, CreateCall(HIGHEST_PRIORITY));
            && ChildRuns(k', c) && SameOthers(k, k', c)
            && k'.mail == k.mail && k'.mem == k.mem && k'.words == k.words && k'.msgs == k.msgs
            && k'.numTasks == k.numTasks + 1
  {
    hide Partition, Tids, Forest, Mail, Ledger, NullTask, Ranked, Within, Slot, CanCreate, Handle, Schedule;
    StepKeeps(k, CreateCall(HIGHEST_PRIORITY));
    SpawnHandled(k, c);
    Picks(Handle(k, CreateCall(HIGHEST_PRIORITY)), HIGHEST_PRIORITY);
  }

  lemma CreateLeaves(k: Kernel, priority: nat)
    requires WF(k) && CanCreate(k) && priority < NUM_PRIORITIES && k.lists[FREE_LIST] != []
    ensures var k' := Create(k, priority).0;
            k'.mem == k.mem && k'.words == k.words && k'.numTasks == k.numTasks + 1
  {
    hide Ranked, Within;
  }

  /** The child sends to its parent, which is not receiving, and control goes back to the parent. */
  lemma Report(k: Kernel, c: nat, call: Call)
    requires Running(k) && ChildRuns(k, c) && call.SendCall? && call.tid == 1
    ensures CanCreate(k) && Enabled(k, call)
    ensures var k' := Step(k, call);
            && ParentRuns(k', c + 1) && SameOthers(k, k', c)
            && k'.tasks[c].tid == c && k'.tasks[c].parentTid == 1 && k'.tasks[c].state == ReceiveBlocked
            && k'.mail == k.mail[1 := k.mail[1] + [c]] && k'.mem == k.mem && k'.words == k.words
            && k'.msgs == k.msgs[c := Msg(c, 1, call.junk.putTid, call.msg, call.msgLen, call.reply, call.replyLen,
                                          call.junk.recv, call.junk.recvLen)]
            && k'.numTasks == k.numTasks
  {
    hide Partition, Forest, Mail, Ledger, NullTask, Ranked, Within, CanCreate, Schedule, Deliver;
    StepKeeps(k, call);
    OwnSlot(k, c);
    OwnSlot(k, 1);
    Picks(Handle(k, call), LOW_PRIORITY);
  }

  /** The child exits, and control goes back to the parent. */
  lemma Leave(k: Kernel, c: nat)
    requires Running(k) && ChildRuns(k, c)
    ensures CanCreate(k) && Enabled(k, ExitCall)
    ensures var k' := Step(k, ExitCall);
            && ParentRuns(k', c + 1) && SameOthers(k, k', c)
            && k'.tasks[c].tid == c && k'.tasks[c].parentTid == 1 && k'.tasks[c].state == Zombie && k'.kids[c] == []
            && k'.mail == k.mail && k'.numTasks == k.numTasks - 1
  {
    hide Partition, Tids, Forest, Mail, Ledger, NullTask, Ranked, CanCreate, Schedule;
    StepKeeps(k, ExitCall);
    Picks(Handle(k, ExitCall), LOW_PRIORITY);
  }

  lemma BootSpare(n: nat)
    requires 2 <= n <= LONG_MAX
    ensures Running(Boot(n)) && ParentRuns(Boot(n), 2) && |Boot(n).tasks| == n && Boot(n).numTasks == 2
    ensures AllCalm(Boot(n)) && Boot(n).words == map[] && Boot(n).mem == map[]
  {
    hide Partition, Tids, Forest, Mail, Ledger, NullTask, Ranked, CanCreate, Create, Schedule;
    BootRuns(n);
    BootIsCalm(n);
    BootSize(n);
    var k0 := InitState(n);
    InitHolds(n);
    CreateKeeps(k0, NULL_PRIORITY);
    CreateEffect(k0, NULL_PRIORITY);
    CreateLeaves(k0, NULL_PRIORITY);
    var k1 := Create(k0, NULL_PRIORITY).0;
    CreateKeeps(k1, LOW_PRIORITY);
    CreateEffect(k1, LOW_PRIORITY);
    CreateLeaves(k1, LOW_PRIORITY);
    Picks(Create(k1, LOW_PRIORITY).0, LOW_PRIORITY);
  }

  // ------------------------------------------------------------------ three runs

  lemma OneMoreCall(k: Kernel, call: Call, rest: seq<Call>)
    requires Running(k) && Enabled(k, call)
    ensures CanCreate(k) && Running(Step(k, call))
    ensures Legal(Step(k, call), rest) ==>
              && Legal(k, [call] + rest) && Run(k, [call] + rest) == Run(Step(k, call), rest)
              && AllZombiesDestroyed(k, [call] + rest) ==
                 ZombiesDestroyed(k, call) + AllZombiesDestroyed(Step(k, call), rest)
  {
    hide Core, NullTask, Enabled, Step, ZombiesDestroyed;
    StepKeeps(k, call);
    assert ([call] + rest)[1..] == rest;
  }

  /** A child is created, sends to its parent, which is not receiving, and so waits in its queue. */
  lemma OneReports(k: Kernel, c: nat, call: Call, rest: seq<Call>) returns (k': Kernel)
    requires Running(k) && ParentRuns(k, c) && c < |k.tasks| && call.SendCall? && call.tid == 1
    ensures Running(k') && ParentRuns(k', c + 1) && |k'.tasks| == |k.tasks|
    ensures (forall i :: 0 <= i < c && i != 1 ==> k'.tasks[i] == k.tasks[i])
    ensures k'.tasks[c].tid == c && k'.tasks[c].parentTid == 1 && k'.tasks[c].state == ReceiveBlocked
    ensures k'.mail == k.mail[1 := k.mail[1] + [c]] && k'.mem == k.mem && k'.words == k.words
    ensures k'.msgs == k.msgs[c := Msg(c, 1, call.junk.putTid, call.msg, call.msgLen, call.reply, call.replyLen,
                                       call.junk.recv, call.junk.recvLen)]
    ensures Legal(k', rest) ==>
              var calls := [CreateCall(HIGHEST_PRIORITY), call] + rest;
              Legal(k, calls) && Run(k, calls) == Run(k', rest)
  {
    hide Core, NullTask, Step, Enabled, Legal, Run, AllZombiesDestroyed;
    Spawn(k, c);
    OneMoreCall(k, CreateCall(HIGHEST_PRIORITY), [call] + rest);
    var k1 := Step(k, CreateCall(HIGHEST_PRIORITY));
    Report(k1, c, call);
    OneMoreCall(k1, call, rest);
    k' := Step(k1, call);
    assert [CreateCall(HIGHEST_PRIORITY)] + ([call] + rest) == [CreateCall(HIGHEST_PRIORITY), call] + rest;
  }

  /** From boot, a child that sends to its parent can be destroyed with its message still queued. */
  lemma DestroyedWithMail(n: nat, call: Call)
    requires 3 <= n <= LONG_MAX && call.SendCall? && call.tid == 1
    ensures Running(Boot(n)) && Legal(Boot(n), [CreateCall(HIGHEST_PRIORITY), call])
    ensures var k := Run(Boot(n), [CreateCall(HIGHEST_PRIORITY), call]);
            && k.current == 1 && Accepted(k, 2) && DestroyInBounds(k, 2) && !SubtreeQuiet(k, 2)
            && !Mail(Destroy(k, 2).0)
  {
    hide Core, NullTask, Boot, Destroy, Enabled, Legal, Run, SubtreeQuiet, AllZombiesDestroyed;
    BootSpare(n);
    var k := OneReports(Boot(n), 2, call, []);
    NothingMore(k);
    assert [CreateCall(HIGHEST_PRIORITY), call] + [] == [CreateCall(HIGHEST_PRIORITY), call];
    BlockedChild(k, 2);
  }

  /** A blocked sender can be destroyed, and its message stays behind. */
  lemma BlockedChild(k: Kernel, c: nat)
    requires Core(k) && 2 <= c < |k.tasks|
    requires k.tasks[c].tid == c && k.tasks[c].parentTid == 1 && k.tasks[c].state == ReceiveBlocked
    ensures Accepted(k, c) && DestroyInBounds(k, c) && !SubtreeQuiet(k, c) && !Mail(Destroy(k, c).0)
  {
    hide Partition, Forest, Mail, Ledger, Ranked, Within, Destroy, Slot;
    OwnSlot(k, c);
    assert Descends(k, c, c);
    DestroyMail(k, c);
  }

  lemma ChildlessDeathRow(k: Kernel, tid: int)
    requires WF(k) && k.kids[Slot(|k.tasks|, tid)] == []
    ensures DeathRow(k, tid) == [Slot(|k.tasks|, tid)]
  {
    hide Slot;
    var i := Slot(|k.tasks|, tid);
    assert PostOrders(k.kids, k.born, |k.log|, k.born[i], k.kids[i]) == [];
  }

  lemma OneZombie(k: Kernel, c: nat)
    requires c < |k.tasks| && k.tasks[c].state == Zombie
    ensures Zombies(k.tasks, [c]) == 1
  {
    assert [c][..0] == [];
  }

  /** A Destroy of one task counts down by one. */
  lemma OneLess(k: Kernel, c: nat)
    requires Running(k) && Enabled(k, DestroyCall(c)) && Accepted(k, c) && |DeathRow(k, c)| == 1 && CanCreate(k)
    ensures Step(k, DestroyCall(c)).numTasks == k.numTasks - 1
  {
    hide Partition, Tids, Forest, Mail, Ledger, NullTask, Ranked, Within, Destroy, CanCreate, Create, Schedule,
      DeathRow, Slot, SubtreeQuiet;
    DestroyLists(k, c);
    ScheduleUncounted(Handle(k, DestroyCall(c)));
  }

  /** A childless zombie that its parent destroys. */
  lemma BuryZombie(k: Kernel, c: nat)
    requires Running(k) && ParentRuns(k, c + 1) && 2 <= c && AllZombieQuiet(k)
    requires k.tasks[c].tid == c && k.tasks[c].parentTid == 1 && k.tasks[c].state == Zombie && k.kids[c] == []
    ensures Enabled(k, DestroyCall(c)) && ZombiesDestroyed(k, DestroyCall(c)) == 1
    ensures CanCreate(k) && Step(k, DestroyCall(c)).numTasks == k.numTasks - 1
  {
    hide Partition, Forest, Mail, Ledger, NullTask, Ranked, Within, Step, CanCreate, DeathRow, Zombies, Descends, Slot;
    OwnSlot(k, c);
    ChildlessDeathRow(k, c);
    OneZombie(k, c);
    StepKeeps(k, DestroyCall(c));
    OneLess(k, c);
  }

  /** Nobody is in any exchange of messages. */
  ghost predicate AllZombieQuiet(k: Kernel) {
    |k.mail| == |k.tasks| && forall i :: 0 <= i < |k.tasks| ==> k.mail[i] == [] && k.tasks[i].state != ReceiveBlocked
  }

  /** From boot, a child that has exited can be destroyed: num_tasks is 1 then, while two tasks are alive. */
  lemma ZombieDestroyed(n: nat)
    requires 3 <= n <= LONG_MAX
    ensures Running(Boot(n)) && Legal(Boot(n), [CreateCall(HIGHEST_PRIORITY), ExitCall, DestroyCall(2)])
    ensures var calls := [CreateCall(HIGHEST_PRIORITY), ExitCall, DestroyCall(2)];
            && AllZombiesDestroyed(Boot(n), calls) == 1
            && Run(Boot(n), calls).numTasks == 1 && Alive(Run(Boot(n), calls).tasks) == 2
  {
    hide Core, NullTask, Boot, Step, Enabled, Legal, Run, AllZombiesDestroyed, ZombiesDestroyed, Alive;
    BootSpare(n);
    var create, destroy := CreateCall(HIGHEST_PRIORITY), DestroyCall(2);
    Spawn(Boot(n), 2);
    OneMoreCall(Boot(n), create, [ExitCall, destroy]);
    var k1 := Step(Boot(n), create);
    Leave(k1, 2);
    OneMoreCall(k1, ExitCall, [destroy]);
    var k2 := Step(k1, ExitCall);
    BuryZombie(k2, 2);
    OneMoreCall(k2, destroy, []);
    NothingMore(Step(k2, destroy));
    OneDestroyed(Boot(n), create);
    OneDestroyed(k1, ExitCall);
    assert [destroy] + [] == [destroy] && [ExitCall] + [destroy] == [ExitCall, destroy];
    assert [create] + [ExitCall, destroy] == [create, ExitCall, destroy];
    TasksCounted(n, [create, ExitCall, destroy]);
  }

  lemma OneDestroyed(k: Kernel, call: Call)
    requires WF(k) && !call.DestroyCall?
    ensures ZombiesDestroyed(k, call) == 0
  {
  }

  lemma NothingMore(k: Kernel)
    requires Running(k)
    ensures Legal(k, []) && Run(k, []) == k && AllZombiesDestroyed(k, []) == 0
  {
  }

  /** A run in which two children send to their parent. */
  function TwoReports(first: Call, second: Call): seq<Call> {
    [CreateCall(HIGHEST_PRIORITY), first, CreateCall(HIGHEST_PRIORITY), second]
  }

  lemma TwoWaiting(n: nat, first: Call, second: Call)
    requires 4 <= n <= LONG_MAX
    requires first.SendCall? && first.tid == 1 && second.SendCall? && second.tid == 1
    ensures Running(Boot(n)) && Legal(Boot(n), TwoReports(first, second))
    ensures var k := Run(Boot(n), TwoReports(first, second));
            && k.current == 1 && |k.mail| == |k.tasks| == |k.msgs| == n && k.mail[1] == [2, 3] && k.words == map[]
            && k.tasks[2].tid == 2
            && k.msgs[2] == Msg(2, 1, first.junk.putTid, first.msg, first.msgLen, first.reply, first.replyLen,
                                first.junk.recv, first.junk.recvLen)
  {
    hide Core, NullTask, Boot, Step, Enabled, Legal, Run;
    BootSpare(n);
    var create := CreateCall(HIGHEST_PRIORITY);
    var k2 := OneReports(Boot(n), 2, first, [create, second]);
    var k := OneReports(k2, 3, second, []);
    NothingMore(k);
    assert [create, second] + [] == [create, second] && [create, first] + [create, second] == TwoReports(first, second);
  }

  /** With two messages waiting and a first record that names no buffer, no argument of Receive as written
      makes a byte of memory change. */
  lemma NothingArrives(k: Kernel, put: int, buf: int, len: nat, junk: Msg)
    requires Running(k) && |k.mail[k.current]| == 2 && k.mail[k.current][0] < |k.tasks|
    requires k.msgs[k.mail[k.current][0]].recv == NULL
    ensures var i := k.mail[k.current][0];
            var (k', ret) := Receive(k, put, buf, len, junk, false);
            ret == k.msgs[i].msgLen && k'.mem == k.mem && k'.words == k.words[k.msgs[i].putTid := k.tasks[i].tid]
  {
    hide Partition, Tids, Forest, Mail, Ledger, NullTask, Ranked, Within, Receive, CopyBytes;
    ReceiveWrites(k, k.mem, put, buf, len, junk, false);
    assert k.(mem := k.mem) == k;
    ReceiveReturns(k, put, buf, len, junk, false);
  }

  /** From boot, two children send to their parent, which then has two messages waiting. As written its
      Receive returns the length of the first message, and yet, wherever it wants to be told the sender
      and whatever buffer it passes, not a byte of memory changes, and the sender is written to
      wherever the first sender's uninitialised record happened to point. */
  lemma ReceiveMissesItsBuffer(n: nat, first: Call, second: Call, put: int, buf: int, len: nat, junk: Msg)
    requires 4 <= n <= LONG_MAX
    requires first.SendCall? && first.tid == 1 && second.SendCall? && second.tid == 1 && first.junk.recv == NULL
    ensures Running(Boot(n)) && Legal(Boot(n), TwoReports(first, second))
    ensures var k := Run(Boot(n), TwoReports(first, second));
            var (k', ret) := Receive(k, put, buf, len, junk, false);
            && k.mail[k.current] == [2, 3]
            && |k.tasks| == |k.msgs| == n && k.tasks[2].tid == 2 && k.msgs[2].msg == first.msg
            && ret == first.msgLen && k'.mem == k.mem && k'.words == map[first.junk.putTid := 2]
  {
    hide Partition, Tids, Forest, Mail, Ledger, NullTask, Ranked, Within, Boot, Receive, Enabled, Legal, Run;
    TwoWaiting(n, first, second);
    NothingArrives(Run(Boot(n), TwoReports(first, second)), put, buf, len, junk);
  }
}
