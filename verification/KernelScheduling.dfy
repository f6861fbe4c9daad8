/** Who runs next, and how long a ready task can be passed over. */
module KernelScheduling {
  import opened Lists
  import opened KernelModel
  import opened KernelInvariant
  import opened KernelSteps
  import opened KernelDestroy
  import opened KernelRuns

  /** How many elements come before x. */
  function Position(s: seq<nat>, x: nat): (n: nat)
    requires x in s
    ensures n < |s| && s[n] == x
  {
    if s[0] == x then 0 else 1 + Position(s[1..], x)
  }

  lemma {:induction false} PositionInLonger(s: seq<nat>, t: seq<nat>, x: nat)
    requires x in s && s <= t
    ensures Position(t, x) == Position(s, x)
  {
    if s[0] != x { PositionInLonger(s[1..], t[1..], x); }
  }

  lemma {:induction false} PositionUnique(s: seq<nat>, x: nat, n: nat)
    requires NoDup(s) && n < |s| && s[n] == x
    ensures Position(s, x) == n
  {
    if s[0] != x { PositionUnique(s[1..], x, n - 1); }
  }

  lemma {:induction false} PositionAfterRemoval(s: seq<nat>, out: set<nat>, x: nat)
    requires x in s && x !in out && NoDup(s)
    ensures x in Minus(s, out) && Position(Minus(s, out), x) <= Position(s, x)
  {
    var front, last := s[..|s| - 1], s[|s| - 1];
    assert s == front + [last];
    if x == last {
      assert Minus(s, out) == Minus(front, out) + [x];
      PositionUnique(s, x, |front|);
      PositionUnique(Minus(s, out), x, |Minus(front, out)|);
    } else {
      assert x in front;
      PositionAfterRemoval(front, out, x);
      PositionInLonger(front, s, x);
      PositionInLonger(Minus(front, out), Minus(s, out), x);
    }
  }

  /** A waiting task's place in the ready list of its priority. */
  ghost predicate Waiting(k: Kernel, j: nat) {
    WF(k) && j < |k.tasks| && k.tasks[j].state == Ready && j in k.lists[ListOf(Ready, k.tasks[j].priority)]
  }

  function Place(k: Kernel, j: nat): nat
    requires WF(k) && j < |k.tasks| && j in k.lists[ListOf(Ready, k.tasks[j].priority)]
  {
    Position(k.lists[ListOf(Ready, k.tasks[j].priority)], j)
  }

  lemma ReadyWaits(k: Kernel, j: nat)
    requires WF(k) && Partition(k) && j < |k.tasks| && j != k.current && k.tasks[j].state == Ready
    ensures Waiting(k, j) && NoDup(k.lists[ListOf(Ready, k.tasks[j].priority)])
  {
    assert Home(k, j) == ListOf(Ready, k.tasks[j].priority);
  }

  /** The task that is made current was at the head of its ready list, no ready task is more urgent,
      and it does not run before a more urgent or older one. */
  lemma MostUrgentOldestRuns(k: Kernel)
    requires Core(k) && NullTask(k)
    ensures var c := Schedule(k).current;
            && 0 <= c < |k.tasks|
            && Waiting(Requeue(k).(current := NONE), c)
            && Place(Requeue(k).(current := NONE), c) == 0
            && Schedule(k).tasks[c].state == Active && Schedule(k).tasks[c].priority == Requeue(k).tasks[c].priority
            && (forall j :: 0 <= j < |k.tasks| && Schedule(k).tasks[j].state == Ready ==>
                  && Schedule(k).tasks[c].priority <= Schedule(k).tasks[j].priority
                  && Waiting(Requeue(k).(current := NONE), j)
                  && (Schedule(k).tasks[j].priority == Schedule(k).tasks[c].priority ==>
                        Place(Requeue(k).(current := NONE), c) < Place(Requeue(k).(current := NONE), j)))
  {
    NullIsReady(k);
    RequeueKeeps(k);
    hide Slot, Ranked, Within, Partition, Tids, Forest, Mail, Ledger, NullTask, ReadyGrows;
    var k1 := Requeue(k).(current := NONE);
    hide Requeue;
    var k' := Schedule(k);
    var p := ReadyPriority(k1.lists, HIGHEST_PRIORITY);
    ReadyHome(k1, p);
    FirstIn(k1.lists[ListOf(Ready, p)]);
    forall j | 0 <= j < |k.tasks| && k'.tasks[j].state == Ready
      ensures p <= k'.tasks[j].priority && Waiting(k1, j) && (k'.tasks[j].priority == p ==> 0 < Place(k1, j))
    {
      ReadyWaits(k1, j);
    }
  }

  /** Handlers never push a waiting task back in its list: arrivals join at the end, and a Destroy
      can only take out tasks in front of it. */
  lemma HandlerKeepsPlace(k: Kernel, call: Call, j: nat)
    requires Running(k) && Enabled(k, call) && !call.Store? && CanCreate(k)
    requires j < |k.tasks| && k.tasks[j].state == Ready && Handle(k, call).tasks[j].state == Ready
    ensures var k' := Handle(k, call);
            && Waiting(k, j) && Waiting(k', j) && k'.tasks[j] == k.tasks[j] && Place(k', j) <= Place(k, j)
  {
    hide Slot, Ranked, Within, Partition, Tids, Forest, MailBut, Ledger, CanCreate, Enabled, NullTask, Descends;
    hide Handle, ReadyGrows;
    ReadyWaits(k, j);
    if call.DestroyCall? {
      DestroyKeepsPlace(k, call, j);
    } else {
      HandleSpares(k, call);
      GrownPlace(k, Handle(k, call), j);
    }
  }

  lemma GrownPlace(k: Kernel, k': Kernel, j: nat)
    requires WF(k') && Waiting(k, j) && ReadyGrows(k, k') && |k'.tasks| == |k.tasks| && k'.tasks[j] == k.tasks[j]
    ensures Waiting(k', j) && Place(k', j) == Place(k, j)
  {
    hide Ranked, Within;
    var q := ListOf(Ready, k.tasks[j].priority);
    assert k.lists[q] <= k'.lists[q];
    PositionInLonger(k.lists[q], k'.lists[q], j);
  }

  lemma DestroyKeepsPlace(k: Kernel, call: Call, j: nat)
    requires Running(k) && Enabled(k, call) && call.DestroyCall? && CanCreate(k) && Waiting(k, j)
    requires NoDup(k.lists[ListOf(Ready, k.tasks[j].priority)])
    requires j < |k.tasks| && Handle(k, call).tasks[j].state == Ready
    ensures var k' := Handle(k, call);
            Waiting(k', j) && k'.tasks[j] == k.tasks[j] && Place(k', j) <= Place(k, j)
  {
    hide Slot, Ranked, Within, Partition, Tids, Forest, MailBut, Ledger, CanCreate, NullTask, Descends, NoDup,
      ReadyGrows, Destroy, SubtreeQuiet, Buried, Position, DeathRow;
    var d := Destroy(k, call.tid).0;
    if Accepted(k, call.tid) {
      DestroyEffect(k, call.tid);
      DestroyLists(k, call.tid);
      var q := ListOf(Ready, k.tasks[j].priority);
      PositionAfterRemoval(k.lists[q], ToSet(DeathRow(k, call.tid)), j);
    } else {
      RejectedDestroy(k, call.tid);
    }
  }

  /** One scheduling decision: a task that is passed over by one of its own priority moves up by one. */
  lemma ScheduleMovesUp(k: Kernel, j: nat)
    requires Core(k) && NullTask(k) && Waiting(k, j) && Schedule(k).tasks[j].state == Ready
    requires Schedule(k).current != NONE && k.current != j
    ensures var k' := Schedule(k);
            && Waiting(k', j) && k'.tasks[j] == k.tasks[j]
            && Place(k', j) == Place(k, j) - if k'.tasks[k'.current].priority == k.tasks[j].priority then 1 else 0
  {
    hide Requeue, Slot, Ranked, Within, Partition, Tids, Forest, Mail, Ledger, NullTask, ReadyGrows;
    RequeueKeeps(k);
    var k1 := Requeue(k).(current := NONE);
    GrownPlace(k, k1, j);
    var k' := Schedule(k);
    var p := ReadyPriority(k1.lists, HIGHEST_PRIORITY);
    ReadyHome(k1, p);
    var q := ListOf(Ready, p);
    if p == k.tasks[j].priority {
      assert k1.lists[q][0] != j;
      assert k1.lists[q] == [k1.lists[q][0]] + k1.lists[q][1..];
    }
  }

  /** How many of the steps made a task of priority p current. */
  ghost function Activations(k: Kernel, calls: seq<Call>, p: nat): nat
    requires Running(k) && Legal(k, calls)
    decreases |calls|
  {
    if calls == [] then 0
    else
      StepKeeps(k, calls[0]);
      var k' := Step(k, calls[0]);
      (if !calls[0].Store? && k'.tasks[k'.current].priority == p then 1 else 0) + Activations(k', calls[1..], p)
  }

  /** Task j is ready, and not chosen, in every state of the run. */
  ghost predicate PassedOver(k: Kernel, calls: seq<Call>, j: nat)
    requires Running(k) && Legal(k, calls)
    decreases |calls|
  {
    j < |k.tasks| && k.tasks[j].state == Ready &&
    (calls == [] || (StepKeeps(k, calls[0]); PassedOver(Step(k, calls[0]), calls[1..], j)))
  }

  lemma StepMovesUp(k: Kernel, call: Call, j: nat)
    requires Running(k) && Enabled(k, call) && CanCreate(k) && Running(Step(k, call))
    requires j < |k.tasks| && k.tasks[j].state == Ready && Step(k, call).tasks[j].state == Ready
    ensures var k' := Step(k, call);
            && Waiting(k, j) && Waiting(k', j) && k'.tasks[j].priority == k.tasks[j].priority
            && var closer := !call.Store? && k'.tasks[k'.current].priority == k.tasks[j].priority;
               Place(k', j) + (if closer then 1 else 0) <= Place(k, j)
  {
    hide Slot, Ranked, Within, Partition, Tids, Forest, MailBut, Ledger, CanCreate, NullTask, Descends, Enabled;
    ReadyWaits(k, j);
    if !call.Store? {
      var h := Handle(k, call);
      HandleKeeps(k, call);
      NullStays(k, call);
      StillReady(k, call, j);
      HandlerKeepsPlace(k, call, j);
      hide Handle;
      ScheduleMovesUp(h, j);
    }
  }

  /** Whoever is ready after the scheduling decision without having run before it was ready for it. */
  lemma StillReady(k: Kernel, call: Call, j: nat)
    requires Running(k) && Enabled(k, call) && CanCreate(k) && !call.Store?
    requires Core(Handle(k, call)) && NullTask(Handle(k, call))
    requires j < |k.tasks| && k.tasks[j].state == Ready && Schedule(Handle(k, call)).tasks[j].state == Ready
    ensures Handle(k, call).tasks[j].state == Ready && Handle(k, call).current == k.current
  {
    hide Slot, Ranked, Within, Partition, Tids, Forest, MailBut, Ledger, CanCreate, NullTask, Descends, ReadyGrows;
    hide Handle;
    if call.DestroyCall? {
      StillReadyAfterDestroy(k, call, j);
    } else {
      HandleSpares(k, call);
    }
  }

  lemma ScheduleWakesNobody(k: Kernel, j: nat)
    requires WF(k) && j < |k.tasks| && Schedule(k).tasks[j].state == Ready
    ensures k.tasks[j].state == Ready || (j == k.current && k.tasks[j].state == Active)
  {
    hide Ranked, Within, Slot;
  }

  lemma StillReadyAfterDestroy(k: Kernel, call: Call, j: nat)
    requires Running(k) && Enabled(k, call) && CanCreate(k) && call.DestroyCall?
    requires j < |k.tasks| && k.tasks[j].state == Ready && Schedule(Handle(k, call)).tasks[j].state == Ready
    ensures Handle(k, call).tasks[j].state == Ready && Handle(k, call).current == k.current
  {
    hide Slot, Ranked, Within, Partition, Tids, Forest, MailBut, Ledger, CanCreate, NullTask, Descends, ReadyGrows,
      Destroy, Schedule, SubtreeQuiet, Buried, Cut;
    ScheduleWakesNobody(Handle(k, call), j);
    if Accepted(k, call.tid) {
      DestroyEffect(k, call.tid);
      CutIsFinal(k, Slot(|k.tasks|, call.tid), Destroy(k, call.tid).0, j);
    } else {
      RejectedDestroy(k, call.tid);
    }
  }

  lemma CutIsFinal(k: Kernel, i: nat, k': Kernel, j: nat)
    requires Cut(k, i, k') && j < |k.tasks|
    ensures k'.tasks[j].state == Free || k'.tasks[j].state == Destroyed || k'.tasks[j] == k.tasks[j]
    ensures k'.current == k.current
  {
    hide Slot, Ranked, Within, Forest, Descends;
  }

  /** Bounded overtaking: while a ready task is passed over, every activation of its own priority
      brings it one place nearer to the head, so there are at most as many as its first place. */
  lemma {:induction false} BoundedOvertaking(k: Kernel, calls: seq<Call>, j: nat)
    requires Running(k) && Legal(k, calls) && PassedOver(k, calls, j)
    ensures Waiting(k, j) && Waiting(Run(k, calls), j)
    ensures Activations(k, calls, k.tasks[j].priority) + Place(Run(k, calls), j) <= Place(k, j)
    decreases |calls|
  {
    hide Slot, Ranked, Within, Partition, Tids, Forest, Mail, Ledger, NullTask, Enabled, CanCreate, Step;
    if calls == [] {
      ReadyWaits(k, j);
    } else {
      StepKeeps(k, calls[0]);
      StepMovesUp(k, calls[0], j);
      BoundedOvertaking(Step(k, calls[0]), calls[1..], j);
    }
  }

  // ------------------------------------------------------------------ Reply

  /** An answered sender is ready, and the replier goes on as it was. */
  lemma ReplyWakes(k: Kernel, tid: int, buf: int, len: nat)
    requires Running(k) && IsTaskAlive(k, tid) && GetTaskState(k, tid) == ReplyBlocked
    ensures var i, k' := Slot(|k.tasks|, tid), Answer(Reply(k, tid, buf, len));
            && i != k.current && k'.current == k.current
            && k'.tasks[i].state == Ready && k'.tasks[i].priority == k.tasks[i].priority
            && k'.tasks[k.current].state == Active && k'.tasks[k.current].priority == k.tasks[k.current].priority
  {
    hide Partition, Forest, Ledger, NullTask, Ranked, Within, CopyBytes, QueueOk;
    assert RecordOk(k, Slot(|k.tasks|, tid));
    hide MailBut, RecordOk, Slot;
  }

  /** The task put back last is behind everybody who was ready at its priority. */
  lemma PutBackLast(k: Kernel, i: nat)
    requires Core(k) && k.current != NONE && k.tasks[k.current].state == Active
    requires Waiting(k, i) && k.tasks[i].priority == k.tasks[k.current].priority
    ensures var k1 := Requeue(k).(current := NONE);
            Waiting(k1, i) && Waiting(k1, k.current) && Place(k1, i) < Place(k1, k.current)
  {
    hide Slot, Ranked, Within, Tids, Forest, Mail, Ledger;
    var q, r := ListOf(Ready, k.tasks[i].priority), k.current;
    var k1 := Requeue(k).(current := NONE);
    assert r !in k.lists[q] by { assert Home(k, r) == NONE; }
    NoDupList(k, q);
    hide Partition;
    assert k1.lists[q] == k.lists[q] + [r];
    PositionUnique(k1.lists[q], r, |k.lists[q]|);
    PositionInLonger(k.lists[q], k1.lists[q], i);
  }

  /** Taking the head of one list leaves the others in the same order. */
  lemma PickKeepsOrder(k1: Kernel, c: nat, i: nat, j: nat, k': Kernel)
    requires Waiting(k1, i) && Waiting(k1, j) && k1.tasks[i].priority == k1.tasks[j].priority
    requires Place(k1, i) < Place(k1, j) && i != c && j != c && i != j && c < |k1.tasks|
    requires var q := ListOf(Ready, k1.tasks[c].priority);
             && k1.lists[q] != [] && k1.lists[q][0] == c && WF(k')
             && k' == k1.(lists := k1.lists[q := k1.lists[q][1..]], current := c,
                          tasks := k1.tasks[c := k1.tasks[c].(state := Active)])
    ensures Waiting(k', i) && Waiting(k', j) && Place(k', i) < Place(k', j)
  {
    hide Ranked, Within, Position;
    var q := ListOf(Ready, k1.tasks[i].priority);
    if k1.lists[q][0] == c {
      assert k1.lists[q] == [c] + k1.lists[q][1..];
      AfterHead(k1.lists[q], i);
      AfterHead(k1.lists[q], j);
    }
  }

  lemma AfterHead(s: seq<nat>, x: nat)
    requires x in s && s[0] != x
    ensures x in s[1..] && Position(s, x) == 1 + Position(s[1..], x)
  {
  }

  lemma HeadIsPicked(k: Kernel)
    requires Core(k) && NullTask(k)
    ensures var k1, k' := Requeue(k).(current := NONE), Schedule(k);
            var c := k'.current;
            && 0 <= c < |k1.tasks|
            && var q := ListOf(Ready, k1.tasks[c].priority);
               && k1.lists[q] != [] && k1.lists[q][0] == c
               && k' == k1.(lists := k1.lists[q := k1.lists[q][1..]], current := c,
                            tasks := k1.tasks[c := k1.tasks[c].(state := Active)])
  {
    hide Slot, Ranked, Within, Partition, Tids, Forest, Mail, Ledger, NullTask, Requeue, ReadyGrows;
    NullIsReady(k);
    RequeueKeeps(k);
    ReadyHome(Requeue(k).(current := NONE), ReadyPriority(Requeue(k).lists, HIGHEST_PRIORITY));
  }

  /** The replier goes on at once only if it is more urgent than the task it answered, which otherwise runs,
      or waits, before it; at equal priority it is the sender that comes first. */
  lemma ReplyOrder(k: Kernel, tid: int, buf: int, len: nat)
    requires Running(k) && IsTaskAlive(k, tid) && GetTaskState(k, tid) == ReplyBlocked && k.current != 0
    ensures CanCreate(k)
    ensures var r, i := k.current, Slot(|k.tasks|, tid);
            var k', mine, theirs := Step(k, ReplyCall(tid, buf, len)), k.tasks[r].priority, k.tasks[i].priority;
            && (k'.current == r ==> mine < theirs)
            && (k'.current == i ==> theirs <= mine)
            && (k'.current != r ==> Waiting(k', r) && k'.tasks[r].priority == mine)
            && (k'.current != i ==> Waiting(k', i) && k'.tasks[i].priority == theirs)
            && (mine == theirs && k'.current != i ==> k'.current != r && Place(k', i) < Place(k', r))
  {
    hide Slot, Ranked, Within, Partition, Tids, Forest, Mail, Ledger, CanCreate, NullTask, Reply, Answer, Schedule;
    var call := ReplyCall(tid, buf, len);
    StepKeeps(k, call);
    HandleKeeps(k, call);
    NullStays(k, call);
    ReplyWakes(k, tid, buf, len);
    InOrder(Handle(k, call), Slot(|k.tasks|, tid));
  }

  /** A task that is put back against one that is ready already. */
  lemma InOrder(k: Kernel, i: nat)
    requires Core(k) && NullTask(k) && k.current != NONE && k.tasks[k.current].state == Active
    requires i < |k.tasks| && i != k.current && k.tasks[i].state == Ready
    ensures var r, k', mine, theirs := k.current, Schedule(k), k.tasks[k.current].priority, k.tasks[i].priority;
            && (k'.current == r ==> mine < theirs)
            && (k'.current == i ==> theirs <= mine)
            && (k'.current != r ==> Waiting(k', r) && k'.tasks[r].priority == mine)
            && (k'.current != i ==> Waiting(k', i) && k'.tasks[i].priority == theirs)
            && (mine == theirs && k'.current != i ==> k'.current != r && Place(k', i) < Place(k', r))
  {
    hide Slot, Ranked, Within, Partition, Tids, Forest, Mail, Ledger, NullTask, Requeue, ReadyPriority, ReadyGrows;
    var r, k', k1 := k.current, Schedule(k), Requeue(k).(current := NONE);
    MostUrgentOldestRuns(k);
    ScheduleKeeps(k);
    RequeueStates(k);
    ReadyWaits(k, i);
    if k.tasks[i].priority == k.tasks[r].priority { PutBackLast(k, i); }
    if k'.current != r { ReadyWaits(k', r); }
    if k'.current != i { ReadyWaits(k', i); }
    if k.tasks[i].priority == k.tasks[r].priority && k'.current != i {
      HeadIsPicked(k);
      PickKeepsOrder(k1, k'.current, i, r, k');
    }
  }

  lemma RequeueStates(k: Kernel)
    requires WF(k) && k.current != NONE && k.tasks[k.current].state == Active
    ensures Requeue(k).tasks == k.tasks[k.current := k.tasks[k.current].(state := Ready)]
  {
    hide Ranked, Within;
  }
}
