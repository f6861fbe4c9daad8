/** Whom an interrupt wakes. */
module KernelInterrupts {
  import opened Lists
  import opened KernelModel
  import opened KernelInvariant
  import opened KernelSteps
  import opened KernelRuns
  import opened KernelScheduling

  ghost predicate Awaits(k: Kernel, intr: int, i: nat) {
    i < |k.tasks| && i != k.current && k.tasks[i].state == EventBlocked && k.tasks[i].event == intr
  }

  /** The waiter is in the list for its priority, and every other waiter of the event is less urgent or
      further back in the same list. */
  ghost predicate NextWaiter(k: Kernel, intr: int, i: nat)
    requires WF(k)
  {
    && Awaits(k, intr, i) && i in k.lists[ListOf(EventBlocked, k.tasks[i].priority)]
    && forall j: nat {:trigger Awaits(k, intr, j)} :: Awaits(k, intr, j) && j != i ==> Behind(k, i, j)
  }

  ghost predicate Behind(k: Kernel, i: nat, j: nat)
    requires WF(k) && i < |k.tasks| && j < |k.tasks|
    requires i in k.lists[ListOf(EventBlocked, k.tasks[i].priority)]
  {
    var line := k.lists[ListOf(EventBlocked, k.tasks[i].priority)];
    if k.tasks[i].priority == k.tasks[j].priority then j in line && Position(line, i) < Position(line, j)
    else k.tasks[i].priority < k.tasks[j].priority
  }

  /** Task i ready with the code that tells it to collect its data, at the end of its ready list. */
  function WokenUp(k: Kernel, i: nat): Kernel
    requires WF(k) && i < |k.tasks|
  {
    var t := k.tasks[i];
    k.(tasks := k.tasks[i := t.(state := Ready, ret := ERR_COLLECT_DATA)],
       lists := Enlist(Delist(k.lists, ListOf(EventBlocked, t.priority), i), ListOf(Ready, t.priority), i))
  }

  lemma {:induction false} FirstIsFirst(tasks: seq<Task>, list: seq<nat>, intr: int)
    requires forall x :: x in list ==> x < |tasks|
    ensures var i := FirstAwaiting(tasks, list, intr);
            if i == NONE then forall x :: x in list ==> tasks[x].event != intr
            else i in list && forall x :: x in list && x != i && tasks[x].event == intr ==>
                Position(list, i) < Position(list, x)
  {
    if list != [] {
      assert list[0] in list && forall x :: x in list[1..] ==> x in list;
      assert list == [list[0]] + list[1..];
      FirstIsFirst(tasks, list[1..], intr);
    }
  }

  lemma WakingOne(k: Kernel, i: nat)
    requires Shape(k) && i < |k.tasks| && i != k.current && k.tasks[i].state == EventBlocked
    ensures SetRet(SetState(k, k.tasks[i].tid, Ready), k.tasks[i].tid, ERR_COLLECT_DATA) == WokenUp(k, i)
  {
    hide Partition, Forest, ActiveIsCurrent, Ranked, Within, Delist, Enlist;
    if k.current != NONE { OtherTid(k, k.current, i); }
    OwnSlot(k, i);
  }

  /** Among the priorities from `priority` on. */
  lemma UnblockChooses(k: Kernel, intr: int, priority: nat) returns (i: int)
    requires Shape(k) && priority <= NUM_PRIORITIES
    requires forall j: nat :: Awaits(k, intr, j) ==> k.tasks[j].priority >= priority
    ensures i == NONE ==> UnblockFrom(k, intr, priority) == k && forall j: nat :: !Awaits(k, intr, j)
    ensures i != NONE ==> i >= 0 && Awaits(k, intr, i) && NextWaiter(k, intr, i)
    ensures i != NONE ==> UnblockFrom(k, intr, priority) == WokenUp(k, i)
    decreases NUM_PRIORITIES - priority
  {
    hide Tids, Forest, ActiveIsCurrent, Ranked, SetState, SetRet, WokenUp;
    i := NONE;
    if priority < NUM_PRIORITIES {
      var q := ListOf(EventBlocked, priority);
      var line := k.lists[q];
      FirstIsFirst(k.tasks, line, intr);
      forall j: nat | j < |k.tasks| ensures j in line <==> Home(k, j) == q {}
      i := FirstAwaiting(k.tasks, line, intr);
      if i == NONE {
        i := UnblockChooses(k, intr, priority + 1);
      } else {
        HomeOf(k, i, q);
        WakingOne(k, i);
      }
    }
  }

  /** An interrupt that nobody awaits changes nothing. Otherwise exactly one task changes: the first in
      line among the most urgent of those that await it becomes ready, with the code that tells it to
      collect its data. */
  lemma UnblockExact(k: Kernel, intr: int)
    requires Shape(k)
    ensures (forall i: nat :: !Awaits(k, intr, i)) ==> UnblockFrom(k, intr, HIGHEST_PRIORITY) == k
    ensures (exists i: nat :: Awaits(k, intr, i)) ==>
              exists i: nat :: NextWaiter(k, intr, i) && UnblockFrom(k, intr, HIGHEST_PRIORITY) == WokenUp(k, i)
  {
    hide Partition, Tids, Forest, ActiveIsCurrent, UnblockFrom, NextWaiter, WokenUp;
    var i := UnblockChooses(k, intr, HIGHEST_PRIORITY);
  }

  /** The handler of an interrupt: a line that nobody awaits, or none at all, changes nothing. Otherwise the
      next waiter of the line's event is woken, and nothing else happens. */
  lemma InterruptExact(k: Kernel, code: int)
    requires Running(k) && CanCreate(k)
    ensures code >= 0 ==> Handle(k, Interrupt(code)) == k
    ensures code < 0 && (forall i: nat :: !Awaits(k, EventId(code), i)) ==> Handle(k, Interrupt(code)) == k
    ensures code < 0 && (exists i: nat :: Awaits(k, EventId(code), i)) ==>
              exists i: nat :: NextWaiter(k, EventId(code), i) && Handle(k, Interrupt(code)) == WokenUp(k, i)
  {
    hide Partition, Tids, Forest, Mail, Ledger, NullTask, ActiveIsCurrent, UnblockFrom, NextWaiter, WokenUp, EventId,
      Ranked, Within, CanCreate;
    if code < 0 { UnblockExact(k, EventId(code)); }
  }

  /** There is only one next waiter. */
  lemma OneNextWaiter(k: Kernel, intr: int, i: nat, j: nat)
    requires WF(k) && NextWaiter(k, intr, i) && NextWaiter(k, intr, j)
    ensures i == j
  {
    hide Ranked, Within;
  }

  lemma {:induction false} Pow2Grows(a: nat, b: nat)
    requires a < b
    ensures Pow2(a) < Pow2(b)
  {
    if a + 1 < b { Pow2Grows(a, b - 1); }
  }

  /** Each of the 31 lines that are not ignored has its bit for an event: 2 for the first, twice as much for each
      next one, and the sign for the last; so no two lines share one. */
  lemma OwnEvents(a: int, b: int)
    requires 0 < a < 32 && 0 < b < 32
    ensures EventId(-1) == 2 && EventId(-31) == -0x8000_0000
    ensures a < 30 ==> EventId(-(a + 1)) == 2 * EventId(-a)
    ensures EventId(-a) == EventId(-b) <==> a == b
  {
    assert Pow2(8) == 0x100 && Pow2(16) == 0x1_0000 && Pow2(24) == 0x100_0000 && Pow2(31) == 0x8000_0000;
    InWord(1);
    InWord(31);
    InWord(a);
    InWord(b);
    if a < 30 { InWord(a + 1); }
    if a < b { Pow2Grows(a, b); }
    if b < a { Pow2Grows(b, a); }
  }

  lemma InWord(a: int)
    requires 0 < a < 32 && Pow2(31) == 0x8000_0000
    ensures EventId(-a) == if a == 31 then -0x8000_0000 else Pow2(a)
    ensures a < 31 ==> 0 < Pow2(a) < 0x8000_0000
  {
    if a < 31 { Pow2Grows(a, 31); }
  }
}
