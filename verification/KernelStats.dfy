/** The order in which TasksStatsHandler visits the scheduler's lists, and whom it meets. */
module KernelStats {
  import opened Lists
  import opened KernelModel
  import opened KernelInvariant
  import opened KernelSteps

  /** The m-th list visited: all states of the most urgent priority first. */
  function Visited(m: nat): (q: nat)
    requires m < FREE_LIST
    ensures q < FREE_LIST
  {
    (m % NUM_STATES) * NUM_PRIORITIES + m / NUM_STATES
  }

  /** When the list of a state and priority is visited. */
  function Turn(st: TaskState, priority: nat): (m: nat)
    requires Code(st) >= 0 && priority < NUM_PRIORITIES
    ensures m < FREE_LIST && Visited(m) == ListOf(st, priority)
  {
    priority * NUM_STATES + Code(st)
  }

  lemma VisitedAt(priority: nat, state: nat)
    requires priority < NUM_PRIORITIES && state < NUM_STATES
    ensures Visited(priority * NUM_STATES + state) == state * NUM_PRIORITIES + priority
  {
  }

  /** Everything in the first m lists visited. */
  function Rows(lists: seq<seq<nat>>, m: nat): seq<nat>
    requires m <= FREE_LIST < |lists|
  {
    if m == 0 then [] else Rows(lists, m - 1) + lists[Visited(m - 1)]
  }

  lemma {:induction false} RowsGrow(lists: seq<seq<nat>>, m: nat, n: nat)
    requires m <= n <= FREE_LIST < |lists|
    ensures Rows(lists, m) <= Rows(lists, n)
    decreases n - m
  {
    if m < n { RowsGrow(lists, m, n - 1); }
  }

  /** The scheduler with the current task queued under its own state, as during the snapshot. */
  function WithCurrent(k: Kernel): (lists: seq<seq<nat>>)
    requires WF(k) && k.current != NONE && Listed(k.tasks[k.current])
    ensures |lists| == FREE_LIST + 1
  {
    Enlist(k.lists, ListOf(k.tasks[k.current].state, k.tasks[k.current].priority), k.current)
  }

  lemma InVisited(k: Kernel, m: nat, i: nat)
    requires WF(k) && Partition(k) && k.current != NONE && Listed(k.tasks[k.current]) && m < FREE_LIST
    ensures NoDup(WithCurrent(k)[Visited(m)])
    ensures i in WithCurrent(k)[Visited(m)] <==>
            i < |k.tasks| && Listed(k.tasks[i]) && Turn(k.tasks[i].state, k.tasks[i].priority) == m
  {
    var q := Visited(m);
    assert i in WithCurrent(k)[q] <==>
           i in k.lists[q] || (i == k.current && q == ListOf(k.tasks[i].state, k.tasks[i].priority));
    assert k.current !in k.lists[q];
    if i < |k.tasks| && Listed(k.tasks[i]) {
      assert Visited(Turn(k.tasks[i].state, k.tasks[i].priority)) == ListOf(k.tasks[i].state, k.tasks[i].priority);
    }
  }

  /** The first m lists hold exactly the listed tasks whose turn came, once each. */
  lemma {:induction false} RowsExact(k: Kernel, m: nat)
    requires WF(k) && Partition(k) && k.current != NONE && Listed(k.tasks[k.current]) && m <= FREE_LIST
    ensures NoDup(Rows(WithCurrent(k), m))
    ensures forall i: nat :: i in Rows(WithCurrent(k), m) <==>
              i < |k.tasks| && Listed(k.tasks[i]) && Turn(k.tasks[i].state, k.tasks[i].priority) < m
  {
    hide Partition, WithCurrent, Visited, Turn;
    if m > 0 {
      RowsExact(k, m - 1);
      var before, list := Rows(WithCurrent(k), m - 1), WithCurrent(k)[Visited(m - 1)];
      forall i: nat
        ensures i in list <==>
                i < |k.tasks| && Listed(k.tasks[i]) && Turn(k.tasks[i].state, k.tasks[i].priority) == m - 1
      {
        InVisited(k, m - 1, i);
      }
      InVisited(k, m - 1, 0);
      NoDupConcat(before, list);
    }
  }

  /** n distinct descriptors are at most as many as there are. */
  lemma {:induction false} AtMost(s: seq<nat>, n: nat)
    requires NoDup(s) && forall x :: x in s ==> x < n
    ensures |s| <= n
  {
    if n == 0 {
      FirstIn(s);
    } else if n - 1 in s {
      var j :| 0 <= j < |s| && s[j] == n - 1;
      MinusAt(s, j);
      AtMost(Minus(s, {n - 1}), n - 1);
    } else {
      AtMost(s, n - 1);
    }
  }

  /** The snapshot lists every descriptor that is neither free nor retired, the current task and
      zombies included, exactly once, and never more than there are descriptors. */
  lemma SnapshotExact(k: Kernel)
    requires WF(k) && Partition(k) && k.current != NONE && Listed(k.tasks[k.current])
    ensures var order := Rows(WithCurrent(k), FREE_LIST);
            && NoDup(order) && |order| <= |k.tasks|
            && (forall i: nat :: i in order <==> i < |k.tasks| && Listed(k.tasks[i]))
  {
    RowsExact(k, FREE_LIST);
    AtMost(Rows(WithCurrent(k), FREE_LIST), |k.tasks|);
  }

  /** There is room in the table for the next list. */
  lemma RoomForNext(k: Kernel, m: nat)
    requires WF(k) && Partition(k) && k.current != NONE && Listed(k.tasks[k.current]) && m < FREE_LIST
    ensures Rows(WithCurrent(k), m + 1) == Rows(WithCurrent(k), m) + WithCurrent(k)[Visited(m)]
    ensures |Rows(WithCurrent(k), m + 1)| <= |k.tasks|
  {
    SnapshotExact(k);
    hide Partition, WithCurrent, Visited;
    RowsGrow(WithCurrent(k), m + 1, FREE_LIST);
  }
}
