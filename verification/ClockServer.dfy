/** The request loop of usr/clockserver.c over the sorted list of lib/sortedlist.c. */
module ClockServers {
  import opened ClockModel

  const NULL := -1
  const INT_MIN := -0x8000_0000
  const INT_MAX := 0x7fff_ffff

  /** `next` is the index of a node, or NULL. */
  datatype Node = Node(next: int, priority: int, tid: int)

  /** The first node of what is left of the list from position k on. */
  function From(q: seq<Entry>, k: nat): int
    requires k <= |q|
  {
    if k < |q| then q[k].tid else NULL
  }

  /** The node of entry k carries it and points to the next one. */
  predicate Linked(nodes: seq<Node>, q: seq<Entry>, k: nat)
    requires k < |q|
  {
    q[k].tid < |nodes| && nodes[q[k].tid] == Node(From(q, k + 1), q[k].deadline, q[k].tid)
  }

  /** head and the next links thread exactly the nodes of q, in order. */
  ghost predicate Chained(nodes: seq<Node>, head: int, q: seq<Entry>) {
    && head == From(q, 0)
    && (forall k :: 0 <= k < |q| ==> Linked(nodes, q, k))
    && (forall j, k :: 0 <= j < k < |q| ==> q[j].tid != q[k].tid)
  }

  /** Splicing a node in at position k, behind the node before it or at the head. */
  lemma Spliced(nodes: seq<Node>, head: int, q: seq<Entry>, k: nat, e: Entry)
    requires Chained(nodes, head, q) && k <= |q| && e.tid < |nodes|
    requires k > 0 ==> Linked(nodes, q, k - 1)
    requires forall j :: 0 <= j < |q| ==> q[j].tid != e.tid
    ensures var linked := nodes[e.tid := Node(From(q, k), e.deadline, e.tid)];
            var r := q[..k] + [e] + q[k..];
            if k == 0 then Chained(linked, e.tid, r)
            else Chained(linked[q[k - 1].tid := linked[q[k - 1].tid].(next := e.tid)], head, r)
  {
    var r := q[..k] + [e] + q[k..];
    assert forall j :: 0 <= j < k ==> r[j] == q[j];
    assert forall j :: k < j < |r| ==> r[j] == q[j - 1];
    var linked := nodes[e.tid := Node(From(q, k), e.deadline, e.tid)];
    var all := if k == 0 then linked else linked[q[k - 1].tid := linked[q[k - 1].tid].(next := e.tid)];
    forall j | 0 <= j < |r| ensures Linked(all, r, j) {
      if j > k {
        assert Linked(nodes, q, j - 1);
      } else if j < k {
        assert Linked(nodes, q, j);
      }
    }
  }

  lemma Elsewhere(nodes: seq<Node>, head: int, q: seq<Entry>, n: nat, node: Node)
    requires Chained(nodes, head, q) && n < |nodes|
    requires forall j :: 0 <= j < |q| ==> q[j].tid != n
    ensures Chained(nodes[n := node], head, q)
  {
    var all := nodes[n := node];
    forall k | 0 <= k < |q| ensures Linked(all, q, k) {
      assert Linked(nodes, q, k);
    }
  }

  lemma Tail(nodes: seq<Node>, head: int, q: seq<Entry>)
    requires Chained(nodes, head, q) && q != []
    ensures Linked(nodes, q, 0) && Chained(nodes, nodes[head].next, q[1..])
  {
    assert Linked(nodes, q, 0);
    forall k | 0 <= k < |q| - 1 ensures Linked(nodes, q[1..], k) {
      assert Linked(nodes, q, k + 1);
    }
  }

  class ClockServer {
    const nodes: array<Node>
    var delayedQueue: int
    var numTicks: int
    // the delays in the queue, in order, and what was asked and answered
    ghost var contents: seq<Entry>
    ghost var asked: seq<Entry>
    ghost var woken: seq<Woken>
    ghost var answers: seq<Answer>

    ghost predicate Valid()
      reads this, nodes
    {
      Chained(nodes[..], delayedQueue, contents)
    }

    ghost function Abs(): Clock
      reads this
    {
      Clock(numTicks, contents, asked, woken, answers)
    }

    constructor (maxTasks: nat)
      ensures Valid() && Abs() == INIT && nodes.Length == maxTasks && fresh(nodes)
    {
      nodes := new Node[maxTasks](_ => Node(NULL, 0, 0));
      delayedQueue, numTicks := NULL, 0;
      contents, asked, woken, answers := [], [], [], [];
    }

    /** `at` stands for the address of a link: the link of node `at`, or the head when it is NULL. */
    method SortedListInsert(node: int, ghost e: Entry)
      requires Valid() && 0 <= node < nodes.Length
      requires node == e.tid && nodes[node].tid == node && nodes[node].priority == e.deadline
      requires forall j :: 0 <= j < |contents| ==> contents[j].tid != e.tid
      modifies this`delayedQueue, this`contents, nodes
      ensures Valid() && contents == Insert(old(contents), e)
    {
      var at := NULL;
      ghost var k := 0;
      while true
        invariant k <= |contents| && at == (if k == 0 then NULL else contents[k - 1].tid)
        invariant k > 0 ==> k < |contents|
        invariant forall j :: 0 <= j < k ==> contents[j].deadline <= e.deadline
        decreases |contents| - k
      {
        assert k > 0 ==> Linked(nodes[..], contents, k - 1);
        assert k < |contents| ==> Linked(nodes[..], contents, k);
        var here := if at == NULL then delayedQueue else nodes[at].next;
        if here == NULL || nodes[here].priority > nodes[node].priority {
          Spliced(nodes[..], delayedQueue, contents, k, e);
          nodes[node] := nodes[node].(next := here);
          if at == NULL {
            delayedQueue := node;
          } else {
            nodes[at] := nodes[at].(next := node);
          }
          contents := contents[..k] + [e] + contents[k..];
          return;
        }
        if nodes[here].next == NULL {
          Spliced(nodes[..], delayedQueue, contents, k + 1, e);
          ghost var linked := nodes[..][node := Node(NULL, e.deadline, node)];
          nodes[here] := nodes[here].(next := node);
          nodes[node] := nodes[node].(next := NULL);
          assert nodes[..] == linked[here := linked[here].(next := node)];
          contents := contents[..k + 1] + [e] + contents[k + 1..];
          return;
        }
        at := here;
        k := k + 1;
      }
    }

    method DelayTask(tid: nat, deadline: int)
      requires Valid() && tid < nodes.Length
      requires forall j :: 0 <= j < |contents| ==> contents[j].tid != tid
      modifies this, nodes
      ensures Valid() && Abs() == Ask(old(Abs()), tid, deadline)
    {
      Elsewhere(nodes[..], delayedQueue, contents, tid, nodes[tid].(tid := tid, priority := deadline));
      nodes[tid] := nodes[tid].(tid := tid, priority := deadline);
      ghost var e := Entry(tid, deadline, |asked|, numTicks);
      asked := asked + [e];
      SortedListInsert(tid, e);
    }

    /** Reply to every task at the head of the queue that is due. */
    method ReleaseDue()
      requires Valid()
      modifies this
      ensures Valid() && Abs() == Release(old(Abs()))
    {
      var head := delayedQueue;
      ghost var start := Abs();
      ghost var c := start;
      if c.queue != [] { Tail(nodes[..], head, c.queue); }
      while head != NULL && nodes[head].priority <= numTicks
        invariant Chained(nodes[..], head, c.queue)
        invariant c.queue != [] ==> Linked(nodes[..], c.queue, 0)
        invariant c.ticks == numTicks && Release(c) == Release(start)
        invariant Abs() == start.(woken := c.woken) && c == start.(queue := c.queue, woken := c.woken)
        decreases |c.queue|
      {
        Tail(nodes[..], head, c.queue);
        woken := woken + [Woken(c.queue[0], numTicks)];
        c := WakeHead(c);
        head := nodes[head].next;
        if c.queue != [] { Tail(nodes[..], head, c.queue); }
      }
      delayedQueue := head;
      contents := c.queue;
    }

    /** One turn of the loop. The clock and the deadlines stay within a 32-bit int. */
    method Serve(req: Request)
      requires Valid() && Enabled(Abs(), req) && req.tid < nodes.Length
      requires req.Delay? ==> INT_MIN <= req.ticks + numTicks <= INT_MAX
      requires req.Tick? ==> numTicks < INT_MAX
      modifies this, nodes
      ensures Valid() && Abs() == Step(old(Abs()), req)
    {
      hide Chained, Release, Insert, Place;
      match req {
        case Time(tid) =>
          answers := answers + [TimeIs(tid, numTicks)];
        case Delay(tid, ticks) =>
          DelayTask(tid, ticks + numTicks);
        case DelayUntil(tid, deadline) =>
          DelayTask(tid, deadline);
        case Tick(tid) =>
          answers := answers + [Ticked(tid)];
          numTicks := numTicks + 1;
        case Unknown(_) =>
      }
      ReleaseDue();
    }
  }
}
