/** The intrusive doubly linked queues of lib/queue.c: a pool of nodes that carry their own
    next/prev links, and a table of first/last pairs that thread them. */
module IntrusiveQueue {
  import opened Lists

  const NIL := -1

  datatype Link = Link(next: int, prev: int)
  datatype Ends = Ends(first: int, last: int)

  /** `ends` and the links thread exactly the nodes of c, in order, in both directions.
      A loose queue promises nothing about the backward link of its head. */
  ghost predicate Threads(ends: Ends, c: seq<nat>, links: seq<Link>, loose: bool) {
    && ends.first == (if c == [] then NIL else c[0])
    && ends.last == (if c == [] then NIL else c[|c| - 1])
    && (forall k :: 0 <= k < |c| ==> c[k] < |links|)
    && (forall k {:trigger links[c[k]]} :: 0 <= k < |c| ==> links[c[k]].next == After(c, k))
    && (forall k {:trigger links[c[k]]} :: 0 <= k < |c| && (k > 0 || !loose) ==> links[c[k]].prev == Before(c, k))
  }

  function After(c: seq<nat>, k: nat): int
    requires k < |c|
  {
    if k + 1 < |c| then c[k + 1] else NIL
  }

  function Before(c: seq<nat>, k: nat): int
    requires k < |c|
  {
    if k > 0 then c[k - 1] else NIL
  }

  class QueuePool {
    const nodes: array<Link>
    const queues: array<Ends>
    ghost const loose: int
    ghost var contents: seq<seq<nat>>

    ghost predicate Valid()
      reads this, nodes, queues
    {
      && |contents| == queues.Length
      && Apart(contents)
      && forall q :: 0 <= q < |contents| ==> Threads(queues[q], contents[q], nodes[..], q == loose)
    }

    /** Every node outside all queues has null links. */
    ghost predicate Clean()
      reads this, nodes
    {
      forall n :: 0 <= n < nodes.Length && Absent(contents, n) ==> nodes[n] == Link(NIL, NIL)
    }

    lemma EndsAre(q: nat)
      requires Valid() && q < queues.Length
      ensures var c := contents[q]; queues[q] == if c == [] then Ends(NIL, NIL) else Ends(c[0], c[|c| - 1])
    {
      assert Threads(queues[q], contents[q], nodes[..], q == loose);
    }

    lemma CleanLinks(n: nat)
      requires Clean() && n < nodes.Length
      ensures Absent(contents, n) ==> nodes[n] == Link(NIL, NIL)
    {
    }

    constructor (numNodes: nat, numQueues: nat, ghost looseQueue: int)
      ensures Valid() && Clean()
      ensures fresh(nodes) && fresh(queues)
      ensures nodes.Length == numNodes && queues.Length == numQueues && loose == looseQueue
      ensures contents == seq(numQueues, _ => [])
    {
      nodes := new Link[numNodes](_ => Link(NIL, NIL));
      queues := new Ends[numQueues](_ => Ends(NIL, NIL));
      loose := looseQueue;
      contents := seq(numQueues, _ => []);
    }

    /** The statements of EnqueueQueue, on any links whatever. */
    method Append(q: nat, n: nat)
      requires q < queues.Length && n < nodes.Length
      requires queues[q].last == NIL || 0 <= queues[q].last < nodes.Length
      modifies nodes, queues
      ensures queues[..] == old(queues[..])[q := Ends(if old(queues[q].first) == NIL then n
                                                      else old(queues[q].first), n)]
      ensures var last := old(queues[q].last);
              nodes[..] == (if last == NIL then old(nodes[..])
                            else old(nodes[..])[last := old(nodes[last]).(next := n)])
                           [n := Link(NIL, last)]
    {
      if queues[q].first == NIL {
        queues[q] := queues[q].(first := n);
      }
      if queues[q].last != NIL {
        var last := queues[q].last;
        nodes[last] := nodes[last].(next := n);
      }
      nodes[n] := nodes[n].(prev := queues[q].last);
      nodes[n] := nodes[n].(next := NIL);
      queues[q] := queues[q].(last := n);
    }

    method EnqueueQueue(q: nat, n: nat)
      requires Valid() && q < queues.Length && n < nodes.Length
      requires Absent(contents, n)
      modifies this, nodes, queues
      ensures Valid() && (old(Clean()) ==> Clean())
      ensures contents == old(contents)[q := old(contents)[q] + [n]]
    {
      ghost var c := contents[q];
      assert Threads(queues[q], c, nodes[..], q == loose);
      assert c != [] ==> nodes[c[|c| - 1]] == nodes[..][c[|c| - 1]];
      Append(q, n);
      contents := contents[q := c + [n]];
      Appended(old(nodes[..]), old(queues[..]), old(contents), loose, q, n);
      assert forall r :: 0 <= r < queues.Length ==> queues[r] == queues[..][r];
    }

    /** The links of a node that is in no queue may be overwritten with anything. */
    method Scribble(n: nat, link: Link)
      requires Valid() && n < nodes.Length && Absent(contents, n)
      modifies nodes
      ensures Valid()
    {
      ghost var links := nodes[..];
      nodes[n] := link;
      forall q | 0 <= q < |contents| ensures Threads(queues[q], contents[q], nodes[..], q == loose) {
        Untouched(queues[q], contents[q], links, nodes[..], q == loose);
      }
    }

    /** The statements of DequeueQueue past its null test, on a head whose links are in range. */
    method PopFirst(q: nat, head: nat)
      requires q < queues.Length && head < nodes.Length && queues[q].first == head
      requires nodes[head].next == NIL || (0 <= nodes[head].next < nodes.Length && nodes[head].next != head)
      modifies nodes, queues
      ensures queues[..] == old(queues[..])[q := Ends(old(nodes[head].next),
                                                      if old(queues[q].last) == head then NIL else old(queues[q].last))]
      ensures var next := old(nodes[head].next);
              nodes[..] == (if next == NIL then old(nodes[..])
                            else old(nodes[..])[next := old(nodes[next]).(prev := NIL)])
                           [head := Link(NIL, NIL)]
    {
      if nodes[head].next != NIL {
        var second := nodes[head].next;
        nodes[second] := nodes[second].(prev := NIL);
      }
      if queues[q].last == head {
        queues[q] := queues[q].(last := NIL);
      }
      queues[q] := queues[q].(first := nodes[head].next);
      nodes[head] := Link(NIL, NIL);
    }

    method DequeueQueue(q: nat) returns (dequeued: int)
      requires Valid() && q < queues.Length
      modifies this, nodes, queues
      ensures Valid() && (old(Clean()) ==> Clean())
      ensures dequeued == (if old(contents)[q] == [] then NIL else old(contents)[q][0])
      ensures contents == if old(contents)[q] == [] then old(contents)
                          else old(contents)[q := old(contents)[q][1..]]
      ensures dequeued != NIL ==> 0 <= dequeued < nodes.Length && nodes[dequeued] == Link(NIL, NIL)
    {
      ghost var links, ends := nodes[..], queues[..];
      assert AllThread(links, ends, contents, loose);
      assert Threads(ends[q], contents[q], links, q == loose);
      dequeued := queues[q].first;
      if dequeued == NIL {
        return;
      }
      PopFront(ends[q], contents[q], links, q == loose);
      PopFirst(q, dequeued);
      contents := contents[q := contents[q][1..]];
      assert old(contents[q])[..0] + old(contents[q])[0 + 1..] == contents[q];
      Spliced(links, ends, old(contents), loose, q, 0, nodes[..], queues[..]);
      assert forall r :: 0 <= r < queues.Length ==> queues[r] == queues[..][r];
      assert forall r :: 0 <= r < nodes.Length ==> nodes[r] == nodes[..][r] && old(nodes[r]) == links[r];
    }

    /** The statements of RemoveQueueNode, on a node whose links are in range. */
    method Unlink(q: nat, n: nat)
      requires q < queues.Length && n < nodes.Length && Linkable(nodes[..], n)
      modifies nodes, queues
      ensures queues[..] == old(queues[..])[q := Ends(if old(queues[q].first) == n then old(nodes[n].next)
                                                      else old(queues[q].first),
                                                      if old(queues[q].last) == n then old(nodes[n].prev)
                                                      else old(queues[q].last))]
      ensures nodes[..] == Bypassed(old(nodes[..]), n)
    {
      if queues[q].first == n {
        queues[q] := queues[q].(first := nodes[n].next);
      }
      if queues[q].last == n {
        queues[q] := queues[q].(last := nodes[n].prev);
      }
      if nodes[n].next != NIL {
        var next := nodes[n].next;
        nodes[next] := nodes[next].(prev := nodes[n].prev);
      }
      if nodes[n].prev != NIL {
        var prev := nodes[n].prev;
        nodes[prev] := nodes[prev].(next := nodes[n].next);
      }
      nodes[n] := Link(NIL, NIL);
    }

    /** Removal by node. A node that is in no queue and has null links is left alone. */
    method RemoveQueueNode(q: nat, n: nat)
      requires Valid() && q < queues.Length && n < nodes.Length && q != loose
      requires n in contents[q] || (Absent(contents, n) && nodes[n] == Link(NIL, NIL))
      modifies this, nodes, queues
      ensures Valid() && (old(Clean()) ==> Clean())
      ensures contents == old(contents)[q := Minus(old(contents)[q], {n})]
      ensures nodes[n] == Link(NIL, NIL)
    {
      ghost var links, ends := nodes[..], queues[..];
      assert AllThread(links, ends, contents, loose);
      assert Threads(ends[q], contents[q], links, false);
      assert nodes[n] == links[n];
      Removed(links, ends, contents, loose, q, n);
      Unlink(q, n);
      contents := contents[q := Minus(contents[q], {n})];
      assert forall r :: 0 <= r < queues.Length ==> queues[r] == queues[..][r];
      assert forall r :: 0 <= r < nodes.Length ==> nodes[r] == nodes[..][r] && old(nodes[r]) == links[r];
    }
  }

  ghost predicate Linkable(links: seq<Link>, n: nat)
    requires n < |links|
  {
    && (links[n].next == NIL || (0 <= links[n].next < |links| && links[n].next != n))
    && (links[n].prev == NIL || (0 <= links[n].prev < |links| && links[n].prev != n && links[n].prev != links[n].next))
  }

  /** The links after n's neighbours were pointed at each other and n's own links cleared. */
  ghost function Bypassed(links: seq<Link>, n: nat): seq<Link>
    requires n < |links| && Linkable(links, n)
  {
    var Link(next, prev) := links[n];
    var links1 := if next == NIL then links else links[next := links[next].(prev := prev)];
    var links2 := if prev == NIL then links1 else links1[prev := links1[prev].(next := next)];
    links2[n := Link(NIL, NIL)]
  }

  ghost predicate AllThread(links: seq<Link>, ends: seq<Ends>, qs: seq<seq<nat>>, loose: int) {
    && |ends| == |qs|
    && Apart(qs)
    && forall q :: 0 <= q < |qs| ==> Threads(ends[q], qs[q], links, q == loose)
  }

  ghost predicate AllClean(links: seq<Link>, qs: seq<seq<nat>>) {
    forall n :: 0 <= n < |links| && Absent(qs, n) ==> links[n] == Link(NIL, NIL)
  }

  /** Where n stands in c, and what bypassing it therefore does. */
  lemma Neighbours(ends: Ends, c: seq<nat>, links: seq<Link>, n: nat) returns (k: int)
    requires Threads(ends, c, links, false) && NoDup(c) && n < |links|
    requires n in c || links[n] == Link(NIL, NIL)
    ensures Linkable(links, n)
    ensures k == NIL || 0 <= k < |c|
    ensures k == NIL ==> n !in c && links[n] == Link(NIL, NIL) && ends.first != n && ends.last != n
    ensures k != NIL ==> c[k] == n && Joined(links, c, k, Bypassed(links, n))
    ensures k != NIL ==> SplicedEnds(c, k) == Ends(if ends.first == n then links[n].next else ends.first,
                                                   if ends.last == n then links[n].prev else ends.last)
  {
    if n in c {
      k :| 0 <= k < |c| && c[k] == n;
      assert links[c[k]] == Link(After(c, k), Before(c, k));
    } else {
      k := NIL;
    }
  }

  lemma PopFront(ends: Ends, c: seq<nat>, links: seq<Link>, loose: bool)
    requires Threads(ends, c, links, loose) && NoDup(c) && c != []
    ensures var next := links[c[0]].next;
            && next == (if |c| > 1 then c[1] else NIL)
            && (next == NIL || (0 <= next < |links| && next != c[0]))
            && Joined(links, c, 0,
                      (if next == NIL then links else links[next := links[next].(prev := NIL)])[c[0] := Link(NIL, NIL)])
            && SplicedEnds(c, 0) == Ends(next, if ends.last == c[0] then NIL else ends.last)
  {
    assert c[0] < |links| && links[c[0]].next == After(c, 0);
    assert |c| > 1 ==> c[1] < |links|;
  }

  /** A queue is threaded as before when its nodes kept their links. */
  lemma Untouched(ends: Ends, c: seq<nat>, links: seq<Link>, links': seq<Link>, loose: bool)
    requires Threads(ends, c, links, loose) && |links'| == |links|
    requires forall x :: x in c && x < |links| ==> links'[x] == links[x]
    ensures Threads(ends, c, links', loose)
  {
    assert forall k :: 0 <= k < |c| ==> c[k] in c;
  }

  lemma AppendedThread(ends: Ends, c: seq<nat>, links: seq<Link>, loose: bool, n: nat, links': seq<Link>)
    requires Threads(ends, c, links, loose) && NoDup(c) && n !in c && n < |links|
    requires links' == (if ends.last == NIL then links else links[ends.last := links[ends.last].(next := n)])
                       [n := Link(NIL, ends.last)]
    ensures Threads(Ends(if ends.first == NIL then n else ends.first, n), c + [n], links', loose)
    ensures forall x: nat :: x < |links| && x !in c && x != n ==> links'[x] == links[x]
  {
    var c' := c + [n];
    forall k | 0 <= k < |c'|
      ensures links'[c'[k]].next == After(c', k)
      ensures k > 0 || !loose ==> links'[c'[k]].prev == Before(c', k)
    {
      if k < |c| {
        assert c[k] in c;
        assert links[c[k]].next == After(c, k);
        assert k > 0 || !loose ==> links[c[k]].prev == Before(c, k);
      }
    }
  }

  lemma LastInRange(ends: Ends, c: seq<nat>, links: seq<Link>, loose: bool)
    requires Threads(ends, c, links, loose)
    ensures ends.last == NIL || 0 <= ends.last < |links|
    ensures forall j :: 0 <= j < |c| ==> c[j] < |links|
  {
  }

  lemma Appended(links: seq<Link>, ends: seq<Ends>, qs: seq<seq<nat>>, loose: int, q: nat, n: nat)
    requires AllThread(links, ends, qs, loose)
    requires q < |qs| && n < |links| && Absent(qs, n)
    ensures Threads(ends[q], qs[q], links, q == loose)
    ensures var last := ends[q].last;
            var links' := (if last == NIL then links else links[last := links[last].(next := n)])[n := Link(NIL, last)];
            var qs' := qs[q := qs[q] + [n]];
            && AllThread(links', ends[q := Ends(if ends[q].first == NIL then n else ends[q].first, n)], qs', loose)
            && (AllClean(links, qs) ==> AllClean(links', qs'))
  {
    hide Threads;
    var last := ends[q].last;
    assert Threads(ends[q], qs[q], links, q == loose);
    LastInRange(ends[q], qs[q], links, q == loose);
    var links' := (if last == NIL then links else links[last := links[last].(next := n)])[n := Link(NIL, last)];
    var ends' := ends[q := Ends(if ends[q].first == NIL then n else ends[q].first, n)];
    var qs' := qs[q := qs[q] + [n]];
    AppendedThread(ends[q], qs[q], links, q == loose, n, links');
    AddedApart(qs, q, n);
    forall r | 0 <= r < |qs'| ensures Threads(ends'[r], qs'[r], links', r == loose) {
      if r != q {
        Untouched(ends[r], qs[r], links, links', r == loose);
      }
    }
    if AllClean(links, qs) {
      forall m: nat | m < |links| && Absent(qs', m) ensures links'[m] == Link(NIL, NIL) {
        assert m !in qs'[q] && n in qs'[q];
      }
    }
  }

  /** Adding an absent node keeps queues apart and makes no other node present. */
  lemma AddedApart(qs: seq<seq<nat>>, q: nat, n: nat)
    requires Apart(qs) && q < |qs| && Absent(qs, n)
    ensures Apart(qs[q := qs[q] + [n]])
    ensures forall m: nat :: Absent(qs[q := qs[q] + [n]], m) ==> Absent(qs, m)
  {
    var qs' := qs[q := qs[q] + [n]];
    forall m: nat | Absent(qs', m) ensures Absent(qs, m) {
      forall r | 0 <= r < |qs| ensures m !in qs[r] {
        assert m !in qs'[r];
      }
    }
  }

  /** The neighbours of the node at k are joined, and only they and the node change their links. */
  ghost predicate Joined(links: seq<Link>, c: seq<nat>, k: nat, links': seq<Link>)
    requires k < |c| && |links| == |links'|
    requires forall j :: 0 <= j < |c| ==> c[j] < |links|
  {
    && links'[c[k]] == Link(NIL, NIL)
    && (k > 0 ==> links'[c[k - 1]] == links[c[k - 1]].(next := After(c, k)))
    && (k + 1 < |c| ==> links'[c[k + 1]] == links[c[k + 1]].(prev := Before(c, k)))
    && (forall m: nat | m < |links| && m != c[k] && (k > 0 ==> m != c[k - 1]) && (k + 1 < |c| ==> m != c[k + 1]) ::
          links'[m] == links[m])
  }

  ghost function SplicedEnds(c: seq<nat>, k: nat): Ends
    requires k < |c|
  {
    Ends(if k > 0 then c[0] else if |c| > 1 then c[1] else NIL,
         if k + 1 < |c| then c[|c| - 1] else if k > 0 then c[k - 1] else NIL)
  }

  lemma SplicedThread(ends: Ends, c: seq<nat>, links: seq<Link>, loose: bool, k: nat, links': seq<Link>)
    requires Threads(ends, c, links, loose) && NoDup(c) && k < |c| && |links| == |links'|
    requires k == 0 || !loose
    requires Joined(links, c, k, links')
    ensures Threads(SplicedEnds(c, k), c[..k] + c[k + 1..], links', loose)
    ensures forall x: nat :: x < |links| && x !in c ==> links'[x] == links[x]
  {
    hide Joined, After, Before;
    var c' := c[..k] + c[k + 1..];
    forall j | 0 <= j < |c'|
      ensures c'[j] < |links|
      ensures links'[c'[j]].next == After(c', j)
      ensures j > 0 || !loose ==> links'[c'[j]].prev == Before(c', j)
    {
      var i := if j < k then j else j + 1;
      assert c'[j] == c[i];
      assert links[c[i]].next == After(c, i);
      assert i > 0 || !loose ==> links[c[i]].prev == Before(c, i);
      SplicedLinks(c, links, k, links', i);
    }
    SplicedOthers(c, links, k, links');
  }

  /** What the links of the node at position i become, which moves up by one if it stood behind k. */
  lemma SplicedLinks(c: seq<nat>, links: seq<Link>, k: nat, links': seq<Link>, i: nat)
    requires NoDup(c) && k < |c| && i < |c| && i != k && |links| == |links'|
    requires forall j :: 0 <= j < |c| ==> c[j] < |links|
    requires Joined(links, c, k, links')
    ensures var c', j := c[..k] + c[k + 1..], if i < k then i else i - 1;
            && (links[c[i]].next == After(c, i) ==> links'[c[i]].next == After(c', j))
            && (links[c[i]].prev == Before(c, i) ==> links'[c[i]].prev == Before(c', j))
  {
    var c', j := c[..k] + c[k + 1..], if i < k then i else i - 1;
    assert c[i] != c[k];
    assert j + 1 < |c'| ==> c'[j + 1] == c[if j + 1 < k then j + 1 else j + 2];
    assert j > 0 ==> c'[j - 1] == c[if j - 1 < k then j - 1 else j];
    assert i + 1 != k ==> links'[c[i]].next == links[c[i]].next;
    assert i != k + 1 ==> links'[c[i]].prev == links[c[i]].prev;
  }

  lemma SplicedOthers(c: seq<nat>, links: seq<Link>, k: nat, links': seq<Link>)
    requires k < |c| && |links| == |links'|
    requires forall j :: 0 <= j < |c| ==> c[j] < |links|
    requires Joined(links, c, k, links')
    ensures forall x: nat :: x < |links| && x !in c ==> links'[x] == links[x]
  {
  }

  /** Taking the node at position k out of queue q: its neighbours are joined, nothing else moves. */
  lemma Spliced(links: seq<Link>, ends: seq<Ends>, qs: seq<seq<nat>>, loose: int, q: nat, k: nat,
                links': seq<Link>, ends': seq<Ends>)
    requires AllThread(links, ends, qs, loose) && q < |qs| && k < |qs[q]|
    requires k == 0 || q != loose
    requires |links'| == |links|
    requires forall j :: 0 <= j < |qs[q]| ==> qs[q][j] < |links|
    requires Joined(links, qs[q], k, links')
    requires ends' == ends[q := SplicedEnds(qs[q], k)]
    ensures var qs' := qs[q := qs[q][..k] + qs[q][k + 1..]];
            && AllThread(links', ends', qs', loose)
            && (AllClean(links, qs) ==> AllClean(links', qs'))
  {
    var c := qs[q];
    var c' := c[..k] + c[k + 1..];
    var qs' := qs[q := c'];
    SplicedThread(ends[q], c, links, q == loose, k, links');
    SplicedOut(qs, q, k, qs');
    forall r | 0 <= r < |qs'| ensures Threads(ends'[r], qs'[r], links', r == loose) {
      if r != q {
        Untouched(ends[r], qs[r], links, links', r == loose);
      }
    }
    if AllClean(links, qs) {
      forall m: nat | m < |links| && Absent(qs', m) ensures links'[m] == Link(NIL, NIL) {
        if m != c[k] {
          assert m !in qs[q];
        }
      }
    }
  }

  lemma ThreadOf(links: seq<Link>, ends: seq<Ends>, qs: seq<seq<nat>>, loose: int, q: nat)
    requires AllThread(links, ends, qs, loose) && q < |qs|
    ensures |ends| == |qs| && Threads(ends[q], qs[q], links, q == loose) && NoDup(qs[q])
    ensures forall j :: 0 <= j < |qs[q]| ==> qs[q][j] < |links|
  {
  }

  lemma BypassNothing(links: seq<Link>, n: nat)
    requires n < |links| && Linkable(links, n)
    ensures |Bypassed(links, n)| == |links|
    ensures links[n] == Link(NIL, NIL) ==> Bypassed(links, n) == links
  {
  }

  /** Bypassing the node at position k of queue q removes it from q. */
  lemma RemovedAt(links: seq<Link>, ends: seq<Ends>, qs: seq<seq<nat>>, loose: int, q: nat, n: nat, k: nat)
    requires AllThread(links, ends, qs, loose) && q < |qs| && n < |links| && q != loose
    requires Linkable(links, n) && k < |qs[q]| && qs[q][k] == n
    requires forall j :: 0 <= j < |qs[q]| ==> qs[q][j] < |links|
    requires Joined(links, qs[q], k, Bypassed(links, n))
    ensures |ends| == |qs|
    ensures AllThread(Bypassed(links, n), ends[q := SplicedEnds(qs[q], k)], qs[q := Minus(qs[q], {n})], loose)
    ensures AllClean(links, qs) ==> AllClean(Bypassed(links, n), qs[q := Minus(qs[q], {n})])
  {
    hide AllThread, AllClean, Threads, Joined, NoDup, SplicedEnds, Bypassed, Linkable, Minus;
    ThreadOf(links, ends, qs, loose, q);
    BypassNothing(links, n);
    MinusAt(qs[q], k);
    Spliced(links, ends, qs, loose, q, k, Bypassed(links, n), ends[q := SplicedEnds(qs[q], k)]);
  }

  /** Bypassing a node of no queue that has null links changes nothing. */
  lemma RemovedNowhere(links: seq<Link>, ends: seq<Ends>, qs: seq<seq<nat>>, loose: int, q: nat, n: nat)
    requires AllThread(links, ends, qs, loose) && q < |qs| && n < |links|
    requires Linkable(links, n) && n !in qs[q] && links[n] == Link(NIL, NIL)
    ensures AllThread(Bypassed(links, n), ends, qs[q := Minus(qs[q], {n})], loose)
    ensures AllClean(links, qs) ==> AllClean(Bypassed(links, n), qs[q := Minus(qs[q], {n})])
  {
    hide AllThread, AllClean, Threads, Bypassed, Linkable, Minus;
    BypassNothing(links, n);
    MinusNothing(qs[q], {n});
    assert qs[q := qs[q]] == qs;
  }

  /** Bypassing a node of queue q removes it from q; bypassing a node of no queue changes nothing. */
  lemma Removed(links: seq<Link>, ends: seq<Ends>, qs: seq<seq<nat>>, loose: int, q: nat, n: nat)
    requires AllThread(links, ends, qs, loose) && q < |qs| && n < |links| && q != loose
    requires n in qs[q] || links[n] == Link(NIL, NIL)
    ensures |ends| == |qs| && Linkable(links, n)
    ensures var ends' := ends[q := Ends(if ends[q].first == n then links[n].next else ends[q].first,
                                        if ends[q].last == n then links[n].prev else ends[q].last)];
            var qs' := qs[q := Minus(qs[q], {n})];
            && AllThread(Bypassed(links, n), ends', qs', loose)
            && (AllClean(links, qs) ==> AllClean(Bypassed(links, n), qs'))
  {
    hide AllThread, AllClean, Threads, Joined, NoDup, SplicedEnds, Bypassed, Linkable, Minus;
    ThreadOf(links, ends, qs, loose, q);
    var k := Neighbours(ends[q], qs[q], links, n);
    if k == NIL {
      RemovedNowhere(links, ends, qs, loose, q, n);
      assert ends[q := Ends(ends[q].first, ends[q].last)] == ends;
    } else {
      RemovedAt(links, ends, qs, loose, q, n, k);
    }
  }

  /** Taking one node out keeps queues apart and makes only that node absent. */
  lemma SplicedOut(qs: seq<seq<nat>>, q: nat, k: nat, qs': seq<seq<nat>>)
    requires Apart(qs) && q < |qs| && k < |qs[q]|
    requires qs' == qs[q := qs[q][..k] + qs[q][k + 1..]]
    ensures Apart(qs') && Absent(qs', qs[q][k])
    ensures forall m: nat :: m != qs[q][k] && Absent(qs', m) ==> Absent(qs, m)
  {
    var c := qs[q];
    assert NoDup(c);
    MinusAt(c, k);
    assert forall x :: x in qs'[q] <==> x in c && x != c[k];
    forall r | 0 <= r < |qs| ensures c[k] !in qs'[r] {
      assert c[k] in qs[q];
    }
    forall m: nat | m != c[k] && Absent(qs', m) ensures Absent(qs, m) {
      forall r | 0 <= r < |qs| ensures m !in qs[r] {
        assert m !in qs'[r];
      }
    }
  }
}
