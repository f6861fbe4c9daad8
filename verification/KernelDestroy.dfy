/** Destroy frees exactly a task and its descendants. */
module KernelDestroy {
  import opened Lists
  import opened KernelModel
  import opened KernelInvariant
  import opened KernelSteps

  // ------------------------------------------------------------------ descendants

  /** d is a, or its parent, by parent tid, is a descendant of a. */
  predicate Descends(k: Kernel, a: nat, d: nat)
    requires WF(k) && Forest(k) && a < |k.tasks| && d < |k.tasks|
    decreases k.born[d]
  {
    d == a ||
    (Listed(k.tasks[d]) && k.tasks[d].parentTid != -1 &&
     (ParentIsElder(k, d); Descends(k, a, Slot(|k.tasks|, k.tasks[d].parentTid))))
  }

  lemma ParentIsElder(k: Kernel, d: nat)
    requires WF(k) && Forest(k) && d < |k.tasks| && Listed(k.tasks[d]) && k.tasks[d].parentTid != -1
    ensures var p := Slot(|k.tasks|, k.tasks[d].parentTid);
            k.born[p] < k.born[d] && d in k.kids[p] && k.tasks[d].parentTid == k.tasks[p].tid && Listed(k.tasks[p])
  {
    hide Slot;
    assert d in k.kids[Slot(|k.tasks|, k.tasks[d].parentTid)];
  }

  /** A child's parent, by tid, is the task whose list it is in. */
  lemma ParentOf(k: Kernel, p: nat, c: nat)
    requires WF(k) && Forest(k) && Tids(k) && p < |k.tasks| && c in k.kids[p]
    ensures c < |k.tasks| && Listed(k.tasks[c]) && k.tasks[c].parentTid == k.tasks[p].tid >= 0
    ensures Slot(|k.tasks|, k.tasks[c].parentTid) == p && k.born[p] < k.born[c]
  {
    hide Slot;
    assert Slot(|k.tasks|, k.tasks[p].tid) == p;
  }

  lemma {:induction false} DescendantsAreYounger(k: Kernel, a: nat, d: nat)
    requires WF(k) && Forest(k) && a < |k.tasks| && d < |k.tasks| && Descends(k, a, d)
    ensures k.born[a] <= k.born[d]
    decreases k.born[d]
  {
    hide Slot, Ranked;
    if d != a {
      ParentIsElder(k, d);
      DescendantsAreYounger(k, a, Slot(|k.tasks|, k.tasks[d].parentTid));
    }
  }

  lemma {:induction false} DescendsThroughChild(k: Kernel, a: nat, c: nat, d: nat)
    requires WF(k) && Forest(k) && Tids(k) && a < |k.tasks| && c in k.kids[a] && c < |k.tasks| && d < |k.tasks|
    requires Descends(k, c, d)
    ensures Descends(k, a, d)
    decreases k.born[d]
  {
    hide Slot, Ranked;
    ParentOf(k, a, c);
    if d != c {
      ParentIsElder(k, d);
      DescendsThroughChild(k, a, c, Slot(|k.tasks|, k.tasks[d].parentTid));
    } else {
      assert Descends(k, a, a);
    }
  }

  /** Two ancestors of the same task lie on one line. */
  lemma {:induction false} OneLine(k: Kernel, a: nat, b: nat, d: nat)
    requires WF(k) && Forest(k) && a < |k.tasks| && b < |k.tasks| && d < |k.tasks|
    requires Descends(k, a, d) && Descends(k, b, d)
    ensures Descends(k, a, b) || Descends(k, b, a)
    decreases k.born[d]
  {
    hide Slot, Ranked;
    if d != a && d != b {
      ParentIsElder(k, d);
      OneLine(k, a, b, Slot(|k.tasks|, k.tasks[d].parentTid));
    }
  }

  /** Different children of one task have no descendant in common. */
  lemma SiblingsApart(k: Kernel, a: nat, c1: nat, c2: nat, d: nat)
    requires WF(k) && Forest(k) && Tids(k) && a < |k.tasks| && c1 in k.kids[a] && c2 in k.kids[a] && c1 != c2
    requires c1 < |k.tasks| && c2 < |k.tasks| && d < |k.tasks|
    ensures !(Descends(k, c1, d) && Descends(k, c2, d))
  {
    hide Slot, Ranked;
    if Descends(k, c1, d) && Descends(k, c2, d) {
      OneLine(k, c1, c2, d);
      var x, y := if Descends(k, c1, c2) then c1 else c2, if Descends(k, c1, c2) then c2 else c1;
      ParentOf(k, a, x);
      ParentOf(k, a, y);
      ParentIsElder(k, y);
      DescendantsAreYounger(k, x, a);
    }
  }

  // ------------------------------------------------------------------ the post-order lists the descendants

  lemma {:induction false} PostOrderDescends(k: Kernel, a: nat, x: nat)
    requires WF(k) && Forest(k) && Tids(k) && a < |k.tasks| && x in PostOrder(k.kids, k.born, |k.log|, a)
    ensures x < |k.tasks| && Descends(k, a, x)
    decreases |k.log| - k.born[a], 1, 0
  {
    hide Slot;
    PostOrderWithin(k.kids, k.born, |k.log|, a);
    if x != a {
      var c := PostOrdersDescend(k, a, k.kids[a], x);
      DescendsThroughChild(k, a, c, x);
    }
  }

  lemma {:induction false} PostOrdersDescend(k: Kernel, a: nat, cs: seq<nat>, x: nat) returns (c: nat)
    requires WF(k) && Forest(k) && Tids(k) && a < |k.tasks|
    requires forall d :: d in cs ==> d in k.kids[a] && d < |k.tasks| && k.born[a] < k.born[d]
    requires x in PostOrders(k.kids, k.born, |k.log|, k.born[a], cs)
    ensures c in cs && c < |k.tasks| && x < |k.tasks| && x in PostOrder(k.kids, k.born, |k.log|, c) && Descends(k, c, x)
    decreases |k.log| - k.born[a], 0, |cs|
  {
    hide Slot;
    assert cs[0] in cs && forall d :: d in cs[1..] ==> d in cs;
    if x in PostOrder(k.kids, k.born, |k.log|, cs[0]) {
      c := cs[0];
      PostOrderDescends(k, c, x);
    } else {
      c := PostOrdersDescend(k, a, cs[1..], x);
    }
  }

  lemma {:induction false} PostOrderClosed(kids: seq<seq<nat>>, born: seq<nat>, bound: nat, a: nat, p: nat, c: nat)
    requires Ranked(kids, born, bound) && a < |kids|
    requires p in PostOrder(kids, born, bound, a) && p < |kids| && c in kids[p]
    ensures c in PostOrder(kids, born, bound, a)
    decreases bound - born[a], 1, 0
  {
    if p == a {
      ChildrenInside(kids, born, bound, born[a], kids[a], c);
    } else {
      PostOrdersClosed(kids, born, bound, born[a], kids[a], p, c);
    }
  }

  lemma {:induction false} PostOrdersClosed(kids: seq<seq<nat>>, born: seq<nat>, bound: nat, above: nat,
                                            cs: seq<nat>, p: nat, c: nat)
    requires Ranked(kids, born, bound) && above <= bound
    requires forall d :: d in cs ==> d < |kids| && above < born[d]
    requires p in PostOrders(kids, born, bound, above, cs) && p < |kids| && c in kids[p]
    ensures c in PostOrders(kids, born, bound, above, cs)
    decreases bound - above, 0, |cs|
  {
    assert cs[0] in cs && forall d :: d in cs[1..] ==> d in cs;
    if p in PostOrder(kids, born, bound, cs[0]) {
      PostOrderClosed(kids, born, bound, cs[0], p, c);
    } else {
      PostOrdersClosed(kids, born, bound, above, cs[1..], p, c);
    }
  }

  lemma {:induction false} ChildrenInside(kids: seq<seq<nat>>, born: seq<nat>, bound: nat, above: nat, cs: seq<nat>,
                                          c: nat)
    requires Ranked(kids, born, bound) && above <= bound
    requires forall d :: d in cs ==> d < |kids| && above < born[d]
    requires c in cs
    ensures c in PostOrders(kids, born, bound, above, cs)
    decreases |cs|
  {
    assert cs[0] in cs && forall d :: d in cs[1..] ==> d in cs;
    if c == cs[0] {
      assert c in PostOrder(kids, born, bound, c);
    } else {
      ChildrenInside(kids, born, bound, above, cs[1..], c);
    }
  }

  lemma {:induction false} DescendantsListed(k: Kernel, a: nat, d: nat)
    requires WF(k) && Forest(k) && a < |k.tasks| && d < |k.tasks| && Descends(k, a, d)
    ensures d in PostOrder(k.kids, k.born, |k.log|, a)
    decreases k.born[d]
  {
    hide Slot;
    if d != a {
      ParentIsElder(k, d);
      var p := Slot(|k.tasks|, k.tasks[d].parentTid);
      DescendantsListed(k, a, p);
      PostOrderClosed(k.kids, k.born, |k.log|, a, p, d);
    }
  }

  lemma {:induction false} PostOrderNoDup(k: Kernel, a: nat)
    requires WF(k) && Forest(k) && Tids(k) && a < |k.tasks|
    ensures NoDup(PostOrder(k.kids, k.born, |k.log|, a))
    decreases |k.log| - k.born[a], 1, 0
  {
    hide Slot;
    PostOrdersNoDup(k, a, k.kids[a]);
    var below := PostOrders(k.kids, k.born, |k.log|, k.born[a], k.kids[a]);
    PostOrdersWithin(k.kids, k.born, |k.log|, k.born[a], k.kids[a]);
    assert a !in below;
    NoDupConcat(below, [a]);
  }

  lemma {:induction false} PostOrdersNoDup(k: Kernel, a: nat, cs: seq<nat>)
    requires WF(k) && Forest(k) && Tids(k) && a < |k.tasks| && NoDup(cs)
    requires forall d :: d in cs ==> d in k.kids[a] && d < |k.tasks| && k.born[a] < k.born[d]
    ensures NoDup(PostOrders(k.kids, k.born, |k.log|, k.born[a], cs))
    decreases |k.log| - k.born[a], 0, |cs|
  {
    hide Slot;
    if cs != [] {
      assert cs[0] in cs && forall d :: d in cs[1..] ==> d in cs;
      var first := PostOrder(k.kids, k.born, |k.log|, cs[0]);
      var rest := PostOrders(k.kids, k.born, |k.log|, k.born[a], cs[1..]);
      PostOrderNoDup(k, cs[0]);
      PostOrdersNoDup(k, a, cs[1..]);
      forall x | x in first ensures x !in rest {
        if x in rest {
          PostOrderDescends(k, cs[0], x);
          var c := PostOrdersDescend(k, a, cs[1..], x);
          SiblingsApart(k, a, cs[0], c, x);
        }
      }
      NoDupConcat(first, rest);
    }
  }

  /** The order of destruction: every descendant once, and nobody else. */
  lemma SubtreeIsDescendants(k: Kernel, a: nat)
    requires WF(k) && Forest(k) && Tids(k) && a < |k.tasks|
    ensures var order := PostOrder(k.kids, k.born, |k.log|, a);
            && NoDup(order)
            && (forall x: nat :: x in order <==> x < |k.tasks| && Descends(k, a, x))
  {
    hide Slot;
    PostOrderNoDup(k, a);
    forall x: nat ensures x in PostOrder(k.kids, k.born, |k.log|, a) <==> x < |k.tasks| && Descends(k, a, x) {
      if x in PostOrder(k.kids, k.born, |k.log|, a) { PostOrderDescends(k, a, x); }
      if x < |k.tasks| && Descends(k, a, x) { DescendantsListed(k, a, x); }
    }
  }

  // ------------------------------------------------------------------ freeing one task, freeing a list of tasks

  /** What becomes of a descriptor: it is free again while there is a next tid for it. */
  function Grave(k: Kernel, i: nat): TaskState
    requires i < |k.tasks|
  {
    if k.tasks[i].tid < LONG_MAX - |k.tasks| then Free else Destroyed
  }

  /** The descriptors whose tids are used up. */
  function WornOut(k: Kernel): set<nat> {
    set i: nat | i < |k.tasks| && k.tasks[i].tid >= LONG_MAX - |k.tasks|
  }

  lemma ReapEffect(k: Kernel, i: nat)
    requires WF(k) && Tids(k) && i < |k.tasks| && Listed(k.tasks[i])
    ensures var k' := Reap(k, i);
            && k'.tasks == k.tasks[i := k.tasks[i].(state := Grave(k, i))]
            && k'.lists == Delist(k.lists, ListOf(k.tasks[i].state, k.tasks[i].priority), i)
                             [FREE_LIST := if i in WornOut(k) then k.lists[FREE_LIST] else k.lists[FREE_LIST] + [i]]
            && k' == k.(tasks := k'.tasks, lists := k'.lists, numTasks := k.numTasks - 1,
                        log := k.log + [Reaped(k.tasks[i].tid)])
  {
    OwnSlot(k, i);
    hide Slot, Tids, Ranked, Within;
  }

  /** What holds of the tables while a subtree is being freed. */
  ghost predicate Tables(k: Kernel) {
    WF(k) && Partition(k) && Tids(k) && ActiveIsCurrent(k) && Ledger(k)
  }

  lemma ReapKeeps(k: Kernel, i: nat)
    requires Tables(k) && i < |k.tasks| && Listed(k.tasks[i])
    ensures Tables(Reap(k, i))
  {
    hide Slot, Partition, Ranked, Within, Tids, Ledger;
    ReapEffect(k, i);
    var k' := Reap(k, i);
    hide Reap;
    var q := ListOf(k.tasks[i].state, k.tasks[i].priority);
    assert Delist(k.lists, q, i)[FREE_LIST := k.lists[FREE_LIST]] == Delist(k.lists, q, i);
    if i == k.current {
      AbsentFromLists(k, i, q);
    }
    PartitionMoved(k, k', i);
    ReapKeepsTids(k, i, k');
    ReapKeepsLedger(k, i, k');
  }

  ghost predicate Dies(k: Kernel, i: nat, k': Kernel) {
    && WF(k) && WF(k') && i < |k.tasks| && Listed(k.tasks[i])
    && k'.tasks == k.tasks[i := k.tasks[i].(state := Grave(k, i))]
    && k'.mail == k.mail && k'.msgs == k.msgs && k'.log == k.log + [Reaped(k.tasks[i].tid)]
  }

  lemma ReapKeepsTids(k: Kernel, i: nat, k': Kernel)
    requires Dies(k, i, k') && Tids(k)
    ensures Tids(k')
  {
    hide Slot, Ranked, Within;
  }

  lemma ReapKeepsLedger(k: Kernel, i: nat, k': Kernel)
    requires Dies(k, i, k') && Tids(k) && Ledger(k)
    ensures Ledger(k')
  {
    hide Slot, Ranked, Known, Lives;
    OwnSlot(k, i);
    var e := Reaped(k.tasks[i].tid);
    forall j | 0 <= j < |k.tasks| && Listed(k'.tasks[j]) ensures PhaseOk(k', j) && FifoOk(k', j) {
      assert PhaseOk(k, j) && FifoOk(k, j);
      LogGrown(k.log, e, k.tasks[j].tid);
      MailTids(k, k', j);
    }
    forall j | 0 <= j < |k.tasks|
      ensures Code(k'.tasks[j].state) > 0 <==> Code(k.tasks[j].state) > 0 && k.tasks[j].tid != e.tid
    {
      if k.tasks[j].tid == e.tid { DistinctTids(k, i, j); }
    }
    hide Tids;
    Death(k, k', e);
  }

  function ToSet(s: seq<nat>): set<nat> {
    set x | x in s
  }

  function Obituary(tasks: seq<Task>, order: seq<nat>): seq<Event>
    requires forall i :: i in order ==> i < |tasks|
  {
    seq(|order|, j requires 0 <= j < |order| => assert order[j] in order; Reaped(tasks[order[j]].tid))
  }

  /** Freeing a list of tasks, in one formula. */
  ghost predicate Buried(k: Kernel, order: seq<nat>, k': Kernel)
    requires forall i :: i in order ==> i < |k.tasks|
  {
    && |k'.tasks| == |k.tasks|
    && (forall x :: 0 <= x < |k.tasks| ==>
          k'.tasks[x] == if x in order then k.tasks[x].(state := Grave(k, x)) else k.tasks[x])
    && |k'.lists| == |k.lists| == FREE_LIST + 1
    && (forall q :: 0 <= q < FREE_LIST ==> k'.lists[q] == Minus(k.lists[q], ToSet(order)))
    && k'.lists[FREE_LIST] == k.lists[FREE_LIST] + Minus(order, WornOut(k))
    && k' == k.(tasks := k'.tasks, lists := k'.lists, numTasks := k.numTasks - |order|,
                log := k.log + Obituary(k.tasks, order))
  }

  lemma {:induction false} ReapAllEffect(k: Kernel, order: seq<nat>)
    requires Tables(k) && NoDup(order) && forall i :: i in order ==> i < |k.tasks| && Listed(k.tasks[i])
    ensures Tables(ReapAll(k, order)) && Buried(k, order, ReapAll(k, order))
    decreases |order|
  {
    hide Slot, Partition, Ranked, Within, Tids, Ledger, ActiveIsCurrent, Buried, Reap;
    if order == [] {
      NobodyBuried(k);
    } else {
      var front, last := order[..|order| - 1], order[|order| - 1];
      assert last in order && forall i :: i in front ==> i in order && i != last;
      ReapAllEffect(k, front);
      var k1 := ReapAll(k, front);
      StillAlive(k, front, k1, last);
      ReapKeeps(k1, last);
      ReapStep(k, front, k1, last);
      assert order == front + [last];
    }
  }

  lemma StillAlive(k: Kernel, order: seq<nat>, k': Kernel, i: nat)
    requires (forall x :: x in order ==> x < |k.tasks|) && Buried(k, order, k') && i < |k.tasks| && i !in order
    ensures |k'.tasks| == |k.tasks| && k'.tasks[i] == k.tasks[i]
  {
  }

  lemma NobodyBuried(k: Kernel)
    requires WF(k)
    ensures Buried(k, [], k)
  {
    hide Ranked, Within;
    forall q | 0 <= q < FREE_LIST ensures Minus(k.lists[q], ToSet([])) == k.lists[q] {
      MinusNothing(k.lists[q], ToSet([]));
    }
  }

  /** One more task freed takes one more task out of every list. */
  lemma ReapStepList(k: Kernel, front: seq<nat>, k1: Kernel, last: nat, q: nat)
    requires WF(k) && WF(k1) && Partition(k1) && last < |k1.tasks| && Listed(k1.tasks[last]) && q < FREE_LIST
    requires |k.lists| == FREE_LIST + 1 && k1.lists[q] == Minus(k.lists[q], ToSet(front))
    ensures Delist(k1.lists, ListOf(k1.tasks[last].state, k1.tasks[last].priority), last)[q] ==
              Minus(k.lists[q], ToSet(front + [last]))
  {
    hide Partition, Ranked, Within;
    MinusMinus(k.lists[q], ToSet(front), {last});
    assert ToSet(front) + {last} == ToSet(front + [last]);
    if q != ListOf(k1.tasks[last].state, k1.tasks[last].priority) {
      NotElsewhere(k1, last, q);
      MinusNothing(k1.lists[q], {last});
    }
  }

  /** One more task freed extends the formula by one. */
  lemma ReapStep(k: Kernel, front: seq<nat>, k1: Kernel, last: nat)
    requires WF(k) && Tables(k1) && last < |k.tasks| && last !in front && Listed(k.tasks[last])
    requires forall i :: i in front ==> i < |k.tasks|
    requires Buried(k, front, k1)
    ensures forall i :: i in front + [last] ==> i < |k.tasks|
    ensures Buried(k, front + [last], Reap(k1, last))
  {
    hide Slot, Partition, Ranked, Within, Tids, Ledger, ActiveIsCurrent, Delist, ToSet, Minus, WornOut, Reap;
    var order := front + [last];
    ReapEffect(k1, last);
    MinusEnd(front, last, WornOut(k));
    SameWornOut(k, k1);
    forall q | 0 <= q < FREE_LIST ensures Reap(k1, last).lists[q] == Minus(k.lists[q], ToSet(order)) {
      ReapStepList(k, front, k1, last, q);
    }
    assert Obituary(k.tasks, order) == Obituary(k.tasks, front) + [Reaped(k.tasks[last].tid)];
  }

  lemma MinusEnd(front: seq<nat>, last: nat, out: set<nat>)
    ensures Minus(front + [last], out) == Minus(front, out) + if last in out then [] else [last]
  {
    assert (front + [last])[..|front|] == front;
  }

  lemma SameWornOut(k: Kernel, k': Kernel)
    requires |k'.tasks| == |k.tasks| && forall i :: 0 <= i < |k.tasks| ==> k'.tasks[i].tid == k.tasks[i].tid
    ensures WornOut(k') == WornOut(k)
  {
  }

  lemma NotElsewhere(k: Kernel, i: nat, q: nat)
    requires WF(k) && Partition(k) && i < |k.tasks| && Listed(k.tasks[i]) && q < FREE_LIST
    requires q != ListOf(k.tasks[i].state, k.tasks[i].priority)
    ensures forall x :: x in k.lists[q] ==> x !in {i}
  {
  }

  // ------------------------------------------------------------------ destroying a subtree

  /** The call is rejected, or every index the handler forms is inside its table: the target is
      neither free nor retired, and it has a parent. */
  predicate DestroyInBounds(k: Kernel, tid: int)
    requires WF(k)
  {
    var t := k.tasks[Slot(|k.tasks|, tid)];
    IsValidTid(tid) && t.tid == tid ==> Listed(t) && t.parentTid != -1
  }

  predicate Accepted(k: Kernel, tid: int)
    requires WF(k)
  {
    IsValidTid(tid) && k.tasks[Slot(|k.tasks|, tid)].tid == tid
  }

  /** No task of the subtree waits in a message queue or has messages waiting. */
  ghost predicate SubtreeQuiet(k: Kernel, tid: int)
    requires WF(k) && Forest(k)
  {
    forall x :: 0 <= x < |k.tasks| && Descends(k, Slot(|k.tasks|, tid), x) ==>
      k.mail[x] == [] && k.tasks[x].state != ReceiveBlocked
  }

  function DeathRow(k: Kernel, tid: int): (order: seq<nat>)
    requires WF(k)
    ensures forall x :: x in order ==> x < |k.tasks|
  {
    PostOrderWithin(k.kids, k.born, |k.log|, Slot(|k.tasks|, tid));
    PostOrder(k.kids, k.born, |k.log|, Slot(|k.tasks|, tid))
  }

  lemma DescendantsAreListed(k: Kernel, a: nat, d: nat)
    requires WF(k) && Forest(k) && a < |k.tasks| && d < |k.tasks| && Listed(k.tasks[a]) && Descends(k, a, d)
    ensures Listed(k.tasks[d])
  {
  }

  lemma SeveredWF(k: Kernel, i: nat, order: seq<nat>)
    requires WF(k) && i < |k.tasks|
    ensures WF(k.(kids := Severed(k.kids, i, order)))
  {
    hide Slot;
    var kids := Severed(k.kids, i, order);
    assert forall p, c {:trigger c in kids[p]} :: 0 <= p < |kids| && c in kids[p] ==> c in k.kids[p];
  }

  lemma SeveredTables(k: Kernel, i: nat, order: seq<nat>)
    requires Core(k) && i < |k.tasks|
    ensures Tables(k.(kids := Severed(k.kids, i, order)))
  {
    SeveredWF(k, i, order);
    hide Slot, Ranked, Within, Forest, Tids, Mail, Severed;
    var k1 := k.(kids := Severed(k.kids, i, order));
    PartitionKept(k, k1);
    TidsIndependent(k, k1);
    LedgerKept(k, k1);
  }

  lemma TidsIndependent(k: Kernel, k': Kernel)
    requires WF(k) && WF(k') && Tids(k) && k'.tasks == k.tasks
    ensures Tids(k')
  {
    hide Slot, Ranked, Within;
  }

  /** Descriptor i and everything below it is dead and childless; the rest is as it was, without i
      among anyone's children. */
  ghost predicate Cut(k: Kernel, i: nat, k': Kernel) {
    && WF(k) && Forest(k) && WF(k') && i < |k.tasks| && |k'.tasks| == |k.tasks|
    && (forall x :: 0 <= x < |k.tasks| ==>
          k'.tasks[x] == if Descends(k, i, x) then k.tasks[x].(state := Grave(k, x)) else k.tasks[x])
    && (forall x :: 0 <= x < |k.tasks| ==> k'.kids[x] == if Descends(k, i, x) then [] else Minus(k.kids[x], {i}))
    && k'.mail == k.mail && k'.msgs == k.msgs && k'.born == k.born && |k'.log| >= |k.log|
    && k'.current == k.current && k'.mem == k.mem && k'.words == k.words
  }

  lemma CutBySevering(k: Kernel, i: nat, order: seq<nat>, k': Kernel)
    requires WF(k) && Forest(k) && WF(k') && i < |k.tasks|
    requires forall x: nat :: x in order <==> x < |k.tasks| && Descends(k, i, x)
    requires Buried(k.(kids := Severed(k.kids, i, order)), order, k')
    ensures Cut(k, i, k')
  {
    hide Slot, Ranked, Within, Forest, Descends;
  }

  /** An accepted Destroy severs the subtree and frees it in post-order. */
  lemma DestroyEffect(k: Kernel, tid: int)
    requires Core(k) && Accepted(k, tid) && DestroyInBounds(k, tid)
    ensures var i, order := Slot(|k.tasks|, tid), DeathRow(k, tid);
            var k' := Destroy(k, tid).0;
            && NoDup(order) && (forall x: nat :: x in order <==> x < |k.tasks| && Descends(k, i, x))
            && Tables(k') && Buried(k.(kids := Severed(k.kids, i, order)), order, k')
            && Cut(k, i, k')
  {
    hide Slot, Ranked, Within, Partition, Tids, Forest, Mail, Ledger, ActiveIsCurrent, Severed, Descends;
    var i := Slot(|k.tasks|, tid);
    var order := DeathRow(k, tid);
    SubtreeIsDescendants(k, i);
    forall x | x in order ensures Listed(k.tasks[x]) {
      DescendantsAreListed(k, i, x);
    }
    SeveredTables(k, i, order);
    ReapAllEffect(k.(kids := Severed(k.kids, i, order)), order);
    CutBySevering(k, i, order, Destroy(k, tid).0);
  }

  lemma CutChildren(k: Kernel, i: nat, k': Kernel, p: nat)
    requires Cut(k, i, k') && Tids(k) && p < |k.tasks|
    ensures NoDup(k'.kids[p])
    ensures forall c :: c in k'.kids[p] ==>
              Listed(k'.tasks[p]) && Listed(k'.tasks[c]) && k'.tasks[c].parentTid == k'.tasks[p].tid
  {
    hide Slot, Tids, Descends;
    forall c | c in k'.kids[p]
      ensures Listed(k'.tasks[p]) && Listed(k'.tasks[c]) && k'.tasks[c].parentTid == k'.tasks[p].tid
    {
      assert c in k.kids[p] && c != i;
      SurvivingChild(k, i, p, c);
    }
  }

  lemma CutForest(k: Kernel, i: nat, k': Kernel)
    requires Cut(k, i, k') && Tids(k)
    ensures Forest(k')
  {
    hide Slot, Tids, Descends;
    forall p | 0 <= p < |k.tasks|
      ensures NoDup(k'.kids[p])
      ensures forall c :: c in k'.kids[p] ==>
                Listed(k'.tasks[p]) && Listed(k'.tasks[c]) && k'.tasks[c].parentTid == k'.tasks[p].tid
    {
      CutChildren(k, i, k', p);
    }
    forall c | 0 <= c < |k.tasks| && Listed(k'.tasks[c]) && k'.tasks[c].parentTid != -1
      ensures k'.tasks[c].parentTid >= 0 && c in k'.kids[Slot(|k'.tasks|, k'.tasks[c].parentTid)]
    {
      ParentIsElder(k, c);
      SurvivingParent(k, i, c);
    }
  }

  lemma SurvivingChild(k: Kernel, i: nat, p: nat, c: nat)
    requires WF(k) && Forest(k) && Tids(k) && i < |k.tasks| && p < |k.tasks| && c in k.kids[p] && c != i
    requires !Descends(k, i, p)
    ensures c < |k.tasks| && !Descends(k, i, c)
  {
    ParentOf(k, p, c);
  }

  lemma SurvivingParent(k: Kernel, i: nat, c: nat)
    requires WF(k) && Forest(k) && Tids(k) && i < |k.tasks| && c < |k.tasks| && Listed(k.tasks[c])
    requires k.tasks[c].parentTid != -1
    requires !Descends(k, i, c)
    ensures !Descends(k, i, Slot(|k.tasks|, k.tasks[c].parentTid)) && c != i
  {
  }

  lemma CutMailKept(k: Kernel, i: nat, k': Kernel)
    requires Cut(k, i, k') && Mail(k)
    requires forall x :: 0 <= x < |k.tasks| && Descends(k, i, x) ==>
               k.mail[x] == [] && k.tasks[x].state != ReceiveBlocked
    ensures Mail(k')
  {
    hide Slot, Ranked, Forest, Descends;
    forall q | 0 <= q < |k.tasks| ensures QueueOk(k', q) && RecordOk(k', q) {
      assert QueueOk(k, q) && RecordOk(k, q);
      InBox(k, q);
    }
  }

  lemma CutMailLost(k: Kernel, i: nat, k': Kernel, x: nat)
    requires Cut(k, i, k') && Mail(k) && x < |k.tasks| && Descends(k, i, x)
    requires k.mail[x] != [] || k.tasks[x].state == ReceiveBlocked
    ensures !Mail(k')
  {
    hide Slot, Ranked, Forest, Descends;
    assert RecordOk(k, x);
    FirstIn(k.mail[x]);
    var r := if k.mail[x] != [] then x else Slot(|k.tasks|, k.msgs[x].toTid);
    assert !Listed(k'.tasks[x]) && k'.mail[r] != [];
    assert !QueueOk(k', r);
  }

  /** Nothing refers to a destroyed subtree exactly when its tasks were in nobody's message queue and
      had nobody in theirs. */
  lemma DestroyMail(k: Kernel, tid: int)
    requires Core(k) && Accepted(k, tid) && DestroyInBounds(k, tid)
    ensures Mail(Destroy(k, tid).0) <==> SubtreeQuiet(k, tid)
  {
    DestroyEffect(k, tid);
    hide Destroy, Partition, Tids, Ledger, ActiveIsCurrent, Slot, Descends, Ranked, Forest, Mail, DeathRow, Cut;
    var i, k' := Slot(|k.tasks|, tid), Destroy(k, tid).0;
    if SubtreeQuiet(k, tid) {
      CutMailKept(k, i, k');
    } else {
      var x :| 0 <= x < |k.tasks| && Descends(k, i, x) && !(k.mail[x] == [] && k.tasks[x].state != ReceiveBlocked);
      CutMailLost(k, i, k', x);
    }
  }

  lemma DestroyKeeps(k: Kernel, tid: int)
    requires Core(k) && DestroyInBounds(k, tid)
    requires Accepted(k, tid) ==> SubtreeQuiet(k, tid)
    ensures Core(Destroy(k, tid).0)
  {
    hide Partition, Tids, Forest, Mail, Ledger, ActiveIsCurrent, Slot, Ranked, Within, Descends, SubtreeQuiet, Cut;
    if Accepted(k, tid) {
      DestroyEffect(k, tid);
      DestroyMail(k, tid);
      CutForest(k, Slot(|k.tasks|, tid), Destroy(k, tid).0);
    }
  }

  /** Exactly the task and its descendants are freed, each after everything below it; every other
      task and its children stay, but for the target's place among its siblings. */
  lemma DestroyExact(k: Kernel, tid: int)
    requires Core(k) && Accepted(k, tid) && DestroyInBounds(k, tid)
    ensures var i, order := Slot(|k.tasks|, tid), DeathRow(k, tid);
            && Destroy(k, tid).1 == OK && Cut(k, i, Destroy(k, tid).0)
            && NoDup(order) && (forall x: nat :: x in order <==> x < |k.tasks| && Descends(k, i, x))
            && ChildrenFirst(k, order)
  {
    hide Partition, Tids, Mail, Ledger, ActiveIsCurrent, Slot, Descends, Ranked, Forest, Within, Cut, Buried,
      ReapAll, ChildrenFirst;
    DestroyEffect(k, tid);
    BottomUp(k, Slot(|k.tasks|, tid));
  }

  /** Every list of the scheduler only loses the destroyed tasks, order kept, and their descriptors join the
      free list in the order of destruction, but for those whose tids are used up. */
  lemma DestroyLists(k: Kernel, tid: int)
    requires Core(k) && Accepted(k, tid) && DestroyInBounds(k, tid)
    ensures var order, k' := DeathRow(k, tid), Destroy(k, tid).0;
            && (forall q :: 0 <= q < FREE_LIST ==> k'.lists[q] == Minus(k.lists[q], ToSet(order)))
            && k'.lists[FREE_LIST] == k.lists[FREE_LIST] + Minus(order, WornOut(k))
            && k'.numTasks == k.numTasks - |order|
  {
    hide Slot, Ranked, Within, Partition, Tids, Forest, Mail, Ledger, ActiveIsCurrent, Severed, Descends, Destroy,
      DeathRow, Minus, WornOut, Cut;
    DestroyEffect(k, tid);
    SameWornOut(k, k.(kids := Severed(k.kids, Slot(|k.tasks|, tid), DeathRow(k, tid))));
  }

  lemma {:induction false} Transitive(k: Kernel, a: nat, b: nat, d: nat)
    requires WF(k) && Forest(k) && a < |k.tasks| && b < |k.tasks| && d < |k.tasks|
    requires Descends(k, a, b) && Descends(k, b, d)
    ensures Descends(k, a, d)
    decreases k.born[d]
  {
    hide Slot, Ranked;
    if d != b {
      ParentIsElder(k, d);
      Transitive(k, a, b, Slot(|k.tasks|, k.tasks[d].parentTid));
    }
  }

  /** Nobody in the list comes before a task below it. */
  ghost predicate ChildrenFirst(k: Kernel, order: seq<nat>)
    requires WF(k) && Forest(k) && forall x :: x in order ==> x < |k.tasks|
  {
    forall u, v {:trigger order[u], order[v]} :: 0 <= u < v < |order| ==> NotAbove(k, order[u], order[v])
  }

  ghost predicate NotAbove(k: Kernel, x: nat, y: nat)
    requires WF(k) && Forest(k)
  {
    x < |k.tasks| && y < |k.tasks| && !Descends(k, x, y)
  }

  lemma {:induction false} BottomUp(k: Kernel, a: nat)
    requires WF(k) && Forest(k) && Tids(k) && a < |k.tasks|
    ensures var order := PostOrder(k.kids, k.born, |k.log|, a);
            (forall x :: x in order ==> x < |k.tasks|) && ChildrenFirst(k, order)
    decreases |k.log| - k.born[a], 1, 0
  {
    hide Slot;
    var order := PostOrder(k.kids, k.born, |k.log|, a);
    PostOrderWithin(k.kids, k.born, |k.log|, a);
    PostOrdersBottomUp(k, a, k.kids[a]);
    PostOrdersWithin(k.kids, k.born, |k.log|, k.born[a], k.kids[a]);
    forall u, v | 0 <= u < v < |order| ensures NotAbove(k, order[u], order[v]) {
      var below := PostOrders(k.kids, k.born, |k.log|, k.born[a], k.kids[a]);
      assert order[u] == below[u] && below[u] in below;
      if v == |order| - 1 {
        if Descends(k, order[u], a) { DescendantsAreYounger(k, order[u], a); }
      } else {
        assert order[v] == below[v] && NotAbove(k, below[u], below[v]);
      }
    }
  }

  lemma {:induction false} PostOrdersBottomUp(k: Kernel, a: nat, cs: seq<nat>)
    requires WF(k) && Forest(k) && Tids(k) && a < |k.tasks| && NoDup(cs)
    requires forall d :: d in cs ==> d in k.kids[a] && d < |k.tasks| && k.born[a] < k.born[d]
    ensures var order := PostOrders(k.kids, k.born, |k.log|, k.born[a], cs);
            (forall x :: x in order ==> x < |k.tasks|) && ChildrenFirst(k, order)
    decreases |k.log| - k.born[a], 0, |cs|
  {
    hide Slot;
    var order := PostOrders(k.kids, k.born, |k.log|, k.born[a], cs);
    PostOrdersWithin(k.kids, k.born, |k.log|, k.born[a], cs);
    if cs != [] {
      assert cs[0] in cs && forall d :: d in cs[1..] ==> d in cs;
      var first := PostOrder(k.kids, k.born, |k.log|, cs[0]);
      var rest := PostOrders(k.kids, k.born, |k.log|, k.born[a], cs[1..]);
      BottomUp(k, cs[0]);
      PostOrdersBottomUp(k, a, cs[1..]);
      forall u, v | 0 <= u < v < |order| ensures NotAbove(k, order[u], order[v]) {
        if u < |first| <= v {
          assert order[u] == first[u] && first[u] in first;
          assert order[v] == rest[v - |first|] && rest[v - |first|] in rest;
          PostOrderDescends(k, cs[0], order[u]);
          var c := PostOrdersDescend(k, a, cs[1..], order[v]);
          if Descends(k, order[u], order[v]) {
            Transitive(k, cs[0], order[u], order[v]);
            SiblingsApart(k, a, cs[0], c, order[v]);
          }
        } else if v < |first| {
          assert order[u] == first[u] && order[v] == first[v] && NotAbove(k, first[u], first[v]);
        } else {
          var u', v' := u - |first|, v - |first|;
          assert order[u] == rest[u'] && order[v] == rest[v'] && NotAbove(k, rest[u'], rest[v']);
        }
      }
    }
  }
}
