/** The recursion of DestroyHandler over the children lists, seen from the outside: what has been
    freed after the first j children of a task. */
module KernelReaping {
  import opened Lists
  import opened KernelModel
  import opened KernelInvariant
  import opened KernelSteps
  import opened KernelDestroy

  // ------------------------------------------------------------------ freeing in pieces

  lemma {:induction false} ReapAllConcat(k: Kernel, a: seq<nat>, b: seq<nat>)
    requires WF(k) && forall i :: i in a + b ==> i < |k.tasks|
    ensures (forall i :: i in a ==> i < |k.tasks|) && (forall i :: i in b ==> i < |k.tasks|)
    ensures ReapAll(k, a + b) == ReapAll(ReapAll(k, a), b)
    decreases |b|
  {
    hide Ranked, Within, Reap, Slot;
    assert forall i :: i in a ==> i in a + b;
    assert forall i :: i in b ==> i in a + b;
    if b == [] {
      assert a + b == a;
    } else {
      var b' := b[..|b| - 1];
      assert forall i :: i in a + b' ==> i in a + b;
      assert (a + b)[..|a + b| - 1] == a + b';
      ReapAllConcat(k, a, b');
    }
  }

  lemma ReapKids(k: Kernel, kids: seq<seq<nat>>, i: nat)
    requires WF(k) && WF(k.(kids := kids)) && i < |k.tasks|
    ensures WF(Reap(k, i).(kids := kids)) && Reap(k.(kids := kids), i) == Reap(k, i).(kids := kids)
  {
    hide Within, Slot;
  }

  /** Freeing does not look at the children lists. */
  lemma {:induction false} ReapAllKids(k: Kernel, kids: seq<seq<nat>>, order: seq<nat>)
    requires WF(k) && WF(k.(kids := kids)) && forall i :: i in order ==> i < |k.tasks|
    ensures WF(ReapAll(k, order).(kids := kids))
    ensures ReapAll(k.(kids := kids), order) == ReapAll(k, order).(kids := kids)
    decreases |order|
  {
    hide Ranked, Within, Reap, Slot;
    if order != [] {
      var front, last := order[..|order| - 1], order[|order| - 1];
      assert last in order && forall i :: i in front ==> i in order;
      ReapAllKids(k, kids, front);
      ReapKids(ReapAll(k, front), kids, last);
    }
  }

  lemma TablesKids(k: Kernel, kids: seq<seq<nat>>)
    requires Tables(k) && WF(k.(kids := kids))
    ensures Tables(k.(kids := kids))
  {
    hide Ranked, Within, Partition, Tids, Ledger, Slot;
    var k' := k.(kids := kids);
    PartitionKept(k, k');
    TidsIndependent(k, k');
    LedgerKept(k, k');
  }

  // ------------------------------------------------------------------ the order in pieces

  lemma {:induction false} PostOrdersConcat(kids: seq<seq<nat>>, born: seq<nat>, bound: nat, above: nat,
                                            cs: seq<nat>, ds: seq<nat>)
    requires Ranked(kids, born, bound) && above <= bound
    requires forall c :: c in cs + ds ==> c < |kids| && above < born[c]
    ensures (forall c :: c in cs ==> c < |kids| && above < born[c])
    ensures (forall c :: c in ds ==> c < |kids| && above < born[c])
    ensures PostOrders(kids, born, bound, above, cs + ds)
         == PostOrders(kids, born, bound, above, cs) + PostOrders(kids, born, bound, above, ds)
    decreases |cs|
  {
    hide Ranked;
    assert forall c :: c in cs ==> c in cs + ds;
    assert forall c :: c in ds ==> c in cs + ds;
    if cs == [] {
      assert cs + ds == ds;
    } else {
      assert (cs + ds)[1..] == cs[1..] + ds && (cs + ds)[0] == cs[0];
      assert forall c :: c in cs[1..] + ds ==> c in cs + ds;
      PostOrdersConcat(kids, born, bound, above, cs[1..], ds);
    }
  }

  // ------------------------------------------------------------------ a subtree about to be freed

  /** The subtree of i in `kids`, the children lists when the destruction began, is still as it was
      then, everything in it is listed, and i is in its parent's list or in none. */
  ghost predicate Doomed(k: Kernel, kids: seq<seq<nat>>, bound: nat, i: nat) {
    && Tables(k) && Ranked(kids, k.born, bound) && |kids| == |k.tasks| && i < |k.tasks|
    && NoDup(PostOrder(kids, k.born, bound, i))
    && (forall x :: x in PostOrder(kids, k.born, bound, i) ==>
          x < |k.tasks| && Listed(k.tasks[x]) && k.tasks[x].parentTid >= 0 && k.kids[x] == kids[x])
    && (i in k.kids[Slot(|k.tasks|, k.tasks[i].parentTid)] || Absent(k.kids, i))
  }

  /** At the call of Destroy the whole subtree is as the invariant says. */
  lemma DoomedByDestroy(k: Kernel, tid: int)
    requires Core(k) && Accepted(k, tid) && DestroyInBounds(k, tid)
    ensures Doomed(k, k.kids, |k.log|, Slot(|k.tasks|, tid))
  {
    var i := Slot(|k.tasks|, tid);
    hide Slot, Partition, Tids, Ledger, Mail, Ranked, Within, Descends;
    SubtreeIsDescendants(k, i);
    forall x | x in PostOrder(k.kids, k.born, |k.log|, i) ensures Listed(k.tasks[x]) && k.tasks[x].parentTid >= 0 {
      DescendantsAreListed(k, i, x);
      DescendantsHaveParents(k, i, x);
    }
  }

  lemma DescendantsHaveParents(k: Kernel, a: nat, d: nat)
    requires WF(k) && Forest(k) && a < |k.tasks| && d < |k.tasks| && Listed(k.tasks[a])
    requires k.tasks[a].parentTid != -1 && Descends(k, a, d)
    ensures k.tasks[d].parentTid >= 0
  {
    hide Slot, Ranked, Within;
    DescendantsAreListed(k, a, d);
  }

  /** The subtree of i is severed and freed. */
  ghost predicate Freed(k: Kernel, kids: seq<seq<nat>>, bound: nat, i: nat, k': Kernel) {
    && WF(k) && Ranked(kids, k.born, bound) && i < |kids| == |k.tasks|
    && var order := PostOrder(kids, k.born, bound, i);
       && (forall x :: x in order ==> x < |k.tasks|)
       && WF(k.(kids := Severed(k.kids, i, order)))
       && k' == ReapAll(k.(kids := Severed(k.kids, i, order)), order)
  }

  // ------------------------------------------------------------------ after j children

  function Done(kids: seq<seq<nat>>, born: seq<nat>, bound: nat, i: nat, j: nat): seq<nat>
    requires Ranked(kids, born, bound) && i < |kids| && j <= |kids[i]|
  {
    assert forall c :: c in kids[i][..j] ==> c in kids[i];
    PostOrders(kids, born, bound, born[i], kids[i][..j])
  }

  lemma DoneNext(kids: seq<seq<nat>>, born: seq<nat>, bound: nat, i: nat, j: nat)
    requires Ranked(kids, born, bound) && i < |kids| && j < |kids[i]|
    ensures kids[i][j] < |kids| && born[i] < born[kids[i][j]]
    ensures Done(kids, born, bound, i, j + 1) ==
            Done(kids, born, bound, i, j) + PostOrder(kids, born, bound, kids[i][j])
  {
    var cs := kids[i];
    assert cs[j] in cs && forall c :: c in cs[..j + 1] ==> c in cs;
    assert cs[..j + 1] == cs[..j] + [cs[j]];
    assert forall c :: c in cs[..j] + [cs[j]] ==> c in cs;
    PostOrdersConcat(kids, born, bound, born[i], cs[..j], [cs[j]]);
    assert PostOrders(kids, born, bound, born[i], [cs[j]]) == PostOrder(kids, born, bound, cs[j]);
  }

  /** The whole order starts with what is done after j children. */
  lemma {:induction false} DoneIsPrefix(kids: seq<seq<nat>>, born: seq<nat>, bound: nat, i: nat, j: nat)
    requires Ranked(kids, born, bound) && i < |kids| && j <= |kids[i]|
    ensures Done(kids, born, bound, i, j) <= PostOrder(kids, born, bound, i)
    ensures Done(kids, born, bound, i, j) + [i] == PostOrder(kids, born, bound, i) || j < |kids[i]|
    decreases |kids[i]| - j
  {
    if j < |kids[i]| {
      DoneNext(kids, born, bound, i, j);
      DoneIsPrefix(kids, born, bound, i, j + 1);
    } else {
      assert kids[i][..j] == kids[i];
    }
  }

  /** After j children of i: their subtrees are freed and childless, i keeps `rest` of its children,
      and i is in nobody's list. */
  ghost predicate Partway(k0: Kernel, kids: seq<seq<nat>>, bound: nat, i: nat, j: nat, rest: seq<nat>, k: Kernel) {
    && Doomed(k0, kids, bound, i) && j <= |kids[i]|
    && PartwayTo(k0, i, Done(kids, k0.born, bound, i, j), rest, k)
  }

  ghost predicate PartwayTo(k0: Kernel, i: nat, done: seq<nat>, rest: seq<nat>, k: Kernel)
    requires WF(k0)
  {
    && (forall x :: x in done ==> x < |k0.tasks|)
    && WF(k) && k == ReapAll(k0, done).(kids := k.kids)
    && (forall p :: 0 <= p < |k0.tasks| ==>
          k.kids[p] == if p in done then [] else if p == i then rest else Minus(k0.kids[p], {i}))
  }

  lemma PartwayTables(k0: Kernel, kids: seq<seq<nat>>, bound: nat, i: nat, j: nat, rest: seq<nat>, k: Kernel)
    requires Partway(k0, kids, bound, i, j, rest, k)
    ensures Tables(k) && k.born == k0.born && |k.tasks| == |k0.tasks| && k.current == k0.current
    ensures forall x :: 0 <= x < |k.tasks| && x !in Done(kids, k0.born, bound, i, j) ==> k.tasks[x] == k0.tasks[x]
    ensures forall x :: 0 <= x < |k.tasks| ==> k.tasks[x].tid == k0.tasks[x].tid
  {
    hide Ranked, Within, Partition, Tids, Ledger, ActiveIsCurrent, Slot;
    var done := Done(kids, k0.born, bound, i, j);
    var order := PostOrder(kids, k0.born, bound, i);
    DoneIsPrefix(kids, k0.born, bound, i, j);
    assert NoDup(done) by { assert done == order[..|done|]; }
    ReapAllEffect(k0, done);
    TablesKids(ReapAll(k0, done), k.kids);
  }

  lemma Middle(order: seq<nat>, a: seq<nat>, b: seq<nat>)
    requires NoDup(order) && a + b <= order
    ensures NoDup(b) && forall x :: x in b ==> x in order && x !in a
  {
    assert forall u :: 0 <= u < |b| ==> b[u] == order[|a| + u];
    assert forall v :: 0 <= v < |a| ==> a[v] == order[v];
  }

  /** The next child's subtree is apart from what is done, and from the task itself. */
  lemma NextSubtree(kids: seq<seq<nat>>, born: seq<nat>, bound: nat, i: nat, j: nat)
    requires Ranked(kids, born, bound) && i < |kids| && j < |kids[i]| && NoDup(PostOrder(kids, born, bound, i))
    ensures kids[i][j] < |kids|
    ensures var sub := PostOrder(kids, born, bound, kids[i][j]);
            && NoDup(sub)
            && forall x :: x in sub ==>
                 && x in PostOrder(kids, born, bound, i) && x !in Done(kids, born, bound, i, j) && x != i
                 && x < |kids| && i !in kids[x]
  {
    DoneNext(kids, born, bound, i, j);
    DoneIsPrefix(kids, born, bound, i, j + 1);
    var c := kids[i][j];
    PostOrderWithin(kids, born, bound, c);
    hide PostOrder, Done, NoDup;
    Middle(PostOrder(kids, born, bound, i), Done(kids, born, bound, i, j), PostOrder(kids, born, bound, c));
  }

  lemma NextIsDoomed(k0: Kernel, kids: seq<seq<nat>>, bound: nat, i: nat, j: nat, k: Kernel)
    requires i < |kids| && j < |kids[i]| && Partway(k0, kids, bound, i, j, kids[i][j + 1..], k)
    requires Absent(k.kids, kids[i][j])
    ensures Doomed(k, kids, bound, kids[i][j])
  {
    PartwayTables(k0, kids, bound, i, j, kids[i][j + 1..], k);
    NextSubtree(kids, k0.born, bound, i, j);
    hide Tables, Slot, Ranked, Within;
    forall x | x in PostOrder(kids, k0.born, bound, kids[i][j])
      ensures Listed(k.tasks[x]) && k.tasks[x].parentTid >= 0 && k.kids[x] == kids[x]
    {
      MinusNothing(k0.kids[x], {i});
    }
  }

  /** One more subtree freed, its root having left all lists. */
  lemma FurtherOn(k0: Kernel, i: nat, done: seq<nat>, rest: seq<nat>, k: Kernel, c: nat, sub: seq<nat>)
    requires WF(k0) && PartwayTo(k0, i, done, rest, k) && Absent(k.kids, c) && i !in sub
    requires c < |k0.tasks| && (forall x :: x in sub ==> x < |k.tasks|)
    ensures WF(k.(kids := Severed(k.kids, c, sub)))
    ensures PartwayTo(k0, i, done + sub, rest, ReapAll(k.(kids := Severed(k.kids, c, sub)), sub))
  {
    hide Ranked, Within, Slot, Reap;
    var severed := Severed(k.kids, c, sub);
    SeveredWF(k, c, sub);
    SeveredAbsent(k.kids, c, sub);
    hide Severed;
    var r := ReapAll(k0, done);
    assert k.(kids := severed) == r.(kids := severed);
    ReapAllConcat(k0, done, sub);
    ReapAllKids(r, severed, sub);
  }

  lemma SeveredAbsent(kids: seq<seq<nat>>, c: nat, order: seq<nat>)
    requires Absent(kids, c)
    ensures |Severed(kids, c, order)| == |kids|
    ensures forall p :: 0 <= p < |kids| ==> Severed(kids, c, order)[p] == if p in order then [] else kids[p]
  {
    forall p | 0 <= p < |kids| ensures Minus(kids[p], {c}) == kids[p] {
      MinusNothing(kids[p], {c});
    }
  }

  /** Freeing the next child's subtree is one more step of the way. */
  lemma PartwayStep(k0: Kernel, kids: seq<seq<nat>>, bound: nat, i: nat, j: nat, k: Kernel)
    requires i < |kids| && j < |kids[i]| && Partway(k0, kids, bound, i, j, kids[i][j + 1..], k)
    requires Absent(k.kids, kids[i][j]) && Doomed(k, kids, bound, kids[i][j]) && k.born == k0.born
    ensures forall k' :: Freed(k, kids, bound, kids[i][j], k') ==>
              Partway(k0, kids, bound, i, j + 1, kids[i][j + 1..], k')
  {
    NextSubtree(kids, k0.born, bound, i, j);
    DoneNext(kids, k0.born, bound, i, j);
    hide Partition, Tids, Ledger, ActiveIsCurrent, Slot, Ranked, Within, ReapAll, PostOrder, Done, NoDup, Severed,
      PartwayTo, Absent;
    FurtherOn(k0, i, Done(kids, k0.born, bound, i, j), kids[i][j + 1..], k, kids[i][j],
              PostOrder(kids, k0.born, bound, kids[i][j]));
  }

  lemma NotYetDone(k0: Kernel, kids: seq<seq<nat>>, bound: nat, i: nat, j: nat, rest: seq<nat>, k: Kernel)
    requires Partway(k0, kids, bound, i, j, rest, k)
    ensures i !in Done(kids, k0.born, bound, i, j) && k.kids[i] == rest && i < |k.tasks|
  {
    hide Partition, Tids, Ledger, ActiveIsCurrent, Slot, NoDup;
    assert forall c :: c in kids[i][..j] ==> c in kids[i];
    PostOrdersWithin(kids, k0.born, bound, k0.born[i], kids[i][..j]);
  }

  lemma FewerKids(k: Kernel, kids': seq<seq<nat>>)
    requires WF(k) && |kids'| == |k.kids|
    requires forall p, c {:trigger c in kids'[p]} :: 0 <= p < |kids'| && c in kids'[p] ==> c in k.kids[p]
    ensures WF(k.(kids := kids'))
  {
  }

  /** The next child leaves the list. */
  lemma PartwayDequeue(k0: Kernel, kids: seq<seq<nat>>, bound: nat, i: nat, j: nat, rest: seq<nat>, k: Kernel,
                       rest': seq<nat>)
    requires Partway(k0, kids, bound, i, j, rest, k) && i < |k.kids|
    requires forall x :: x in rest' ==> x in rest
    ensures Partway(k0, kids, bound, i, j, rest', k.(kids := k.kids[i := rest']))
  {
    NotYetDone(k0, kids, bound, i, j, rest, k);
    hide Partition, Tids, Ledger, ActiveIsCurrent, Slot, NoDup, Done, ReapAll, Ranked, Within;
    FewerKids(k, k.kids[i := rest']);
  }

  /** i has just left its parent's list. */
  lemma PartwayStart(k0: Kernel, kids: seq<seq<nat>>, bound: nat, i: nat, parent: nat)
    requires Doomed(k0, kids, bound, i) && parent == Slot(|k0.tasks|, k0.tasks[i].parentTid) && Apart(k0.kids)
    ensures Partway(k0, kids, bound, i, 0, kids[i], k0.(kids := k0.kids[parent := Minus(k0.kids[parent], {i})]))
  {
    hide Partition, Tids, Ledger, ActiveIsCurrent, Slot, NoDup;
    var kids' := k0.kids[parent := Minus(k0.kids[parent], {i})];
    assert i in PostOrder(kids, k0.born, bound, i);
    assert i !in kids[i];
    assert kids[i][..0] == [];
    forall p | 0 <= p < |k0.tasks| && p != i ensures kids'[p] == Minus(k0.kids[p], {i}) {
      if p != parent { MinusNothing(k0.kids[p], {i}); }
    }
    MinusNothing(kids[i], {i});
    FewerKids(k0, kids');
  }

  lemma DoneThenSelf(kids: seq<seq<nat>>, born: seq<nat>, bound: nat, i: nat)
    requires Ranked(kids, born, bound) && i < |kids|
    ensures Done(kids, born, bound, i, |kids[i]|) + [i] == PostOrder(kids, born, bound, i)
  {
    DoneIsPrefix(kids, born, bound, i, |kids[i]|);
  }

  /** With all children done, freeing i itself completes the destruction. */
  lemma PartwayFinish(k0: Kernel, kids: seq<seq<nat>>, bound: nat, i: nat, k: Kernel)
    requires i < |kids| && Partway(k0, kids, bound, i, |kids[i]|, [], k)
    ensures i < |k.tasks| && WF(k) && Freed(k0, kids, bound, i, Reap(k, i))
  {
    hide Partition, Tids, Ledger, ActiveIsCurrent, Slot, NoDup, Done, PostOrder, Ranked, Within, Reap;
    var done, order := Done(kids, k0.born, bound, i, |kids[i]|), PostOrder(kids, k0.born, bound, i);
    DoneThenSelf(kids, k0.born, bound, i);
    var severed := Severed(k0.kids, i, order);
    SeveredWF(k0, i, order);
    assert k.kids == severed;
    hide Severed;
    ReapKids(ReapAll(k0, done), severed, i);
    ReapAllKids(k0, severed, order);
    assert order[..|order| - 1] == done;
  }

  lemma DoomedFacts(k: Kernel, kids: seq<seq<nat>>, bound: nat, i: nat)
    requires Doomed(k, kids, bound, i)
    ensures i < |k.tasks| && Tables(k) && Slot(|k.tasks|, k.tasks[i].tid) == i && Listed(k.tasks[i])
    ensures Accepted(k, k.tasks[i].tid) && k.born[i] <= bound && |kids| == |k.tasks|
  {
    assert i in PostOrder(kids, k.born, bound, i);
    OwnSlot(k, i);
    hide Partition, Ledger, Slot, NoDup, PostOrder;
  }

  /** The next child to be destroyed: its subtree is intact, and it is younger. */
  lemma NextChildFacts(k0: Kernel, kids: seq<seq<nat>>, bound: nat, i: nat, j: nat, k: Kernel)
    requires i < |kids| && j < |kids[i]| && Partway(k0, kids, bound, i, j, kids[i][j + 1..], k)
    requires Absent(k.kids, kids[i][j])
    ensures WF(k) && Doomed(k, kids, bound, kids[i][j]) && k.born == k0.born && k.current == k0.current
    ensures |k.tasks| == |k0.tasks|
    ensures var tid := k.tasks[kids[i][j]].tid;
            Accepted(k, tid) && Slot(|k.tasks|, tid) == kids[i][j] && k0.born[i] < k0.born[kids[i][j]] <= bound
    ensures forall k' :: Freed(k, kids, bound, kids[i][j], k') ==>
              Partway(k0, kids, bound, i, j + 1, kids[i][j + 1..], k')
  {
    PartwayTables(k0, kids, bound, i, j, kids[i][j + 1..], k);
    NextIsDoomed(k0, kids, bound, i, j, k);
    DoomedFacts(k, kids, bound, kids[i][j]);
    DoneNext(kids, k0.born, bound, i, j);
    PartwayStep(k0, kids, bound, i, j, k);
  }
}
