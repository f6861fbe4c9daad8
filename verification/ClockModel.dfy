/** The clock server as a value: who waits for which tick, and who was told what. */
module ClockModel {

  /** One delay: who asked, until which tick, the how-manieth delay it is, and the tick at which it was asked. */
  datatype Entry = Entry(tid: nat, deadline: int, serial: nat, at: int)

  /** The reply that ends a delay, and the tick at which it was given. */
  datatype Woken = Woken(entry: Entry, tick: int)

  /** Replies given on the spot. */
  datatype Answer = TimeIs(tid: nat, ticks: int) | Ticked(tid: nat)

  /** `asked`: every delay ever asked for. `woken` and `answers`: every reply ever given. */
  datatype Clock = Clock(ticks: int, queue: seq<Entry>, asked: seq<Entry>, woken: seq<Woken>, answers: seq<Answer>)

  datatype Request =
    | Time(tid: nat) | Delay(tid: nat, ticks: int) | DelayUntil(tid: nat, deadline: int)
    | Tick(tid: nat) | Unknown(tid: nat)

  const INIT := Clock(0, [], [], [], [])

  /** How many waiting entries an insertion walks past: all whose deadline is not later. */
  function Place(q: seq<Entry>, deadline: int): (k: nat)
    ensures k <= |q|
    ensures forall i :: 0 <= i < k ==> q[i].deadline <= deadline
    ensures k < |q| ==> q[k].deadline > deadline
  {
    if q == [] || q[0].deadline > deadline then 0 else 1 + Place(q[1..], deadline)
  }

  function Insert(q: seq<Entry>, e: Entry): seq<Entry> {
    q[..Place(q, e.deadline)] + [e] + q[Place(q, e.deadline)..]
  }

  function Ask(c: Clock, tid: nat, deadline: int): Clock {
    var e := Entry(tid, deadline, |c.asked|, c.ticks);
    c.(queue := Insert(c.queue, e), asked := c.asked + [e])
  }

  /** The switch over the request type. */
  function Accept(c: Clock, req: Request): Clock {
    match req
    case Time(tid) => c.(answers := c.answers + [TimeIs(tid, c.ticks)])
    case Delay(tid, ticks) => Ask(c, tid, ticks + c.ticks)
    case DelayUntil(tid, deadline) => Ask(c, tid, deadline)
    case Tick(tid) => c.(ticks := c.ticks + 1, answers := c.answers + [Ticked(tid)])
    case Unknown(_) => c
  }

  predicate HeadIsDue(c: Clock) {
    c.queue != [] && c.queue[0].deadline <= c.ticks
  }

  function WakeHead(c: Clock): Clock
    requires c.queue != []
  {
    c.(queue := c.queue[1..], woken := c.woken + [Woken(c.queue[0], c.ticks)])
  }

  /** The loop that replies to the tasks at the head of the queue while they are due. */
  function Release(c: Clock): Clock
    decreases |c.queue|
  {
    if HeadIsDue(c) then Release(WakeHead(c)) else c
  }

  function Step(c: Clock, req: Request): Clock {
    Release(Accept(c, req))
  }

  /** A task that waits in the queue is blocked on its request and makes no other. */
  predicate Enabled(c: Clock, req: Request) {
    forall i :: 0 <= i < |c.queue| ==> c.queue[i].tid != req.tid
  }

  function Run(reqs: seq<Request>): Clock {
    if reqs == [] then INIT else Step(Run(reqs[..|reqs| - 1]), reqs[|reqs| - 1])
  }

  // ------------------------------------------------------------------ what the requests alone say

  /** What time it is. */
  function TicksIn(reqs: seq<Request>): nat {
    if reqs == [] then 0 else TicksIn(reqs[..|reqs| - 1]) + if reqs[|reqs| - 1].Tick? then 1 else 0
  }

  /** The delays asked for, in order, each with the time it is to end at and the time it was asked for at. */
  function DelaysIn(reqs: seq<Request>): seq<Entry> {
    if reqs == [] then []
    else
      var front := reqs[..|reqs| - 1];
      DelaysIn(front) +
      match reqs[|reqs| - 1]
      case Delay(tid, ticks) => [Entry(tid, TicksIn(front) + ticks, |DelaysIn(front)|, TicksIn(front))]
      case DelayUntil(tid, deadline) => [Entry(tid, deadline, |DelaysIn(front)|, TicksIn(front))]
      case _ => []
  }

  /** The replies given on the spot, in order: to whoever asks for the time, the number of ticks so far,
      and to the notifier of each tick. */
  function AnswersIn(reqs: seq<Request>): seq<Answer> {
    if reqs == [] then []
    else
      var front := reqs[..|reqs| - 1];
      AnswersIn(front) +
      match reqs[|reqs| - 1]
      case Time(tid) => [TimeIs(tid, TicksIn(front))]
      case Tick(tid) => [Ticked(tid)]
      case _ => []
  }

  /** What the server counts, remembers and answers is what the requests say. */
  lemma {:induction false} RunReadsRequests(reqs: seq<Request>)
    ensures var c := Run(reqs);
            c.ticks == TicksIn(reqs) && c.asked == DelaysIn(reqs) && c.answers == AnswersIn(reqs)
  {
    if reqs != [] {
      var front, req := reqs[..|reqs| - 1], reqs[|reqs| - 1];
      RunReadsRequests(front);
      ReleaseAnswersBatch(Accept(Run(front), req));
    }
  }

  predicate Legal(reqs: seq<Request>) {
    reqs == [] || (Legal(reqs[..|reqs| - 1]) && Enabled(Run(reqs[..|reqs| - 1]), reqs[|reqs| - 1]))
  }

  // ------------------------------------------------------------------ the queue is a set of entries in its one order

  /** Earlier deadline first; among equals the earlier request. */
  predicate Before(a: Entry, b: Entry) {
    a.deadline < b.deadline || (a.deadline == b.deadline && a.serial < b.serial)
  }

  ghost predicate Sorted(q: seq<Entry>) {
    forall i, j :: 0 <= i < j < |q| ==> Before(q[i], q[j])
  }

  ghost function Entries(q: seq<Entry>): set<Entry> {
    set e | e in q
  }

  lemma InsertAddsOne(q: seq<Entry>, e: Entry)
    ensures multiset(Insert(q, e)) == multiset(q) + multiset{e}
    ensures forall x :: x in Insert(q, e) <==> x in q || x == e
  {
    var k := Place(q, e.deadline);
    assert q == q[..k] + q[k..];
    assert forall x :: x in q <==> x in q[..k] || x in q[k..];
  }

  /** An entry younger than all others goes behind every equal deadline. */
  lemma InsertKeepsOrder(q: seq<Entry>, e: Entry)
    requires Sorted(q) && forall x :: x in q ==> x.serial < e.serial
    ensures Sorted(Insert(q, e))
  {
    hide Place;
    var k := Place(q, e.deadline);
    var r := Insert(q, e);
    assert forall i :: 0 <= i < k ==> r[i] == q[i];
    assert forall j :: k < j < |r| ==> r[j] == q[j - 1];
    forall i | 0 <= i < |q| ensures if i < k then Before(q[i], e) else Before(e, q[i]) {
      assert q[i] in q;
      assert k < i ==> Before(q[k], q[i]);
    }
  }

  /** A set of entries has only one order. */
  lemma {:induction false} OneOrder(q: seq<Entry>, r: seq<Entry>)
    requires Sorted(q) && Sorted(r) && Entries(q) == Entries(r)
    ensures q == r
    decreases |q|
  {
    if q == [] || r == [] {
      FirstIsIn(q);
      FirstIsIn(r);
    } else {
      FirstIsIn(q);
      FirstIsIn(r);
      var i :| 0 <= i < |r| && r[i] == q[0];
      var j :| 0 <= j < |q| && q[j] == r[0];
      assert q[0] == r[0];
      forall e: Entry ensures e in Entries(q[1..]) <==> e in Entries(r[1..]) {
        TailEntries(q, e);
        TailEntries(r, e);
      }
      OneOrder(q[1..], r[1..]);
    }
  }

  lemma FirstIsIn(q: seq<Entry>)
    ensures q != [] ==> q[0] in Entries(q)
  {
  }

  lemma TailEntries(q: seq<Entry>, e: Entry)
    requires Sorted(q) && q != []
    ensures e in Entries(q[1..]) <==> e in Entries(q) && e != q[0]
  {
    assert q == [q[0]] + q[1..];
  }

  /** The entries released from c, in the order of their replies. */
  function Batch(c: Clock): seq<Entry>
    decreases |c.queue|
  {
    if HeadIsDue(c) then [c.queue[0]] + Batch(WakeHead(c)) else []
  }

  function WokenAt(q: seq<Entry>, tick: int): seq<Woken> {
    seq(|q|, i requires 0 <= i < |q| => Woken(q[i], tick))
  }

  /** Release answers a prefix of the queue, and it is the part that is due. */
  lemma ReleaseSplits(c: Clock)
    requires Sorted(c.queue)
    ensures c.queue == Batch(c) + Release(c).queue
    ensures Release(c) == c.(queue := Release(c).queue, woken := c.woken + WokenAt(Batch(c), c.ticks))
    ensures forall i :: 0 <= i < |Batch(c)| ==> Batch(c)[i].deadline <= c.ticks
    ensures forall i :: 0 <= i < |Release(c).queue| ==> Release(c).queue[i].deadline > c.ticks
  {
    hide Batch, Release, WokenAt, Sorted;
    ReleaseTakesBatch(c);
    ReleaseAnswersBatch(c);
    BatchIsDue(c);
  }

  lemma HeadInFront(q: seq<Entry>, a: seq<Entry>, b: seq<Entry>)
    requires q != [] && q[1..] == a + b
    ensures q == ([q[0]] + a) + b
  {
    assert q == [q[0]] + (a + b);
  }

  lemma {:induction false} ReleaseTakesBatch(c: Clock)
    ensures c.queue == Batch(c) + Release(c).queue
    decreases |c.queue|
  {
    if HeadIsDue(c) {
      ReleaseTakesBatch(WakeHead(c));
      HeadInFront(c.queue, Batch(WakeHead(c)), Release(WakeHead(c)).queue);
      assert Batch(c) == [c.queue[0]] + Batch(WakeHead(c)) && Release(c) == Release(WakeHead(c));
    }
  }

  lemma {:induction false} ReleaseAnswersBatch(c: Clock)
    ensures Release(c) == c.(queue := Release(c).queue, woken := c.woken + WokenAt(Batch(c), c.ticks))
    decreases |c.queue|
  {
    if HeadIsDue(c) {
      var head, rest := c.queue[0], Batch(WakeHead(c));
      ReleaseAnswersBatch(WakeHead(c));
      assert WokenAt([head] + rest, c.ticks) == [Woken(head, c.ticks)] + WokenAt(rest, c.ticks);
    }
  }

  lemma {:induction false} BatchIsDue(c: Clock)
    requires Sorted(c.queue)
    ensures forall i :: 0 <= i < |Batch(c)| ==> Batch(c)[i].deadline <= c.ticks
    ensures forall i :: 0 <= i < |Release(c).queue| ==> Release(c).queue[i].deadline > c.ticks
    decreases |c.queue|
  {
    if HeadIsDue(c) {
      BatchIsDue(WakeHead(c));
    } else if c.queue != [] {
      NoneDue(c.queue, c.ticks);
    }
  }

  lemma NoneDue(q: seq<Entry>, ticks: int)
    requires Sorted(q) && q != [] && q[0].deadline > ticks
    ensures forall i :: 0 <= i < |q| ==> q[i].deadline > ticks
  {
    assert forall i :: 0 < i < |q| ==> Before(q[0], q[i]);
  }

  /** What the step does to the plain set of waiting entries. */
  ghost function Wanted(c: Clock, req: Request): set<Entry> {
    Entries(c.queue) +
    match req
    case Delay(tid, ticks) => {Entry(tid, ticks + c.ticks, |c.asked|, c.ticks)}
    case DelayUntil(tid, deadline) => {Entry(tid, deadline, |c.asked|, c.ticks)}
    case _ => {}
  }

  /** One request on the sorted list is one request on a plain set of entries: a delay adds its
      entry, exactly the entries that are due leave, and they are replied to by deadline, the earlier
      request first among equals. */
  lemma StepRefinesSet(c: Clock, req: Request)
    requires Books(c)
    ensures var c', batch, wanted := Step(c, req), Batch(Accept(c, req)), Wanted(c, req);
            && Sorted(c'.queue) && Entries(c'.queue) == (set e | e in wanted && e.deadline > c'.ticks)
            && Sorted(batch) && Entries(batch) == (set e | e in wanted && e.deadline <= c'.ticks)
            && c'.woken == c.woken + WokenAt(batch, c'.ticks)
  {
    hide Accept, Wanted, Release, Batch, Entries, Sorted, WokenAt, Ended;
    AcceptAdds(c, req);
    AcceptKeepsBooks(c, req);
    var a := Accept(c, req);
    ReleaseSplits(a);
    SplitByDeadline(a.queue, Batch(a), Release(a).queue, a.ticks);
  }

  lemma AcceptAdds(c: Clock, req: Request)
    ensures Entries(Accept(c, req).queue) == Wanted(c, req) && Accept(c, req).woken == c.woken
  {
    if req.Delay? || req.DelayUntil? {
      var e := Accept(c, req).asked[|c.asked|];
      InsertAddsOne(c.queue, e);
    }
  }

  lemma SplitByDeadline(q: seq<Entry>, a: seq<Entry>, b: seq<Entry>, ticks: int)
    requires Sorted(q) && q == a + b
    requires forall i :: 0 <= i < |a| ==> a[i].deadline <= ticks
    requires forall i :: 0 <= i < |b| ==> b[i].deadline > ticks
    ensures Sorted(a) && Entries(a) == set e | e in Entries(q) && e.deadline <= ticks
    ensures Sorted(b) && Entries(b) == set e | e in Entries(q) && e.deadline > ticks
  {
    assert forall i :: 0 <= i < |a| ==> a[i] == q[i];
    assert forall i :: 0 <= i < |b| ==> b[i] == q[|a| + i];
    assert forall e :: e in q <==> e in a || e in b;
  }

  // ------------------------------------------------------------------ every delay ends once, at the right tick

  function Max(a: int, b: int): int {
    if a < b then b else a
  }

  function Ended(woken: seq<Woken>): seq<Entry> {
    seq(|woken|, i requires 0 <= i < |woken| => woken[i].entry)
  }

  /** Every delay asked for is either still waiting or was answered, once, and then not before its
      deadline but as soon as that had come. */
  ghost predicate Books(c: Clock) {
    && Sorted(c.queue)
    && multiset(c.queue) + multiset(Ended(c.woken)) == multiset(c.asked)
    && (forall s :: 0 <= s < |c.asked| ==> c.asked[s].serial == s && c.asked[s].at <= c.ticks)
    && (forall i :: 0 <= i < |c.woken| ==> c.woken[i].tick == Max(c.woken[i].entry.deadline, c.woken[i].entry.at))
  }

  /** Nothing due is left waiting. */
  ghost predicate Current(c: Clock) {
    forall e :: e in c.queue ==> e.deadline > c.ticks
  }

  /** Whatever is due became so with this very tick, or was due when it was asked for. */
  ghost predicate OnTime(c: Clock) {
    forall e :: e in c.queue && e.deadline <= c.ticks ==> c.ticks == Max(e.deadline, e.at)
  }

  /** No task waits twice. */
  ghost predicate OneEach(c: Clock) {
    forall i, j :: 0 <= i < j < |c.queue| ==> c.queue[i].tid != c.queue[j].tid
  }

  lemma WaitingWasAsked(c: Clock, e: Entry)
    requires Books(c) && e in c.queue
    ensures e.serial < |c.asked| && c.asked[e.serial] == e
  {
    assert e in multiset(c.queue);
    assert e in multiset(c.asked);
  }

  lemma AskKeepsBooks(c: Clock, tid: nat, deadline: int)
    requires Books(c)
    ensures Books(Ask(c, tid, deadline))
  {
    hide Insert, Sorted, Place, Ended;
    var e := Entry(tid, deadline, |c.asked|, c.ticks);
    forall x | x in c.queue ensures x.serial < |c.asked| {
      WaitingWasAsked(c, x);
    }
    InsertKeepsOrder(c.queue, e);
    InsertAddsOne(c.queue, e);
    var q, w, k := multiset(c.queue), multiset(Ended(c.woken)), multiset(c.asked);
    assert multiset(Insert(c.queue, e)) + w == k + multiset{e};
    assert multiset(c.asked + [e]) == k + multiset{e};
  }

  lemma AskIsOnTime(c: Clock, tid: nat, deadline: int)
    ensures Current(c) ==> OnTime(Ask(c, tid, deadline))
  {
    InsertAddsOne(c.queue, Entry(tid, deadline, |c.asked|, c.ticks));
  }

  lemma AcceptKeepsBooks(c: Clock, req: Request)
    requires Books(c)
    ensures Books(Accept(c, req))
    ensures Current(c) ==> OnTime(Accept(c, req))
  {
    hide Books, OnTime, Ask, Current;
    match req {
      case Delay(tid, ticks) =>
        AskKeepsBooks(c, tid, ticks + c.ticks);
        AskIsOnTime(c, tid, ticks + c.ticks);
      case DelayUntil(tid, deadline) =>
        AskKeepsBooks(c, tid, deadline);
        AskIsOnTime(c, tid, deadline);
      case _ => NoDelay(c, req);
    }
  }

  lemma NoDelay(c: Clock, req: Request)
    requires Books(c) && !req.Delay? && !req.DelayUntil?
    ensures Books(Accept(c, req))
    ensures Current(c) ==> OnTime(Accept(c, req))
  {
    hide Sorted, Ended;
    forall e | e in c.queue ensures e.at <= c.ticks {
      WaitingWasAsked(c, e);
    }
  }

  lemma InsertSpares(q: seq<Entry>, e: Entry)
    requires forall i, j :: 0 <= i < j < |q| ==> q[i].tid != q[j].tid
    requires forall i :: 0 <= i < |q| ==> q[i].tid != e.tid
    ensures var r := Insert(q, e); forall i, j :: 0 <= i < j < |r| ==> r[i].tid != r[j].tid
  {
    hide Place;
    var k, r := Place(q, e.deadline), Insert(q, e);
    assert forall i :: 0 <= i < k ==> r[i] == q[i];
    assert forall j :: k < j < |r| ==> r[j] == q[j - 1];
  }

  lemma AcceptKeepsOneEach(c: Clock, req: Request)
    requires OneEach(c) && Enabled(c, req)
    ensures OneEach(Accept(c, req))
  {
    hide Insert;
    if req.Delay? || req.DelayUntil? {
      var a := Accept(c, req);
      var e := a.asked[|c.asked|];
      InsertSpares(c.queue, e);
    }
  }

  lemma WakeHeadKeepsBooks(c: Clock)
    requires Books(c) && OnTime(c) && HeadIsDue(c)
    ensures Books(WakeHead(c)) && OnTime(WakeHead(c))
    ensures OneEach(c) ==> OneEach(WakeHead(c))
  {
    var e, c' := c.queue[0], WakeHead(c);
    assert c.queue == [e] + c'.queue;
    assert Ended(c'.woken) == Ended(c.woken) + [e];
  }

  lemma {:induction false} ReleaseKeepsBooks(c: Clock)
    requires Books(c) && OnTime(c)
    ensures Books(Release(c)) && Current(Release(c))
    ensures OneEach(c) ==> OneEach(Release(c))
    decreases |c.queue|
  {
    if HeadIsDue(c) {
      WakeHeadKeepsBooks(c);
      ReleaseKeepsBooks(WakeHead(c));
    } else if c.queue != [] {
      NoneDue(c.queue, c.ticks);
    }
  }

  /** After any sequence of requests: the queue is sorted and holds only deadlines still to come, no
      task waits in it twice, and every delay asked for so far is either in it or was answered,
      exactly once, at its deadline, or on the spot if that had passed. */
  lemma {:induction false} EveryRunKeepsBooks(reqs: seq<Request>)
    requires Legal(reqs)
    ensures Books(Run(reqs)) && Current(Run(reqs)) && OneEach(Run(reqs))
  {
    if reqs != [] {
      var front, req := reqs[..|reqs| - 1], reqs[|reqs| - 1];
      EveryRunKeepsBooks(front);
      AcceptKeepsBooks(Run(front), req);
      AcceptKeepsOneEach(Run(front), req);
      ReleaseKeepsBooks(Accept(Run(front), req));
    }
  }

  /** So the number of replies a delay has had, plus the places it waits in, is one; and a task is never
      woken early. */
  lemma AnsweredOnce(reqs: seq<Request>, s: nat)
    requires Legal(reqs) && s < |DelaysIn(reqs)|
    ensures var c, e := Run(reqs), DelaysIn(reqs)[s];
            && multiset(c.queue)[e] + multiset(Ended(c.woken))[e] == 1
            && (e in c.queue <==> e.deadline > TicksIn(reqs))
  {
    hide Run, Books, Current, OneEach, Legal, DelaysIn, AnswersIn, TicksIn, Ended;
    RunReadsRequests(reqs);
    EveryRunKeepsBooks(reqs);
    var c := Run(reqs);
    OnlyOnce(c.asked, s);
    forall i | 0 <= i < |c.woken| ensures c.woken[i].tick <= c.ticks { TicksOnlyGrow(reqs, i); }
    BooksOfOne(c, s);
  }

  lemma BooksOfOne(c: Clock, s: nat)
    requires Books(c) && Current(c) && s < |c.asked| && multiset(c.asked)[c.asked[s]] == 1
    requires forall i :: 0 <= i < |c.woken| ==> c.woken[i].tick <= c.ticks
    ensures var e := c.asked[s];
            && multiset(c.queue)[e] + multiset(Ended(c.woken))[e] == 1
            && (e in c.queue <==> e.deadline > c.ticks)
  {
    hide Sorted;
    var e := c.asked[s];
    assert multiset(c.queue)[e] + multiset(Ended(c.woken))[e] == multiset(c.asked)[e];
    if e !in c.queue {
      assert multiset(c.queue)[e] == 0;
      assert e in multiset(Ended(c.woken));
      assert e in Ended(c.woken);
      var i :| 0 <= i < |c.woken| && c.woken[i].entry == e;
    }
  }

  lemma OnlyOnce(asked: seq<Entry>, s: nat)
    requires s < |asked| && forall i :: 0 <= i < |asked| ==> asked[i].serial == i
    ensures multiset(asked)[asked[s]] == 1
  {
    var e := asked[s];
    assert asked == asked[..s] + [e] + asked[s + 1..];
    assert e !in asked[..s] && e !in asked[s + 1..];
  }

  /** No reply was given at a tick still to come. */
  lemma {:induction false} TicksOnlyGrow(reqs: seq<Request>, i: nat)
    requires Legal(reqs) && i < |Run(reqs).woken|
    ensures Run(reqs).woken[i].tick <= Run(reqs).ticks
  {
    if reqs != [] {
      var front := reqs[..|reqs| - 1];
      EveryRunKeepsBooks(front);
      StepTicks(Run(front), reqs[|reqs| - 1]);
      if i < |Run(front).woken| { TicksOnlyGrow(front, i); }
    }
  }

  lemma StepTicks(c: Clock, req: Request)
    requires Books(c)
    ensures var c' := Step(c, req);
            && c'.ticks >= c.ticks && c.woken <= c'.woken
            && forall i :: |c.woken| <= i < |c'.woken| ==> c'.woken[i].tick == c'.ticks
  {
    StepRefinesSet(c, req);
    AcceptKeepsBooks(c, req);
    ReleaseSplits(Accept(c, req));
    hide Release, Books, Batch, Entries, Wanted;
  }
}
