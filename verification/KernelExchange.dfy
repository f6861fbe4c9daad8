/** A message from the Send that posts it to the Receive that takes it, over whole runs from boot. */
module KernelExchange {
  import opened Cells
  import opened Lists
  import opened KernelModel
  import opened KernelInvariant
  import opened KernelSteps
  import opened KernelRuns
  import opened KernelTheorems
  import opened KernelRecords
  import opened KernelMemory

  /** At boot no buffer is named by anybody. */
  lemma BootKeeps(n: nat, owner: int -> int)
    requires 2 <= n <= LONG_MAX
    ensures Running(Boot(n)) && AllKept(Boot(n), owner, map[])
  {
    hide Boot, Core, NullTask;
    BootRuns(n);
    BootIsCalm(n);
  }

  /** The state before the call at position j of a run. */
  ghost function Before(k: Kernel, calls: seq<Call>, j: nat): (k': Kernel)
    requires Running(k) && Legal(k, calls) && j < |calls|
    ensures Running(k') && Enabled(k', calls[j])
    decreases j
  {
    StepKeeps(k, calls[0]);
    if j == 0 then k else Before(Step(k, calls[0]), calls[1..], j - 1)
  }

  /** The call at position j is a Send by the task in slot i. */
  ghost predicate SendsAt(k: Kernel, calls: seq<Call>, i: nat, j: nat)
    requires Running(k) && Legal(k, calls) && j < |calls|
  {
    calls[j].SendCall? && Before(k, calls, j).current == i
  }

  /** The last Send of a task is the one whose bytes are remembered. */
  lemma {:induction false} LastSend(k: Kernel, calls: seq<Call>, sent: map<nat, seq<Byte>>, i: nat) returns (j: int)
    requires Running(k) && Legal(k, calls) && i in SentDuring(k, calls, sent)
    ensures NONE <= j < |calls|
    ensures j == NONE ==> i in sent && SentDuring(k, calls, sent)[i] == sent[i]
    ensures j != NONE ==> SendsAt(k, calls, i, j)
    ensures j != NONE ==>
              SentDuring(k, calls, sent)[i] == Bytes(Before(k, calls, j).mem, calls[j].msg, calls[j].msgLen)
    ensures forall l :: j < l < |calls| ==> !SendsAt(k, calls, i, l)
    decreases |calls|
  {
    hide Partition, Tids, Forest, Ledger, Mail, NullTask, Ranked, Within, CanCreate, Step, Enabled, Bytes;
    j := NONE;
    if calls != [] {
      StepKeeps(k, calls[0]);
      var k1, sent1 := Step(k, calls[0]), Sends(k, calls[0], sent);
      var l := LastSend(k1, calls[1..], sent1, i);
      forall x: nat | 0 < x < |calls| ensures SendsAt(k, calls, i, x) <==> SendsAt(k1, calls[1..], i, x - 1) {
        assert Before(k, calls, x) == Before(k1, calls[1..], x - 1);
      }
      if l != NONE {
        j := l + 1;
      } else if calls[0].SendCall? && k.current == i {
        j := 0;
      }
    }
  }

  /** Over any run from boot whose calls are disciplined: a Receive that finds messages waiting puts into
      its caller's buffer the start of the oldest one as it read when its sender called Send, which was
      that sender's last Send, and nothing beyond. */
  lemma MessageArrives(n: nat, calls: seq<Call>, call: Call, owner: int -> int) returns (j: int)
    requires 2 <= n <= LONG_MAX
    requires Running(Boot(n)) && Legal(Boot(n), calls) && AllDisciplined(Boot(n), owner, calls)
    requires call.ReceiveCall? && Disciplined(Run(Boot(n), calls), owner, call)
    requires Run(Boot(n), calls).mail[Run(Boot(n), calls).current] != []
    ensures var k := Run(Boot(n), calls);
            var i := k.mail[k.current][0];
            var k' := Receive(k, call.put, call.buf, call.len, call.junk, call.oldest).0;
            && i < |k.tasks|
            && (call.buf != NULL && k.msgs[i].msg != NULL ==>
                  && 0 <= j < |calls| && SendsAt(Boot(n), calls, i, j)
                  && (forall l :: j < l < |calls| ==> !SendsAt(Boot(n), calls, i, l))
                  && Arrives(k.mem, k'.mem, call.buf, call.len,
                             Bytes(Before(Boot(n), calls, j).mem, calls[j].msg, calls[j].msgLen)))
  {
    hide Boot, Partition, Tids, Forest, Ledger, Mail, NullTask, Ranked, Within, Run, Receive, Disciplined, AllKept,
      Arrives, Bytes, SentDuring, SendsAt, Before, AllDisciplined, Legal;
    BootKeeps(n, owner);
    MessagesKeep(Boot(n), calls, owner, map[]);
    var k, sent := Run(Boot(n), calls), SentDuring(Boot(n), calls, map[]);
    ReceiveDelivers(k, call, owner, sent);
    j := NONE;
    if k.mail[k.current][0] in sent {
      j := LastSend(Boot(n), calls, map[], k.mail[k.current][0]);
    }
  }
}
