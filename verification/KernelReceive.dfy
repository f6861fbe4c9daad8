/** Exactly when Receive serves its caller. */
module KernelReceive {
  import opened Cells
  import opened Lists
  import opened KernelModel
  import opened KernelInvariant
  import opened KernelSteps
  import opened KernelRuns
  import opened KernelMemory

  /** Receive tells its caller, at the address it passed, who sent the oldest message. */
  ghost predicate ToldSender(k: Kernel, put: int, buf: int, len: nat, junk: Msg, oldest: bool)
    requires Running(k) && k.mail[k.current] != []
  {
    FirstIn(k.mail[k.current]);
    Receive(k, put, buf, len, junk, oldest).0.words == k.words[put := k.tasks[k.mail[k.current][0]].tid]
  }

  /** Whatever memory holds, Receive puts the start of the oldest message into the buffer it was passed,
      and changes nothing else, if there is a message and a buffer that do not overlap. */
  ghost predicate FilledBuffer(k: Kernel, mem: map<int, Byte>, put: int, buf: int, len: nat, junk: Msg, oldest: bool)
    requires Running(k) && k.mail[k.current] != []
  {
    FirstIn(k.mail[k.current]);
    var m := k.msgs[k.mail[k.current][0]];
    m.msg != NULL && buf != NULL && (buf + len <= m.msg || m.msg + m.msgLen <= buf) ==>
      Arrives(mem, Receive(k.(mem := mem), put, buf, len, junk, oldest).0.mem, buf, len, Bytes(mem, m.msg, m.msgLen))
  }

  /** Some address lies above all in a finite set. */
  lemma {:induction false} AboveAll(s: set<int>) returns (b: int)
    ensures b > 0 && forall a :: a in s ==> a < b
    decreases |s|
  {
    b := 1;
    if a :| a in s {
      b := AboveAll(s - {a});
      assert forall x :: x in s ==> x == a || x in s - {a};
      b := if a < b then b else a + 1;
    }
  }

  /** Where the arguments of Receive end up: in the record at RecordFor, while that of the oldest
      message says where things go. */
  lemma ReceiveWrites(k: Kernel, mem: map<int, Byte>, put: int, buf: int, len: nat, junk: Msg, oldest: bool)
    requires Running(k) && k.mail[k.current] != []
    ensures var box, k' := k.mail[k.current], Receive(k.(mem := mem), put, buf, len, junk, oldest).0;
            && box[0] < |k.tasks|
            && var m := k.msgs[box[0]];
               var w := if oldest || |box| == 1 then m.(putTid := put, recv := buf, recvLen := len) else m;
               && k'.words == k.words[w.putTid := k.tasks[box[0]].tid]
               && k'.mem == if w.recv != NULL && m.msg != NULL
                            then CopyBytes(mem, w.recv, m.msg, Min(w.recvLen, m.msgLen)) else mem
  {
    hide Partition, Forest, Ledger, NullTask, Ranked, MailBut, CopyBytes, Slot, Tids, Within, Deliver;
    OwnSlot(k, k.current);
    var box := k.mail[k.current];
    LoneRecords(k, k.current);
    InBox(k, k.current);
    var i, j := box[0], box[RecordFor(k, oldest)];
    assert i in box && j in box && (i == j <==> oldest || |box| == 1);
    WithoutException(k, k.current);
    FirstIsDeliverable(k, k.current);
    var k1 := k.(mem := mem, msgs := k.msgs[j := k.msgs[j].(putTid := put, recv := buf, recvLen := len)]);
    DeliverFrame(k1, i, k.current);
  }

  /** Receive returns the length of the oldest message, whichever record is filled in. */
  lemma ReceiveReturns(k: Kernel, put: int, buf: int, len: nat, junk: Msg, oldest: bool)
    requires Running(k) && k.mail[k.current] != []
    ensures k.mail[k.current][0] < |k.tasks|
    ensures Receive(k, put, buf, len, junk, oldest).1 == k.msgs[k.mail[k.current][0]].msgLen
  {
    hide Partition, Forest, Ledger, NullTask, Ranked, MailBut, CopyBytes, Slot, Tids, Within, Deliver;
    OwnSlot(k, k.current);
    InBox(k, k.current);
    var box := k.mail[k.current];
    var j := box[RecordFor(k, oldest)];
    assert j in box && box[0] in box;
    DeliverReturns(k.(msgs := k.msgs[j := k.msgs[j].(putTid := put, recv := buf, recvLen := len)]), k.current);
  }

  /** The caller always learns who sent the message, whatever address it passes, if and only if the right
      record is filled in: as written, when just one message is waiting. */
  lemma SenderToldExactly(k: Kernel, buf: int, len: nat, junk: Msg, oldest: bool)
    requires Running(k) && k.mail[k.current] != []
    ensures (forall put :: ToldSender(k, put, buf, len, junk, oldest)) <==> oldest || |k.mail[k.current]| == 1
  {
    hide Partition, Tids, Forest, Ledger, Mail, NullTask, Ranked, Within, Receive;
    ReceiveWrites(k, k.mem, NULL, buf, len, junk, oldest);
    var m, t := k.msgs[k.mail[k.current][0]], k.tasks[k.mail[k.current][0]].tid;
    forall put ensures oldest || |k.mail[k.current]| == 1 ==> ToldSender(k, put, buf, len, junk, oldest) {
      ReceiveWrites(k, k.mem, put, buf, len, junk, oldest);
      assert k.(mem := k.mem) == k;
    }
    if !oldest && |k.mail[k.current]| >= 2 {
      var put := AboveAll(k.words.Keys + {m.putTid});
      ReceiveWrites(k, k.mem, put, buf, len, junk, oldest);
      assert k.(mem := k.mem) == k;
      assert put in k.words[put := t] && put !in k.words[m.putTid := t];
      assert !ToldSender(k, put, buf, len, junk, oldest);
    }
  }

  /** The caller's buffer is always filled, wherever it is and whatever memory holds, if and only if the
      right record is filled in or there is nothing to put there. */
  lemma BufferFilledExactly(k: Kernel, put: int, junk: Msg, oldest: bool)
    requires Running(k) && k.mail[k.current] != []
    ensures k.mail[k.current][0] < |k.tasks|
    ensures (forall mem, buf, len :: FilledBuffer(k, mem, put, buf, len, junk, oldest)) <==>
            var m := k.msgs[k.mail[k.current][0]];
            oldest || |k.mail[k.current]| == 1 || m.msg == NULL || m.msgLen == 0
  {
    hide Partition, Tids, Forest, Ledger, Mail, NullTask, Ranked, Within, Receive, CopyBytes, Arrives;
    var box := k.mail[k.current];
    FirstIn(box);
    ReceiveWrites(k, k.mem, put, NULL, 0, junk, oldest);
    var m := k.msgs[box[0]];
    if oldest || |box| == 1 || m.msg == NULL || m.msgLen == 0 {
      forall mem, buf, len: nat ensures FilledBuffer(k, mem, put, buf, len, junk, oldest) {
        ReceiveWrites(k, mem, put, buf, len, junk, oldest);
        CopyArrives(mem, buf, len, m);
        EmptyArrives(mem, m.recv, m.recvLen, buf, len, m);
      }
    } else {
      var mem := map[m.msg := 1];
      ReceiveWrites(k, mem, put, NULL, 0, junk, oldest);
      var mem' := Receive(k.(mem := mem), put, NULL, 0, junk, oldest).0.mem;
      var buf := AboveAll(mem'.Keys + {m.msg + m.msgLen});
      ReceiveWrites(k, mem, put, buf, 1, junk, oldest);
      NotArrived(mem, mem', buf, m);
      assert !FilledBuffer(k, mem, put, buf, 1, junk, oldest);
    }
  }

  lemma CopyArrives(mem: map<int, Byte>, buf: int, len: nat, m: Msg)
    ensures buf + len <= m.msg || m.msg + m.msgLen <= buf ==>
              Arrives(mem, CopyBytes(mem, buf, m.msg, Min(len, m.msgLen)), buf, len, Bytes(mem, m.msg, m.msgLen))
  {
    if buf + len <= m.msg || m.msg + m.msgLen <= buf {
      CopyBytesExact(mem, buf, m.msg, Min(len, m.msgLen));
    }
  }

  lemma EmptyArrives(mem: map<int, Byte>, dst: int, n: nat, buf: int, len: nat, m: Msg)
    ensures m.msgLen == 0 ==> CopyBytes(mem, dst, m.msg, Min(n, m.msgLen)) == mem
    ensures m.msgLen == 0 ==> Arrives(mem, mem, buf, len, Bytes(mem, m.msg, m.msgLen))
  {
  }

  lemma NotArrived(mem: map<int, Byte>, mem': map<int, Byte>, buf: int, m: Msg)
    requires mem == map[m.msg := 1] && m.msgLen > 0 && buf !in mem'
    ensures !Arrives(mem, mem', buf, 1, Bytes(mem, m.msg, m.msgLen))
  {
    var message := Bytes(mem, m.msg, m.msgLen);
    assert message[buf - buf] == Load(mem, m.msg + 0) == 1;
    assert Load(mem', buf) == 0;
  }
}
