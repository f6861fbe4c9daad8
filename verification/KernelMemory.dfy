/** What the bytes of a message are when they arrive. */
module KernelMemory {
  import opened Arithmetic
  import opened Cells
  import opened Lists
  import opened KernelModel
  import opened KernelInvariant
  import opened KernelSteps
  import opened KernelDestroy
  import opened KernelRuns
  import opened KernelRecords

  function Bytes(mem: map<int, Byte>, a: int, n: nat): (s: seq<Byte>)
    ensures |s| == n
  {
    seq<Byte>(n, j => Load(mem, a + j))
  }

  /** A copy that does not run into its own source moves exactly n bytes and nothing beyond. */
  lemma {:induction false} CopyBytesExact(mem: map<int, Byte>, dst: int, src: int, n: nat)
    requires n == 0 || dst <= src || src + n <= dst
    ensures forall a {:trigger Load(CopyBytes(mem, dst, src, n), a)} ::
              Load(CopyBytes(mem, dst, src, n), a) ==
              if dst <= a < dst + n then Load(mem, src + (a - dst)) else Load(mem, a)
  {
    if n > 0 {
      CopyBytesExact(mem, dst, src, n - 1);
      var m := CopyBytes(mem, dst, src, n - 1);
      assert Load(m, src + n - 1) == Load(mem, src + n - 1);
      forall a
        ensures Load(CopyBytes(mem, dst, src, n), a) ==
                if dst <= a < dst + n then Load(mem, src + (a - dst)) else Load(mem, a)
      {
        assert Load(CopyBytes(mem, dst, src, n), a) == if a == dst + n - 1 then Load(m, src + n - 1) else Load(m, a);
      }
    }
  }

  /** A copy that runs into its own source repeats the bytes between the two beginnings over and over. */
  lemma {:induction false} CopyBytesRepeats(mem: map<int, Byte>, dst: int, src: int, n: nat)
    requires src < dst
    ensures forall a {:trigger Load(CopyBytes(mem, dst, src, n), a)} ::
              Load(CopyBytes(mem, dst, src, n), a) ==
              if dst <= a < dst + n then Load(mem, src + (a - dst) % (dst - src)) else Load(mem, a)
  {
    if n > 0 {
      var m, d := CopyBytes(mem, dst, src, n - 1), dst - src;
      CopyBytesRepeats(mem, dst, src, n - 1);
      Periodic(n - 1, d);
      assert Load(m, src + n - 1) == Load(mem, src + (n - 1) % d);
      forall a
        ensures Load(CopyBytes(mem, dst, src, n), a) ==
                if dst <= a < dst + n then Load(mem, src + (a - dst) % d) else Load(mem, a)
      {
        assert Load(CopyBytes(mem, dst, src, n), a) == if a == dst + n - 1 then Load(m, src + n - 1) else Load(m, a);
      }
    }
  }

  lemma Periodic(i: nat, d: nat)
    requires d > 0
    ensures if i < d then i % d == i else (i - d) % d == i % d
  {
    if i >= d {
      assert i == d * (i / d) + i % d;
      assert d * (i / d - 1) == d * (i / d) - d;
      DivModUnique(i - d, d, i / d - 1, i % d);
    }
  }

  // ------------------------------------------------------------------ whose memory is whose

  /** Every address belongs to one task, by tid. A buffer is null or lies in its task's memory. */
  ghost predicate Owns(owner: int -> int, tid: int, base: int, n: nat) {
    base == NULL || forall a :: base <= a < base + n ==> owner(a) == tid
  }

  ghost predicate WritesOnly(owner: int -> int, tid: int, mem: map<int, Byte>, mem': map<int, Byte>) {
    forall a :: owner(a) != tid ==> Load(mem', a) == Load(mem, a)
  }

  /** What the buffers in task i's record must be while the task is blocked: its own, with the
      message still reading as it did when Send was called. */
  ghost predicate Kept(k: Kernel, owner: int -> int, sent: map<nat, seq<Byte>>, i: nat)
    requires WF(k) && i < |k.tasks|
  {
    var t, m := k.tasks[i], k.msgs[i];
    && (t.state == ReceiveBlocked ==>
          && Owns(owner, t.tid, m.msg, m.msgLen)
          && (m.msg != NULL ==> i in sent && Bytes(k.mem, m.msg, m.msgLen) == sent[i]))
    && (t.state == ReceiveBlocked || t.state == ReplyBlocked ==> Owns(owner, t.tid, m.reply, m.replyLen))
    && (t.state == SendBlocked ==> Owns(owner, t.tid, m.recv, m.recvLen))
  }

  ghost predicate AllKept(k: Kernel, owner: int -> int, sent: map<nat, seq<Byte>>)
    requires WF(k)
  {
    forall i :: 0 <= i < |k.tasks| ==> Kept(k, owner, sent, i)
  }

  /** Tasks name their own buffers and write their own memory, and as written nobody receives while
      two messages wait (the wrong record is filled in then). */
  ghost predicate Disciplined(k: Kernel, owner: int -> int, call: Call)
    requires WF(k) && k.current != NONE
  {
    var me := CurrentTid(k);
    match call
    case SendCall(_, msg, msgLen, reply, replyLen, _) =>
      Owns(owner, me, msg, msgLen) && Owns(owner, me, reply, replyLen)
    case ReceiveCall(_, buf, len, _, oldest) => Owns(owner, me, buf, len) && (oldest || |k.mail[k.current]| <= 1)
    case Store(addr, _) => owner(addr) == me
    case _ => true
  }

  /** The messages as they read when they were sent: an accepted Send records its own. */
  ghost function Sends(k: Kernel, call: Call, sent: map<nat, seq<Byte>>): map<nat, seq<Byte>>
    requires WF(k) && k.current != NONE
  {
    if call.SendCall? then sent[k.current := Bytes(k.mem, call.msg, call.msgLen)] else sent
  }

  lemma BuffersApart(owner: int -> int, t: int, a: int, n: nat, u: int, b: int, m: nat)
    requires Owns(owner, t, a, n) && Owns(owner, u, b, m) && a != NULL && b != NULL
    ensures t == u || n == 0 || m == 0 || a + n <= b || b + m <= a
  {
    var x := if a < b then b else a;
    if a <= x < a + n && b <= x < b + m {
      assert owner(x) == t && owner(x) == u;
    }
  }

  // ------------------------------------------------------------------ frames

  lemma KeptElsewhere(k: Kernel, k': Kernel, owner: int -> int, sent: map<nat, seq<Byte>>,
                      sent': map<nat, seq<Byte>>, writer: int, i: nat)
    requires WF(k) && WF(k') && |k'.tasks| == |k.tasks| && i < |k.tasks| && Kept(k, owner, sent, i)
    requires k'.msgs[i] == k.msgs[i] && k'.tasks[i].tid == k.tasks[i].tid != writer
    requires k'.tasks[i].state == k.tasks[i].state || Calm(k'.tasks[i].state)
    requires WritesOnly(owner, writer, k.mem, k'.mem)
    requires i in sent ==> i in sent' && sent'[i] == sent[i]
    ensures Kept(k', owner, sent', i)
  {
    hide Ranked, Within;
    var t, m := k.tasks[i], k.msgs[i];
    if k'.tasks[i].state == ReceiveBlocked && m.msg != NULL {
      forall a | m.msg <= a < m.msg + m.msgLen ensures Load(k'.mem, a) == Load(k.mem, a) {
        assert owner(a) == t.tid;
      }
      assert Bytes(k'.mem, m.msg, m.msgLen) == Bytes(k.mem, m.msg, m.msgLen);
    }
  }

  /** The buffers are untouched and no task becomes blocked in an exchange of messages. */
  lemma KeptQuietly(k: Kernel, k': Kernel, owner: int -> int, sent: map<nat, seq<Byte>>)
    requires WF(k) && WF(k') && |k'.tasks| == |k.tasks| && AllKept(k, owner, sent)
    requires k'.msgs == k.msgs && k'.mem == k.mem
    requires forall i :: 0 <= i < |k.tasks| ==>
               (k'.tasks[i].tid == k.tasks[i].tid && k'.tasks[i].state == k.tasks[i].state) || Calm(k'.tasks[i].state)
    ensures AllKept(k', owner, sent)
  {
    hide Ranked, Within;
    forall i | 0 <= i < |k.tasks| ensures Kept(k', owner, sent, i) {
      assert Kept(k, owner, sent, i);
    }
  }

  // ------------------------------------------------------------------ delivery

  lemma DeliverFrame(k: Kernel, i: nat, r: nat)
    requires WF(k) && Deliverable(k, i, r) && Slot(|k.tasks|, k.tasks[r].tid) == r
    ensures var m, k' := k.msgs[i], Deliver(k, k.tasks[r].tid).0;
            && k'.words == k.words[m.putTid := m.fromTid]
            && k'.mem == if m.recv != NULL && m.msg != NULL
                         then CopyBytes(k.mem, m.recv, m.msg, Min(m.recvLen, m.msgLen)) else k.mem
  {
    hide Ranked, Within, CopyBytes, Slot;
  }

  /** Every byte of the buffer that the message reaches is the message's byte there; every other byte of
      memory is as it was. */
  ghost predicate Arrives(mem: map<int, Byte>, mem': map<int, Byte>, buf: int, len: nat, message: seq<Byte>) {
    forall a {:trigger Load(mem', a)} ::
      Load(mem', a) == if buf <= a < buf + len && a < buf + |message| then message[a - buf] else Load(mem, a)
  }

  lemma DeliverContents(k: Kernel, i: nat, r: nat, owner: int -> int, sent: map<nat, seq<Byte>>)
    requires Shape(k) && Deliverable(k, i, r) && Slot(|k.tasks|, k.tasks[r].tid) == r
    requires Kept(k, owner, sent, i) && Owns(owner, k.tasks[r].tid, k.msgs[i].recv, k.msgs[i].recvLen)
    ensures var m, k' := k.msgs[i], Deliver(k, k.tasks[r].tid).0;
            && (m.recv != NULL && m.msg != NULL ==> i in sent && Arrives(k.mem, k'.mem, m.recv, m.recvLen, sent[i]))
            && (m.recv == NULL || m.msg == NULL ==> k'.mem == k.mem)
            && WritesOnly(owner, k.tasks[r].tid, k.mem, k'.mem)
  {
    hide Partition, Forest, Ranked, Within, Slot, CopyBytes, Deliver;
    DeliverFrame(k, i, r);
    var m := k.msgs[i];
    OtherTid(k, i, r);
    if m.recv != NULL && m.msg != NULL {
      var n := Min(m.recvLen, m.msgLen);
      BuffersApart(owner, k.tasks[r].tid, m.recv, n, k.tasks[i].tid, m.msg, n);
      CopyBytesExact(k.mem, m.recv, m.msg, n);
      assert forall j :: 0 <= j < m.msgLen ==> sent[i][j] == Load(k.mem, m.msg + j);
    }
  }

  lemma DeliverKeepsAll(k: Kernel, r: nat, owner: int -> int, sent: map<nat, seq<Byte>>)
    requires Shape(k) && MailBut(k, r) && r < |k.tasks| && k.mail[r] != []
    requires k.tasks[r].state == SendBlocked || (r == k.current && k.tasks[r].state == Active)
    requires AllKept(k, owner, sent) && k.mail[r][0] < |k.tasks|
    requires Owns(owner, k.tasks[r].tid, k.msgs[k.mail[r][0]].recv, k.msgs[k.mail[r][0]].recvLen)
    ensures Slot(|k.tasks|, k.tasks[r].tid) == r
    ensures AllKept(Deliver(k, k.tasks[r].tid).0, owner, sent)
  {
    hide Partition, Forest, Ranked, Within, Slot, Deliver, MailBut, Arrives, Owns, WritesOnly;
    var i := k.mail[r][0];
    Delivery(k, r);
    assert Kept(k, owner, sent, i);
    DeliverContents(k, i, r, owner, sent);
    var k' := Deliver(k, k.tasks[r].tid).0;
    forall j | 0 <= j < |k.tasks| ensures Kept(k', owner, sent, j) {
      assert Kept(k, owner, sent, j);
      if j != r && j != i {
        OtherTid(k, j, r);
        hide Kept;
        KeptElsewhere(k, k', owner, sent, sent, k.tasks[r].tid, j);
      }
    }
  }

  // ------------------------------------------------------------------ the handlers

  lemma SendKept(k: Kernel, call: Call, owner: int -> int, sent: map<nat, seq<Byte>>)
    requires Core(k) && k.current != NONE && k.tasks[k.current].state == Active && call.SendCall?
    requires Disciplined(k, owner, call) && AllKept(k, owner, sent)
    ensures AllKept(Send(k, call.tid, call.msg, call.msgLen, call.reply, call.replyLen, call.junk).0, owner,
                    Sends(k, call, sent))
  {
    hide Partition, Forest, Ledger, Ranked, Within, Deliver, MailBut, Owns;
    var tid, junk, i := call.tid, call.junk, k.current;
    var sent' := Sends(k, call, sent);
    forall j | 0 <= j < |k.tasks| ensures Kept(k, owner, sent', j) { assert Kept(k, owner, sent, j); }
    if IsValidTid(tid) && IsTaskAlive(k, tid) {
      var r := Slot(|k.tasks|, tid);
      var m := Msg(CurrentTid(k), tid, junk.putTid, call.msg, call.msgLen, call.reply, call.replyLen, junk.recv,
                   junk.recvLen);
      PostKeeps(k, tid, m);
      OwnSlot(k, k.current);
      hide Slot, Tids;
      var k1 := Post(k, tid, m);
      forall j | 0 <= j < |k.tasks| ensures Kept(k1, owner, sent', j) { assert Kept(k, owner, sent', j); }
      if k1.tasks[r].state == SendBlocked {
        var w := k1.msgs[r];
        assert Kept(k1, owner, sent', r);
        var k2 := k1.(msgs := k1.msgs[i := m.(putTid := w.putTid, recv := w.recv, recvLen := w.recvLen)]);
        forall j | 0 <= j < |k.tasks| ensures Kept(k2, owner, sent', j) { assert Kept(k1, owner, sent', j); }
        hide Kept;
        SameRecordsKept(k1, k2, r);
        ShapeKept(k1, k2);
        SoleMessage(k, k1, i, r);
        DeliverKeepsAll(k2, r, owner, sent');
      }
    }
  }

  /** The waiting receiver's queue was empty, so the message just posted is the one delivered. */
  lemma SoleMessage(k: Kernel, k': Kernel, i: nat, r: nat)
    requires Posted(k, i, r, k') && MailBut(k, NONE) && k'.tasks[r].state == SendBlocked
    ensures k'.mail[r] == [i]
  {
    hide Ranked, Within, Slot, Tids;
  }

  lemma ReceiveKept(k: Kernel, call: Call, owner: int -> int, sent: map<nat, seq<Byte>>)
    requires Core(k) && k.current != NONE && k.tasks[k.current].state == Active && call.ReceiveCall?
    requires Disciplined(k, owner, call) && AllKept(k, owner, sent)
    ensures AllKept(Receive(k, call.put, call.buf, call.len, call.junk, call.oldest).0, owner, sent)
  {
    hide Partition, Tids, Forest, Ledger, Ranked, Within, Deliver, MailBut, Slot, Owns;
    OwnSlot(k, k.current);
    var box := k.mail[k.current];
    var k' := Receive(k, call.put, call.buf, call.len, call.junk, call.oldest).0;
    if box == [] {
      forall j | 0 <= j < |k.tasks| ensures Kept(k', owner, sent, j) { assert Kept(k, owner, sent, j); }
    } else {
      InBox(k, k.current);
      assert RecordFor(k, call.oldest) == 0 && box[0] in box;
      WithoutException(k, k.current);
      FirstIsDeliverable(k, k.current);
      var k1 := k.(msgs := k.msgs[box[0] := k.msgs[box[0]].(putTid := call.put, recv := call.buf,
                                                            recvLen := call.len)]);
      forall j | 0 <= j < |k.tasks| ensures Kept(k1, owner, sent, j) {
        assert Kept(k, owner, sent, j);
      }
      hide Kept;
      ShapeKept(k, k1);
      SameRecordsKept(k, k1, NONE);
      WithoutException(k1, k.current);
      DeliverKeepsAll(k1, k.current, owner, sent);
    }
  }

  lemma ReplyKept(k: Kernel, call: Call, owner: int -> int, sent: map<nat, seq<Byte>>)
    requires Core(k) && k.current != NONE && call.ReplyCall? && AllKept(k, owner, sent)
    ensures AllKept(Reply(k, call.tid, call.buf, call.len).0, owner, sent)
  {
    hide Partition, Forest, Ledger, Ranked, Within, CopyBytes, QueueOk;
    var tid := call.tid;
    if IsValidTid(tid) && IsTaskAlive(k, tid) && GetTaskState(k, tid) == ReplyBlocked {
      var i := Slot(|k.tasks|, tid);
      assert RecordOk(k, i);
      hide MailBut, RecordOk, Slot;
      var m, k' := k.msgs[i], Reply(k, tid, call.buf, call.len).0;
      assert Kept(k, owner, sent, i);
      if m.reply != NULL { CopyWrites(owner, tid, k.mem, m.reply, call.buf, Min(m.replyLen, call.len)); }
      forall j | 0 <= j < |k.tasks| ensures Kept(k', owner, sent, j) {
        assert Kept(k, owner, sent, j);
        if j != i {
          OtherTid(k, i, j);
          KeptElsewhere(k, k', owner, sent, sent, tid, j);
        }
      }
    }
  }

  /** Even a copy that smears its own source writes only the destination. */
  lemma {:induction false} CopyWrites(owner: int -> int, tid: int, mem: map<int, Byte>, dst: int, src: int, n: nat)
    requires Owns(owner, tid, dst, n) && dst != NULL
    ensures WritesOnly(owner, tid, mem, CopyBytes(mem, dst, src, n))
  {
    if n > 0 {
      CopyWrites(owner, tid, mem, dst, src, n - 1);
      assert owner(dst + n - 1) == tid;
    }
  }

  lemma OtherCallKept(k: Kernel, call: Call, owner: int -> int, sent: map<nat, seq<Byte>>)
    requires Core(k) && CanCreate(k) && k.current != NONE && k.tasks[k.current].state == Active && !call.Store?
    requires !call.SendCall? && !call.ReceiveCall? && !call.ReplyCall? && !call.DestroyCall?
    requires AllKept(k, owner, sent)
    ensures AllKept(Handle(k, call), owner, sent)
  {
    hide Partition, Tids, Forest, Ledger, MailBut, Ranked, Within, CanCreate, Kept, AllKept, Slot, Create,
      UnblockFrom;
    if call.CreateCall? && HIGHEST_PRIORITY <= call.priority <= LOW_PRIORITY {
      CreateQuietly(k, call.priority);
    } else if call.Interrupt? && call.code < 0 {
      UnblockKeeps(k, EventId(call.code), HIGHEST_PRIORITY);
      UnblockFrame(k, EventId(call.code), HIGHEST_PRIORITY);
    }
    KeptQuietly(k, Handle(k, call), owner, sent);
  }

  lemma CreateQuietly(k: Kernel, priority: nat)
    requires WF(k) && CanCreate(k) && priority < NUM_PRIORITIES
    ensures var k' := Create(k, priority).0;
            && k'.msgs == k.msgs && k'.mem == k.mem
            && forall i :: 0 <= i < |k.tasks| ==> k'.tasks[i] == k.tasks[i] || Calm(k'.tasks[i].state)
  {
    hide Ranked, Within;
  }

  lemma DestroyKept(k: Kernel, call: Call, owner: int -> int, sent: map<nat, seq<Byte>>)
    requires Core(k) && k.current != NONE && call.DestroyCall? && Enabled(k, call) && AllKept(k, owner, sent)
    ensures AllKept(Destroy(k, call.tid).0, owner, sent)
  {
    hide Partition, Tids, Forest, Ledger, Mail, Ranked, Within, Kept, AllKept, Slot, Destroy, Descends,
      SubtreeQuiet, Buried, Cut;
    if Accepted(k, call.tid) {
      DestroyEffect(k, call.tid);
      CutQuietly(k, Slot(|k.tasks|, call.tid), Destroy(k, call.tid).0, owner, sent);
    } else {
      RejectedDestroy(k, call.tid);
    }
  }

  lemma CutQuietly(k: Kernel, i: nat, k': Kernel, owner: int -> int, sent: map<nat, seq<Byte>>)
    requires Cut(k, i, k') && AllKept(k, owner, sent)
    ensures AllKept(k', owner, sent)
  {
    hide Forest, Ranked, Within, Kept, AllKept, Slot, Descends;
    KeptQuietly(k, k', owner, sent);
  }

  lemma StoreKept(k: Kernel, call: Call, owner: int -> int, sent: map<nat, seq<Byte>>)
    requires Running(k) && CanCreate(k) && call.Store? && Disciplined(k, owner, call) && AllKept(k, owner, sent)
    ensures AllKept(Step(k, call), owner, sent)
  {
    hide Partition, Forest, Ledger, Mail, Ranked, Within, Slot, CanCreate, Handle, Schedule;
    var k' := Step(k, call);
    forall j | 0 <= j < |k.tasks| ensures Kept(k', owner, sent, j) {
      assert Kept(k, owner, sent, j);
      if j != k.current {
        OtherTid(k, k.current, j);
        KeptElsewhere(k, k', owner, sent, sent, k.tasks[k.current].tid, j);
      }
    }
  }

  lemma ScheduleKept(k: Kernel, owner: int -> int, sent: map<nat, seq<Byte>>)
    requires WF(k) && AllKept(k, owner, sent)
    ensures AllKept(Schedule(k), owner, sent)
  {
    hide Ranked, Within, Kept, AllKept, Schedule;
    ScheduleFrame(k);
    KeptQuietly(k, Schedule(k), owner, sent);
  }

  lemma AnswerKept(r: (Kernel, int), owner: int -> int, sent: map<nat, seq<Byte>>)
    requires WF(r.0) && AllKept(r.0, owner, sent)
    ensures AllKept(Answer(r), owner, sent)
  {
    hide Ranked, Within, Kept, AllKept;
    KeptQuietly(r.0, Answer(r), owner, sent);
  }

  lemma StepKept(k: Kernel, call: Call, owner: int -> int, sent: map<nat, seq<Byte>>)
    requires Running(k) && Enabled(k, call) && CanCreate(k)
    requires Disciplined(k, owner, call) && AllKept(k, owner, sent)
    ensures AllKept(Step(k, call), owner, Sends(k, call, sent))
  {
    hide Partition, Tids, Forest, Ledger, Mail, NullTask, Ranked, Within, Slot, CanCreate, Kept, AllKept, Disciplined;
    hide Schedule, Send, ReceiveInto, Reply, Destroy, Answer, Enabled, Create, SetMyPriority, UnblockFrom;
    match call {
      case Store(_, _) =>
        StoreKept(k, call, owner, sent);
      case SendCall(tid, msg, msgLen, reply, replyLen, junk) =>
        SendKept(k, call, owner, sent);
        AnswerKept(Send(k, tid, msg, msgLen, reply, replyLen, junk), owner, Sends(k, call, sent));
        ScheduleKept(Handle(k, call), owner, Sends(k, call, sent));
      case ReceiveCall(put, buf, len, junk, oldest) =>
        ReceiveKept(k, call, owner, sent);
        AnswerKept(Receive(k, put, buf, len, junk, oldest), owner, sent);
        ScheduleKept(Handle(k, call), owner, sent);
      case ReplyCall(tid, buf, len) =>
        ReplyKept(k, call, owner, sent);
        AnswerKept(Reply(k, tid, buf, len), owner, sent);
        ScheduleKept(Handle(k, call), owner, sent);
      case DestroyCall(tid) =>
        DestroyKept(k, call, owner, sent);
        AnswerKept(Destroy(k, tid), owner, sent);
        ScheduleKept(Handle(k, call), owner, sent);
      case _ =>
        OtherCallKept(k, call, owner, sent);
        ScheduleKept(Handle(k, call), owner, sent);
    }
  }

  /** Every call of the run is disciplined in the state it is made in. */
  ghost predicate AllDisciplined(k: Kernel, owner: int -> int, calls: seq<Call>)
    requires Running(k) && Legal(k, calls)
    decreases |calls|
  {
    calls == [] ||
    (StepKeeps(k, calls[0]); Disciplined(k, owner, calls[0]) && AllDisciplined(Step(k, calls[0]), owner, calls[1..]))
  }

  ghost function SentDuring(k: Kernel, calls: seq<Call>, sent: map<nat, seq<Byte>>): map<nat, seq<Byte>>
    requires Running(k) && Legal(k, calls)
    decreases |calls|
  {
    if calls == [] then sent
    else
      StepKeeps(k, calls[0]);
      SentDuring(Step(k, calls[0]), calls[1..], Sends(k, calls[0], sent))
  }

  /** However long a message waits, it still reads as it did when Send was called. */
  lemma {:induction false} MessagesKeep(k: Kernel, calls: seq<Call>, owner: int -> int, sent: map<nat, seq<Byte>>)
    requires Running(k) && Legal(k, calls) && AllDisciplined(k, owner, calls) && AllKept(k, owner, sent)
    ensures AllKept(Run(k, calls), owner, SentDuring(k, calls, sent))
    decreases |calls|
  {
    hide Partition, Tids, Forest, Ledger, Mail, NullTask, Ranked, Within, CanCreate, AllKept, Disciplined, Step,
      Enabled, Sends;
    if calls != [] {
      StepKeeps(k, calls[0]);
      StepKept(k, calls[0], owner, sent);
      MessagesKeep(Step(k, calls[0]), calls[1..], owner, Sends(k, calls[0], sent));
    }
  }

  // ------------------------------------------------------------------ what arrives

  /** Receive with one message waiting, or with any number and the right record filled in: the caller's
      buffer, if it passes one, gets the start of the oldest message as it was sent and nothing beyond,
      its tid word the sender, and the full length is returned. */
  lemma ReceiveDelivers(k: Kernel, call: Call, owner: int -> int, sent: map<nat, seq<Byte>>)
    requires Running(k) && call.ReceiveCall? && Disciplined(k, owner, call) && AllKept(k, owner, sent)
    requires k.mail[k.current] != []
    ensures var i := k.mail[k.current][0];
            var (k', ret) := Receive(k, call.put, call.buf, call.len, call.junk, call.oldest);
            && i < |k.tasks| && k'.tasks[i].state == ReplyBlocked
            && k'.words == k.words[call.put := k.tasks[i].tid]
            && ret == k.msgs[i].msgLen && k'.tasks[k.current].ret == ret
            && (call.buf != NULL && k.msgs[i].msg != NULL ==>
                  i in sent && Arrives(k.mem, k'.mem, call.buf, call.len, sent[i]))
            && (call.buf == NULL || k.msgs[i].msg == NULL ==> k'.mem == k.mem)
  {
    hide Partition, Forest, Ledger, NullTask, Ranked, Within, Deliver, MailBut, Slot, Owns, Arrives;
    OwnSlot(k, k.current);
    var i := k.mail[k.current][0];
    InBox(k, k.current);
    assert i in k.mail[k.current];
    WithoutException(k, k.current);
    FirstIsDeliverable(k, k.current);
    assert Kept(k, owner, sent, i);
    var k1 := k.(msgs := k.msgs[i := k.msgs[i].(putTid := call.put, recv := call.buf, recvLen := call.len)]);
    ShapeKept(k, k1);
    SameRecordsKept(k, k1, NONE);
    WithoutException(k1, k.current);
    Delivery(k1, k.current);
    DeliverContents(k1, i, k.current, owner, sent);
    DeliverFrame(k1, i, k.current);
    DeliverReturns(k1, k.current);
  }

  /** Send to a task that is already waiting: the buffer it named in its own Receive gets the start
      of the message and nothing beyond, the tid word it named the sender, and both parties move on. */
  lemma SendDelivers(k: Kernel, call: Call, owner: int -> int, sent: map<nat, seq<Byte>>, named: map<nat, Named>)
    requires Running(k) && call.SendCall? && Disciplined(k, owner, call)
    requires AllKept(k, owner, sent) && RecordsNamed(k, named)
    requires IsTaskAlive(k, call.tid) && GetTaskState(k, call.tid) == SendBlocked
    ensures var r := Slot(|k.tasks|, call.tid);
            var k' := Send(k, call.tid, call.msg, call.msgLen, call.reply, call.replyLen, call.junk).0;
            && k'.tasks[r].state == Ready && k'.tasks[r].ret == call.msgLen
            && k'.tasks[k.current].state == ReplyBlocked
            && r in named && k'.words == k.words[named[r].put := CurrentTid(k)]
            && (named[r].buf != NULL && call.msg != NULL ==>
                  Arrives(k.mem, k'.mem, named[r].buf, named[r].len, Bytes(k.mem, call.msg, call.msgLen)))
            && (named[r].buf == NULL || call.msg == NULL ==> k'.mem == k.mem)
  {
    hide Partition, Tids, Forest, Ledger, Mail, NullTask, Ranked, Within, Slot, Send, AllKept, Disciplined, Arrives;
    SendFills(k, call, owner, sent);
  }

  /** The same, of what the waiting task's record holds. */
  lemma SendFills(k: Kernel, call: Call, owner: int -> int, sent: map<nat, seq<Byte>>)
    requires Running(k) && call.SendCall? && Disciplined(k, owner, call) && AllKept(k, owner, sent)
    requires IsTaskAlive(k, call.tid) && GetTaskState(k, call.tid) == SendBlocked
    ensures var r := Slot(|k.tasks|, call.tid);
            var w := k.msgs[r];
            var k' := Send(k, call.tid, call.msg, call.msgLen, call.reply, call.replyLen, call.junk).0;
            && k'.tasks[r].state == Ready && k'.tasks[r].ret == call.msgLen && k'.tasks[k.current].state == ReplyBlocked
            && k'.words == k.words[w.putTid := CurrentTid(k)]
            && (w.recv != NULL && call.msg != NULL ==>
                  Arrives(k.mem, k'.mem, w.recv, w.recvLen, Bytes(k.mem, call.msg, call.msgLen)))
            && (w.recv == NULL || call.msg == NULL ==> k'.mem == k.mem)
  {
    hide Partition, Forest, Ledger, Ranked, Within, Deliver, MailBut, Owns, NullTask, Arrives;
    var tid, junk, i := call.tid, call.junk, k.current;
    var sent' := Sends(k, call, sent);
    var r := Slot(|k.tasks|, tid);
    assert Kept(k, owner, sent, r);
    var m := Msg(CurrentTid(k), tid, junk.putTid, call.msg, call.msgLen, call.reply, call.replyLen, junk.recv,
                 junk.recvLen);
    PostKeeps(k, tid, m);
    OwnSlot(k, k.current);
    hide Slot, Tids;
    var k1 := Post(k, tid, m);
    var w := k1.msgs[r];
    var k2 := k1.(msgs := k1.msgs[i := m.(putTid := w.putTid, recv := w.recv, recvLen := w.recvLen)]);
    assert Kept(k2, owner, sent', i);
    hide Kept;
    SameRecordsKept(k1, k2, r);
    ShapeKept(k1, k2);
    SoleMessage(k, k1, i, r);
    Delivery(k2, r);
    DeliverContents(k2, i, r, owner, sent');
    DeliverFrame(k2, i, r);
  }

  lemma DeliverReturns(k: Kernel, r: nat)
    requires WF(k) && r < |k.tasks| && k.mail[r] != [] && Slot(|k.tasks|, k.tasks[r].tid) == r
    ensures k.mail[r][0] < |k.tasks| && Deliver(k, k.tasks[r].tid).1 == k.msgs[k.mail[r][0]].msgLen
  {
    FirstIn(k.mail[r]);
    hide Ranked, Within, Slot, SetState, SetRet;
  }

  /** With two or more messages waiting the source delivers the oldest one into whatever buffer its
      record happens to name: the caller's arguments make no difference to memory. */
  lemma ReceiveIgnoresItsBuffer(k: Kernel, put1: int, buf1: int, len1: nat, put2: int, buf2: int, len2: nat, junk: Msg)
    requires Running(k) && |k.mail[k.current]| >= 2
    ensures Receive(k, put1, buf1, len1, junk, false).0.mem == Receive(k, put2, buf2, len2, junk, false).0.mem
    ensures Receive(k, put1, buf1, len1, junk, false).0.words == Receive(k, put2, buf2, len2, junk, false).0.words
  {
    hide Partition, Forest, Ledger, NullTask, Ranked, MailBut, CopyBytes, Slot, Tids, Within, Deliver;
    OwnSlot(k, k.current);
    var box := k.mail[k.current];
    LoneRecords(k, k.current);
    InBox(k, k.current);
    var i, j := box[0], box[|box| - 1];
    assert i in box && j in box && i != j;
    WithoutException(k, k.current);
    FirstIsDeliverable(k, k.current);
    var k1 := k.(msgs := k.msgs[j := k.msgs[j].(putTid := put1, recv := buf1, recvLen := len1)]);
    var k2 := k.(msgs := k.msgs[j := k.msgs[j].(putTid := put2, recv := buf2, recvLen := len2)]);
    DeliverFrame(k1, i, k.current);
    DeliverFrame(k2, i, k.current);
  }

  lemma LoneRecords(k: Kernel, r: nat)
    requires WF(k) && Mail(k) && r < |k.tasks|
    ensures NoDup(k.mail[r])
  {
    assert QueueOk(k, r);
  }

  lemma RecordIsOwn(k: Kernel, i: nat)
    requires WF(k) && Mail(k) && i < |k.tasks| && k.tasks[i].state == ReplyBlocked
    ensures k.msgs[i].fromTid == k.tasks[i].tid
  {
    assert RecordOk(k, i);
  }

  /** A reply releases its sender with the full length of the reply; the start of the reply, and
      nothing beyond, is in the sender's buffer; the replier learns of a truncation and only then. */
  lemma ReplyDelivers(k: Kernel, tid: int, buf: int, len: nat)
    requires Running(k) && IsTaskAlive(k, tid) && GetTaskState(k, tid) == ReplyBlocked
    ensures var i := Slot(|k.tasks|, tid);
            var m := k.msgs[i];
            var (k', ret) := Reply(k, tid, buf, len);
            && k'.tasks[i].state == Ready && k'.tasks[i].ret == len
            && (ret == ERR_BUFFER_TOO_SMALL <==> len > m.replyLen) && (ret == OK <==> len <= m.replyLen)
            && (m.reply != NULL && buf != NULL && (m.reply + m.replyLen <= buf || buf + len <= m.reply) ==>
                  Arrives(k.mem, k'.mem, m.reply, m.replyLen, Bytes(k.mem, buf, len)))
            && (m.reply == NULL || buf == NULL ==> k'.mem == k.mem)
  {
    hide Partition, Forest, Ledger, NullTask, Ranked, Within, CopyBytes, MailBut, RecordOk, Slot, Tids;
    var i := Slot(|k.tasks|, tid);
    RecordIsOwn(k, i);
    var m := k.msgs[i];
    if m.reply != NULL && buf != NULL && (m.reply + m.replyLen <= buf || buf + len <= m.reply) {
      CopyBytesExact(k.mem, m.reply, buf, Min(m.replyLen, len));
      assert forall j :: 0 <= j < len ==> Bytes(k.mem, buf, len)[j] == Load(k.mem, buf + j);
    }
  }
}
