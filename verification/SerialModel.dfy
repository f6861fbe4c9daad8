/** One serial server as a value: its rings and flags, its secretaries, and what went over the wire. */
module SerialModel {
  import opened Cells
  import opened CyclicBuffers

  datatype Option<T> = None | Some(value: T)

  /** A notification carries what the status register shows: a received byte, and whether the
      transmitter is empty. */
  datatype Request =
    | Notify(received: Option<Byte>, txEmpty: bool) | ReceiveRequest | TransmitRequest(data: Byte) | Unknown

  /** txBlocked and rxBlocked: the secretary's request has not been replied to. `uart` and `delivered`
      are the bytes written to the device and handed to the receive secretary; `submitted` and
      `received` the bytes that came in from either side; `lost` the received bytes, by position,
      that found the ring full and nobody waiting. */
  datatype Serial = Serial(
    size: nat, tx: seq<Byte>, rx: seq<Byte>, awaitingReceive: bool, awaitingTransmit: bool,
    txBlocked: bool, rxBlocked: bool,
    uart: seq<Byte>, delivered: seq<Byte>, submitted: seq<Byte>, received: seq<Byte>, lost: set<nat>)

  function Init(size: nat): Serial {
    Serial(size, [], [], false, false, false, false, [], [], [], [], {})
  }

  function TakeByte(s: Serial, b: Byte): Serial {
    var r := s.(received := s.received + [b]);
    if s.awaitingReceive then r.(awaitingReceive := false, rxBlocked := false, delivered := s.delivered + [b])
    else if |s.rx| == s.size then r.(lost := s.lost + {|s.received|})
    else r.(rx := s.rx + [b])
  }

  /** `rearm` tells whether the flag is set again once another byte is on its way: the source leaves
      it false. */
  function SendNext(s: Serial, rearm: bool): Serial {
    if s.tx == [] then s.(awaitingTransmit := false)
    else s.(awaitingTransmit := rearm, uart := s.uart + [s.tx[0]], tx := s.tx[1..],
            txBlocked := if |s.tx| == s.size then false else s.txBlocked)
  }

  function Step(s: Serial, req: Request, rearm: bool): Serial {
    match req
    case Notify(received, txEmpty) =>
      var s1 := if received.Some? then TakeByte(s, received.value) else s;
      if s1.awaitingTransmit && txEmpty then SendNext(s1, rearm) else s1
    case ReceiveRequest =>
      if s.rx == [] then s.(awaitingReceive := true, rxBlocked := true)
      else s.(rx := s.rx[1..], delivered := s.delivered + [s.rx[0]], rxBlocked := false)
    case TransmitRequest(b) =>
      var pushed := if |s.tx| == s.size then s.tx else s.tx + [b];
      var s1 := s.(tx := pushed, submitted := s.submitted + [b], txBlocked := |pushed| == s.size);
      if s1.awaitingTransmit then s1
      else if pushed == [] then s1.(awaitingTransmit := true)
      else s1.(awaitingTransmit := true, uart := s.uart + [pushed[0]], tx := pushed[1..])
    case Unknown => s
  }

  /** A secretary sends one request at a time. */
  predicate Enabled(s: Serial, req: Request) {
    (req.TransmitRequest? ==> !s.txBlocked) && (req.ReceiveRequest? ==> !s.rxBlocked)
  }

  predicate Legal(s: Serial, reqs: seq<Request>, rearm: bool)
    decreases |reqs|
  {
    reqs == [] || (Enabled(s, reqs[0]) && Legal(Step(s, reqs[0], rearm), reqs[1..], rearm))
  }

  function Run(s: Serial, reqs: seq<Request>, rearm: bool): Serial
    decreases |reqs|
  {
    if reqs == [] then s else Run(Step(s, reqs[0], rearm), reqs[1..], rearm)
  }

  // ------------------------------------------------------------------ what the requests alone say

  /** The bytes that came in over the wire, in order. */
  function ReceivedIn(reqs: seq<Request>): seq<Byte> {
    if reqs == [] then []
    else (if reqs[0].Notify? && reqs[0].received.Some? then [reqs[0].received.value] else []) + ReceivedIn(reqs[1..])
  }

  /** The bytes handed in to be sent, in order. */
  function SubmittedIn(reqs: seq<Request>): seq<Byte> {
    if reqs == [] then []
    else (if reqs[0].TransmitRequest? then [reqs[0].data] else []) + SubmittedIn(reqs[1..])
  }

  /** How many bytes the receive secretary asked for. */
  function AskedIn(reqs: seq<Request>): nat {
    if reqs == [] then 0 else (if reqs[0].ReceiveRequest? then 1 else 0) + AskedIn(reqs[1..])
  }

  /** How many received bytes nobody has asked for yet, or -1 when somebody waits for one: a byte that
      comes in when there are as many as the ring holds is lost. */
  function Backlog(size: nat, backlog: int, req: Request): int {
    match req
    case Notify(Some(_), _) => if backlog == size then backlog else backlog + 1
    case ReceiveRequest => backlog - 1
    case _ => backlog
  }

  /** Which bytes get lost, by position, the first one being the at-th to come in. */
  function LostIn(size: nat, backlog: int, at: nat, reqs: seq<Request>): set<nat>
    decreases |reqs|
  {
    if reqs == [] then {}
    else
      var arrives := reqs[0].Notify? && reqs[0].received.Some?;
      (if arrives && backlog == size then {at} else {}) +
      LostIn(size, Backlog(size, backlog, reqs[0]), if arrives then at + 1 else at, reqs[1..])
  }

  /** How many bytes wait to be sent, and whether the transmitter's interrupt is awaited. */
  datatype Line = Line(waiting: nat, awaited: bool)

  /** The line after a request: the first byte handed to an idle transmitter goes out at once, and one more
      goes out whenever an awaited transmitter is found empty. */
  function NextLine(l: Line, req: Request, rearm: bool): Line {
    if req.TransmitRequest? then Line(if l.awaited then l.waiting + 1 else l.waiting, true)
    else if req.Notify? && req.txEmpty && l.awaited then
      if l.waiting == 0 then Line(0, false) else Line(l.waiting - 1, rearm)
    else l
  }

  /** Whether a request puts a byte on the wire. */
  predicate Sends(l: Line, req: Request) {
    (req.TransmitRequest? && !l.awaited) || (req.Notify? && req.txEmpty && l.awaited && l.waiting > 0)
  }

  /** How many bytes go out. */
  function SentIn(l: Line, reqs: seq<Request>, rearm: bool): nat
    decreases |reqs|
  {
    if reqs == [] then 0
    else (if Sends(l, reqs[0]) then 1 else 0) + SentIn(NextLine(l, reqs[0], rearm), reqs[1..], rearm)
  }

  function LineOf(s: Serial): Line {
    Line(|s.tx|, s.awaitingTransmit)
  }

  lemma StepSends(s: Serial, req: Request, rearm: bool)
    requires Conserves(s) && Enabled(s, req)
    ensures var s' := Step(s, req, rearm);
            && LineOf(s') == NextLine(LineOf(s), req, rearm)
            && |s'.uart| == |s.uart| + if Sends(LineOf(s), req) then 1 else 0
  {
    if req.Notify? {
      var s1 := if req.received.Some? then TakeByte(s, req.received.value) else s;
      assert s1.tx == s.tx && s1.awaitingTransmit == s.awaitingTransmit && s1.uart == s.uart;
      hide TakeByte;
    }
  }

  function BacklogOf(s: Serial): int {
    |s.rx| - if s.awaitingReceive then 1 else 0
  }

  lemma TakeByteReads(s: Serial, b: Byte)
    requires Conserves(s)
    ensures var s' := TakeByte(s, b);
            && s'.received == s.received + [b] && s'.submitted == s.submitted && s'.size == s.size
            && s'.lost == s.lost + (if BacklogOf(s) == s.size then {|s.received|} else {})
            && BacklogOf(s') == (if BacklogOf(s) == s.size then s.size else BacklogOf(s) + 1)
            && |s'.delivered| + (if s'.awaitingReceive then 1 else 0) ==
               |s.delivered| + if s.awaitingReceive then 1 else 0
  {
  }

  lemma SendNextReads(s: Serial, rearm: bool)
    ensures var s' := SendNext(s, rearm);
            && s'.received == s.received && s'.submitted == s.submitted && s'.size == s.size && s'.lost == s.lost
            && s'.rx == s.rx && s'.awaitingReceive == s.awaitingReceive && s'.delivered == s.delivered
  {
  }

  /** One request is read as it stands. */
  lemma StepReads(s: Serial, req: Request, rearm: bool)
    requires Conserves(s) && Enabled(s, req)
    ensures var s' := Step(s, req, rearm);
            && s'.received == s.received + ReceivedIn([req]) && s'.submitted == s.submitted + SubmittedIn([req])
            && s'.lost == s.lost + LostIn(s.size, BacklogOf(s), |s.received|, [req])
            && BacklogOf(s') == Backlog(s.size, BacklogOf(s), req) && s'.size == s.size
            && |s'.delivered| + (if s'.awaitingReceive then 1 else 0) ==
               |s.delivered| + (if s.awaitingReceive then 1 else 0) + AskedIn([req])
  {
    hide Conserves;
    OneSays(s.size, BacklogOf(s), |s.received|, req);
    hide ReceivedIn, SubmittedIn, AskedIn, LostIn;
    match req {
      case Notify(received, txEmpty) => NoticeReads(s, received, txEmpty, rearm);
      case ReceiveRequest => AskingReads(s, rearm);
      case _ => OtherReads(s, req, rearm);
    }
  }

  /** What one request says. */
  lemma OneSays(size: nat, backlog: int, at: nat, req: Request)
    ensures var arrives := req.Notify? && req.received.Some?;
            && ReceivedIn([req]) == (if arrives then [req.received.value] else [])
            && SubmittedIn([req]) == (if req.TransmitRequest? then [req.data] else [])
            && AskedIn([req]) == (if req.ReceiveRequest? then 1 else 0)
            && LostIn(size, backlog, at, [req]) == if arrives && backlog == size then {at} else {}
  {
    assert [req][1..] == [];
  }

  lemma NoticeReads(s: Serial, received: Option<Byte>, txEmpty: bool, rearm: bool)
    requires Conserves(s)
    ensures var req := Notify(received, txEmpty);
            var s' := Step(s, req, rearm);
            && s'.received == s.received + (if received.Some? then [received.value] else [])
            && s'.submitted == s.submitted && s'.size == s.size
            && s'.lost == s.lost + (if received.Some? && BacklogOf(s) == s.size then {|s.received|} else {})
            && BacklogOf(s') == Backlog(s.size, BacklogOf(s), req)
            && |s'.delivered| + (if s'.awaitingReceive then 1 else 0) ==
               |s.delivered| + if s.awaitingReceive then 1 else 0
  {
    hide Conserves, TakeByte, SendNext;
    if received.Some? { TakeByteReads(s, received.value); }
    SendNextReads(if received.Some? then TakeByte(s, received.value) else s, rearm);
  }

  lemma OtherReads(s: Serial, req: Request, rearm: bool)
    requires req.TransmitRequest? || req.Unknown?
    ensures var s' := Step(s, req, rearm);
            && s'.submitted == s.submitted + (if req.TransmitRequest? then [req.data] else [])
            && s' == s.(tx := s'.tx, uart := s'.uart, submitted := s'.submitted, txBlocked := s'.txBlocked,
                        awaitingTransmit := s'.awaitingTransmit)
  {
  }

  lemma AskingReads(s: Serial, rearm: bool)
    requires Conserves(s) && Enabled(s, ReceiveRequest)
    ensures var s' := Step(s, ReceiveRequest, rearm);
            && s' == s.(rx := s'.rx, awaitingReceive := s'.awaitingReceive, rxBlocked := s'.rxBlocked,
                        delivered := s'.delivered)
            && BacklogOf(s') == BacklogOf(s) - 1
            && |s'.delivered| + (if s'.awaitingReceive then 1 else 0) ==
               |s.delivered| + (if s.awaitingReceive then 1 else 0) + 1
  {
  }

  // ------------------------------------------------------------------ nothing is lost or reordered

  /** s without the positions in `out`. */
  function Except(s: seq<Byte>, out: set<nat>): seq<Byte> {
    if s == [] then []
    else Except(s[..|s| - 1], out) + if |s| - 1 in out then [] else [s[|s| - 1]]
  }

  lemma ExceptGrown(s: seq<Byte>, b: Byte, out: set<nat>)
    requires forall p :: p in out ==> p < |s|
    ensures Except(s + [b], out) == Except(s, out) + [b]
    ensures Except(s + [b], out + {|s|}) == Except(s, out)
  {
    assert (s + [b])[..|s|] == s;
    ExceptIrrelevant(s, out, |s|);
  }

  lemma {:induction false} ExceptIrrelevant(s: seq<Byte>, out: set<nat>, p: nat)
    requires p >= |s|
    ensures Except(s, out + {p}) == Except(s, out)
  {
    if s != [] { ExceptIrrelevant(s[..|s| - 1], out, p); }
  }

  /** Holds with the flag set again and without. */
  ghost predicate Conserves(s: Serial) {
    && |s.tx| <= s.size && |s.rx| <= s.size && s.size > 0
    && (!s.txBlocked ==> |s.tx| < s.size)
    && s.uart + s.tx == s.submitted
    && (forall p :: p in s.lost ==> p < |s.received|)
    && s.delivered + s.rx == Except(s.received, s.lost)
    && (s.awaitingReceive ==> s.rx == [])
    && (s.awaitingReceive <==> s.rxBlocked)
  }

  lemma TakeByteConserves(s: Serial, b: Byte)
    requires Conserves(s)
    ensures Conserves(TakeByte(s, b))
  {
    ExceptGrown(s.received, b, s.lost);
    if s.awaitingReceive {
      assert s.delivered + s.rx == s.delivered;
    }
  }

  lemma SendNextConserves(s: Serial, rearm: bool)
    requires Conserves(s)
    ensures Conserves(SendNext(s, rearm))
  {
    if s.tx != [] {
      assert s.uart + [s.tx[0]] + s.tx[1..] == s.uart + s.tx;
    }
  }

  lemma TransmitConserves(s: Serial, b: Byte, rearm: bool)
    requires Conserves(s) && !s.txBlocked
    ensures Conserves(Step(s, TransmitRequest(b), rearm))
  {
    var pushed := s.tx + [b];
    assert s.uart + pushed == s.submitted + [b];
    assert s.uart + [pushed[0]] + pushed[1..] == s.uart + pushed;
  }

  lemma StepConserves(s: Serial, req: Request, rearm: bool)
    requires Conserves(s) && Enabled(s, req)
    ensures Conserves(Step(s, req, rearm))
  {
    match req {
      case Notify(received, txEmpty) =>
        hide Conserves, TakeByte, SendNext;
        if received.Some? { TakeByteConserves(s, received.value); }
        SendNextConserves(if received.Some? then TakeByte(s, received.value) else s, rearm);
      case ReceiveRequest =>
        if s.rx != [] {
          assert s.delivered + [s.rx[0]] + s.rx[1..] == s.delivered + s.rx;
        }
      case TransmitRequest(b) =>
        TransmitConserves(s, b, rearm);
      case Unknown =>
    }
  }

  /** What a run from s to s' read off its requests: the bytes received, submitted and lost, and a byte
      for every request of the receive secretary but one that still waits; and how many bytes went out. */
  ghost predicate Reads(s: Serial, reqs: seq<Request>, s': Serial, rearm: bool) {
    && s'.size == s.size
    && s'.received == s.received + ReceivedIn(reqs)
    && s'.submitted == s.submitted + SubmittedIn(reqs)
    && s'.lost == s.lost + LostIn(s.size, BacklogOf(s), |s.received|, reqs)
    && |s'.delivered| + (if s'.awaitingReceive then 1 else 0) ==
       |s.delivered| + (if s.awaitingReceive then 1 else 0) + AskedIn(reqs)
    && |s'.uart| == |s.uart| + SentIn(LineOf(s), reqs, rearm)
  }

  lemma ReadsNothing(s: Serial, rearm: bool)
    ensures Reads(s, [], s, rearm)
  {
  }

  lemma ReadsOneMore(s: Serial, s1: Serial, reqs: seq<Request>, s': Serial, rearm: bool)
    requires Conserves(s) && reqs != [] && Enabled(s, reqs[0]) && s1 == Step(s, reqs[0], rearm)
    requires Reads(s1, reqs[1..], s', rearm)
    ensures Reads(s, reqs, s', rearm)
  {
    hide Conserves, Step, Backlog, ReceivedIn, SubmittedIn, AskedIn, LostIn, NextLine, Sends;
    StepSends(s, reqs[0], rearm);
    StepReads(s, reqs[0], rearm);
    FirstApart(s.size, BacklogOf(s), |s.received|, reqs);
    var received, submitted := ReceivedIn([reqs[0]]), SubmittedIn([reqs[0]]);
    assert s.received + received + ReceivedIn(reqs[1..]) == s.received + (received + ReceivedIn(reqs[1..]));
    assert s.submitted + submitted + SubmittedIn(reqs[1..]) == s.submitted + (submitted + SubmittedIn(reqs[1..]));
  }

  /** What the requests say is what the first one says and then what the others say. */
  lemma FirstApart(size: nat, backlog: int, at: nat, reqs: seq<Request>)
    requires reqs != []
    ensures var first, rest := [reqs[0]], reqs[1..];
            && ReceivedIn(reqs) == ReceivedIn(first) + ReceivedIn(rest)
            && SubmittedIn(reqs) == SubmittedIn(first) + SubmittedIn(rest)
            && AskedIn(reqs) == AskedIn(first) + AskedIn(rest)
            && LostIn(size, backlog, at, reqs) ==
               LostIn(size, backlog, at, first) +
               LostIn(size, Backlog(size, backlog, reqs[0]), at + |ReceivedIn(first)|, rest)
  {
    hide Backlog;
    assert [reqs[0]][1..] == [];
  }

  /** In every run, with the flag set again or as written: the bytes on the wire followed by the
      transmit ring are the bytes that the requests submitted; the bytes delivered followed by the
      receive ring are the bytes that the requests brought in but for exactly those that found the
      ring full and nobody waiting; every request for a byte was answered with one, but for the one
      that still waits; a byte goes out whenever the transmitter is idle or found empty; and no submitted
      byte ever meets a full ring. */
  lemma {:induction false} EveryRunConserves(s: Serial, reqs: seq<Request>, rearm: bool)
    requires Conserves(s) && Legal(s, reqs, rearm)
    ensures Conserves(Run(s, reqs, rearm)) && Reads(s, reqs, Run(s, reqs, rearm), rearm)
    decreases |reqs|
  {
    hide Step, Conserves, Reads;
    if reqs == [] {
      ReadsNothing(s, rearm);
    } else {
      var s1 := Step(s, reqs[0], rearm);
      StepConserves(s, reqs[0], rearm);
      EveryRunConserves(s1, reqs[1..], rearm);
      ReadsOneMore(s, s1, reqs, Run(s1, reqs[1..], rearm), rearm);
    }
  }

  // ------------------------------------------------------------------ back-pressure

  /** A byte waiting to be sent has an interrupt to wait for, and the transmit secretary is held
      back exactly while the ring is full. */
  ghost predicate Pressure(s: Serial) {
    && s.size >= 2 && |s.tx| <= s.size
    && (s.tx != [] ==> s.awaitingTransmit)
    && (s.txBlocked <==> |s.tx| == s.size)
  }

  lemma StepKeepsPressure(s: Serial, req: Request)
    requires Pressure(s) && Enabled(s, req)
    ensures Pressure(Step(s, req, true))
  {
  }

  lemma {:induction false} EveryRunKeepsPressure(s: Serial, reqs: seq<Request>)
    requires Pressure(s) && Legal(s, reqs, true)
    ensures Pressure(Run(s, reqs, true))
    decreases |reqs|
  {
    hide Step, Pressure;
    if reqs != [] {
      StepKeepsPressure(s, reqs[0]);
      EveryRunKeepsPressure(Step(s, reqs[0], true), reqs[1..]);
    }
  }

  lemma AtStart(size: nat)
    requires size > 0
    ensures Conserves(Init(size)) && BacklogOf(Init(size)) == 0
    ensures size >= 2 ==> Pressure(Init(size))
  {
    assert Except([], {}) == [];
  }

  /** From start-up on, in terms of the requests alone: the wire and the transmit ring hold what was
      submitted, with as many bytes on the wire as found the transmitter idle or empty; the bytes
      delivered and the receive ring are what came in but for the bytes that found a backlog as long as
      the ring; there is a byte for every request for one, or one such request waits; and with the flag
      set again the back-pressure is exact. */
  lemma FromStartUp(size: nat, reqs: seq<Request>, rearm: bool)
    requires size > 0 && Legal(Init(size), reqs, rearm)
    ensures var s := Run(Init(size), reqs, rearm);
            && s.uart + s.tx == SubmittedIn(reqs) && |s.uart| == SentIn(Line(0, false), reqs, rearm)
            && s.delivered + s.rx == Except(ReceivedIn(reqs), LostIn(size, 0, 0, reqs))
            && |s.delivered| == AskedIn(reqs) - (if s.awaitingReceive then 1 else 0)
            && (s.awaitingReceive ==> s.rx == []) && |s.rx| <= size && |s.tx| <= size
    ensures rearm && size >= 2 ==> Pressure(Run(Init(size), reqs, rearm))
  {
    hide Run, Legal, Step, Except, LostIn, Pressure;
    AtStart(size);
    EveryRunConserves(Init(size), reqs, rearm);
    var s := Run(Init(size), reqs, rearm);
    assert s.lost == LostIn(size, 0, 0, reqs) && s.received == ReceivedIn(reqs) && s.submitted == SubmittedIn(reqs);
    if rearm && size >= 2 { EveryRunKeepsPressure(Init(size), reqs); }
  }

  /** How many of the requests find the transmitter empty. */
  function Notices(reqs: seq<Request>): nat {
    if reqs == [] then 0 else (if reqs[0].Notify? && reqs[0].txEmpty then 1 else 0) + Notices(reqs[1..])
  }

  /** One request never takes a byte off the wire, and a transmitter-empty notice puts the oldest
      waiting byte on it. */
  lemma StepProgress(s: Serial, req: Request)
    requires Pressure(s)
    ensures var s' := Step(s, req, true);
            && s.uart <= s'.uart
            && |s'.uart| + |s'.tx| >= |s.uart| + |s.tx|
            && (req.Notify? && req.txEmpty && s.tx != [] ==> |s'.uart| == |s.uart| + 1)
  {
  }

  /** Once as many transmitter-empty notices have come as there are bytes in the ring, every one of
      those bytes is on the wire, whatever else was requested in between. */
  lemma {:induction false} NoticesDrain(s: Serial, reqs: seq<Request>)
    requires Pressure(s) && Legal(s, reqs, true)
    ensures s.uart <= Run(s, reqs, true).uart
    ensures |Run(s, reqs, true).uart| >= |s.uart| + if Notices(reqs) < |s.tx| then Notices(reqs) else |s.tx|
    decreases |reqs|
  {
    hide Step, Pressure;
    if reqs != [] {
      var s' := Step(s, reqs[0], true);
      StepProgress(s, reqs[0]);
      StepKeepsPressure(s, reqs[0]);
      NoticesDrain(s', reqs[1..]);
    }
  }

  lemma StepSubmits(s: Serial, req: Request, rearm: bool)
    ensures s.submitted <= Step(s, req, rearm).submitted
  {
    match req {
      case Notify(received, txEmpty) =>
        NoticeSubmits(s, received, txEmpty, rearm);
      case _ =>
    }
  }

  lemma NoticeSubmits(s: Serial, received: Option<Byte>, txEmpty: bool, rearm: bool)
    ensures Step(s, Notify(received, txEmpty), rearm).submitted == s.submitted
  {
  }

  lemma {:induction false} SubmittedGrows(s: Serial, reqs: seq<Request>, rearm: bool)
    requires Legal(s, reqs, rearm)
    ensures s.submitted <= Run(s, reqs, rearm).submitted
    decreases |reqs|
  {
    hide Step;
    if reqs != [] {
      StepSubmits(s, reqs[0], rearm);
      SubmittedGrows(Step(s, reqs[0], rearm), reqs[1..], rearm);
    }
  }

  /** Everything submitted so far is on the wire, in order, after one notice for each byte still waiting. */
  lemma SubmittedIsSent(s: Serial, reqs: seq<Request>)
    requires Conserves(s) && Pressure(s) && Legal(s, reqs, true) && Notices(reqs) >= |s.tx|
    ensures s.submitted <= Run(s, reqs, true).uart
  {
    var s' := Run(s, reqs, true);
    NoticesDrain(s, reqs);
    EveryRunConserves(s, reqs, true);
    SubmittedGrows(s, reqs, true);
    assert s'.uart == s'.submitted[..|s'.uart|] && s.submitted == s'.submitted[..|s.submitted|];
  }

  /** The first notice after the ring filled up releases the transmit secretary. */
  lemma NoticeReleases(s: Serial, received: Option<Byte>)
    requires Pressure(s) && s.txBlocked
    ensures !Step(s, Notify(received, true), true).txBlocked
    ensures |Step(s, Notify(received, true), true).tx| == s.size - 1
  {
  }

  /** As written, a submission keeps the secretary's state in step with the ring exactly when a byte
      was already being awaited or the ring has room for two. */
  lemma SubmissionAsWritten(s: Serial, b: Byte)
    requires s.size >= 2 && |s.tx| < s.size && !s.txBlocked
    ensures var s' := Step(s, TransmitRequest(b), false);
            (s'.txBlocked <==> |s'.tx| == s.size) <==> s.awaitingTransmit || |s.tx| != s.size - 1
  {
  }

  /** As written, the notice that sends a byte keeps an interrupt to wait for exactly when that was the
      last byte waiting. */
  lemma NoticeAsWritten(s: Serial, received: Option<Byte>)
    requires s.awaitingTransmit
    ensures var s' := Step(s, Notify(received, true), false);
            (s'.tx != [] ==> s'.awaitingTransmit) <==> |s.tx| <= 1
  {
  }

  predicate Submits(reqs: seq<Request>) {
    exists i :: 0 <= i < |reqs| && reqs[i].TransmitRequest?
  }

  /** As written, once nothing is awaited no number of notices moves another byte: only a submission
      sends one. */
  lemma {:induction false} NoticesMoveNothing(s: Serial, reqs: seq<Request>)
    requires !s.awaitingTransmit && !Submits(reqs)
    ensures var s' := Run(s, reqs, false); s'.uart == s.uart && s'.tx == s.tx && !s'.awaitingTransmit
    decreases |reqs|
  {
    if reqs != [] {
      var s1 := Step(s, reqs[0], false);
      assert s1.uart == s.uart && s1.tx == s.tx && !s1.awaitingTransmit by { assert !reqs[0].TransmitRequest?; }
      assert forall i :: 0 <= i < |reqs| - 1 ==> reqs[1..][i] == reqs[i + 1];
      NoticesMoveNothing(s1, reqs[1..]);
    }
  }

  /** A notice that sends a byte and leaves others behind. */
  predicate Strands(s: Serial, req: Request) {
    req.Notify? && req.txEmpty && s.awaitingTransmit && |s.tx| > 1
  }

  /** A submission that finds nothing awaited and room for just one byte. */
  predicate LosesWakeUp(s: Serial, req: Request) {
    req.TransmitRequest? && !s.awaitingTransmit && |s.tx| == s.size - 1
  }

  predicate WakeUpLost(s: Serial, reqs: seq<Request>, rearm: bool)
    decreases |reqs|
  {
    reqs != [] && (LosesWakeUp(s, reqs[0]) || WakeUpLost(Step(s, reqs[0], rearm), reqs[1..], rearm))
  }

  /** The secretary is held back exactly while the ring is full. */
  predicate InTune(s: Serial) {
    s.size >= 2 && |s.tx| <= s.size && (s.txBlocked <==> |s.tx| == s.size)
  }

  lemma StepInTune(s: Serial, req: Request)
    requires InTune(s) && Enabled(s, req)
    ensures var s' := Step(s, req, false);
            s'.size == s.size && if LosesWakeUp(s, req) then Stuck(s') else InTune(s')
  {
    if req.Notify? {
      NoticeInTune(s, req.received, req.txEmpty);
    }
  }

  lemma NoticeInTune(s: Serial, received: Option<Byte>, txEmpty: bool)
    requires InTune(s)
    ensures var s' := Step(s, Notify(received, txEmpty), false); s'.size == s.size && InTune(s')
  {
    hide TakeByte, SendNext;
    var s1 := if received.Some? then TakeByte(s, received.value) else s;
    if received.Some? { ByteInTune(s, received.value); }
    NextInTune(s1);
  }

  lemma ByteInTune(s: Serial, b: Byte)
    requires InTune(s)
    ensures TakeByte(s, b).size == s.size && InTune(TakeByte(s, b))
  {
  }

  lemma NextInTune(s: Serial)
    requires InTune(s)
    ensures SendNext(s, false).size == s.size && InTune(SendNext(s, false))
  {
  }

  /** As written, a run from a state in tune ends stuck if and only if some submission in it found
      nothing awaited and room for just one byte; otherwise it ends in tune. */
  lemma {:induction false} StuckExactly(s: Serial, reqs: seq<Request>)
    requires InTune(s) && Legal(s, reqs, false)
    ensures Stuck(Run(s, reqs, false)) <==> WakeUpLost(s, reqs, false)
    ensures InTune(Run(s, reqs, false)) <==> !WakeUpLost(s, reqs, false)
    decreases |reqs|
  {
    hide Step;
    if reqs != [] {
      var s1 := Step(s, reqs[0], false);
      StepInTune(s, reqs[0]);
      if LosesWakeUp(s, reqs[0]) {
        StuckForEver(s1, reqs[1..], false);
      } else {
        StuckExactly(s1, reqs[1..]);
      }
    }
  }

  /** As written, the bytes waiting have an interrupt to wait for after every request of a run if and
      only if no notice in it found more than one byte waiting. */
  lemma {:induction false} StrandedExactly(s: Serial, reqs: seq<Request>)
    requires s.size > 0 && |s.tx| <= s.size && (s.tx != [] ==> s.awaitingTransmit)
    ensures AlwaysAwaited(s, reqs) <==> !EverStrands(s, reqs)
    decreases |reqs|
  {
    hide Step;
    if reqs != [] {
      StepAwaited(s, reqs[0]);
      if !Strands(s, reqs[0]) { StrandedExactly(Step(s, reqs[0], false), reqs[1..]); }
    }
  }

  lemma StepAwaited(s: Serial, req: Request)
    requires s.size > 0 && |s.tx| <= s.size && (s.tx != [] ==> s.awaitingTransmit)
    ensures var s' := Step(s, req, false);
            s'.size == s.size && |s'.tx| <= s.size && ((s'.tx != [] ==> s'.awaitingTransmit) <==> !Strands(s, req))
  {
    if req.Notify? {
      hide TakeByte;
      if req.received.Some? { ByteSendsNothing(s, req.received.value); }
    }
  }

  lemma ByteSendsNothing(s: Serial, b: Byte)
    ensures var s' := TakeByte(s, b);
            s'.size == s.size && s'.tx == s.tx && s'.awaitingTransmit == s.awaitingTransmit
  {
  }

  /** A waiting byte has an interrupt to wait for, now and after each request. */
  predicate AlwaysAwaited(s: Serial, reqs: seq<Request>)
    decreases |reqs|
  {
    (s.tx != [] ==> s.awaitingTransmit) && (reqs != [] ==> AlwaysAwaited(Step(s, reqs[0], false), reqs[1..]))
  }

  predicate EverStrands(s: Serial, reqs: seq<Request>)
    decreases |reqs|
  {
    reqs != [] && (Strands(s, reqs[0]) || EverStrands(Step(s, reqs[0], false), reqs[1..]))
  }

  /** A secretary held back beside a ring with room is held back for ever. */
  ghost predicate Stuck(s: Serial) {
    s.txBlocked && |s.tx| < s.size
  }

  lemma StepStuck(s: Serial, req: Request, rearm: bool)
    requires Stuck(s) && Enabled(s, req)
    ensures Stuck(Step(s, req, rearm)) && Step(s, req, rearm).submitted == s.submitted
  {
    if req.Notify? {
      NoticeStuck(s, req.received, req.txEmpty, rearm);
    }
  }

  lemma NoticeStuck(s: Serial, received: Option<Byte>, txEmpty: bool, rearm: bool)
    requires Stuck(s)
    ensures var s' := Step(s, Notify(received, txEmpty), rearm); Stuck(s') && s'.submitted == s.submitted
  {
    hide TakeByte, SendNext;
    var s1 := if received.Some? then TakeByte(s, received.value) else s;
    if received.Some? { ByteStuck(s, received.value); }
    NextStuck(s1, rearm);
  }

  lemma ByteStuck(s: Serial, b: Byte)
    requires Stuck(s)
    ensures Stuck(TakeByte(s, b)) && TakeByte(s, b).submitted == s.submitted
  {
  }

  lemma NextStuck(s: Serial, rearm: bool)
    requires Stuck(s)
    ensures Stuck(SendNext(s, rearm)) && SendNext(s, rearm).submitted == s.submitted
  {
  }

  lemma {:induction false} StuckForEver(s: Serial, reqs: seq<Request>, rearm: bool)
    requires Stuck(s) && Legal(s, reqs, rearm)
    ensures Stuck(Run(s, reqs, rearm)) && Run(s, reqs, rearm).submitted == s.submitted
    decreases |reqs|
  {
    hide Step, Stuck;
    if reqs != [] {
      StepStuck(s, reqs[0], rearm);
      StuckForEver(Step(s, reqs[0], rearm), reqs[1..], rearm);
    }
  }

  function Submissions(b: Byte, n: nat): seq<Request> {
    seq(n, _ => TransmitRequest(b))
  }

  /** n bytes submitted to a server that awaits the transmitter just fill its ring. */
  lemma {:induction false} Fill(s: Serial, b: Byte, n: nat, rearm: bool)
    requires s.awaitingTransmit && !s.txBlocked && |s.tx| + n <= s.size && |s.tx| < s.size
    ensures Legal(s, Submissions(b, n), rearm)
    ensures var s' := Run(s, Submissions(b, n), rearm);
            |s'.tx| == |s.tx| + n && s'.awaitingTransmit && (s'.txBlocked <==> |s'.tx| == s.size) && s'.size == s.size
    decreases n
  {
    if n > 0 {
      assert Submissions(b, n)[1..] == Submissions(b, n - 1);
      var s' := Step(s, TransmitRequest(b), rearm);
      if |s'.tx| < s.size {
        Fill(s', b, n - 1, rearm);
      } else {
        assert Submissions(b, n - 1) == [];
      }
    }
  }

  lemma {:induction false} RunConcat(s: Serial, xs: seq<Request>, ys: seq<Request>, rearm: bool)
    ensures Run(s, xs + ys, rearm) == Run(Run(s, xs, rearm), ys, rearm)
    ensures Legal(s, xs + ys, rearm) <==> Legal(s, xs, rearm) && Legal(Run(s, xs, rearm), ys, rearm)
    decreases |xs|
  {
    if xs == [] {
      assert xs + ys == ys;
    } else {
      assert (xs + ys)[1..] == xs[1..] + ys;
      RunConcat(Step(s, xs[0], rearm), xs[1..], ys, rearm);
    }
  }

  /** As written, for every ring size: three bytes are submitted and the transmitter empties once. Two of
      them are on the wire then, the last one waits with nothing awaited, and no number of notices and
      receive requests sends it. */
  lemma ByteStranded(size: nat, b: Byte, later: seq<Request>)
    requires size >= 2 && !Submits(later)
    ensures var trace := [TransmitRequest(b), TransmitRequest(b), TransmitRequest(b), Notify(None, true)];
            var s, s' := Run(Init(size), trace, false), Run(Init(size), trace + later, false);
            && Legal(Init(size), trace, false) && EverStrands(Init(size), trace)
            && s.submitted == [b, b, b] && s.uart == [b, b] && s.tx == [b] && !s.awaitingTransmit
            && s'.uart == s.uart && s'.tx == s.tx && !s'.awaitingTransmit
  {
    var submit, notice := TransmitRequest(b), Notify(None, true);
    var trace := [submit, submit, submit, notice];
    var s1 := Step(Init(size), submit, false);
    var s2 := Step(s1, submit, false);
    var s3 := Step(s2, submit, false);
    var s4 := Step(s3, notice, false);
    assert trace[1..] == [submit, submit, notice] && trace[1..][1..] == [submit, notice];
    assert trace[1..][1..][1..] == [notice] && [notice][1..] == [];
    OneMore(Init(size), trace, false);
    OneMore(s1, trace[1..], false);
    OneMore(s2, [submit, notice], false);
    OneMore(s3, [notice], false);
    RunConcat(Init(size), trace, later, false);
    NoticesMoveNothing(s4, later);
  }

  lemma OneMore(s: Serial, reqs: seq<Request>, rearm: bool)
    requires reqs != []
    ensures Run(s, reqs, rearm) == Run(Step(s, reqs[0], rearm), reqs[1..], rearm)
    ensures Legal(s, reqs, rearm) <==> Enabled(s, reqs[0]) && Legal(Step(s, reqs[0], rearm), reqs[1..], rearm)
    ensures EverStrands(s, reqs) <==> Strands(s, reqs[0]) || EverStrands(Step(s, reqs[0], false), reqs[1..])
  {
  }

  /** As written, for every ring size: fill the ring, let one byte go, submit one more, and no
      sequence of requests ever releases the secretary or takes another byte. */
  lemma WakeUpLostForEver(size: nat, b: Byte, later: seq<Request>)
    requires size >= 2
    ensures var trace := Submissions(b, 1 + size) + [Notify(None, true), TransmitRequest(b)];
            var s := Run(Init(size), trace, false);
            && Legal(Init(size), trace, false) && Stuck(s)
            && (Legal(s, later, false) ==> Stuck(Run(s, later, false)) && Run(s, later, false).submitted == s.submitted)
  {
    var first := Step(Init(size), TransmitRequest(b), false);
    assert Submissions(b, 1 + size)[1..] == Submissions(b, size);
    Fill(first, b, size, false);
    var full := Run(Init(size), Submissions(b, 1 + size), false);
    assert full == Run(first, Submissions(b, size), false);
    var tail := [Notify(None, true), TransmitRequest(b)];
    RunConcat(Init(size), Submissions(b, 1 + size), tail, false);
    var popped := Step(full, tail[0], false);
    var s := Step(popped, tail[1], false);
    assert tail[1..] == [tail[1]] && tail[1..][1..] == [];
    assert Run(full, tail, false) == Run(popped, tail[1..], false) == s;
    assert Legal(popped, tail[1..], false) && Legal(full, tail, false);
    assert Legal(Init(size), Submissions(b, 1 + size), false);
    if Legal(s, later, false) { StuckForEver(s, later, false); }
  }
}
