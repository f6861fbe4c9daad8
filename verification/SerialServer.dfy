/** The request loop of usr/serialserver.c: one method per request type. */
module SerialServers {
  import opened Cells
  import opened CyclicBuffers
  import opened SerialModel

  class SerialServer {
    const transmit: CyclicBuffer
    const receive: CyclicBuffer
    /** Whether awaitingTransmit is set again when the notifier sends the next byte; false in the source. */
    const rearm: bool
    var awaitingReceive: bool
    var awaitingTransmit: bool
    // what the server's replies and device writes amount to
    ghost var txBlocked: bool
    ghost var rxBlocked: bool
    ghost var uart: seq<Byte>
    ghost var delivered: seq<Byte>
    ghost var submitted: seq<Byte>
    ghost var received: seq<Byte>
    ghost var lost: set<nat>

    ghost predicate Valid()
      reads this, transmit, receive
    {
      && transmit != receive && transmit.data != receive.data
      && transmit.Valid() && receive.Valid() && transmit.data.Length == receive.data.Length
    }

    ghost function Abs(): Serial
      requires Valid()
      reads this, transmit, transmit.data, receive, receive.data
    {
      Serial(transmit.data.Length, transmit.Contents(), receive.Contents(), awaitingReceive, awaitingTransmit,
             txBlocked, rxBlocked, uart, delivered, submitted, received, lost)
    }

    constructor (size: nat, setAgain: bool)
      requires size > 0
      ensures Valid() && Abs() == Init(size) && rearm == setAgain
      ensures fresh(transmit) && fresh(transmit.data) && fresh(receive) && fresh(receive.data)
    {
      var ring := new CyclicBuffer(size);
      transmit := ring;
      ring := new CyclicBuffer(size);
      receive := ring;
      rearm := setAgain;
      awaitingReceive, awaitingTransmit := false, false;
      txBlocked, rxBlocked, uart, delivered, submitted, received, lost := false, false, [], [], [], [], {};
    }

    method ReplyToReceiver(b: Byte)
      modifies this`rxBlocked, this`delivered
      ensures !rxBlocked && delivered == old(delivered) + [b]
    {
      rxBlocked, delivered := false, delivered + [b];
    }

    method ReplyToTransmitter()
      modifies this`txBlocked
      ensures !txBlocked
    {
      txBlocked := false;
    }

    /** A byte popped straight into the data register. */
    method PopToUart()
      requires Valid() && transmit.Contents() != []
      modifies this`uart, transmit`start, transmit`numEls
      ensures Valid() && Abs() == old(Abs()).(uart := old(uart) + [old(Abs()).tx[0]], tx := old(Abs()).tx[1..])
    {
      var ret, b := transmit.Pop();
      uart := uart + [b];
    }

    method ByteReceived(b: Byte)
      requires Valid()
      modifies this, receive, receive.data
      ensures Valid() && Abs() == TakeByte(old(Abs()), b)
    {
      if awaitingReceive {
        awaitingReceive := false;
        ReplyToReceiver(b);
      } else {
        var ret := receive.Push(b);
        if ret == FULL_OR_EMPTY {
          lost := lost + {|received|};
        }
      }
      received := received + [b];
    }

    method ByteTransmitted()
      requires Valid()
      modifies this, transmit
      ensures Valid() && Abs() == SendNext(old(Abs()), rearm)
    {
      awaitingTransmit := false;
      if transmit.IsEmpty() {
        awaitingTransmit := false;
      } else {
        var wasFull := transmit.IsFull();
        PopToUart();
        awaitingTransmit := rearm;
        if wasFull {
          ReplyToTransmitter();
        }
      }
    }

    method NotifierRequest(byte: Option<Byte>, txEmpty: bool)
      requires Valid()
      modifies this, transmit, receive, receive.data
      ensures Valid() && Abs() == Step(old(Abs()), Notify(byte, txEmpty), rearm)
    {
      if byte.Some? {
        ByteReceived(byte.value);
      }
      if awaitingTransmit && txEmpty {
        ByteTransmitted();
      }
    }

    method ReceiveSecretaryRequest()
      requires Valid()
      modifies this, receive
      ensures Valid() && Abs() == Step(old(Abs()), ReceiveRequest, rearm)
    {
      rxBlocked := true;
      if receive.IsEmpty() {
        awaitingReceive := true;
      } else {
        var ret, b := receive.Pop();
        ReplyToReceiver(b);
      }
    }

    method TransmitSecretaryRequest(data: Byte)
      requires Valid()
      modifies this, transmit, transmit.data
      ensures Valid() && Abs() == Step(old(Abs()), TransmitRequest(data), rearm)
    {
      txBlocked, submitted := true, submitted + [data];
      var ret := transmit.Push(data);
      if !transmit.IsFull() {
        ReplyToTransmitter();
      }
      if !awaitingTransmit {
        awaitingTransmit := true;
        PopToUart();
      }
    }
  }
}
