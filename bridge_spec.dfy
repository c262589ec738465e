/** Value-level specification of the bridge sketch: the globals it keeps between
    passes of loop(), what one pass does to them, and the state setup() leaves. */
module BridgeSpec {
  import opened Radio

  /** The sketch's globals: the completion flag written by the DIO1 interrupt,
      whether the last radio operation started was a transmit, the serial
      accumulator and its "something arrived" flag, and the last transmit status. */
  datatype Globals = Globals(
    operationDone: bool,
    transmitFlag: bool,
    inputString: string,
    stringComplete: bool,
    transmissionState: int)

  /** What the environment supplies to one pass of loop(): the characters the
      serial port has available, and the status codes and payload the driver
      returns if the pass calls startTransmit or readData. */
  datatype Iteration = Iteration(
    available: string,
    transmitResult: int,
    readResult: int,
    received: string)

  /** A new state of the globals together with the radio calls and serial
      writes made on the way to it. */
  datatype Outcome = Outcome(next: Globals, radio: seq<RadioCmd>, serial: seq<SerialWrite>)

  /** The globals as statically initialised; setup() leaves them so. */
  const Initial: Globals := Globals(false, false, [], false, ErrNone)

  /** Between passes the accumulator is drained. */
  predicate Quiescent(g: Globals)
  {
    g.inputString == [] && !g.stringComplete
  }

  /** The DIO1 interrupt handler's effect. */
  function Flagged(g: Globals): (flagged: Globals)
  {
    g.(operationDone := true)
  }

  /** sendMessage: record the startTransmit status and mark a transmit as the
      operation in progress, whatever was in progress before. */
  function Sent(g: Globals, result: int): (sent: Globals)
  {
    g.(transmissionState := result, transmitFlag := true)
  }

  /** Whether a pass sends a frame. */
  predicate Sends(g: Globals, it: Iteration)
  {
    g.stringComplete || it.available != []
  }

  /** Whether a pass handles a completion as the end of a transmit. */
  predicate TransmitCompletion(g: Globals, it: Iteration)
  {
    g.operationDone && (Sends(g, it) || g.transmitFlag)
  }

  /** Whether a pass handles a completion as the end of a receive. */
  predicate ReceiveCompletion(g: Globals, it: Iteration)
  {
    g.operationDone && !Sends(g, it) && !g.transmitFlag
  }

  /** One pass of loop(): serial ingestion, then the send, then completion dispatch. */
  function Iterate(g: Globals, it: Iteration): (r: Outcome)
  {
    // every available character is appended, in order
    var ingested := g.(inputString := g.inputString + it.available,
                       stringComplete := g.stringComplete || it.available != []);
    // anything accumulated goes out as one frame, with no check that the radio is free
    var sent := if ingested.stringComplete
                then Sent(ingested.(stringComplete := false), it.transmitResult).(inputString := [])
                else ingested;
    var tx := if ingested.stringComplete then [StartTransmit(ingested.inputString)] else [];
    // a pending completion is dispatched on transmitFlag as it stands after the send
    if !sent.operationDone then
      Outcome(sent, tx, [])
    else if sent.transmitFlag then
      Outcome(sent.(operationDone := false, transmitFlag := false), tx + [StartReceive],
              if sent.transmissionState == ErrNone then []
              else [Print(FailedCode), PrintlnInt(sent.transmissionState)])
    else
      Outcome(sent.(operationDone := false), tx + [ReadData],
              if it.readResult == ErrNone then [Print(it.received)] else [])
  }

  /** The globals after a pass: the completion flag is always consumed, the
      accumulator is emptied exactly when a frame is sent, the status is that
      of the frame's startTransmit, and a transmit stays the operation in
      progress until a completion is observed. */
  lemma IterateState(g: Globals, it: Iteration)
    ensures var r := Iterate(g, it);
      && !r.next.operationDone && !r.next.stringComplete
      && r.next.inputString == (if Sends(g, it) then [] else g.inputString)
      && r.next.transmissionState == (if Sends(g, it) then it.transmitResult else g.transmissionState)
      && r.next.transmitFlag == (!g.operationDone && (Sends(g, it) || g.transmitFlag))
  {
  }

  /** The radio calls of a pass: one transmit carrying the whole accumulator,
      first, exactly when something arrived; then exactly one StartReceive if a
      completion was pending with a transmit in progress, or exactly one
      ReadData if one was pending without; nothing else. */
  lemma IterateRadio(g: Globals, it: Iteration)
    ensures var r := Iterate(g, it);
      && Transmits(r.radio) == (if Sends(g, it) then [g.inputString + it.available] else [])
      && (Sends(g, it) ==> r.radio[0] == StartTransmit(g.inputString + it.available))
      && Count(r.radio, StartReceive) == (if TransmitCompletion(g, it) then 1 else 0)
      && Count(r.radio, ReadData) == (if ReceiveCompletion(g, it) then 1 else 0)
      && |r.radio| == |Transmits(r.radio)| + Dispatches(r.radio)
  {
    var r := Iterate(g, it);
    var frame := g.inputString + it.available;
    var tx := if Sends(g, it) then [StartTransmit(frame)] else [];
    assert Transmits(tx) == if Sends(g, it) then [frame] else [] by {
      assert [StartTransmit(frame)][1..] == [];
    }
    if !g.operationDone {
      assert r.radio == tx;
    } else if TransmitCompletion(g, it) {
      assert r.radio == tx + [StartReceive];
      assert [StartReceive][1..] == [];
      TransmitsAppend(tx, [StartReceive]);
    } else {
      assert r.radio == tx + [ReadData];
      assert [ReadData][1..] == [];
      TransmitsAppend(tx, [ReadData]);
    }
  }

  /** The serial writes of a pass: nothing unless a completion was pending;
      for a transmit completion, the failing status if there is one; for a
      receive completion, the payload verbatim if readData succeeded. */
  lemma IterateSerial(g: Globals, it: Iteration)
    ensures var r := Iterate(g, it);
      && (!g.operationDone ==> r.serial == [])
      && (TransmitCompletion(g, it) ==>
            r.serial == if r.next.transmissionState == ErrNone then []
                        else [Print(FailedCode), PrintlnInt(r.next.transmissionState)])
      && (ReceiveCompletion(g, it) ==>
            r.serial == if it.readResult == ErrNone then [Print(it.received)] else [])
  {
  }

  /** A frame the driver refuses is dropped: the accumulator is emptied whatever
      startTransmit returns, and the refusal is only kept as the status. */
  lemma RefusedFrameDropped(g: Globals, it: Iteration)
    requires Sends(g, it) && it.transmitResult != ErrNone
    ensures var r := Iterate(g, it);
      && Transmits(r.radio) == [g.inputString + it.available]
      && r.next.inputString == [] && !r.next.stringComplete
      && r.next.transmissionState == it.transmitResult
  {
    IterateState(g, it);
    IterateRadio(g, it);
  }

  /** Send and dispatch are ordered within a pass: when characters arrive in
      the pass that finds a receive completion pending, the frame is sent first
      and the completion is then taken for the end of that transmit, so the
      received packet is never read and reception is started over the transmit. */
  lemma SendInSamePassTakesTransmitBranch(g: Globals, it: Iteration)
    requires g.operationDone && !g.transmitFlag && it.available != []
    ensures var r := Iterate(g, it);
      && r.radio == [StartTransmit(g.inputString + it.available), StartReceive]
      && !r.next.transmitFlag && !r.next.operationDone
  {
    IterateState(g, it);
    IterateRadio(g, it);
    var r := Iterate(g, it);
    assert |r.radio| == 2 by {
      assert Dispatches(r.radio) == 1;
    }
    assert r.radio[1] in multiset(r.radio);
  }

  /** What setup() leaves behind: the calls made, what was printed, and whether
      it ended in a halt loop. The globals themselves are left at Initial. */
  datatype Boot = Boot(halted: bool, radio: seq<RadioCmd>, serial: seq<SerialWrite>)

  /** The radio calls setup() makes when nothing fails, in order. */
  const SetupCalls: seq<RadioCmd> := [Begin, SetFrequency(CarrierMHz), SetDio1Action, StartReceive]

  /** setup() in the listening configuration, given the statuses of begin,
      setFrequency and startReceive. */
  function Startup(beginResult: int, frequencyResult: int, receiveResult: int): (b: Boot)
    // it halts on a failing begin, a refused frequency or a failing startReceive, and on nothing else
    ensures !b.halted <==>
      beginResult == ErrNone && frequencyResult != ErrInvalidFrequency && receiveResult == ErrNone
    // the calls are made in order and stop at the first halt
    ensures b.radio <= SetupCalls && b.radio != []
    ensures !b.halted ==> b.radio == SetupCalls && b.serial == []
    // every halt reports its cause; only a refused frequency is reported without a status code
    ensures b.halted ==> b.serial != []
    ensures beginResult != ErrNone ==>
      b.radio == [Begin] && b.serial == [Print(FailedCode), PrintlnInt(beginResult)]
    ensures beginResult == ErrNone && frequencyResult == ErrInvalidFrequency ==>
      b.radio == [Begin, SetFrequency(CarrierMHz)] && b.serial == [Println(InvalidFrequencyMessage)]
    ensures beginResult == ErrNone && frequencyResult != ErrInvalidFrequency && receiveResult != ErrNone ==>
      b.radio == SetupCalls && b.serial == [Print(FailedCode), PrintlnInt(receiveResult)]
  {
    if beginResult != ErrNone then
      Boot(true, SetupCalls[..1], [Print(FailedCode), PrintlnInt(beginResult)])
    else if frequencyResult == ErrInvalidFrequency then
      Boot(true, SetupCalls[..2], [Println(InvalidFrequencyMessage)])
    else if receiveResult != ErrNone then
      Boot(true, SetupCalls, [Print(FailedCode), PrintlnInt(receiveResult)])
    else
      Boot(false, SetupCalls, [])
  }

  /** A successful setup() has armed reception exactly once and transmitted nothing. */
  lemma SetupArmsReceptionOnce(beginResult: int, frequencyResult: int, receiveResult: int)
    requires !Startup(beginResult, frequencyResult, receiveResult).halted
    ensures var b := Startup(beginResult, frequencyResult, receiveResult);
      Count(b.radio, StartReceive) == 1 && Transmits(b.radio) == []
  {
    var s3 := [StartReceive];
    var s2 := [SetDio1Action] + s3;
    var s1 := [SetFrequency(CarrierMHz)] + s2;
    assert s3[1..] == [] && s2[1..] == s3 && s1[1..] == s2 && SetupCalls[1..] == s1;
    assert Transmits(s3) == [] && Transmits(s2) == [] && Transmits(s1) == [];
  }
}
