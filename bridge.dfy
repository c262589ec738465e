/** The bridge sketch itself: its globals as the fields of one object, and
    setup(), the DIO1 interrupt handler, sendMessage and one pass of loop() as
    the operations that update them in place. The radio calls and serial
    writes are recorded in two ghost traces; the driver's answers and the
    characters waiting on the serial port are parameters. */
module Bridge {
  import opened Radio
  import opened BridgeSpec

  class Sketch {
    var operationDone: bool
    var transmitFlag: bool
    var inputString: string
    var stringComplete: bool
    var transmissionState: int

    /** setup() ended in its `while (true)` halt loop, so loop() never runs. */
    ghost var halted: bool
    /** Every call made on the radio driver, in order. */
    ghost var radioLog: seq<RadioCmd>
    /** Every write made on the serial port, in order. */
    ghost var serialLog: seq<SerialWrite>

    /** The globals as a value. */
    function State(): Globals
      reads this
    {
      Globals(operationDone, transmitFlag, inputString, stringComplete, transmissionState)
    }

    /** Static initialisation followed by setup() in the listening configuration,
        given what begin, setFrequency and startReceive return. */
    constructor Setup(beginResult: int, frequencyResult: int, receiveResult: int)
      ensures State() == Initial
      ensures halted == Startup(beginResult, frequencyResult, receiveResult).halted
      ensures radioLog == Startup(beginResult, frequencyResult, receiveResult).radio
      ensures serialLog == Startup(beginResult, frequencyResult, receiveResult).serial
    {
      operationDone := false;
      transmitFlag := false;
      inputString := [];
      stringComplete := false;
      transmissionState := ErrNone;
      var state := beginResult;
      radioLog := [Begin];
      if state != ErrNone {
        serialLog := [Print(FailedCode), PrintlnInt(state)];
        halted := true;
      } else {
        radioLog := radioLog + [SetFrequency(CarrierMHz)];
        if frequencyResult == ErrInvalidFrequency {
          serialLog := [Println(InvalidFrequencyMessage)];
          halted := true;
        } else {
          radioLog := radioLog + [SetDio1Action, StartReceive];
          state := receiveResult;
          if state != ErrNone {
            serialLog := [Print(FailedCode), PrintlnInt(state)];
            halted := true;
          } else {
            serialLog := [];
            halted := false;
          }
        }
      }
    }

    /** The DIO1 interrupt handler: raise the completion flag, touch nothing else. */
    method SetFlag()
      modifies this`operationDone
      ensures operationDone
      ensures State() == Flagged(old(State()))
    {
      operationDone := true;
    }

    /** Start transmitting `str`, keep the driver's status, and remember that
        the operation now in progress is a transmit, whatever was in progress. */
    method SendMessage(str: string, transmitResult: int)
      modifies this`transmissionState, this`transmitFlag, this`radioLog
      ensures transmissionState == transmitResult && transmitFlag
      ensures State() == Sent(old(State()), transmitResult)
      ensures radioLog == old(radioLog) + [StartTransmit(str)]
    {
      radioLog := radioLog + [StartTransmit(str)];
      transmissionState := transmitResult;
      transmitFlag := true;
    }

    /** One pass of loop(). */
    method Loop(it: Iteration)
      requires !halted
      modifies this
      ensures State() == Iterate(old(State()), it).next
      ensures radioLog == old(radioLog) + Iterate(old(State()), it).radio
      ensures serialLog == old(serialLog) + Iterate(old(State()), it).serial
      ensures halted == old(halted)
    {
      // drain the serial port, one character per read
      var i := 0;
      while i < |it.available|
        invariant 0 <= i <= |it.available|
        invariant inputString == old(inputString) + it.available[..i]
        invariant stringComplete == (old(stringComplete) || i > 0)
        invariant operationDone == old(operationDone) && transmitFlag == old(transmitFlag)
        invariant transmissionState == old(transmissionState)
        invariant radioLog == old(radioLog) && serialLog == old(serialLog) && halted == old(halted)
      {
        var inChar := it.available[i];
        inputString := inputString + [inChar];
        stringComplete := true;
        i := i + 1;
      }
      assert it.available[..i] == it.available;
      assert stringComplete == Sends(old(State()), it);

      if stringComplete {
        stringComplete := false;
        SendMessage(inputString, it.transmitResult);
        inputString := [];
      }

      // check whether the previous operation finished
      if operationDone {
        operationDone := false;
        if transmitFlag {
          if transmissionState != ErrNone {
            serialLog := serialLog + [Print(FailedCode), PrintlnInt(transmissionState)];
          }
          radioLog := radioLog + [StartReceive];
          transmitFlag := false;
        } else {
          radioLog := radioLog + [ReadData];
          var state := it.readResult;
          if state == ErrNone {
            serialLog := serialLog + [Print(it.received)];
          }
        }
      }
    }
  }
}
