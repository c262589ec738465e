/** The bridge's two collaborators as the sketch sees them: the SX1262 driver
    (status codes and the commands issued to it) and the Arduino serial port
    (the writes made to it). Neither collaborator is modelled beyond this. */
module Radio {

  /** RadioLib's status code for success. */
  const ErrNone: int := 0

  /** RadioLib's status code for a carrier frequency the module cannot use. */
  const ErrInvalidFrequency: int := -12

  /** Carrier frequency requested at start-up, in MHz. */
  const CarrierMHz: int := 868

  /** Text printed before a failing status code. */
  const FailedCode: string := "failed, code "

  /** Line printed when the carrier frequency is refused. */
  const InvalidFrequencyMessage: string := "Selected frequency is invalid for this module!"

  /** One call made on the radio driver. */
  datatype RadioCmd =
    | Begin
    | SetFrequency(mhz: int)
    | SetDio1Action
    | StartTransmit(payload: string)
    | StartReceive
    | ReadData

  /** One call made on the serial port: print, println of text, println of an int. */
  datatype SerialWrite =
    | Print(text: string)
    | Println(text: string)
    | PrintlnInt(value: int)

  /** The payloads of the transmits in a command trace, in issue order. */
  function Transmits(cmds: seq<RadioCmd>): (payloads: seq<string>)
  {
    if cmds == [] then []
    else (if cmds[0].StartTransmit? then [cmds[0].payload] else []) + Transmits(cmds[1..])
  }

  /** How often `c` occurs in a command trace. */
  function Count(cmds: seq<RadioCmd>, c: RadioCmd): (r: nat)
  {
    multiset(cmds)[c]
  }

  /** Completion handlings in a trace: each issues exactly one StartReceive or one ReadData. */
  function Dispatches(cmds: seq<RadioCmd>): (r: nat)
  {
    Count(cmds, StartReceive) + Count(cmds, ReadData)
  }

  lemma {:induction false} TransmitsAppend(a: seq<RadioCmd>, b: seq<RadioCmd>)
    ensures Transmits(a + b) == Transmits(a) + Transmits(b)
  {
    if a == [] {
      assert a + b == b;
    } else {
      assert (a + b)[0] == a[0] && (a + b)[1..] == a[1..] + b;
      TransmitsAppend(a[1..], b);
    }
  }
}
