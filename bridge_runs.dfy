/** Runs of the sketch after setup(): passes of loop() interleaved with DIO1
    interrupts, and what the sketch promises over any such run. */
module BridgeRuns {
  import opened Radio
  import opened BridgeSpec

  /** Between two passes of loop(), the interrupt may fire any number of times. */
  datatype Event = Interrupt | Pass(it: Iteration)

  function Apply(g: Globals, e: Event): (o: Outcome)
  {
    match e
    case Interrupt => Outcome(Flagged(g), [], [])
    case Pass(it) => Iterate(g, it)
  }

  /** Running `b` after `a`: final state of `b`, traces concatenated. */
  function Then(a: Outcome, b: Outcome): (ab: Outcome)
  {
    Outcome(b.next, a.radio + b.radio, a.serial + b.serial)
  }

  function Run(g: Globals, evs: seq<Event>): (r: Outcome)
    decreases |evs|
  {
    if evs == [] then Outcome(g, [], [])
    else
      var o := Apply(g, evs[0]);
      Then(o, Run(o.next, evs[1..]))
  }

  /** The frame a single event should send: its serial input, if it has any. */
  function FrameOf(e: Event): (r: seq<string>)
  {
    if e.Pass? && e.it.available != [] then [e.it.available] else []
  }

  /** The non-empty serial inputs of a run, in order: the frames it should send. */
  function Frames(evs: seq<Event>): (r: seq<string>)
  {
    if evs == [] then [] else FrameOf(evs[0]) + Frames(evs[1..])
  }

  function Interrupts(evs: seq<Event>): (r: nat)
  {
    if evs == [] then 0
    else (if evs[0].Interrupt? then 1 else 0) + Interrupts(evs[1..])
  }

  function Bit(b: bool): (r: nat)
  {
    if b then 1 else 0
  }

  /** The interrupts of a run that find the completion flag down, given whether
      it is up at the start: each of them announces a completion of its own,
      while one that finds the flag already up is absorbed by it. Only a pass
      lowers the flag. */
  function Raises(pending: bool, evs: seq<Event>): (r: nat)
    decreases |evs|
  {
    if evs == [] then 0
    else match evs[0]
      case Interrupt => Bit(!pending) + Raises(true, evs[1..])
      case Pass(_) => Raises(false, evs[1..])
  }

  /** One step from a drained accumulator sends that step's input, if any, and drains it again. */
  lemma StepForwardsSerialInput(g: Globals, e: Event)
    requires Quiescent(g)
    ensures Transmits(Apply(g, e).radio) == FrameOf(e)
    ensures Quiescent(Apply(g, e).next)
  {
    match e
    case Interrupt =>
    case Pass(it) =>
      IterateState(g, it);
      IterateRadio(g, it);
      assert g.inputString + it.available == it.available;
  }

  /** Every non-empty serial input is handed to startTransmit once, as one frame
      of its own, in arrival order, and the accumulator is drained after every
      step. A frame the driver refuses is not retried (see RefusedFrameDropped). */
  lemma {:induction false} RunForwardsSerialInput(g: Globals, evs: seq<Event>)
    requires Quiescent(g)
    ensures Transmits(Run(g, evs).radio) == Frames(evs)
    ensures Quiescent(Run(g, evs).next)
    decreases |evs|
  {
    if evs != [] {
      var o := Apply(g, evs[0]);
      var rest := Run(o.next, evs[1..]);
      assert Run(g, evs) == Then(o, rest);
      StepForwardsSerialInput(g, evs[0]);
      RunForwardsSerialInput(o.next, evs[1..]);
      calc {
        Transmits(Run(g, evs).radio);
        Transmits(o.radio + rest.radio);
        { TransmitsAppend(o.radio, rest.radio); }
        Transmits(o.radio) + Transmits(rest.radio);
        FrameOf(evs[0]) + Frames(evs[1..]);
      }
    }
  }

  /** What one event does to the completion flag and the transmit flag. */
  lemma StepFacts(g: Globals, e: Event)
    ensures var o := Apply(g, e);
      && Dispatches(o.radio) == (if e.Pass? && g.operationDone then 1 else 0)
      && o.next.operationDone == e.Interrupt?
      && Count(o.radio, StartReceive) + Bit(o.next.transmitFlag) <= |Transmits(o.radio)| + Bit(g.transmitFlag)
  {
    if e.Pass? {
      IterateState(g, e.it);
      IterateRadio(g, e.it);
    }
  }

  /** No false positives: the completions a run handles, plus one still
      pending at its end, never exceed the interrupts that fired (plus one
      pending at its start). Several interrupts between passes count once. */
  lemma {:induction false} RunDispatchesAtMostInterrupts(g: Globals, evs: seq<Event>)
    ensures Dispatches(Run(g, evs).radio) + Bit(Run(g, evs).next.operationDone)
         <= Interrupts(evs) + Bit(g.operationDone)
    decreases |evs|
  {
    if evs != [] {
      var o := Apply(g, evs[0]);
      var rest := Run(o.next, evs[1..]);
      assert Run(g, evs) == Then(o, rest);
      StepFacts(g, evs[0]);
      RunDispatchesAtMostInterrupts(o.next, evs[1..]);
      assert multiset(o.radio + rest.radio) == multiset(o.radio) + multiset(rest.radio);
    }
  }

  /** No lost and no spurious notification: every interrupt that raises the
      completion flag is handled by exactly one StartReceive or ReadData, or is
      still pending at the end of the run, and nothing else is handled. */
  lemma {:induction false} RunHandlesEveryRaise(g: Globals, evs: seq<Event>)
    ensures Dispatches(Run(g, evs).radio) + Bit(Run(g, evs).next.operationDone)
         == Raises(g.operationDone, evs) + Bit(g.operationDone)
    decreases |evs|
  {
    if evs != [] {
      var o := Apply(g, evs[0]);
      var rest := Run(o.next, evs[1..]);
      assert Run(g, evs) == Then(o, rest);
      StepFacts(g, evs[0]);
      RunHandlesEveryRaise(o.next, evs[1..]);
      assert multiset(o.radio + rest.radio) == multiset(o.radio) + multiset(rest.radio);
    }
  }

  /** Reception is re-armed only after a transmit: every StartReceive of a run
      is paid for by a transmit it issued or by one outstanding at its start.
      A completed receive never re-arms. */
  lemma {:induction false} RunReArmsOnlyAfterTransmit(g: Globals, evs: seq<Event>)
    ensures Count(Run(g, evs).radio, StartReceive) + Bit(Run(g, evs).next.transmitFlag)
         <= |Transmits(Run(g, evs).radio)| + Bit(g.transmitFlag)
    decreases |evs|
  {
    if evs != [] {
      var o := Apply(g, evs[0]);
      var rest := Run(o.next, evs[1..]);
      assert Run(g, evs) == Then(o, rest);
      StepFacts(g, evs[0]);
      RunReArmsOnlyAfterTransmit(o.next, evs[1..]);
      TransmitsAppend(o.radio, rest.radio);
      assert multiset(o.radio + rest.radio) == multiset(o.radio) + multiset(rest.radio);
    }
  }

  /** Two interrupts with no pass between them have the effect of one,
      whatever state they arrive in and whatever follows. */
  lemma InterruptsCoalesce(g: Globals, rest: seq<Event>)
    ensures Run(g, [Interrupt, Interrupt] + rest) == Run(g, [Interrupt] + rest)
  {
    assert ([Interrupt, Interrupt] + rest)[1..] == [Interrupt] + rest;
    assert ([Interrupt] + rest)[1..] == rest;
    assert Flagged(Flagged(g)) == Flagged(g);
  }
}
