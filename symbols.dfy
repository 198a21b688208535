/** The four waveforms transmit registers, built by editing one pulse array
    in place between registrations (irtx.c, transmit). */
module Symbols {
  import opened CTypes
  import opened Carrier

  /** The pulse trains handed to the driver, in registration order.  Each is
      the snapshot of wf that gpioWaveAddGeneric copies. */
  datatype SymbolTable = SymbolTable(zero: seq<Pulse>, one: seq<Pulse>, mark: seq<Pulse>, space: seq<Pulse>)

  /** A data 0: the carrier burst, then T microseconds of silence. */
  function ZeroSymbol(): seq<Pulse>
  {
    CarrierCycles(NC) + [OffPulse(T as uint32)]
  }

  /** A data 1: the same burst, then 3 T microseconds of silence. */
  function OneSymbol(): seq<Pulse>
  {
    CarrierCycles(NC) + [OffPulse(3 * T as uint32)]
  }

  /** The leader's mark: the burst alone. */
  function LeaderMark(): seq<Pulse>
  {
    CarrierCycles(NC)
  }

  /** The leader's space: one off pulse of 4 T microseconds. */
  function LeaderSpace(): seq<Pulse>
  {
    [OffPulse(4 * T as uint32)]
  }

  /** The symbol-building part of transmit: allocate np pulses, synthesise
      the burst, and derive each symbol from the array as it stands when it
      is registered.  Afterwards wf holds the leader space in slot 0 and the
      rest of ONE. */
  method BuildSymbols() returns (wf: array<Pulse>, s: SymbolTable)
    ensures fresh(wf)
    ensures wf.Length == NP
    ensures s == SymbolTable(ZeroSymbol(), OneSymbol(), LeaderMark(), LeaderSpace())
    ensures wf[..] == LeaderSpace() + OneSymbol()[1..]
  {
    CarrierConstants();
    var nc := NC;
    var np := nc * 2 + 1;
    wf := new Pulse[np];
    GenerateWaveform(nc, wf);

    wf[np - 1] := Pulse(0, PIN_MASK, T as uint32);
    var zero := wf[..np];

    wf[np - 1] := wf[np - 1].(usDelay := 3 * T as uint32);
    var one := wf[..np];

    var mark := wf[..np - 1];

    wf[0] := Pulse(0, PIN_MASK, 4 * T as uint32);
    var space := wf[..1];

    assert wf[..] == [wf[0]] + one[1..];
    s := SymbolTable(zero, one, mark, space);
  }

  /** The leader mark is exactly the 2 NC carrier pulses; ZERO and ONE are
      that burst followed by one off pulse of T and 3 T. */
  lemma SymbolShapes()
    ensures |LeaderMark()| == 2 * NC && |ZeroSymbol()| == NP && |OneSymbol()| == NP
    ensures ZeroSymbol()[..2 * NC] == OneSymbol()[..2 * NC] == LeaderMark() == CarrierCycles(NC)
    ensures ZeroSymbol()[NP - 1] == OffPulse(T as uint32) && OneSymbol()[NP - 1] == OffPulse(3 * T as uint32)
    ensures LeaderSpace() == [Pulse(0, PIN_MASK, 4 * T as uint32)]
  {
  }

  /** How long each symbol lasts: the burst ends at the NC-th boundary, and
      ONE lasts exactly 2 T longer than ZERO. */
  lemma SymbolDurations()
    ensures Duration(LeaderMark()) == Target(NC) == 421
    ensures Duration(ZeroSymbol()) == Target(NC) + T == 846
    ensures Duration(OneSymbol()) == Target(NC) + 3 * T == 1696
    ensures Duration(OneSymbol()) == Duration(ZeroSymbol()) + 2 * T
    ensures Duration(LeaderSpace()) == 4 * T
  {
    CarrierConstants();
    CarrierDuration(NC);
    DurationConcat(CarrierCycles(NC), [OffPulse(T as uint32)]);
    DurationConcat(CarrierCycles(NC), [OffPulse(3 * T as uint32)]);
    assert [OffPulse(T as uint32)][..0] == [];
    assert [OffPulse(3 * T as uint32)][..0] == [];
    assert LeaderSpace()[..0] == [];
  }

  /** ONE does not last three times as long as ZERO: only its silence is three bit cells. */
  lemma OneIsNotThreeZeros()
    ensures Duration(OneSymbol()) != 3 * Duration(ZeroSymbol())
  {
    SymbolDurations();
  }
}
