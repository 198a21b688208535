/** Carrier synthesis: the constants of irtx.c, exact rounding in place of
    the program's double arithmetic, and generate_waveform. */
module Carrier {
  import opened CTypes

  /** Carrier frequency in kHz (FREQ = 38.0). */
  const FREQ: nat := 38
  /** Length of one bit cell in microseconds. */
  const T: nat := 425
  /** Duty cycle in thousandths (DUTY = 0.333). */
  const DUTY_PERMILLE: nat := 333
  /** The output pin, and the mask 1 << PIN the pulses switch. */
  const PIN: nat := 18
  const PIN_MASK: uint32 := 0x4_0000

  /** round(p / q) for p >= 0 and q > 0.  C's round takes a half away from
      zero, so on non-negative values it is floor(x + 1/2). */
  function RoundDiv(p: nat, q: nat): (r: nat)
    requires q > 0
    ensures 2 * q * r <= 2 * p + q < 2 * q * r + 2 * q
  {
    (2 * p + q) / (2 * q)
  }

  /** The target time of the n-th cycle boundary, round(n * cycle) with
      cycle = 1000 / FREQ microseconds. */
  function Target(n: nat): (t: nat)
    ensures 2 * FREQ * t <= 2000 * n + FREQ < 2 * FREQ * t + 2 * FREQ
  {
    RoundDiv(1000 * n, FREQ)
  }

  /** on = round(cycle * DUTY). */
  const ON: nat := RoundDiv(1000 * DUTY_PERMILLE, 1000 * FREQ)
  /** nc = round(T / cycle), the number of carrier cycles in one burst. */
  const NC: nat := RoundDiv(T * FREQ, 1000)
  /** np = nc * 2 + 1, the pulses of a data symbol. */
  const NP: nat := NC * 2 + 1

  lemma CarrierConstants()
    ensures ON == 9 && NC == 16 && NP == 33 && Target(NC) == 421
  {
  }

  /** No boundary n * cycle lies halfway between two integers, and none
      comes within 1/38 of a microsecond of such a point: the fractional
      part of 1000 n / 38 is r / 38 with r = 1000 n mod 38 even, so r is at
      least 1 away from 19.  In doubled form, 2000 n mod 76 is a multiple
      of 4 and so at least 2 away from 38. */
  lemma TargetNeverTies(n: nat)
    ensures (2 * (1000 * n)) % (2 * FREQ) != FREQ
    ensures (1000 * n) % FREQ <= FREQ / 2 - 1 || (1000 * n) % FREQ >= FREQ / 2 + 1
  { }

  /** Each boundary is less than half a microsecond from the ideal n * cycle:
      |Target(n) - 1000 n / 38| < 1/2, for every n, so the error never grows. */
  lemma TargetNearIdeal(n: nat)
    ensures -(FREQ as int) < 2 * FREQ * Target(n) - 2000 * n < FREQ
  {
    TargetNeverTies(n);
    var r := Target(n);
    assert 76 * r <= 2000 * n + 38 < 76 * r + 76;
    assert 76 * r != 2000 * n + 38;
  }

  /** Consecutive boundaries are 26 or 27 microseconds apart: floor and ceiling of the cycle. */
  lemma TargetStep(c: nat)
    ensures 26 <= Target(c + 1) - Target(c) <= 27
  {
    var a, b := Target(c), Target(c + 1);
    assert 76 * a <= 2000 * c + 38 < 76 * a + 76;
    assert 76 * b <= 2000 * c + 2038 < 76 * b + 76;
    assert 76 * (b - a) > 1924 && 76 * (b - a) < 2076;
  }

  lemma {:induction false} TargetMonotone(a: nat, b: nat)
    requires a <= b
    ensures Target(a) + 26 * (b - a) <= Target(b)
  {
    if a < b {
      TargetMonotone(a, b - 1);
      TargetStep(b - 1);
    }
  }

  /** gpioPulse_t: the pins switched on, the pins switched off, then a delay in microseconds. */
  datatype Pulse = Pulse(gpioOn: uint32, gpioOff: uint32, usDelay: uint32)

  function OnPulse(delay: uint32): Pulse
  {
    Pulse(PIN_MASK, 0, delay)
  }

  function OffPulse(delay: uint32): Pulse
  {
    Pulse(0, PIN_MASK, delay)
  }

  /** The off time of cycle c: what is left of the cycle up to its boundary
      once the on time has passed.  It is never negative, so the uint32
      subtraction in generate_waveform never wraps. */
  function OffDelay(c: nat): (off: uint32)
    ensures 17 <= off <= 18
    ensures ON + off as nat == Target(c + 1) - Target(c)
  {
    TargetStep(c);
    (Target(c + 1) - Target(c) - ON) as uint32
  }

  /** The first n carrier cycles, as generate_waveform lays them out: an on
      pulse followed by an off pulse per cycle. */
  function CarrierCycles(n: nat): (ps: seq<Pulse>)
    ensures |ps| == 2 * n
  {
    if n == 0 then [] else CarrierCycles(n - 1) + [OnPulse(ON as uint32), OffPulse(OffDelay(n - 1))]
  }

  /** Total duration of a pulse train in microseconds. */
  function Duration(ps: seq<Pulse>): nat
  {
    if ps == [] then 0 else Duration(ps[..|ps| - 1]) + ps[|ps| - 1].usDelay as nat
  }

  lemma {:induction false} DurationConcat(a: seq<Pulse>, b: seq<Pulse>)
    ensures Duration(a + b) == Duration(a) + Duration(b)
  {
    if b == [] {
      assert a + b == a;
    } else {
      assert (a + b)[..|a + b| - 1] == a + b[..|b| - 1];
      assert (a + b)[|a + b| - 1] == b[|b| - 1];
      DurationConcat(a, b[..|b| - 1]);
    }
  }

  /** The first n cycles end exactly at the n-th rounded boundary: there is no drift. */
  lemma {:induction false} CarrierDuration(n: nat)
    ensures Duration(CarrierCycles(n)) == Target(n)
  {
    if n > 0 {
      CarrierDuration(n - 1);
      var cycle := [OnPulse(ON as uint32), OffPulse(OffDelay(n - 1))];
      DurationConcat(CarrierCycles(n - 1), cycle);
      assert cycle[..1] == [cycle[0]];
      assert [cycle[0]][..0] == [];
      assert Duration([cycle[0]]) == ON;
      assert Duration(cycle) == ON + OffDelay(n - 1) as nat;
    }
  }

  /** Even entries switch the pin on for ON microseconds; odd entry 2c + 1
      switches it off for the rest of cycle c. */
  lemma {:induction false} CarrierAt(n: nat, j: nat)
    requires j < 2 * n
    ensures CarrierCycles(n)[j] == if j % 2 == 0 then OnPulse(ON as uint32) else OffPulse(OffDelay(j / 2))
  {
    if j < 2 * (n - 1) {
      CarrierAt(n - 1, j);
    } else {
      var last := [OnPulse(ON as uint32), OffPulse(OffDelay(n - 1))];
      assert CarrierCycles(n) == CarrierCycles(n - 1) + last;
      assert j / 2 == n - 1;
      assert CarrierCycles(n)[j] == last[j - 2 * (n - 1)];
    }
  }

  /** generate_waveform(cycle, nc, pulses): writes the first nc carrier
      cycles to pulses[0 .. 2 nc - 1] and nothing else.  The running total
      sofar always equals the boundary reached, so each off time is taken
      from an absolute target.  The requires keeps every boundary within
      uint32, as the C conversion of the rounded double needs. */
  method GenerateWaveform(nc: nat, pulses: array<Pulse>)
    requires 2 * nc <= pulses.Length
    requires Target(nc) < 0x1_0000_0000
    modifies pulses
    ensures pulses[..2 * nc] == CarrierCycles(nc)
    ensures forall j :: 2 * nc <= j < pulses.Length ==> pulses[j] == old(pulses[j])
  {
    var on: uint32 := ON as uint32;
    var sofar: uint32 := 0;
    var c := 0;
    while c < nc
      invariant 0 <= c <= nc
      invariant sofar as nat == Target(c)
      invariant pulses[..2 * c] == CarrierCycles(c)
      invariant forall j :: 2 * c <= j < pulses.Length ==> pulses[j] == old(pulses[j])
    {
      TargetMonotone(c + 1, nc);
      TargetStep(c);
      var target: uint32 := Target(c + 1) as uint32;
      sofar := sofar + on;
      var off: uint32 := target - sofar;
      sofar := sofar + off;
      assert off == OffDelay(c);
      ghost var done := pulses[..2 * c];
      pulses[c * 2] := OnPulse(on);
      pulses[c * 2 + 1] := OffPulse(off);
      assert pulses[..2 * c] == done;
      assert pulses[..2 * c + 2] == done + [OnPulse(on), OffPulse(off)];
      c := c + 1;
    }
  }
}
