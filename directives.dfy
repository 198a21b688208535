/** The wave-chain format the driver plays (gpioWaveChain): entries as
    values, the control-byte stream they are written as, and how the driver
    reads that stream back. */
module Directives {
  import opened CTypes
  import opened Wrappers

  /** A chain entry: a registered waveform, the start of a loop, the end of
      a loop with its repeat count, or a delay in microseconds. */
  datatype Directive = Wave(id: uint8) | LoopBegin | LoopEnd(count: uint16) | Delay(us: uint16)

  /** The byte that introduces a control directive instead of naming a waveform. */
  const ESCAPE: uint8 := 0xff

  /** The low byte of v: v & 0xff. */
  function Lo(v: uint16): (b: uint8)
    ensures b as int <= v as int && (v as int - b as int) % 0x100 == 0
  {
    (v % 0x100) as uint8
  }

  /** The high byte of v: v >> 8. */
  function Hi(v: uint16): (b: uint8)
    ensures 0x100 * b as int <= v as int < 0x100 * b as int + 0x100
  {
    (v / 0x100) as uint8
  }

  /** The 16-bit value of a little-endian byte pair, as the driver reads it. */
  function Word(lo: uint8, hi: uint8): (v: uint16)
    ensures Lo(v) == lo && Hi(v) == hi
  {
    (lo as int + 0x100 * hi as int) as uint16
  }

  function Encode(d: Directive): seq<uint8>
  {
    match d
    case Wave(id) => [id]
    case LoopBegin => [ESCAPE, 0]
    case LoopEnd(n) => [ESCAPE, 1, Lo(n), Hi(n)]
    case Delay(us) => [ESCAPE, 2, Lo(us), Hi(us)]
  }

  /** The byte stream for a sequence of entries, in order. */
  function Serialize(ds: seq<Directive>): seq<uint8>
  {
    if ds == [] then [] else Encode(ds[0]) + Serialize(ds[1..])
  }

  function Prepend(d: Directive, rest: Option<seq<Directive>>): Option<seq<Directive>>
  {
    if rest.Some? then Some([d] + rest.value) else None
  }

  /** The driver's reading of a chain: a byte other than 255 names a
      waveform; 255 0 begins a loop; 255 1 lo hi ends one, repeating it
      lo + 256 hi times; 255 2 lo hi waits lo + 256 hi microseconds.
      Anything else is not a chain this program writes. */
  function Parse(bytes: seq<uint8>): Option<seq<Directive>>
    decreases |bytes|
  {
    if bytes == [] then Some([])
    else if bytes[0] != ESCAPE then Prepend(Wave(bytes[0]), Parse(bytes[1..]))
    else if |bytes| >= 2 && bytes[1] == 0 then Prepend(LoopBegin, Parse(bytes[2..]))
    else if |bytes| >= 4 && bytes[1] == 1 then Prepend(LoopEnd(Word(bytes[2], bytes[3])), Parse(bytes[4..]))
    else if |bytes| >= 4 && bytes[1] == 2 then Prepend(Delay(Word(bytes[2], bytes[3])), Parse(bytes[4..]))
    else None
  }

  /** No waveform reference collides with the escape byte. */
  predicate NoEscapedWave(ds: seq<Directive>)
  {
    forall j :: 0 <= j < |ds| ==> ds[j] != Wave(ESCAPE)
  }

  lemma {:induction false} SerializeConcat(a: seq<Directive>, b: seq<Directive>)
    ensures Serialize(a + b) == Serialize(a) + Serialize(b)
  {
    if a == [] {
      assert a + b == b;
    } else {
      assert (a + b)[1..] == a[1..] + b;
      SerializeConcat(a[1..], b);
    }
  }

  /** The driver reads back exactly the entries that were written, provided
      no waveform handle is 255. */
  lemma {:induction false} ParseSerialize(ds: seq<Directive>)
    requires NoEscapedWave(ds)
    ensures Parse(Serialize(ds)) == Some(ds)
  {
    if ds != [] {
      var e, rest := Encode(ds[0]), Serialize(ds[1..]);
      assert NoEscapedWave(ds[1..]) by {
        forall j | 0 <= j < |ds| - 1 ensures ds[1..][j] != Wave(ESCAPE) {
          assert ds[1..][j] == ds[j + 1];
        }
      }
      ParseSerialize(ds[1..]);
      assert Serialize(ds) == e + rest;
      assert (e + rest)[|e|..] == rest;
      assert [ds[0]] + ds[1..] == ds;
      match ds[0]
      case Wave(id) =>
        assert Parse(e + rest) == Prepend(Wave(id), Parse(rest));
      case LoopBegin =>
        assert Parse(e + rest) == Prepend(LoopBegin, Parse(rest));
      case LoopEnd(n) =>
        assert Word(Lo(n), Hi(n)) == n;
        assert Parse(e + rest) == Prepend(LoopEnd(n), Parse(rest));
      case Delay(us) =>
        assert Word(Lo(us), Hi(us)) == us;
        assert Parse(e + rest) == Prepend(Delay(us), Parse(rest));
    }
  }

  /** A sequence of waveform references. */
  function Waves(ids: seq<uint8>): (ds: seq<Directive>)
    ensures |ds| == |ids|
  {
    seq(|ids|, j requires 0 <= j < |ids| => Wave(ids[j]))
  }

  /** Waveform references are written as their handle bytes, one each. */
  lemma {:induction false} SerializeWaves(ids: seq<uint8>)
    ensures Serialize(Waves(ids)) == ids
  {
    if ids != [] {
      assert Waves(ids)[1..] == Waves(ids[1..]);
      SerializeWaves(ids[1..]);
      assert [ids[0]] + ids[1..] == ids;
    }
  }
}
