/** Chain assembly: the control-byte buffer transmit fills through its
    cursor p and hands to the driver (irtx.c, transmit). */
module Chain {
  import opened CTypes
  import opened Wrappers
  import opened Directives

  /** Bytes reserved for each part of the chain. */
  const LEADER: nat := 8
  const INTERVAL: nat := 4
  const STOPBIT: nat := 1
  const LOOP_BEGIN: nat := 2
  const LOOP_END: nat := 4

  /** The handles the driver returned for the four symbols. */
  datatype Handles = Handles(zero: uint8, one: uint8, high: uint8, low4: uint8)

  predicate HandlesValid(h: Handles)
  {
    h.zero != ESCAPE && h.one != ESCAPE && h.high != ESCAPE && h.low4 != ESCAPE
  }

  /** chain_len, computed before the buffer is allocated. */
  function ChainLength(len: nat): (n: nat)
    ensures n == 19 + 8 * len
  {
    (LEADER + INTERVAL + STOPBIT + len * 8) + LOOP_BEGIN + LOOP_END
  }

  /** 1 << k for the bit positions of a byte. */
  function Pow2(k: nat): nat
    requires k < 8
  {
    [1, 2, 4, 8, 16, 32, 64, 128][k]
  }

  /** ((b >> k) & 1) == 1 */
  predicate BitSet(b: uint8, k: nat)
    requires k < 8
  {
    (b as int / Pow2(k)) % 2 == 1
  }

  /** Bit k of b is set exactly when b mod 2^(k+1) is at least 2^k. */
  lemma BitSetLowBits(b: uint8, k: nat)
    requires k < 8
    ensures BitSet(b, k) <==> b as int % (2 * Pow2(k)) >= Pow2(k)
  {
    var p := Pow2(k);
    var q, m := b as int / (2 * p), b as int % (2 * p);
    assert b as int == 2 * p * q + m;
    assert b as int / p == 2 * q + m / p;
  }

  /** The eight symbol references of one data byte, least significant bit first. */
  function ByteBits(b: uint8, h: Handles): (ids: seq<uint8>)
    ensures |ids| == 8
  {
    seq(8, k requires 0 <= k < 8 => if BitSet(b, k) then h.one else h.zero)
  }

  function DataBits(data: seq<uint8>, h: Handles): (ids: seq<uint8>)
    ensures |ids| == 8 * |data|
  {
    if data == [] then [] else DataBits(data[..|data| - 1], h) + ByteBits(data[|data| - 1], h)
  }

  /** The high byte the program writes for a directive's value:
      (v >> 4) & 0xff, a shift by four rather than eight. */
  function HighByte(v: uint16): (b: uint8)
    ensures 16 * b as int <= v as int % 0x1000 < 16 * b as int + 16
    ensures v < 16 ==> b == 0
  {
    ((v as int / 0x10) % 0x100) as uint8
  }

  /** The value the driver reads from the two bytes written for v. */
  function DriverValue(v: uint16): uint16
  {
    Word(Lo(v), HighByte(v))
  }

  /** The chain as entries: an outer loop around the leader (a loop playing
      the mark 8 times, then the space), the data bits, the stop bit and the
      interval delay, repeated by the outer loop end. */
  function ChainEntries(data: seq<uint8>, repeat: uint8, interval: uint16, h: Handles): seq<Directive>
  {
    [LoopBegin] + [LoopBegin, Wave(h.high), LoopEnd(8), Wave(h.low4)]
    + Waves(DataBits(data, h))
    + [Wave(h.zero), Delay(DriverValue(interval)), LoopEnd(DriverValue(repeat as uint16))]
  }

  /** The outer loop begin, then the leader: an inner loop around the mark
      ending with count 8, then the space. */
  function Header(h: Handles): (b: seq<uint8>)
    ensures |b| == LOOP_BEGIN + LEADER
  {
    [255, 0, 255, 0, h.high, 255, 1, 8, 0, h.low4]
  }

  /** The stop bit, the interval delay and the outer loop end with the repeat count. */
  function Trailer(repeat: uint8, interval: uint16, h: Handles): (b: seq<uint8>)
    ensures |b| == STOPBIT + INTERVAL + LOOP_END
    ensures b[0] == h.zero
  {
    [h.zero, 255, 2, Lo(interval), HighByte(interval), 255, 1, Lo(repeat as uint16), HighByte(repeat as uint16)]
  }

  /** The header is the driver's encoding of the outer loop begin and the
      leader. */
  lemma HeaderEncodes(h: Handles)
    ensures Header(h) == Encode(LoopBegin) + Encode(LoopBegin) + Encode(Wave(h.high)) + Encode(LoopEnd(8)) + Encode(Wave(h.low4))
  {
  }

  /** The trailer is the driver's encoding of the stop bit, the delay and
      the outer loop end, with the values the driver reads from the bytes
      written for them. */
  lemma TrailerEncodes(repeat: uint8, interval: uint16, h: Handles)
    ensures Trailer(repeat, interval, h) ==
      Encode(Wave(h.zero)) + Encode(Delay(DriverValue(interval))) + Encode(LoopEnd(DriverValue(repeat as uint16)))
  {
  }

  /** The chain bytes as transmit lays them out: the 10-byte header, 8
      references per data byte and the 9-byte trailer. */
  function ChainBytes(data: seq<uint8>, repeat: uint8, interval: uint16, h: Handles): (b: seq<uint8>)
    ensures |b| == ChainLength(|data|)
    ensures b[..LOOP_BEGIN + LEADER] == Header(h)
    ensures b[|b| - (STOPBIT + INTERVAL + LOOP_END)..] == Trailer(repeat, interval, h)
  {
    Header(h) + DataBits(data, h) + Trailer(repeat, interval, h)
  }

  /** The bytes are the driver's encoding of the chain's entries. */
  lemma ChainEncodesEntries(data: seq<uint8>, repeat: uint8, interval: uint16, h: Handles)
    ensures ChainBytes(data, repeat, interval, h) == Serialize(ChainEntries(data, repeat, interval, h))
  {
    var head: seq<Directive> := [LoopBegin, LoopBegin, Wave(h.high), LoopEnd(8), Wave(h.low4)];
    var body := Waves(DataBits(data, h));
    var tail: seq<Directive> := [Wave(h.zero), Delay(DriverValue(interval)), LoopEnd(DriverValue(repeat as uint16))];
    assert ChainEntries(data, repeat, interval, h) == head + body + tail;
    SerializeConcat(head + body, tail);
    SerializeConcat(head, body);
    SerializeWaves(DataBits(data, h));
    SerializeConcat([LoopBegin], head[1..]);
    SerializeConcat([LoopBegin], head[2..]);
    SerializeConcat([Wave(h.high)], head[3..]);
    SerializeConcat([LoopEnd(8)], head[4..]);
    assert Serialize(head) == Header(h);
    SerializeConcat([Wave(h.zero)], tail[1..]);
    SerializeConcat([Delay(DriverValue(interval))], tail[2..]);
    assert Serialize(tail) == Trailer(repeat, interval, h);
  }

  /** Entry 8 i + k of the data part is bit k of byte i. */
  lemma {:induction false} DataBitsAt(data: seq<uint8>, h: Handles, i: nat, k: nat)
    requires i < |data| && k < 8
    ensures DataBits(data, h)[8 * i + k] == if BitSet(data[i], k) then h.one else h.zero
  {
    var n := |data| - 1;
    if i < n {
      DataBitsAt(data[..n], h, i, k);
    }
  }

  /** The chain always has chain_len = 19 + 8 len bytes, whatever the byte values. */
  lemma ChainLengthExact(data: seq<uint8>, repeat: uint8, interval: uint16, h: Handles)
    ensures |ChainBytes(data, repeat, interval, h)| == ChainLength(|data|) == 19 + 8 * |data|
  {
  }

  /** The first ten bytes: outer loop begin, then the leader's inner loop
      around the mark with count 8, then the 4 T space. */
  lemma ChainStart(data: seq<uint8>, repeat: uint8, interval: uint16, h: Handles)
    ensures ChainBytes(data, repeat, interval, h)[..10] == [255, 0, 255, 0, h.high, 255, 1, 8, 0, h.low4]
  {
  }

  /** Byte 10 + 8 i + k references ONE when bit k of data[i] is set and ZERO otherwise. */
  lemma ChainDataBit(data: seq<uint8>, repeat: uint8, interval: uint16, h: Handles, i: nat, k: nat)
    requires i < |data| && k < 8
    ensures 10 + 8 * i + k < |ChainBytes(data, repeat, interval, h)|
    ensures ChainBytes(data, repeat, interval, h)[10 + 8 * i + k] == if BitSet(data[i], k) then h.one else h.zero
  {
    DataBitsAt(data, h, i, k);
  }

  /** The last nine bytes: the stop bit (ZERO), the interval delay and the
      outer loop end, each value written as v & 0xff then (v >> 4) & 0xff. */
  lemma ChainEnd(data: seq<uint8>, repeat: uint8, interval: uint16, h: Handles)
    ensures var c := ChainBytes(data, repeat, interval, h);
      |c| >= 9 &&
      c[|c| - 9..] == [h.zero, 255, 2, (interval % 0x100) as uint8, ((interval as int / 0x10) % 0x100) as uint8,
                       255, 1, repeat, (repeat as int / 0x10) as uint8]
  {
    var c := ChainBytes(data, repeat, interval, h);
    var lr, hr, li, hi := Lo(repeat as uint16), HighByte(repeat as uint16), Lo(interval), HighByte(interval);
    assert lr == repeat && hr == (repeat as int / 0x10) as uint8;
    assert li == (interval % 0x100) as uint8 && hi == ((interval as int / 0x10) % 0x100) as uint8;
    assert c[|c| - 9..] == Trailer(repeat, interval, h) == [h.zero, 255, 2, li, hi, 255, 1, lr, hr];
  }

  /** Without data the chain is still the 19 bytes of header and trailer. */
  lemma EmptyDataChain(repeat: uint8, interval: uint16, h: Handles)
    ensures ChainBytes([], repeat, interval, h) ==
      [255, 0, 255, 0, h.high, 255, 1, 8, 0, h.low4,
       h.zero, 255, 2, Lo(interval), HighByte(interval), 255, 1, Lo(repeat as uint16), HighByte(repeat as uint16)]
  {
    assert DataBits([], h) == [];
  }

  /** When no handle is 255 the driver reads the chain back as its entries. */
  lemma ChainParses(data: seq<uint8>, repeat: uint8, interval: uint16, h: Handles)
    requires HandlesValid(h)
    ensures Parse(ChainBytes(data, repeat, interval, h)) == Some(ChainEntries(data, repeat, interval, h))
  {
    var ds := ChainEntries(data, repeat, interval, h);
    forall j | 0 <= j < |ds| ensures ds[j] != Wave(ESCAPE) {
      if 5 <= j < 5 + 8 * |data| {
        var m := j - 5;
        DataBitsAt(data, h, m / 8, m % 8);
        assert ds[j] == Wave(DataBits(data, h)[8 * (m / 8) + m % 8]);
      }
    }
    ParseSerialize(ds);
    ChainEncodesEntries(data, repeat, interval, h);
  }

  /** Values below 16 reach the driver unchanged. */
  lemma SmallValuesExact(v: uint16)
    requires v < 16
    ensures DriverValue(v) == v
  {
  }

  /** Because the high byte is v >> 4 rather than v >> 8, a repeat count r
      reaches the driver as r + 256 (r / 16): the frame is played as asked
      exactly when r < 16, and a count of 16 plays it 272 times. */
  lemma RepeatSeenByDriver(r: uint8)
    ensures DriverValue(r as uint16) as int == r as int + 256 * (r as int / 16)
    ensures DriverValue(r as uint16) == r as uint16 <==> r < 16
    ensures DriverValue(16) == 272
  {
    var v := r as uint16;
    assert Lo(v) as int == r as int;
    assert HighByte(v) as int == r as int / 16;
    assert DriverValue(v) as int == Lo(v) as int + 256 * HighByte(v) as int;
    assert Lo(16) == 16 && HighByte(16) == 1;
  }

  /** An interval of 16 microseconds or more below 256 is lengthened the same way. */
  lemma IntervalSeenByDriver(v: uint16)
    requires 16 <= v < 256
    ensures DriverValue(v) as int == v as int + 256 * (v as int / 16) > v as int
  {
    assert Lo(v) as int == v as int;
    assert HighByte(v) as int == v as int / 16;
    assert DriverValue(v) as int == Lo(v) as int + 256 * HighByte(v) as int;
  }

  /** The bits of 0xA5, least significant first: 1 0 1 0 0 1 0 1. */
  lemma BitsOfA5(h: Handles)
    ensures DataBits([0xA5], h) == [h.one, h.zero, h.one, h.zero, h.zero, h.one, h.zero, h.one]
  {
    assert [0xA5][..0] == [];
    assert BitSet(0xA5, 0) && !BitSet(0xA5, 1) && BitSet(0xA5, 2) && !BitSet(0xA5, 3);
    assert !BitSet(0xA5, 4) && BitSet(0xA5, 5) && !BitSet(0xA5, 6) && BitSet(0xA5, 7);
  }

  /** Data 0xA5 with repeat 1 and interval 0: the header, the references
      for the bits of 0xA5 (ONE ZERO ONE ZERO ZERO ONE ZERO ONE), the stop
      bit, delay 0 and the outer loop end with count 1. */
  lemma ChainExample(h: Handles)
    ensures ChainBytes([0xA5], 1, 0, h) == [
      255, 0, 255, 0, h.high, 255, 1, 8, 0, h.low4,
      h.one, h.zero, h.one, h.zero, h.zero, h.one, h.zero, h.one,
      h.zero, 255, 2, 0, 0, 255, 1, 1, 0]
  {
    BitsOfA5(h);
    assert Lo(0) == 0 && HighByte(0) == 0 && Lo(1) == 1 && HighByte(1) == 0;
    assert Trailer(1, 0, h) == [h.zero, 255, 2, 0, 0, 255, 1, 1, 0];
  }

  /** chain[p++] = b: write one byte at the cursor and advance it. */
  method Put(chain: array<uint8>, p: nat, b: uint8) returns (next: nat)
    requires p < chain.Length
    modifies chain
    ensures next == p + 1
    ensures chain[..next] == old(chain[..p]) + [b]
    ensures forall j :: next <= j < chain.Length ==> chain[j] == old(chain[j])
  {
    chain[p] := b;
    next := p + 1;
    assert chain[..next] == chain[..p] + [b];
  }

  /** The outer loop begin and the leader, written from the start of the buffer. */
  method PutHeader(chain: array<uint8>, h: Handles) returns (p: nat)
    requires 10 <= chain.Length
    modifies chain
    ensures p == 10 && chain[..p] == Header(h)
    ensures forall j :: p <= j < chain.Length ==> chain[j] == old(chain[j])
  {
    p := 0;
    // outer loop begin
    p := Put(chain, p, 255);
    p := Put(chain, p, 0);
    // leader: a loop playing the mark 8 times, then the space
    p := Put(chain, p, 255);
    p := Put(chain, p, 0);
    p := Put(chain, p, h.high);
    p := Put(chain, p, 255);
    p := Put(chain, p, 1);
    p := Put(chain, p, 8);
    p := Put(chain, p, 0);
    p := Put(chain, p, h.low4);
  }

  /** The stop bit, the interval delay and the outer loop end, written at the cursor. */
  method PutTrailer(chain: array<uint8>, p: nat, repeat: uint8, interval: uint16, h: Handles) returns (next: nat)
    requires p + 9 <= chain.Length
    modifies chain
    ensures next == p + 9 && chain[..next] == old(chain[..p]) + Trailer(repeat, interval, h)
    ensures forall j :: next <= j < chain.Length ==> chain[j] == old(chain[j])
  {
    next := p;
    // stop bit
    next := Put(chain, next, h.zero);
    // interval
    next := Put(chain, next, 255);
    next := Put(chain, next, 2);
    next := Put(chain, next, Lo(interval));
    next := Put(chain, next, HighByte(interval));
    // outer loop end with the repeat count
    next := Put(chain, next, 255);
    next := Put(chain, next, 1);
    next := Put(chain, next, Lo(repeat as uint16));
    next := Put(chain, next, HighByte(repeat as uint16));
  }

  /** transmit's chain assembly: allocate chain_len bytes and fill them in
      order through the cursor p, which ends exactly at chain_len. */
  method AssembleChain(data: seq<uint8>, repeat: uint8, interval: uint16, h: Handles)
    returns (chain: array<uint8>, p: nat)
    ensures fresh(chain)
    ensures chain.Length == ChainLength(|data|)
    ensures p == chain.Length
    ensures chain[..] == ChainBytes(data, repeat, interval, h)
  {
    var len := |data|;
    chain := new uint8[ChainLength(len)];
    p := PutHeader(chain, h);
    assert chain[..p] == Header(h) + DataBits(data[..0], h);
    var i := 0;
    while i < len
      invariant 0 <= i <= len
      invariant p == 10 + 8 * i
      invariant chain[..p] == Header(h) + DataBits(data[..i], h)
    {
      var k := 0;
      while k < 8
        invariant 0 <= k <= 8
        invariant p == 10 + 8 * i + k
        invariant chain[..p] == Header(h) + DataBits(data[..i], h) + ByteBits(data[i], h)[..k]
      {
        assert ByteBits(data[i], h)[..k + 1] == ByteBits(data[i], h)[..k] + [ByteBits(data[i], h)[k]];
        if BitSet(data[i], k) {
          p := Put(chain, p, h.one);
        } else {
          p := Put(chain, p, h.zero);
        }
        k := k + 1;
      }
      assert data[..i + 1][..i] == data[..i];
      i := i + 1;
    }
    assert data[..len] == data;
    p := PutTrailer(chain, p, repeat, interval, h);
    assert chain[..] == chain[..p];
  }
}
