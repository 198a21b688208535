# irtx in Dafny

`irtx` sends an infrared remote-control frame from a Raspberry Pi pin. Its
data argument is a string of hexadecimal digits. The program builds four
waveforms out of a 38 kHz carrier with a duty cycle of 0.333:

- ZERO: a 16-cycle burst, then T = 425 µs of silence;
- ONE: the same burst, then 3 T of silence;
- the leader mark: the burst alone;
- the leader space: 4 T of silence.

It registers the four waveforms with the pigpio wave driver. It then writes a
byte chain for the driver's chain player, in this order:

- an outer loop begin;
- a leader that plays the mark 8 times and then the space;
- eight references per data byte, least significant bit first;
- a stop bit;
- the interval delay;
- an outer loop end carrying the repeat count.

This project models `irtx.c` in Dafny:

- `HexInput` (`hex_input.dfy`): `parse_hex`, the `parse_data` loop over an
  array, and `main`'s byte-alignment check in front of it.
- `Arguments` (`arguments.dfy`): `parse_arg`, and the full-consumption test
  it puts on `strtol`.
- `Carrier` (`carrier.dfy`): the constants, exact rounding, the pulse record
  and the `generate_waveform` loop.
- `Symbols` (`symbols.dfy`): the part of `transmit` that edits one pulse
  array in place between registrations.
- `Directives` (`directives.dfy`): the driver's chain format. Entries are
  modelled as values, with their byte encoding and the driver's reading of
  those bytes.
- `Chain` (`chain.dfy`): the part of `transmit` that fills the chain buffer
  through the cursor `p`.
- `CTypes` and `Wrappers` hold the fixed-width integer types and the
  Option/Result values.

Arithmetic on the C program's `uint8_t`, `uint16_t` and `uint32_t` values
uses newtypes with those ranges. Every subtraction and addition of
`generate_waveform` and `parse_data` is therefore proved to stay in range,
without wrap-around.

The program's doubles are replaced by exact rationals. Write
`RoundDiv(p, q) = (2p + q) div 2q`, which equals C's `round(p / q)` for
`p >= 0`. Then:

- cycle boundary n is `Target(n) = RoundDiv(1000 n, 38)`;
- `on = round(cycle * DUTY)` is `RoundDiv(333000, 38000) = 9`;
- `nc = round(T / cycle)` is `RoundDiv(425 * 38, 1000) = 16`, and `np = 33`.

`TargetNeverTies` shows that no boundary lies exactly halfway between two
integers, and that none comes within 1/38 µs of such a point. So the
outcome of the rounding never depends on how a tie is resolved.

The driver's chain format is the one `gpioWaveChain` reads:

- a byte other than 255 names a waveform;
- `255 0` begins a loop;
- `255 1 lo hi` ends a loop, repeating it `lo + 256 hi` times;
- `255 2 lo hi` waits `lo + 256 hi` µs.

The program writes the second byte of a value as `(v >> 4) & 0xff`, not
`(v >> 8) & 0xff`. The model keeps this byte as the program computes it.
`RepeatSeenByDriver` proves what the driver then reads: a repeat count `r`
becomes `r + 256 (r / 16)`. So the count is played as asked only when
`r < 16`, and a count of 16 plays the frame 272 times.
`IntervalSeenByDriver` proves the same for intervals from 16 to 255.
Because of this, the model does not claim the little-endian round trip of a
16-bit value.

Some consequences of the code that a reader might not expect:

- Durations: each symbol is the 421 µs burst followed by an extra off
  pulse of T or 3 T. ZERO lasts 846 µs and ONE 1696 µs. They differ by
  2 T, and ONE is not three times ZERO (`SymbolDurations`,
  `OneIsNotThreeZeros`).
- Repeat range: `parse_arg` accepts every repeat count from 0 to 255.
- Empty synthesis: there is no check for a burst of zero cycles. With the
  fixed constants the burst always has 16 cycles.
- Argument checks: bad arguments are reported as errors, not assumed
  away, and the model keeps those error paths (`ParseArg`, `LoadData`).

Calling the assembly twice with the same inputs gives the same chain. That
holds by construction: `AssembleChain` is specified by the function
`ChainBytes`.

## Model

| member | source | states |
|---|---|---|
| `HexInput.ParseHex` | irtx.c:54-65 | the result is -1 exactly for a character outside `[0-9a-fA-F]`, and otherwise lies in 0..15 |
| `HexInput.ParseHexChar` | irtx.c:54-65 | every digit of either case decodes to the value it writes |
| `HexInput.ParseHexOnlyDigits` | irtx.c:54-65 | every accepted character is the lower- or upper-case digit of its value |
| `HexInput.PairValue` | irtx.c:78-84 | the byte written by a pair has the first digit's value as its high nibble and the second's as its low nibble |
| `HexInput.DecodePairs` | irtx.c:67-87 | an even-length digit string yields half as many bytes |
| `HexInput.ParseData` | irtx.c:67-87 | returns `len` when the first `2 len` characters are digits and -1 otherwise; byte k is `16 hex(s[2k]) + hex(s[2k+1])` when its pair and all earlier pairs are valid; a pair whose second digit is bad keeps its high nibble; nothing after the first bad digit, and nothing past `len`, is written |
| `HexInput.DecodeHexString` | irtx.c:272-285 | misaligned exactly when the length is odd; not hex exactly when the length is even and some character is not a digit; otherwise half as many bytes, byte i being `16 hex(s[2i]) + hex(s[2i+1])` |
| `HexInput.LoadData` | irtx.c:272-285 | an odd-length argument is refused as misaligned, one with a non-digit as not hex, and otherwise the result is the decoded bytes |
| `HexInput.DecodeEncode` | irtx.c:67-87 | decoding the hex encoding of any bytes, in either case, gives the bytes back |
| `HexInput.EncodeDecode` | irtx.c:272-285 | an accepted argument is, up to letter case, the encoding of the bytes it decodes to |
| `Arguments.SkipSpace` | irtx.c:35 | what is removed is all white space, and what remains is a suffix that does not start with white space |
| `Arguments.SignedValue` | irtx.c:35-36 | after the white space: digits to the end give their value, `-` and digits the negated value, `+` and digits the value; anything accepted is an optional sign followed by one or more digits and nothing else |
| `Arguments.StrtolWhole` | irtx.c:35-36 | an empty argument converts to 0, because `strtol` consumes nothing and `*endptr` is already `'\0'` |
| `Arguments.StrtolCases` | irtx.c:35-36 | without leading white space an argument is read as sign and digits alone: a decimal numeral gives its value, and one starting with anything but a digit or a sign is refused |
| `Arguments.StrtolNeedsDigit` | irtx.c:35-36 | every non-empty argument that converts completely holds a digit |
| `Arguments.StrtolSkipsSpace` | irtx.c:35-36 | a leading white-space character that is not the whole argument does not change the verdict |
| `Arguments.StrtolRejectsTrailing` | irtx.c:35-36 | an argument with a non-digit anywhere after its first character, and no leading white space, is refused, because `*endptr` is not `'\0'` |
| `Arguments.StrtolRejectsExample` | irtx.c:35-38 | `"12x"` is refused as a number, and so is a command line that gives it as the repeat count |
| `Arguments.ParseArg` | irtx.c:23-52 | a single argument gives repeat 1, interval 0 and that argument as data; a result exists only for one or three arguments, and its data is the last argument |
| `Arguments.ParseArgThree` | irtx.c:33-47 | with three arguments, success exactly when both numbers convert completely, repeat is in 0..255 and interval in 0..65535, and then these values are kept |
| `Arguments.StrtolFormat` | irtx.c:35-36 | a number written in decimal converts completely to itself |
| `Arguments.ParseArgRoundTrip` | irtx.c:33-47 | any repeat and interval written in decimal ahead of the data are read back as given |
| `Arguments.ParseArgRejectsWideRepeat` | irtx.c:36-38 | a repeat above 255 is refused, not truncated |
| `Carrier.RoundDiv` | irtx.c:93-96 | the result is within one half of `p / q`, with halves rounded up, as C's `round` does on non-negative values |
| `Carrier.Target` | irtx.c:96 | the n-th boundary is the integer nearest `n * 1000 / 38`, with halves rounded up |
| `Carrier.CarrierConstants` | irtx.c:133-135 | `on = 9`, `nc = 16`, `np = 33`, and the burst ends at 421 µs |
| `Carrier.TargetNeverTies` | irtx.c:96 | no cycle boundary `n * 1000 / 38` is an odd multiple of one half, and each is at least 1/38 away from one |
| `Carrier.TargetNearIdeal` | irtx.c:96 | every rounded boundary is less than half a microsecond from the ideal one, for every n, so the error does not accumulate |
| `Carrier.TargetStep` | irtx.c:96-99 | consecutive boundaries are 26 or 27 µs apart |
| `Carrier.TargetMonotone` | irtx.c:96 | the boundaries grow by at least 26 µs per cycle |
| `Carrier.OffDelay` | irtx.c:96-99 | each off time is `round((c+1) cycle) - round(c cycle) - on`, lies in 17..18 and so is non-negative as a `uint32` |
| `Carrier.CarrierCycles` | irtx.c:95-108 | n cycles are 2n pulses |
| `Carrier.DurationConcat` | irtx.c:95-108 | durations add over concatenation |
| `Carrier.CarrierDuration` | irtx.c:94-99 | the first n cycles last exactly `round(n cycle)`: the running total always equals the absolute boundary |
| `Carrier.CarrierAt` | irtx.c:101-107 | even entries switch the pin on for `on` µs; entry `2c+1` switches it off for the rest of cycle c |
| `Carrier.GenerateWaveform` | irtx.c:89-109 | writes exactly `pulses[0 .. 2nc-1]` with the first nc carrier cycles, keeping `sofar == round(c cycle)` and never wrapping, and leaves the rest of the array unchanged |
| `Symbols.BuildSymbols` | irtx.c:133-190 | ZERO, ONE, the leader mark and the leader space are the snapshots of the shared array when each is registered: the burst plus an off pulse of T, the burst plus an off pulse of 3T, the first np-1 pulses, and one off pulse of 4T; the array is newly allocated and ends with slot 0 overwritten |
| `Symbols.SymbolShapes` | irtx.c:145-183 | the leader mark is exactly the 2 nc carrier pulses shared by ZERO and ONE, whose last pulses are off pulses of T and 3T; the space is a single off pulse of 4T |
| `Symbols.SymbolDurations` | irtx.c:145-183 | the mark lasts 421 µs, ZERO 846 µs, ONE 1696 µs (2T longer than ZERO) and the space 4T |
| `Symbols.OneIsNotThreeZeros` | irtx.c:147-159 | ONE does not last three times as long as ZERO |
| `Directives.Word` | irtx.c:232-239 | the driver's two-byte value splits back into the same low and high byte |
| `Directives.Lo` | irtx.c:232-238 | the low byte `v & 0xff` is at most v and differs from it by a multiple of 256 |
| `Directives.Hi` | irtx.c:242 | the high byte the driver expects is `v >> 8`: 256 times it is at most v, and v is below 256 times it plus 256 |
| `Directives.SerializeConcat` | irtx.c:199-240 | the bytes of consecutive entries are the concatenation of their bytes |
| `Directives.ParseSerialize` | irtx.c:242 | the driver reads back exactly the entries that were written, when no waveform handle is 255 |
| `Directives.Waves` | irtx.c:217-225 | one entry per waveform reference |
| `Directives.SerializeWaves` | irtx.c:217-225 | waveform references are written as their handle bytes, one each |
| `Chain.ByteBits` | irtx.c:218-224 | each data byte gives eight references |
| `Chain.BitSetLowBits` | irtx.c:219 | `(b >> k) & 1` is 1 exactly when `b mod 2^(k+1)` is at least `2^k` |
| `Chain.DataBits` | irtx.c:217-225 | the data gives eight references per byte |
| `Chain.ChainLength` | irtx.c:192 | `chain_len` is `19 + 8 len` |
| `Chain.HighByte` | irtx.c:233-239 | the byte written as `(v >> 4) & 0xff` holds bits 4 to 11 of v, not bits 8 to 15, and is 0 for v below 16 |
| `Chain.Header` | irtx.c:199-215 | the outer loop begin and the leader take ten bytes |
| `Chain.HeaderEncodes` | irtx.c:199-215 | those ten bytes are the driver encoding of loop begin, loop begin, the mark, loop end with count 8, and the space |
| `Chain.Trailer` | irtx.c:226-240 | stop bit, delay and outer loop end take nine bytes, the first being the ZERO handle |
| `Chain.TrailerEncodes` | irtx.c:226-240 | those nine bytes are the driver encoding of ZERO, a delay and a loop end carrying the values the driver reads from the bytes written |
| `Chain.ChainBytes` | irtx.c:192-240 | the chain has `chain_len` bytes and begins with the header and ends with the trailer |
| `Chain.ChainEncodesEntries` | irtx.c:199-240 | the bytes written are the driver encoding of: outer loop begin, inner loop begin, mark, loop end 8, space, the data references, ZERO (stop bit), the delay and the outer loop end, and nothing else |
| `Chain.DataBitsAt` | irtx.c:217-225 | reference `8i + k` of the data part is ONE if bit k of byte i is set and ZERO otherwise |
| `Chain.ChainLengthExact` | irtx.c:192 | the chain has exactly `chain_len = 19 + 8 len` bytes, whatever the data values |
| `Chain.ChainStart` | irtx.c:199-215 | the first ten bytes are `255 0 255 0 high 255 1 8 0 low4` |
| `Chain.ChainDataBit` | irtx.c:217-225 | byte `10 + 8i + k` is ONE if bit k of `data[i]` is set and ZERO otherwise, least significant bit first |
| `Chain.ChainEnd` | irtx.c:227-239 | the last nine bytes are ZERO, `255 2 (interval & 0xff) ((interval >> 4) & 0xff)`, `255 1 (repeat & 0xff) ((repeat >> 4) & 0xff)` |
| `Chain.EmptyDataChain` | irtx.c:192-240 | with no data the chain is the 19 bytes of header and trailer |
| `Chain.ChainParses` | irtx.c:199-242 | when no handle is 255, the driver reads the chain back as its entries |
| `Chain.SmallValuesExact` | irtx.c:232-239 | values below 16 reach the driver unchanged |
| `Chain.RepeatSeenByDriver` | irtx.c:238-239 | the driver repeats the frame `r + 256 (r / 16)` times, which equals r exactly when r < 16; 16 becomes 272 |
| `Chain.IntervalSeenByDriver` | irtx.c:232-233 | an interval from 16 to 255 µs reaches the driver as `v + 256 (v / 16)` |
| `Chain.BitsOfA5` | irtx.c:217-225 | byte 0xA5 gives ONE ZERO ONE ZERO ZERO ONE ZERO ONE |
| `Chain.ChainExample` | irtx.c:199-240 | data 0xA5 with repeat 1 and interval 0 gives the exact 27-byte chain |
| `Chain.Put` | irtx.c:201 | `chain[p++] = b` appends b at the cursor and changes nothing past it |
| `Chain.PutHeader` | irtx.c:199-215 | the first ten bytes written are the outer loop begin and the leader, and nothing after them changes |
| `Chain.PutTrailer` | irtx.c:226-240 | the nine bytes written at the cursor are the stop bit, the delay and the outer loop end, and nothing after them changes |
| `Chain.AssembleChain` | irtx.c:192-240 | allocates a new array of `chain_len` bytes, fills them with the chain, and the cursor ends exactly at `chain_len` |

## Left out

- pigpio calls: `gpioInitialise`, `gpioSetMode`, `gpioWaveClear`, `gpioWaveAddGeneric`, `gpioWaveCreate`, `gpioWaveChain`, `gpioWaveTxBusy`, `gpioWrite` and `gpioTerminate` are hardware I/O. Registration is modelled as the snapshot of the pulse array it copies. The handles it returns are parameters of the chain assembly (`Chain.Handles`), and its failure branches are not modelled.
- The `time_sleep` polling loop after `gpioWaveChain` is a busy-wait on the hardware.
- `fprintf`, `show_usage`, `exit` and the exit codes of `main`: output and process lifecycle. The model returns `None` or `Failure` where `main` exits.
- `malloc` failure branches: allocation in Dafny does not fail.
- Double-precision arithmetic: replaced by exact rational rounding. `TargetNeverTies` shows every boundary is at least 1/38 µs from a tie. The model does not prove that the rounding error of the doubles stays below that margin; for the 16 boundaries used it is many orders of magnitude smaller, so the double results are taken to agree with the exact ones.
- `strtol` internals: its locale and its `errno` are not modelled. With unbounded integers an out-of-range value is refused by the range check instead of by `errno == ERANGE`. The verdict is the same, because `strtol` clamps such values outside 0..65535.
- C strings end at their first NUL character. The model's strings are sequences of characters without one.
- HexInput.LoadData: the length is counted in Unicode characters, while `strlen` counts bytes. The two agree only for ASCII input. A non-ASCII argument can get the other error in the model (misaligned instead of not hex, or the reverse), and the model does not decode it as the program would byte by byte.
- Chain.Handles: pigpio returns handles as `int`, and the program stores them into `char`. The model takes handles as bytes and does not model truncation of a handle of 256 or more.
- Carrier.GenerateWaveform: requires every boundary to fit in `uint32`. Beyond that, the C conversion of the rounded double is undefined.
- Chain.AssembleChain: the cursor `p` and the loop counters `i` and `k` are `unsigned int` in the program, but unbounded in the model. From `len = 536,870,910` on, `19 + 8 len` exceeds 2^32, so the program's `p` would wrap, later bytes would overwrite the start of the chain, and `p` would not end at `chain_len`. The model does not capture this. `main` cannot reach that length, because a single argument is limited to 128 KiB on Linux.
- HexInput.ParseData: its index is modelled as unbounded. An `int` index overflowing for `len` above `INT_MAX` is not modelled.
- Chain.ChainExample: states the worked example as chain bytes. `ChainParses` gives their reading as entries.
