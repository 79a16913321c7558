# ADIS16000 gateway driver — Dafny model

This project models the core of the Arduino driver for the ADIS16000
vibration-sensor gateway, `lib/ADIS16000.cpp`. It covers three parts:

- **Register framing** (`frame.dfy`, on top of the bitwise AND/OR of `bits.dfy`).
  - `regWrite` packs an 8-bit register address and a 16-bit datum into two 16-bit words, `lowWord` and `highWord`.
  - It clocks out the low byte of each word.
  - `regRead` joins the MSB and LSB the device returns into an `int16_t`.
- **Scaling** (`scale.dfy`).
  - The sign adjustment the four scale functions apply to a raw sample.
  - The `switch (gRange)` choice of the LSB weight.
  - The scaled values themselves, as integers in hundred-thousandths of the physical unit.
- **Control operations** (`commands.dfy`, `driver.dfy`).
  - The operations are `addSensor`, `removeSensor`, `saveGatewaySettings`, `saveSensorSettings`, `setPeriodicMode`, `setDataReady` and `readFFT`, plus the four writes that start `readFFTBuffer`.
  - Each one is a fixed sequence of register writes and reads.
  - `Commands.Trace` gives each operation's sequence as a value.
  - The class `Driver.Adis16000` records every access in `log` and every byte it puts on the bus in `mosi`.
  - The device's answers to reads come from a register map, `registers`.
  - Each method states its exact accesses, bytes and return value.

C's `uint8_t`, `uint16_t` and `int16_t` are the integer subset types `Byte`, `Word` and `Int16`. The library targets 8-bit Atmel Arduino boards (`lib/ADIS16000.cpp:8-9`), where `int` is 16 bits wide; the sign adjustment of the scaling functions is modelled with that width. Narrowing conversions are written out as `ToByte` and `ToInt16`.

The numeric register addresses are defined in the driver's header, which is not part of this model. Registers are named abstractly by `Commands.Reg`, and their addresses are a parameter, `addressOf`, of the driver object.

The source does not compile as written. The model follows its evident intent in each of these places and notes the deviation in a comment:

- `GPO,CTRL` at `lib/ADIS16000.cpp:203` is read as `GPO_CTRL`.
- The missing `)` at `lib/ADIS16000.cpp:219` and `:248` is supplied.
- `addSensor`, declared as a free function at `lib/ADIS16000.cpp:146`, is modelled as a member.

`readFFT` also writes past its two-element array: it stores into `buffer[1]` and `buffer[2]` (`lib/ADIS16000.cpp:190-191`). The model uses elements 0 and 1.

## Model

| member | source | states |
|---|---|---|
| Bits.Mask7 | lib/ADIS16000.cpp:126 | `x & 0x7F` keeps exactly the seven low bits, `x % 0x80` |
| Bits.SetBit7 | lib/ADIS16000.cpp:126 | `x \| 0x80` on a 7-bit value adds 0x80 |
| Bits.Mask8 | lib/ADIS16000.cpp:127 | `x & 0xFF` is the low byte, `x % 0x100` |
| Bits.SetBit8 | lib/ADIS16000.cpp:128 | `(a << 8) \| 0x100` equals `(a \| 1) << 8` |
| Bits.JoinBytes | lib/ADIS16000.cpp:103 | `(hi << 8) \| lo` for a byte `lo` is `hi * 0x100 + lo` |
| Bits.Bit15 | lib/ADIS16000.cpp:222 | `x & 0x8000` is 0x8000 when bit 15 of `x` is set and 0 otherwise |
| Frame.WriteAddressLayout | lib/ADIS16000.cpp:126 | the address byte `(regAddr & 0x7F) \| 0x80` is `0x80 + regAddr % 0x80`: the write flag is always set and only seven address bits survive |
| Frame.LowWordLayout | lib/ADIS16000.cpp:126-127 | `lowWord` fits in 16 bits; its upper byte is the flagged address and its lower byte is `regData & 0xFF` |
| Frame.HighWordValue | lib/ADIS16000.cpp:128 | `highWord` is the flagged address with bit 0 set, shifted up by 8, plus `regData >> 8` |
| Frame.HighWordLayout | lib/ADIS16000.cpp:128 | `highWord` fits in 16 bits; its upper byte is the upper byte of `lowWord` with bit 0 set and its lower byte is the high byte of the datum |
| Frame.HighAddressIsSuccessorIffEven | lib/ADIS16000.cpp:128 | the upper byte of `highWord` is "address + 1", as the source comment says, if and only if the masked address is even; for an odd address it is the same address |
| Frame.WireBytesAreDatum | lib/ADIS16000.cpp:130-131 | the two bytes on the bus are `regData & 0xFF` and then `regData >> 8`, with `low + 256 * high == regData`; they are the same for every register address |
| Frame.DecodePattern | lib/ADIS16000.cpp:97-103 | the 16-bit two's-complement pattern of the value read is `msb * 256 + lsb`, and the value is negative if and only if `msb >= 0x80` |
| Frame.DecodeSplit | lib/ADIS16000.cpp:97-103 | splitting any `int16_t` into MSB and LSB and decoding them gives the value back |
| Frame.SplitDecode | lib/ADIS16000.cpp:97-103 | decoding any two bytes and splitting the result gives the bytes back |
| Scale.IsNegIffNegative | lib/ADIS16000.cpp:222 | `sensorData & 0x8000`, taken on the 16-bit pattern of the sample, is 0x8000 exactly for negative samples |
| Scale.SignAdjustCases | lib/ADIS16000.cpp:222-226 | non-negative samples pass through unchanged; with a 16-bit `int` the subtraction of the unsigned 0xFFFF wraps, so a negative sample becomes `sensorData + 1`, in -32767..0; the result is negative if and only if the sample is below -1, and zero if and only if the sample is 0 or -1 |
| Scale.SignAdjustMisreadsMinusOne | lib/ADIS16000.cpp:224 | as written, the adjustment maps 1 to 1, maps -1 to 0 like 0 itself, and maps -32768 to -32767 |
| Scale.SignedCountIsSample | lib/ADIS16000.cpp:222-226 | the corrected adjustment, which subtracts 0x10000 from the 16-bit pattern, returns the signed sample itself, so it is odd and monotone |
| Scale.RangeSelection | lib/ADIS16000.cpp:227-272 | selectors 1, 5, 10 and 20 each pick their own constant in both tables, increasing with the range; every other selector picks the constant of selector 1; every constant lies strictly between 0 and 1 |
| Scale.ScaleAsWrittenIsZero | lib/ADIS16000.cpp:220-245 | with `int lsbrange`, every constant truncates to 0, so `scaleTime` and `scaleFFT` as written return 0 for every sample and selector |
| Scale.ScaleTimeMeaning | lib/ADIS16000.cpp:219-246 | corrected `scaleTime` is the sample times the constant of its range; it is zero exactly for a zero sample, negative exactly for a negative one, and odd in the sample; an unknown selector scales like range 1 |
| Scale.ScaleFftMeaning | lib/ADIS16000.cpp:248-275 | the same facts for corrected `scaleFFT` and its table |
| Scale.ScaleSupplyTempMeaning | lib/ADIS16000.cpp:277-299 | corrected `scaleSupply` and `scaleTemp` are the sample times 0.00044 and 0.0815, with the sample's sign and zero only for zero |
| Commands.SelectedPageAppend | lib/ADIS16000.cpp:165-171 | after a history and a later trace, the selected page is the later trace's page if it selects one, and the history's otherwise |
| Commands.TraceSelects | lib/ADIS16000.cpp:146-217 | each operation's own trace selects the page `PageAfter` names: none for addSensor and removeSensor, page 0 after saving settings or setting up data-ready, and the sensor's page otherwise |
| Commands.TracePage | lib/ADIS16000.cpp:146-217 | after any history, running an operation leaves the device on the page `PageAfter` names for it |
| Commands.AccessBytesMeaning | lib/ADIS16000.cpp:84-131 | a write puts its datum on the bus, low byte first; a read puts the raw register address and three fill bytes |
| Commands.WritesCarryOnlyData | lib/ADIS16000.cpp:130-131 | the bus bytes of a trace of writes are the data bytes of its writes, two per write, and nothing else |
| Commands.WritesIgnoreAddresses | lib/ADIS16000.cpp:126-131 | for a trace of writes, renumbering the registers does not change the bytes on the bus: no address byte reaches it |
| Commands.ControlBytes | lib/ADIS16000.cpp:146-217 | every control operation except readFFT only writes, so its bus bytes are its data bytes |
| Commands.DataBytesAppend | lib/ADIS16000.cpp:130-131 | the data bytes sent for a history followed by a later trace are those of the history followed by those of the trace: each write adds its own two bytes and nothing is reordered or lost |
| Commands.FourWritesData | lib/ADIS16000.cpp:165-178 | the data bytes of four writes are their data in order, each low byte first |
| Driver.Adis16000.constructor | lib/ADIS16000.cpp:33-45 | a new driver has made no access and sent no byte |
| Driver.Adis16000.RegRead | lib/ADIS16000.cpp:84-114 | appends one read to the log; sends the raw address and three zero bytes; returns the value whose 16-bit pattern is the register's contents, negative if and only if its top bit is set |
| Driver.Adis16000.RegWrite | lib/ADIS16000.cpp:123-144 | appends one write to the log; sends the datum's low byte and then its high byte; returns 1 |
| Driver.Adis16000.AddSensor | lib/ADIS16000.cpp:146-151 | logs `(GLOB_CMD_G,0x01),(CMD_DATA,a)`; sends `01 00 a 00`, which are the data bytes of its trace; leaves the page unchanged; returns 1 |
| Driver.Adis16000.RemoveSensor | lib/ADIS16000.cpp:153-157 | logs `(CMD_DATA,a),(GLOB_CMD_G,0x100)`; sends `a 00 00 01`, which are the data bytes of its trace; leaves the page unchanged; returns 1 |
| Driver.Adis16000.SaveGatewaySettings | lib/ADIS16000.cpp:159-163 | logs `(PAGE_ID,0),(GLOB_CMD_G,0x40)`; sends `00 00 40 00`, which are the data bytes of its trace; ends on page 0; returns 1 |
| Driver.Adis16000.SaveSensorSettings | lib/ADIS16000.cpp:165-171 | logs `(PAGE_ID,a),(GLOB_CMD_S,0x40),(PAGE_ID,0),(GLOB_CMD_G,0x02)` and the matching eight bytes, which are the data bytes of its trace; ends on page 0; returns 1 |
| Driver.Adis16000.ReadFftBufferStart | lib/ADIS16000.cpp:175-178 | logs `(PAGE_ID,a),(BUF_PNTR,0),(GLOB_CMD_S,0x800),(GLOB_CMD_G,0x02)` and the matching eight bytes, which are the data bytes of its trace; ends on the sensor's page |
| Driver.Adis16000.ReadFft | lib/ADIS16000.cpp:186-193 | logs `(PAGE_ID,a),(BUF_PNTR,sample)`, then reads of X_BUF and Y_BUF; sends the two data words and then each read's address and fill bytes; returns a new two-element array holding the X_BUF and Y_BUF values |
| Driver.Adis16000.SetDataReady | lib/ADIS16000.cpp:195-209 | always writes `(PAGE_ID,0)` first; then dio 1 writes `(GPO_CTRL,0x08)` and returns 1, dio 2 writes `(GPO_CTRL,0x20)` and returns 2, and any other dio writes nothing more and returns 0; in each case it sends the data bytes of its trace |
| Driver.Adis16000.SetPeriodicMode | lib/ADIS16000.cpp:211-217 | logs `(PAGE_ID,a),(UPDAT_INT,i),(INT_SCL,s),(GLOB_CMD_S,0x800)` and the matching eight bytes, which are the data bytes of its trace; ends on the sensor's page; returns 1 |

## Left out

- The pin and bus plumbing is not modelled. This covers `SPI.begin`, `SPI.end` and the SPI mode settings, `pinMode`, the chip-select toggling, and the delays (`lib/ADIS16000.cpp:37-44`, `:52`, `:88-101`, `:129-134`, `:148`). These are hardware calls and timing; only the byte order they produce is kept, in `mosi`.
- The `#ifdef DEBUG` serial tracing (`lib/ADIS16000.cpp:106-111`, `:136-141`) is not modelled. It is output only.
- `resetDUT` and `configSPI` (`lib/ADIS16000.cpp:58-76`) are not modelled. They pulse a pin, set bus modes, and always return 1.
- The destructor (`lib/ADIS16000.cpp:50-53`) is not modelled. It only closes the bus.
- The loop of `readFFTBuffer` (`lib/ADIS16000.cpp:179-183`) is not modelled, because it is not well-defined code: its header has a comma where a `;` belongs, it fills the undeclared arrays `bufferx` and `buffery`, and it returns a pointer to a stack array. Only its four leading writes are modelled, as `ReadFftBufferStart`.
- `ReadFft` returns a new array. The source returns a pointer to a local array, which is dangling once the function returns.
- The device side of the protocol is not modelled. A write does not change what a later read of the same register returns, and register contents do not change over time. `registers` is a fixed map that stands for what the device sends back.
- The numeric register addresses are not part of this model. They come from the header `ADIS16000`, so `addressOf` is a parameter.
- The floating-point multiplications (`lib/ADIS16000.cpp:244`, `:273`, `:285`, `:297`) are not modelled as floats.
- Scale.ScaleTime: returns hundred-thousandths as an integer rather than a `float`, and uses the corrected sign adjustment and a real-valued `lsbrange` (see Findings).
- Scale.ScaleFft: returns hundred-thousandths as an integer rather than a `float`, and uses the corrected sign adjustment and a real-valued `lsbrange` (see Findings).
- Scale.ScaleSupply: returns hundred-thousandths as an integer rather than a `float`, and uses the corrected sign adjustment.
- Scale.ScaleTemp: returns hundred-thousandths as an integer rather than a `float`, and uses the corrected sign adjustment.
- Scale.SignAdjust: models the 16-bit `int` of the 8-bit AVR boards the library names (`lib/ADIS16000.cpp:8-9`). With a 32-bit `int` the same line would give `sensorData - 0xFFFF` instead, which is not modelled.
- Frame.ToInt16 reduces modulo 2^16. This is how compilers convert to `int16_t`, although C++ before C++20 leaves the out-of-range case implementation-defined.

## Findings

| source | as written | input that shows it | evidently intended | confidence | as-written member | corrected member |
|---|---|---|---|---|---|---|
| lib/ADIS16000.cpp:224 | `signedData = sensorData - 0xFFFF` when bit 15 is set, but `sensorData` is already a signed `int16_t`; with a 16-bit `int` the unsigned 0xFFFF makes the subtraction wrap to `sensorData + 1` (repeated at :253, :282, :294) | `sensorData = -1` gives 0, the same as `0`, and -32768 gives -32767, while `1` gives 1 | the signed sample itself: the 16-bit pattern minus 0x10000 when bit 15 is set, so -1 stays -1 | high; not executed | Scale.SignAdjustMisreadsMinusOne | Scale.SignedCountIsSample |
| lib/ADIS16000.cpp:220 | `int lsbrange` is assigned 0.0305, 0.1526, ... and truncates every one of them to 0 (likewise at :249) | `scaleTime(100, 1)` returns 0 instead of 3.05 | a floating-point `lsbrange`, so that the result is the sample times the constant of its range | high; not executed | Scale.ScaleAsWrittenIsZero | Scale.ScaleTimeMeaning |
