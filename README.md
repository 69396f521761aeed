# PIC18 temperature display firmware — Dafny model

A model of the display and main-loop logic of a PIC18F4520 firmware. The
firmware samples an analog temperature sensor and shows the reading on a
four-digit multiplexed seven-segment display. It also sends the reading over
the serial line while the last character received is `d`.

The model has four modules:

- `StdInt` (`stdint.dfy`) holds the C types `uint8_t` and `uint16_t` as
  newtypes, and an `Option` type.
- `SevenSegment` (`seven_segment.dfy`) holds the glyph table of
  `seg_numbers`, written onto the 8-bit segment latch LATB. Bit 0 of LATB is
  the decimal point; the bit of each segment follows the `SEG_DATA_*`
  defines. `SegmentLatch` is the code as written. `Shown` is the reference
  value of a latch showing a digit with the decimal point on or off, and
  `ReadDigit` is what a viewer reads off a digit position.
- `Multiplexer` (`multiplexer.dfy`) holds the class `Display`: LATB, the
  four select latches SEG_SEL0..3 and a ghost record of the outputs at every
  dwell point.
  - Its methods are `seg_numbers`, and the renderers `seg_convert_num` and
    `seg_convert_float`, both taken from the point where the value is a
    `uint16_t`.
  - They use the source's own divide-and-subtract arithmetic and write the
    latches in the source's order.
  - Every latch write goes through `WriteLatb` or `WriteSel`. Each of them
    requires that the outputs it produces are `Safe`: at most one select is
    high, and a lit decimal point is on no position but the hundreds. So the
    renderers are proved never to reach an unsafe instant.
  - A whole render pass is specified by `DwellTrace`, a function of the
    value, and the lemmas about `DwellTrace` state what is displayed.
- `MainLoop` (`main_loop.dfy`) holds the loop body of `main` and the
  branches of `high_isr`.
  - They are modelled as events on a `State` of the shared globals:
    `TimerTick`, `AdcComplete`, `UartReceive` and `LoopStep`.
  - The pure `Step` and `Run` carry the lemmas.
  - The class `Firmware` has one method per event, and each method's
    contract ties its fields to `Step`. `Firmware.LoopStep` renders the
    cached reading through `Display.ConvertFloat`.

The cached reading `temp_read` is represented by the raw sample it was
computed from (`readingSample`). The floating-point chain from a raw sample
to the rendered value (`adc_2_temp`, then `(uint16_t)(temp * 100)`) is the
abstract function `displayValue`, which the `Firmware` constructor is
given.

Behaviours of the code the model keeps as written:

- Nothing clamps values above 9999. Such a value has a thousands "digit" of
  10 or more, which `seg_numbers` shows blank (`NoClampAbove9999`).
- `uart_char` is never cleared, only `uart_rcv_data`. Once a `d` arrives,
  every pass of the loop sends a dump (`DumpOnEveryPass`).
- Each renderer raises the select latch before it writes the digit.
- 3281, a reading of 32.81 scaled by 100, is shown as 3, 2, 8, 1
  (`ShowsScaledReading`).

## Model

| member | source | states |
|---|---|---|
| SevenSegment.ShownBits | temp_sensor.X/main.c:16-23 | the reference latch value has the decimal point in bit 0 and exactly the digit's glyph in bits 1-7, or no segment for a value that is not a digit |
| SevenSegment.SegmentLatch | temp_sensor.X/main.c:41-79 | the latch after `seg_numbers(n)` as the code computes it (`LATB &= 1`, then the case's OR) keeps bit 0, the old decimal point, and holds exactly the glyph of n in bits 1-7, or blank when n > 9 (no case matches) |
| SevenSegment.GlyphsLeaveDpAlone | temp_sensor.X/main.c:45-76 | no glyph mask contains bit 0, the decimal point |
| SevenSegment.GlyphsDistinct | temp_sensor.X/main.c:45-76 | the ten glyph masks are pairwise distinct and none is blank |
| SevenSegment.GlyphSegments | temp_sensor.X/main.c:45-76 | each digit's case lights exactly its listed segments (0: A-F, 1: B C, 2: A B D E G, 3: A B C D G, 4: B C F G, 5: A C D F G, 6: C D E F G, 7: A B C, 8: A-G, 9: A B C F G), giving the latch masks 0x7E, 0x12, 0xBC, 0xB6, 0xD2, 0xE6, 0xCE, 0x32, 0xFE, 0xF2 under the bit positions of main.c:16-23 |
| SevenSegment.EightAndOne | temp_sensor.X/main.c:48-73 | 8 lights exactly segments A-G, 1 lights exactly B and C (a corollary of `GlyphSegments`) |
| SevenSegment.TaillessSixAndNine | temp_sensor.X/main.c:65-76 | the table draws 6 as C D E F G (no top bar) and 9 as A B C F G (no bottom bar) (a corollary of `GlyphSegments`) |
| SevenSegment.ReadDigit | temp_sensor.X/main.c:45-76 | a digit read off a latch value is at most 9 and its glyph is exactly the latch's segment bits |
| SevenSegment.FindGlyph | temp_sensor.X/main.c:45-76 | a digit found from position d on is between d and 9 and has the glyph searched for |
| SevenSegment.FindGlyphOfMask | temp_sensor.X/main.c:45-76 | the search finds a digit from its glyph, because the glyphs are distinct |
| SevenSegment.FindGlyphOfBlank | temp_sensor.X/main.c:45-76 | no digit has a blank glyph |
| SevenSegment.ReadShown | temp_sensor.X/main.c:41-79 | a latch showing n reads back as n when n <= 9 and as blank otherwise, whatever the decimal point |
| SevenSegment.ReadSegmentLatch | temp_sensor.X/main.c:41-79 | what `seg_numbers(n)` wrote reads back as n for a digit and as blank for any other value |
| Multiplexer.Digits | temp_sensor.X/main.c:83-105 | the uint16 split gives d0*1000 + d1*100 + d2*10 + d3 == num with d1, d2, d3 <= 9, and d0 <= 9 exactly when num <= 9999 |
| Multiplexer.DigitsUnique | temp_sensor.X/main.c:115-139 | the split is the only four-digit decomposition with its last three digits at most 9 |
| Multiplexer.Value | temp_sensor.X/main.c:83-105 | four decimal digits stand for a number of at most 9999 |
| Multiplexer.DigitsOfValue | temp_sensor.X/main.c:83-105 | splitting the number four digits stand for returns those digits |
| Multiplexer.DwellTrace | temp_sensor.X/main.c:81-142 | one render pass of a value is four dwells, the k-th with only SEL k high, SEL0 first and SEL3 last (what each dwell shows is stated by `DwellDigits` and `DwellDecimalPoint`, its safety by `DwellsSafe`) |
| Multiplexer.DwellsSafe | temp_sensor.X/main.c:116-141 | when the decimal point starts clear, every dwell of a pass has one select high and the decimal point lit on no position but the hundreds |
| Multiplexer.DwellDigits | temp_sensor.X/main.c:83-107 | position k shows digit k of the split, or blank when that digit is above 9 |
| Multiplexer.ShownValue | temp_sensor.X/main.c:81-108 | a value read off the four positions has at most four digits |
| Multiplexer.DisplayRoundTrip | temp_sensor.X/main.c:111-142 | the four positions read as exactly the rendered value when it is <= 9999; above that the thousands position is blank and nothing is read |
| Multiplexer.DwellDecimalPoint | temp_sensor.X/main.c:123-128 | with the decimal point clear on entry, `seg_convert_float` has it lit at the hundreds dwell and at no other; `seg_convert_num` leaves it as it was at every dwell |
| Multiplexer.ShowsScaledReading | temp_sensor.X/main.c:113-139 | 3281 splits into 3, 2, 8, 1 and reads back as 3281 |
| Multiplexer.NoClampAbove9999 | temp_sensor.X/main.c:115-119 | 10050 splits into 10, 0, 5, 0 and its thousands position is blank: nothing clamps |
| Multiplexer.AppendFour | temp_sensor.X/main.c:81-108 | appending four dwells one at a time is appending the pass |
| Multiplexer.Display.constructor | temp_sensor.X/main.c:200-205 | the display starts with every select low and LATB cleared |
| Multiplexer.Display.WriteLatb | temp_sensor.X/main.c:14 | a write of LATB, allowed only when the outputs it produces are safe |
| Multiplexer.Display.WriteSel | temp_sensor.X/main.c:25-28 | a write of one select latch, allowed only when the outputs it produces are safe; the other selects are unchanged |
| Multiplexer.Display.Dwell | temp_sensor.X/main.c:86 | a dwell records the outputs held during it |
| Multiplexer.Display.SegNumbers | temp_sensor.X/main.c:41-79 | `seg_numbers` leaves LATB showing n with the old decimal point, through safe writes only |
| Multiplexer.Display.Strobe | temp_sensor.X/main.c:84-141 | raising SEL k, writing the digit, dwelling and lowering SEL k records the one dwell with only SEL k high and the digit shown; it models the SEL0, SEL2 and SEL3 blocks of both renderers (main.c:84-87, 98-107, 116-119, 132-141) |
| Multiplexer.Display.StrobeHundreds | temp_sensor.X/main.c:122-128 | the hundreds position records a dwell with only SEL1 high, the digit, and the decimal point lit exactly when `dp`, then leaves the decimal point clear |
| Multiplexer.Display.ConvertNum | temp_sensor.X/main.c:81-108 | `seg_convert_num` records exactly the dwell trace of its value, never has an unsafe instant, and returns with every select low and the decimal point clear |
| Multiplexer.Display.ConvertFloat | temp_sensor.X/main.c:111-142 | `seg_convert_float` records exactly the dwell trace of its value with the decimal point on the hundreds, never has an unsafe instant, and returns with every select low and the decimal point clear |
| MainLoop.Start | temp_sensor.X/main.c:220-227 | on entry to the loop no conversion is in flight, the books of conversions balance, the reading comes from the first sample, the counter is 0 (the timer starts only at main.c:227), `uart_char` is 0, `uart_rcv_data` is clear and nothing has been dumped |
| MainLoop.AdcResult | temp_sensor.X/main.c:268 | `(ADRESH << 8) \| ADRESL` is ADRESH * 256 + ADRESL, and is at most 1023 exactly when ADRESH <= 3 |
| MainLoop.ShiftOrIsSum | temp_sensor.X/main.c:268 | shifting the high byte left by 8 and ORing in the low byte is the sum ADRESH * 256 + ADRESL |
| MainLoop.Increment | temp_sensor.X/main.c:272 | `tmr0_overflow++` adds one modulo 2^16 |
| MainLoop.Tick | temp_sensor.X/main.c:272 | `tmr0_overflow++`: the counter gains one modulo 2^16 and no other global changes |
| MainLoop.Complete | temp_sensor.X/main.c:266-270 | a finished conversion: the sample becomes ADRESH * 256 + ADRESL, GODONE clears, one more conversion is complete, and nothing else changes |
| MainLoop.Receive | temp_sensor.X/main.c:261-264 | a received byte: `uart_char` holds it, `uart_rcv_data` is set, and nothing else changes |
| MainLoop.Refresh | temp_sensor.X/main.c:230-233 | with the counter at 500 or more the reading comes from the latest sample and the counter restarts at 0, below 500 nothing changes; either way the counter ends below 500 and only the reading and counter can change |
| MainLoop.Dump | temp_sensor.X/main.c:235-238 | the reading's sample is appended to the dumps exactly when `uart_char` is 'd'; nothing else changes |
| MainLoop.Arm | temp_sensor.X/main.c:243-245 | afterwards a conversion is in flight, and one was started only if none was; the books of conversions stay balanced and nothing else changes |
| MainLoop.Acknowledge | temp_sensor.X/main.c:247-250 | `uart_rcv_data` is cleared, `uart_char` is kept, and nothing else changes |
| MainLoop.Pass | temp_sensor.X/main.c:228-252 | after a pass the counter is below 500, a conversion is in flight, `uart_rcv_data` is clear, and `uart_char`, the sample and the completed count are as before |
| MainLoop.Step | temp_sensor.X/main.c:228-274 | an interrupt branch never changes the reading or the dumps, a loop pass leaves the counter below 500, the conversion counts never decrease and earlier dumps are never lost |
| MainLoop.Run | temp_sensor.X/main.c:228-274 | over any sequence of events the conversion counts never decrease and the dumps only grow, keeping earlier ones |
| MainLoop.HighIsr | temp_sensor.X/main.c:257-278 | an invocation handles one event per flag that is set |
| MainLoop.HighIsrEffect | temp_sensor.X/main.c:261-274 | an invocation stores the received byte, the conversion result (if one was in flight) and the incremented counter for the flags set, and changes neither the reading nor the dumps |
| MainLoop.RunAppend | temp_sensor.X/main.c:228-252 | running two event sequences one after the other is running their concatenation |
| MainLoop.TimerTickCounts | temp_sensor.X/main.c:271-274 | a timer overflow only ever adds one to the counter (wrapping at 16 bits) and changes nothing else (a corollary of `Tick`) |
| MainLoop.AdcCompleteStores | temp_sensor.X/main.c:266-270 | a completed conversion stores ADRESH * 256 + ADRESL, at most 1023 when ADRESH <= 3, clears GODONE and leaves the reading alone (a corollary of `Complete` and `AdcResult`) |
| MainLoop.LoopStepEffect | temp_sensor.X/main.c:230-250 | a pass refreshes the reading from the latest sample and resets the counter exactly when the counter is >= 500 (otherwise both are unchanged), so the counter is < 500 after it; it dumps the reading exactly when `uart_char` is 'd', starts a conversion only when none is in flight, clears `uart_rcv_data` and keeps `uart_char` |
| MainLoop.StepKeepsAccounting | temp_sensor.X/main.c:243-245 | every event keeps the books of conversions started and completed, and none starts a conversion while one is in flight |
| MainLoop.RunKeepsAccounting | temp_sensor.X/main.c:243-245 | in any run at most one conversion is in flight: started is completed or completed + 1 |
| MainLoop.StepKeepsSamplesInRange | temp_sensor.X/main.c:266-270 | one event keeps the sample and the reading's sample at most 1023 when its ADRESH is <= 3 |
| MainLoop.RunKeepsSamplesInRange | temp_sensor.X/main.c:268 | with 10-bit conversion results the stored sample and the reading's sample stay at most 1023 in any run |
| MainLoop.Passes | temp_sensor.X/main.c:228 | the count of loop passes in a run is zero exactly when the run has no pass |
| MainLoop.DumpOnEveryPass | temp_sensor.X/main.c:235-250 | once `uart_char` is 'd' and nothing else arrives, every pass adds one dump and earlier dumps are kept |
| MainLoop.NoDumpWithoutCommand | temp_sensor.X/main.c:235-238 | while no 'd' has arrived, no pass dumps |
| MainLoop.StepNoDump | temp_sensor.X/main.c:235-238 | an event other than receiving 'd' leaves the dumps alone when `uart_char` is not 'd' |
| MainLoop.Ticks | temp_sensor.X/main.c:272 | the count of overflows in a run is zero exactly when the run has no overflow |
| MainLoop.TicksAccumulate | temp_sensor.X/main.c:230-233 | between loop passes the 16-bit counter is its old value plus the number of overflows, modulo 2^16 (the plain sum when it does not wrap), and the reading is unchanged |
| MainLoop.IsrBranchesCommute | temp_sensor.X/main.c:261-274 | the receive, conversion and overflow branches touch disjoint globals, so any two of them can be handled in either order |
| MainLoop.Firmware.constructor | temp_sensor.X/main.c:200-227 | the firmware enters the loop in the state `Start` with a fresh display whose selects are all low and whose LATB is 0, with no dwell recorded |
| MainLoop.Firmware.TimerTick | temp_sensor.X/main.c:271-274 | the overflow branch changes the globals as `Step` does for `TimerTick` |
| MainLoop.Firmware.AdcComplete | temp_sensor.X/main.c:266-270 | the conversion branch changes the globals as `Step` does for `AdcComplete` |
| MainLoop.Firmware.UartReceive | temp_sensor.X/main.c:261-264 | the receive branch changes the globals as `Step` does for `UartReceive` |
| MainLoop.Firmware.RefreshReading | temp_sensor.X/main.c:230-233 | the refresh stage changes the globals as `Refresh` does |
| MainLoop.Firmware.SendDump | temp_sensor.X/main.c:235-238 | the dump stage changes the globals as `Dump` does |
| MainLoop.Firmware.StartConversion | temp_sensor.X/main.c:243-245 | the conversion stage changes the globals as `Arm` does |
| MainLoop.Firmware.ClearReceived | temp_sensor.X/main.c:247-250 | the acknowledge stage changes the globals as `Acknowledge` does |
| MainLoop.Firmware.LoopStep | temp_sensor.X/main.c:228-252 | a pass changes the globals as `Step` does for `LoopStep` and renders the value of the (refreshed) reading with `seg_convert_float`, adding exactly its dwell trace and leaving the last digit's glyph on LATB with the decimal point clear |

## Left out

- Floating point is not modelled: `adc_2_temp`, the `temp * 100` conversion to `uint16_t` in `seg_convert_float`, and the `%f` formatting of the dump. The reading is the raw sample it comes from, and the rendered value is the abstract function `displayValue` of that sample.
- Hardware set-up is not modelled: the oscillator and its `IOFS` wait, `adc_init`, `tmr0_init`, the TRIS registers and the interrupt-enable bits.
- The serial transport is not modelled: `uart_init`, `uart_send_string` and `uart_receiver` live in `uart_layer.h`, which is not part of this model. A dump is recorded by the sample it reports. A receive is assumed to store the byte in `uart_char` and set `uart_rcv_data`. The start-up banner is not recorded.
- Timing is not modelled: `__delay_us(SEG_DELAY)` is a point where the outputs are recorded, not a length of time. The start-up busy-wait for the first conversion is not modelled; the model starts from its outcome (`Start`).
- Interrupt preemption and GIEH masking are not modelled. Each interrupt branch is an atomic event between loop passes, so the race between the main loop's read of `tmr0_overflow` and its reset (a tick lost between the two) is not captured.
- `low_isr` is not modelled; its body does nothing.
- Events during the start-up sequence before the loop (a byte received during the banner, for example) are outside the model.
- Multiplexer.Display.ConvertNum: requires the decimal point clear on entry. The code does not demand this, but within this firmware the bit is always clear between passes. With it set, `seg_convert_num` would light the decimal point on every position, which the `Safe` writes rule out. `DwellTrace` and `DwellDecimalPoint` still describe that case.
- MainLoop.Firmware.AdcComplete: requires a conversion in flight, because the ADC raises its interrupt only at the end of one. The pure `Step` treats a completion with none in flight as changing nothing.
- The select latches are `LATD` bits 7 to 4, and the model writes each as its own field. Other `LATD` bits and the read-modify-write of the port are not modelled.
