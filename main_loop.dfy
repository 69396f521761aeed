/** The main loop of the firmware (`for(;;)` in `main`) and the branches of
    `high_isr` that feed it, as a sequential state machine: every interrupt
    branch is an atomic event between loop iterations. */
module MainLoop {
  import opened StdInt
  import opened SevenSegment
  import opened Multiplexer

  /** Timer 0 overflows between two refreshes of the cached reading. */
  const RefreshTicks: uint16 := 500

  /** The serial command that asks for a dump of the reading. */
  const DumpCommand: uint8 := 'd' as uint8

  /** The firmware globals the loop and the interrupt share, with the cached
      reading `temp_read` represented by the raw sample it was computed from
      (the conversion to degrees is floating point and left abstract).
      `started` and `completed` count ADC conversions begun and finished;
      `dumps` lists the samples whose readings were sent over the serial
      line, oldest first. */
  datatype State = State(
    tmr0Overflow: uint16,
    sensorTempU16: uint16,
    readingSample: uint16,
    goDone: bool,
    uartChar: uint8,
    uartRcvData: bool,
    started: nat,
    completed: nat,
    dumps: seq<uint16>)

  /** The interrupt branches of `high_isr` and one pass of the main loop. */
  datatype Event =
    | TimerTick
    | AdcComplete(adresh: bv8, adresl: bv8)
    | UartReceive(c: uint8)
    | LoopStep

  /** The state when the main loop is entered (main.c:220-227): the first
      conversion, started at start-up, has finished with `first`, the reading
      is computed from it, and the timer has not counted yet. */
  function Start(first: uint16): (s: State)
    ensures Accounting(s) && !s.goDone && s.readingSample == s.sensorTempU16 == first
    ensures s.tmr0Overflow == 0 && s.uartChar == 0 && !s.uartRcvData && s.dumps == []
  {
    State(0, first, first, false, 0, false, 1, 1, [])
  }

  /** `(ADRESH << 8) | ADRESL` stored into a 16-bit variable: the high byte
      above the low byte, at most 1023 exactly when the high byte holds only
      the two bits of a right-justified 10-bit result (main.c:153). */
  function AdcResult(adresh: bv8, adresl: bv8): (r: uint16)
    ensures r as int == adresh as int * 256 + adresl as int
    ensures adresh <= 3 <==> r <= 1023
  {
    var w := (adresh as bv16 << 8) | adresl as bv16;
    ShiftOrIsSum(adresh, adresl);
    w as int as uint16
  }

  lemma ShiftOrIsSum(h: bv8, l: bv8)
    ensures ((h as bv16 << 8) | l as bv16) as int == h as int * 256 + l as int
  {
  }

  /** `tmr0_overflow++` on a `uint16_t`. */
  function Increment(n: uint16): (r: uint16)
    ensures r as int == (n as int + 1) % 0x1_0000
  {
    if n == 0xFFFF then 0 else n + 1
  }

  /** `tmr0_overflow++` (main.c:272). */
  function Tick(s: State): (r: State)
    ensures r.tmr0Overflow as int == (s.tmr0Overflow as int + 1) % 0x1_0000
    ensures r.(tmr0Overflow := s.tmr0Overflow) == s
  {
    s.(tmr0Overflow := Increment(s.tmr0Overflow))
  }

  /** The conversion result stored (main.c:268); the ADC clears GODONE. */
  function Complete(s: State, adresh: bv8, adresl: bv8): (r: State)
    ensures r.sensorTempU16 as int == adresh as int * 256 + adresl as int
    ensures !r.goDone && r.completed == s.completed + 1
    ensures r.(sensorTempU16 := s.sensorTempU16, goDone := s.goDone, completed := s.completed) == s
  {
    s.(sensorTempU16 := AdcResult(adresh, adresl), goDone := false, completed := s.completed + 1)
  }

  /** `uart_receiver(&uart_char, &uart_rcv_data)` (main.c:262). */
  function Receive(s: State, c: uint8): (r: State)
    ensures r.uartChar == c && r.uartRcvData
    ensures r.(uartChar := s.uartChar, uartRcvData := s.uartRcvData) == s
  {
    s.(uartChar := c, uartRcvData := true)
  }

  /** main.c:230-233: recompute the reading from the latest sample once the
      counter has reached 500, and restart the count. */
  function Refresh(s: State): (r: State)
    ensures r.tmr0Overflow < RefreshTicks
    ensures s.tmr0Overflow >= RefreshTicks ==> r.readingSample == s.sensorTempU16 && r.tmr0Overflow == 0
    ensures s.tmr0Overflow < RefreshTicks ==> r == s
    ensures r.(readingSample := s.readingSample, tmr0Overflow := s.tmr0Overflow) == s
  {
    if s.tmr0Overflow >= RefreshTicks then s.(readingSample := s.sensorTempU16, tmr0Overflow := 0) else s
  }

  /** main.c:235-238: send the reading while the last character received is
      'd'. */
  function Dump(s: State): (r: State)
    ensures r.dumps == s.dumps + if s.uartChar == DumpCommand then [s.readingSample] else []
    ensures r.(dumps := s.dumps) == s
  {
    if s.uartChar == DumpCommand then s.(dumps := s.dumps + [s.readingSample]) else s
  }

  /** main.c:243-245: start a conversion unless one is in flight. */
  function Arm(s: State): (r: State)
    ensures r.goDone
    ensures r.started == if s.goDone then s.started else s.started + 1
    ensures Accounting(s) ==> Accounting(r)
    ensures r.(goDone := s.goDone, started := s.started) == s
  {
    if !s.goDone then s.(goDone := true, started := s.started + 1) else s
  }

  /** main.c:247-250: the received flag is cleared; `uart_char` is not. */
  function Acknowledge(s: State): (r: State)
    ensures !r.uartRcvData && r.uartChar == s.uartChar
    ensures r.(uartRcvData := s.uartRcvData) == s
  {
    s.(uartRcvData := false)
  }

  /** One pass of the loop; rendering changes only the display. */
  function Pass(s: State): (r: State)
    ensures r.tmr0Overflow < RefreshTicks && r.goDone && !r.uartRcvData
    ensures r.uartChar == s.uartChar && r.sensorTempU16 == s.sensorTempU16 && r.completed == s.completed
  {
    Acknowledge(Arm(Dump(Refresh(s))))
  }

  /** The effect of one event. An ADC interrupt arrives only at the end of a
      conversion, so `AdcComplete` while none is in flight changes nothing. */
  function Step(s: State, e: Event): (r: State)
    ensures !e.LoopStep? ==> r.readingSample == s.readingSample && r.dumps == s.dumps
    ensures e.LoopStep? ==> r.tmr0Overflow < RefreshTicks
    ensures s.started <= r.started && s.completed <= r.completed
    ensures |s.dumps| <= |r.dumps| && r.dumps[..|s.dumps|] == s.dumps
  {
    match e
    case TimerTick => Tick(s)
    case AdcComplete(h, l) => if s.goDone then Complete(s, h, l) else s
    case UartReceive(c) => Receive(s, c)
    case LoopStep => Pass(s)
  }

  /** The state after a sequence of events, in order. */
  function Run(s: State, es: seq<Event>): (r: State)
    ensures s.started <= r.started && s.completed <= r.completed
    ensures |s.dumps| <= |r.dumps| && r.dumps[..|s.dumps|] == s.dumps
    decreases |es|
  {
    if es == [] then s else Run(Step(s, es[0]), es[1..])
  }

  /** The events one invocation of `high_isr` handles, in the order of its
      branches (main.c:261-274), for the flags that are set. */
  function HighIsr(received: Option<uint8>, converted: Option<(bv8, bv8)>, overflowed: bool): (es: seq<Event>)
    ensures |es| == (if received.Some? then 1 else 0) + (if converted.Some? then 1 else 0) + (if overflowed then 1 else 0)
  {
    (if received.Some? then [UartReceive(received.value)] else []) +
    (if converted.Some? then [AdcComplete(converted.value.0, converted.value.1)] else []) +
    (if overflowed then [TimerTick] else [])
  }

  /** One invocation of `high_isr` stores the received byte, the conversion
      result and the incremented counter for the flags that are set, and
      touches neither the reading nor the dumps. */
  lemma HighIsrEffect(s: State, received: Option<uint8>, converted: Option<(bv8, bv8)>, overflowed: bool)
    ensures Run(s, HighIsr(received, converted, overflowed)).uartChar ==
      if received.Some? then received.value else s.uartChar
    ensures Run(s, HighIsr(received, converted, overflowed)).sensorTempU16 ==
      if converted.Some? && s.goDone then AdcResult(converted.value.0, converted.value.1) else s.sensorTempU16
    ensures Run(s, HighIsr(received, converted, overflowed)).tmr0Overflow ==
      if overflowed then Increment(s.tmr0Overflow) else s.tmr0Overflow
    ensures Run(s, HighIsr(received, converted, overflowed)).readingSample == s.readingSample
    ensures Run(s, HighIsr(received, converted, overflowed)).dumps == s.dumps
  {
    var r := if received.Some? then [UartReceive(received.value)] else [];
    var c := if converted.Some? then [AdcComplete(converted.value.0, converted.value.1)] else [];
    var o := if overflowed then [TimerTick] else [];
    RunAppend(s, r, c + o);
    RunAppend(Run(s, r), c, o);
    assert HighIsr(received, converted, overflowed) == r + (c + o);
  }

  /** Running two sequences of events one after the other. */
  lemma {:induction false} RunAppend(s: State, xs: seq<Event>, ys: seq<Event>)
    ensures Run(s, xs + ys) == Run(Run(s, xs), ys)
    decreases |xs|
  {
    if xs != [] {
      assert (xs + ys)[0] == xs[0] && (xs + ys)[1..] == xs[1..] + ys;
      RunAppend(Step(s, xs[0]), xs[1..], ys);
    } else {
      assert xs + ys == ys;
    }
  }

  /** Every conversion started has completed, except the one in flight. */
  predicate Accounting(s: State)
  {
    s.started == s.completed + (if s.goDone then 1 else 0)
  }

  /** `TimerTick` adds one to the overflow counter, wrapping at 16 bits, and
      touches nothing else: `Tick`'s contract restated for the event. */
  lemma TimerTickCounts(s: State)
    ensures Step(s, TimerTick).tmr0Overflow as int == (s.tmr0Overflow as int + 1) % 0x1_0000
    ensures s.tmr0Overflow < 0xFFFF ==> Step(s, TimerTick).tmr0Overflow == s.tmr0Overflow + 1
    ensures Step(s, TimerTick).(tmr0Overflow := s.tmr0Overflow) == s
  {
  }

  /** `AdcComplete` stores ADRESH * 256 + ADRESL, at most 1023 for a
      right-justified 10-bit result, and ends the conversion in flight: the
      contracts of `Complete` and `AdcResult` restated for the event. */
  lemma AdcCompleteStores(s: State, h: bv8, l: bv8)
    requires s.goDone
    ensures Step(s, AdcComplete(h, l)).sensorTempU16 as int == h as int * 256 + l as int
    ensures h <= 3 ==> Step(s, AdcComplete(h, l)).sensorTempU16 <= 1023
    ensures !Step(s, AdcComplete(h, l)).goDone
    ensures Step(s, AdcComplete(h, l)).readingSample == s.readingSample
  {
  }

  /** One main-loop pass (main.c:230-250). */
  lemma LoopStepEffect(s: State)
    ensures Step(s, LoopStep).tmr0Overflow < RefreshTicks
    ensures s.tmr0Overflow >= RefreshTicks ==>
      Step(s, LoopStep).readingSample == s.sensorTempU16 && Step(s, LoopStep).tmr0Overflow == 0
    ensures s.tmr0Overflow < RefreshTicks ==>
      Step(s, LoopStep).readingSample == s.readingSample && Step(s, LoopStep).tmr0Overflow == s.tmr0Overflow
    ensures Step(s, LoopStep).dumps ==
      s.dumps + if s.uartChar == DumpCommand then [Step(s, LoopStep).readingSample] else []
    ensures Step(s, LoopStep).goDone
    ensures Step(s, LoopStep).started == if s.goDone then s.started else s.started + 1
    ensures Step(s, LoopStep).uartChar == s.uartChar && !Step(s, LoopStep).uartRcvData
    ensures Step(s, LoopStep).sensorTempU16 == s.sensorTempU16
  {
  }

  /** A conversion is started only when none is in flight, so every event
      keeps the accounting of conversions. */
  lemma StepKeepsAccounting(s: State, e: Event)
    requires Accounting(s)
    ensures Accounting(Step(s, e))
    ensures s.goDone ==> Step(s, e).started == s.started
  {
  }

  lemma {:induction false} RunKeepsAccounting(s: State, es: seq<Event>)
    requires Accounting(s)
    ensures Accounting(Run(s, es))
    ensures Run(s, es).completed <= Run(s, es).started <= Run(s, es).completed + 1
    decreases |es|
  {
    if es != [] {
      StepKeepsAccounting(s, es[0]);
      RunKeepsAccounting(Step(s, es[0]), es[1..]);
    }
  }

  /** Every ADC high byte in the sequence is at most 3. */
  predicate TenBitResults(es: seq<Event>)
  {
    forall i | 0 <= i < |es| :: es[i].AdcComplete? ==> es[i].adresh <= 3
  }

  predicate SamplesInRange(s: State)
  {
    s.sensorTempU16 <= 1023 && s.readingSample <= 1023
  }

  lemma StepKeepsSamplesInRange(s: State, e: Event)
    requires SamplesInRange(s) && (e.AdcComplete? ==> e.adresh <= 3)
    ensures SamplesInRange(Step(s, e))
  {
    if e.AdcComplete? && s.goDone {
      AdcCompleteStores(s, e.adresh, e.adresl);
    }
  }

  /** With 10-bit conversion results, the stored sample and the sample the
      reading comes from stay at most 1023. */
  lemma {:induction false} RunKeepsSamplesInRange(s: State, es: seq<Event>)
    requires SamplesInRange(s) && TenBitResults(es)
    ensures SamplesInRange(Run(s, es))
    decreases |es|
  {
    if es != [] {
      StepKeepsSamplesInRange(s, es[0]);
      assert TenBitResults(es[1..]) by {
        forall i | 0 <= i < |es[1..]|
          ensures es[1..][i].AdcComplete? ==> es[1..][i].adresh <= 3
        {
          assert es[1..][i] == es[i + 1];
        }
      }
      RunKeepsSamplesInRange(Step(s, es[0]), es[1..]);
    }
  }

  /** The number of main-loop passes in a sequence of events. */
  function Passes(es: seq<Event>): (n: nat)
    ensures n == 0 <==> forall i | 0 <= i < |es| :: !es[i].LoopStep?
    decreases |es|
  {
    if es == [] then 0 else (if es[0].LoopStep? then 1 else 0) + Passes(es[1..])
  }

  predicate NoReceive(es: seq<Event>)
  {
    forall i | 0 <= i < |es| :: !es[i].UartReceive?
  }

  /** `uart_char` is never cleared: once a 'd' has arrived, every later pass
      of the loop dumps the reading until another character arrives. */
  lemma {:induction false} DumpOnEveryPass(s: State, es: seq<Event>)
    requires s.uartChar == DumpCommand && NoReceive(es)
    ensures Run(s, es).uartChar == DumpCommand
    ensures |Run(s, es).dumps| == |s.dumps| + Passes(es)
    ensures Run(s, es).dumps[..|s.dumps|] == s.dumps
    decreases |es|
  {
    if es != [] {
      var t := Step(s, es[0]);
      assert NoReceive(es[1..]) by {
        forall i | 0 <= i < |es[1..]|
          ensures !es[1..][i].UartReceive?
        {
          assert es[1..][i] == es[i + 1];
        }
      }
      assert !es[0].UartReceive?;
      assert |t.dumps| == |s.dumps| + (if es[0].LoopStep? then 1 else 0) && t.dumps[..|s.dumps|] == s.dumps;
      DumpOnEveryPass(t, es[1..]);
      assert Run(s, es).dumps[..|t.dumps|] == t.dumps;
      assert Run(s, es).dumps[..|s.dumps|] == t.dumps[..|s.dumps|];
    }
  }

  /** Without a 'd' no pass dumps anything. */
  lemma {:induction false} NoDumpWithoutCommand(s: State, es: seq<Event>)
    requires s.uartChar != DumpCommand
    requires forall i | 0 <= i < |es| :: es[i] != UartReceive(DumpCommand)
    ensures Run(s, es).dumps == s.dumps
    decreases |es|
  {
    if es != [] {
      StepNoDump(s, es[0]);
      assert forall i | 0 <= i < |es[1..]| :: es[1..][i] == es[i + 1];
      NoDumpWithoutCommand(Step(s, es[0]), es[1..]);
    }
  }

  lemma StepNoDump(s: State, e: Event)
    requires s.uartChar != DumpCommand && e != UartReceive(DumpCommand)
    ensures Step(s, e).dumps == s.dumps && Step(s, e).uartChar != DumpCommand
  {
  }

  /** The number of timer overflows in a sequence of events. */
  function Ticks(es: seq<Event>): (n: nat)
    ensures n == 0 <==> forall i | 0 <= i < |es| :: !es[i].TimerTick?
    decreases |es|
  {
    if es == [] then 0 else (if es[0].TimerTick? then 1 else 0) + Ticks(es[1..])
  }

  /** Between two passes of the loop the 16-bit counter adds up the
      overflows, modulo 2^16; when it does not wrap, it is the plain sum. */
  lemma {:induction false} TicksAccumulate(s: State, es: seq<Event>)
    requires Passes(es) == 0
    ensures Run(s, es).tmr0Overflow as int == (s.tmr0Overflow as int + Ticks(es)) % 0x1_0000
    ensures s.tmr0Overflow as int + Ticks(es) < 0x1_0000 ==>
      Run(s, es).tmr0Overflow as int == s.tmr0Overflow as int + Ticks(es)
    ensures Run(s, es).readingSample == s.readingSample
    decreases |es|
  {
    if es != [] {
      TicksAccumulate(Step(s, es[0]), es[1..]);
    }
  }

  /** The three interrupt branches touch disjoint globals, so the order in
      which `high_isr` handles them does not matter. */
  lemma IsrBranchesCommute(s: State, c: uint8, h: bv8, l: bv8)
    ensures Step(Step(s, UartReceive(c)), AdcComplete(h, l)) == Step(Step(s, AdcComplete(h, l)), UartReceive(c))
    ensures Step(Step(s, UartReceive(c)), TimerTick) == Step(Step(s, TimerTick), UartReceive(c))
    ensures Step(Step(s, AdcComplete(h, l)), TimerTick) == Step(Step(s, TimerTick), AdcComplete(h, l))
  {
  }

  /** The firmware globals, with the display they drive. `displayValue` is
      the floating-point chain from a raw sample to the value rendered
      (`adc_2_temp` and `(uint16_t)(temp * 100)`), left abstract. */
  class Firmware {
    var tmr0Overflow: uint16
    var sensorTempU16: uint16
    var readingSample: uint16
    var goDone: bool
    var uartChar: uint8
    var uartRcvData: bool
    ghost var started: nat
    ghost var completed: nat
    var dumps: seq<uint16>
    const display: Display
    const displayValue: uint16 -> uint16

    ghost function Snapshot(): (s: State)
      reads this
    {
      State(tmr0Overflow, sensorTempU16, readingSample, goDone, uartChar, uartRcvData, started, completed, dumps)
    }

    ghost predicate Valid()
      reads this, display
    {
      display.Valid() && Accounting(Snapshot())
    }

    /** The state on entry to the loop, after the first conversion. */
    constructor (first: uint16, value: uint16 -> uint16)
      ensures Valid() && fresh(display) && display.dwells == []
      ensures display.Now() == Output(0, false, false, false, false)
      ensures Snapshot() == Start(first) && displayValue == value
    {
      tmr0Overflow, sensorTempU16, readingSample := 0, first, first;
      goDone, uartChar, uartRcvData := false, 0, false;
      started, completed, dumps := 1, 1, [];
      display := new Display();
      displayValue := value;
    }

    /** The TMR0IF branch of `high_isr` (main.c:271-274). */
    method TimerTick()
      requires Valid()
      modifies this
      ensures Valid() && Snapshot() == Step(old(Snapshot()), Event.TimerTick)
    {
      tmr0Overflow := Increment(tmr0Overflow);
    }

    /** The ADIF branch of `high_isr` (main.c:266-270) at the end of the
        conversion in flight. */
    method AdcComplete(adresh: bv8, adresl: bv8)
      requires Valid() && goDone
      modifies this
      ensures Valid() && Snapshot() == Step(old(Snapshot()), Event.AdcComplete(adresh, adresl))
    {
      sensorTempU16 := AdcResult(adresh, adresl);
      goDone := false;
      completed := completed + 1;
    }

    /** The RCIF branch of `high_isr` (main.c:261-264): the received byte and
        the received flag. */
    method UartReceive(c: uint8)
      requires Valid()
      modifies this
      ensures Valid() && Snapshot() == Step(old(Snapshot()), Event.UartReceive(c))
    {
      uartChar := c;
      uartRcvData := true;
    }

    /** main.c:230-233. */
    method RefreshReading()
      modifies this`readingSample, this`tmr0Overflow
      ensures Snapshot() == Refresh(old(Snapshot()))
    {
      if tmr0Overflow >= RefreshTicks {
        readingSample := sensorTempU16;
        tmr0Overflow := 0;
      }
    }

    /** main.c:235-238: the dump is recorded by the sample it reports. */
    method SendDump()
      modifies this`dumps
      ensures Snapshot() == Dump(old(Snapshot()))
    {
      if uartChar == DumpCommand {
        dumps := dumps + [readingSample];
      }
    }

    /** main.c:243-245. */
    method StartConversion()
      modifies this`goDone, this`started
      ensures Snapshot() == Arm(old(Snapshot()))
    {
      if !goDone {
        goDone := true;
        started := started + 1;
      }
    }

    /** main.c:247-250. */
    method ClearReceived()
      modifies this`uartRcvData
      ensures Snapshot() == Acknowledge(old(Snapshot()))
    {
      if uartRcvData {
        uartRcvData := false;
      }
    }

    /** One pass of `for(;;)` (main.c:230-250): the display shows the value
        of the cached reading after any refresh. */
    method LoopStep()
      requires Valid()
      modifies this, display
      ensures Valid() && Snapshot() == Step(old(Snapshot()), Event.LoopStep)
      ensures display.dwells == old(display.dwells) + DwellTrace(old(display.latb), displayValue(readingSample), true)
      ensures display.latb == Shown(false, Digits(displayValue(readingSample))[3])
    {
      ghost var s0 := Snapshot();
      RefreshReading();
      SendDump();
      ghost var s1 := Snapshot();
      display.ConvertFloat(displayValue(readingSample));
      assert Snapshot() == s1;
      StartConversion();
      ClearReceived();
      StepKeepsAccounting(s0, Event.LoopStep);
    }
  }
}
