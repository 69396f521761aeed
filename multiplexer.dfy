/** The display multiplexer `seg_convert_num` / `seg_convert_float`: a 16-bit
    value split into four decimal digits, each shown in turn on the shared
    LATB segment bus while exactly one of the select latches SEG_SEL0..3 is
    high. */
module Multiplexer {
  import opened StdInt
  import opened SevenSegment

  /** The display outputs: the segment latch and the four digit selects. */
  datatype Output = Output(latb: bv8, sel0: bool, sel1: bool, sel2: bool, sel3: bool)

  function Sel(o: Output, k: nat): (b: bool)
    requires k < 4
  {
    match k
    case 0 => o.sel0
    case 1 => o.sel1
    case 2 => o.sel2
    case 3 => o.sel3
  }

  /** The outputs after select latch k is written with v. */
  function SetSel(o: Output, k: nat, v: bool): (r: Output)
    requires k < 4
  {
    Output(o.latb, if k == 0 then v else o.sel0, if k == 1 then v else o.sel1,
           if k == 2 then v else o.sel2, if k == 3 then v else o.sel3)
  }

  function SelectCount(o: Output): (n: nat)
  {
    (if o.sel0 then 1 else 0) + (if o.sel1 then 1 else 0) +
    (if o.sel2 then 1 else 0) + (if o.sel3 then 1 else 0)
  }

  /** Select k is the one digit enabled. */
  predicate OnlySelect(o: Output, k: nat)
    requires k < 4
  {
    forall j | 0 <= j < 4 :: Sel(o, j) == (j == k)
  }

  /** What must hold at every instant: at most one digit is enabled, and a lit
      decimal point is never on a digit other than the hundreds (SEL1). */
  predicate Safe(o: Output)
  {
    SelectCount(o) <= 1 && (o.latb & 1 != 0 ==> !o.sel0 && !o.sel2 && !o.sel3)
  }

  /** The split of main.c:83-105 (and 115-139): divide by 1000, 100 and 10 in
      16-bit unsigned arithmetic, subtracting what each digit accounts for.
      Nothing clamps the value, so above 9999 the thousands "digit" is 10 or
      more. */
  function Digits(num: uint16): (d: seq<uint8>)
    ensures |d| == 4
    ensures d[0] as int * 1000 + d[1] as int * 100 + d[2] as int * 10 + d[3] as int == num as int
    ensures d[1] <= 9 && d[2] <= 9 && d[3] <= 9
    ensures d[0] <= 9 <==> num <= 9999
  {
    var rem0 := num / 1000;
    var num1 := num - rem0 * 1000;
    var rem1 := num1 / 100;
    var num2 := num1 - rem1 * 100;
    var rem2 := num2 / 10;
    var num3 := num2 - rem2 * 10;
    [rem0 as uint8, rem1 as uint8, rem2 as uint8, num3 as uint8]
  }

  /** The number four decimal digits stand for. */
  function Value(d: seq<uint8>): (v: nat)
    requires |d| == 4 && forall k | 0 <= k < 4 :: d[k] <= 9
    ensures v <= 9999
  {
    d[0] as nat * 1000 + d[1] as nat * 100 + d[2] as nat * 10 + d[3] as nat
  }

  /** The split is the only one with its last three digits at most 9 that
      adds back up to the number. */
  lemma DigitsUnique(num: uint16, d: seq<uint8>)
    requires |d| == 4 && d[1] <= 9 && d[2] <= 9 && d[3] <= 9
    requires d[0] as int * 1000 + d[1] as int * 100 + d[2] as int * 10 + d[3] as int == num as int
    ensures Digits(num) == d
  {
    var r := Digits(num);
    assert r[0] == d[0];
    assert r[1] == d[1];
    assert r[2] == d[2];
    assert r[3] == d[3];
  }

  /** Splitting the number four digits stand for gives those digits back. */
  lemma DigitsOfValue(d: seq<uint8>)
    requires |d| == 4 && forall k | 0 <= k < 4 :: d[k] <= 9
    ensures Digits(Value(d) as uint16) == d
  {
    DigitsUnique(Value(d) as uint16, d);
  }

  /** The outputs at the four dwell points of one render pass of `num` that
      starts with the decimal point bit of LATB at `latb0 & 1`: digit k of the
      split is shown while SEL k alone is high. With `dp` (`seg_convert_float`)
      the decimal point is lit at the hundreds position and dark from then on;
      without it (`seg_convert_num`) it keeps its value throughout. */
  function DwellTrace(latb0: bv8, num: uint16, dp: bool): (t: seq<Output>)
    ensures |t| == 4
    ensures forall k | 0 <= k < 4 :: OnlySelect(t[k], k)
  {
    var d := Digits(num);
    var p := latb0 & 1 == 1;
    [Output(Shown(p, d[0]), true, false, false, false),
     Output(Shown(p || dp, d[1]), false, true, false, false),
     Output(Shown(p && !dp, d[2]), false, false, true, false),
     Output(Shown(p && !dp, d[3]), false, false, false, true)]
  }

  /** Every dwell of a pass that starts with the decimal point clear is a
      safe instant: one digit enabled, and the decimal point lit on none but
      the hundreds. */
  lemma DwellsSafe(latb0: bv8, num: uint16, dp: bool)
    ensures latb0 & 1 == 0 ==> forall k | 0 <= k < 4 :: Safe(DwellTrace(latb0, num, dp)[k])
  {
    var p := latb0 & 1 == 1;
    var d := Digits(num);
    ShownBits(p, d[0]);
    ShownBits(p || dp, d[1]);
    ShownBits(p && !dp, d[2]);
    ShownBits(p && !dp, d[3]);
  }

  /** Position k reads as digit k of the split, or blank when that digit is
      above 9 (only the thousands position can be). */
  lemma DwellDigits(latb0: bv8, num: uint16, dp: bool)
    ensures forall k | 0 <= k < 4 ::
      ReadDigit(DwellTrace(latb0, num, dp)[k].latb) ==
        if Digits(num)[k] <= 9 then Some(Digits(num)[k]) else None
  {
    var p := latb0 & 1 == 1;
    var d := Digits(num);
    ReadShown(p, d[0]);
    ReadShown(p || dp, d[1]);
    ReadShown(p && !dp, d[2]);
    ReadShown(p && !dp, d[3]);
  }

  /** The number a viewer reads off the four dwell states, if every position
      shows a digit. */
  function ShownValue(t: seq<Output>): (v: Option<nat>)
    requires |t| == 4
    ensures v.Some? ==> v.value <= 9999
  {
    var r := [ReadDigit(t[0].latb), ReadDigit(t[1].latb), ReadDigit(t[2].latb), ReadDigit(t[3].latb)];
    if r[0].Some? && r[1].Some? && r[2].Some? && r[3].Some? then
      Some(Value([r[0].value, r[1].value, r[2].value, r[3].value]))
    else
      None
  }

  /** One render pass shows exactly the value rendered when it has at most
      four digits; a larger value leaves the thousands position blank. */
  lemma DisplayRoundTrip(latb0: bv8, num: uint16, dp: bool)
    ensures ShownValue(DwellTrace(latb0, num, dp)) == if num <= 9999 then Some(num as nat) else None
    ensures num > 9999 ==> ReadDigit(DwellTrace(latb0, num, dp)[0].latb) == None
  {
    DwellDigits(latb0, num, dp);
  }

  /** With the decimal point clear on entry, `seg_convert_float` lights it at
      the hundreds position only; `seg_convert_num` never changes it. */
  lemma DwellDecimalPoint(latb0: bv8, num: uint16, dp: bool)
    ensures dp && latb0 & 1 == 0 ==>
      forall k | 0 <= k < 4 :: (DwellTrace(latb0, num, dp)[k].latb & 1 == 1) == (k == 1)
    ensures !dp ==> forall k | 0 <= k < 4 :: DwellTrace(latb0, num, dp)[k].latb & 1 == latb0 & 1
  {
    var p := latb0 & 1 == 1;
    var d := Digits(num);
    ShownBits(p, d[0]);
    ShownBits(p || dp, d[1]);
    ShownBits(p && !dp, d[2]);
    ShownBits(p && !dp, d[3]);
  }

  /** 3281 (a reading of 32.81 scaled by 100) is shown as 3, 2, 8, 1. */
  lemma ShowsScaledReading()
    ensures Digits(3281) == [3, 2, 8, 1]
    ensures ShownValue(DwellTrace(0, 3281, true)) == Some(3281)
  {
    DigitsUnique(3281, [3, 2, 8, 1]);
    DisplayRoundTrip(0, 3281, true);
  }

  /** 10050 is not clamped: its thousands digit is 10, shown blank. */
  lemma NoClampAbove9999()
    ensures Digits(10050) == [10, 0, 5, 0]
    ensures ReadDigit(DwellTrace(0, 10050, true)[0].latb) == None
  {
    DigitsUnique(10050, [10, 0, 5, 0]);
    DisplayRoundTrip(0, 10050, true);
  }

  lemma AppendFour(s: seq<Output>, t: seq<Output>)
    requires |t| == 4
    ensures s + [t[0]] + [t[1]] + [t[2]] + [t[3]] == s + t
  {
    assert t == [t[0], t[1], t[2], t[3]];
  }

  /** The segment latch LATB and the select latches SEG_SEL0..3 (LATD7..4).
      Every write to them goes through `WriteLatb` or `WriteSel`, which
      require the outputs they produce to be `Safe`: a method that verifies
      therefore never shows two digits at once, nor the decimal point on a
      digit other than the hundreds, at any instant. `dwells` records the
      outputs at each dwell, for the specification of a whole render pass. */
  class Display {
    var latb: bv8
    var sel0: bool
    var sel1: bool
    var sel2: bool
    var sel3: bool
    ghost var dwells: seq<Output>

    function Now(): (o: Output)
      reads this
    {
      Output(latb, sel0, sel1, sel2, sel3)
    }

    /** Between render passes every select is low and the decimal point is
        clear. */
    ghost predicate Valid()
      reads this
    {
      !sel0 && !sel1 && !sel2 && !sel3 && latb & 1 == 0
    }

    /** The start-up state: selects low (main.c:200-203), LATB cleared
        (main.c:205). */
    constructor ()
      ensures Valid()
      ensures Now() == Output(0, false, false, false, false) && dwells == []
    {
      latb, sel0, sel1, sel2, sel3 := 0, false, false, false, false;
      dwells := [];
    }

    method WriteLatb(v: bv8)
      requires Safe(Output(v, sel0, sel1, sel2, sel3))
      modifies this`latb
      ensures latb == v
    {
      latb := v;
    }

    method WriteSel(k: nat, v: bool)
      requires k < 4 && Safe(SetSel(Output(latb, sel0, sel1, sel2, sel3), k, v))
      modifies this`sel0, this`sel1, this`sel2, this`sel3
      ensures sel0 == if k == 0 then v else old(sel0)
      ensures sel1 == if k == 1 then v else old(sel1)
      ensures sel2 == if k == 2 then v else old(sel2)
      ensures sel3 == if k == 3 then v else old(sel3)
    {
      if k == 0 {
        sel0 := v;
      } else if k == 1 {
        sel1 := v;
      } else if k == 2 {
        sel2 := v;
      } else {
        sel3 := v;
      }
    }

    /** `__delay_us(SEG_DELAY)`: the outputs are held; only the dwell is noted. */
    method Dwell()
      modifies this`dwells
      ensures dwells == old(dwells) + [Output(latb, sel0, sel1, sel2, sel3)]
    {
      dwells := dwells + [Output(latb, sel0, sel1, sel2, sel3)];
    }

    /** `seg_numbers` (main.c:41-79). */
    method SegNumbers(n: uint8)
      requires Safe(Output(latb, sel0, sel1, sel2, sel3))
      modifies this`latb
      ensures latb == Shown(old(latb) & 1 == 1, n)
    {
      GlyphsLeaveDpAlone();
      WriteLatb(latb & 1);
      if n <= 9 {
        WriteLatb(latb | GlyphMask(n));
      }
      assert latb == SegmentLatch(old(latb), n);
    }

    /** One digit position of a render pass, the block the renderers repeat
        for each select: raise SEG_SELk, `seg_numbers(n)`, dwell, lower SEG_SELk
        (main.c:84-87, 98-101, 104-107 and 116-119, 132-135, 138-141). */
    method Strobe(k: nat, n: uint8)
      requires k < 4 && k != 1
      requires Valid()
      modifies this
      ensures Valid() && latb == Shown(false, n)
      ensures dwells == old(dwells) + [SetSel(Output(Shown(false, n), false, false, false, false), k, true)]
    {
      ShownBits(false, n);
      WriteSel(k, true);
      SegNumbers(n);
      Dwell();
      WriteSel(k, false);
    }

    /** The hundreds position: as `Strobe` on SEG_SEL1, but with `dp` the
        decimal point is set after the select is raised and cleared after it
        is lowered (main.c:91-94 and 123-128). */
    method StrobeHundreds(n: uint8, dp: bool)
      requires Valid()
      modifies this
      ensures Valid() && latb == Shown(false, n)
      ensures dwells == old(dwells) + [Output(Shown(dp, n), false, true, false, false)]
    {
      ShownBits(false, n);
      ShownBits(true, n);
      WriteSel(1, true);
      if dp {
        WriteLatb(latb | 1);
      }
      SegNumbers(n);
      Dwell();
      WriteSel(1, false);
      if dp {
        WriteLatb(latb & 0xFE);
      }
    }

    /** `seg_convert_num` (main.c:81-108). */
    method ConvertNum(num0: uint16)
      requires Valid()
      modifies this
      ensures Valid()
      ensures dwells == old(dwells) + DwellTrace(old(latb), num0, false)
      ensures latb == Shown(false, Digits(num0)[3])
    {
      ghost var d, t := Digits(num0), DwellTrace(latb, num0, false);
      var num := num0;
      var rem := num / 1000;
      assert rem as uint8 == d[0];
      Strobe(0, rem as uint8);
      assert dwells == old(dwells) + [t[0]];
      num := num - rem * 1000;

      rem := num / 100;
      assert rem as uint8 == d[1];
      StrobeHundreds(rem as uint8, false);
      assert dwells == old(dwells) + [t[0]] + [t[1]];
      num := num - rem * 100;

      rem := num / 10;
      assert rem as uint8 == d[2];
      Strobe(2, rem as uint8);
      assert dwells == old(dwells) + [t[0]] + [t[1]] + [t[2]];
      num := num - rem * 10;

      assert num as uint8 == d[3];
      Strobe(3, num as uint8);
      AppendFour(old(dwells), t);
    }

    /** `seg_convert_float` (main.c:111-142) from the point where the reading
        has become the 16-bit value `num0`. */
    method ConvertFloat(num0: uint16)
      requires Valid()
      modifies this
      ensures Valid()
      ensures dwells == old(dwells) + DwellTrace(old(latb), num0, true)
      ensures latb == Shown(false, Digits(num0)[3])
    {
      ghost var d, t := Digits(num0), DwellTrace(latb, num0, true);
      var num := num0;
      var rem := num / 1000;
      assert rem as uint8 == d[0];
      Strobe(0, rem as uint8);
      assert dwells == old(dwells) + [t[0]];
      num := num - rem * 1000;

      rem := num / 100;
      assert rem as uint8 == d[1];
      StrobeHundreds(rem as uint8, true);
      assert dwells == old(dwells) + [t[0]] + [t[1]];
      num := num - rem * 100;

      rem := num / 10;
      assert rem as uint8 == d[2];
      Strobe(2, rem as uint8);
      assert dwells == old(dwells) + [t[0]] + [t[1]] + [t[2]];
      num := num - rem * 10;

      assert num as uint8 == d[3];
      Strobe(3, num as uint8);
      AppendFour(old(dwells), t);
    }
  }
}
