/** The digit encoder `seg_numbers`: the 7-segment glyph table written onto
    the 8-bit segment data latch LATB, whose bit 0 is the decimal point. */
module SevenSegment {
  import opened StdInt

  datatype Segment = DP | A | B | C | D | E | F | G

  const AllSegments: set<Segment> := {DP, A, B, C, D, E, F, G}

  /** The latch bit that drives each segment (main.c:16-23). */
  function SegmentBit(s: Segment): (m: bv8)
  {
    match s
    case DP => 1 << 0
    case A => 1 << 5
    case B => 1 << 4
    case C => 1 << 1
    case D => 1 << 2
    case E => 1 << 3
    case F => 1 << 6
    case G => 1 << 7
  }

  /** The segments a latch value lights. */
  function Lit(latb: bv8): (r: set<Segment>)
  {
    set s | s in AllSegments && latb & SegmentBit(s) != 0
  }

  /** The mask each case of the switch ORs in (main.c:45-76), indexed by the
      digit; 6 and 9 are the tail-less forms (6 without A, 9 without D)
      exactly as the table has them. */
  const Glyphs: seq<bv8> := [
    SegmentBit(A) | SegmentBit(B) | SegmentBit(C) | SegmentBit(D) | SegmentBit(E) | SegmentBit(F),
    SegmentBit(B) | SegmentBit(C),
    SegmentBit(A) | SegmentBit(B) | SegmentBit(D) | SegmentBit(E) | SegmentBit(G),
    SegmentBit(A) | SegmentBit(B) | SegmentBit(C) | SegmentBit(D) | SegmentBit(G),
    SegmentBit(B) | SegmentBit(C) | SegmentBit(F) | SegmentBit(G),
    SegmentBit(A) | SegmentBit(C) | SegmentBit(D) | SegmentBit(F) | SegmentBit(G),
    SegmentBit(C) | SegmentBit(D) | SegmentBit(E) | SegmentBit(F) | SegmentBit(G),
    SegmentBit(A) | SegmentBit(B) | SegmentBit(C),
    SegmentBit(A) | SegmentBit(B) | SegmentBit(C) | SegmentBit(D) | SegmentBit(E) | SegmentBit(F) | SegmentBit(G),
    SegmentBit(A) | SegmentBit(B) | SegmentBit(C) | SegmentBit(F) | SegmentBit(G)
  ]

  function GlyphMask(d: uint8): (m: bv8)
    requires d <= 9
  {
    Glyphs[d]
  }

  /** The latch value after `seg_numbers(n)` runs on latch value `latb`, as
      the code computes it: bits 1-7 are cleared (`LATB &= 1`), then the
      digit's mask is ORed in; a value with no case adds nothing. So it keeps
      the decimal point and shows n. */
  function SegmentLatch(latb: bv8, n: uint8): (r: bv8)
    ensures r & 1 == latb & 1
    ensures r & 0xFE == if n <= 9 then GlyphMask(n) else 0
    ensures r == Shown(latb & 1 == 1, n)
  {
    ShownBits(latb & 1 == 1, n);
    var cleared := latb & 1;
    if n <= 9 then cleared | GlyphMask(n) else cleared
  }

  /** The latch value that shows digit n (blank when n is not a digit) with
      the decimal point lit exactly when `dp`. */
  function Shown(dp: bool, n: uint8): (r: bv8)
  {
    (if dp then 1 else 0) | (if n <= 9 then GlyphMask(n) else 0)
  }

  /** `Shown` sets bit 0 to the decimal point and bits 1-7 to exactly the
      digit's glyph, or to nothing when n is not a digit. */
  lemma ShownBits(dp: bool, n: uint8)
    ensures Shown(dp, n) & 1 == if dp then 1 else 0
    ensures Shown(dp, n) & 0xFE == if n <= 9 then GlyphMask(n) else 0
  {
    GlyphsLeaveDpAlone();
  }

  /** No glyph lights the decimal point. */
  lemma GlyphsLeaveDpAlone()
    ensures forall d: uint8 | d <= 9 :: GlyphMask(d) & 1 == 0 && DP !in Lit(GlyphMask(d))
  {
  }

  /** The ten glyphs are pairwise distinct and none of them is blank. */
  lemma GlyphsDistinct()
    ensures forall i: uint8, j: uint8 | i <= 9 && j <= 9 && i != j :: GlyphMask(i) != GlyphMask(j)
    ensures forall d: uint8 | d <= 9 :: GlyphMask(d) != 0
  {
  }

  /** The segments each glyph lights, digit by digit, and the mask values
      they make on the latch. */
  lemma GlyphSegments()
    ensures Lit(GlyphMask(0)) == {A, B, C, D, E, F} && GlyphMask(0) == 0x7E
    ensures Lit(GlyphMask(1)) == {B, C} && GlyphMask(1) == 0x12
    ensures Lit(GlyphMask(2)) == {A, B, D, E, G} && GlyphMask(2) == 0xBC
    ensures Lit(GlyphMask(3)) == {A, B, C, D, G} && GlyphMask(3) == 0xB6
    ensures Lit(GlyphMask(4)) == {B, C, F, G} && GlyphMask(4) == 0xD2
    ensures Lit(GlyphMask(5)) == {A, C, D, F, G} && GlyphMask(5) == 0xE6
    ensures Lit(GlyphMask(6)) == {C, D, E, F, G} && GlyphMask(6) == 0xCE
    ensures Lit(GlyphMask(7)) == {A, B, C} && GlyphMask(7) == 0x32
    ensures Lit(GlyphMask(8)) == {A, B, C, D, E, F, G} && GlyphMask(8) == 0xFE
    ensures Lit(GlyphMask(9)) == {A, B, C, F, G} && GlyphMask(9) == 0xF2
  {
  }

  /** 8 lights every segment but the decimal point, 1 lights only B and C
      (a corollary of `GlyphSegments`, kept as the two extreme glyphs). */
  lemma EightAndOne()
    ensures Lit(GlyphMask(8)) == {A, B, C, D, E, F, G}
    ensures Lit(GlyphMask(1)) == {B, C}
  {
  }

  /** The tail-less glyphs: 6 has no top bar A and 9 has no bottom bar D
      (a corollary of `GlyphSegments`, kept as the table's quirk). */
  lemma TaillessSixAndNine()
    ensures A !in Lit(GlyphMask(6)) && Lit(GlyphMask(6)) == {C, D, E, F, G}
    ensures D !in Lit(GlyphMask(9)) && Lit(GlyphMask(9)) == {A, B, C, F, G}
  {
  }

  /** What a viewer reads off a digit position: the digit whose glyph the
      segments show, or None for a blank or unknown pattern. */
  function ReadDigit(latb: bv8): (r: Option<uint8>)
    ensures r.Some? ==> r.value <= 9 && GlyphMask(r.value) == latb & 0xFE
  {
    FindGlyph(latb & 0xFE, 0)
  }

  function FindGlyph(m: bv8, d: uint8): (r: Option<uint8>)
    requires d <= 10
    ensures r.Some? ==> d <= r.value <= 9 && GlyphMask(r.value) == m
    decreases 10 - d
  {
    if d == 10 then None
    else if GlyphMask(d) == m then Some(d)
    else FindGlyph(m, d + 1)
  }

  lemma {:induction false} FindGlyphOfMask(k: uint8, d: uint8)
    requires d <= k <= 9
    ensures FindGlyph(GlyphMask(k), d) == Some(k)
    decreases k - d
  {
    if d < k {
      GlyphsDistinct();
      FindGlyphOfMask(k, d + 1);
    }
  }

  lemma {:induction false} FindGlyphOfBlank(d: uint8)
    requires d <= 10
    ensures FindGlyph(0, d) == None
    decreases 10 - d
  {
    if d < 10 {
      GlyphsDistinct();
      FindGlyphOfBlank(d + 1);
    }
  }

  /** Reading back a latch value that shows n gives n for a digit and a
      blank for any other value, whatever the decimal point holds. */
  lemma ReadShown(dp: bool, n: uint8)
    ensures ReadDigit(Shown(dp, n)) == if n <= 9 then Some(n) else None
  {
    ShownBits(dp, n);
    if n <= 9 {
      FindGlyphOfMask(n, 0);
    } else {
      FindGlyphOfBlank(0);
    }
  }

  /** Reading back what `seg_numbers(n)` wrote gives n for a digit and a
      blank for any other value. */
  lemma ReadSegmentLatch(latb: bv8, n: uint8)
    ensures ReadDigit(SegmentLatch(latb, n)) == if n <= 9 then Some(n) else None
  {
    ReadShown(latb & 1 == 1, n);
  }
}
