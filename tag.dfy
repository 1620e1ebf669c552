/**
 * Column tags of a table schema: the reserved tag constants and the
 * automatic allocation of a fresh tag for a new column.
 *
 * The allocator first grows a range [0, maxTagVal) until it is at least
 * twice as large as the number of existing columns, detecting 64-bit
 * overflow of the growth step, and then draws random tags from that range
 * until one is found that no existing column uses.  The random source is an
 * explicit sequence of draws.
 */
module Tag {
  import opened Wrappers

  /** Go's uint64. */
  newtype uint64 = x: int | 0 <= x < 0x1_0000_0000_0000_0000

  const TwoTo64: int := 0x1_0000_0000_0000_0000
  const TwoTo63: int := 0x8000_0000_0000_0000

  /** Start of the range of tags users may not use in their schemas (1 << 50). */
  const ReservedTagMin: uint64 := 0x4_0000_0000_0000

  /** The largest uint64, used as "no tag". */
  const InvalidTag: uint64 := 0xFFFF_FFFF_FFFF_FFFF

  const DocNameTag: uint64 := ReservedTagMin
  const DocTextTag: uint64 := ReservedTagMin + 1

  /** The range the allocator starts from, 128 * 128. */
  const InitialTagRange: uint64 := 128 * 128

  /** The value the range is clamped to when growing it would overflow. */
  const ClampedTagRange: uint64 := ReservedTagMin - 1

  lemma ReservedTagsDistinct()
    ensures DocNameTag == ReservedTagMin && DocTextTag as int == ReservedTagMin as int + 1
    ensures DocNameTag != DocTextTag && DocNameTag != InvalidTag && DocTextTag != InvalidTag
    ensures InvalidTag as int == TwoTo64 - 1
  {
  }

  /** uint64 multiplication, wrapping modulo 2^64 as Go does. */
  function MulWrap(a: uint64, b: uint64): (product: uint64)
  {
    ((a as int * b as int) % TwoTo64) as uint64
  }

  /** The outcome of the range-growth loop. */
  datatype Growth = Range(maxTagVal: uint64) | TooManyColumns

  /** How the growth measure orders range values: every step either grows the
      range or jumps to the clamped value, whose measure is smallest. */
  function GrowthMeasure(v: uint64): (measure: nat)
  {
    if v == ClampedTagRange then 0 else TwoTo64 - v as int + 1
  }

  /**
   * The growth loop as a function: starting from v, while v/2 < n, panic
   * when v is already clamped, clamp when v*128 wraps below v, and
   * multiply by 128 otherwise.
   */
  function GrowRange(v: uint64, n: nat): (g: Growth)
    requires v in ReachableRanges
    decreases GrowthMeasure(v)
  {
    if n <= (v / 2) as int then Range(v)
    else if v == ClampedTagRange then TooManyColumns
    else if MulWrap(v, 128) < v then GrowRange(ClampedTagRange, n)
    else GrowRange(MulWrap(v, 128), n)
  }

  /** The range the allocator uses for a schema with n columns. */
  function TagRange(n: nat): (g: Growth)
  {
    GrowRange(InitialTagRange, n)
  }

  /** On exit from the growth loop the range is at least twice the column count. */
  lemma {:induction false} GrowRangeCovers(v: uint64, n: nat)
    requires v in ReachableRanges
    ensures GrowRange(v, n).Range? ==> 0 < GrowRange(v, n).maxTagVal && n <= (GrowRange(v, n).maxTagVal / 2) as int
    decreases GrowthMeasure(v)
  {
    if n <= (v / 2) as int {
    } else if v == ClampedTagRange {
    } else if MulWrap(v, 128) < v {
      GrowRangeCovers(ClampedTagRange, n);
    } else {
      GrowRangeCovers(MulWrap(v, 128), n);
    }
  }

  /**
   * The growth loop, evaluated from the initial range: the range is the
   * first of 2^14, 2^21, ..., 2^63 whose half covers n; beyond 2^62 columns
   * the step from 2^63 overflows, the range is clamped to ReservedTagMin - 1,
   * and the next test panics.
   */
  lemma TagRangeValues(n: nat)
    ensures TagRange(n) ==
      if n <= 0x2000 then Range(0x4000)
      else if n <= 0x10_0000 then Range(0x20_0000)
      else if n <= 0x800_0000 then Range(0x1000_0000)
      else if n <= 0x4_0000_0000 then Range(0x8_0000_0000)
      else if n <= 0x200_0000_0000 then Range(0x400_0000_0000)
      else if n <= 0x1_0000_0000_0000 then Range(0x2_0000_0000_0000)
      else if n <= 0x80_0000_0000_0000 then Range(0x100_0000_0000_0000)
      else if n <= 0x4000_0000_0000_0000 then Range(0x8000_0000_0000_0000)
      else TooManyColumns
  {
    assert MulWrap(0x4000, 128) == 0x20_0000;
    assert MulWrap(0x20_0000, 128) == 0x1000_0000;
    assert MulWrap(0x1000_0000, 128) == 0x8_0000_0000;
    assert MulWrap(0x8_0000_0000, 128) == 0x400_0000_0000;
    assert MulWrap(0x400_0000_0000, 128) == 0x2_0000_0000_0000;
    assert MulWrap(0x2_0000_0000_0000, 128) == 0x100_0000_0000_0000;
    assert MulWrap(0x100_0000_0000_0000, 128) == 0x8000_0000_0000_0000;
    assert MulWrap(0x8000_0000_0000_0000, 128) == 0;
    var g := GrowRange(ClampedTagRange, n);
    assert n > 0x4000_0000_0000_0000 ==> g == TooManyColumns;
    var g7 := GrowRange(0x8000_0000_0000_0000, n);
    assert n > 0x4000_0000_0000_0000 ==> g7 == g;
    var g6 := GrowRange(0x100_0000_0000_0000, n);
    assert n > 0x80_0000_0000_0000 ==> g6 == g7;
    var g5 := GrowRange(0x2_0000_0000_0000, n);
    assert n > 0x1_0000_0000_0000 ==> g5 == g6;
    var g4 := GrowRange(0x400_0000_0000, n);
    assert n > 0x200_0000_0000 ==> g4 == g5;
    var g3 := GrowRange(0x8_0000_0000, n);
    assert n > 0x4_0000_0000 ==> g3 == g4;
    var g2 := GrowRange(0x1000_0000, n);
    assert n > 0x800_0000 ==> g2 == g3;
    var g1 := GrowRange(0x20_0000, n);
    assert n > 0x10_0000 ==> g1 == g2;
    assert n > 0x2000 ==> TagRange(n) == g1;
  }

  /** The growth loop panics exactly when there are more than 2^62 columns. */
  lemma TagRangePanicsIff(n: nat)
    ensures TagRange(n) == TooManyColumns <==> n > 0x4000_0000_0000_0000
  {
    TagRangeValues(n);
  }

  /** The ranges the growth loop can hold: 2^14 * 128^k for k = 0..7, and the
      clamped value. */
  const ReachableRanges: set<uint64> := {
    0x4000, 0x20_0000, 0x1000_0000, 0x8_0000_0000, 0x400_0000_0000,
    0x2_0000_0000_0000, 0x100_0000_0000_0000, 0x8000_0000_0000_0000, ClampedTagRange
  }

  /**
   * The overflow test `maxTagVal*128 < maxTagVal` is exact on every range the
   * loop can reach: it holds precisely when the true product leaves uint64.
   */
  lemma OverflowCheckExactOnReachableRanges(v: uint64)
    requires v in ReachableRanges
    ensures (MulWrap(v, 128) < v) <==> v as int * 128 >= TwoTo64
  {
    if v == 0x8000_0000_0000_0000 {
      assert MulWrap(v, 128) == 0;
    }
  }

  /** One step of the growth loop from a reachable range stays reachable
      and lowers the growth measure. */
  lemma GrowStep(v: uint64)
    requires v in ReachableRanges && v != ClampedTagRange
    ensures MulWrap(v, 128) < v ==> v == 0x8000_0000_0000_0000
    ensures MulWrap(v, 128) >= v ==>
      MulWrap(v, 128) in ReachableRanges && GrowthMeasure(MulWrap(v, 128)) < GrowthMeasure(v)
  {
  }

  /** Go's conversion of a uint64 to int64: the same value modulo 2^64, in
      [-2^63, 2^63). */
  function ToInt64(v: uint64): (x: int)
    ensures -TwoTo63 <= x < TwoTo63 && (v as int - x) % TwoTo64 == 0
    ensures x > 0 <==> 0 < v as int < TwoTo63
  {
    if v as int < TwoTo63 then v as int else v as int - TwoTo64
  }

  /** Whether the range the loop ends with can be passed to Int63n after the
      conversion to int64, i.e. it stays below 2^63. */
  predicate RangeFitsInt63(n: nat)
  {
    TagRange(n).Range? ==> (TagRange(n).maxTagVal as int) < TwoTo63
  }

  /** The int64 conversion of the range is positive unless there are between
      2^55 and 2^62 columns, where the range is exactly 2^63. */
  lemma RangeFitsInt63Iff(n: nat)
    ensures RangeFitsInt63(n) <==> n <= 0x80_0000_0000_0000 || n > 0x4000_0000_0000_0000
  {
    TagRangeValues(n);
  }

  /** Draw i of the random source, brought into [0, maxTagVal) as Int63n does. */
  function Draw(draws: seq<nat>, i: nat, maxTagVal: uint64): (t: uint64)
    requires i < |draws| && 0 < maxTagVal
    ensures t < maxTagVal
  {
    (draws[i] % maxTagVal as int) as uint64
  }

  /** The rejection-sampling loop: the first draw from index i on that no
      column uses, or None when the draws run out first. */
  function FirstFreeDraw(cols: set<uint64>, draws: seq<nat>, i: nat, maxTagVal: uint64): (r: Option<uint64>)
    requires i <= |draws| && 0 < maxTagVal
    decreases |draws| - i
  {
    if i == |draws| then None
    else if Draw(draws, i, maxTagVal) !in cols then Some(Draw(draws, i, maxTagVal))
    else FirstFreeDraw(cols, draws, i + 1, maxTagVal)
  }

  /** The outcome of AutoGenerateTag: a tag, the panic of the growth loop,
      the panic of Int63n on a bound that is not positive after the int64
      conversion, or a draw sequence that never produced a free tag (the
      source would keep drawing). */
  datatype TagResult = Generated(tag: uint64) | TooManyColumnsPanic | Int63nPanic | DrawsExhausted

  /** AutoGenerateTag as a function of the column tags and the draws. */
  function GenerateTag(cols: set<uint64>, draws: seq<nat>): (r: TagResult)
  {
    match TagRange(|cols|)
    case TooManyColumns => TooManyColumnsPanic
    case Range(m) =>
      if ToInt64(m) <= 0 then Int63nPanic
      else match FirstFreeDraw(cols, draws, 0, m)
        case Some(t) => Generated(t)
        case None => DrawsExhausted
  }

  /**
   * The first call of Int63n panics, whatever the draws, exactly when there
   * are between 2^55 and 2^62 columns: the range is then 2^63, whose int64
   * conversion is negative.
   */
  lemma Int63nPanicsIff(cols: set<uint64>, draws: seq<nat>)
    ensures GenerateTag(cols, draws) == Int63nPanic <==>
      0x80_0000_0000_0000 < |cols| <= 0x4000_0000_0000_0000
  {
    TagRangeValues(|cols|);
  }

  lemma {:induction false} FirstFreeDrawSound(cols: set<uint64>, draws: seq<nat>, i: nat, m: uint64)
    requires i <= |draws| && 0 < m
    ensures FirstFreeDraw(cols, draws, i, m).Some? ==>
      FirstFreeDraw(cols, draws, i, m).value < m && FirstFreeDraw(cols, draws, i, m).value !in cols
    ensures FirstFreeDraw(cols, draws, i, m).None? <==>
      forall j :: i <= j < |draws| ==> Draw(draws, j, m) in cols
    decreases |draws| - i
  {
    if i < |draws| && Draw(draws, i, m) in cols {
      FirstFreeDrawSound(cols, draws, i + 1, m);
    }
  }

  /**
   * A generated tag is below the range, which itself covers twice the column
   * count, and is not the tag of any existing column.
   */
  lemma GeneratedTagIsFree(cols: set<uint64>, draws: seq<nat>)
    ensures GenerateTag(cols, draws).Generated? ==>
      TagRange(|cols|).Range? &&
      GenerateTag(cols, draws).tag < TagRange(|cols|).maxTagVal &&
      |cols| <= (TagRange(|cols|).maxTagVal / 2) as int &&
      GenerateTag(cols, draws).tag !in cols
  {
    GrowRangeCovers(InitialTagRange, |cols|);
    if TagRange(|cols|).Range? && TagRange(|cols|).maxTagVal > 0 {
      FirstFreeDrawSound(cols, draws, 0, TagRange(|cols|).maxTagVal);
    }
  }

  /** The tags 0 .. m-1. */
  function Below(m: nat): (s: set<uint64>)
    requires m <= TwoTo64
    ensures forall t: uint64 :: t in s <==> (t as int) < m
    ensures |s| == m
  {
    if m == 0 then {} else Below(m - 1) + {(m - 1) as uint64}
  }

  /** Fewer used tags than values in [0, m): some value is free. */
  lemma FreeTagExists(cols: set<uint64>, m: uint64) returns (t: uint64)
    requires |cols| < m as int
    ensures t < m && t !in cols
  {
    var range := Below(m as nat);
    if range <= cols {
      SubsetSize(range, cols);
      assert false;
    }
    t :| t in range && t !in cols;
  }

  lemma SubsetSize(a: set<uint64>, b: set<uint64>)
    requires a <= b
    ensures |a| <= |b|
  {
    assert b == a + (b - a);
  }

  lemma ModOfSmaller(a: nat, b: nat)
    requires a < b
    ensures a % b == a
  {
  }

  /**
   * The rejection loop can always succeed: whenever neither the growth loop
   * nor Int63n panics, which is exactly up to 2^55 columns, some single draw
   * yields a fresh tag.
   */
  lemma SomeDrawSucceeds(cols: set<uint64>) returns (draws: seq<nat>)
    requires |cols| <= 0x80_0000_0000_0000
    ensures GenerateTag(cols, draws).Generated?
  {
    TagRangeValues(|cols|);
    GrowRangeCovers(InitialTagRange, |cols|);
    var m := TagRange(|cols|).maxTagVal;
    var t := FreeTagExists(cols, m);
    draws := [t as nat];
    ModOfSmaller(t as nat, m as nat);
    assert Draw(draws, 0, m) == t;
    assert FirstFreeDraw(cols, draws, 0, m) == Some(t);
  }

  /**
   * With at most 2^48 columns every generated tag lies below
   * ReservedTagMin, so it is never DocNameTag or DocTextTag.
   */
  lemma GeneratedTagNotReserved(cols: set<uint64>, draws: seq<nat>)
    requires |cols| <= 0x1_0000_0000_0000
    ensures GenerateTag(cols, draws).Generated? ==>
      GenerateTag(cols, draws).tag < ReservedTagMin
  {
    TagRangeValues(|cols|);
    GeneratedTagIsFree(cols, draws);
  }

  /**
   * Above 2^48 columns the range is 2^56, which passes ReservedTagMin: a
   * draw of DocNameTag is returned when no column uses it.
   */
  lemma ReservedTagReachable(cols: set<uint64>)
    requires 0x1_0000_0000_0000 < |cols| <= 0x80_0000_0000_0000
    requires DocNameTag !in cols
    ensures GenerateTag(cols, [DocNameTag as nat]) == Generated(DocNameTag)
  {
    TagRangeValues(|cols|);
    assert Draw([DocNameTag as nat], 0, 0x100_0000_0000_0000) == DocNameTag;
  }

  /**
   * AutoGenerateTag(sch): the growth loop, then the rejection loop over the
   * draws.  Int63n panics when the int64 conversion of the range is not
   * positive.
   */
  method AutoGenerateTag(cols: set<uint64>, draws: seq<nat>) returns (r: TagResult)
    requires |cols| < TwoTo63
    ensures r == GenerateTag(cols, draws)
    ensures r.Generated? ==> r.tag !in cols && TagRange(|cols|).Range? && r.tag < TagRange(|cols|).maxTagVal
    ensures r == TooManyColumnsPanic <==> |cols| > 0x4000_0000_0000_0000
    ensures r == Int63nPanic <==> 0x80_0000_0000_0000 < |cols| <= 0x4000_0000_0000_0000
  {
    TagRangePanicsIff(|cols|);
    Int63nPanicsIff(cols, draws);
    var n := |cols| as uint64;
    var maxTagVal: uint64 := InitialTagRange;
    while maxTagVal / 2 < n
      invariant maxTagVal in ReachableRanges
      invariant GrowRange(maxTagVal, |cols|) == TagRange(|cols|)
      decreases GrowthMeasure(maxTagVal)
    {
      if maxTagVal == ClampedTagRange {
        return TooManyColumnsPanic;
      }
      GrowStep(maxTagVal);
      if MulWrap(maxTagVal, 128) < maxTagVal {
        maxTagVal := ClampedTagRange;
      } else {
        maxTagVal := MulWrap(maxTagVal, 128);
      }
    }
    assert TagRange(|cols|) == Range(maxTagVal);
    if ToInt64(maxTagVal) <= 0 {
      return Int63nPanic;
    }
    var i := 0;
    while i < |draws|
      invariant 0 <= i <= |draws|
      invariant FirstFreeDraw(cols, draws, i, maxTagVal) == FirstFreeDraw(cols, draws, 0, maxTagVal)
    {
      var randTag := Draw(draws, i, maxTagVal);
      if randTag !in cols {
        return Generated(randTag);
      }
      i := i + 1;
    }
    return DrawsExhausted;
  }
}
