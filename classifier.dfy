/** The perception step: count the white pixels of a camera frame in three
    column sections and turn the counts into a steering verdict. The same code
    is in the camera thread of ttycmd.c and in the main loop of prog/webcam.c. */
module Classifier {
  import opened Protocol
  import CString

  const QualifyThreshold: nat := 83
  const VictoryThreshold: nat := 95
  const DirectionThreshold: nat := 59

  /** The shape of a frame: rows, columns, bytes per row (`widthStep`) and
      bytes per pixel (`nChannels`). */
  datatype Geometry = Geometry(height: nat, width: nat, step: nat, channels: nat)

  /** A buffer of `len` bytes holds every byte the counting loop reads: offsets
      +0, +1 and +2 of `i * step + j * channels` for every pixel (i, j). */
  predicate Fits(g: Geometry, len: nat) {
    g.height == 0 || g.width == 0 || (g.height - 1) * g.step + (g.width - 1) * g.channels + 2 < len
  }

  lemma MulMono(a: nat, b: nat, c: nat)
    requires a <= b
    ensures a * c <= b * c
  {
  }

  /** `i * step + j * channels`: where pixel (i, j) starts. */
  function Offset(g: Geometry, i: nat, j: nat): nat {
    i * g.step + j * g.channels
  }

  lemma PixelInBounds(g: Geometry, len: nat, i: nat, j: nat)
    requires Fits(g, len) && i < g.height && j < g.width
    ensures Offset(g, i, j) + 2 < len
  {
    MulMono(i, g.height - 1, g.step);
    MulMono(j, g.width - 1, g.channels);
  }

  /** A pixel qualifies when its first three bytes all reach the threshold. */
  predicate IsWhite(data: seq<byte>, g: Geometry, i: nat, j: nat)
    requires Fits(g, |data|) && i < g.height && j < g.width
  {
    PixelInBounds(g, |data|, i, j);
    var o := Offset(g, i, j);
    data[o + 2] >= QualifyThreshold && data[o] >= QualifyThreshold && data[o + 1] >= QualifyThreshold
  }

  /** Left, middle and right column sections (`total_section1..3`). */
  datatype Section = Section1 | Section2 | Section3

  /** The section column j is counted in: the right one from column
      2 * (width / 3) on, remainder columns included. */
  function SectionOf(width: nat, j: nat): Section {
    var segment := width / 3;
    if j >= segment * 2 then Section3 else if j >= segment then Section2 else Section1
  }

  /** White pixels of row i among its first n columns. */
  function RowWhite(data: seq<byte>, g: Geometry, i: nat, n: nat): nat
    requires Fits(g, |data|) && i < g.height && n <= g.width
  {
    if n == 0 then 0 else RowWhite(data, g, i, n - 1) + (if IsWhite(data, g, i, n - 1) then 1 else 0)
  }

  /** White pixels of row i among its first n columns that lie in section s. */
  function RowHits(data: seq<byte>, g: Geometry, i: nat, n: nat, s: Section): nat
    requires Fits(g, |data|) && i < g.height && n <= g.width
  {
    if n == 0 then 0
    else RowHits(data, g, i, n - 1, s) + (if IsWhite(data, g, i, n - 1) && SectionOf(g.width, n - 1) == s then 1 else 0)
  }

  /** White pixels in the first m rows (`count_red` after m rows). */
  function White(data: seq<byte>, g: Geometry, m: nat): nat
    requires Fits(g, |data|) && m <= g.height
  {
    if m == 0 then 0 else White(data, g, m - 1) + RowWhite(data, g, m - 1, g.width)
  }

  /** White pixels of section s in the first m rows (`total_section*` after m rows). */
  function Hits(data: seq<byte>, g: Geometry, m: nat, s: Section): nat
    requires Fits(g, |data|) && m <= g.height
  {
    if m == 0 then 0 else Hits(data, g, m - 1, s) + RowHits(data, g, m - 1, g.width, s)
  }

  /** The counting loops of one frame. The counters start from zero every frame. */
  method CountWhite(data: array<byte>, g: Geometry) returns (countRed: nat, total1: nat, total2: nat, total3: nat)
    requires Fits(g, data.Length)
    ensures countRed == White(data[..], g, g.height)
    ensures total1 == Hits(data[..], g, g.height, Section1)
    ensures total2 == Hits(data[..], g, g.height, Section2)
    ensures total3 == Hits(data[..], g, g.height, Section3)
  {
    var segment := g.width / 3;
    countRed, total1, total2, total3 := 0, 0, 0, 0;
    var i := 0;
    while i < g.height
      invariant 0 <= i <= g.height
      invariant countRed == White(data[..], g, i)
      invariant total1 == Hits(data[..], g, i, Section1)
      invariant total2 == Hits(data[..], g, i, Section2)
      invariant total3 == Hits(data[..], g, i, Section3)
    {
      var j := 0;
      while j < g.width
        invariant 0 <= j <= g.width
        invariant countRed == White(data[..], g, i) + RowWhite(data[..], g, i, j)
        invariant total1 == Hits(data[..], g, i, Section1) + RowHits(data[..], g, i, j, Section1)
        invariant total2 == Hits(data[..], g, i, Section2) + RowHits(data[..], g, i, j, Section2)
        invariant total3 == Hits(data[..], g, i, Section3) + RowHits(data[..], g, i, j, Section3)
      {
        PixelInBounds(g, data.Length, i, j);
        var o := Offset(g, i, j);
        var white := data[o + 2] >= QualifyThreshold && data[o] >= QualifyThreshold && data[o + 1] >= QualifyThreshold;
        assert white == IsWhite(data[..], g, i, j);
        if white {
          countRed := countRed + 1;
          if j >= segment * 2 {
            total3 := total3 + 1;
          } else if j >= segment {
            total2 := total2 + 1;
          } else {
            total1 := total1 + 1;
          }
        }
        j := j + 1;
      }
      i := i + 1;
    }
  }

  lemma {:induction false} RowPartition(data: seq<byte>, g: Geometry, i: nat, n: nat)
    requires Fits(g, |data|) && i < g.height && n <= g.width
    ensures RowHits(data, g, i, n, Section1) + RowHits(data, g, i, n, Section2) + RowHits(data, g, i, n, Section3)
            == RowWhite(data, g, i, n)
  {
    if n > 0 {
      RowPartition(data, g, i, n - 1);
    }
  }

  /** Every white pixel is counted in exactly one section:
      total_section1 + total_section2 + total_section3 == count_red. */
  lemma {:induction false} SectionsPartitionWhite(data: seq<byte>, g: Geometry, m: nat)
    requires Fits(g, |data|) && m <= g.height
    ensures Hits(data, g, m, Section1) + Hits(data, g, m, Section2) + Hits(data, g, m, Section3) == White(data, g, m)
  {
    if m > 0 {
      SectionsPartitionWhite(data, g, m - 1);
      RowPartition(data, g, m - 1, g.width);
    }
  }

  /** How many columns section s spans: width / 3 for the left and middle
      sections, the rest (up to two columns more) for the right one. */
  function SectionWidth(width: nat, s: Section): nat {
    match s
    case Section1 => width / 3
    case Section2 => width / 3
    case Section3 => width - 2 * (width / 3)
  }

  /** How many of the first n columns lie in section s. */
  function ColumnsBelow(width: nat, n: nat, s: Section): nat {
    var segment := width / 3;
    match s
    case Section1 => if n < segment then n else segment
    case Section2 => if n < segment then 0 else if n < 2 * segment then n - segment else segment
    case Section3 => if n < 2 * segment then 0 else n - 2 * segment
  }

  lemma {:induction false} RowHitsBound(data: seq<byte>, g: Geometry, i: nat, n: nat, s: Section)
    requires Fits(g, |data|) && i < g.height && n <= g.width
    ensures RowHits(data, g, i, n, s) <= ColumnsBelow(g.width, n, s)
  {
    if n > 0 {
      RowHitsBound(data, g, i, n - 1, s);
    }
  }

  /** A section cannot hold more white pixels than it has pixels; only the left
      and middle sections are bounded by the shared denominator (width / 3) * height. */
  lemma {:induction false} HitsBound(data: seq<byte>, g: Geometry, m: nat, s: Section)
    requires Fits(g, |data|) && m <= g.height
    ensures Hits(data, g, m, s) <= m * SectionWidth(g.width, s)
  {
    if m > 0 {
      HitsBound(data, g, m - 1, s);
      RowHitsBound(data, g, m - 1, g.width, s);
      assert ColumnsBelow(g.width, g.width, s) == SectionWidth(g.width, s);
      assert (m - 1) * SectionWidth(g.width, s) + SectionWidth(g.width, s) == m * SectionWidth(g.width, s);
    }
  }

  /** The steering verdict of one frame (the strings copied into `direction`). */
  datatype Verdict = Victory | Left | Right | Forward | Default

  /** `100 * (double) count / capacity` computed exactly. */
  function Percent(count: nat, capacity: nat): real
    requires capacity > 0
  {
    100.0 * count as real / capacity as real
  }

  /** The verdict chain as the source writes it, over the three percentages. */
  function ClassifyPercent(p1: real, p2: real, p3: real): Verdict {
    if p1 >= VictoryThreshold as real then Victory
    else if p3 > p2 && p3 > p1 && p3 >= DirectionThreshold as real then Left
    else if p1 > p2 && p1 > p3 && p1 >= DirectionThreshold as real then Right
    else if p2 > p1 && p2 > p3 && p2 >= DirectionThreshold as real then Forward
    else Default
  }

  lemma PercentAtLeast(count: nat, capacity: nat, t: nat)
    requires capacity > 0
    ensures Percent(count, capacity) >= t as real <==> 100 * count >= t * capacity
  {
    var c := capacity as real;
    var p := Percent(count, capacity);
    assert p * c == 100.0 * count as real;
    if p >= t as real {
      assert p * c >= t as real * c;
    } else {
      assert p * c < t as real * c;
    }
  }

  lemma PercentGreater(a: nat, b: nat, capacity: nat)
    requires capacity > 0
    ensures Percent(a, capacity) > Percent(b, capacity) <==> a > b
  {
    var c := capacity as real;
    assert Percent(a, capacity) * c == 100.0 * a as real;
    assert Percent(b, capacity) * c == 100.0 * b as real;
    if Percent(a, capacity) > Percent(b, capacity) {
      assert Percent(a, capacity) * c > Percent(b, capacity) * c;
    } else {
      assert Percent(a, capacity) * c <= Percent(b, capacity) * c;
    }
  }

  /** The verdict chain on the counters, by cross-multiplication: a threshold
      test `pct >= T` becomes `100 * count >= T * capacity`, and comparing two
      percentages over the shared capacity compares the counters. It agrees
      with the chain over exact percentages on every input. */
  function Classify(t1: nat, t2: nat, t3: nat, capacity: nat): (v: Verdict)
    requires capacity > 0
    ensures v == ClassifyPercent(Percent(t1, capacity), Percent(t2, capacity), Percent(t3, capacity))
  {
    PercentAtLeast(t1, capacity, VictoryThreshold);
    PercentAtLeast(t1, capacity, DirectionThreshold);
    PercentAtLeast(t2, capacity, DirectionThreshold);
    PercentAtLeast(t3, capacity, DirectionThreshold);
    PercentGreater(t1, t2, capacity);
    PercentGreater(t1, t3, capacity);
    PercentGreater(t2, t1, capacity);
    PercentGreater(t2, t3, capacity);
    PercentGreater(t3, t1, capacity);
    PercentGreater(t3, t2, capacity);
    if 100 * t1 >= VictoryThreshold * capacity then Victory
    else if t3 > t2 && t3 > t1 && 100 * t3 >= DirectionThreshold * capacity then Left
    else if t1 > t2 && t1 > t3 && 100 * t1 >= DirectionThreshold * capacity then Right
    else if t2 > t1 && t2 > t3 && 100 * t2 >= DirectionThreshold * capacity then Forward
    else Default
  }

  /** Section a is strictly above both others and reaches the direction threshold. */
  predicate ClearWinner(a: nat, b: nat, c: nat, capacity: nat) {
    a > b && a > c && 100 * a >= DirectionThreshold * capacity
  }

  /** The verdict a clear winner section stands for: the right section gives
      "[left]", the left one "[right]", the middle one "[forward]". */
  function SteeringVerdict(s: Section): Verdict {
    match s
    case Section3 => Left
    case Section1 => Right
    case Section2 => Forward
  }

  /** Only the victory test takes precedence: when no victory is seen, a section
      that is a clear winner decides the verdict whatever the order of the
      three steering rules, and without one the verdict is "[default]". */
  lemma {:induction false} ClearWinnerDecides(t1: nat, t2: nat, t3: nat, capacity: nat)
    requires capacity > 0 && 100 * t1 < VictoryThreshold * capacity
    ensures ClearWinner(t1, t2, t3, capacity) ==> Classify(t1, t2, t3, capacity) == SteeringVerdict(Section1)
    ensures ClearWinner(t2, t1, t3, capacity) ==> Classify(t1, t2, t3, capacity) == SteeringVerdict(Section2)
    ensures ClearWinner(t3, t1, t2, capacity) ==> Classify(t1, t2, t3, capacity) == SteeringVerdict(Section3)
    ensures Classify(t1, t2, t3, capacity) == Default <==>
      !ClearWinner(t1, t2, t3, capacity) && !ClearWinner(t2, t1, t3, capacity) && !ClearWinner(t3, t1, t2, capacity)
  {
  }

  /** A tie for the top count never steers: with no victory the verdict is "[default]". */
  lemma TopTieIsDefault(t1: nat, t2: nat, t3: nat, capacity: nat)
    requires capacity > 0 && 100 * t1 < VictoryThreshold * capacity
    requires (t1 == t2 && t1 >= t3) || (t1 == t3 && t1 >= t2) || (t2 == t3 && t2 >= t1)
    ensures Classify(t1, t2, t3, capacity) == Default
  {
    ClearWinnerDecides(t1, t2, t3, capacity);
  }

  /** The shared denominator `screen_segment * height` of the three percentages. */
  function Capacity(g: Geometry): nat {
    (g.width / 3) * g.height
  }

  /** The verdict for a frame. When the capacity is zero (fewer than three
      columns, or no rows) the source divides by zero in floating point: the left
      and middle counts are zero, so their percentages are NaN, every rule
      compares one of them, every comparison with NaN is false, and the chain
      falls through to "[default]". */
  function FrameVerdict(data: seq<byte>, g: Geometry): (v: Verdict)
    requires Fits(g, |data|)
    ensures Capacity(g) == 0 ==> v == Default
    ensures Capacity(g) > 0 ==> v == ClassifyPercent(Percent(Hits(data, g, g.height, Section1), Capacity(g)),
                                                     Percent(Hits(data, g, g.height, Section2), Capacity(g)),
                                                     Percent(Hits(data, g, g.height, Section3), Capacity(g)))
  {
    var capacity := Capacity(g);
    if capacity == 0 then Default
    else Classify(Hits(data, g, g.height, Section1), Hits(data, g, g.height, Section2),
                  Hits(data, g, g.height, Section3), capacity)
  }

  /** With a zero capacity the left and middle sections are empty: the counts
      behind the NaN percentages of FrameVerdict's degenerate case. */
  lemma NoCapacityEmptySections(data: seq<byte>, g: Geometry)
    requires Fits(g, |data|) && Capacity(g) == 0
    ensures Hits(data, g, g.height, Section1) == 0 && Hits(data, g, g.height, Section2) == 0
  {
    HitsBound(data, g, g.height, Section1);
    HitsBound(data, g, g.height, Section2);
  }

  /** The value the camera thread of ttycmd.c stores in GLOBAL_WANTED_DIRECTION.
      Both "[left]" and "[right]" store 1, so the value 3 that the decision loop
      tests for "turn right" is never produced. */
  function WantedDirection(v: Verdict): (w: int)
    ensures w != 3
    ensures w == 1 <==> v == Left || v == Right
    ensures w == -1 <==> v == Victory
  {
    match v
    case Victory => -1
    case Left => 1
    case Right => 1
    case Forward => 2
    case Default => -2
  }

  /** The text prog/webcam.c copies into its `char direction[10]`. */
  function WebcamLabel(v: Verdict): (text: string)
    ensures |text| < 10
  {
    match v
    case Victory => "[VICTORY]"
    case Left => "[left]"
    case Right => "[right]"
    case Forward => "[forward]"
    case Default => "[default]"
  }

  /** The text the camera thread of ttycmd.c copies into its `direction`: the
      same as prog/webcam.c's except that victory is written in lower case. */
  function TtyLabel(v: Verdict): (text: string)
    ensures |text| == |WebcamLabel(v)|
    ensures v != Victory ==> text == WebcamLabel(v)
  {
    if v == Victory then "[victory]" else WebcamLabel(v)
  }

  /** Counting and classification of one frame, shared by both programs. */
  method Perceive(data: array<byte>, g: Geometry) returns (v: Verdict)
    requires Fits(g, data.Length)
    ensures v == FrameVerdict(data[..], g)
  {
    var countRed, total1, total2, total3 := CountWhite(data, g);
    var capacity := (g.width / 3) * g.height;
    if capacity == 0 {
      v := Default;
    } else {
      v := Classify(total1, total2, total3, capacity);
    }
  }

  /** One pass of the frame loop of prog/webcam.c: count, classify, and copy the
      verdict's text with its terminator into `direction`. */
  method WebcamFrame(data: array<byte>, g: Geometry, direction: array<char>) returns (v: Verdict)
    requires Fits(g, data.Length) && direction.Length == 10
    modifies direction
    ensures v == FrameVerdict(data[..], g)
    ensures direction[..|WebcamLabel(v)| + 1] == WebcamLabel(v) + ['\0']
    ensures direction[|WebcamLabel(v)| + 1..] == old(direction[|WebcamLabel(v)| + 1..])
  {
    v := Perceive(data, g);
    CString.Strcpy(direction, WebcamLabel(v));
  }
}
