/** Local binary patterns with four samples, the case in which every sample
    point falls on a whole pixel so no interpolation is involved: sample k of
    radius r sits at angle 2*pi*k/4 from the centre, that is right, up, left
    and down in turn, with row indices growing downward. */
module LbpPattern {
  import opened Bits
  import opened LbpMapping
  import opened Geometry

  /** One channel of an image, as rows of pixel values. */
  type Plane = seq<seq<real>>

  predicate Rectangular(img: Plane)
  {
    forall i :: 0 <= i < |img| ==> |img[i]| == |img[0]|
  }

  function Height(img: Plane): nat
  {
    |img|
  }

  function Width(img: Plane): nat
  {
    if img == [] then 0 else |img[0]|
  }

  /** The number of samples on the circle in the integer-position case. */
  const Samples: nat := 4

  /** cos and sin of k quarter turns. */
  function QuarterCos(k: nat): (c: int)
    ensures c == -1 || c == 0 || c == 1
  {
    match k % 4
    case 0 => 1
    case 1 => 0
    case 2 => -1
    case 3 => 0
  }

  function QuarterSin(k: nat): (s: int)
    ensures s == -1 || s == 0 || s == 1
  {
    QuarterCos(k + 3)
  }

  /** Row and column offset of sample k: (-r sin, r cos) of its angle,
      the row offset negated because rows grow downward. */
  function RowOffset(r: nat, k: nat): (d: int)
    ensures -(r as int) <= d <= r
  {
    -(r as int) * QuarterSin(k)
  }

  function ColumnOffset(r: nat, k: nat): (d: int)
    ensures -(r as int) <= d <= r
  {
    r * QuarterCos(k)
  }

  /** Every sample lies on the circle of radius r, and the four samples are
      distinct points when r is positive. */
  lemma SamplesOnCircle(r: nat, k: nat, l: nat)
    requires k < Samples && l < Samples
    ensures RowOffset(r, k) * RowOffset(r, k) + ColumnOffset(r, k) * ColumnOffset(r, k) == r * r
    ensures r > 0 && k != l ==>
              (RowOffset(r, k), ColumnOffset(r, k)) != (RowOffset(r, l), ColumnOffset(r, l))
  {
    var ri: int := r;
    assert (-ri) * (-ri) == ri * ri;
    SampleOffsets(r, k);
    SampleOffsets(r, l);
  }

  lemma SampleOffsets(r: nat, k: nat)
    requires k < Samples
    ensures k == 0 ==> RowOffset(r, k) == 0 && ColumnOffset(r, k) == r
    ensures k == 1 ==> RowOffset(r, k) == -(r as int) && ColumnOffset(r, k) == 0
    ensures k == 2 ==> RowOffset(r, k) == 0 && ColumnOffset(r, k) == -(r as int)
    ensures k == 3 ==> RowOffset(r, k) == r && ColumnOffset(r, k) == 0
  {
    if k == 0 {
      assert QuarterCos(0) == 1 && QuarterSin(0) == 0;
    } else if k == 1 {
      assert QuarterCos(1) == 0 && QuarterSin(1) == 1;
    } else if k == 2 {
      assert QuarterCos(2) == -1 && QuarterSin(2) == 0;
    } else {
      assert QuarterCos(3) == 0 && QuarterSin(3) == -1;
    }
  }

  /** The centre (row, col) has its whole circle of radius r inside the image. */
  predicate Interior(img: Plane, row: int, col: int, r: nat)
  {
    Rectangular(img) && r <= row < Height(img) - r && r <= col < Width(img) - r
  }

  /** The sampled values, in sampling order: right, up, left and down. */
  function Neighbours(img: Plane, row: int, col: int, r: nat): (n: seq<real>)
    requires Interior(img, row, col, r)
    ensures |n| == Samples
  {
    [img[row][col + r], img[row - r][col], img[row][col - r], img[row + r][col]]
  }

  /** Sample k is the pixel at its row and column offset from the centre. */
  lemma NeighboursAtOffsets(img: Plane, row: int, col: int, r: nat)
    requires Interior(img, row, col, r)
    ensures forall k :: 0 <= k < Samples ==>
              Neighbours(img, row, col, r)[k] == img[row + RowOffset(r, k)][col + ColumnOffset(r, k)]
  {
    forall k | 0 <= k < Samples
      ensures Neighbours(img, row, col, r)[k] == img[row + RowOffset(r, k)][col + ColumnOffset(r, k)]
    {
      SampleOffsets(r, k);
    }
  }

  /** The binary pattern: bit k is set iff sample k is at least the centre value. */
  function Pattern(centre: real, n: seq<real>): (x: nat)
    ensures x < Pow2(|n|)
    ensures forall k :: 0 <= k < |n| ==> (ToBits(x, |n|)[k] <==> n[k] >= centre)
  {
    var b := seq(|n|, k requires 0 <= k < |n| => n[k] >= centre);
    ValueBelow(b);
    ToBitsOfValue(b);
    Value(b)
  }

  /** The code of the pixel (row, col) under a mapping. Unmapped, it is the
      raw pattern: bit k set iff sample k reaches the centre value. */
  function LbpCode(img: Plane, row: int, col: int, r: nat, mapping: Mapping): (c: nat)
    requires Interior(img, row, col, r)
    ensures mapping == NoMapping ==>
              c < Pow2(Samples) &&
              forall k :: 0 <= k < Samples ==> (ToBits(c, Samples)[k] <==> Neighbours(img, row, col, r)[k] >= img[row][col])
    ensures mapping == Riu2 ==> c <= Samples + 1
  {
    Code(mapping, Pattern(img[row][col], Neighbours(img, row, col, r)), Samples)
  }

  /** Centres of the unpadded windows of side 2r+1 along one axis: each
      window's last pixel is an anchor and its centre lies r pixels before. */
  function Centres(r: nat, extent: nat, step: int): (c: seq<int>)
    requires step >= 1
    ensures |c| == UnpaddedCount(2 * r + 1, extent, step)
    ensures forall i :: 0 <= i < |c| ==> c[i] == r + i * step && r <= c[i] < extent - r
  {
    var a := Anchors(2 * r, extent, step);
    AnchorsShape(2 * r, extent, step);
    seq(|a|, i requires 0 <= i < |a| => a[i] - r)
  }

  /** The code image of a dense LBP without padding, one code per window,
      taken at the window's centre pixel. */
  function LbpGrid(img: Plane, r: nat, mapping: Mapping, stepVertical: int, stepHorizontal: int): (g: seq<seq<nat>>)
    requires Rectangular(img) && r >= 1 && stepVertical >= 1 && stepHorizontal >= 1
    ensures |g| == UnpaddedCount(2 * r + 1, Height(img), stepVertical)
    ensures forall i :: 0 <= i < |g| ==> |g[i]| == UnpaddedCount(2 * r + 1, Width(img), stepHorizontal)
    ensures forall i, j :: 0 <= i < |g| && 0 <= j < |g[i]| ==>
              var row := Centres(r, Height(img), stepVertical)[i];
              var col := Centres(r, Width(img), stepHorizontal)[j];
              Interior(img, row, col, r) && g[i][j] == LbpCode(img, row, col, r, mapping)
  {
    var rows := Centres(r, Height(img), stepVertical);
    var cols := Centres(r, Width(img), stepHorizontal);
    seq(|rows|, i requires 0 <= i < |rows| =>
      seq(|cols|, j requires 0 <= j < |cols| => LbpCode(img, rows[i], cols[j], r, mapping)))
  }

  /** An image of 2r+1 rows and columns has exactly one unpadded window,
      whatever the steps, and it is coded at the central pixel. */
  lemma SingleWindow(img: Plane, r: nat, mapping: Mapping, stepVertical: int, stepHorizontal: int)
    requires Rectangular(img) && |img| == 2 * r + 1 && |img[0]| == 2 * r + 1
    requires r >= 1 && stepVertical >= 1 && stepHorizontal >= 1
    ensures LbpGrid(img, r, mapping, stepVertical, stepHorizontal) == [[LbpCode(img, r, r, r, mapping)]]
  {
    OneWindow(2 * r + 1, 2 * r + 1, stepVertical);
    OneWindow(2 * r + 1, 2 * r + 1, stepHorizontal);
    assert Centres(r, 2 * r + 1, stepVertical)[0] == r;
    assert Centres(r, 2 * r + 1, stepHorizontal)[0] == r;
    var g := LbpGrid(img, r, mapping, stepVertical, stepHorizontal);
    assert |g| == 1 && |g[0]| == 1;
    assert g[0][0] == LbpCode(img, r, r, r, mapping);
    assert g[0] == [LbpCode(img, r, r, r, mapping)];
  }

  // ---------------------------------------------------------------------------
  // The four pinned images: radius 1, four samples, no padding

  function PinnedImage(centre: real): Plane
  {
    [[0.0, 6.0, 0.0], [5.0, centre, 13.0], [0.0, 20.0, 0.0]]
  }

  /** A pattern is determined by the comparisons of its samples with the centre. */
  lemma PatternOfComparisons(centre: real, n: seq<real>, b: seq<bool>)
    requires |b| == |n| && forall k :: 0 <= k < |n| ==> (b[k] <==> n[k] >= centre)
    ensures Pattern(centre, n) == Value(b)
  {
    var x := Pattern(centre, n);
    assert ToBits(x, |n|) == b;
    ValueOfToBits(x, |n|);
  }

  /** A 4-bit pattern written out as its bits b0 b1 b2 b3, least significant first. */
  function Nibble(b0: bool, b1: bool, b2: bool, b3: bool): nat
  {
    (if b0 then 1 else 0) + 2 * (if b1 then 1 else 0) + 4 * (if b2 then 1 else 0) + 8 * (if b3 then 1 else 0)
  }

  function Differ(a: bool, b: bool): nat
  {
    if a != b then 1 else 0
  }

  function Bit(a: bool): nat
  {
    if a then 1 else 0
  }

  lemma FourValue(b0: bool, b1: bool, b2: bool, b3: bool)
    ensures Value([b0, b1, b2, b3]) == Nibble(b0, b1, b2, b3)
  {
    var s3 := [b3];
    var s2 := [b2, b3];
    var s1 := [b1, b2, b3];
    var s0 := [b0, b1, b2, b3];
    assert s3[1..] == [] && s2[1..] == s3 && s1[1..] == s2 && s0[1..] == s1;
    assert Value(s3) == Bit(b3);
    assert Value(s2) == Bit(b2) + 2 * Value(s3);
    assert Value(s1) == Bit(b1) + 2 * Value(s2);
    assert Value(s0) == Bit(b0) + 2 * Value(s1);
  }

  lemma FourTransitions(b0: bool, b1: bool, b2: bool, b3: bool)
    ensures Transitions([b0, b1, b2, b3]) ==
              Differ(b0, b3) + Differ(b1, b0) + Differ(b2, b1) + Differ(b3, b2)
  {
    var a0 := [b0, b1, b2, b3];
    var c0 := [b3, b0, b1, b2];
    assert RotL(a0) == c0;
    var a1 := [b1, b2, b3];
    var a2 := [b2, b3];
    var a3 := [b3];
    var c1 := [b0, b1, b2];
    var c2 := [b1, b2];
    var c3 := [b2];
    assert a0[1..] == a1 && a1[1..] == a2 && a2[1..] == a3 && a3[1..] == [];
    assert c0[1..] == c1 && c1[1..] == c2 && c2[1..] == c3 && c3[1..] == [];
    assert Mismatches(a3, c3) == Differ(b3, b2);
    assert Mismatches(a2, c2) == Differ(b2, b1) + Mismatches(a3, c3);
    assert Mismatches(a1, c1) == Differ(b1, b0) + Mismatches(a2, c2);
    assert Mismatches(a0, c0) == Differ(b0, b3) + Mismatches(a1, c1);
  }

  lemma FourRotations(b0: bool, b1: bool, b2: bool, b3: bool)
    ensures Rotate([b0, b1, b2, b3], 1) == [b3, b0, b1, b2]
    ensures Rotate([b0, b1, b2, b3], 2) == [b2, b3, b0, b1]
    ensures Rotate([b0, b1, b2, b3], 3) == [b1, b2, b3, b0]
  {
    var b := [b0, b1, b2, b3];
    assert b[3..] == [b3] && b[..3] == [b0, b1, b2];
    assert b[2..] == [b2, b3] && b[..2] == [b0, b1];
    assert b[1..] == [b1, b2, b3] && b[..1] == [b0];
  }

  /** Uniformity of a 4-bit pattern, from its bits. */
  lemma FourUniform(b0: bool, b1: bool, b2: bool, b3: bool)
    ensures IsUniform(Nibble(b0, b1, b2, b3), Samples) <==>
              Differ(b0, b3) + Differ(b1, b0) + Differ(b2, b1) + Differ(b3, b2) <= 2
  {
    FourValue(b0, b1, b2, b3);
    ToBitsOfValue([b0, b1, b2, b3]);
    FourTransitions(b0, b1, b2, b3);
  }

  /** Least rotation of a 4-bit pattern, from its bits. */
  lemma FourMinRotation(b0: bool, b1: bool, b2: bool, b3: bool)
    ensures MinRotation(Nibble(b0, b1, b2, b3), Samples) ==
              Min(Min(Min(Nibble(b0, b1, b2, b3), Nibble(b3, b0, b1, b2)), Nibble(b2, b3, b0, b1)),
                  Nibble(b1, b2, b3, b0))
  {
    FourValue(b0, b1, b2, b3);
    ToBitsOfValue([b0, b1, b2, b3]);
    FourRotations(b0, b1, b2, b3);
    FourValue(b3, b0, b1, b2);
    FourValue(b2, b3, b0, b1);
    FourValue(b1, b2, b3, b0);
  }

  /** Centre 18: only the sample below reaches it (bit 3), so the raw code is 8. */
  lemma NoMappingValue(stepVertical: int, stepHorizontal: int)
    requires stepVertical >= 1 && stepHorizontal >= 1
    ensures LbpGrid(PinnedImage(18.0), 1, NoMapping, stepVertical, stepHorizontal) == [[8]]
  {
    var img := PinnedImage(18.0);
    SingleWindow(img, 1, NoMapping, stepVertical, stepHorizontal);
    assert Neighbours(img, 1, 1, 1) == [13.0, 6.0, 5.0, 20.0];
    PatternOfComparisons(18.0, [13.0, 6.0, 5.0, 20.0], [false, false, false, true]);
    FourValue(false, false, false, true);
  }

  /** Centre 25: no sample reaches it, and the empty pattern is the uniform
      pattern with no set bit, code 0 under 'riu2'. */
  lemma Riu2Value(stepVertical: int, stepHorizontal: int)
    requires stepVertical >= 1 && stepHorizontal >= 1
    ensures LbpGrid(PinnedImage(25.0), 1, Riu2, stepVertical, stepHorizontal) == [[0]]
  {
    var img := PinnedImage(25.0);
    SingleWindow(img, 1, Riu2, stepVertical, stepHorizontal);
    assert Neighbours(img, 1, 1, 1) == [13.0, 6.0, 5.0, 20.0];
    PatternOfComparisons(25.0, [13.0, 6.0, 5.0, 20.0], [false, false, false, false]);
    FourValue(false, false, false, false);
    Riu2ZeroIff(0, Samples);
  }

  /** Centre 13: the tie on the right sets bit 0 and the sample below sets bit 3;
      1001 is uniform and eight uniform patterns precede it. */
  lemma U2Value(stepVertical: int, stepHorizontal: int)
    requires stepVertical >= 1 && stepHorizontal >= 1
    ensures LbpGrid(PinnedImage(13.0), 1, U2, stepVertical, stepHorizontal) == [[8]]
  {
    var img := PinnedImage(13.0);
    SingleWindow(img, 1, U2, stepVertical, stepHorizontal);
    assert Neighbours(img, 1, 1, 1) == [13.0, 6.0, 5.0, 20.0];
    PatternOfComparisons(13.0, [13.0, 6.0, 5.0, 20.0], [true, false, false, true]);
    FourValue(true, false, false, true);
    UniformFour();
  }

  /** Centre 6: the right, up and down samples reach it, pattern 1011, whose
      least rotation 0111 is the fifth rotation class met in ascending order. */
  lemma RiValue(stepVertical: int, stepHorizontal: int)
    requires stepVertical >= 1 && stepHorizontal >= 1
    ensures LbpGrid(PinnedImage(6.0), 1, Ri, stepVertical, stepHorizontal) == [[4]]
  {
    var img := PinnedImage(6.0);
    SingleWindow(img, 1, Ri, stepVertical, stepHorizontal);
    assert Neighbours(img, 1, 1, 1) == [13.0, 6.0, 5.0, 20.0];
    PatternOfComparisons(6.0, [13.0, 6.0, 5.0, 20.0], [true, true, false, true]);
    FourValue(true, true, false, true);
    RotationClassesFour();
  }

  /** One step of the ascending count of uniform 4-bit patterns: pattern k,
      with bits b0..b3, adds one to the count iff it is uniform. */
  lemma UniformCountStep(k: nat, b0: bool, b1: bool, b2: bool, b3: bool, before: nat, after: nat)
    requires Nibble(b0, b1, b2, b3) == k && UniformBelow(k, Samples) == before
    requires after == before +
               (if Differ(b0, b3) + Differ(b1, b0) + Differ(b2, b1) + Differ(b3, b2) <= 2 then 1 else 0)
    ensures UniformBelow(k + 1, Samples) == after
  {
    FourUniform(b0, b1, b2, b3);
    UniformBelowStep(k, Samples);
  }

  /** Of the 4-bit patterns 0..8 only 5 (0101) is not uniform, so 9 is
      preceded by eight uniform patterns. */
  lemma UniformFour()
    ensures UniformBelow(9, Samples) == 8
    ensures U2Code(9, Samples) == 8
  {
    UniformCountStep(0, false, false, false, false, 0, 1);
    UniformCountStep(1, true, false, false, false, 1, 2);
    UniformCountStep(2, false, true, false, false, 2, 3);
    UniformCountStep(3, true, true, false, false, 3, 4);
    UniformCountStep(4, false, false, true, false, 4, 5);
    UniformCountStep(5, true, false, true, false, 5, 5);
    UniformCountStep(6, false, true, true, false, 5, 6);
    UniformCountStep(7, true, true, true, false, 6, 7);
    UniformCountStep(8, false, false, false, true, 7, 8);
    FourUniform(true, false, false, true);
  }

  /** Of the 4-bit patterns 0..11, 5 (0101) and 10 (1010) are not uniform. */
  lemma UniformTwelve()
    ensures UniformBelow(12, Samples) == 10
  {
    UniformFour();
    UniformCountStep(9, true, false, false, true, 8, 9);
    UniformCountStep(10, false, true, false, true, 9, 9);
    UniformCountStep(11, true, true, false, true, 9, 10);
  }

  /** One step of the ascending count of rotation classes of 4-bit patterns:
      pattern k, with bits b0..b3, adds one to the count iff no rotation of
      it is smaller. */
  lemma ClassCountStep(k: nat, b0: bool, b1: bool, b2: bool, b3: bool, before: nat, after: nat)
    requires Nibble(b0, b1, b2, b3) == k && ClassesBelow(k, Samples) == before
    requires after == before +
               (if Min(Min(Min(k, Nibble(b3, b0, b1, b2)), Nibble(b2, b3, b0, b1)), Nibble(b1, b2, b3, b0)) == k
                then 1 else 0)
    ensures ClassesBelow(k + 1, Samples) == after
  {
    FourMinRotation(b0, b1, b2, b3);
    ClassesBelowStep(k, Samples);
  }

  /** The 4-bit patterns 0..3 fall into the rotation classes of 0, 1 and 3. */
  lemma RotationClassesBelowFour()
    ensures ClassesBelow(4, Samples) == 3
  {
    ClassCountStep(0, false, false, false, false, 0, 1);
    ClassCountStep(1, true, false, false, false, 1, 2);
    ClassCountStep(2, false, true, false, false, 2, 2);
    ClassCountStep(3, true, true, false, false, 2, 3);
  }

  /** 4 (0100) is a rotation of 1, and 5 (0101) starts a new class. */
  lemma RotationClassesBelowSix()
    ensures ClassesBelow(6, Samples) == 4
  {
    RotationClassesBelowFour();
    ClassCountStep(4, false, false, true, false, 3, 3);
    ClassCountStep(5, true, false, true, false, 3, 4);
  }

  /** The 4-bit patterns below 7 fall into the rotation classes of 0, 1, 3 and
      5, and 11 (1011) rotates down to 7 (0111). */
  lemma RotationClassesFour()
    ensures RiCode(11, Samples) == 4
  {
    RotationClassesBelowSix();
    ClassCountStep(6, false, true, true, false, 4, 4);
    FourMinRotation(true, true, false, true);
  }

  /** 0101 and 1010 change at every position: they are the two non-uniform
      4-bit patterns. */
  lemma NonUniformFour()
    ensures !IsUniform(5, Samples) && !IsUniform(10, Samples)
  {
    FourUniform(true, false, true, false);
    FourUniform(false, true, false, true);
  }

  /** With four samples, 14 of the 16 patterns are uniform, so 'u2' uses the
      15 codes 0..14, that is P(P-1)+3 of them, the code P(P-1)+2 = 14 shared
      by the two non-uniform patterns. */
  lemma UniformCountFour()
    ensures UniformBelow(Pow2(Samples), Samples) == U2Other(Samples) == 14
  {
    UniformTwelve();
    UniformCountStep(12, false, false, true, true, 10, 11);
    UniformCountStep(13, true, false, true, true, 11, 12);
    UniformCountStep(14, false, true, true, true, 12, 13);
    UniformCountStep(15, true, true, true, true, 13, 14);
    assert Pow2(Samples) == 16;
  }
}
