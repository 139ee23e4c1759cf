# menpo dense features: window grids, descriptor shapes and LBP codes

This Dafny project models the integer behaviour of menpo's feature
extractors (`hog`, `lbp`, `igo`, `es`) as fixed by the assertions of
`menpo/feature/test_features.py`. The extractors' own implementations are
not part of this model. What is modelled is the arithmetic the assertions
pin down, as a verified reference. Each random test draw becomes a
universally quantified parameter. Each fixed-value test becomes a concrete
lemma.

The project has five modules:

- **Bits** (`Bits.dfy`): binary patterns as bit sequences, least significant
  bit first, with the value/digits round trip.
- **Geometry** (`Geometry.dfy`): the number of sliding-window positions
  along one axis. This is `len(range(start, extent, step))`, with `start = 0`
  when padding and `start = window_size - 1` without. It also gives the
  (vertical, horizontal) output grid.
- **LbpMapping** (`LbpMapping.dfy`): the four LBP mappings `none`, `u2`, `ri`
  and `riu2`.
  - Each mapping is a specification function on P-bit patterns.
  - Each also has a method that fills the 2^P-entry lookup table in one
    ascending scan, the way a mapping table builder does: a running "next
    code" counter for `u2`, and a first-seen array of rotation classes for
    `ri`.
  - `MinRotation` (the representative of a rotation class) is characterised
    by `MinRotationIsLeast`. Uniformity (`IsUniform`) is "at most two
    circular transitions", and `Transitions` carries the contract.
  - Each method is proved to produce exactly the specification's table.
- **LbpPattern** (`LbpPattern.dfy`): LBP at whole-pixel sample points. With four
  samples, sample k is at angle 2πk/4 (right, up, left, down, rows growing
  downward). Bit k is set iff that sample is at least the centre value.
  - The module defines the unpadded code image, with one code per window
    at the window's centre.
  - It proves the four values pinned for the 3×3 images: `none` → 8,
    `riu2` → 0, `u2` → 8, `ri` → 4.
- **Descriptors** (`Descriptors.dfy`): configuration validation (a `Result`
  with the error kind) and the output shape of each descriptor:
  - the HOG and LBP grids;
  - Dalal-Triggs channels: blocks per side × block_size² × num_bins;
  - Zhu-Ramanan channels: (round(w/c) − 2)(round(h/c) − 2) · 31, with Python
    2's half-away-from-zero `round`;
  - LBP channels: radius/samples pairs × input channels;
  - IGO channels: 2c, or 4c with double angles;
  - ES channels: 2c.

  IGO and ES keep the spatial shape.

Window sizes and steps are in pixels throughout.

Notes on ambiguities:

- **u2 code count.** A description of `u2` that gives it `samples + 2`
  distinct codes, with non-uniform patterns at `samples + 1`, cannot
  produce the value 8 pinned at `menpo/feature/test_features.py:230-232`.
  Four samples give only 6 codes under that scheme, and the pattern 1001
  would get code 1 or 2. The model follows the scheme that does give 8:
  - uniform patterns, scanned in ascending order, take consecutive codes;
  - every other pattern takes P(P−1)+2.

  With P = 4 that uses P(P−1)+3 = 15 codes (`LbpPattern.UniformCountFour`).
  The "samples + 2" count belongs to `riu2`.
- **Padding and window counts.** Dropping padding does not always lose
  windows when the window is longer than one pixel.
  `Geometry.PaddingCanTie` gives a counterexample: window 2, step 5,
  extent 10 has two windows either way. The model proves instead that
  windows are never gained (`UnpaddedAtMostPadded`), and that at least
  one is lost when the window is longer than the step (`UnpaddedFewer`).

## Model

| member | source | states |
|---|---|---|
| Geometry.WindowCount | menpo/feature/test_features.py:24-27 | the count is the least n with start + n·step ≥ extent, i.e. the length of `range(start, extent, step)` |
| Geometry.CountUnique | menpo/feature/test_features.py:24-27 | any n satisfying those two bounds equals `WindowCount` |
| Geometry.AnchorsShape | menpo/feature/test_features.py:24-27 | the anchors enumerated one step at a time are exactly `WindowCount` positions start + i·step |
| Geometry.AnchorsMembership | menpo/feature/test_features.py:50-55 | x is an anchor iff start ≤ x < extent and x − start is a whole number of steps |
| Geometry.PaddedCount | menpo/feature/test_features.py:24-27 | padded windows per axis = ⌈extent / step⌉ |
| Geometry.UnpaddedCount | menpo/feature/test_features.py:50-55 | unpadded windows per axis are 0 iff the window is longer than the extent |
| Geometry.UnpaddedWindowsFit | menpo/feature/test_features.py:50-55 | an unpadded anchor is exactly the last pixel of a window lying wholly inside the image at a whole number of steps |
| Geometry.UnpaddedAtMostPadded | menpo/feature/test_features.py:50-55 | dropping padding never adds windows |
| Geometry.UnpaddedFewer | menpo/feature/test_features.py:50-55 | dropping padding loses a window when the window is longer than the step |
| Geometry.PaddingCanTie | menpo/feature/test_features.py:50-55 | window 2, step 5, extent 10 give 2 windows with and without padding |
| Geometry.OneWindow | menpo/feature/test_features.py:96-100 | exactly one unpadded window when the extent holds a window but not one a step further |
| Geometry.WindowGrid | menpo/feature/test_features.py:11-57 | with padding each axis has ⌈extent/step⌉ windows; without, an axis is empty iff the window is longer than it, and never has more windows than with padding |
| Bits.ValueOfToBits | menpo/feature/test_features.py:222-225 | the P binary digits of a P-bit pattern read back to the pattern |
| Bits.ToBitsOfValue | menpo/feature/test_features.py:222-225 | the digits of a bit sequence's value are the sequence |
| LbpMapping.Code | menpo/feature/test_features.py:221-235 | 'none' is the identity; 'u2' gives a uniform pattern a code no larger than itself and any other P(P−1)+2; 'ri' a code no larger than the representative; 'riu2' a code in 0..P+1, P+1 iff non-uniform |
| LbpMapping.MinRotationIsLeast | menpo/feature/test_features.py:233-235 | the representative is a rotation of x and no rotation of x is smaller |
| LbpMapping.MinRotationBounds | menpo/feature/test_features.py:233-235 | the representative is a P-bit pattern no larger than x |
| LbpMapping.MinRotationOfRotation | menpo/feature/test_features.py:233-235 | rotating a pattern does not change its representative |
| LbpMapping.SameRotationClass | menpo/feature/test_features.py:233-235 | two patterns share a representative iff one is a rotation of the other |
| LbpMapping.MinRotationIdempotent | menpo/feature/test_features.py:233-235 | the representative is its own representative |
| LbpMapping.RiCode | menpo/feature/test_features.py:233-235 | the 'ri' code is at most the representative (the classes met before it) |
| LbpMapping.RiCodeClasses | menpo/feature/test_features.py:233-235 | 'ri' gives two patterns the same code iff they are rotations of each other |
| LbpMapping.RiCodeRange | menpo/feature/test_features.py:233-235 | 'ri' codes are below the number of rotation classes |
| LbpMapping.Transitions | menpo/feature/test_features.py:226-229 | the number of circular 0/1 changes is at most P, and 0 iff the pattern equals its one-place rotation |
| LbpMapping.RotateKeepsCounts | menpo/feature/test_features.py:226-229 | rotation keeps the number of circular transitions and of set bits |
| LbpMapping.UniformRotation | menpo/feature/test_features.py:226-229 | all rotations of a pattern agree on uniformity and popcount |
| LbpMapping.U2Code | menpo/feature/test_features.py:230-232 | a uniform pattern's 'u2' code is no larger than the pattern; every non-uniform pattern gets P(P−1)+2 |
| LbpMapping.U2CodeOrdered | menpo/feature/test_features.py:230-232 | 'u2' numbers the uniform patterns in ascending order, so no two share a code |
| LbpMapping.Riu2Code | menpo/feature/test_features.py:226-229 | 'riu2' codes lie in 0..P+1 and are P+1 exactly for non-uniform patterns |
| LbpMapping.Riu2CodeRotation | menpo/feature/test_features.py:226-229 | all rotations of a pattern get the same 'riu2' code |
| LbpMapping.Riu2ZeroIff | menpo/feature/test_features.py:226-229 | 'riu2' gives 0 iff no sample reached the centre |
| LbpMapping.LeastRotation | menpo/feature/test_features.py:233-235 | rotating left P−1 times and keeping the least value gives the representative |
| LbpMapping.BuildIdentityTable | menpo/feature/test_features.py:222-225 | the 'none' table maps every pattern to itself |
| LbpMapping.UniformScanStep | menpo/feature/test_features.py:230-232 | one scan step gives pattern i its 'u2' code and advances the counter iff i is uniform |
| LbpMapping.U2Scan | menpo/feature/test_features.py:230-232 | the counter scan yields the 'u2' codes of 0..2^P−1, in order |
| LbpMapping.BuildU2Table | menpo/feature/test_features.py:230-232 | the ascending counter scan fills the 2^P table with exactly the 'u2' codes |
| LbpMapping.RiScanStep | menpo/feature/test_features.py:233-235 | a pattern's class was already seen iff its representative is below it, and the recorded code is then its 'ri' code |
| LbpMapping.ScanPattern | menpo/feature/test_features.py:233-235 | one scan step gives pattern i its 'ri' code and records a new class at its representative |
| LbpMapping.BuildRiTable | menpo/feature/test_features.py:233-235 | the first-seen scan fills the 2^P table with exactly the 'ri' codes |
| LbpMapping.BuildRiu2Table | menpo/feature/test_features.py:226-229 | the table holds the 'riu2' code of every pattern |
| LbpMapping.BuildTable | menpo/feature/test_features.py:221-235 | the table of each mapping holds that mapping's code for every pattern |
| LbpPattern.SamplesOnCircle | menpo/feature/test_features.py:222-225 | the four sample offsets lie on the circle of radius r and are distinct when r > 0 |
| LbpPattern.SampleOffsets | menpo/feature/test_features.py:222-225 | samples 0..3 are right, up, left and down of the centre |
| LbpPattern.NeighboursAtOffsets | menpo/feature/test_features.py:222-225 | sample k is the pixel at sample k's row and column offset from the centre |
| LbpPattern.Pattern | menpo/feature/test_features.py:222-225 | the pattern fits in one bit per sample and bit k is set iff sample k ≥ the centre, ties included |
| LbpPattern.LbpCode | menpo/feature/test_features.py:221-235 | unmapped, the code fits in four bits and bit k is set iff sample k ≥ the centre; under 'riu2' it is at most P+1 |
| LbpPattern.PatternOfComparisons | menpo/feature/test_features.py:222-225 | the pattern is the value of the comparison bits |
| LbpPattern.Centres | menpo/feature/test_features.py:96-100 | unpadded window centres are r + i·step, their circles inside the image, one per window |
| LbpPattern.LbpGrid | menpo/feature/test_features.py:91-102 | the code image has the unpadded grid shape and holds each window centre's mapped code |
| LbpPattern.SingleWindow | menpo/feature/test_features.py:221-225 | a (2r+1)×(2r+1) image gives one code, taken at its centre, for any steps |
| LbpPattern.NoMappingValue | menpo/feature/test_features.py:222-225 | centre 18 under 'none' gives the code image [[8]] |
| LbpPattern.Riu2Value | menpo/feature/test_features.py:226-229 | centre 25 under 'riu2' gives [[0]] |
| LbpPattern.U2Value | menpo/feature/test_features.py:230-232 | centre 13 under 'u2' gives [[8]] |
| LbpPattern.RiValue | menpo/feature/test_features.py:233-235 | centre 6 under 'ri' gives [[4]] |
| LbpPattern.UniformCountStep | menpo/feature/test_features.py:230-232 | one step of the ascending count of uniform 4-bit patterns, from the pattern's four bits |
| LbpPattern.UniformFour | menpo/feature/test_features.py:230-232 | eight 4-bit uniform patterns precede 1001, whose 'u2' code is 8 |
| LbpPattern.ClassCountStep | menpo/feature/test_features.py:233-235 | one step of the ascending count of 4-bit rotation classes, from the pattern's four rotations |
| LbpPattern.RotationClassesFour | menpo/feature/test_features.py:233-235 | 1011 falls in the fifth rotation class met in ascending order (code 4) |
| LbpPattern.NonUniformFour | menpo/feature/test_features.py:230-232 | 0101 and 1010 are not uniform |
| LbpPattern.UniformCountFour | menpo/feature/test_features.py:230-232 | 14 of the 16 4-bit patterns are uniform, the shared code being P(P−1)+2 = 14 |
| Descriptors.DalalTriggsBlocks | menpo/feature/test_features.py:123-126 | at least one block per side iff the side holds block_size·cell_size pixels, and then (side − block pixels)/cell + 1 blocks |
| Descriptors.FirstWindowAt | menpo/feature/test_features.py:123-126 | the `range` length of last pixels equals (extent − size)/step + 1 once a window fits |
| Descriptors.Round | menpo/feature/test_features.py:147-150 | the rounded quotient is the integer nearest a/b, halves rounded up |
| Descriptors.RoundAtLeastThree | menpo/feature/test_features.py:147-150 | round(a/b) ≥ 3 iff a/b ≥ 2.5 |
| Descriptors.ZhuRamananBlocks | menpo/feature/test_features.py:147-150 | at least one interior Zhu-Ramanan cell per side iff the side holds two and a half cells |
| Descriptors.HogChannels | menpo/feature/test_features.py:105-152 | Dalal-Triggs channels are positive iff the window holds a block both ways; Zhu-Ramanan channels iff it holds 2.5 cells both ways |
| Descriptors.Hog | menpo/feature/test_features.py:116-121 | HOG succeeds iff the configuration is positive; otherwise it reports a non-positive size. Its channels are the HOG channel count |
| Descriptors.Lbp | menpo/feature/test_features.py:155-166 | LBP succeeds iff radii and samples are non-empty, of equal length and positive. Mismatched lengths, an empty list and a non-positive value are each reported as such. Channels = pairs × input channels |
| Descriptors.Igo | menpo/feature/test_features.py:169-179 | IGO keeps height and width and has 2c channels, 4c with double angles |
| Descriptors.Es | menpo/feature/test_features.py:182-189 | ES keeps height and width and has 2c channels |
| Descriptors.PaddedGridShape | menpo/feature/test_features.py:24-28 | with padding the grid is the padded counts, whatever the window size |
| Descriptors.UnpaddedGridShape | menpo/feature/test_features.py:50-56 | without padding the grid is the unpadded counts, empty on an axis iff the window is longer than the image |
| Descriptors.HogPaddedShape | menpo/feature/test_features.py:11-29 | padded HOG has shape (len(range(0, h, sv)), len(range(0, w, sh))) |
| Descriptors.HogUnpaddedShape | menpo/feature/test_features.py:32-57 | unpadded HOG has shape (len(range(wh−1, h, sv)), len(range(ww−1, w, sh))), never more than padded |
| Descriptors.LbpPaddedShape | menpo/feature/test_features.py:60-78 | padded LBP has the padded grid shape |
| Descriptors.LbpUnpaddedShape | menpo/feature/test_features.py:81-102 | unpadded LBP with one radius has windows of side 2·radius + 1 |
| Descriptors.LbpGridMatchesShape | menpo/feature/test_features.py:91-102 | the computed LBP code image has the shape the LBP descriptor reports |
| Descriptors.DalalTriggsChannels | menpo/feature/test_features.py:105-128 | Dalal-Triggs channels = blocks across × blocks down × block_size²·num_bins, positive iff both sides hold a block |
| Descriptors.ZhuRamananChannels | menpo/feature/test_features.py:131-152 | Zhu-Ramanan channels are positive iff both sides hold 2.5 cells, and then equal (round(w/c)−2)(round(h/c)−2)·31 |
| Descriptors.ZhuRamananTestWindows | menpo/feature/test_features.py:137-152 | windows of at least three cells per side give exactly the asserted, positive count |

## Left out

- HOG histogram values (gradients, bin voting, block normalisation): floating point, and no assertion pins them.
- IGO and ES pixel values (`menpo/feature/test_features.py:192-218`): cos, sin, atan2 and square roots, with NaN for a zero gradient, are floating-point numerics.
- LBP sample interpolation: with other sample counts the sample points are not whole pixels and are bilinearly interpolated, which is real-valued. Only the four-sample case is modelled, where every point is a whole pixel.
- Padded LBP code values: the value used for pixels outside the image is not visible, so only the padded grid shape is modelled.
- Sparse mode and landmark constraining (`menpo/feature/test_features.py:238-251`) depend on image assets, cropping, resizing and landmark objects, which are not part of this model.
- The `Image`/`MaskedImage` classes, random number generation and `assert_allclose` are replaced by quantified parameters and exact equalities.
- Window and step units other than pixels: the conversion code is not visible.
- Unknown mapping or algorithm names cannot be expressed: both are datatypes.
- Caching of mapping tables between calls: a table is a value here.
- Channel order inside IGO and ES outputs: only the counts are modelled.
- Descriptors.HogChannels: a Zhu-Ramanan window with no interior cell gives 0 channels (an empty descriptor). The test's window range never reaches that case, and the implementation's behaviour there is not visible.
- Descriptors.LbpWindow: with several radii, the window side is taken as 2·max(radius)+1. Only the single-radius window is pinned.
- LbpMapping.U2Code: that the uniform codes stay below the shared code P(P−1)+2 (there are P(P−1)+2 uniform patterns) is proved only for P = 4 (`LbpPattern.UniformCountFour`), not for every P.
