/**
 * The fractal encoder (FractalsCommand.java). Both images are cut into a k x k
 * grid of fragments; for every destination fragment every source fragment is
 * tried under each of eight transformations, and the candidate with the lowest
 * correspondence (sum of squared differences plus a tenth of the grid distance)
 * becomes that fragment's fractal code.
 *
 * Images and fragments are sample matrices `m[c][r]` (column, row), the layout
 * `getGrayscalePixelMatrix` produces. They are never written after they are
 * built, so they are values here.
 */
module Fractals {
  import opened Wrappers
  import opened Representation

  type Matrix = seq<seq<int>>

  /**
   * The Java platform calls the model relies on: the AWT flips and rotations
   * (sampled back into a matrix), `Math.sqrt`, `Math.pow(x, 2)`, and the
   * packing `new Color(r / 255f, g / 255f, b / 255f).getRGB()` of three
   * channel means.
   */
  datatype Platform = Platform(
    transform: (Transform, Matrix) -> Matrix,
    sqrt: real -> real,
    square: real -> real,
    packColor: (int, int, int) -> int)

  /** Every column of `m` is as long as `m` has columns. */
  predicate IsSquare(m: Matrix) {
    forall c :: 0 <= c < |m| ==> |m[c]| == |m|
  }

  /** `m` has at least an n x n block in its top-left corner. */
  predicate Spans(m: Matrix, n: nat) {
    n <= |m| && forall c :: 0 <= c < n ==> n <= |m[c]|
  }

  /**
   * What the model assumes of the platform: a transformation maps an n x n
   * fragment to an n x n fragment, and the square root is 0 at 0 and positive
   * on positive numbers. (What is assumed of `square` is stated where it is
   * used, by `Statistics.ValidSquare`.)
   */
  ghost predicate ValidPlatform(p: Platform) {
    && (forall t, m :: IsSquare(m) ==> IsSquare(p.transform(t, m)) && |p.transform(t, m)| == |m|)
    && p.sqrt(0.0) == 0.0
    && (forall v :: 0.0 < v ==> 0.0 < p.sqrt(v))
  }

  // ---------------------------------------------------------------------------
  // Partition geometry (partitionImage)
  // ---------------------------------------------------------------------------

  /** A non-empty rectangular sample matrix: `|img|` columns of equal height. */
  predicate IsImage(img: Matrix) {
    |img| > 0 && forall c :: 0 <= c < |img| ==> |img[c]| == |img[0]|
  }

  function Width(img: Matrix): nat {
    |img|
  }

  function Height(img: Matrix): nat
    requires |img| > 0
  {
    |img[0]|
  }

  /**
   * Level `k` can be applied to `img`: `k` is positive (the source divides by it)
   * and both fragment sides are at least one pixel (AWT refuses empty images).
   */
  predicate ValidLevel(img: Matrix, k: int) {
    IsImage(img) && 1 <= k && 1 <= Width(img) / k && 1 <= Height(img) / k
  }

  function FragmentWidth(img: Matrix, k: int): nat
    requires ValidLevel(img, k)
  {
    Width(img) / k
  }

  function FragmentHeight(img: Matrix, k: int): nat
    requires ValidLevel(img, k)
  {
    Height(img) / k
  }

  predicate InGrid(k: int, x: int, y: int) {
    0 <= x < k && 0 <= y < k
  }

  /** With `size = n / k`, block `q < k` of that size ends inside `[0, k * size] ⊆ [0, n]`. */
  lemma BlockWithin(n: nat, k: int, q: int)
    requires 1 <= k && 0 <= q < k
    ensures 0 <= (n / k) * q
    ensures (n / k) * q + n / k <= (n / k) * k <= n
  {
    var size := n / k;
    assert 0 <= size;
    assert size * q + size == size * (q + 1);
    ProductMonotone(size, q + 1, k);
    assert size * k + n % k == n;
  }

  lemma ProductMonotone(a: nat, b: int, c: int)
    requires b <= c
    ensures a * b <= a * c
  {
    assert a * c - a * b == a * (c - b);
  }

  /**
   * Fragment `[x][y]` of `img` at level `k`: a FragmentWidth x FragmentHeight
   * copy of the block whose top-left pixel is column `fw * y`, row `fh * x`.
   */
  function Fragment(img: Matrix, k: int, x: int, y: int): (f: Matrix)
    requires ValidLevel(img, k) && InGrid(k, x, y)
    ensures |f| == FragmentWidth(img, k)
    ensures forall c :: 0 <= c < |f| ==> |f[c]| == FragmentHeight(img, k)
  {
    var fw, fh := FragmentWidth(img, k), FragmentHeight(img, k);
    BlockWithin(Width(img), k, y);
    BlockWithin(Height(img), k, x);
    seq(fw, c requires 0 <= c < fw => seq(fh, r requires 0 <= r < fh => img[fw * y + c][fh * x + r]))
  }

  /**
   * Every sample a fragment copies lies in the first `k * fw` columns and the
   * first `k * fh` rows: the remainder columns and rows are dropped.
   */
  lemma FragmentDropsRemainder(img: Matrix, k: int, x: int, y: int, c: int, r: int)
    requires ValidLevel(img, k) && InGrid(k, x, y)
    requires 0 <= c < FragmentWidth(img, k) && 0 <= r < FragmentHeight(img, k)
    ensures var fw, fh := FragmentWidth(img, k), FragmentHeight(img, k);
      && fw * y + c < k * fw && fh * x + r < k * fh
      && Fragment(img, k, x, y)[c][r] == img[fw * y + c][fh * x + r]
  {
    BlockWithin(Width(img), k, y);
    BlockWithin(Height(img), k, x);
  }

  /**
   * Conversely every sample in the first `k * fw` columns and `k * fh` rows is
   * copied: pixel (px, py) is sample (px % fw, py % fh) of fragment
   * [py / fh][px / fw].
   */
  lemma FragmentCoversBlock(img: Matrix, k: int, px: int, py: int)
    requires ValidLevel(img, k)
    requires 0 <= px < k * FragmentWidth(img, k) && 0 <= py < k * FragmentHeight(img, k)
    ensures px < Width(img) && py < Height(img)
    ensures var fw, fh := FragmentWidth(img, k), FragmentHeight(img, k);
      && InGrid(k, py / fh, px / fw)
      && Fragment(img, k, py / fh, px / fw)[px % fw][py % fh] == img[px][py]
  {
    var fw, fh := FragmentWidth(img, k), FragmentHeight(img, k);
    BlockWithin(Width(img), k, 0);
    BlockWithin(Height(img), k, 0);
    QuotientBelow(px, fw, k);
    QuotientBelow(py, fh, k);
    assert fw * (px / fw) + px % fw == px;
    assert fh * (py / fh) + py % fh == py;
  }

  lemma QuotientBelow(n: int, d: int, k: int)
    requires 1 <= d && 0 <= n < k * d
    ensures 0 <= n / d < k
  {
    var q := n / d;
    assert d * q + n % d == n;
    if k <= q {
      ProductMonotone(d, k, q);
      assert false;
    }
  }

  /** `images` holds the k x k fragments of `image`, cell [x, y] fragment [x][y]. */
  ghost predicate Partitioned(images: array2<Matrix>, image: Matrix, k: int)
    reads images
  {
    && ValidLevel(image, k)
    && images.Length0 == k && images.Length1 == k
    && forall x, y :: InGrid(k, x, y) ==> images[x, y] == Fragment(image, k, x, y)
  }

  /**
   * `partitionImage`: a fresh `size x size` array whose cell [x, y] holds
   * fragment [x][y].
   */
  method PartitionImage(image: Matrix, size: int) returns (images: array2<Matrix>)
    requires ValidLevel(image, size)
    ensures fresh(images)
    ensures images.Length0 == size && images.Length1 == size
    ensures Partitioned(images, image, size)
  {
    images := new Matrix[size, size];
    var x := 0;
    while x < size
      invariant 0 <= x <= size
      invariant forall x', y' :: 0 <= x' < x && 0 <= y' < size ==> images[x', y'] == Fragment(image, size, x', y')
    {
      var y := 0;
      while y < size
        invariant 0 <= y <= size
        invariant forall x', y' :: 0 <= x' < x && 0 <= y' < size ==> images[x', y'] == Fragment(image, size, x', y')
        invariant forall y' :: 0 <= y' < y ==> images[x, y'] == Fragment(image, size, x, y')
      {
        images[x, y] := Fragment(image, size, x, y);
        y := y + 1;
      }
      x := x + 1;
    }
  }

  // ---------------------------------------------------------------------------
  // Correspondence (getPhotometricCorrespondence, getDistance, getCorrespondence)
  // ---------------------------------------------------------------------------

  function Square(d: int): real {
    (d * d) as real
  }

  /** Sum over rows `r < y` of column `c` of the squared sample differences. */
  function ColumnDifference(a: Matrix, b: Matrix, c: nat, y: nat): (s: real)
    requires c < |a| && c < |b| && y <= |a[c]| && y <= |b[c]|
    ensures 0.0 <= s
  {
    if y == 0 then 0.0
    else ColumnDifference(a, b, c, y - 1) + Square(b[c][y - 1] - a[c][y - 1])
  }

  /** Sum over columns `c < x` of the n-row column differences. */
  function BlockDifference(a: Matrix, b: Matrix, x: nat, n: nat): (s: real)
    requires Spans(a, n) && Spans(b, n) && x <= n
    ensures 0.0 <= s
  {
    if x == 0 then 0.0
    else BlockDifference(a, b, x - 1, n) + ColumnDifference(a, b, x - 1, n)
  }

  /**
   * `getPhotometricCorrespondence`: the sum of squared differences over
   * `[0, len) x [0, len)` where `len` is the first matrix's length, so the second
   * matrix must span at least that block.
   */
  function Photometric(a: Matrix, b: Matrix): real
    requires IsSquare(a) && Spans(b, |a|)
  {
    BlockDifference(a, b, |a|, |a|)
  }

  lemma {:induction false} ColumnDifferenceSelf(a: Matrix, c: nat, y: nat)
    requires c < |a| && y <= |a[c]|
    ensures ColumnDifference(a, a, c, y) == 0.0
  {
    if y > 0 {
      ColumnDifferenceSelf(a, c, y - 1);
    }
  }

  lemma {:induction false} BlockDifferenceSelf(a: Matrix, x: nat, n: nat)
    requires Spans(a, n) && x <= n
    ensures BlockDifference(a, a, x, n) == 0.0
  {
    if x > 0 {
      BlockDifferenceSelf(a, x - 1, n);
      ColumnDifferenceSelf(a, x - 1, n);
    }
  }

  /** A fragment corresponds photometrically to itself with cost 0. */
  lemma PhotometricSelf(a: Matrix)
    requires IsSquare(a)
    ensures Photometric(a, a) == 0.0
  {
    BlockDifferenceSelf(a, |a|, |a|);
  }

  /** The two nested accumulation loops of `getPhotometricCorrespondence`. */
  method PhotometricCorrespondence(a: Matrix, b: Matrix) returns (c: real)
    requires IsSquare(a) && Spans(b, |a|)
    ensures c == Photometric(a, b)
  {
    c := 0.0;
    var x := 0;
    while x < |a|
      invariant 0 <= x <= |a|
      invariant c == BlockDifference(a, b, x, |a|)
    {
      var y := 0;
      while y < |a|
        invariant 0 <= y <= |a|
        invariant c == BlockDifference(a, b, x, |a|) + ColumnDifference(a, b, x, y)
      {
        c := c + Square(b[x][y] - a[x][y]);
        y := y + 1;
      }
      x := x + 1;
    }
  }

  /** `getDistance`: the Euclidean distance between two grid origins. */
  function Distance(p: Platform, a: Origin, b: Origin): real {
    p.sqrt(((b.x - a.x) * (b.x - a.x) + (b.y - a.y) * (b.y - a.y)) as real)
  }

  lemma SquarePositive(d: int)
    requires d != 0
    ensures d * d > 0
  {
    if d < 0 {
      assert d * d == (-d) * (-d);
    }
  }

  /** The distance is symmetric, non-negative, and 0 exactly for the same origin. */
  lemma DistanceProperties(p: Platform, a: Origin, b: Origin)
    requires ValidPlatform(p)
    ensures Distance(p, a, b) == Distance(p, b, a)
    ensures 0.0 <= Distance(p, a, b)
    ensures Distance(p, a, b) == 0.0 <==> a == b
  {
    assert (b.x - a.x) * (b.x - a.x) == (a.x - b.x) * (a.x - b.x);
    assert (b.y - a.y) * (b.y - a.y) == (a.y - b.y) * (a.y - b.y);
    var dx, dy := (b.x - a.x) * (b.x - a.x), (b.y - a.y) * (b.y - a.y);
    assert 0 <= dx && 0 <= dy by {
      if b.x != a.x { SquarePositive(b.x - a.x); }
      if b.y != a.y { SquarePositive(b.y - a.y); }
    }
    if a != b {
      if b.x != a.x { SquarePositive(b.x - a.x); } else { SquarePositive(b.y - a.y); }
      assert 0.0 < (dx + dy) as real;
    }
  }

  /** `getCorrespondence`: photometric cost plus a tenth of the grid distance. */
  function Correspondence(p: Platform, a: Matrix, b: Matrix, aOrigin: Origin, bOrigin: Origin): real
    requires IsSquare(a) && Spans(b, |a|)
  {
    1.0 * Photometric(a, b) + 0.1 * Distance(p, aOrigin, bOrigin)
  }

  // ---------------------------------------------------------------------------
  // Colour contraction (getColorMean, getColorContraction)
  // ---------------------------------------------------------------------------

  /** `(pixel >> 16) & 0xFF` on a Java int: Dafny's `/` by a positive number floors. */
  function Red(pixel: int): int {
    (pixel / 0x1_0000) % 0x100
  }

  /** `(pixel >> 8) & 0xFF`. */
  function Green(pixel: int): int {
    (pixel / 0x100) % 0x100
  }

  /** `pixel & 0xFF`. */
  function Blue(pixel: int): int {
    pixel % 0x100
  }

  datatype Band = RedBand | GreenBand | BlueBand

  function Channel(band: Band, pixel: int): int {
    match band
    case RedBand => Red(pixel)
    case GreenBand => Green(pixel)
    case BlueBand => Blue(pixel)
  }

  /** A grey sample (0..255) has no red or green part and is its own blue part. */
  lemma GreySampleChannels(s: int)
    requires 0 <= s < 0x100
    ensures Red(s) == 0 && Green(s) == 0 && Blue(s) == s
  {
  }

  /** Sum of one channel over rows `r < y` of column `c`. */
  function ColumnTotal(m: Matrix, band: Band, c: nat, y: nat): int
    requires c < |m| && y <= |m[c]|
  {
    if y == 0 then 0 else ColumnTotal(m, band, c, y - 1) + Channel(band, m[c][y - 1])
  }

  /** Sum of one channel over columns `c < x` of the n x n block. */
  function BlockTotal(m: Matrix, band: Band, x: nat, n: nat): int
    requires Spans(m, n) && x <= n
  {
    if x == 0 then 0 else BlockTotal(m, band, x - 1, n) + ColumnTotal(m, band, x - 1, n)
  }

  /** The integer mean of one channel: the total divided by `length * length`. */
  function ChannelMean(m: Matrix, band: Band): int
    requires |m| > 0 && Spans(m, |m|)
  {
    BlockTotal(m, band, |m|, |m|) / (|m| * |m|)
  }

  /** `getColorMean`: the packed colour of the three channel means. */
  function ColorMean(p: Platform, m: Matrix): int
    requires |m| > 0 && Spans(m, |m|)
  {
    p.packColor(ChannelMean(m, RedBand), ChannelMean(m, GreenBand), ChannelMean(m, BlueBand))
  }

  lemma {:induction false} GreyColumnTotal(m: Matrix, c: nat, y: nat)
    requires c < |m| && y <= |m[c]|
    requires forall r :: 0 <= r < |m[c]| ==> 0 <= m[c][r] < 0x100
    ensures ColumnTotal(m, RedBand, c, y) == 0 && ColumnTotal(m, GreenBand, c, y) == 0
    ensures 0 <= ColumnTotal(m, BlueBand, c, y) <= 255 * y
  {
    if y > 0 {
      GreyColumnTotal(m, c, y - 1);
      GreySampleChannels(m[c][y - 1]);
    }
  }

  lemma {:induction false} GreyBlockTotal(m: Matrix, x: nat, n: nat)
    requires Spans(m, n) && x <= n
    requires forall c, r :: 0 <= c < n && 0 <= r < |m[c]| ==> 0 <= m[c][r] < 0x100
    ensures BlockTotal(m, RedBand, x, n) == 0 && BlockTotal(m, GreenBand, x, n) == 0
    ensures 0 <= BlockTotal(m, BlueBand, x, n) <= 255 * n * x
  {
    if x > 0 {
      GreyBlockTotal(m, x - 1, n);
      GreyColumnTotal(m, x - 1, n);
      assert 255 * n * (x - 1) + 255 * n == 255 * n * x;
    }
  }

  /**
   * For a matrix of grey samples the red and green means are 0 and the blue mean
   * is the integer mean sample, between 0 and 255.
   */
  lemma GreyChannelMeans(m: Matrix)
    requires |m| > 0 && Spans(m, |m|)
    requires forall c, r :: 0 <= c < |m| && 0 <= r < |m[c]| ==> 0 <= m[c][r] < 0x100
    ensures ChannelMean(m, RedBand) == 0 && ChannelMean(m, GreenBand) == 0
    ensures 0 <= ChannelMean(m, BlueBand) <= 255
  {
    var n := |m|;
    GreyBlockTotal(m, n, n);
    assert 255 * n * n == 255 * (n * n);
    DivideBelow(BlockTotal(m, BlueBand, n, n), n * n, 255);
  }

  lemma DivideBelow(total: int, d: int, bound: int)
    requires 0 < d && 0 <= bound && 0 <= total <= bound * d
    ensures 0 <= total / d <= bound
  {
  }

  /** The three accumulation loops of `getColorMean`. */
  method GetColorMean(p: Platform, pixelMatrix: Matrix) returns (mean: int)
    requires |pixelMatrix| > 0 && Spans(pixelMatrix, |pixelMatrix|)
    ensures mean == ColorMean(p, pixelMatrix)
  {
    var n := |pixelMatrix|;
    var totalRed, totalGreen, totalBlue := 0, 0, 0;
    var pixels := n * n;
    var x := 0;
    while x < n
      invariant 0 <= x <= n
      invariant totalRed == BlockTotal(pixelMatrix, RedBand, x, n)
      invariant totalGreen == BlockTotal(pixelMatrix, GreenBand, x, n)
      invariant totalBlue == BlockTotal(pixelMatrix, BlueBand, x, n)
    {
      var y := 0;
      while y < n
        invariant 0 <= y <= n
        invariant totalRed == BlockTotal(pixelMatrix, RedBand, x, n) + ColumnTotal(pixelMatrix, RedBand, x, y)
        invariant totalGreen == BlockTotal(pixelMatrix, GreenBand, x, n) + ColumnTotal(pixelMatrix, GreenBand, x, y)
        invariant totalBlue == BlockTotal(pixelMatrix, BlueBand, x, n) + ColumnTotal(pixelMatrix, BlueBand, x, y)
      {
        var pixel := pixelMatrix[x][y];
        totalRed := totalRed + Red(pixel);
        totalGreen := totalGreen + Green(pixel);
        totalBlue := totalBlue + Blue(pixel);
        y := y + 1;
      }
      x := x + 1;
    }
    mean := p.packColor(totalRed / pixels, totalGreen / pixels, totalBlue / pixels);
  }

  /** `getColorContraction`: three quarters of the packed-mean difference destination minus source. */
  function ColorContraction(p: Platform, a: Matrix, b: Matrix): real
    requires |a| > 0 && Spans(a, |a|) && |b| > 0 && Spans(b, |b|)
  {
    0.75 * (ColorMean(p, b) - ColorMean(p, a)) as real
  }

  /** A fragment needs no colour shift onto itself, and the shift changes sign with the direction. */
  lemma ColorContractionProperties(p: Platform, a: Matrix, b: Matrix)
    requires |a| > 0 && Spans(a, |a|) && |b| > 0 && Spans(b, |b|)
    ensures ColorContraction(p, a, a) == 0.0
    ensures ColorContraction(p, a, b) == -ColorContraction(p, b, a)
  {
  }

  method GetColorContraction(p: Platform, pixelMatrixA: Matrix, pixelMatrixB: Matrix) returns (contraction: real)
    requires |pixelMatrixA| > 0 && Spans(pixelMatrixA, |pixelMatrixA|)
    requires |pixelMatrixB| > 0 && Spans(pixelMatrixB, |pixelMatrixB|)
    ensures contraction == ColorContraction(p, pixelMatrixA, pixelMatrixB)
  {
    var meanB := GetColorMean(p, pixelMatrixB);
    var meanA := GetColorMean(p, pixelMatrixA);
    contraction := 0.75 * (meanB - meanA) as real;
  }

  // ---------------------------------------------------------------------------
  // Search order and first minimum
  // ---------------------------------------------------------------------------

  /** The order in which the transformations are entered into the cost map. */
  const Transforms: seq<Transform> := [Identity, HFlip, VFlip, R90, R180, R270, ReflYNX, ReflYX]

  function TransformIndex(t: Transform): (n: nat)
    ensures n < |Transforms| && Transforms[n] == t
  {
    match t
    case Identity => 0
    case HFlip => 1
    case VFlip => 2
    case R90 => 3
    case R180 => 4
    case R270 => 5
    case ReflYNX => 6
    case ReflYX => 7
  }

  /** Identity for the untransformed fragment; otherwise the platform's transformation. */
  function Transformed(p: Platform, t: Transform, m: Matrix): (r: Matrix)
    requires ValidPlatform(p) && IsSquare(m)
    ensures IsSquare(r) && |r| == |m|
  {
    if t == Identity then m else p.transform(t, m)
  }

  /** `m` is the first position of a minimum of `s`. */
  predicate IsFirstMinimum(s: seq<real>, m: int) {
    && 0 <= m < |s|
    && (forall n :: 0 <= n < |s| ==> s[m] <= s[n])
    && (forall n :: 0 <= n < m ==> s[m] < s[n])
  }

  /**
   * The scan `if (best == null || best.getValue() > entry.getValue()) best = entry`
   * over `s` in order: the current best is replaced only by a strictly lower value.
   */
  function ArgMin(s: seq<real>): (m: nat)
    requires |s| > 0
    ensures IsFirstMinimum(s, m)
  {
    if |s| == 1 then 0
    else
      var m := ArgMin(s[..|s| - 1]);
      if s[m] > s[|s| - 1] then |s| - 1 else m
  }

  /**
   * Position of grid coordinate `o` in row-major order (row 0 left to right,
   * then row 1, ...), the insertion order of the source's linked hash maps.
   */
  function Rank(k: int, o: Origin): int {
    o.x * k + o.y
  }

  /**
   * (x, y) is a point of the row-major scan of a k x k grid: a coordinate of the
   * grid, or (k, 0), the point after the last coordinate.
   */
  predicate ScanPoint(k: int, x: int, y: int) {
    0 <= y <= k && (0 <= x < k || (x == k && y == 0))
  }

  /** The grid coordinates scanned before (x, y), in row-major order. */
  function ScanOrigins(k: int, x: nat, y: nat): seq<Origin>
    requires ScanPoint(k, x, y)
    decreases x, y
  {
    if y > 0 then ScanOrigins(k, x, y - 1) + [Origin(x, y - 1)]
    else if x > 0 then ScanOrigins(k, x - 1, k)
    else []
  }

  /** The scan visits `x * k + y` coordinates, the one of rank `n` in position `n`. */
  lemma {:induction false} ScanOriginsShape(k: int, x: nat, y: nat)
    requires ScanPoint(k, x, y)
    ensures var os := ScanOrigins(k, x, y);
      && |os| == x * k + y
      && forall n :: 0 <= n < |os| ==> InGrid(k, os[n].x, os[n].y) && Rank(k, os[n]) == n
    decreases x, y
  {
    if y > 0 {
      ScanOriginsShape(k, x, y - 1);
    } else if x > 0 {
      ScanOriginsShape(k, x - 1, k);
      assert (x - 1) * k + k == x * k;
    }
  }

  /** Row-major order is lexicographic order on (row, column), so ranks of grid coordinates are distinct. */
  lemma RankOrder(k: int, a: Origin, b: Origin)
    requires InGrid(k, a.x, a.y) && InGrid(k, b.x, b.y)
    ensures Rank(k, a) < Rank(k, b) <==> a.x < b.x || (a.x == b.x && a.y < b.y)
    ensures Rank(k, a) == Rank(k, b) <==> a == b
  {
    if a.x < b.x {
      RankRowBelow(k, a.x, b.x);
    } else if b.x < a.x {
      RankRowBelow(k, b.x, a.x);
    }
  }

  lemma RankRowBelow(k: int, x: int, x': int)
    requires 0 <= x < x' && 0 <= k
    ensures x * k + k <= x' * k
  {
    ProductMonotone(k, x + 1, x');
    assert k * (x + 1) == x * k + k;
  }

  /** The ranks of the coordinates scanned before (x, y) are exactly `[0, x * k + y)`, within `[0, k * k]`. */
  lemma RankBounds(k: int, a: Origin, x: int, y: int)
    requires ScanPoint(k, x, y) && InGrid(k, a.x, a.y)
    ensures 0 <= Rank(k, a) < k * k
    ensures 0 <= x * k + y <= k * k
    ensures Rank(k, a) < x * k + y <==> a.x < x || (a.x == x && a.y < y)
  {
    RankRowBelow(k, a.x, k);
    if x < k {
      RankRowBelow(k, x, k);
    }
    if a.x < x {
      RankRowBelow(k, a.x, x);
    } else if x < a.x {
      RankRowBelow(k, x, a.x);
    }
  }

  /** The values of `f` at the grid coordinates scanned before (x, y) in row-major order. */
  function ScanSet<T>(f: Origin -> T, k: int, x: nat, y: nat): set<T>
    requires ScanPoint(k, x, y)
    decreases x, y
  {
    if y > 0 then ScanSet(f, k, x, y - 1) + {f(Origin(x, y - 1))}
    else if x > 0 then ScanSet(f, k, x - 1, k)
    else {}
  }

  /** Coordinate `a` comes before (x, y) in row-major order. */
  predicate ScannedBefore(a: Origin, x: int, y: int) {
    a.x < x || (a.x == x && a.y < y)
  }

  /** The scan up to (x, y) holds exactly the values at the grid coordinates before (x, y). */
  lemma {:induction false} ScanSetMembers<T>(f: Origin -> T, k: int, x: nat, y: nat)
    requires ScanPoint(k, x, y)
    ensures forall c :: c in ScanSet(f, k, x, y) ==>
      exists a: Origin :: InGrid(k, a.x, a.y) && ScannedBefore(a, x, y) && c == f(a)
    ensures forall a: Origin :: InGrid(k, a.x, a.y) && ScannedBefore(a, x, y) ==> f(a) in ScanSet(f, k, x, y)
    decreases x, y
  {
    if y > 0 {
      ScanSetMembers(f, k, x, y - 1);
      var o := Origin(x, y - 1);
      assert ScanSet(f, k, x, y) == ScanSet(f, k, x, y - 1) + {f(o)};
      forall c | c in ScanSet(f, k, x, y)
        ensures exists a: Origin :: InGrid(k, a.x, a.y) && ScannedBefore(a, x, y) && c == f(a)
      {
        if c == f(o) {
          assert InGrid(k, o.x, o.y) && ScannedBefore(o, x, y) && c == f(o);
        } else {
          assert c in ScanSet(f, k, x, y - 1);
          var a: Origin :| InGrid(k, a.x, a.y) && ScannedBefore(a, x, y - 1) && c == f(a);
          assert ScannedBefore(a, x, y);
        }
      }
      forall a: Origin | InGrid(k, a.x, a.y) && ScannedBefore(a, x, y)
        ensures f(a) in ScanSet(f, k, x, y)
      {
        if a != o {
          assert ScannedBefore(a, x, y - 1);
        }
      }
    } else if x > 0 {
      ScanSetMembers(f, k, x - 1, k);
      assert ScanSet(f, k, x, y) == ScanSet(f, k, x - 1, k);
      forall c | c in ScanSet(f, k, x, y)
        ensures exists a: Origin :: InGrid(k, a.x, a.y) && ScannedBefore(a, x, y) && c == f(a)
      {
        var a: Origin :| InGrid(k, a.x, a.y) && ScannedBefore(a, x - 1, k) && c == f(a);
        assert ScannedBefore(a, x, y);
      }
      forall a: Origin | InGrid(k, a.x, a.y) && ScannedBefore(a, x, y)
        ensures f(a) in ScanSet(f, k, x, y)
      {
        assert ScannedBefore(a, x - 1, k);
      }
    }
  }

  /** When `f` tells grid coordinates apart, the scan up to (x, y) has `x * k + y` values. */
  lemma {:induction false} ScanSetSize<T>(f: Origin -> T, k: int, x: nat, y: nat)
    requires ScanPoint(k, x, y)
    requires forall a: Origin, b: Origin :: InGrid(k, a.x, a.y) && InGrid(k, b.x, b.y) && f(a) == f(b) ==> a == b
    ensures |ScanSet(f, k, x, y)| == x * k + y
    decreases x, y
  {
    if y > 0 {
      ScanSetSize(f, k, x, y - 1);
      NotYetScanned(f, k, x, y - 1);
    } else if x > 0 {
      ScanSetSize(f, k, x - 1, k);
      assert (x - 1) * k + k == x * k;
    }
  }

  /** When `f` tells grid coordinates apart, the value at (x, y) is not among those scanned before it. */
  lemma NotYetScanned<T>(f: Origin -> T, k: int, x: nat, y: nat)
    requires InGrid(k, x, y)
    requires forall a: Origin, b: Origin :: InGrid(k, a.x, a.y) && InGrid(k, b.x, b.y) && f(a) == f(b) ==> a == b
    ensures f(Origin(x, y)) !in ScanSet(f, k, x, y)
  {
    ScanSetMembers(f, k, x, y);
    var o := Origin(x, y);
    forall a: Origin | InGrid(k, a.x, a.y) && ScannedBefore(a, x, y)
      ensures f(a) != f(o)
    {
      assert a != o;
    }
  }

  // ---------------------------------------------------------------------------
  // The encoder
  // ---------------------------------------------------------------------------

  /** The best transformation found for one (source fragment, destination fragment) pair. */
  datatype Match = Match(origin: Origin, transform: Transform, cost: real)

  /** The fragments of `img` at level `k` are square, of at least one pixel. */
  predicate SquareFragments(img: Matrix, k: int) {
    ValidLevel(img, k) && FragmentWidth(img, k) == FragmentHeight(img, k)
  }

  function FragmentSize(img: Matrix, k: int): nat
    requires SquareFragments(img, k)
  {
    FragmentWidth(img, k)
  }

  /** One `new FractalsCommand(source, destination, abstractionLevel)`; its fields are never reassigned. */
  datatype FractalsCommand = FractalsCommand(source: Matrix, destination: Matrix, abstractionLevel: int) {

    /**
     * The inputs on which `execute` returns normally. Source fragments are
     * square: the 90-degree rotation swaps the sides of any other fragment, and
     * the photometric scan then indexes past the end of a column. A destination
     * fragment of width w and height h must satisfy s <= w <= h for source
     * fragments of side s: the photometric scan reads its first s columns up to
     * row s, and `getColorMean` reads its first w columns up to row w.
     */
    predicate Valid() {
      && SquareFragments(source, abstractionLevel)
      && ValidLevel(destination, abstractionLevel)
      && FragmentSize(source, abstractionLevel) <= FragmentWidth(destination, abstractionLevel)
      && FragmentWidth(destination, abstractionLevel) <= FragmentHeight(destination, abstractionLevel)
    }

    /**
     * A destination fragment taller than it is wide is accepted: with k = 1, a
     * 2 x 2 source and a destination 2 columns wide and 3 rows tall.
     */
    static lemma TallDestinationAccepted()
      ensures FractalsCommand([[0, 0], [0, 0]], [[0, 0, 0], [0, 0, 0]], 1).Valid()
      ensures FragmentWidth([[0, 0, 0], [0, 0, 0]], 1) < FragmentHeight([[0, 0, 0], [0, 0, 0]], 1)
    {
    }

    /**
     * The correspondence of source fragment (x, y) under `t` with destination
     * fragment (i, j).
     */
    function CandidateCost(p: Platform, i: int, j: int, x: int, y: int, t: Transform): real
      requires ValidPlatform(p) && Valid()
      requires InGrid(abstractionLevel, i, j) && InGrid(abstractionLevel, x, y)
    {
      var k := abstractionLevel;
      Correspondence(p, Transformed(p, t, Fragment(source, k, x, y)), Fragment(destination, k, i, j),
                     Origin(x, y), Origin(i, j))
    }

    /** The eight costs of source fragment (x, y), in transformation order. */
    function TransformCosts(p: Platform, i: int, j: int, x: int, y: int): (costs: seq<real>)
      requires ValidPlatform(p) && Valid()
      requires InGrid(abstractionLevel, i, j) && InGrid(abstractionLevel, x, y)
      ensures |costs| == |Transforms|
    {
      seq(|Transforms|, n requires 0 <= n < |Transforms| => CandidateCost(p, i, j, x, y, Transforms[n]))
    }

    /** The first cheapest transformation of source fragment (x, y). */
    function FragmentMatch(p: Platform, i: int, j: int, o: Origin): (m: Match)
      requires ValidPlatform(p) && Valid()
      requires InGrid(abstractionLevel, i, j) && InGrid(abstractionLevel, o.x, o.y)
    {
      var costs := TransformCosts(p, i, j, o.x, o.y);
      var t := ArgMin(costs);
      Match(o, Transforms[t], costs[t])
    }

    /**
     * The match of a source fragment is its cheapest candidate, and among equally
     * cheap candidates the one whose transformation comes first.
     */
    lemma FragmentMatchIsFirstMinimum(p: Platform, i: int, j: int, o: Origin)
      requires ValidPlatform(p) && Valid()
      requires InGrid(abstractionLevel, i, j) && InGrid(abstractionLevel, o.x, o.y)
      ensures var m := FragmentMatch(p, i, j, o);
        && m.origin == o
        && m.cost == CandidateCost(p, i, j, o.x, o.y, m.transform)
        && (forall t :: m.cost <= CandidateCost(p, i, j, o.x, o.y, t))
        && (forall t :: TransformIndex(t) < TransformIndex(m.transform) ==> m.cost < CandidateCost(p, i, j, o.x, o.y, t))
    {
      var costs := TransformCosts(p, i, j, o.x, o.y);
      var n := ArgMin(costs);
      assert TransformIndex(Transforms[n]) == n;
      forall t
        ensures costs[n] <= CandidateCost(p, i, j, o.x, o.y, t)
        ensures TransformIndex(t) < n ==> costs[n] < CandidateCost(p, i, j, o.x, o.y, t)
      {
        assert costs[TransformIndex(t)] == CandidateCost(p, i, j, o.x, o.y, t);
      }
    }

    /**
     * The matches of the source fragments scanned before (x, y) in row-major
     * order, for destination fragment (i, j).
     */
    function MatchesBefore(p: Platform, i: int, j: int, x: nat, y: nat): seq<Match>
      requires ValidPlatform(p) && Valid() && InGrid(abstractionLevel, i, j)
      requires ScanPoint(abstractionLevel, x, y)
    {
      var os := ScanOrigins(abstractionLevel, x, y);
      ScanOriginsShape(abstractionLevel, x, y);
      seq(|os|, n requires 0 <= n < |os| => FragmentMatch(p, i, j, os[n]))
    }

    /** Entry `n` of the scanned matches is the match of the fragment of rank `n`. */
    lemma MatchesBeforeShape(p: Platform, i: int, j: int, x: nat, y: nat)
      requires ValidPlatform(p) && Valid() && InGrid(abstractionLevel, i, j)
      requires ScanPoint(abstractionLevel, x, y)
      ensures var ms := MatchesBefore(p, i, j, x, y);
        && |ms| == x * abstractionLevel + y
        && forall n :: 0 <= n < |ms| ==>
             && InGrid(abstractionLevel, ms[n].origin.x, ms[n].origin.y)
             && Rank(abstractionLevel, ms[n].origin) == n
             && ms[n] == FragmentMatch(p, i, j, ms[n].origin)
    {
      var os := ScanOrigins(abstractionLevel, x, y);
      ScanOriginsShape(abstractionLevel, x, y);
      var ms := MatchesBefore(p, i, j, x, y);
      forall n | 0 <= n < |ms|
        ensures ms[n].origin == os[n]
      {
        assert ms[n] == FragmentMatch(p, i, j, os[n]);
      }
    }

    /** Scanning one more source fragment appends its match. */
    lemma MatchesBeforeNext(p: Platform, i: int, j: int, x: nat, y: nat)
      requires ValidPlatform(p) && Valid() && InGrid(abstractionLevel, i, j)
      requires InGrid(abstractionLevel, x, y)
      ensures MatchesBefore(p, i, j, x, y + 1) == MatchesBefore(p, i, j, x, y) + [FragmentMatch(p, i, j, Origin(x, y))]
    {
      ScanOriginsShape(abstractionLevel, x, y);
      ScanOriginsShape(abstractionLevel, x, y + 1);
    }

    /** The end of one row of the scan is the start of the next. */
    lemma MatchesBeforeRow(p: Platform, i: int, j: int, x: nat)
      requires ValidPlatform(p) && Valid() && InGrid(abstractionLevel, i, j)
      requires x < abstractionLevel
      ensures MatchesBefore(p, i, j, x + 1, 0) == MatchesBefore(p, i, j, x, abstractionLevel)
    {
    }

    /** The matches of all source fragments for destination fragment (i, j), in row-major order. */
    function Matches(p: Platform, i: int, j: int): seq<Match>
      requires ValidPlatform(p) && Valid() && InGrid(abstractionLevel, i, j)
    {
      MatchesBefore(p, i, j, abstractionLevel, 0)
    }

    /** The first cheapest source fragment for destination fragment (i, j). */
    function BestMatch(p: Platform, i: int, j: int): (m: Match)
      requires ValidPlatform(p) && Valid() && InGrid(abstractionLevel, i, j)
      ensures InGrid(abstractionLevel, m.origin.x, m.origin.y)
    {
      var ms := Matches(p, i, j);
      MatchesBeforeShape(p, i, j, abstractionLevel, 0);
      assert |ms| > 0 by {
        assert abstractionLevel * abstractionLevel > 0;
      }
      ms[ArgMin(Costs(ms))]
    }

    /**
     * The chosen match is a candidate (its cost is that of its own fragment and
     * transformation), and no candidate of any source fragment under any
     * transformation is cheaper.
     */
    lemma BestMatchIsMinimal(p: Platform, i: int, j: int)
      requires ValidPlatform(p) && Valid() && InGrid(abstractionLevel, i, j)
      ensures var m := BestMatch(p, i, j);
        && m == FragmentMatch(p, i, j, m.origin)
        && m.cost == CandidateCost(p, i, j, m.origin.x, m.origin.y, m.transform)
        && forall x, y, t :: InGrid(abstractionLevel, x, y) ==> m.cost <= CandidateCost(p, i, j, x, y, t)
    {
      var k := abstractionLevel;
      var ms := Matches(p, i, j);
      MatchesBeforeShape(p, i, j, k, 0);
      var cs := Costs(ms);
      var b := ArgMin(cs);
      var m := ms[b];
      FragmentMatchIsFirstMinimum(p, i, j, m.origin);
      forall x, y, t | InGrid(k, x, y)
        ensures m.cost <= CandidateCost(p, i, j, x, y, t)
      {
        var o := Origin(x, y);
        var n := Rank(k, o);
        RankBounds(k, o, k, 0);
        RankOrder(k, ms[n].origin, o);
        FragmentMatchIsFirstMinimum(p, i, j, o);
        assert cs[b] <= cs[n];
      }
    }

    /**
     * Ties are broken as the source's scans break them: every candidate of a
     * source fragment scanned earlier is strictly more expensive, and so is every
     * candidate of the chosen fragment under an earlier transformation.
     */
    lemma BestMatchIsFirst(p: Platform, i: int, j: int)
      requires ValidPlatform(p) && Valid() && InGrid(abstractionLevel, i, j)
      ensures var m := BestMatch(p, i, j);
        && (forall x, y, t :: InGrid(abstractionLevel, x, y) && Rank(abstractionLevel, Origin(x, y)) < Rank(abstractionLevel, m.origin) ==>
              m.cost < CandidateCost(p, i, j, x, y, t))
        && (forall t :: TransformIndex(t) < TransformIndex(m.transform) ==>
              m.cost < CandidateCost(p, i, j, m.origin.x, m.origin.y, t))
    {
      var k := abstractionLevel;
      var ms := Matches(p, i, j);
      MatchesBeforeShape(p, i, j, k, 0);
      var cs := Costs(ms);
      var b := ArgMin(cs);
      var m := ms[b];
      FragmentMatchIsFirstMinimum(p, i, j, m.origin);
      forall x, y, t | InGrid(k, x, y) && Rank(k, Origin(x, y)) < Rank(k, m.origin)
        ensures m.cost < CandidateCost(p, i, j, x, y, t)
      {
        var o := Origin(x, y);
        var n := Rank(k, o);
        RankBounds(k, o, k, 0);
        RankOrder(k, ms[n].origin, o);
        FragmentMatchIsFirstMinimum(p, i, j, o);
        assert cs[b] < cs[n];
      }
    }

    /** The fractal code built for destination fragment (i, j). */
    function CodeAt(p: Platform, i: int, j: int): FractalCode
      requires ValidPlatform(p) && Valid() && InGrid(abstractionLevel, i, j)
    {
      var k := abstractionLevel;
      var m := BestMatch(p, i, j);
      FractalCode(
        Some(m.origin),
        Some(Origin(i, j)),
        Some(m.transform),
        Some(FragmentHeight(destination, k)),
        Some(ColorContraction(p, Fragment(source, k, m.origin.x, m.origin.y), Fragment(destination, k, i, j))))
    }

    /** The code of every grid coordinate; outside the grid it is never used. */
    function Codes(p: Platform): Origin -> FractalCode
      requires ValidPlatform(p) && Valid()
    {
      (o: Origin) => if InGrid(abstractionLevel, o.x, o.y) then CodeAt(p, o.x, o.y) else Unset
    }

    /** What `execute` returns: the set of the codes of all destination fragments. */
    function Encode(p: Platform): set<FractalCode>
      requires ValidPlatform(p) && Valid()
    {
      ScanSet(Codes(p), abstractionLevel, abstractionLevel, 0)
    }

    lemma CodesAt(p: Platform, i: int, j: int)
      requires ValidPlatform(p) && Valid() && InGrid(abstractionLevel, i, j)
      ensures Codes(p)(Origin(i, j)) == CodeAt(p, i, j)
    {
    }

    /** Codes of distinct destination fragments differ (in their destination field). */
    lemma CodesInjective(p: Platform)
      requires ValidPlatform(p) && Valid()
      ensures forall a: Origin, b: Origin ::
        InGrid(abstractionLevel, a.x, a.y) && InGrid(abstractionLevel, b.x, b.y) && Codes(p)(a) == Codes(p)(b) ==> a == b
    {
      forall a: Origin, b: Origin | InGrid(abstractionLevel, a.x, a.y) && InGrid(abstractionLevel, b.x, b.y) && Codes(p)(a) == Codes(p)(b)
        ensures a == b
      {
        assert Codes(p)(a).destination == Some(a);
      }
    }

    /** The encoding holds exactly one code per destination fragment: k * k codes. */
    lemma EncodeCardinality(p: Platform)
      requires ValidPlatform(p) && Valid()
      ensures |Encode(p)| == abstractionLevel * abstractionLevel
    {
      CodesInjective(p);
      ScanSetSize(Codes(p), abstractionLevel, abstractionLevel, 0);
    }

    /**
     * Each code of the encoding is the code of its own destination fragment, and
     * every destination fragment's code is in the encoding.
     */
    lemma EncodeMembers(p: Platform)
      requires ValidPlatform(p) && Valid()
      ensures forall c :: c in Encode(p) ==>
        && c.destination.Some?
        && InGrid(abstractionLevel, c.destination.value.x, c.destination.value.y)
        && c == CodeAt(p, c.destination.value.x, c.destination.value.y)
      ensures forall i, j :: InGrid(abstractionLevel, i, j) ==> CodeAt(p, i, j) in Encode(p)
    {
      var k := abstractionLevel;
      var f := Codes(p);
      ScanSetMembers(f, k, k, 0);
      forall c | c in Encode(p)
        ensures c.destination.Some? && InGrid(k, c.destination.value.x, c.destination.value.y)
        ensures c == CodeAt(p, c.destination.value.x, c.destination.value.y)
      {
        var a: Origin :| InGrid(k, a.x, a.y) && ScannedBefore(a, k, 0) && c == f(a);
        CodesAt(p, a.x, a.y);
      }
      forall i, j | InGrid(k, i, j)
        ensures CodeAt(p, i, j) in Encode(p)
      {
        CodesAt(p, i, j);
        assert ScannedBefore(Origin(i, j), k, 0);
      }
    }

    /**
     * Every code of the encoding names both a source and a destination origin,
     * and destination fragment (0, 0) always has a code.
     */
    lemma EncodeOrigins(p: Platform)
      requires ValidPlatform(p) && Valid()
      ensures forall c :: c in Encode(p) ==> c.source.Some? && c.destination.Some?
      ensures exists c :: c in Encode(p) && c.destination == Some(Origin(0, 0))
    {
      EncodeMembers(p);
      forall c | c in Encode(p)
        ensures c.source.Some? && c.destination.Some?
      {
        var d := c.destination.value;
        CodeFields(p, d.x, d.y);
      }
      CodeFields(p, 0, 0);
      assert CodeAt(p, 0, 0) in Encode(p);
    }

    /**
     * Every field of a code is set; its source is the chosen fragment, cheapest
     * over every fragment and transformation; its region size is the destination
     * fragment height; its contraction compares the untransformed source fragment
     * with the destination fragment.
     */
    lemma CodeFields(p: Platform, i: int, j: int)
      requires ValidPlatform(p) && Valid() && InGrid(abstractionLevel, i, j)
      ensures var c := CodeAt(p, i, j); var k := abstractionLevel;
        && c.source.Some? && c.destination == Some(Origin(i, j)) && c.transform.Some?
        && InGrid(k, c.source.value.x, c.source.value.y)
        && c.regionSize == Some(FragmentHeight(destination, k))
        && (forall x, y, t :: InGrid(k, x, y) ==>
              CandidateCost(p, i, j, c.source.value.x, c.source.value.y, c.transform.value) <= CandidateCost(p, i, j, x, y, t))
        && c.contraction == Some(ColorContraction(p, Fragment(source, k, c.source.value.x, c.source.value.y), Fragment(destination, k, i, j)))
    {
      BestMatchIsMinimal(p, i, j);
    }

    lemma CandidateCostNonNegative(p: Platform, i: int, j: int, x: int, y: int, t: Transform)
      requires ValidPlatform(p) && Valid()
      requires InGrid(abstractionLevel, i, j) && InGrid(abstractionLevel, x, y)
      ensures 0.0 <= CandidateCost(p, i, j, x, y, t)
      ensures CandidateCost(p, i, j, x, y, t) == 0.0 ==> x == i && y == j
    {
      DistanceProperties(p, Origin(x, y), Origin(i, j));
    }

    /**
     * A destination fragment equal, sample for sample, to the source fragment
     * at the same grid position is mapped onto that fragment with the identity
     * transformation and no colour shift; in particular when an image is
     * encoded against itself.
     */
    lemma SelfEncodingIsIdentity(p: Platform, i: int, j: int)
      requires ValidPlatform(p) && Valid() && InGrid(abstractionLevel, i, j)
      requires Fragment(source, abstractionLevel, i, j) == Fragment(destination, abstractionLevel, i, j)
      ensures CodeAt(p, i, j) == FractalCode(Some(Origin(i, j)), Some(Origin(i, j)), Some(Identity),
                                             Some(FragmentHeight(destination, abstractionLevel)), Some(0.0))
    {
      var k := abstractionLevel;
      var m := BestMatch(p, i, j);
      BestMatchIsMinimal(p, i, j);
      PhotometricSelf(Fragment(source, k, i, j));
      DistanceProperties(p, Origin(i, j), Origin(i, j));
      assert CandidateCost(p, i, j, i, j, Identity) == 0.0;
      CandidateCostNonNegative(p, i, j, m.origin.x, m.origin.y, m.transform);
      assert m.origin == Origin(i, j);
      FragmentMatchIsFirstMinimum(p, i, j, m.origin);
      assert m.transform == Identity;
      ColorContractionProperties(p, Fragment(source, k, i, j), Fragment(destination, k, i, j));
    }

    /**
     * `execute`: partition both images, then for every destination fragment try
     * every source fragment under every transformation, keep the first
     * cheapest, and add one code per destination fragment to the result.
     */
    method Execute(p: Platform) returns (fractals: set<FractalCode>)
      requires ValidPlatform(p) && Valid()
      ensures fractals == Encode(p)
    {
      var k := abstractionLevel;
      var sourceFragments := PartitionImage(source, k);
      var destinationFragments := PartitionImage(destination, k);
      fractals := {};
      var i := 0;
      while i < k
        invariant 0 <= i <= k
        invariant fractals == ScanSet(Codes(p), k, i, 0)
        invariant Partitioned(sourceFragments, source, k) && Partitioned(destinationFragments, destination, k)
      {
        fractals := EncodeRow(p, sourceFragments, destinationFragments, i, fractals);
        i := i + 1;
      }
    }

    /** One pass of the outer loop of `execute`: the codes of destination row `i`, added in order. */
    method EncodeRow(p: Platform, sourceFragments: array2<Matrix>, destinationFragments: array2<Matrix>, i: int,
                     before: set<FractalCode>)
      returns (fractals: set<FractalCode>)
      requires ValidPlatform(p) && Valid() && 0 <= i < abstractionLevel
      requires Partitioned(sourceFragments, source, abstractionLevel)
      requires Partitioned(destinationFragments, destination, abstractionLevel)
      requires before == ScanSet(Codes(p), abstractionLevel, i, 0)
      ensures fractals == ScanSet(Codes(p), abstractionLevel, i + 1, 0)
    {
      var k := abstractionLevel;
      fractals := before;
      var j := 0;
      while j < k
        invariant 0 <= j <= k
        invariant fractals == ScanSet(Codes(p), k, i, j)
      {
        var fractal := MatchDestination(p, sourceFragments, destinationFragments[i, j], i, j);
        CodesAt(p, i, j);
        fractals := fractals + {fractal};
        j := j + 1;
      }
    }

    /**
     * The body of `execute` for destination fragment (i, j): the per-fragment
     * matches in row-major order, the first cheapest of them, and the code
     * built from it.
     */
    method MatchDestination(p: Platform, sourceFragments: array2<Matrix>, destinationFragment: Matrix, i: int, j: int)
      returns (fractal: FractalCode)
      requires ValidPlatform(p) && Valid() && InGrid(abstractionLevel, i, j)
      requires Partitioned(sourceFragments, source, abstractionLevel)
      requires destinationFragment == Fragment(destination, abstractionLevel, i, j)
      ensures fractal == CodeAt(p, i, j)
    {
      var k := abstractionLevel;
      var matches := ScanMatches(p, sourceFragments, destinationFragment, i, j);
      MatchesBeforeShape(p, i, j, k, 0);
      assert |matches| > 0 by {
        assert k * k > 0;
      }
      var corresponding := FirstMinimum(Costs(matches));
      var best := matches[corresponding];
      assert best == BestMatch(p, i, j);
      var contraction := GetColorContraction(p, sourceFragments[best.origin.x, best.origin.y], destinationFragment);
      fractal := FractalCode(Some(best.origin), Some(Origin(i, j)), Some(best.transform),
                             Some(FragmentHeight(destination, k)), Some(contraction));
    }

    /** The two loops over the source fragments, for destination fragment (i, j). */
    method ScanMatches(p: Platform, sourceFragments: array2<Matrix>, destinationFragment: Matrix, i: int, j: int)
      returns (matches: seq<Match>)
      requires ValidPlatform(p) && Valid() && InGrid(abstractionLevel, i, j)
      requires Partitioned(sourceFragments, source, abstractionLevel)
      requires destinationFragment == Fragment(destination, abstractionLevel, i, j)
      ensures matches == Matches(p, i, j)
    {
      var k := abstractionLevel;
      matches := [];
      var x := 0;
      while x < k
        invariant 0 <= x <= k
        invariant matches == MatchesBefore(p, i, j, x, 0)
      {
        var y := 0;
        while y < k
          invariant 0 <= y <= k
          invariant matches == MatchesBefore(p, i, j, x, y)
        {
          var m := MatchTransforms(p, sourceFragments[x, y], destinationFragment, i, j, x, y);
          MatchesBeforeNext(p, i, j, x, y);
          matches := matches + [m];
          y := y + 1;
        }
        MatchesBeforeRow(p, i, j, x);
        x := x + 1;
      }
    }

    /**
     * The innermost body of `execute`: the eight correspondences of one source
     * fragment with the destination fragment, then the first minimum of them.
     */
    method MatchTransforms(p: Platform, sourceFragment: Matrix, destinationFragment: Matrix, i: int, j: int, x: int, y: int)
      returns (m: Match)
      requires ValidPlatform(p) && Valid()
      requires InGrid(abstractionLevel, i, j) && InGrid(abstractionLevel, x, y)
      requires sourceFragment == Fragment(source, abstractionLevel, x, y)
      requires destinationFragment == Fragment(destination, abstractionLevel, i, j)
      ensures m == FragmentMatch(p, i, j, Origin(x, y))
    {
      ghost var expected := TransformCosts(p, i, j, x, y);
      var correspondences: seq<real> := [];
      var n := 0;
      while n < |Transforms|
        invariant 0 <= n <= |Transforms|
        invariant correspondences == expected[..n]
      {
        var transformed := Transformed(p, Transforms[n], sourceFragment);
        var photometric := PhotometricCorrespondence(transformed, destinationFragment);
        correspondences := correspondences + [1.0 * photometric + 0.1 * Distance(p, Origin(x, y), Origin(i, j))];
        n := n + 1;
      }
      assert correspondences == expected;
      var minimum := FirstMinimum(correspondences);
      m := Match(Origin(x, y), Transforms[minimum], correspondences[minimum]);
    }
  }

  /** The costs of a sequence of matches. */
  function Costs(ms: seq<Match>): seq<real> {
    seq(|ms|, n requires 0 <= n < |ms| => ms[n].cost)
  }

  /**
   * The minimum-entry scan of `execute` over a linked hash map's values in
   * insertion order: the current entry is replaced only when it is strictly
   * larger than the next one.
   */
  method FirstMinimum(s: seq<real>) returns (m: nat)
    requires |s| > 0
    ensures m == ArgMin(s)
  {
    var best: Option<nat> := None;
    var n := 0;
    while n < |s|
      invariant 0 <= n <= |s|
      invariant n == 0 <==> best.None?
      invariant best.Some? ==> best.value == ArgMin(s[..n])
    {
      if best.None? || s[best.value] > s[n] {
        best := Some(n);
      }
      assert s[..n + 1][..n] == s[..n];
      n := n + 1;
    }
    assert s[..|s|] == s;
    m := best.value;
  }
}
