/**
 * `imageDiff` of src/diff.js: the "shape of the difference" between two
 * decoded screenshots, as a 16-bucket histogram of per-byte differences
 * rendered as a row of bar glyphs.
 */
module ImageDiff {
  import opened Wrappers

  newtype byte = x: int | 0 <= x < 256

  /** A decoded PNG: `width` x `height` RGBA pixels, one byte per channel. */
  datatype Image = Image(width: nat, height: nat, data: seq<byte>)

  /** The decoder always yields `width * height * 4` bytes. */
  type Png = i: Image | |i.data| == i.width * i.height * 4 witness Image(0, 0, [])

  const DimensionsMessage := "images have different dimensions"
  const MismatchPrefix := "mismatched pixel data |"
  const BucketCount := 16

  /** The seven bar heights, lowest first. */
  const Heights: seq<char> := ['\U{2581}', '\U{2582}', '\U{2583}', '\U{2584}', '\U{2585}', '\U{2586}', '\U{2587}']

  function AbsDiff(a: byte, b: byte): nat {
    if a < b then (b - a) as nat else (a - b) as nat
  }

  /** `Math.floor(Math.abs(a - b) / 16)`: a byte difference falls in one of the 16 buckets. */
  function Bucket(a: byte, b: byte): (k: nat)
    ensures k < BucketCount
  {
    AbsDiff(a, b) / 16
  }

  function Zeros(n: nat): (z: seq<nat>)
    ensures |z| == n && forall i :: 0 <= i < n ==> z[i] == 0
  {
    if n == 0 then [] else Zeros(n - 1) + [0]
  }

  /** The histogram after scanning the byte pairs of `x` and `y`. */
  function Histogram(x: seq<byte>, y: seq<byte>): (h: seq<nat>)
    requires |x| == |y|
    ensures |h| == BucketCount
    decreases |x|
  {
    if x == [] then Zeros(BucketCount)
    else
      var n := |x| - 1;
      var h := Histogram(x[..n], y[..n]);
      if x[n] != y[n] then h[Bucket(x[n], y[n]) := h[Bucket(x[n], y[n])] + 1] else h
  }

  /** Number of positions at which `x` and `y` differ. */
  function DiffCount(x: seq<byte>, y: seq<byte>): nat
    requires |x| == |y|
    decreases |x|
  {
    if x == [] then 0
    else DiffCount(x[..|x| - 1], y[..|y| - 1]) + (if x[|x| - 1] != y[|y| - 1] then 1 else 0)
  }

  function Sum(h: seq<nat>): nat {
    if h == [] then 0 else Sum(h[..|h| - 1]) + h[|h| - 1]
  }

  function Pow10(k: nat): (p: nat)
    ensures p >= 1
  {
    if k == 0 then 1 else 10 * Pow10(k - 1)
  }

  /** `Math.floor(Math.log10(n))` for `n >= 1`: one less than the number of decimal digits. */
  function Log10Floor(n: nat): (k: nat)
    requires n >= 1
    ensures Pow10(k) <= n < Pow10(k + 1)
  {
    if n < 10 then 0 else Log10Floor(n / 10) + 1
  }

  /** The glyph of one bucket: a space when empty, else a bar whose height grows with log10 of the count. */
  function Glyph(count: nat): char {
    if count == 0 then ' '
    else var level := Log10Floor(count); Heights[if level < |Heights| - 1 then level else |Heights| - 1]
  }

  function Glyphs(h: seq<nat>): (text: string)
    ensures |text| == |h|
  {
    if h == [] then "" else Glyphs(h[..|h| - 1]) + [Glyph(h[|h| - 1])]
  }

  predicate AllZero(h: seq<nat>) {
    forall i :: 0 <= i < |h| ==> h[i] == 0
  }

  /** The result of `imageDiff(a, b)`: `None` stands for its `null` (no difference). */
  function DiffText(a: Png, b: Png): Option<string> {
    if a.width != b.width || a.height != b.height then Some(DimensionsMessage)
    else
      var h := Histogram(a.data, b.data);
      if AllZero(h) then None else Some(MismatchPrefix + Glyphs(h) + "|")
  }

  /** The method form of `imageDiff`: a histogram array filled by a scan, then the text built glyph by glyph. */
  method Diff(image1: Png, image2: Png) returns (r: Option<string>)
    ensures r == DiffText(image1, image2)
  {
    if image1.width != image2.width || image1.height != image2.height {
      return Some(DimensionsMessage);
    }
    var histogram := NewHistogram();
    Scan(histogram, image1.data, image2.data);
    var text, err := Render(histogram);
    r := if err then Some(MismatchPrefix + text + "|") else None;
  }

  /** The first loop of `imageDiff`: sixteen zero buckets. */
  method NewHistogram() returns (histogram: array<nat>)
    ensures fresh(histogram) && histogram[..] == Zeros(BucketCount)
  {
    histogram := new nat[BucketCount];
    for i := 0 to BucketCount
      invariant forall k :: 0 <= k < i ==> histogram[k] == 0
    {
      histogram[i] := 0;
    }
  }

  /** The second loop of `imageDiff`: one count per differing byte, in the bucket of its difference. */
  method Scan(histogram: array<nat>, x: seq<byte>, y: seq<byte>)
    requires histogram[..] == Zeros(BucketCount) && |x| == |y|
    modifies histogram
    ensures histogram[..] == Histogram(x, y)
  {
    for i := 0 to |x|
      invariant histogram[..] == Histogram(x[..i], y[..i])
    {
      assert x[..i + 1][..i] == x[..i];
      assert y[..i + 1][..i] == y[..i];
      if x[i] != y[i] {
        var k := Bucket(x[i], y[i]);
        histogram[k] := histogram[k] + 1;
      }
    }
    assert x[..|x|] == x && y[..|y|] == y;
  }

  /** The third loop of `imageDiff`: a glyph per bucket, and whether any bucket is non-zero. */
  method Render(histogram: array<nat>) returns (text: string, err: bool)
    ensures text == Glyphs(histogram[..]) && (err <==> !AllZero(histogram[..]))
  {
    err := false;
    text := "";
    for i := 0 to histogram.Length
      invariant text == Glyphs(histogram[..i])
      invariant err <==> !AllZero(histogram[..i])
    {
      assert histogram[..i + 1][..i] == histogram[..i];
      if histogram[i] != 0 {
        err := true;
        var level := Log10Floor(histogram[i]);
        text := text + [Heights[if level < |Heights| - 1 then level else |Heights| - 1]];
      } else {
        text := text + " ";
      }
    }
    assert histogram[..histogram.Length] == histogram[..];
  }

  /** The bucket totals add up to the number of differing bytes. */
  lemma {:induction false} HistogramSum(x: seq<byte>, y: seq<byte>)
    requires |x| == |y|
    ensures Sum(Histogram(x, y)) == DiffCount(x, y)
    decreases |x|
  {
    if x == [] {
      ZerosSum(BucketCount);
    } else {
      var n := |x| - 1;
      HistogramSum(x[..n], y[..n]);
      if x[n] != y[n] {
        var h := Histogram(x[..n], y[..n]);
        SumIncrement(h, Bucket(x[n], y[n]));
      }
    }
  }

  lemma {:induction false} ZerosSum(n: nat)
    ensures Sum(Zeros(n)) == 0
  {
    if n > 0 {
      assert Zeros(n)[..n - 1] == Zeros(n - 1);
      ZerosSum(n - 1);
    }
  }

  lemma {:induction false} SumIncrement(h: seq<nat>, k: nat)
    requires k < |h|
    ensures Sum(h[k := h[k] + 1]) == Sum(h) + 1
  {
    var h' := h[k := h[k] + 1];
    if k < |h| - 1 {
      assert h'[..|h| - 1] == h[..|h| - 1][k := h[k] + 1];
      SumIncrement(h[..|h| - 1], k);
    } else {
      assert h'[..|h| - 1] == h[..|h| - 1];
    }
  }

  lemma {:induction false} SumZero(h: seq<nat>)
    ensures Sum(h) == 0 <==> AllZero(h)
  {
    if h != [] {
      SumZero(h[..|h| - 1]);
      if AllZero(h[..|h| - 1]) && h[|h| - 1] == 0 {
        assert forall i :: 0 <= i < |h| ==> h[i] == 0 by {
          forall i | 0 <= i < |h| ensures h[i] == 0 {
            if i < |h| - 1 { assert h[i] == h[..|h| - 1][i]; }
          }
        }
      }
      if AllZero(h) {
        var front := h[..|h| - 1];
        assert AllZero(front) by {
          forall i | 0 <= i < |front| ensures front[i] == 0 { assert front[i] == h[i]; }
        }
      }
    }
  }

  lemma {:induction false} DiffCountZero(x: seq<byte>, y: seq<byte>)
    requires |x| == |y|
    ensures DiffCount(x, y) == 0 <==> x == y
    decreases |x|
  {
    if x != [] {
      var n := |x| - 1;
      DiffCountZero(x[..n], y[..n]);
      assert x == x[..n] + [x[n]] && y == y[..n] + [y[n]];
    }
  }

  /**
   * With equal dimensions `imageDiff` reports no difference exactly when no
   * byte differs; so an image compared with itself always matches.
   */
  lemma DiffNoneIff(a: Png, b: Png)
    requires a.width == b.width && a.height == b.height
    ensures DiffText(a, b) == None <==> a.data == b.data
  {
    HistogramSum(a.data, b.data);
    SumZero(Histogram(a.data, b.data));
    DiffCountZero(a.data, b.data);
  }

  lemma DiffSelf(a: Png)
    ensures DiffText(a, a) == None
  {
    DiffNoneIff(a, a);
  }

  /** Different dimensions are always reported, whatever the pixels. */
  lemma DiffDimensions(a: Png, b: Png)
    requires a.width != b.width || a.height != b.height
    ensures DiffText(a, b) == Some(DimensionsMessage)
  {
  }

  /** Glyph `i` of the text is a space exactly when bucket `i` is empty. */
  lemma {:induction false} GlyphsAt(h: seq<nat>, i: nat)
    requires i < |h|
    ensures Glyphs(h)[i] == Glyph(h[i])
    ensures Glyphs(h)[i] == ' ' <==> h[i] == 0
  {
    if i < |h| - 1 {
      GlyphsAt(h[..|h| - 1], i);
    }
    assert Glyph(h[i]) != ' ' || h[i] == 0 by {
      if h[i] != 0 {
        var level := Log10Floor(h[i]);
        assert Heights[if level < 6 then level else 6] in Heights;
      }
    }
  }

  /** Positions `j` of two equal-length byte strings that differ. */
  predicate DiffersOnlyAt(x: seq<byte>, y: seq<byte>, p: nat) {
    |x| == |y| && p < |x| && x[p] != y[p] && forall j :: 0 <= j < |x| && j != p ==> x[j] == y[j]
  }

  lemma {:induction false} HistogramSame(x: seq<byte>)
    ensures Histogram(x, x) == Zeros(BucketCount)
    decreases |x|
  {
    if x != [] {
      HistogramSame(x[..|x| - 1]);
    }
  }

  lemma {:induction false} HistogramSingle(x: seq<byte>, y: seq<byte>, p: nat)
    requires DiffersOnlyAt(x, y, p)
    ensures Histogram(x, y) == Zeros(BucketCount)[Bucket(x[p], y[p]) := 1]
    decreases |x|
  {
    var n := |x| - 1;
    if p < n {
      assert DiffersOnlyAt(x[..n], y[..n], p);
      HistogramSingle(x[..n], y[..n], p);
    } else {
      assert x[..n] == y[..n];
      HistogramSame(x[..n]);
    }
  }

  /** The 16 glyphs of a histogram with a single count of one in bucket `k`. */
  function SingleBar(k: nat): string
    requires k < BucketCount
  {
    seq(BucketCount, i => if i == k then Heights[0] else ' ')
  }

  /**
   * Two images that differ in exactly one byte produce a single lowest bar,
   * at the bucket of that byte's difference.
   */
  lemma DiffSingleByte(a: Png, b: Png, p: nat)
    requires a.width == b.width && a.height == b.height
    requires DiffersOnlyAt(a.data, b.data, p)
    ensures DiffText(a, b) == Some(MismatchPrefix + SingleBar(Bucket(a.data[p], b.data[p])) + "|")
  {
    var k := Bucket(a.data[p], b.data[p]);
    HistogramSingle(a.data, b.data, p);
    var h := Histogram(a.data, b.data);
    assert h[k] == 1;
    assert !AllZero(h);
    assert Glyphs(h) == SingleBar(k) by {
      forall i | 0 <= i < BucketCount ensures Glyphs(h)[i] == SingleBar(k)[i] {
        GlyphsAt(h, i);
      }
    }
  }
}
