/** The signal-history raster of the current dashboard (`makeGraph` in main.cpp), as functions of the
    sample history: which samples are kept, and the column heights drawn from them. The method that
    computes it is `Draw`, which `Console.Dashboard.MakeGraph` calls before it overwrites the
    global history. */
module Graph {

  /** Columns per sample. The arithmetic on it is written with the literal 2, which keeps every
      product with it linear. */
  const BAR_WIDTH: nat := 2
  const INT_MIN: int := -0x8000_0000
  const INT_MAX: int := 0x7FFF_FFFF

  predicate Int32(x: int) {
    INT_MIN <= x <= INT_MAX
  }

  /** The samples the raster keeps: the most recent `min(n, width / 2)` of the history. */
  function Retained(history: seq<int>, width: nat): (kept: seq<int>)
    ensures |kept| == if |history| <= width / 2 then |history| else width / 2
    ensures kept == history[|history| - |kept|..]
    ensures 2 * |kept| <= width
  {
    if 2 * |history| > width then history[|history| - width / 2..] else history
  }

  function SeqMin(s: seq<int>): (m: int)
    requires s != []
    ensures m in s && forall i :: 0 <= i < |s| ==> m <= s[i]
  {
    if |s| == 1 then s[0] else var m := SeqMin(s[1..]); if s[0] <= m then s[0] else m
  }

  function SeqMax(s: seq<int>): (m: int)
    requires s != []
    ensures m in s && forall i :: 0 <= i < |s| ==> s[i] <= m
  {
    if |s| == 1 then s[0] else var m := SeqMax(s[1..]); if s[0] >= m then s[0] else m
  }

  /** The top of the scale: the largest sample, or one above the smallest when all are equal. */
  function Top(kept: seq<int>): (t: int)
    requires kept != []
    ensures t > SeqMin(kept)
    ensures SeqMin(kept) < SeqMax(kept) ==> t == SeqMax(kept)
  {
    if SeqMin(kept) == SeqMax(kept) then SeqMin(kept) + 1 else SeqMax(kept)
  }

  /** C++ division of `int`s, which truncates toward zero. */
  function Quot(a: int, b: int): (q: int)
    requires b > 0
    ensures a >= 0 ==> q == a / b
    ensures a < 0 ==> q == -((-a) / b)
  {
    if a >= 0 then a / b else -((-a) / b)
  }

  /** The height of the bar of sample `x` on a scale running from `lo` to `hi`. */
  function BarHeight(x: int, lo: int, hi: int, height: int): int
    requires lo < hi
  {
    Quot((x - lo) * height, hi - lo)
  }

  /** Every intermediate value of the computation fits in a 32-bit `int` (overflow would be
      undefined behaviour). */
  predicate Representable(kept: seq<int>, height: int) {
    kept == [] ||
    (Int32(Top(kept)) && Int32(Top(kept) - SeqMin(kept)) &&
     forall i :: 0 <= i < |kept| ==> Int32(kept[i]) && Int32((kept[i] - SeqMin(kept)) * height))
  }

  /** Column `c` of the raster: zero in the left padding, then two columns per kept sample. */
  function Column(kept: seq<int>, width: nat, height: int, c: int): int
    requires 2 * |kept| <= width
  {
    var pad := width - 2 * |kept|;
    if kept == [] || c < pad || c >= width then 0
    else BarHeight(kept[(c - pad) / 2], SeqMin(kept), Top(kept), height)
  }

  function Bars(kept: seq<int>, width: nat, height: int): (r: seq<int>)
    requires 2 * |kept| <= width
    ensures |r| == width
  {
    seq(width, c => Column(kept, width, height, c))
  }

  /** What `makeGraph(width, height)` returns for a given history. */
  function Raster(history: seq<int>, width: nat, height: int): (r: seq<int>)
    ensures |r| == width
  {
    Bars(Retained(history, width), width, height)
  }

  lemma MulStep(b: int, q: int, h: int)
    ensures b > 0 && q >= h + 1 ==> b * q >= b * h + b
  {
    if b > 0 && q >= h + 1 {
      assert b * q - b * h - b == b * (q - h - 1);
    }
  }

  lemma DivAtMost(a: int, b: int, h: int)
    requires 0 <= a <= b * h && b > 0
    ensures 0 <= a / b <= h
  {
    assert b * (a / b) <= a;
    MulStep(b, a / b, h);
  }

  lemma DivMonotone(a: int, a': int, b: int)
    requires 0 <= a <= a' && b > 0
    ensures a / b <= a' / b
  {
    assert b * (a / b) <= a;
    assert a' < b * (a' / b) + b;
    MulStep(b, a / b, a' / b);
  }

  lemma MulDivCancel(d: int, h: int)
    requires d > 0 && h >= 0
    ensures (d * h) / d == h
  {
    var q := (d * h) / d;
    assert d * q <= d * h < d * q + d;
    MulStep(d, h, q);
    MulStep(d, q, h);
  }

  lemma ScaledHeightBounds(x: int, lo: int, hi: int, height: int)
    requires lo <= x <= hi && lo < hi && height >= 0
    ensures 0 <= BarHeight(x, lo, hi, height) <= height
  {
    assert 0 <= (x - lo) * height <= (hi - lo) * height by {
      assert (hi - x) * height >= 0;
    }
    DivAtMost((x - lo) * height, hi - lo, height);
  }

  /** Every column lies in `[0, height]`. */
  lemma RasterBounded(history: seq<int>, width: nat, height: int)
    requires height >= 0
    ensures forall c :: 0 <= c < width ==> 0 <= Raster(history, width, height)[c] <= height
  {
    var kept := Retained(history, width);
    forall c | 0 <= c < width
      ensures 0 <= Raster(history, width, height)[c] <= height
    {
      var pad := width - 2 * |kept|;
      if kept != [] && c >= pad {
        var x := kept[(c - pad) / 2];
        assert SeqMin(kept) <= x <= SeqMax(kept) <= Top(kept);
        ScaledHeightBounds(x, SeqMin(kept), Top(kept), height);
      }
    }
  }

  /** An empty history draws nothing. */
  lemma EmptyRasterFlat(width: nat, height: int)
    ensures forall c :: 0 <= c < width ==> Raster([], width, height)[c] == 0
  {
    var kept: seq<int> := Retained([], width);
    assert kept == [];
    forall c | 0 <= c < width ensures Raster([], width, height)[c] == 0 {
      assert Raster([], width, height)[c] == Column(kept, width, height, c);
    }
  }

  /** A constant history draws nothing either: the scale is stretched to `min + 1`, so every
      sample sits at the bottom. */
  lemma ConstantRasterFlat(history: seq<int>, width: nat, height: int)
    requires forall i :: 0 <= i < |history| ==> history[i] == history[0]
    ensures forall c :: 0 <= c < width ==> Raster(history, width, height)[c] == 0
  {
    var kept := Retained(history, width);
    if kept != [] {
      var m := SeqMin(kept);
      forall i | 0 <= i < |kept| ensures kept[i] == m {
        assert kept[i] == history[|history| - |kept| + i];
      }
      forall c | 0 <= c < width ensures Raster(history, width, height)[c] == 0 {
        FlatColumn(kept, width, height, c);
      }
    }
  }

  /** On a constant sample sequence every column is at the bottom of the scale. */
  lemma FlatColumn(kept: seq<int>, width: nat, height: int, c: int)
    requires kept != [] && 2 * |kept| <= width
    requires forall i :: 0 <= i < |kept| ==> kept[i] == SeqMin(kept)
    ensures Column(kept, width, height, c) == 0
  {
    var pad := width - 2 * |kept|;
    if pad <= c < width {
      var j := (c - pad) / 2;
      assert BarHeight(kept[j], SeqMin(kept), Top(kept), height) == Quot(0, Top(kept) - SeqMin(kept));
    }
  }

  /** The layout of the bars: zeros in the first `width - 2k` columns, then sample `i` of the `k`
      kept samples in columns `width - 2k + 2i` and `width - 2k + 2i + 1`. */
  lemma BarsLayout(kept: seq<int>, width: nat, height: int)
    requires kept != [] && 2 * |kept| <= width
    ensures var pad := width - 2 * |kept|;
      var r := Bars(kept, width, height);
      (forall c :: 0 <= c < pad ==> r[c] == 0) &&
      (forall i :: 0 <= i < |kept| ==>
         r[pad + 2 * i] == BarHeight(kept[i], SeqMin(kept), Top(kept), height) &&
         r[pad + 2 * i + 1] == BarHeight(kept[i], SeqMin(kept), Top(kept), height))
  {
    forall i | 0 <= i < |kept|
      ensures Bars(kept, width, height)[width - 2 * |kept| + 2 * i] == BarHeight(kept[i], SeqMin(kept), Top(kept), height)
      ensures Bars(kept, width, height)[width - 2 * |kept| + 2 * i + 1] == BarHeight(kept[i], SeqMin(kept), Top(kept), height)
    {
      BarColumns(kept, width, height, i);
    }
  }

  /** Both columns of sample `i` hold its height. */
  lemma BarColumns(kept: seq<int>, width: nat, height: int, i: nat)
    requires i < |kept| && 2 * |kept| <= width
    ensures var pad := width - 2 * |kept|;
      Bars(kept, width, height)[pad + 2 * i] == BarHeight(kept[i], SeqMin(kept), Top(kept), height) &&
      Bars(kept, width, height)[pad + 2 * i + 1] == BarHeight(kept[i], SeqMin(kept), Top(kept), height)
  {
    var pad := width - 2 * |kept|;
    SampleColumn(kept, width, height, i, pad + 2 * i);
    SampleColumn(kept, width, height, i, pad + 2 * i + 1);
  }

  /** Column `c`, one of the two right of the padding that belong to sample `i`. */
  lemma SampleColumn(kept: seq<int>, width: nat, height: int, i: nat, c: int)
    requires i < |kept| && 2 * |kept| <= width
    requires c - (width - 2 * |kept|) in {2 * i, 2 * i + 1}
    ensures Bars(kept, width, height)[c] == BarHeight(kept[i], SeqMin(kept), Top(kept), height)
  {
    var k := c - (width - 2 * |kept|);
    assert k / 2 == i;
  }

  /** The same layout for a whole history: a non-empty history always keeps a sample once the
      graph is at least one bar wide. */
  lemma RasterLayout(history: seq<int>, width: nat, height: int)
    requires history != [] && width >= 2
    ensures Retained(history, width) != []
    ensures Raster(history, width, height) == Bars(Retained(history, width), width, height)
  {
  }

  /** Once the history covers the graph, older samples make no difference. */
  lemma OlderSamplesIgnored(older: seq<int>, recent: seq<int>, width: nat, height: int)
    requires 2 * |recent| >= width
    ensures Retained(older + recent, width) == Retained(recent, width)
    ensures Raster(older + recent, width, height) == Raster(recent, width, height)
  {
    var all := older + recent;
    var k := width / 2;
    assert |Retained(all, width)| == k;
    assert |Retained(recent, width)| == k;
    assert all[|all| - k..] == recent[|recent| - k..];
  }

  /** The scale runs from the smallest kept sample (height 0) to the largest (the full height). */
  lemma ExtremesSpanScale(kept: seq<int>, height: int)
    requires kept != [] && SeqMin(kept) < SeqMax(kept) && height >= 0
    ensures BarHeight(SeqMin(kept), SeqMin(kept), Top(kept), height) == 0
    ensures BarHeight(SeqMax(kept), SeqMin(kept), Top(kept), height) == height
  {
    MulDivCancel(SeqMax(kept) - SeqMin(kept), height);
  }

  /** A stronger sample never draws a lower bar. */
  lemma BarsMonotone(x: int, y: int, lo: int, hi: int, height: int)
    requires lo <= x <= y && lo < hi && height >= 0
    ensures BarHeight(x, lo, hi, height) <= BarHeight(y, lo, hi, height)
  {
    assert (x - lo) * height <= (y - lo) * height by {
      assert (y - x) * height >= 0;
    }
    assert (x - lo) * height >= 0;
    DivMonotone((x - lo) * height, (y - lo) * height, hi - lo);
  }

  /** The raster with only the columns before `upTo` drawn; the rest still zero. */
  function Filled(kept: seq<int>, width: nat, height: int, upTo: int): (r: seq<int>)
    requires 2 * |kept| <= width
    ensures |r| == width
    ensures upTo >= width ==> r == Bars(kept, width, height)
  {
    seq(width, c => if c < upTo then Column(kept, width, height, c) else 0)
  }

  /** Drawing column `k` with its sample's height extends the drawn prefix by one column. */
  lemma FillStep(kept: seq<int>, width: nat, height: int, k: int)
    requires kept != [] && 2 * |kept| <= width
    requires width - 2 * |kept| <= k < width
    ensures var pad := width - 2 * |kept|;
      Filled(kept, width, height, k)[k := BarHeight(kept[(k - pad) / 2], SeqMin(kept), Top(kept), height)]
        == Filled(kept, width, height, k + 1)
  {
    var pad := width - 2 * |kept|;
    var drawn := Filled(kept, width, height, k)[k := BarHeight(kept[(k - pad) / 2], SeqMin(kept), Top(kept), height)];
    var next := Filled(kept, width, height, k + 1);
    forall c | 0 <= c < width
      ensures drawn[c] == next[c]
    {
      if c == k {
        assert next[c] == Column(kept, width, height, c);
      }
    }
  }

  /** The column loops of `makeGraph`: two columns per kept sample after `pad` blank ones, each
      holding the sample's height on the scale from `lo` to `hi`. */
  method FillColumns(columns: array<int>, kept: seq<int>, height: int, lo: int, hi: int)
    requires kept != [] && 2 * |kept| <= columns.Length
    requires lo == SeqMin(kept) && hi == Top(kept)
    requires forall c :: 0 <= c < columns.Length ==> columns[c] == 0
    modifies columns
    ensures columns[..] == Bars(kept, columns.Length, height)
  {
    var width := columns.Length;
    var padSize := width - 2 * |kept|;
    assert columns[..] == Filled(kept, width, height, padSize);
    var i := 0;
    while i < |kept|
      invariant 0 <= i <= |kept|
      invariant columns[..] == Filled(kept, width, height, padSize + 2 * i)
    {
      var y := Quot((kept[i] - lo) * height, hi - lo);
      var j := 0;
      while j < BAR_WIDTH
        invariant 0 <= j <= BAR_WIDTH
        invariant columns[..] == Filled(kept, width, height, padSize + 2 * i + j)
      {
        var k := padSize + 2 * i + j;
        if k < columns.Length {
          assert (k - padSize) / 2 == i;
          FillStep(kept, width, height, k);
          columns[k] := y;
        }
        j := j + 1;
      }
      i := i + 1;
    }
  }

  /** The body of `makeGraph` on a given history: the samples it keeps and the columns it fills,
      left to right in a fresh zeroed buffer of `width` columns. */
  method Draw(history: seq<int>, width: int, height: int) returns (kept: seq<int>, scaled: seq<int>)
    requires width >= 0
    requires history == [] || width >= 2
    ensures kept == Retained(history, width)
    ensures scaled == Raster(history, width, height)
  {
    var columns := new int[width](_ => 0);
    kept := history;
    if history == [] {
      EmptyRasterFlat(width, height);
      return kept, columns[..];
    }
    if 2 * |kept| > width {
      kept := kept[|kept| - width / 2..];
    }
    assert kept == Retained(history, width) != [];
    var minRssi := SeqMin(kept);
    var maxRssi := SeqMax(kept);
    if minRssi == maxRssi {
      maxRssi := minRssi + 1;
    }
    FillColumns(columns, kept, height, minRssi, maxRssi);
    scaled := columns[..];
  }
}
