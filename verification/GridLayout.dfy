/** Video tile geometry over the reals: the uniform grid and the spotlight strip. */
module GridLayout {
  import opened Common

  /** `participantCount` may be zero or negative, as any number can reach the code. */
  datatype Options = Options(
    containerWidth: real, containerHeight: real, participantCount: int, gap: real, aspectRatio: real, minTileSize: real)

  datatype Tile = Tile(x: real, y: real, width: real, height: real)

  datatype StripPosition = Right | Bottom

  datatype Spotlight = Spotlight(area: Tile, strip: StripPosition)

  datatype Layout = Layout(tiles: seq<Tile>, rows: int, cols: int, tileWidth: real, tileHeight: real, spotlight: Option<Spotlight>)

  const EMPTY := Layout([], 0, 0, 0.0, 0.0, None)
  const STRIP_WIDTH := 160.0
  const STRIP_HEIGHT := 96.0

  /** What the layout is promised for: a positive aspect ratio and a gap that is not negative. */
  predicate Sane(o: Options) { o.aspectRatio > 0.0 && o.gap >= 0.0 }

  /** There is something to lay out, and no division by a zero aspect ratio. */
  predicate Drawable(o: Options) {
    o.participantCount > 0 && o.containerWidth > 0.0 && o.containerHeight > 0.0 && o.aspectRatio != 0.0
  }

  function Min(a: real, b: real): real { if a < b then a else b }

  function Max(a: real, b: real): real { if a > b then a else b }

  function CeilDiv(n: nat, d: nat): nat
    requires d > 0
  {
    if n % d == 0 then n / d else n / d + 1
  }

  // ----- Geometry vocabulary -----

  /** Some axis keeps the two tiles at least `gap` apart. */
  predicate Apart(a: Tile, b: Tile, gap: real) {
    a.x + a.width + gap <= b.x || b.x + b.width + gap <= a.x || a.y + a.height + gap <= b.y || b.y + b.height + gap <= a.y
  }

  ghost predicate AllApart(ts: seq<Tile>, gap: real) {
    forall i, j | 0 <= i < j < |ts| :: Apart(ts[i], ts[j], gap)
  }

  predicate Inside(t: Tile, width: real, height: real) {
    0.0 <= t.x && t.x + t.width <= width && 0.0 <= t.y && t.y + t.height <= height
  }

  /** The extents of the first and of the last tile leave equal margins on both sides of an axis. */
  predicate Margins(near: real, far: real, size: real, total: real) { near + (far + size) == total }

  // ----- Arithmetic -----

  lemma ScaleLe(k: real, a: real, b: real)
    requires k >= 0.0 && a <= b
    ensures k * a <= k * b
  {
  }

  lemma ScaleLeExactly(d: real, a: real, b: real)
    requires d > 0.0
    ensures a <= b <==> a * d <= b * d
  {
    if a > b { assert (a - b) * d > 0.0; }
  }

  lemma DivideLe(x: real, d: real, y: real)
    requires d > 0.0
    ensures x / d <= y <==> x <= y * d
    ensures y <= x / d <==> y * d <= x
  {
    assert x / d * d == x;
    ScaleLeExactly(d, x / d, y);
    ScaleLeExactly(d, y, x / d);
  }

  function Steps(k: int, pitch: real): real { k as real * pitch }

  /** Two positions some steps apart are at least one step apart. */
  lemma StepsApart(from: int, to: int, pitch: real)
    requires from < to && pitch >= 0.0
    ensures Steps(from, pitch) + pitch <= Steps(to, pitch)
  {
    ScaleLe(pitch, from as real + 1.0, to as real);
  }

  lemma {:induction false} CeilDivExact(n: nat, d: nat)
    requires d > 0 && n > 0
    ensures CeilDiv(n, d) >= 1 && CeilDiv(n, d) * d >= n && (CeilDiv(n, d) - 1) * d < n
  {
    assert n == n / d * d + n % d;
    if n % d == 0 {
      assert CeilDiv(n, d) == n / d;
      assert n / d >= 1;
    } else {
      assert CeilDiv(n, d) == n / d + 1;
    }
  }

  lemma FewerRows(q: int, cols: int, rows: int)
    requires cols > 0
    ensures q * cols < rows * cols ==> q < rows
  {
    if q >= rows { assert (q - rows) * cols >= 0; }
  }

  lemma CellInGrid(i: nat, n: nat, cols: nat, rows: nat)
    requires cols > 0 && i < n <= rows * cols
    ensures 0 <= i % cols < cols && 0 <= i / cols < rows && i == i / cols * cols + i % cols
  {
    assert i == i / cols * cols + i % cols;
    FewerRows(i / cols, cols, rows);
  }

  // ----- Choosing the number of columns -----

  /** What is left of a length for each of `n` cells once the gaps between them are taken. */
  function Share(total: real, n: nat, gap: real): real
    requires n > 0
  {
    (total - (n - 1) as real * gap) / n as real
  }

  /** The side the tiles get so that `cols` columns fit the width and the rows fit the height. */
  function FittingSide(o: Options, cols: nat): real
    requires cols > 0 && o.participantCount > 0
  {
    var rows := CeilDiv(o.participantCount, cols);
    CeilDivExact(o.participantCount, cols);
    Min(Share(o.containerWidth, cols, o.gap), Share(o.containerHeight, rows, o.gap) * o.aspectRatio)
  }

  /** The share of the container that a grid of so many columns spans, gaps included. */
  function Coverage(o: Options, cols: nat): real
    requires cols > 0 && Drawable(o)
  {
    var side := FittingSide(o, cols);
    var rows := CeilDiv(o.participantCount, cols);
    Span(cols, side, o.gap) * Span(rows, side / o.aspectRatio, o.gap) / AreaOf(o)
  }

  function AreaOf(o: Options): (a: real)
    requires o.containerWidth > 0.0 && o.containerHeight > 0.0
    ensures a > 0.0
  {
    o.containerWidth * o.containerHeight
  }

  /** The first column count of largest coverage if any coverage is positive, one column otherwise. */
  ghost predicate FirstMaximiser(o: Options, cols: nat)
    requires Drawable(o)
  {
    && 1 <= cols <= o.participantCount
    && (if exists c: nat | 1 <= c <= o.participantCount :: Coverage(o, c) > 0.0
        then (forall c: nat | 1 <= c <= o.participantCount :: Coverage(o, c) <= Coverage(o, cols))
             && (forall c: nat | 1 <= c < cols :: Coverage(o, c) < Coverage(o, cols))
        else cols == 1)
  }

  method ComputeGridDimensions(o: Options) returns (bestCols: nat, rows: nat)
    requires Drawable(o)
    ensures FirstMaximiser(o, bestCols) && rows == CeilDiv(o.participantCount, bestCols)
    ensures rows >= 1 && rows * bestCols >= o.participantCount && (rows - 1) * bestCols < o.participantCount
  {
    bestCols := 1;
    var bestScore := 0.0;
    for cols := 1 to o.participantCount + 1
      invariant 1 <= bestCols <= o.participantCount
      invariant bestScore >= 0.0 && forall c: nat | 1 <= c < cols :: Coverage(o, c) <= bestScore
      invariant if bestScore == 0.0 then bestCols == 1 else bestCols < cols && Coverage(o, bestCols) == bestScore
      invariant bestScore > 0.0 ==> forall c: nat | 1 <= c < bestCols :: Coverage(o, c) < bestScore
    {
      hide Coverage;
      var coverage := Coverage(o, cols);
      if coverage > bestScore {
        bestScore := coverage;
        bestCols := cols;
      }
    }
    rows := CeilDiv(o.participantCount, bestCols);
    CeilDivExact(o.participantCount, bestCols);
  }

  // ----- The grid -----

  /** A uniform grid of `count` cells centred in a container, `cols` to a row. */
  datatype Grid = Grid(count: nat, rows: nat, cols: nat, tileWidth: real, tileHeight: real, gap: real, width: real, height: real)

  ghost predicate GridOk(g: Grid) {
    && g.rows >= 1 && g.cols >= 1 && 1 <= g.count <= g.rows * g.cols && (g.rows - 1) * g.cols < g.count && g.cols <= g.count
    && g.tileWidth > 0.0 && g.tileHeight > 0.0 && g.gap >= 0.0
  }

  function Span(n: nat, size: real, gap: real): real { size * n as real + (n as real - 1.0) * gap }

  /** Where cell `k` of `n` starts on an axis of the given length, the cells being centred on it. */
  function Start(total: real, n: nat, size: real, gap: real, k: int): real {
    (total - Span(n, size, gap)) / 2.0 + Steps(k, size + gap)
  }

  function GridTile(g: Grid, i: nat): Tile
    requires g.cols > 0
  {
    Tile(Start(g.width, g.cols, g.tileWidth, g.gap, i % g.cols), Start(g.height, g.rows, g.tileHeight, g.gap, i / g.cols),
         g.tileWidth, g.tileHeight)
  }

  lemma StartsApart(total: real, n: nat, size: real, gap: real, k: int, m: int)
    requires size > 0.0 && gap >= 0.0 && k < m
    ensures Start(total, n, size, gap, k) + size + gap <= Start(total, n, size, gap, m)
  {
    StepsApart(k, m, size + gap);
    hide Steps, Span;
  }

  lemma GridApart(g: Grid, i: nat, j: nat)
    requires GridOk(g) && i < j < g.count
    ensures Apart(GridTile(g, i), GridTile(g, j), g.gap)
  {
    CellInGrid(i, g.count, g.cols, g.rows);
    CellInGrid(j, g.count, g.cols, g.rows);
    var c, d, r, s := i % g.cols, j % g.cols, i / g.cols, j / g.cols;
    hide Start;
    if c < d {
      StartsApart(g.width, g.cols, g.tileWidth, g.gap, c, d);
    } else if d < c {
      StartsApart(g.width, g.cols, g.tileWidth, g.gap, d, c);
    } else if r < s {
      StartsApart(g.height, g.rows, g.tileHeight, g.gap, r, s);
    } else {
      assert r != s;
      StartsApart(g.height, g.rows, g.tileHeight, g.gap, s, r);
    }
  }

  lemma LastEnds(n: nat, size: real, gap: real)
    requires n >= 1
    ensures Steps(n - 1, size + gap) + size == Span(n, size, gap)
  {
    assert (n - 1) as real == n as real - 1.0;
  }

  lemma StepsUpTo(k: nat, m: int, pitch: real)
    requires k <= m && pitch >= 0.0
    ensures 0.0 <= Steps(k, pitch) <= Steps(m, pitch) && Steps(0, pitch) == 0.0
  {
    ScaleLe(pitch, k as real, m as real);
    ScaleLe(pitch, 0.0, k as real);
  }

  /** The first of `n` cells and the last one leave equal margins. */
  lemma StartsCentred(total: real, n: nat, size: real, gap: real)
    requires n >= 1
    ensures Margins(Start(total, n, size, gap, 0), Start(total, n, size, gap, n - 1), size, total)
  {
    LastEnds(n, size, gap);
    assert Steps(0, size + gap) == 0.0;
    hide Steps, Span;
  }

  /** All `n` cells are on the axis exactly when their span fits, that is, when the first one is. */
  lemma StartsFit(total: real, n: nat, size: real, gap: real, k: nat)
    requires k < n && size > 0.0 && gap >= 0.0
    ensures Span(n, size, gap) <= total ==>
              0.0 <= Start(total, n, size, gap, k) && Start(total, n, size, gap, k) + size <= total
    ensures Span(n, size, gap) <= total <==> 0.0 <= Start(total, n, size, gap, 0)
  {
    LastEnds(n, size, gap);
    StepsUpTo(k, n - 1, size + gap);
    hide Steps, Span;
  }

  /** Row and column of the first and of the last cell. */
  lemma Corners(g: Grid)
    requires GridOk(g)
    ensures 0 % g.cols == 0 && 0 / g.cols == 0 && (g.cols - 1) % g.cols == g.cols - 1 && (g.count - 1) / g.cols == g.rows - 1
  {
    CellInGrid(g.count - 1, g.count, g.cols, g.rows);
    FewerRows(g.rows - 2, g.cols, (g.count - 1) / g.cols);
    assert (g.rows - 2) * g.cols == (g.rows - 1) * g.cols - g.cols;
  }

  /** The first row and column and the last ones leave equal margins. */
  lemma GridCentred(g: Grid)
    requires GridOk(g)
    ensures Margins(GridTile(g, 0).x, GridTile(g, g.cols - 1).x, g.tileWidth, g.width)
    ensures Margins(GridTile(g, 0).y, GridTile(g, g.count - 1).y, g.tileHeight, g.height)
  {
    Corners(g);
    StartsCentred(g.width, g.cols, g.tileWidth, g.gap);
    StartsCentred(g.height, g.rows, g.tileHeight, g.gap);
    hide Start, Margins;
  }

  /** The grid is inside the container exactly when its spans fit. */
  lemma GridInside(g: Grid)
    requires GridOk(g)
    ensures (forall i: nat | i < g.count :: Inside(GridTile(g, i), g.width, g.height))
            <==> Span(g.cols, g.tileWidth, g.gap) <= g.width && Span(g.rows, g.tileHeight, g.gap) <= g.height
  {
    Corners(g);
    StartsFit(g.width, g.cols, g.tileWidth, g.gap, 0);
    StartsFit(g.height, g.rows, g.tileHeight, g.gap, 0);
    hide Start, Span;
    if Span(g.cols, g.tileWidth, g.gap) <= g.width && Span(g.rows, g.tileHeight, g.gap) <= g.height {
      forall i: nat | i < g.count ensures Inside(GridTile(g, i), g.width, g.height) {
        CellInGrid(i, g.count, g.cols, g.rows);
        StartsFit(g.width, g.cols, g.tileWidth, g.gap, i % g.cols);
        StartsFit(g.height, g.rows, g.tileHeight, g.gap, i / g.cols);
      }
    } else {
      assert !Inside(GridTile(g, 0), g.width, g.height);
    }
  }

  lemma SpanFits(n: nat, size: real, gap: real, total: real)
    requires n >= 1
    ensures Span(n, size, gap) <= total <==> size <= Share(total, n, gap)
  {
    DivideLe(total - (n - 1) as real * gap, n as real, size);
  }

  lemma SpansFit(o: Options, cols: nat, rows: nat, side: real)
    requires cols > 0 && rows > 0 && o.aspectRatio > 0.0
    ensures Span(cols, side, o.gap) <= o.containerWidth && Span(rows, side / o.aspectRatio, o.gap) <= o.containerHeight
            <==> side <= Min(Share(o.containerWidth, cols, o.gap), Share(o.containerHeight, rows, o.gap) * o.aspectRatio)
  {
    hide Span, Share;
    SpanFits(cols, side, o.gap, o.containerWidth);
    SpanFits(rows, side / o.aspectRatio, o.gap, o.containerHeight);
    DivideLe(side, o.aspectRatio, Share(o.containerHeight, rows, o.gap));
  }

  /** Fitting both spans is being no larger than the fitting side, that is, than what the clamp raises. */
  lemma SideFits(o: Options, cols: nat, side: real)
    requires cols > 0 && o.participantCount > 0 && o.aspectRatio > 0.0
    ensures var rows := CeilDiv(o.participantCount, cols);
            Span(cols, side, o.gap) <= o.containerWidth && Span(rows, side / o.aspectRatio, o.gap) <= o.containerHeight
            <==> side <= FittingSide(o, cols)
  {
    hide Span, Share, CeilDiv;
    var rows := CeilDiv(o.participantCount, cols);
    CeilDivExact(o.participantCount, cols);
    SpansFit(o, cols, rows, side);
  }

  /** What is maximised: the area spanned by the largest grid of so many columns that fits, relative to the container's. */
  lemma CoverageExactly(o: Options, cols: nat, rows: nat, side: real)
    requires Drawable(o) && cols > 0 && o.aspectRatio > 0.0
    requires rows >= 1 && rows * cols >= o.participantCount && (rows - 1) * cols < o.participantCount
    requires forall s: real :: Span(cols, s, o.gap) <= o.containerWidth && Span(rows, s / o.aspectRatio, o.gap) <= o.containerHeight
                               <==> s <= side
    ensures Coverage(o, cols) * (o.containerWidth * o.containerHeight)
            == Span(cols, side, o.gap) * Span(rows, side / o.aspectRatio, o.gap)
  {
    CeilDivExact(o.participantCount, cols);
    CeilDivUnique(o.participantCount, cols, rows);
    var fitting := FittingSide(o, cols);
    SideFits(o, cols, fitting);
    SideFits(o, cols, side);
    assert fitting == side;
    CoverageSpans(o, cols);
    hide Coverage, Span, FittingSide, CeilDiv;
  }

  lemma CeilDivUnique(n: nat, cols: nat, rows: nat)
    requires cols > 0 && rows >= 1 && rows * cols >= n && (rows - 1) * cols < n
    ensures rows == CeilDiv(n, cols)
  {
    CeilDivExact(n, cols);
    FewerRows(rows - 1, cols, CeilDiv(n, cols));
    FewerRows(CeilDiv(n, cols) - 1, cols, rows);
  }

  lemma CoverageSpans(o: Options, cols: nat)
    requires Drawable(o) && cols > 0
    ensures var side := FittingSide(o, cols); var rows := CeilDiv(o.participantCount, cols);
            Coverage(o, cols) * AreaOf(o) == Span(cols, side, o.gap) * Span(rows, side / o.aspectRatio, o.gap)
  {
    hide FittingSide, CeilDiv, AreaOf, Span;
    var side, rows := FittingSide(o, cols), CeilDiv(o.participantCount, cols);
    DivideBack(Span(cols, side, o.gap) * Span(rows, side / o.aspectRatio, o.gap), AreaOf(o));
  }

  lemma DivideBack(a: real, b: real)
    requires b != 0.0
    ensures a / b * b == a
  {
  }

  /** The uniform layout whatever the gap and the sign of the aspect ratio: how many tiles, how many rows and columns. */
  ghost predicate GridShape(o: Options, l: Layout)
    requires Drawable(o)
  {
    && |l.tiles| == o.participantCount
    && l.cols >= 1 && FirstMaximiser(o, l.cols)
    && l.rows * l.cols >= o.participantCount && (l.rows - 1) * l.cols < o.participantCount
    && l.tileWidth >= o.minTileSize
    && (forall t | t in l.tiles :: t.width == l.tileWidth && t.height == l.tileHeight == t.width / o.aspectRatio)
    && RowMajor(l.tiles, l.cols, l.tileWidth + o.gap, l.tileHeight + o.gap)
  }

  /** Tile `i` lies `i % cols` steps to the right of the first and `i / cols` steps below it. */
  ghost predicate RowMajor(ts: seq<Tile>, cols: nat, right: real, down: real) {
    cols > 0 && forall i | 0 <= i < |ts| ::
      ts[i].x == ts[0].x + (i % cols) as real * right && ts[i].y == ts[0].y + (i / cols) as real * down
  }

  /** The side is the largest with which both spans fit, unless the minimum is larger. */
  ghost predicate LargestSide(o: Options, l: Layout)
    requires o.aspectRatio > 0.0 && l.cols >= 0 && l.rows >= 0
  {
    forall s: real :: s <= l.tileWidth <==>
      s <= o.minTileSize || (Span(l.cols, s, o.gap) <= o.containerWidth && Span(l.rows, s / o.aspectRatio, o.gap) <= o.containerHeight)
  }

  lemma LargestExactly(o: Options, l: Layout)
    requires Drawable(o) && o.aspectRatio > 0.0 && l.cols > 0 && l.rows == CeilDiv(o.participantCount, l.cols)
    requires l.tileWidth == Max(FittingSide(o, l.cols), o.minTileSize)
    ensures LargestSide(o, l)
  {
    forall s: real ensures Span(l.cols, s, o.gap) <= o.containerWidth && Span(l.rows, s / o.aspectRatio, o.gap) <= o.containerHeight
                           <==> s <= FittingSide(o, l.cols)
    {
      SideFits(o, l.cols, s);
    }
    hide Span, FittingSide;
  }

  lemma RowMajorGrid(g: Grid, tiles: seq<Tile>)
    requires g.cols > 0 && |tiles| == g.count && forall i: nat | i < g.count :: tiles[i] == GridTile(g, i)
    ensures RowMajor(tiles, g.cols, g.tileWidth + g.gap, g.tileHeight + g.gap)
  {
    if g.count > 0 {
      assert 0 % g.cols == 0 && 0 / g.cols == 0;
      assert tiles[0].x == (g.width - Span(g.cols, g.tileWidth, g.gap)) / 2.0;
      assert tiles[0].y == (g.height - Span(g.rows, g.tileHeight, g.gap)) / 2.0;
    }
    hide Span;
  }

  /** What the uniform layout promises of sane options. */
  ghost predicate GridPromise(o: Options, l: Layout)
    requires Drawable(o)
  {
    && GridShape(o, l)
    && (o.aspectRatio > 0.0 ==> l.rows >= 0 && LargestSide(o, l))
    && (Sane(o) && l.tileWidth > 0.0 ==>
          && AllApart(l.tiles, o.gap)
          && Margins(l.tiles[0].x, l.tiles[l.cols - 1].x, l.tileWidth, o.containerWidth)
          && Margins(l.tiles[0].y, l.tiles[o.participantCount - 1].y, l.tileHeight, o.containerHeight)
          && ((forall t | t in l.tiles :: Inside(t, o.containerWidth, o.containerHeight))
              <==> FittingSide(o, l.cols) >= o.minTileSize))
  }

  /** The uniform layout; the spotlight variant is below. */
  method ComputeGridLayout(o: Options) returns (l: Layout)
    requires o.aspectRatio != 0.0
    ensures l.spotlight == None
    ensures !Drawable(o) ==> l == EMPTY
    ensures Drawable(o) ==> GridPromise(o, l)
  {
    if o.participantCount <= 0 || o.containerWidth <= 0.0 || o.containerHeight <= 0.0 { return EMPTY; }
    var cols, rows := ComputeGridDimensions(o);
    var tileWidth := Max(FittingSide(o, cols), o.minTileSize);
    var g := Grid(o.participantCount, rows, cols, tileWidth, tileWidth / o.aspectRatio, o.gap, o.containerWidth, o.containerHeight);
    var tiles := FillGrid(g);
    l := Layout(tiles, rows, cols, g.tileWidth, g.tileHeight, None);
    RowMajorGrid(g, tiles);
    if o.aspectRatio > 0.0 { LargestExactly(o, l); }
    hide RowMajor, LargestSide, GridTile, Span, FittingSide, FirstMaximiser, Inside, CeilDiv, AllApart, Margins;
    if Sane(o) && tileWidth > 0.0 { GridKeepsPromise(o, g, tiles); }
  }

  /** A grid of sane options with the side the layout gives it. */
  lemma GridKeepsPromise(o: Options, g: Grid, tiles: seq<Tile>)
    requires Drawable(o) && Sane(o) && GridOk(g) && g.count == o.participantCount && g.rows == CeilDiv(g.count, g.cols)
    requires g.tileWidth == Max(FittingSide(o, g.cols), o.minTileSize) && g.tileHeight == g.tileWidth / o.aspectRatio
    requires g.gap == o.gap && g.width == o.containerWidth && g.height == o.containerHeight
    requires |tiles| == g.count && forall i: nat | i < g.count :: tiles[i] == GridTile(g, i)
    ensures Margins(tiles[0].x, tiles[g.cols - 1].x, g.tileWidth, g.width)
    ensures Margins(tiles[0].y, tiles[g.count - 1].y, g.tileHeight, g.height)
    ensures (forall t | t in tiles :: Inside(t, g.width, g.height)) <==> FittingSide(o, g.cols) >= o.minTileSize
  {
    hide GridTile, Span, FittingSide, Inside, CeilDiv, Margins;
    GridCentred(g);
    GridInside(g);
    SideFits(o, g.cols, g.tileWidth);
    InsideEverywhere(g, tiles);
  }

  lemma InsideEverywhere(g: Grid, tiles: seq<Tile>)
    requires g.cols > 0 && |tiles| == g.count && forall i: nat | i < g.count :: tiles[i] == GridTile(g, i)
    ensures (forall t | t in tiles :: Inside(t, g.width, g.height))
            <==> forall i: nat | i < g.count :: Inside(GridTile(g, i), g.width, g.height)
  {
    hide GridTile, Inside;
    if forall t | t in tiles :: Inside(t, g.width, g.height) {
      forall i: nat | i < g.count ensures Inside(GridTile(g, i), g.width, g.height) { assert tiles[i] in tiles; }
    }
  }

  method FillGrid(g: Grid) returns (tiles: seq<Tile>)
    requires g.cols > 0
    ensures |tiles| == g.count && forall i: nat | i < g.count :: tiles[i] == GridTile(g, i)
    ensures GridOk(g) ==> AllApart(tiles, g.gap)
    ensures forall t | t in tiles :: t.width == g.tileWidth && t.height == g.tileHeight
  {
    var offsetX := (g.width - Span(g.cols, g.tileWidth, g.gap)) / 2.0;
    var offsetY := (g.height - Span(g.rows, g.tileHeight, g.gap)) / 2.0;
    tiles := [];
    for i := 0 to g.count
      invariant |tiles| == i && forall k: nat | k < i :: tiles[k] == GridTile(g, k)
    {
      var col, row := i % g.cols, i / g.cols;
      tiles := tiles + [Tile(offsetX + col as real * (g.tileWidth + g.gap), offsetY + row as real * (g.tileHeight + g.gap),
                             g.tileWidth, g.tileHeight)];
    }
    if GridOk(g) {
      forall i, j | 0 <= i < j < |tiles| ensures Apart(tiles[i], tiles[j], g.gap) { GridApart(g, i, j); }
    }
  }

  // ----- The spotlight strip -----

  /** `n` tiles in one line from (x, y), downwards or to the right. */
  function StripTile(strip: StripPosition, x: real, y: real, width: real, height: real, gap: real, i: nat): Tile {
    match strip
    case Right => Tile(x, y + Steps(i, height + gap), width, height)
    case Bottom => Tile(x + Steps(i, width + gap), y, width, height)
  }

  /** Cells starting at the margin `max(0, (total - span) / 2)` lie on the axis exactly when their span fits. */
  lemma LineFits(total: real, n: nat, size: real, gap: real, k: nat)
    requires k < n && size > 0.0 && gap >= 0.0
    ensures var from := Max(0.0, (total - Span(n, size, gap)) / 2.0);
            && 0.0 <= from + Steps(k, size + gap)
            && (Span(n, size, gap) <= total ==> from + Steps(k, size + gap) + size <= total)
            && (from + Steps(n - 1, size + gap) + size <= total ==> Span(n, size, gap) <= total)
  {
    LastEnds(n, size, gap);
    StepsUpTo(k, n - 1, size + gap);
    hide Steps, Span;
  }

  method FillStrip(strip: StripPosition, x: real, y: real, width: real, height: real, gap: real, n: nat) returns (tiles: seq<Tile>)
    ensures |tiles| == n && forall i: nat | i < n :: tiles[i] == StripTile(strip, x, y, width, height, gap, i)
    ensures width > 0.0 && height > 0.0 && gap >= 0.0 ==> AllApart(tiles, gap)
  {
    tiles := [];
    for i := 0 to n
      invariant |tiles| == i && forall k: nat | k < i :: tiles[k] == StripTile(strip, x, y, width, height, gap, k)
    {
      if strip == Right {
        tiles := tiles + [Tile(x, y + i as real * (height + gap), width, height)];
      } else {
        tiles := tiles + [Tile(x + i as real * (width + gap), y, width, height)];
      }
    }
    if width > 0.0 && height > 0.0 && gap >= 0.0 {
      forall i, j | 0 <= i < j < |tiles| ensures Apart(tiles[i], tiles[j], gap) {
        StepsApart(i, j, height + gap);
        StepsApart(i, j, width + gap);
        hide Steps;
      }
    }
  }

  /** The spotlight layout whatever the gap and the sign of the aspect ratio: areas, rows, columns and tile sizes. */
  ghost predicate StripShape(o: Options, l: Layout)
    requires o.participantCount > 0 && o.aspectRatio != 0.0
  {
    && l.spotlight.Some? && |l.tiles| == o.participantCount
    && (forall t | t in l.tiles :: t.width == l.tileWidth && t.height == l.tileHeight)
    && match l.spotlight.value.strip
       case Right =>
         && l.rows == o.participantCount && l.cols == 1 && l.tileWidth == 160.0 && l.tileHeight <= l.tileWidth / o.aspectRatio
         && l.spotlight.value.area == Tile(0.0, 0.0, o.containerWidth - 160.0 - o.gap, o.containerHeight)
         && InLine(seq(|l.tiles|, i requires 0 <= i < |l.tiles| => l.tiles[i].y), l.tileHeight, o.gap, o.containerHeight)
         && forall t | t in l.tiles :: t.x == o.containerWidth - 160.0
       case Bottom =>
         && l.rows == 1 && l.cols == o.participantCount && l.tileHeight == l.tileWidth / o.aspectRatio
         && l.spotlight.value.area == Tile(0.0, 0.0, o.containerWidth, o.containerHeight - 96.0 - o.gap)
         && InLine(seq(|l.tiles|, i requires 0 <= i < |l.tiles| => l.tiles[i].x), l.tileWidth, o.gap, o.containerWidth)
         && forall t | t in l.tiles :: t.y == o.containerHeight - 96.0
  }

  /** Cells at these places follow each other a gap apart, centred on the axis, or from its start if they do not fit. */
  ghost predicate InLine(places: seq<real>, size: real, gap: real, total: real) {
    && (forall i | 0 <= i < |places| - 1 :: places[i + 1] == places[i] + size + gap)
    && (places != [] ==>
          if Span(|places|, size, gap) <= total then Margins(places[0], places[|places| - 1], size, total) else places[0] == 0.0)
  }

  lemma StepsNext(i: nat, pitch: real)
    ensures Steps(i + 1, pitch) == Steps(i, pitch) + pitch
  {
    assert (i + 1) as real == i as real + 1.0;
  }

  lemma LineExactly(places: seq<real>, size: real, gap: real, total: real)
    requires places != []
    requires forall i | 0 <= i < |places| :: places[i] == Max(0.0, (total - Span(|places|, size, gap)) / 2.0) + Steps(i, size + gap)
    ensures InLine(places, size, gap, total)
  {
    LastEnds(|places|, size, gap);
    var n := |places|;
    forall i | 0 <= i < n - 1 ensures places[i + 1] == places[i] + size + gap { StepsNext(i, size + gap); }
    assert Steps(0, size + gap) == 0.0;
    assert places[0] == Max(0.0, (total - Span(n, size, gap)) / 2.0);
    hide Span, Steps;
  }

  /** A strip tile is as high as the stack and the aspect ratio allow, and at least as high as 1 if the ratio allows that. */
  ghost predicate Tallest(o: Options, height: real)
    requires o.participantCount > 0 && o.aspectRatio != 0.0
  {
    forall h: real ::
      (h <= 1.0 || Span(o.participantCount, h, o.gap) <= o.containerHeight) && h <= 160.0 / o.aspectRatio <==> h <= height
  }

  /** As wide as the strip's height and the row allow. */
  ghost predicate Widest(o: Options, width: real)
    requires o.participantCount > 0
  {
    forall w: real :: Span(o.participantCount, w, o.gap) <= o.containerWidth && w <= 96.0 * o.aspectRatio <==> w <= width
  }

  lemma TallestExactly(o: Options, height: real)
    requires o.participantCount > 0 && o.aspectRatio != 0.0
    requires height == Min(Max(1.0, Share(o.containerHeight, o.participantCount, o.gap)), STRIP_WIDTH / o.aspectRatio)
    ensures Tallest(o, height)
  {
    forall h: real ensures Span(o.participantCount, h, o.gap) <= o.containerHeight <==> h <= Share(o.containerHeight, o.participantCount, o.gap) {
      SpanFits(o.participantCount, h, o.gap, o.containerHeight);
    }
    hide Span, Share;
  }

  lemma WidestExactly(o: Options, width: real)
    requires o.participantCount > 0
    requires width == if Span(o.participantCount, STRIP_HEIGHT * o.aspectRatio, o.gap) > o.containerWidth
                      then Share(o.containerWidth, o.participantCount, o.gap) else STRIP_HEIGHT * o.aspectRatio
    ensures Widest(o, width)
  {
    forall w: real ensures Span(o.participantCount, w, o.gap) <= o.containerWidth <==> w <= Share(o.containerWidth, o.participantCount, o.gap) {
      SpanFits(o.participantCount, w, o.gap, o.containerWidth);
    }
    hide Span, Share;
  }

  /** What the strip promises of sane options: sizes, separation from each other and the spotlight, and when all is inside. */
  ghost predicate StripPromise(o: Options, l: Layout)
    requires o.participantCount > 0 && o.aspectRatio != 0.0
  {
    && StripShape(o, l)
    && match l.spotlight.value.strip
       case Right => Tallest(o, l.tileHeight) && (Sane(o) ==> RightPromise(o, l, l.spotlight.value.area))
       case Bottom => Widest(o, l.tileWidth) && (Sane(o) ==> BottomPromise(o, l, l.spotlight.value.area))
  }

  ghost predicate RightPromise(o: Options, l: Layout, area: Tile)
    requires o.participantCount > 0 && o.aspectRatio != 0.0
  {
    && 0.0 < l.tileHeight
    && AllApart(l.tiles, o.gap) && (forall t | t in l.tiles :: Apart(area, t, o.gap))
    && ((forall t | t in l.tiles :: Inside(t, o.containerWidth, o.containerHeight)) <==>
        o.containerWidth >= 160.0 && Span(o.participantCount, Min(1.0, 160.0 / o.aspectRatio), o.gap) <= o.containerHeight)
  }

  ghost predicate BottomPromise(o: Options, l: Layout, area: Tile)
    requires o.participantCount > 0
  {
    && l.tileHeight <= 96.0
    && (l.tileWidth > 0.0 <==> (o.participantCount - 1) as real * o.gap < o.containerWidth)
    && (l.tileWidth > 0.0 ==>
          && AllApart(l.tiles, o.gap) && (forall t | t in l.tiles :: Apart(area, t, o.gap))
          && ((forall t | t in l.tiles :: Inside(t, o.containerWidth, o.containerHeight)) <==> o.containerHeight >= 96.0))
  }

  method ComputeSpotlightLayout(o: Options) returns (l: Layout)
    requires o.aspectRatio != 0.0
    ensures o.containerWidth <= 0.0 || o.containerHeight <= 0.0 ==> l == EMPTY
    ensures o.containerWidth > 0.0 && o.containerHeight > 0.0 ==>
              l.spotlight.Some?
              && l.spotlight.value.strip == (if o.containerWidth / o.containerHeight > 1.5 then Right else Bottom)
              && if o.participantCount <= 0 then l.tiles == [] && l.rows == 0 && l.cols == 0 else StripPromise(o, l)
  {
    if o.containerWidth <= 0.0 || o.containerHeight <= 0.0 { return EMPTY; }
    var strip := if o.containerWidth / o.containerHeight > 1.5 then Right else Bottom;
    var area := if strip == Right then Tile(0.0, 0.0, o.containerWidth - STRIP_WIDTH - o.gap, o.containerHeight)
                else Tile(0.0, 0.0, o.containerWidth, o.containerHeight - STRIP_HEIGHT - o.gap);
    if o.participantCount <= 0 {
      return Layout([], 0, 0, 0.0, 0.0, Some(Spotlight(area, strip)));
    }
    if strip == Right {
      l := RightStrip(o, area);
    } else {
      l := BottomStrip(o, area);
    }
  }

  /** All tiles stack vertically in a column of fixed width. */
  method RightStrip(o: Options, area: Tile) returns (l: Layout)
    requires o.aspectRatio != 0.0 && o.participantCount > 0
    requires area == Tile(0.0, 0.0, o.containerWidth - STRIP_WIDTH - o.gap, o.containerHeight)
    ensures l.spotlight == Some(Spotlight(area, Right)) && StripPromise(o, l)
  {
    var n := o.participantCount;
    var tileHeight := Max(1.0, Share(o.containerHeight, n, o.gap));
    var maxHeightByAspect := STRIP_WIDTH / o.aspectRatio;
    if tileHeight > maxHeightByAspect {
      tileHeight := maxHeightByAspect;
    }
    var stripY := Max(0.0, (o.containerHeight - Span(n, tileHeight, o.gap)) / 2.0);
    var tiles := FillStrip(Right, area.width + o.gap, stripY, STRIP_WIDTH, tileHeight, o.gap, n);
    l := Layout(tiles, n, 1, STRIP_WIDTH, tileHeight, Some(Spotlight(area, Right)));
    hide StripPromise;
    RightKeepsPromise(o, l);
  }

  lemma RightKeepsPromise(o: Options, l: Layout)
    requires o.aspectRatio != 0.0 && o.participantCount > 0 && |l.tiles| == o.participantCount
    requires l.tileHeight == Min(Max(1.0, Share(o.containerHeight, o.participantCount, o.gap)), STRIP_WIDTH / o.aspectRatio)
    requires l == Layout(l.tiles, o.participantCount, 1, STRIP_WIDTH, l.tileHeight,
                         Some(Spotlight(Tile(0.0, 0.0, o.containerWidth - STRIP_WIDTH - o.gap, o.containerHeight), Right)))
    requires forall i: nat | i < |l.tiles| ::
               l.tiles[i] == StripTile(Right, o.containerWidth - STRIP_WIDTH,
                                       Max(0.0, (o.containerHeight - Span(|l.tiles|, l.tileHeight, o.gap)) / 2.0),
                                       STRIP_WIDTH, l.tileHeight, o.gap, i)
    requires Sane(o) && l.tileHeight > 0.0 ==> AllApart(l.tiles, o.gap)
    ensures StripPromise(o, l)
  {
    var n := o.participantCount;
    TallestExactly(o, l.tileHeight);
    RightLine(o, l);
    if Sane(o) {
      RightStripInside(o, l.tiles, l.tileHeight);
      SpanFits(n, Min(1.0, STRIP_WIDTH / o.aspectRatio), o.gap, o.containerHeight);
      assert STRIP_WIDTH / o.aspectRatio > 0.0;
    }
    hide Span, Share, Inside, InLine, Tallest, AllApart, Steps;
  }

  lemma RightLine(o: Options, l: Layout)
    requires o.participantCount > 0 && |l.tiles| == o.participantCount
    requires forall i: nat | i < |l.tiles| ::
               l.tiles[i] == StripTile(Right, o.containerWidth - STRIP_WIDTH,
                                       Max(0.0, (o.containerHeight - Span(|l.tiles|, l.tileHeight, o.gap)) / 2.0),
                                       STRIP_WIDTH, l.tileHeight, o.gap, i)
    ensures InLine(seq(|l.tiles|, i requires 0 <= i < |l.tiles| => l.tiles[i].y), l.tileHeight, o.gap, o.containerHeight)
  {
    hide InLine, Span, Steps;
    LineExactly(seq(|l.tiles|, i requires 0 <= i < |l.tiles| => l.tiles[i].y), l.tileHeight, o.gap, o.containerHeight);
  }

  lemma BottomLine(o: Options, l: Layout)
    requires o.participantCount > 0 && |l.tiles| == o.participantCount
    requires forall i: nat | i < |l.tiles| ::
               l.tiles[i] == StripTile(Bottom, Max(0.0, (o.containerWidth - Span(|l.tiles|, l.tileWidth, o.gap)) / 2.0),
                                       o.containerHeight - STRIP_HEIGHT, l.tileWidth, l.tileHeight, o.gap, i)
    ensures InLine(seq(|l.tiles|, i requires 0 <= i < |l.tiles| => l.tiles[i].x), l.tileWidth, o.gap, o.containerWidth)
  {
    hide InLine, Span, Steps;
    LineExactly(seq(|l.tiles|, i requires 0 <= i < |l.tiles| => l.tiles[i].x), l.tileWidth, o.gap, o.containerWidth);
  }

  lemma RightStripInside(o: Options, tiles: seq<Tile>, tileHeight: real)
    requires Sane(o) && o.participantCount > 0 && |tiles| == o.participantCount
    requires tileHeight == Min(Max(1.0, Share(o.containerHeight, o.participantCount, o.gap)), STRIP_WIDTH / o.aspectRatio)
    requires forall i: nat | i < |tiles| ::
               tiles[i] == StripTile(Right, o.containerWidth - STRIP_WIDTH,
                                     Max(0.0, (o.containerHeight - Span(|tiles|, tileHeight, o.gap)) / 2.0),
                                     STRIP_WIDTH, tileHeight, o.gap, i)
    ensures (forall t | t in tiles :: Inside(t, o.containerWidth, o.containerHeight)) <==>
            o.containerWidth >= STRIP_WIDTH
            && Share(o.containerHeight, o.participantCount, o.gap) >= Min(1.0, STRIP_WIDTH / o.aspectRatio)
  {
    var n := |tiles|;
    assert STRIP_WIDTH / o.aspectRatio > 0.0;
    SpanFits(n, tileHeight, o.gap, o.containerHeight);
    assert Share(o.containerHeight, n, o.gap) >= Min(1.0, STRIP_WIDTH / o.aspectRatio)
      <==> Span(n, tileHeight, o.gap) <= o.containerHeight;
    hide Span, Share, Steps;
    forall i: nat | i < n
      ensures Span(n, tileHeight, o.gap) <= o.containerHeight && o.containerWidth >= STRIP_WIDTH
              ==> Inside(tiles[i], o.containerWidth, o.containerHeight)
    {
      LineFits(o.containerHeight, n, tileHeight, o.gap, i);
    }
    LineFits(o.containerHeight, n, tileHeight, o.gap, n - 1);
    assert tiles[n - 1] in tiles;
  }

  /** All tiles sit in a row of fixed height, shrunk when the row is too long. */
  method BottomStrip(o: Options, area: Tile) returns (l: Layout)
    requires o.aspectRatio != 0.0 && o.participantCount > 0
    requires area == Tile(0.0, 0.0, o.containerWidth, o.containerHeight - STRIP_HEIGHT - o.gap)
    ensures l.spotlight == Some(Spotlight(area, Bottom)) && StripPromise(o, l)
  {
    var n := o.participantCount;
    var tileHeight := STRIP_HEIGHT;
    var tileWidth := tileHeight * o.aspectRatio;
    if Span(n, tileWidth, o.gap) > o.containerWidth {
      tileWidth := Share(o.containerWidth, n, o.gap);
      tileHeight := tileWidth / o.aspectRatio;
    }
    assert STRIP_HEIGHT * o.aspectRatio / o.aspectRatio == STRIP_HEIGHT;
    var stripX := Max(0.0, (o.containerWidth - Span(n, tileWidth, o.gap)) / 2.0);
    var tiles := FillStrip(Bottom, stripX, area.height + o.gap, tileWidth, tileHeight, o.gap, n);
    l := Layout(tiles, 1, n, tileWidth, tileHeight, Some(Spotlight(area, Bottom)));
    hide StripPromise;
    BottomKeepsPromise(o, l);
  }

  lemma BottomKeepsPromise(o: Options, l: Layout)
    requires o.aspectRatio != 0.0 && o.participantCount > 0 && |l.tiles| == o.participantCount
    requires if Span(o.participantCount, STRIP_HEIGHT * o.aspectRatio, o.gap) > o.containerWidth
             then l.tileWidth == Share(o.containerWidth, o.participantCount, o.gap) && l.tileHeight == l.tileWidth / o.aspectRatio
             else l.tileHeight == STRIP_HEIGHT && l.tileWidth == STRIP_HEIGHT * o.aspectRatio
    requires l == Layout(l.tiles, 1, o.participantCount, l.tileWidth, l.tileHeight,
                         Some(Spotlight(Tile(0.0, 0.0, o.containerWidth, o.containerHeight - STRIP_HEIGHT - o.gap), Bottom)))
    requires forall i: nat | i < |l.tiles| ::
               l.tiles[i] == StripTile(Bottom, Max(0.0, (o.containerWidth - Span(|l.tiles|, l.tileWidth, o.gap)) / 2.0),
                                       o.containerHeight - STRIP_HEIGHT, l.tileWidth, l.tileHeight, o.gap, i)
    requires Sane(o) && l.tileWidth > 0.0 && l.tileHeight > 0.0 ==> AllApart(l.tiles, o.gap)
    ensures StripPromise(o, l)
  {
    BottomShape(o, l);
    WidestExactly(o, l.tileWidth);
    if Sane(o) {
      BottomStripSize(o, l.tileWidth, l.tileHeight);
      BottomKept(o, l);
    }
    hide Widest, StripShape, BottomPromise;
  }

  lemma BottomKept(o: Options, l: Layout)
    requires Sane(o) && o.participantCount > 0 && |l.tiles| == o.participantCount && l.tileHeight <= STRIP_HEIGHT
    requires l.tileWidth > 0.0 <==> (o.participantCount - 1) as real * o.gap < o.containerWidth
    requires Span(o.participantCount, l.tileWidth, o.gap) <= o.containerWidth
    requires forall i: nat | i < |l.tiles| ::
               l.tiles[i] == StripTile(Bottom, Max(0.0, (o.containerWidth - Span(|l.tiles|, l.tileWidth, o.gap)) / 2.0),
                                       o.containerHeight - STRIP_HEIGHT, l.tileWidth, l.tileHeight, o.gap, i)
    requires l.tileWidth > 0.0 ==> AllApart(l.tiles, o.gap)
    ensures BottomPromise(o, l, Tile(0.0, 0.0, o.containerWidth, o.containerHeight - STRIP_HEIGHT - o.gap))
  {
    if l.tileWidth > 0.0 { BottomStripInside(o, l.tiles, l.tileWidth, l.tileHeight); }
    hide Span, Inside, AllApart, Steps;
  }

  lemma BottomShape(o: Options, l: Layout)
    requires o.aspectRatio != 0.0 && o.participantCount > 0 && |l.tiles| == o.participantCount
    requires (l.tileHeight == STRIP_HEIGHT && l.tileWidth == STRIP_HEIGHT * o.aspectRatio) || l.tileHeight == l.tileWidth / o.aspectRatio
    requires l == Layout(l.tiles, 1, o.participantCount, l.tileWidth, l.tileHeight,
                         Some(Spotlight(Tile(0.0, 0.0, o.containerWidth, o.containerHeight - STRIP_HEIGHT - o.gap), Bottom)))
    requires forall i: nat | i < |l.tiles| ::
               l.tiles[i] == StripTile(Bottom, Max(0.0, (o.containerWidth - Span(|l.tiles|, l.tileWidth, o.gap)) / 2.0),
                                       o.containerHeight - STRIP_HEIGHT, l.tileWidth, l.tileHeight, o.gap, i)
    ensures StripShape(o, l)
  {
    assert STRIP_HEIGHT * o.aspectRatio / o.aspectRatio == STRIP_HEIGHT;
    BottomLine(o, l);
    hide Span, InLine, Steps;
  }

  /** A share is positive exactly when the gaps leave something of the length. */
  lemma SharePositive(total: real, n: nat, gap: real)
    requires n >= 1
    ensures Share(total, n, gap) > 0.0 <==> (n - 1) as real * gap < total
  {
    DivideLe(total - (n - 1) as real * gap, n as real, 0.0);
  }

  lemma BottomStripSize(o: Options, tileWidth: real, tileHeight: real)
    requires Sane(o) && o.participantCount > 0
    requires if Span(o.participantCount, STRIP_HEIGHT * o.aspectRatio, o.gap) > o.containerWidth
             then tileWidth == Share(o.containerWidth, o.participantCount, o.gap) && tileHeight == tileWidth / o.aspectRatio
             else tileHeight == STRIP_HEIGHT && tileWidth == STRIP_HEIGHT * o.aspectRatio
    ensures tileHeight == tileWidth / o.aspectRatio && tileHeight <= STRIP_HEIGHT
    ensures tileWidth > 0.0 <==> (o.participantCount - 1) as real * o.gap < o.containerWidth
    ensures tileWidth > 0.0 <==> tileHeight > 0.0
    ensures Span(o.participantCount, tileWidth, o.gap) <= o.containerWidth
  {
    hide Span, Share;
    var n, full := o.participantCount, STRIP_HEIGHT * o.aspectRatio;
    SpanFits(n, full, o.gap, o.containerWidth);
    SpanFits(n, tileWidth, o.gap, o.containerWidth);
    SharePositive(o.containerWidth, n, o.gap);
    DivideLe(tileWidth, o.aspectRatio, STRIP_HEIGHT);
    DivideLe(tileWidth, o.aspectRatio, 0.0);
    assert full > 0.0 && full / o.aspectRatio == STRIP_HEIGHT;
  }

  lemma BottomStripInside(o: Options, tiles: seq<Tile>, tileWidth: real, tileHeight: real)
    requires Sane(o) && o.participantCount > 0 && |tiles| == o.participantCount
    requires tileWidth > 0.0 && tileHeight <= STRIP_HEIGHT && Span(|tiles|, tileWidth, o.gap) <= o.containerWidth
    requires forall i: nat | i < |tiles| ::
               tiles[i] == StripTile(Bottom, Max(0.0, (o.containerWidth - Span(|tiles|, tileWidth, o.gap)) / 2.0),
                                     o.containerHeight - STRIP_HEIGHT, tileWidth, tileHeight, o.gap, i)
    ensures (forall t | t in tiles :: Inside(t, o.containerWidth, o.containerHeight)) <==> o.containerHeight >= STRIP_HEIGHT
  {
    hide Span, Steps;
    forall i: nat | i < |tiles|
      ensures o.containerHeight >= STRIP_HEIGHT ==> Inside(tiles[i], o.containerWidth, o.containerHeight)
    {
      LineFits(o.containerWidth, |tiles|, tileWidth, o.gap, i);
    }
    assert tiles[0] in tiles;
  }
}
