/** The padded tile layout (subnet/core/compress.py). A tensor is its row-major sequence
    of values, so reshapes that keep the order are invisible; padding, the axis
    permutation and cropping are written out as the code performs them. */
module Chunking {
  import opened Prelude

  datatype Mode = FlatMode | GridMode

  datatype Geometry = Geometry(
    shape: seq<int>, mode: Mode, rows: int, cols: int, padRows: int, padCols: int, nChunks: int, chunkElems: int)
  {
    function Numel(): int { rows * cols }
    function PaddedNumel(): int { nChunks * chunkElems }
  }

  datatype GeometryError = BadTile | ZeroSized

  function Product(s: seq<int>): int {
    if s == [] then 1 else s[0] * Product(s[1..])
  }

  function ChunkGeometry(shape: seq<int>, tc: int): Result<Geometry, GeometryError> {
    if tc < 1 then Err(BadTile)
    else if exists k :: 0 <= k < |shape| && shape[k] < 1 then Err(ZeroSized)
    else
      var chunkElems := tc * tc;
      if |shape| >= 2 then
        var rows, cols := Product(shape[..|shape| - 1]), shape[|shape| - 1];
        var padRows, padCols := CeilDiv(rows, tc) * tc, CeilDiv(cols, tc) * tc;
        Ok(Geometry(shape, GridMode, rows, cols, padRows, padCols, (padRows / tc) * (padCols / tc), chunkElems))
      else
        var numel := if shape == [] then 1 else shape[0];
        assert chunkElems > 0 by { MulPositive(tc, tc); }
        var nChunks := CeilDiv(numel, chunkElems);
        Ok(Geometry(shape, FlatMode, numel, 1, nChunks * chunkElems, 1, nChunks, chunkElems))
  }

  /** What chunk_geometry guarantees of its result. */
  predicate Fits(g: Geometry, tc: int) {
    && tc >= 1 && g.rows >= 1 && g.cols >= 1 && g.chunkElems == tc * tc >= 1
    && match g.mode
       case FlatMode => g.cols == 1 && g.nChunks >= 1 && g.rows <= g.nChunks * g.chunkElems
       case GridMode =>
         var a, b := g.padRows / tc, g.padCols / tc;
         a >= 1 && b >= 1 && g.padRows == a * tc && g.padCols == b * tc && g.nChunks == a * b
         && g.rows <= g.padRows && g.cols <= g.padCols
  }

  lemma {:induction false} ProductPositive(s: seq<int>)
    requires forall k :: 0 <= k < |s| ==> s[k] >= 1
    ensures Product(s) >= 1
  {
    if s != [] {
      ProductPositive(s[1..]);
      MulPositive(s[0], Product(s[1..]));
    }
  }

  lemma GeometryFits(shape: seq<int>, tc: int)
    requires ChunkGeometry(shape, tc).Ok?
    ensures Fits(ChunkGeometry(shape, tc).value, tc)
  {
    var g := ChunkGeometry(shape, tc).value;
    MulPositive(tc, tc);
    if |shape| >= 2 {
      ProductPositive(shape[..|shape| - 1]);
      CeilBounds(g.rows, tc);
      CeilBounds(g.cols, tc);
      var a, b := CeilDiv(g.rows, tc), CeilDiv(g.cols, tc);
      DivModUnique(g.padRows, tc, a, 0);
      DivModUnique(g.padCols, tc, b, 0);
    } else {
      CeilBounds(g.rows, tc * tc);
    }
  }

  // ---- the operations ----

  /** Zero-pad a rows x cols matrix to padRows x padCols. */
  function PadGrid<V>(t: seq<V>, rows: nat, cols: nat, padRows: nat, padCols: nat, zero: V): seq<V>
    requires |t| == rows * cols && padCols >= 1
  {
    seq(padRows * padCols, k requires 0 <= k < padRows * padCols =>
      var r, c := k / padCols, k % padCols;
      if 0 <= r < rows && 0 <= c < cols then (RowMajor(r, c, rows, cols); t[r * cols + c]) else zero)
  }

  /** (d0, d1, d2, d3) -> (d0, d2, d1, d3), the permutation (0, 2, 1, 3). */
  function Permute<V>(x: seq<V>, d0: nat, d1: nat, d2: nat, d3: nat): seq<V>
    requires d1 >= 1 && d2 >= 1 && d3 >= 1 && |x| == d0 * d1 * d2 * d3
  {
    seq(|x|, k requires 0 <= k < |x| =>
      SwapMiddle(d0, d1, d2, d3);
      var (p, q, r, s) := Unravel(k, d0, d2, d1, d3);
      Ravel(p, r, q, s, d0, d1, d2, d3);
      x[((p * d1 + r) * d2 + q) * d3 + s])
  }

  function Unravel(k: nat, d0: nat, d1: nat, d2: nat, d3: nat): (u: (nat, nat, nat, nat))
    requires d1 >= 1 && d2 >= 1 && d3 >= 1 && k < d0 * d1 * d2 * d3
    ensures u.0 < d0 && u.1 < d1 && u.2 < d2 && u.3 < d3
    ensures k == ((u.0 * d1 + u.1) * d2 + u.2) * d3 + u.3
  {
    UnravelBounds(k, d0, d1, d2, d3);
    (k / d3 / d2 / d1, (k / d3 / d2) % d1, (k / d3) % d2, k % d3)
  }

  lemma UnravelBounds(k: nat, d0: nat, d1: nat, d2: nat, d3: nat)
    requires d1 >= 1 && d2 >= 1 && d3 >= 1 && k < d0 * d1 * d2 * d3
    ensures var p, q, r, s := k / d3 / d2 / d1, (k / d3 / d2) % d1, (k / d3) % d2, k % d3;
            0 <= p < d0 && 0 <= q < d1 && 0 <= r < d2 && 0 <= s < d3 && k == ((p * d1 + q) * d2 + r) * d3 + s
  {
    QuotientBound(k, d3, d0 * d1 * d2);
    QuotientBound(k / d3, d2, d0 * d1);
    QuotientBound(k / d3 / d2, d1, d0);
    DivisionBounds(k, d3);
    DivisionBounds(k / d3, d2);
    DivisionBounds(k / d3 / d2, d1);
  }

  lemma Ravel(p: nat, q: nat, r: nat, s: nat, d0: nat, d1: nat, d2: nat, d3: nat)
    requires p < d0 && q < d1 && r < d2 && s < d3
    ensures 0 <= ((p * d1 + q) * d2 + r) * d3 + s < d0 * d1 * d2 * d3
  {
    RowMajor(p, q, d0, d1);
    RowMajor(p * d1 + q, r, d0 * d1, d2);
    RowMajor((p * d1 + q) * d2 + r, s, d0 * d1 * d2, d3);
  }

  lemma SwapMiddle(d0: nat, d1: nat, d2: nat, d3: nat)
    ensures d0 * d1 * d2 * d3 == d0 * d2 * d1 * d3
  {
    assert d0 * d1 * d2 == d0 * d2 * d1;
  }

  lemma FactorNonzero(k: nat, a: nat, b: nat)
    requires k < a * b
    ensures b > 0
  {
    MulMono(0, a, b);
  }

  function Crop<V>(full: seq<V>, rows: nat, cols: nat, padRows: nat, padCols: nat): seq<V>
    requires rows <= padRows && cols <= padCols && |full| == padRows * padCols
  {
    seq(rows * cols, k requires 0 <= k < rows * cols =>
      FactorNonzero(k, rows, cols);
      QuotientBound(k, cols, rows);
      RowMajor(k / cols, k % cols, padRows, padCols);
      full[(k / cols) * padCols + k % cols])
  }

  function Encode<V>(g: Geometry, tc: int, t: seq<V>, zero: V): seq<V>
    requires Fits(g, tc) && |t| == g.Numel()
  {
    match g.mode
    case FlatMode => t + seq(g.PaddedNumel() - |t|, _ => zero)
    case GridMode =>
      GridSizes(g, tc);
      Permute(PadGrid(t, g.rows, g.cols, g.padRows, g.padCols, zero), g.padRows / tc, tc, g.padCols / tc, tc)
  }

  function Decode<V>(g: Geometry, tc: int, x: seq<V>): seq<V>
    requires Fits(g, tc) && |x| == g.PaddedNumel()
  {
    match g.mode
    case FlatMode => x[..g.Numel()]
    case GridMode =>
      GridSizes(g, tc);
      Crop(Permute(x, g.padRows / tc, g.padCols / tc, tc, tc), g.rows, g.cols, g.padRows, g.padCols)
  }

  lemma GridSizes(g: Geometry, tc: int)
    requires Fits(g, tc) && g.mode == GridMode
    ensures var a, b := g.padRows / tc, g.padCols / tc;
            && a >= 1 && b >= 1 && g.padRows == a * tc && g.padCols == b * tc && g.nChunks == a * b
            && g.rows <= g.padRows && g.cols <= g.padCols
            && g.padRows * g.padCols == a * tc * b * tc == a * b * tc * tc == g.PaddedNumel()
  {
    var a, b := g.padRows / tc, g.padCols / tc;
    assert (a * tc) * (b * tc) == a * tc * b * tc;
    assert a * tc * b == a * b * tc;
    assert a * b * tc * tc == (a * b) * (tc * tc);
  }

  // ---- positions ----

  /** The flat index of the original tensor held at a position of the chunked layout;
      None where the position is padding. */
  function FlatOf(g: Geometry, tc: int, pos: nat): Option<nat>
    requires Fits(g, tc)
  {
    var chunk, local := pos / g.chunkElems, pos % g.chunkElems;
    match g.mode
    case FlatMode => if pos < g.Numel() then Some(pos) else None
    case GridMode =>
      var perRow := g.padCols / tc;
      var row := (chunk / perRow) * tc + local / tc;
      var col := (chunk % perRow) * tc + local % tc;
      if 0 <= row < g.rows && 0 <= col < g.cols then (RowMajor(row, col, g.rows, g.cols); Some(row * g.cols + col)) else None
  }

  /** The chunked position of a flat index. */
  function PosOf(g: Geometry, tc: int, flat: nat): int
    requires Fits(g, tc)
  {
    match g.mode
    case FlatMode => flat
    case GridMode =>
      var row, col := flat / g.cols, flat % g.cols;
      (((row / tc) * (g.padCols / tc) + col / tc) * tc + row % tc) * tc + col % tc
  }

  lemma DivDiv(p: nat, d: nat)
    requires d >= 1
    ensures d * d >= 1 && p / (d * d) == p / d / d && (p % (d * d)) / d == (p / d) % d && (p % (d * d)) % d == p % d
  {
    MulPositive(d, d);
    var j, u := p % d, p / d;
    DivisionBounds(p, d);
    var i, c := u % d, u / d;
    DivisionBounds(u, d);
    RowMajor(i, j, d, d);
    assert p == c * (d * d) + (i * d + j);
    DivModUnique(p, d * d, c, i * d + j);
  }

  lemma CellOfPos(g: Geometry, tc: int, pos: nat)
    requires Fits(g, tc) && g.mode == GridMode && pos < g.PaddedNumel()
    ensures var b := g.padCols / tc;
            var (p, q, r, s) := (pos / tc / tc / b, (pos / tc / tc) % b, (pos / tc) % tc, pos % tc);
            && 0 <= p * tc + r < g.padRows && 0 <= q * tc + s < g.padCols
            && (pos / g.chunkElems / b) * tc + (pos % g.chunkElems) / tc == p * tc + r
            && (pos / g.chunkElems % b) * tc + (pos % g.chunkElems) % tc == q * tc + s
            && 0 <= p < g.padRows / tc && 0 <= q < b && 0 <= r < tc && 0 <= s < tc
            && pos == ((p * b + q) * tc + r) * tc + s
  {
    GridSizes(g, tc);
    DivDiv(pos, tc);
    var a, b := g.padRows / tc, g.padCols / tc;
    assert pos < a * tc * b * tc;
    var (p, q, r, s) := Unravel(pos, a, b, tc, tc);
    RowMajor(p, r, a, tc);
    RowMajor(q, s, b, tc);
  }

  lemma PosOfCell(g: Geometry, tc: int, p: nat, r: nat, q: nat, s: nat)
    requires Fits(g, tc) && g.mode == GridMode
    requires p < g.padRows / tc && q < g.padCols / tc && r < tc && s < tc
    ensures var b := g.padCols / tc;
            var pos := ((p * b + q) * tc + r) * tc + s;
            && 0 <= pos < g.PaddedNumel()
            && pos / tc / tc / b == p && (pos / tc / tc) % b == q && (pos / tc) % tc == r && pos % tc == s
            && (p * tc + r) / tc == p && (p * tc + r) % tc == r && (q * tc + s) / tc == q && (q * tc + s) % tc == s
  {
    GridSizes(g, tc);
    var a, b := g.padRows / tc, g.padCols / tc;
    Ravel(p, q, r, s, a, b, tc, tc);
    RowMajor(p, q, a, b);
    RowMajor(p * b + q, r, a * b, tc);
    RowMajor((p * b + q) * tc + r, s, a * b * tc, tc);
    RowMajor(p, r, a, tc);
    RowMajor(q, s, b, tc);
  }

  /** Positions and flat indices are in bijection, padding apart. */
  lemma PositionsBiject(g: Geometry, tc: int)
    requires Fits(g, tc)
    ensures forall f: nat {:trigger PosOf(g, tc, f)} :: f < g.Numel() ==>
      0 <= PosOf(g, tc, f) < g.PaddedNumel() && FlatOf(g, tc, PosOf(g, tc, f)) == Some(f)
    ensures forall pos: nat {:trigger FlatOf(g, tc, pos)} :: pos < g.PaddedNumel() && FlatOf(g, tc, pos).Some? ==>
      FlatOf(g, tc, pos).value < g.Numel() && PosOf(g, tc, FlatOf(g, tc, pos).value) == pos
  {
    if g.mode == GridMode {
      forall f: nat | f < g.Numel()
        ensures 0 <= PosOf(g, tc, f) < g.PaddedNumel() && FlatOf(g, tc, PosOf(g, tc, f)) == Some(f)
      {
        PosThenFlat(g, tc, f);
      }
      forall pos: nat | pos < g.PaddedNumel() && FlatOf(g, tc, pos).Some?
        ensures FlatOf(g, tc, pos).value < g.Numel() && PosOf(g, tc, FlatOf(g, tc, pos).value) == pos
      {
        FlatThenPos(g, tc, pos);
      }
    }
  }

  lemma FlatOfCell(g: Geometry, tc: int, p: nat, r: nat, q: nat, s: nat)
    requires Fits(g, tc) && g.mode == GridMode
    requires p < g.padRows / tc && q < g.padCols / tc && r < tc && s < tc
    requires p * tc + r < g.rows && q * tc + s < g.cols
    ensures var pos := ((p * (g.padCols / tc) + q) * tc + r) * tc + s;
            0 <= pos < g.PaddedNumel() && FlatOf(g, tc, pos) == Some((p * tc + r) * g.cols + (q * tc + s))
  {
    PosOfCell(g, tc, p, r, q, s);
    CellOfPos(g, tc, ((p * (g.padCols / tc) + q) * tc + r) * tc + s);
  }

  lemma PosThenFlat(g: Geometry, tc: int, f: nat)
    requires Fits(g, tc) && g.mode == GridMode && f < g.Numel()
    ensures 0 <= PosOf(g, tc, f) < g.PaddedNumel() && FlatOf(g, tc, PosOf(g, tc, f)) == Some(f)
  {
    var row, col := f / g.cols, f % g.cols;
    DivisionBounds(f, g.cols);
    QuotientBound(f, g.cols, g.rows);
    DivisionBounds(row, tc);
    DivisionBounds(col, tc);
    QuotientBound(row, tc, g.padRows / tc);
    QuotientBound(col, tc, g.padCols / tc);
    FlatOfCell(g, tc, row / tc, row % tc, col / tc, col % tc);
  }

  lemma FlatThenPos(g: Geometry, tc: int, pos: nat)
    requires Fits(g, tc) && g.mode == GridMode && pos < g.PaddedNumel() && FlatOf(g, tc, pos).Some?
    ensures FlatOf(g, tc, pos).value < g.Numel() && PosOf(g, tc, FlatOf(g, tc, pos).value) == pos
  {
    CellOfPos(g, tc, pos);
    var b := g.padCols / tc;
    var p, q, r, s := pos / tc / tc / b, (pos / tc / tc) % b, (pos / tc) % tc, pos % tc;
    CellThenPos(g, tc, p, r, q, s);
    assert FlatOf(g, tc, pos) == Some((p * tc + r) * g.cols + (q * tc + s));
  }

  /** A cell inside the tensor, by its flat index and back. */
  lemma CellThenPos(g: Geometry, tc: int, p: nat, r: nat, q: nat, s: nat)
    requires Fits(g, tc) && g.mode == GridMode
    requires p < g.padRows / tc && q < g.padCols / tc && r < tc && s < tc
    requires p * tc + r < g.rows && q * tc + s < g.cols
    ensures var f := (p * tc + r) * g.cols + (q * tc + s);
            0 <= f < g.Numel() && PosOf(g, tc, f) == ((p * (g.padCols / tc) + q) * tc + r) * tc + s
  {
    MulMono(0, p, tc);
    MulMono(0, q, tc);
    RowMajor(p * tc + r, q * tc + s, g.rows, g.cols);
    DivModUnique(p * tc + r, tc, p, r);
    DivModUnique(q * tc + s, tc, q, s);
  }

  lemma UntiledAt<V>(g: Geometry, tc: int, x: seq<V>, p: nat, r: nat, q: nat, s: nat)
    requires Fits(g, tc) && g.mode == GridMode && |x| == g.PaddedNumel()
    requires p < g.padRows / tc && q < g.padCols / tc && r < tc && s < tc
    ensures var a, b := g.padRows / tc, g.padCols / tc;
            var row, col, pos := p * tc + r, q * tc + s, ((p * b + q) * tc + r) * tc + s;
            && 0 <= row < g.padRows && 0 <= col < g.padCols && |x| == a * b * tc * tc
            && |Permute(x, a, b, tc, tc)| == |x| == g.padRows * g.padCols
            && 0 <= row * g.padCols + col < |x| && 0 <= pos < |x| && Permute(x, a, b, tc, tc)[row * g.padCols + col] == x[pos]
  {
    GridSizes(g, tc);
    var a, b := g.padRows / tc, g.padCols / tc;
    RowMajor(p, r, a, tc);
    RowMajor(q, s, b, tc);
    PermuteAt(x, a, b, tc, tc, p, r, q, s);
    CellIndex(tc, b, p, r, q, s);
  }

  lemma DecodeAt<V>(g: Geometry, tc: int, x: seq<V>, f: nat)
    requires Fits(g, tc) && |x| == g.PaddedNumel() && f < g.Numel()
    ensures |Decode(g, tc, x)| == g.Numel() && 0 <= PosOf(g, tc, f) < |x| && Decode(g, tc, x)[f] == x[PosOf(g, tc, f)]
  {
    if g.mode == GridMode {
      var row, col := f / g.cols, f % g.cols;
      DivisionBounds(f, g.cols);
      QuotientBound(f, g.cols, g.rows);
      DivisionBounds(row, tc);
      DivisionBounds(col, tc);
      QuotientBound(row, tc, g.padRows / tc);
      QuotientBound(col, tc, g.padCols / tc);
      UntiledAt(g, tc, x, row / tc, row % tc, col / tc, col % tc);
    }
  }

  lemma CellIndex(tc: nat, b: nat, p: nat, r: nat, q: nat, s: nat)
    ensures ((p * tc + r) * b + q) * tc + s == (p * tc + r) * (b * tc) + (q * tc + s)
  {
  }

  /** Entry (p, r, q, s) of the permuted tensor is entry (p, q, r, s) of the argument. */
  lemma PermuteAt<V>(x: seq<V>, d0: nat, d1: nat, d2: nat, d3: nat, p: nat, r: nat, q: nat, s: nat)
    requires p < d0 && q < d1 && r < d2 && s < d3 && |x| == d0 * d1 * d2 * d3
    ensures 0 <= ((p * d2 + r) * d1 + q) * d3 + s < |x| == |Permute(x, d0, d1, d2, d3)|
    ensures 0 <= ((p * d1 + q) * d2 + r) * d3 + s < |x|
    ensures Permute(x, d0, d1, d2, d3)[((p * d2 + r) * d1 + q) * d3 + s] == x[((p * d1 + q) * d2 + r) * d3 + s]
  {
    Ravel(p, q, r, s, d0, d1, d2, d3);
    Ravel(p, r, q, s, d0, d2, d1, d3);
    SwapMiddle(d0, d1, d2, d3);
    var k := ((p * d2 + r) * d1 + q) * d3 + s;
    DivModUnique(k, d3, (p * d2 + r) * d1 + q, s);
    DivModUnique((p * d2 + r) * d1 + q, d1, p * d2 + r, q);
    DivModUnique(p * d2 + r, d2, p, r);
  }

  lemma EncodeAt<V>(g: Geometry, tc: int, t: seq<V>, zero: V, pos: nat)
    requires Fits(g, tc) && |t| == g.Numel() && pos < g.PaddedNumel()
    ensures |Encode(g, tc, t, zero)| == g.PaddedNumel()
    ensures var f := FlatOf(g, tc, pos);
            (f.Some? ==> f.value < |t|) && Encode(g, tc, t, zero)[pos] == if f.Some? then t[f.value] else zero
  {
    if g.mode == GridMode {
      GridSizes(g, tc);
      CellOfPos(g, tc, pos);
      var a, b := g.padRows / tc, g.padCols / tc;
      var p, q, r, s := pos / tc / tc / b, (pos / tc / tc) % b, (pos / tc) % tc, pos % tc;
      var padded := PadGrid(t, g.rows, g.cols, g.padRows, g.padCols, zero);
      PermuteAt(padded, a, tc, b, tc, p, q, r, s);
      CellIndex(tc, b, p, r, q, s);
      var row, col := p * tc + r, q * tc + s;
      RowMajor(row, col, g.padRows, g.padCols);
      if row < g.rows && col < g.cols { RowMajor(row, col, g.rows, g.cols); }
    }
  }

  // ---- results ----

  /** Decoding undoes encoding, for every shape and tile size. */
  lemma DecodeAfterEncode<V>(shape: seq<int>, tc: int, t: seq<V>, zero: V)
    requires ChunkGeometry(shape, tc).Ok? && |t| == ChunkGeometry(shape, tc).value.Numel()
    ensures var g := ChunkGeometry(shape, tc).value;
            Fits(g, tc) && |Encode(g, tc, t, zero)| == g.PaddedNumel() && Decode(g, tc, Encode(g, tc, t, zero)) == t
  {
    var g := ChunkGeometry(shape, tc).value;
    GeometryFits(shape, tc);
    if g.mode == GridMode {
      GridSizes(g, tc);
      EncodeAt(g, tc, t, zero, 0);
      var x := Encode(g, tc, t, zero);
      DecodeAt(g, tc, x, 0);
      forall f | 0 <= f < |t| ensures Decode(g, tc, x)[f] == t[f] {
        DecodeAt(g, tc, x, f);
        PosThenFlat(g, tc, f);
        EncodeAt(g, tc, t, zero, PosOf(g, tc, f));
      }
    }
  }

  ghost predicate PaddingIsZero<V>(g: Geometry, tc: int, x: seq<V>, zero: V)
    requires Fits(g, tc) && |x| == g.PaddedNumel()
  {
    match g.mode
    case FlatMode => forall k :: g.Numel() <= k < |x| ==> x[k] == zero
    case GridMode =>
      GridSizes(g, tc);
      forall pos: nat :: pos < |x| && FlatOf(g, tc, pos) == None ==> x[pos] == zero
  }

  /** Encoding undoes decoding exactly when every padding cell holds zero. */
  lemma EncodeAfterDecode<V>(shape: seq<int>, tc: int, x: seq<V>, zero: V)
    requires ChunkGeometry(shape, tc).Ok? && |x| == ChunkGeometry(shape, tc).value.PaddedNumel()
    ensures var g := ChunkGeometry(shape, tc).value;
            Fits(g, tc) && |Decode(g, tc, x)| == g.Numel()
            && (Encode(g, tc, Decode(g, tc, x), zero) == x <==> PaddingIsZero(g, tc, x, zero))
  {
    var g := ChunkGeometry(shape, tc).value;
    GeometryFits(shape, tc);
    if g.mode == GridMode {
      GridSizes(g, tc);
      MulPositive(g.rows, g.cols);
      DecodeAt(g, tc, x, 0);
      var t := Decode(g, tc, x);
      forall pos: nat | pos < |x|
        ensures |Encode(g, tc, t, zero)| == |x|
        ensures Encode(g, tc, t, zero)[pos] == if FlatOf(g, tc, pos).Some? then x[pos] else zero
      {
        EncodeAt(g, tc, t, zero, pos);
        if FlatOf(g, tc, pos).Some? {
          FlatThenPos(g, tc, pos);
          DecodeAt(g, tc, x, FlatOf(g, tc, pos).value);
        }
      }
      MulPositive(g.nChunks, g.chunkElems);
      EncodeAt(g, tc, t, zero, 0);
    } else {
      FlatEncodeDecode(g, tc, x, zero);
    }
  }

  lemma FlatEncodeDecode<V>(g: Geometry, tc: int, x: seq<V>, zero: V)
    requires Fits(g, tc) && g.mode == FlatMode && |x| == g.PaddedNumel()
    ensures Encode(g, tc, Decode(g, tc, x), zero) == x <==> PaddingIsZero(g, tc, x, zero)
  {
    var e := Encode(g, tc, Decode(g, tc, x), zero);
    assert |e| == |x| && forall k :: 0 <= k < |x| ==> e[k] == if k < g.Numel() then x[k] else zero;
  }
}
