/** Two ways from a compressed tensor back to values: the dense decompression
    (subnet/core/compress.py) and the sparse pairs that enter the outer merge
    (subnet/core/checkpoint.py). */
module SparsePairs {
  import opened Prelude
  import opened BitPacking
  import opened Chunking

  datatype CompressedTensor = CompressedTensor(
    idxsPacked: seq<bv8>, codesPacked: seq<bv8>, nChunks: int, chunkElems: int, origShape: seq<int>, topk: nat)

  datatype SparseError = GeometryMismatch | CodesLength | BadCode | IndexesLength | IndexOutOfRange

  datatype Entry<V> = Entry(local: nat, value: V)

  /** The wire entries in order. The quantizer's lookup is a parameter: a code it has no
      bin for is None. */
  function ReadEntries<V>(g: Geometry, ct: CompressedTensor, dequantize: bv8 -> Option<V>): Result<seq<Entry<V>>, SparseError> {
    if (ct.nChunks, ct.chunkElems, ct.origShape) != (g.nChunks, g.chunkElems, g.shape) || g.nChunks < 0 then Err(GeometryMismatch)
    else
      var n: nat := ct.nChunks * ct.topk;
      if |ct.codesPacked| != Packed2Bytes(n) then Err(CodesLength)
      else
        var codes := Unpack2(ct.codesPacked, n);
        if exists k :: 0 <= k < n && dequantize(codes[k]) == None then Err(BadCode)
        else if |ct.idxsPacked| != Packed12Bytes(n) then Err(IndexesLength)
        else
          SizeUnpack12(ct.idxsPacked, n);
          var local := Unpack12(ct.idxsPacked, n);
          if exists k :: 0 <= k < n && local[k] as int >= g.chunkElems then Err(IndexOutOfRange)
          else Ok(seq(n, k requires 0 <= k < n => Entry(local[k] as nat, dequantize(codes[k]).value)))
  }

  /** Entry k belongs to chunk k / topk; its place in the flattened [n_chunks, chunk_elems] layout. */
  function Position<V>(g: Geometry, topk: nat, entries: seq<Entry<V>>, k: nat): int
    requires k < |entries| && topk > 0
  {
    (k / topk) * g.chunkElems + entries[k].local
  }

  // ---- dense ----

  function ScatterDense<V>(g: Geometry, topk: nat, entries: seq<Entry<V>>, n: nat, zero: V): (dense: seq<V>)
    requires n <= |entries| && (n > 0 ==> topk > 0) && g.PaddedNumel() >= 0
    ensures |dense| == g.PaddedNumel()
  {
    if n == 0 then seq(g.PaddedNumel(), _ => zero)
    else
      var before := ScatterDense(g, topk, entries, n - 1, zero);
      var pos := Position(g, topk, entries, n - 1);
      if 0 <= pos < |before| then before[pos := entries[n - 1].value] else before
  }

  function Decompress<V>(g: Geometry, tc: int, ct: CompressedTensor, dequantize: bv8 -> Option<V>, zero: V): Result<seq<V>, SparseError>
    requires Fits(g, tc)
  {
    match ReadEntries(g, ct, dequantize)
    case Err(e) => Err(e)
    case Ok(entries) =>
      EntriesNeedTopk(g, ct, dequantize);
      PaddedPositive(g, tc);
      Ok(Decode(g, tc, ScatterDense(g, ct.topk, entries, |entries|, zero)))
  }

  // ---- sparse ----

  /** The flat index of a chunk-local position, None when it falls in padding. */
  function FlatIndex(g: Geometry, tc: int, chunk: int, local: nat): Option<int>
    requires Fits(g, tc) && chunk >= 0
  {
    match g.mode
    case GridMode =>
      var blocksPerRow := g.padCols / tc;
      var row := (chunk / blocksPerRow) * tc + local / tc;
      var col := (chunk % blocksPerRow) * tc + local % tc;
      if row < g.rows && col < g.cols then Some(row * g.cols + col) else None
    case FlatMode =>
      var flat := chunk * g.chunkElems + local;
      if flat < g.Numel() then Some(flat) else None
  }

  function Pairs<V>(g: Geometry, tc: int, topk: nat, entries: seq<Entry<V>>, n: nat): seq<(int, V)>
    requires Fits(g, tc) && n <= |entries| && (n > 0 ==> topk > 0)
  {
    if n == 0 then []
    else
      var flat := FlatIndex(g, tc, (n - 1) / topk, entries[n - 1].local);
      Pairs(g, tc, topk, entries, n - 1) + if flat.Some? then [(flat.value, entries[n - 1].value)] else []
  }

  function SparsePairsFromCompressed<V>(g: Geometry, tc: int, ct: CompressedTensor, dequantize: bv8 -> Option<V>): Result<seq<(int, V)>, SparseError>
    requires Fits(g, tc)
  {
    match ReadEntries(g, ct, dequantize)
    case Err(e) => Err(e)
    case Ok(entries) =>
      EntriesNeedTopk(g, ct, dequantize);
      Ok(Pairs(g, tc, ct.topk, entries, |entries|))
  }

  /** Writing (index, value) pairs in order into a zero tensor. */
  function Scatter<V>(numel: nat, pairs: seq<(int, V)>, zero: V): (t: seq<V>)
    ensures |t| == numel
  {
    if pairs == [] then seq(numel, _ => zero)
    else
      var before := Scatter(numel, pairs[..|pairs| - 1], zero);
      var (i, v) := pairs[|pairs| - 1];
      if 0 <= i < numel then before[i := v] else before
  }

  // ---- agreement ----

  lemma PaddedPositive(g: Geometry, tc: int)
    requires Fits(g, tc)
    ensures g.PaddedNumel() >= 1 && g.Numel() >= 1
  {
    if g.mode == GridMode { MulPositive(g.padRows / tc, g.padCols / tc); }
    MulPositive(g.nChunks, g.chunkElems);
    MulPositive(g.rows, g.cols);
  }

  lemma EntriesNeedTopk<V>(g: Geometry, ct: CompressedTensor, dequantize: bv8 -> Option<V>)
    requires ReadEntries(g, ct, dequantize).Ok?
    ensures var es := ReadEntries(g, ct, dequantize).value;
            && (es != [] ==> ct.topk > 0) && |es| == g.nChunks * ct.topk && g.nChunks >= 0
            && forall k :: 0 <= k < |es| ==> es[k].local < g.chunkElems
  {
    if ct.topk == 0 { assert g.nChunks * ct.topk == 0; }
  }

  ghost predicate ValidEntries<V>(g: Geometry, topk: nat, entries: seq<Entry<V>>) {
    && g.nChunks >= 0 && |entries| == g.nChunks * topk && (entries != [] ==> topk > 0)
    && forall k :: 0 <= k < |entries| ==> entries[k].local < g.chunkElems
  }

  lemma PositionInRange<V>(g: Geometry, tc: int, topk: nat, entries: seq<Entry<V>>, k: nat)
    requires Fits(g, tc) && ValidEntries(g, topk, entries) && k < |entries|
    ensures 0 <= k / topk < g.nChunks
    ensures 0 <= Position(g, topk, entries, k) < g.PaddedNumel()
    ensures FlatIndex(g, tc, k / topk, entries[k].local) == FlatOf(g, tc, Position(g, topk, entries, k))
  {
    QuotientBound(k, topk, g.nChunks);
    RowMajor(k / topk, entries[k].local, g.nChunks, g.chunkElems);
    if g.mode == GridMode {
      var pos := Position(g, topk, entries, k);
      CellOfPos(g, tc, pos);
    }
  }

  /** A write at a chunked position shows in the decoded tensor at its flat index, and
      nowhere when the position is padding. */
  lemma DecodeAfterWrite<V>(g: Geometry, tc: int, x: seq<V>, pos: nat, v: V)
    requires Fits(g, tc) && |x| == g.PaddedNumel() && pos < |x|
    ensures var f := FlatOf(g, tc, pos);
            |Decode(g, tc, x)| == g.Numel() && (f.Some? ==> f.value < g.Numel())
            && Decode(g, tc, x[pos := v]) == if f.Some? then Decode(g, tc, x)[f.value := v] else Decode(g, tc, x)
  {
    PaddedPositive(g, tc);
    PositionsBiject(g, tc);
    var x', f := x[pos := v], FlatOf(g, tc, pos);
    DecodeAt(g, tc, x, 0);
    DecodeAt(g, tc, x', 0);
    var want := if f.Some? then Decode(g, tc, x)[f.value := v] else Decode(g, tc, x);
    forall k | 0 <= k < g.Numel() ensures Decode(g, tc, x')[k] == want[k] {
      DecodeAt(g, tc, x, k);
      DecodeAt(g, tc, x', k);
      assert PosOf(g, tc, k) == pos <==> f == Some(k);
    }
  }

  lemma DecodeOfZeros<V>(g: Geometry, tc: int, zero: V)
    requires Fits(g, tc)
    ensures g.PaddedNumel() >= 1 && g.Numel() >= 1
    ensures Decode(g, tc, seq(g.PaddedNumel(), _ => zero)) == seq(g.Numel(), _ => zero)
  {
    PaddedPositive(g, tc);
    var x := seq(g.PaddedNumel(), _ => zero);
    DecodeAt(g, tc, x, 0);
    forall k | 0 <= k < g.Numel() ensures Decode(g, tc, x)[k] == zero {
      DecodeAt(g, tc, x, k);
    }
  }

  /** One more entry, seen from both sides through its chunked position. */
  lemma EntryStep<V>(g: Geometry, tc: int, topk: nat, entries: seq<Entry<V>>, n: nat, zero: V)
    requires Fits(g, tc) && ValidEntries(g, topk, entries) && n < |entries|
    ensures g.PaddedNumel() >= 1 && 0 <= Position(g, topk, entries, n) < g.PaddedNumel()
    ensures var f, v, pos := FlatOf(g, tc, Position(g, topk, entries, n)), entries[n].value, Position(g, topk, entries, n);
            && ScatterDense(g, topk, entries, n + 1, zero) == ScatterDense(g, topk, entries, n, zero)[pos := v]
            && Pairs(g, tc, topk, entries, n + 1) == if f.Some? then Pairs(g, tc, topk, entries, n) + [(f.value, v)] else Pairs(g, tc, topk, entries, n)
  {
    PaddedPositive(g, tc);
    PositionInRange(g, tc, topk, entries, n);
    assert Pairs(g, tc, topk, entries, n) + [] == Pairs(g, tc, topk, entries, n);
  }

  lemma ScatterSnoc<V>(numel: nat, ps: seq<(int, V)>, i: nat, v: V, zero: V)
    requires i < numel
    ensures Scatter(numel, ps + [(i, v)], zero) == Scatter(numel, ps, zero)[i := v]
  {
    assert (ps + [(i, v)])[..|ps|] == ps;
  }

  lemma {:induction false} PrefixesAgree<V>(g: Geometry, tc: int, topk: nat, entries: seq<Entry<V>>, n: nat, zero: V)
    requires Fits(g, tc) && ValidEntries(g, topk, entries) && n <= |entries|
    requires g.PaddedNumel() >= 1 && g.Numel() >= 1
    ensures Scatter(g.Numel(), Pairs(g, tc, topk, entries, n), zero) == Decode(g, tc, ScatterDense(g, topk, entries, n, zero))
  {
    if n == 0 {
      DecodeOfZeros(g, tc, zero);
    } else {
      PrefixesAgree(g, tc, topk, entries, n - 1, zero);
      EntryStep(g, tc, topk, entries, n - 1, zero);
      var dense, pos, v := ScatterDense(g, topk, entries, n - 1, zero), Position(g, topk, entries, n - 1), entries[n - 1].value;
      DecodeAfterWrite(g, tc, dense, pos, v);
      var f := FlatOf(g, tc, pos);
      if f.Some? {
        ScatterSnoc(g.Numel(), Pairs(g, tc, topk, entries, n - 1), f.value, v, zero);
      }
    }
  }

  /** Both readings fail alike, and scattering the sparse pairs into zeros is the dense
      decompression, for every shape, tile size and wire content. */
  lemma ScatterIsDecompress<V>(shape: seq<int>, tc: int, ct: CompressedTensor, dequantize: bv8 -> Option<V>, zero: V)
    requires ChunkGeometry(shape, tc).Ok?
    ensures var g := ChunkGeometry(shape, tc).value;
            && Fits(g, tc) && g.Numel() >= 1
            && var dense, sparse := Decompress(g, tc, ct, dequantize, zero), SparsePairsFromCompressed(g, tc, ct, dequantize);
            && (dense.Ok? <==> sparse.Ok?)
            && (dense.Err? ==> sparse.Err? && dense.error == sparse.error)
            && (dense.Ok? ==> Scatter(g.Numel(), sparse.value, zero) == dense.value)
  {
    var g := ChunkGeometry(shape, tc).value;
    GeometryFits(shape, tc);
    PaddedPositive(g, tc);
    if ReadEntries(g, ct, dequantize).Ok? {
      var entries := ReadEntries(g, ct, dequantize).value;
      EntriesNeedTopk(g, ct, dequantize);
      PrefixesAgree(g, tc, ct.topk, entries, |entries|, zero);
    }
  }

  // ---- range and distinctness ----

  /** Whatever the wire holds, an accepted tensor's flat indices are inside the parameter. */
  lemma {:induction false} PairsInRange<V>(g: Geometry, tc: int, topk: nat, entries: seq<Entry<V>>, n: nat)
    requires Fits(g, tc) && ValidEntries(g, topk, entries) && n <= |entries|
    ensures forall i :: 0 <= i < |Pairs(g, tc, topk, entries, n)| ==> 0 <= Pairs(g, tc, topk, entries, n)[i].0 < g.Numel()
  {
    if n > 0 {
      PairsInRange(g, tc, topk, entries, n - 1);
      EntryStep(g, tc, topk, entries, n - 1, entries[n - 1].value);
      assert FlatAt(g, tc, topk, entries, n - 1) == FlatOf(g, tc, Position(g, topk, entries, n - 1));
    }
  }

  /** The canonical order compress emits: strictly increasing inside every chunk. */
  ghost predicate IncreasingPerChunk<V>(topk: nat, entries: seq<Entry<V>>)
    requires entries != [] ==> topk > 0
  {
    forall j, k :: 0 <= j < k < |entries| && j / topk == k / topk ==> entries[j].local < entries[k].local
  }

  lemma PositionsAscend<V>(g: Geometry, tc: int, topk: nat, entries: seq<Entry<V>>, j: nat, k: nat)
    requires Fits(g, tc) && ValidEntries(g, topk, entries) && j < k < |entries|
    requires IncreasingPerChunk(topk, entries)
    ensures Position(g, topk, entries, j) < Position(g, topk, entries, k)
  {
    var c, c' := j / topk, k / topk;
    DivisionBounds(j, topk);
    DivisionBounds(k, topk);
    if c' < c { MulStep(c, c', topk); }
    if c < c' { MulStep(c', c, g.chunkElems); }
  }

  ghost predicate Distinct<V>(ps: seq<(int, V)>) {
    forall i, j :: 0 <= i < j < |ps| ==> ps[i].0 != ps[j].0
  }

  lemma DistinctSnoc<V>(ps: seq<(int, V)>, x: (int, V))
    requires Distinct(ps) && forall i :: 0 <= i < |ps| ==> ps[i].0 != x.0
    ensures Distinct(ps + [x])
  {
  }

  /** Every pair comes from an entry whose chunked position it names. */
  ghost predicate FromEntries<V>(g: Geometry, tc: int, topk: nat, entries: seq<Entry<V>>, n: nat, ps: seq<(int, V)>)
    requires Fits(g, tc) && ValidEntries(g, topk, entries) && n <= |entries|
  {
    forall i :: 0 <= i < |ps| ==> NamedBefore(g, tc, topk, entries, n, ps[i].0)
  }

  ghost predicate NamedBefore<V>(g: Geometry, tc: int, topk: nat, entries: seq<Entry<V>>, n: nat, flat: int)
    requires Fits(g, tc) && ValidEntries(g, topk, entries) && n <= |entries|
  {
    exists k :: 0 <= k < n && FlatAt(g, tc, topk, entries, k) == Some(flat)
  }

  ghost function FlatAt<V>(g: Geometry, tc: int, topk: nat, entries: seq<Entry<V>>, k: nat): (f: Option<nat>)
    requires Fits(g, tc) && ValidEntries(g, topk, entries) && k < |entries|
    ensures f.Some? ==> f.value < g.Numel() && PosOf(g, tc, f.value) == Position(g, topk, entries, k)
  {
    PositionInRange(g, tc, topk, entries, k);
    PositionsBiject(g, tc);
    FlatOf(g, tc, Position(g, topk, entries, k))
  }

  /** The pairs with one entry more, unless it falls in padding. */
  ghost function WithPair<V>(ps: seq<(int, V)>, f: Option<nat>, v: V): seq<(int, V)> {
    if f.Some? then ps + [(f.value, v)] else ps
  }

  /** A pair already emitted sits at an earlier position, so a later entry names another index. */
  lemma LaterEntryIsNew<V>(g: Geometry, tc: int, topk: nat, entries: seq<Entry<V>>, n: nat, flat: int)
    requires Fits(g, tc) && ValidEntries(g, topk, entries) && n < |entries| && IncreasingPerChunk(topk, entries)
    requires NamedBefore(g, tc, topk, entries, n, flat)
    ensures NamedBefore(g, tc, topk, entries, n + 1, flat)
    ensures FlatAt(g, tc, topk, entries, n) != Some(flat)
  {
    var k :| 0 <= k < n && FlatAt(g, tc, topk, entries, k) == Some(flat);
    PositionsAscend(g, tc, topk, entries, k, n);
  }

  lemma FromEntriesStep<V>(g: Geometry, tc: int, topk: nat, entries: seq<Entry<V>>, n: nat, ps: seq<(int, V)>)
    requires Fits(g, tc) && ValidEntries(g, topk, entries) && n < |entries| && IncreasingPerChunk(topk, entries)
    requires FromEntries(g, tc, topk, entries, n, ps) && Distinct(ps)
    ensures var ps' := WithPair(ps, FlatAt(g, tc, topk, entries, n), entries[n].value);
            FromEntries(g, tc, topk, entries, n + 1, ps') && Distinct(ps')
  {
    var f := FlatAt(g, tc, topk, entries, n);
    forall i | 0 <= i < |ps| ensures NamedBefore(g, tc, topk, entries, n + 1, ps[i].0) && f != Some(ps[i].0) {
      LaterEntryIsNew(g, tc, topk, entries, n, ps[i].0);
    }
    if f.Some? {
      DistinctSnoc(ps, (f.value, entries[n].value));
      assert NamedBefore(g, tc, topk, entries, n + 1, f.value);
    }
  }

  lemma {:induction false} PairsDistinct<V>(g: Geometry, tc: int, topk: nat, entries: seq<Entry<V>>, n: nat, zero: V)
    requires Fits(g, tc) && ValidEntries(g, topk, entries) && n <= |entries|
    requires IncreasingPerChunk(topk, entries)
    ensures FromEntries(g, tc, topk, entries, n, Pairs(g, tc, topk, entries, n))
    ensures Distinct(Pairs(g, tc, topk, entries, n))
  {
    if n > 0 {
      PairsDistinct(g, tc, topk, entries, n - 1, zero);
      NextPair(g, tc, topk, entries, n - 1, zero);
      FromEntriesStep(g, tc, topk, entries, n - 1, Pairs(g, tc, topk, entries, n - 1));
    }
  }

  lemma NextPair<V>(g: Geometry, tc: int, topk: nat, entries: seq<Entry<V>>, n: nat, zero: V)
    requires Fits(g, tc) && ValidEntries(g, topk, entries) && n < |entries|
    ensures var f, ps := FlatAt(g, tc, topk, entries, n), Pairs(g, tc, topk, entries, n);
            Pairs(g, tc, topk, entries, n + 1) == WithPair(ps, f, entries[n].value)
  {
    EntryStep(g, tc, topk, entries, n, zero);
  }

  lemma DistinctAndInRange<V>(g: Geometry, tc: int, topk: nat, entries: seq<Entry<V>>)
    requires Fits(g, tc) && ValidEntries(g, topk, entries) && IncreasingPerChunk(topk, entries)
    ensures var ps := Pairs(g, tc, topk, entries, |entries|);
            && (forall i :: 0 <= i < |ps| ==> 0 <= ps[i].0 < g.Numel())
            && Distinct(ps)
  {
    if entries != [] {
      PairsDistinct(g, tc, topk, entries, |entries|, entries[0].value);
    }
  }

  /** With the canonical order, the flat indices handed to the merge are pairwise distinct
      and inside the parameter. */
  lemma SparseIndicesDistinct<V>(g: Geometry, tc: int, ct: CompressedTensor, dequantize: bv8 -> Option<V>, entries: seq<Entry<V>>)
    requires Fits(g, tc) && ReadEntries(g, ct, dequantize) == Ok(entries)
    requires (entries != [] ==> ct.topk > 0) && IncreasingPerChunk(ct.topk, entries)
    ensures var ps := Pairs(g, tc, ct.topk, entries, |entries|);
            && SparsePairsFromCompressed(g, tc, ct, dequantize) == Ok(ps)
            && (forall i :: 0 <= i < |ps| ==> 0 <= ps[i].0 < g.Numel())
            && Distinct(ps)
  {
    EntriesNeedTopk(g, ct, dequantize);
    DistinctAndInRange(g, tc, ct.topk, entries);
  }
}
