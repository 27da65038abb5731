/** dataprep/pipeline/shard_writer.py:40-98: fixed-length sequences written as content-addressed
    shards. A file holds the tokens written to it; the digest of those tokens and the file name
    made from its first 16 hex digits are parameters. */
module ShardWriter {
  import opened Grouping
  import opened Prelude

  type Sequence = seq<int>
  type Content = seq<int>

  datatype NdArray = NdArray(u16: bool, tokens: seq<int>)

  datatype Meta = Meta(file: string, hash: string, numSequences: nat)

  datatype Error = BadSizes | BadDtype | BadShape

  datatype Naming = Naming(hash: Content -> string, fileOf: string -> string)

  predicate Good(a: NdArray, seqLen: int) {
    a.u16 && |a.tokens| == seqLen
  }

  function Tokens(arrays: seq<NdArray>): (r: seq<Sequence>)
    ensures |r| == |arrays| && forall i :: 0 <= i < |r| ==> r[i] == arrays[i].tokens
  {
    if arrays == [] then [] else Tokens(arrays[..|arrays| - 1]) + [arrays[|arrays| - 1].tokens]
  }

  function MetaOf(n: Naming, shard: seq<Sequence>): Meta {
    var h := n.hash(Flatten(shard));
    Meta(n.fileOf(h), h, |shard|)
  }

  function Metas(n: Naming, shards: seq<seq<Sequence>>): (r: seq<Meta>)
    ensures |r| == |shards| && forall i :: 0 <= i < |r| ==> r[i] == MetaOf(n, shards[i])
  {
    if shards == [] then [] else Metas(n, shards[..|shards| - 1]) + [MetaOf(n, shards[|shards| - 1])]
  }

  /** The directory once the shards have been renamed into it one after the other. */
  function Stored(n: Naming, files: map<string, Content>, shards: seq<seq<Sequence>>): map<string, Content> {
    if shards == [] then files else
      var last := shards[|shards| - 1];
      Stored(n, files, shards[..|shards| - 1])[MetaOf(n, last).file := Flatten(last)]
  }

  class Writer {
    const naming: Naming
    const shardSequences: nat
    var files: map<string, Content>
    var inflight: Option<Content>
    var hashed: Content
    var count: nat
    var metas: seq<Meta>

    constructor (naming: Naming, shardSequences: nat, files: map<string, Content>)
      requires shardSequences > 0
      ensures this.naming == naming && this.shardSequences == shardSequences
      ensures Wrote([], [], files)
    {
      this.naming, this.shardSequences, this.files := naming, shardSequences, files;
      inflight, hashed, count, metas := None, [], 0, [];
    }

    /** `done` is finalized in whole shards, `open` is in flight, nothing else has been touched. */
    ghost predicate Wrote(done: seq<Sequence>, open: seq<Sequence>, start: map<string, Content>)
      reads this
    {
      && 0 < shardSequences && |open| < shardSequences
      && Stands(naming, shardSequences, done, start, files, metas)
      && InFlight(open, inflight, hashed, count)
    }

    /** finalize: rename the file in flight to the name its hash gives it. */
    method Finalize()
      requires inflight.Some? && inflight.value == hashed
      modifies this
      ensures var h := naming.hash(old(hashed));
              && files == old(files)[naming.fileOf(h) := old(hashed)]
              && metas == old(metas) + [Meta(naming.fileOf(h), h, old(count))]
      ensures inflight == None && hashed == [] && count == 0
    {
      var digest := naming.hash(hashed);
      var final := naming.fileOf(digest);
      files := files[final := inflight.value];
      inflight := None;
      metas := metas + [Meta(final, digest, count)];
      hashed, count := [], 0;
    }

    /** The loop body: one sequence. */
    method Append(x: Sequence, ghost done: seq<Sequence>, ghost open: seq<Sequence>, ghost start: map<string, Content>)
      requires Wrote(done, open, start)
      modifies this
      ensures if |open| + 1 < shardSequences then Wrote(done, open + [x], start) else Wrote(done + (open + [x]), [], start)
    {
      OneMoreInFlight(open, x, inflight, hashed, count);
      if inflight == None { inflight := Some([]); }
      inflight, hashed := Some(inflight.value + x), hashed + x;
      count := count + 1;
      if count == shardSequences {
        Finalize();
        ShardDone(naming, start, done, open + [x], shardSequences);
      }
    }

    /** The same, with where the sequence went. */
    method Take(x: Sequence, ghost done: seq<Sequence>, ghost open: seq<Sequence>, ghost start: map<string, Content>)
      returns (ghost done': seq<Sequence>, ghost open': seq<Sequence>)
      requires Wrote(done, open, start)
      modifies this
      ensures Wrote(done', open', start)
      ensures done' + open' == done + (open + [x]) || done' + open' == (done + (open + [x])) + []
    {
      Append(x, done, open, start);
      if |open| + 1 < shardSequences { done', open' := done, open + [x]; } else { done', open' := done + (open + [x]), []; }
    }

    /** After the last sequence: the short last shard, if one is in flight. */
    method Close(ghost done: seq<Sequence>, ghost open: seq<Sequence>, ghost start: map<string, Content>)
      requires Wrote(done, open, start)
      modifies this
      ensures files == Stored(naming, start, Chunks(done + open, shardSequences))
      ensures metas == Metas(naming, Chunks(done + open, shardSequences))
    {
      if inflight.Some? && count > 0 {
        Finalize();
        ShardDone(naming, start, done, open, shardSequences);
      } else {
        assert done + open == done;
      }
    }
  }

  /** The finalized shards, in the directory and in the metas. */
  ghost predicate Stands(n: Naming, k: nat, done: seq<Sequence>, start: map<string, Content>, files: map<string, Content>, metas: seq<Meta>)
    requires k > 0
  {
    AllFull(Chunks(done, k), k) && files == Stored(n, start, Chunks(done, k)) && metas == Metas(n, Chunks(done, k))
  }

  /** The temporary file, the running hash and the counter. */
  ghost predicate InFlight(open: seq<Sequence>, inflight: Option<Content>, hashed: Content, count: nat) {
    count == |open| && hashed == Flatten(open) && inflight == if count == 0 then None else Some(Flatten(open))
  }

  lemma OneMoreInFlight(open: seq<Sequence>, x: Sequence, inflight: Option<Content>, hashed: Content, count: nat)
    requires InFlight(open, inflight, hashed, count)
    ensures InFlight(open + [x], Some((if inflight == None then [] else inflight.value) + x), hashed + x, count + 1)
  {
    FlattenSnoc(open, x);
  }

  /** One more full shard. */
  lemma ShardDone(n: Naming, start: map<string, Content>, done: seq<Sequence>, shard: seq<Sequence>, k: nat)
    requires 0 < |shard| <= k && AllFull(Chunks(done, k), k)
    ensures Chunks(done + shard, k) == Chunks(done, k) + [shard]
    ensures Stored(n, start, Chunks(done + shard, k)) == Stored(n, start, Chunks(done, k))[MetaOf(n, shard).file := Flatten(shard)]
    ensures Metas(n, Chunks(done + shard, k)) == Metas(n, Chunks(done, k)) + [MetaOf(n, shard)]
    ensures |shard| == k ==> AllFull(Chunks(done + shard, k), k)
  {
    ChunksSnoc(done, shard, k);
  }

  lemma OneMore(arrays: seq<NdArray>, i: nat, done: seq<Sequence>, open: seq<Sequence>)
    requires i < |arrays| && done + open == Tokens(arrays[..i])
    ensures var x := arrays[i].tokens;
            && done + (open + [x]) == Tokens(arrays[..i + 1])
            && (done + (open + [x])) + [] == Tokens(arrays[..i + 1])
  {
    assert arrays[..i + 1][..i] == arrays[..i];
  }

  lemma {:induction false} FullLength<T>(parts: seq<seq<T>>, k: nat)
    requires AllFull(parts, k)
    ensures |Flatten(parts)| == |parts| * k
  {
    if parts != [] {
      FullLength(parts[1..], k);
      assert |parts| * k == k + (|parts| - 1) * k;
    }
  }

  /** The sequences that make up whole shards; the rest would still be in flight. */
  function InWholeShards(s: seq<Sequence>, k: nat): seq<Sequence>
    requires k > 0
  {
    DivisionBounds(|s|, k);
    MulMono(0, |s| / k, k);
    s[..|s| / k * k]
  }

  lemma WholeShards(done: seq<Sequence>, open: seq<Sequence>, k: nat)
    requires |open| < k && AllFull(Chunks(done, k), k)
    ensures done == InWholeShards(done + open, k)
  {
    ChunksHold(done, k);
    FullLength(Chunks(done, k), k);
    DivModUnique(|done + open|, k, |Chunks(done, k)|, |open|);
  }

  ghost predicate AllGood(arrays: seq<NdArray>, seqLen: int) {
    forall i :: 0 <= i < |arrays| ==> Good(arrays[i], seqLen)
  }

  lemma GoodNext(arrays: seq<NdArray>, i: nat, seqLen: int)
    requires i < |arrays| && AllGood(arrays[..i], seqLen) && Good(arrays[i], seqLen)
    ensures AllGood(arrays[..i + 1], seqLen)
  {
    assert arrays[..i + 1] == arrays[..i] + [arrays[i]];
  }

  lemma RefusedHere(naming: Naming, arrays: seq<NdArray>, k: nat, seqLen: int, start: map<string, Content>, i: nat,
                    done: seq<Sequence>, open: seq<Sequence>, files: map<string, Content>)
    requires k > 0 && i < |arrays| && AllGood(arrays[..i], seqLen) && !Good(arrays[i], seqLen)
    requires |open| < k && AllFull(Chunks(done, k), k) && files == Stored(naming, start, Chunks(done, k))
    requires done + open == Tokens(arrays[..i])
    ensures RefusedAt(naming, arrays, k, seqLen, start, i, if !arrays[i].u16 then BadDtype else BadShape, files)
    ensures !AllGood(arrays, seqLen)
  {
    WholeShards(done, open, k);
  }

  /** The array at i is the first bad one; what is raised, and the directory then. */
  ghost predicate RefusedAt(naming: Naming, arrays: seq<NdArray>, k: nat, seqLen: int, start: map<string, Content>, i: nat,
                            e: Error, files: map<string, Content>)
    requires k > 0 && i < |arrays|
  {
    && AllGood(arrays[..i], seqLen) && !Good(arrays[i], seqLen)
    && e == (if !arrays[i].u16 then BadDtype else BadShape)
    && files == Stored(naming, start, Chunks(InWholeShards(Tokens(arrays[..i]), k), k))
  }

  /** write_shards: the metas and the directory after it, and after it has refused a sequence: then
      the directory has gained the shards that were full before it. */
  method WriteShards(naming: Naming, arrays: seq<NdArray>, shardSequences: int, seqLen: int, start: map<string, Content>)
    returns (r: Result<seq<Meta>, Error>, files: map<string, Content>)
    ensures shardSequences <= 0 || seqLen <= 0 <==> r == Err(BadSizes)
    ensures r.Ok? <==> shardSequences > 0 && seqLen > 0 && AllGood(arrays, seqLen)
    ensures r.Ok? ==>
      var shards := Chunks(Tokens(arrays), shardSequences);
      r.value == Metas(naming, shards) && files == Stored(naming, start, shards)
    ensures r == Err(BadSizes) ==> files == start
    ensures r.Err? && r.error != BadSizes ==> exists i :: 0 <= i < |arrays| && RefusedAt(naming, arrays, shardSequences, seqLen, start, i, r.error, files)
  {
    files := start;
    if shardSequences <= 0 || seqLen <= 0 { return Err(BadSizes), files; }
    var w := new Writer(naming, shardSequences, start);
    ghost var done: seq<Sequence>, open: seq<Sequence> := [], [];
    for i := 0 to |arrays|
      invariant fresh(w) && w.naming == naming && w.shardSequences == shardSequences
      invariant w.Wrote(done, open, start) && done + open == Tokens(arrays[..i])
      invariant AllGood(arrays[..i], seqLen)
    {
      if !Good(arrays[i], seqLen) {
        r, files := Err(if !arrays[i].u16 then BadDtype else BadShape), w.files;
        RefusedHere(naming, arrays, shardSequences, seqLen, start, i, done, open, files);
        return;
      }
      OneMore(arrays, i, done, open);
      GoodNext(arrays, i, seqLen);
      done, open := w.Take(arrays[i].tokens, done, open, start);
    }
    assert arrays[..|arrays|] == arrays;
    w.Close(done, open, start);
    r, files := Ok(w.metas), w.files;
  }

  // ---- reading back ----

  /** No two different shards share a file name. */
  ghost predicate NamesTellApart(n: Naming, shards: seq<seq<Sequence>>) {
    forall i, j :: 0 <= i < j < |shards| && MetaOf(n, shards[i]).file == MetaOf(n, shards[j]).file ==> Flatten(shards[i]) == Flatten(shards[j])
  }

  ghost predicate AllReadBack(n: Naming, files: map<string, Content>, shards: seq<seq<Sequence>>) {
    forall i :: 0 <= i < |shards| ==> MetaOf(n, shards[i]).file in files && files[MetaOf(n, shards[i]).file] == Flatten(shards[i])
  }

  lemma {:induction false} StoredLast(n: Naming, start: map<string, Content>, shards: seq<seq<Sequence>>, i: nat)
    requires i < |shards|
    requires forall j :: i < j < |shards| && MetaOf(n, shards[j]).file == MetaOf(n, shards[i]).file ==> Flatten(shards[j]) == Flatten(shards[i])
    ensures var f := MetaOf(n, shards[i]).file;
            f in Stored(n, start, shards) && Stored(n, start, shards)[f] == Flatten(shards[i])
    decreases |shards|
  {
    var m := |shards| - 1;
    if i < m { StoredLast(n, start, shards[..m], i); }
  }

  /** Every shard can be read back by the name in its meta exactly when no two different shards share
      a name; read in meta order they are then the input, and only the last may be short. */
  lemma ReadBackExactly(n: Naming, start: map<string, Content>, sequences: seq<Sequence>, k: nat)
    requires k > 0
    ensures var shards := Chunks(sequences, k);
            && (AllReadBack(n, Stored(n, start, shards), shards) <==> NamesTellApart(n, shards))
            && Flatten(shards) == sequences && FullButLast(shards, k)
            && forall i :: 0 <= i < |shards| ==> Metas(n, shards)[i].numSequences == |shards[i]|
  {
    var shards := Chunks(sequences, k);
    ChunksHold(sequences, k);
    if NamesTellApart(n, shards) {
      forall i | 0 <= i < |shards|
        ensures var f := MetaOf(n, shards[i]).file; f in Stored(n, start, shards) && Stored(n, start, shards)[f] == Flatten(shards[i])
      {
        StoredLast(n, start, shards, i);
      }
    }
  }
}
