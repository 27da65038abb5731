/** The data schedule of one window (mok_core/data/assignment.py and
    mok_core/data/window_dataset.py). The Philox draws are given: a function from a size
    to a permutation of that size. */
module BatchPlan {
  import opened Prelude

  datatype Dataset = Dataset(seqLen: int, numShards: int, shardBytes: int)

  datatype Shape = Shape(tokensPerRankMicrobatch: int, gradAccum: int, innerSteps: int, worldSize: int, seqLen: int)

  datatype PlanError =
    | RankOutOfRange | SeqLenMismatch | NonPositiveShape | UnevenMicrobatch
    | BadShardBytes | NotEnoughShards | NotEnoughSequences | BadReshape

  datatype Pair = Pair(shard: nat, sequence: nat)

  datatype Plan = Plan(shardIds: seq<nat>, globalPairs: seq<Pair>, schedule: seq<seq<seq<Pair>>>)

  ghost predicate IsPermutation(p: seq<nat>, n: nat) {
    |p| == n && (forall i :: 0 <= i < n ==> p[i] < n) && forall i, j :: 0 <= i < j < n ==> p[i] != p[j]
  }

  ghost predicate Permutes(draw: nat -> seq<nat>) {
    forall n :: IsPermutation(draw(n), n)
  }

  function TokensPerShard(ds: Dataset): Result<int, PlanError>
    requires ds.seqLen > 0
  {
    if ds.shardBytes <= 0 || ds.shardBytes % (2 * ds.seqLen) != 0 then Err(BadShardBytes) else Ok(ds.shardBytes / 2)
  }

  lemma ShardHoldsWholeSequences(ds: Dataset)
    requires ds.seqLen > 0 && TokensPerShard(ds).Ok?
    ensures var k := ds.shardBytes / (2 * ds.seqLen);
            k >= 1 && TokensPerShard(ds).value == k * ds.seqLen
  {
    var w := 2 * ds.seqLen;
    var k := ds.shardBytes / w;
    DivisionBounds(ds.shardBytes, w);
    assert ds.shardBytes == k * w;
    assert k * w == 2 * (k * ds.seqLen);
    if k <= 0 { MulMono(k, 0, w); }
  }

  function ShardIds(ds: Dataset, draw: nat -> seq<nat>, tokensNeeded: int): Result<seq<nat>, PlanError>
    requires ds.seqLen > 0 && tokensNeeded > 0 && Permutes(draw)
  {
    match TokensPerShard(ds)
    case Err(e) => Err(e)
    case Ok(perShard) =>
      var count := CeilDiv(tokensNeeded, perShard);
      if count > ds.numShards then Err(NotEnoughShards)
      else
        CeilBounds(tokensNeeded, perShard);
        assert IsPermutation(draw(ds.numShards), ds.numShards);
        Ok(draw(ds.numShards)[..count])
  }

  function SampleOrder(draw: nat -> seq<nat>, n: int, available: nat): Result<seq<nat>, PlanError>
    requires n > 0 && Permutes(draw)
  {
    assert IsPermutation(draw(available), available);
    if n > available then Err(NotEnoughSequences) else Ok(draw(available)[..n])
  }

  function SequencesPerWindow(sh: Shape): Result<int, PlanError> {
    if sh.tokensPerRankMicrobatch <= 0 || sh.gradAccum <= 0 || sh.innerSteps <= 0 || sh.worldSize <= 0 || sh.seqLen <= 0 then
      Err(NonPositiveShape)
    else if sh.tokensPerRankMicrobatch % sh.seqLen != 0 then Err(UnevenMicrobatch)
    else Ok((sh.tokensPerRankMicrobatch / sh.seqLen) * sh.gradAccum * sh.innerSteps * sh.worldSize)
  }

  /** a[start::step] */
  function Stride<T>(a: seq<T>, start: nat, step: nat): (r: seq<T>)
    requires step > 0
    decreases if start < |a| then |a| - start else 0
  {
    if start >= |a| then [] else [a[start]] + Stride(a, start + step, step)
  }

  /** Row-major reshape of a flat sequence to (a, b, c). */
  function Reshape<T>(flat: seq<T>, a: nat, b: nat, c: nat): seq<seq<seq<T>>>
    requires |flat| == a * b * c
  {
    seq(a, s requires 0 <= s < a =>
      seq(b, m requires 0 <= m < b =>
        seq(c, j requires 0 <= j < c =>
          RowMajorBound(a, b, c, s, m, j);
          flat[(s * b + m) * c + j])))
  }

  function Build(ds: Dataset, sh: Shape, rank: int, shardDraw: nat -> seq<nat>, orderDraw: nat -> seq<nat>): Result<Plan, PlanError>
    requires Permutes(shardDraw) && Permutes(orderDraw)
  {
    if !(0 <= rank < sh.worldSize) then Err(RankOutOfRange)
    else if sh.seqLen != ds.seqLen then Err(SeqLenMismatch)
    else match SequencesPerWindow(sh)
      case Err(e) => Err(e)
      case Ok(total) =>
        TotalPositive(sh);
        assert total * sh.seqLen > 0 by { MulPositive(total, sh.seqLen); }
        match ShardIds(ds, shardDraw, total * sh.seqLen)
        case Err(e) => Err(e)
        case Ok(shards) =>
          ShardHoldsWholeSequences(ds);
          var perShard := ds.shardBytes / (2 * sh.seqLen);
          var pool: nat := |shards| * perShard;
          match SampleOrder(orderDraw, total, pool)
          case Err(e) => Err(e)
          case Ok(order) =>
            assert IsPermutation(orderDraw(pool), pool);
            var pairs := GlobalPairs(shards, perShard, order);
            var local := Stride(pairs, rank, sh.worldSize);
            var perMicrobatch := sh.tokensPerRankMicrobatch / sh.seqLen;
            if perMicrobatch < 0 || |local| != sh.innerSteps * sh.gradAccum * perMicrobatch then Err(BadReshape)
            else Ok(Plan(shards, pairs, Reshape(local, sh.innerSteps, sh.gradAccum, perMicrobatch)))
  }

  /** Entry k of the draw, as a (shard, sequence) pair. */
  function GlobalPairs(shards: seq<nat>, perShard: int, order: seq<nat>): (r: seq<Pair>)
    requires perShard >= 1 && forall k :: 0 <= k < |order| ==> order[k] < |shards| * perShard
    ensures |r| == |order|
  {
    seq(|order|, k requires 0 <= k < |order| =>
      QuotientBound(order[k], perShard, |shards|);
      Pair(shards[order[k] / perShard], order[k] % perShard))
  }

  // ---- arithmetic ----

  lemma TotalPositive(sh: Shape)
    requires SequencesPerWindow(sh).Ok?
    ensures var k := sh.tokensPerRankMicrobatch / sh.seqLen;
            k >= 1 && SequencesPerWindow(sh).value == (sh.innerSteps * sh.gradAccum * k) * sh.worldSize > 0
            && sh.innerSteps * sh.gradAccum * k > 0
  {
    var k := sh.tokensPerRankMicrobatch / sh.seqLen;
    DivisionBounds(sh.tokensPerRankMicrobatch, sh.seqLen);
    if k <= 0 { MulMono(k, 0, sh.seqLen); }
    MulPositive(k, sh.gradAccum);
    MulPositive(k * sh.gradAccum, sh.innerSteps);
    assert k * sh.gradAccum * sh.innerSteps == sh.innerSteps * sh.gradAccum * k;
    MulPositive(sh.innerSteps * sh.gradAccum * k, sh.worldSize);
  }

  lemma RowMajorBound(a: nat, b: nat, c: nat, s: nat, m: nat, j: nat)
    requires s < a && m < b && j < c
    ensures 0 <= (s * b + m) * c + j < a * b * c
  {
    MulMono(s + 1, a, b);
    assert (s + 1) * b == s * b + b;
    assert 0 <= s * b;
    var row := s * b + m;
    MulMono(row + 1, a * b, c);
    assert (row + 1) * c == row * c + c;
    assert 0 <= row * c;
  }

  // ---- results ----

  /** Drawing enough shards for the tokens always leaves enough sequences to order. */
  lemma PoolCoversWindow(ds: Dataset, draw: nat -> seq<nat>, total: int)
    requires ds.seqLen > 0 && total > 0 && total * ds.seqLen > 0 && Permutes(draw)
    requires ShardIds(ds, draw, total * ds.seqLen).Ok?
    ensures |ShardIds(ds, draw, total * ds.seqLen).value| * (ds.shardBytes / (2 * ds.seqLen)) >= total
    ensures ShardIds(ds, draw, total * ds.seqLen).value != []
  {
    var n := |ShardIds(ds, draw, total * ds.seqLen).value|;
    var k := ds.shardBytes / (2 * ds.seqLen);
    ShardHoldsWholeSequences(ds);
    CeilBounds(total * ds.seqLen, TokensPerShard(ds).value);
    assert n * (k * ds.seqLen) == (n * k) * ds.seqLen;
    if n * k < total {
      MulStep(total, n * k, ds.seqLen);
    }
  }

  lemma {:induction false} StrideLength<T>(a: seq<T>, i: nat, start: nat, step: nat, rows: nat)
    requires start < step && start <= i && |a| == (i - start) + rows * step
    ensures |Stride(a, i, step)| == rows
    decreases rows
  {
    if rows > 0 {
      assert rows * step == step + (rows - 1) * step;
      MulMono(0, rows - 1, step);
      StrideLength(a, i + step, start, step, rows - 1);
    }
  }

  lemma {:induction false} StrideAt<T>(a: seq<T>, i: nat, step: nat, k: nat)
    requires step > 0 && i + step * k < |a|
    ensures k < |Stride(a, i, step)| && Stride(a, i, step)[k] == a[i + step * k]
    decreases k
  {
    MulMono(0, k, step);
    if k > 0 {
      assert step * k == step + step * (k - 1);
      StrideAt(a, i + step, step, k - 1);
      assert Stride(a, i, step)[k] == Stride(a, i + step, step)[k - 1];
    }
  }

  lemma StrideIs<T>(a: seq<T>, start: nat, step: nat, rows: nat)
    requires step > 0 && start < step
    requires |a| == rows * step
    ensures |Stride(a, start, step)| == rows
    ensures forall k {:trigger Stride(a, start, step)[k]} :: 0 <= k < rows ==>
      0 <= start + step * k < |a| && Stride(a, start, step)[k] == a[start + step * k]
  {
    StrideLength(a, start, start, step, rows);
    forall k | 0 <= k < rows ensures 0 <= start + step * k < |a| && Stride(a, start, step)[k] == a[start + step * k] {
      MulStep(rows, k, step);
      MulMono(0, k, step);
      StrideAt(a, start, step, k);
    }
  }

  /** The request is acceptable: exactly the caller-visible conditions, none of them about
      the pool or the reshape. */
  predicate Acceptable(ds: Dataset, sh: Shape, rank: int) {
    && 0 <= rank < sh.worldSize
    && sh.seqLen == ds.seqLen > 0
    && sh.tokensPerRankMicrobatch > 0 && sh.gradAccum > 0 && sh.innerSteps > 0
    && sh.tokensPerRankMicrobatch % sh.seqLen == 0
    && ds.shardBytes > 0 && ds.shardBytes % (2 * ds.seqLen) == 0
    && CeilDiv((sh.tokensPerRankMicrobatch / sh.seqLen) * sh.gradAccum * sh.innerSteps * sh.worldSize * sh.seqLen, ds.shardBytes / 2) <= ds.numShards
  }

  lemma BuildAcceptsExactly(ds: Dataset, sh: Shape, rank: int, shardDraw: nat -> seq<nat>, orderDraw: nat -> seq<nat>)
    requires Permutes(shardDraw) && Permutes(orderDraw)
    ensures Build(ds, sh, rank, shardDraw, orderDraw).Ok? <==> Acceptable(ds, sh, rank)
  {
    if 0 <= rank < sh.worldSize && sh.seqLen == ds.seqLen && SequencesPerWindow(sh).Ok? {
      var total := SequencesPerWindow(sh).value;
      TotalPositive(sh);
      MulPositive(total, sh.seqLen);
      if ShardIds(ds, shardDraw, total * sh.seqLen).Ok? {
        BuildReachesReshape(ds, sh, rank, shardDraw, orderDraw);
      }
    }
  }

  lemma BuildReachesReshape(ds: Dataset, sh: Shape, rank: int, shardDraw: nat -> seq<nat>, orderDraw: nat -> seq<nat>)
    requires Permutes(shardDraw) && Permutes(orderDraw)
    requires 0 <= rank < sh.worldSize && sh.seqLen == ds.seqLen > 0
    requires SequencesPerWindow(sh).Ok? && SequencesPerWindow(sh).value * sh.seqLen > 0
    requires ShardIds(ds, shardDraw, SequencesPerWindow(sh).value * sh.seqLen).Ok?
    ensures Build(ds, sh, rank, shardDraw, orderDraw).Ok?
    ensures var shards := ShardIds(ds, shardDraw, SequencesPerWindow(sh).value * sh.seqLen).value;
            var perShard := ds.shardBytes / (2 * ds.seqLen);
            var plan := Build(ds, sh, rank, shardDraw, orderDraw).value;
            var total := SequencesPerWindow(sh).value;
            var pool := |shards| * perShard;
            && perShard >= 1 && pool >= total > 0 && shards != []
            && plan.shardIds == shards
            && (forall k :: 0 <= k < total ==> total <= |orderDraw(pool)| && orderDraw(pool)[k] < pool)
            && plan.globalPairs == GlobalPairs(shards, perShard, orderDraw(pool)[..total])
            && var rows := sh.innerSteps * sh.gradAccum * (sh.tokensPerRankMicrobatch / sh.seqLen);
            && total == rows * sh.worldSize
            && |Stride(plan.globalPairs, rank, sh.worldSize)| == rows
            && sh.tokensPerRankMicrobatch / sh.seqLen >= 1
            && plan.schedule == Reshape(Stride(plan.globalPairs, rank, sh.worldSize), sh.innerSteps, sh.gradAccum, sh.tokensPerRankMicrobatch / sh.seqLen)
  {
    var total := SequencesPerWindow(sh).value;
    TotalPositive(sh);
    PoolCoversWindow(ds, shardDraw, total);
    ShardHoldsWholeSequences(ds);
    var shards := ShardIds(ds, shardDraw, total * sh.seqLen).value;
    var perShard := ds.shardBytes / (2 * sh.seqLen);
    var pool: nat := |shards| * perShard;
    assert IsPermutation(orderDraw(pool), pool);
    var pairs := GlobalPairs(shards, perShard, orderDraw(pool)[..total]);
    StrideIs(pairs, rank, sh.worldSize, sh.innerSteps * sh.gradAccum * (sh.tokensPerRankMicrobatch / sh.seqLen));
  }

  /** Every drawn pair names a real shard and a sequence inside it, no pair is drawn twice,
      and the list does not depend on the rank. Shards are full, as the source assumes. */
  lemma PairsDistinctAndInRange(ds: Dataset, sh: Shape, rank: int, shardDraw: nat -> seq<nat>, orderDraw: nat -> seq<nat>)
    requires Permutes(shardDraw) && Permutes(orderDraw)
    requires Build(ds, sh, rank, shardDraw, orderDraw).Ok?
    ensures var g := Build(ds, sh, rank, shardDraw, orderDraw).value.globalPairs;
            && (forall k :: 0 <= k < |g| ==> g[k].shard < ds.numShards && g[k].sequence < ds.shardBytes / (2 * ds.seqLen))
            && (forall k, l :: 0 <= k < l < |g| ==> g[k] != g[l])
            && forall r | 0 <= r < sh.worldSize :: Build(ds, sh, r, shardDraw, orderDraw).Ok? && Build(ds, sh, r, shardDraw, orderDraw).value.globalPairs == g
  {
    BuildAcceptsExactly(ds, sh, rank, shardDraw, orderDraw);
    TotalPositive(sh);
    var total := SequencesPerWindow(sh).value;
    MulPositive(total, sh.seqLen);
    BuildReachesReshape(ds, sh, rank, shardDraw, orderDraw);
    var shards := ShardIds(ds, shardDraw, total * sh.seqLen).value;
    var perShard := ds.shardBytes / (2 * ds.seqLen);
    var pool := |shards| * perShard;
    assert IsPermutation(shardDraw(ds.numShards), ds.numShards) && IsPermutation(orderDraw(pool), pool);
    var order := orderDraw(pool)[..total];
    PairsFromDraws(shards, perShard, order);
    assert forall k :: 0 <= k < total ==> FromDraw(shards, perShard, order[k], GlobalPairs(shards, perShard, order)[k]);
    forall r | 0 <= r < sh.worldSize
      ensures Build(ds, sh, r, shardDraw, orderDraw).Ok?
      ensures Build(ds, sh, r, shardDraw, orderDraw).value.globalPairs == Build(ds, sh, rank, shardDraw, orderDraw).value.globalPairs
    {
      BuildReachesReshape(ds, sh, r, shardDraw, orderDraw);
    }
  }

  lemma DifferentPlaces(perShard: int, x: nat, y: nat)
    requires perShard >= 1 && x != y
    ensures x / perShard != y / perShard || x % perShard != y % perShard
  {
    DivisionBounds(x, perShard);
    DivisionBounds(y, perShard);
  }

  lemma PairAt(shards: seq<nat>, perShard: int, order: seq<nat>, k: nat)
    requires perShard >= 1 && (forall i :: 0 <= i < |order| ==> order[i] < |shards| * perShard) && k < |order|
    ensures 0 <= order[k] / perShard < |shards| && 0 <= order[k] % perShard < perShard
    ensures GlobalPairs(shards, perShard, order)[k] == Pair(shards[order[k] / perShard], order[k] % perShard)
  {
    DivisionBounds(order[k], perShard);
    QuotientBound(order[k], perShard, |shards|);
  }

  /** The pair is the drawn shard and place of its draw, with no index out of range. */
  ghost predicate FromDraw(shards: seq<nat>, perShard: int, draw: nat, pair: Pair)
    requires perShard >= 1
  {
    && 0 <= draw / perShard < |shards| && pair.shard == shards[draw / perShard]
    && pair.sequence == draw % perShard < perShard
  }

  /** Each pair is the drawn shard and place of its draw, and different draws give different pairs. */
  lemma PairsFromDraws(shards: seq<nat>, perShard: int, order: seq<nat>)
    requires perShard >= 1
    requires forall i, j :: 0 <= i < j < |shards| ==> shards[i] != shards[j]
    requires forall i :: 0 <= i < |order| ==> order[i] < |shards| * perShard
    requires forall i, j :: 0 <= i < j < |order| ==> order[i] != order[j]
    ensures var g := GlobalPairs(shards, perShard, order);
            && (forall k :: 0 <= k < |g| ==> FromDraw(shards, perShard, order[k], g[k]))
            && forall k, l :: 0 <= k < l < |g| ==> g[k] != g[l]
  {
    var g := GlobalPairs(shards, perShard, order);
    forall k | 0 <= k < |g|
      ensures FromDraw(shards, perShard, order[k], g[k])
    {
      PairAt(shards, perShard, order, k);
    }
    forall k, l | 0 <= k < l < |g| ensures g[k] != g[l] { PairsDiffer(shards, perShard, order, k, l); }
  }

  lemma PairsDiffer(shards: seq<nat>, perShard: int, order: seq<nat>, k: nat, l: nat)
    requires perShard >= 1 && k < l < |order|
    requires forall i, j :: 0 <= i < j < |shards| ==> shards[i] != shards[j]
    requires forall i :: 0 <= i < |order| ==> order[i] < |shards| * perShard
    requires order[k] != order[l]
    ensures GlobalPairs(shards, perShard, order)[k] != GlobalPairs(shards, perShard, order)[l]
  {
    PairAt(shards, perShard, order, k);
    PairAt(shards, perShard, order, l);
    DifferentPlaces(perShard, order[k], order[l]);
    var a, b := order[k] / perShard, order[l] / perShard;
    if a < b { assert shards[a] != shards[b]; }
    if b < a { assert shards[b] != shards[a]; }
  }

  /** The place in the global order that a rank reads at (step, microbatch, slot). */
  function Place(world: nat, accum: nat, per: nat, rank: nat, s: nat, m: nat, j: nat): nat {
    rank + world * ((s * accum + m) * per + j)
  }

  /** schedule[s, m, j] of a rank is the global entry at that place. */
  lemma ScheduleReadsPlace(ds: Dataset, sh: Shape, rank: int, shardDraw: nat -> seq<nat>, orderDraw: nat -> seq<nat>, s: nat, m: nat, j: nat)
    requires Permutes(shardDraw) && Permutes(orderDraw)
    requires Build(ds, sh, rank, shardDraw, orderDraw).Ok?
    requires s < sh.innerSteps && m < sh.gradAccum && j < sh.tokensPerRankMicrobatch / sh.seqLen
    ensures var plan := Build(ds, sh, rank, shardDraw, orderDraw).value;
            var p := Place(sh.worldSize, sh.gradAccum, sh.tokensPerRankMicrobatch / sh.seqLen, rank, s, m, j);
            p < |plan.globalPairs| && |plan.schedule| == sh.innerSteps && |plan.schedule[s]| == sh.gradAccum
            && |plan.schedule[s][m]| == sh.tokensPerRankMicrobatch / sh.seqLen
            && plan.schedule[s][m][j] == plan.globalPairs[p]
  {
    BuildAcceptsExactly(ds, sh, rank, shardDraw, orderDraw);
    TotalPositive(sh);
    MulPositive(SequencesPerWindow(sh).value, sh.seqLen);
    BuildReachesReshape(ds, sh, rank, shardDraw, orderDraw);
    var per := sh.tokensPerRankMicrobatch / sh.seqLen;
    var plan := Build(ds, sh, rank, shardDraw, orderDraw).value;
    StrideIs(plan.globalPairs, rank, sh.worldSize, sh.innerSteps * sh.gradAccum * per);
    RowMajorBound(sh.innerSteps, sh.gradAccum, per, s, m, j);
    var local := Stride(plan.globalPairs, rank, sh.worldSize);
    assert plan.schedule[s][m][j] == local[(s * sh.gradAccum + m) * per + j];
  }

  lemma PlaceAt(world: nat, steps: nat, accum: nat, per: nat, g: nat) returns (r: nat, s: nat, m: nat, j: nat)
    requires world > 0 && accum > 0 && per > 0 && g < steps * accum * per * world
    ensures r < world && s < steps && m < accum && j < per && Place(world, accum, per, r, s, m, j) == g
  {
    var q := g / world;
    DivisionBounds(g, world);
    QuotientBound(g, world, steps * accum * per);
    var row := q / per;
    DivisionBounds(q, per);
    QuotientBound(q, per, steps * accum);
    DivisionBounds(row, accum);
    QuotientBound(row, accum, steps);
    r, s, m, j := g % world, row / accum, row % accum, q % per;
    assert s * accum + m == row && row * per + j == q;
  }

  lemma PlaceIs(world: nat, accum: nat, per: nat, r: nat, s: nat, m: nat, j: nat)
    requires r < world && m < accum && j < per
    ensures var g := Place(world, accum, per, r, s, m, j);
            && r == g % world && j == g / world % per && m == g / world / per % accum && s == g / world / per / accum
  {
    DivModUnique(Place(world, accum, per, r, s, m, j), world, (s * accum + m) * per + j, r);
    DivModUnique((s * accum + m) * per + j, per, s * accum + m, j);
    DivModUnique(s * accum + m, accum, s, m);
  }

  /** One slot of one microbatch of one step on one rank. */
  datatype Cell = Cell(rank: nat, step: nat, microbatch: nat, slot: nat)

  predicate InSchedule(sh: Shape, c: Cell) {
    sh.seqLen > 0 && c.rank < sh.worldSize && c.step < sh.innerSteps && c.microbatch < sh.gradAccum
    && c.slot < sh.tokensPerRankMicrobatch / sh.seqLen
  }

  /** The schedule that rank builds has this pair in the cell. */
  ghost predicate Reads(ds: Dataset, sh: Shape, shardDraw: nat -> seq<nat>, orderDraw: nat -> seq<nat>, c: Cell, pair: Pair)
    requires Permutes(shardDraw) && Permutes(orderDraw)
  {
    var plan := Build(ds, sh, c.rank, shardDraw, orderDraw);
    && InSchedule(sh, c) && plan.Ok? && c.step < |plan.value.schedule| && c.microbatch < |plan.value.schedule[c.step]|
    && c.slot < |plan.value.schedule[c.step][c.microbatch]|
    && plan.value.schedule[c.step][c.microbatch][c.slot] == pair
  }

  lemma CellReads(ds: Dataset, sh: Shape, rank: int, shardDraw: nat -> seq<nat>, orderDraw: nat -> seq<nat>, c: Cell)
    requires Permutes(shardDraw) && Permutes(orderDraw)
    requires Build(ds, sh, rank, shardDraw, orderDraw).Ok? && InSchedule(sh, c)
    ensures var g := Build(ds, sh, rank, shardDraw, orderDraw).value.globalPairs;
            var p := Place(sh.worldSize, sh.gradAccum, sh.tokensPerRankMicrobatch / sh.seqLen, c.rank, c.step, c.microbatch, c.slot);
            p < |g| && forall pair :: Reads(ds, sh, shardDraw, orderDraw, c, pair) <==> pair == g[p]
  {
    PairsDistinctAndInRange(ds, sh, rank, shardDraw, orderDraw);
    assert Build(ds, sh, c.rank, shardDraw, orderDraw).Ok?;
    ScheduleReadsPlace(ds, sh, c.rank, shardDraw, orderDraw, c.step, c.microbatch, c.slot);
  }

  lemma PlanSize(ds: Dataset, sh: Shape, rank: int, shardDraw: nat -> seq<nat>, orderDraw: nat -> seq<nat>)
    requires Permutes(shardDraw) && Permutes(orderDraw) && Build(ds, sh, rank, shardDraw, orderDraw).Ok?
    ensures sh.worldSize > 0 && sh.innerSteps > 0 && sh.gradAccum > 0 && sh.seqLen > 0 && sh.tokensPerRankMicrobatch / sh.seqLen > 0
    ensures |Build(ds, sh, rank, shardDraw, orderDraw).value.globalPairs|
         == sh.innerSteps * sh.gradAccum * (sh.tokensPerRankMicrobatch / sh.seqLen) * sh.worldSize
  {
    BuildAcceptsExactly(ds, sh, rank, shardDraw, orderDraw);
    TotalPositive(sh);
    MulPositive(SequencesPerWindow(sh).value, sh.seqLen);
    BuildReachesReshape(ds, sh, rank, shardDraw, orderDraw);
  }

  lemma SameCell(sh: Shape, c: Cell, d: Cell)
    requires InSchedule(sh, c) && InSchedule(sh, d)
    requires Place(sh.worldSize, sh.gradAccum, sh.tokensPerRankMicrobatch / sh.seqLen, c.rank, c.step, c.microbatch, c.slot)
          == Place(sh.worldSize, sh.gradAccum, sh.tokensPerRankMicrobatch / sh.seqLen, d.rank, d.step, d.microbatch, d.slot)
    ensures c == d
  {
    var per := sh.tokensPerRankMicrobatch / sh.seqLen;
    PlaceIs(sh.worldSize, sh.gradAccum, per, c.rank, c.step, c.microbatch, c.slot);
    PlaceIs(sh.worldSize, sh.gradAccum, per, d.rank, d.step, d.microbatch, d.slot);
  }

  /** The ranks' schedules partition the global pairs: every one of them is in exactly one cell of
      the schedules the ranks build. */
  lemma RanksPartition(ds: Dataset, sh: Shape, rank: int, shardDraw: nat -> seq<nat>, orderDraw: nat -> seq<nat>, g: nat)
    requires Permutes(shardDraw) && Permutes(orderDraw) && Build(ds, sh, rank, shardDraw, orderDraw).Ok?
    requires g < |Build(ds, sh, rank, shardDraw, orderDraw).value.globalPairs|
    ensures var pair := Build(ds, sh, rank, shardDraw, orderDraw).value.globalPairs[g];
            && (exists c :: Reads(ds, sh, shardDraw, orderDraw, c, pair))
            && forall c, d :: Reads(ds, sh, shardDraw, orderDraw, c, pair) && Reads(ds, sh, shardDraw, orderDraw, d, pair) ==> c == d
  {
    var pairs, per := Build(ds, sh, rank, shardDraw, orderDraw).value.globalPairs, sh.tokensPerRankMicrobatch / sh.seqLen;
    PlanSize(ds, sh, rank, shardDraw, orderDraw);
    var r0, s0, m0, j0 := PlaceAt(sh.worldSize, sh.innerSteps, sh.gradAccum, per, g);
    var home := Cell(r0, s0, m0, j0);
    CellReads(ds, sh, rank, shardDraw, orderDraw, home);
    assert Reads(ds, sh, shardDraw, orderDraw, home, pairs[g]);
    forall c | Reads(ds, sh, shardDraw, orderDraw, c, pairs[g]) ensures c == home {
      ReadsOnce(ds, sh, rank, shardDraw, orderDraw, c, home, g);
    }
  }

  lemma ReadsOnce(ds: Dataset, sh: Shape, rank: int, shardDraw: nat -> seq<nat>, orderDraw: nat -> seq<nat>, c: Cell, home: Cell, g: nat)
    requires Permutes(shardDraw) && Permutes(orderDraw) && Build(ds, sh, rank, shardDraw, orderDraw).Ok?
    requires g < |Build(ds, sh, rank, shardDraw, orderDraw).value.globalPairs| && InSchedule(sh, home)
    requires g == Place(sh.worldSize, sh.gradAccum, sh.tokensPerRankMicrobatch / sh.seqLen, home.rank, home.step, home.microbatch, home.slot)
    requires Reads(ds, sh, shardDraw, orderDraw, c, Build(ds, sh, rank, shardDraw, orderDraw).value.globalPairs[g])
    ensures c == home
  {
    CellReads(ds, sh, rank, shardDraw, orderDraw, c);
    PairsDistinctAndInRange(ds, sh, rank, shardDraw, orderDraw);
    SameCell(sh, c, home);
  }
}
