/** The deterministic merge of sparse contributions (subnet/core/outer_opt.py). Scalars
    are arbitrary types with arbitrary operations: nothing is associative, so every result
    below pins one exact order of additions. */
module SegmentMean {
  import opened Prelude

  /** fp32 values V, fp64 accumulators W. */
  datatype Scalars<!V, !W> = Scalars(
    zero: V, widen: V -> W, narrow: W -> V, wideZero: W, add: (W, W) -> W, divideBy: (W, nat) -> W)

  ghost predicate ZeroStaysZero<V, W>(ops: Scalars<V, W>) {
    ops.narrow(ops.divideBy(ops.wideZero, 1)) == ops.zero
  }

  datatype MergeError = NonPositiveSize | PeerCountMismatch | PairCountMismatch(peer: nat) | IndexOutOfRange

  // ---- what the merge means ----

  /** The values contributed at index i, in position order. */
  function Contributions<W>(idx: seq<int>, val: seq<W>, i: int): seq<W>
    requires |idx| == |val|
  {
    if idx == [] then []
    else
      var n := |idx| - 1;
      Contributions(idx[..n], val[..n], i) + if idx[n] == i then [val[n]] else []
  }

  /** The same over all peers: peer order first, then position. */
  function PeerContributions<V, W>(ops: Scalars<V, W>, indices: seq<seq<int>>, values: seq<seq<V>>, i: int): seq<W>
    requires Matched(indices, values)
  {
    if indices == [] then []
    else
      var n := |indices| - 1;
      PeerContributions(ops, indices[..n], values[..n], i) + Contributions(indices[n], Widened(ops, values[n]), i)
  }

  function Widened<V, W>(ops: Scalars<V, W>, vs: seq<V>): (r: seq<W>)
    ensures |r| == |vs|
  {
    seq(|vs|, k requires 0 <= k < |vs| => ops.widen(vs[k]))
  }

  ghost predicate Matched<V>(indices: seq<seq<int>>, values: seq<seq<V>>) {
    |indices| == |values| && forall k :: 0 <= k < |indices| ==> |indices[k]| == |values[k]|
  }

  /** Left fold of add from zero. */
  function Sum<V, W>(ops: Scalars<V, W>, s: seq<W>): W {
    if s == [] then ops.wideZero else ops.add(Sum(ops, s[..|s| - 1]), s[|s| - 1])
  }

  function MeanOf<V, W>(ops: Scalars<V, W>, s: seq<W>): V {
    ops.narrow(ops.divideBy(Sum(ops, s), if |s| == 0 then 1 else |s|))
  }

  ghost predicate InRange(indices: seq<seq<int>>, numel: int) {
    forall k, j :: 0 <= k < |indices| && 0 <= j < |indices[k]| ==> 0 <= indices[k][j] < numel
  }

  // ---- sorting ----

  ghost predicate IsStableOrder(order: seq<int>, keys: seq<int>) {
    && |order| == |keys|
    && (forall k :: 0 <= k < |order| ==> 0 <= order[k] < |keys|)
    && (forall p :: 0 <= p < |keys| ==> p in order)
    && forall j, k :: 0 <= j < k < |order| ==>
         keys[order[j]] < keys[order[k]] || (keys[order[j]] == keys[order[k]] && order[j] < order[k])
  }

  function Gathered<T>(s: seq<T>, order: seq<int>): (r: seq<T>)
    requires forall k :: 0 <= k < |order| ==> 0 <= order[k] < |s|
    ensures |r| == |order| && forall k :: 0 <= k < |order| ==> r[k] == s[order[k]]
  {
    seq(|order|, k requires 0 <= k < |order| => s[order[k]])
  }

  /** The entries of `order` whose key is i. */
  function Picked(order: seq<int>, keys: seq<int>, i: int): (r: seq<int>)
    requires forall k :: 0 <= k < |order| ==> 0 <= order[k] < |keys|
    ensures forall p :: p in r <==> p in order && 0 <= p < |keys| && keys[p] == i
    ensures forall k :: 0 <= k < |r| ==> r[k] in order && 0 <= r[k] < |keys|
  {
    if order == [] then []
    else
      var n := |order| - 1;
      Picked(order[..n], keys, i) + if keys[order[n]] == i then [order[n]] else []
  }

  function Iota(n: nat): (r: seq<int>)
    ensures |r| == n && forall k :: 0 <= k < n ==> r[k] == k
  {
    seq(n, k => k)
  }

  lemma {:induction false} PickedAscending(order: seq<int>, keys: seq<int>, i: int)
    requires forall k :: 0 <= k < |order| ==> 0 <= order[k] < |keys|
    requires forall j, k :: 0 <= j < k < |order| && keys[order[j]] == keys[order[k]] ==> order[j] < order[k]
    ensures Ascending(Picked(order, keys, i))
  {
    if order != [] {
      var n := |order| - 1;
      PickedAscending(order[..n], keys, i);
      if keys[order[n]] == i {
        var before := Picked(order[..n], keys, i);
        forall k | 0 <= k < |before| ensures before[k] < order[n] {
          assert before[k] in before && before[k] in order[..n];
          var j :| 0 <= j < n && order[j] == before[k];
        }
      }
    }
  }

  lemma {:induction false} ContributionsArePicked<W>(order: seq<int>, idx: seq<int>, val: seq<W>, i: int)
    requires |idx| == |val| && forall k :: 0 <= k < |order| ==> 0 <= order[k] < |idx|
    ensures Contributions(Gathered(idx, order), Gathered(val, order), i) == Gathered(val, Picked(order, idx, i))
  {
    if order != [] {
      var n := |order| - 1;
      ContributionsArePicked(order[..n], idx, val, i);
      assert Gathered(idx, order)[..n] == Gathered(idx, order[..n]);
      assert Gathered(val, order)[..n] == Gathered(val, order[..n]);
      if idx[order[n]] == i {
        assert Gathered(val, Picked(order, idx, i)) == Gathered(val, Picked(order[..n], idx, i)) + [val[order[n]]];
      }
    }
  }

  /** Stable sorting never reorders the contributions of an index. */
  lemma SortingKeepsContributions<W>(order: seq<int>, idx: seq<int>, val: seq<W>, i: int)
    requires |idx| == |val| && IsStableOrder(order, idx)
    ensures Contributions(Gathered(idx, order), Gathered(val, order), i) == Contributions(idx, val, i)
  {
    var id := Iota(|idx|);
    PickedAscending(order, idx, i);
    PickedAscending(id, idx, i);
    forall p ensures p in Picked(order, idx, i) <==> p in Picked(id, idx, i) {
      if 0 <= p < |idx| { assert id[p] in id; }
    }
    AscendingUnique(Picked(order, idx, i), Picked(id, idx, i));
    ContributionsArePicked(order, idx, val, i);
    ContributionsArePicked(id, idx, val, i);
    assert Gathered(idx, id) == idx && Gathered(val, id) == val;
  }

  lemma {:induction false} ContributionsConcat<W>(a: seq<int>, x: seq<W>, b: seq<int>, y: seq<W>, i: int)
    requires |a| == |x| && |b| == |y|
    ensures Contributions(a + b, x + y, i) == Contributions(a, x, i) + Contributions(b, y, i)
  {
    if b == [] {
      assert a + b == a && x + y == x;
    } else {
      var n := |b| - 1;
      ContributionsConcat(a, x, b[..n], y[..n], i);
      assert (a + b)[..|a| + n] == a + b[..n] && (x + y)[..|x| + n] == x + y[..n];
    }
  }

  // ---- the code ----

  lemma ContributionsPrefix<W>(idx: seq<int>, val: seq<W>, k: nat, i: int)
    requires |idx| == |val| && k < |idx|
    ensures Contributions(idx[..k + 1], val[..k + 1], i) == Contributions(idx[..k], val[..k], i) + if idx[k] == i then [val[k]] else []
  {
    assert idx[..k + 1][..k] == idx[..k] && val[..k + 1][..k] == val[..k];
  }

  lemma SumSnoc<V, W>(ops: Scalars<V, W>, s: seq<W>, x: W)
    ensures Sum(ops, s + [x]) == ops.add(Sum(ops, s), x)
  {
    assert (s + [x])[..|s|] == s;
  }

  ghost predicate Tallied<V, W>(ops: Scalars<V, W>, idx: seq<int>, val: seq<W>, k: nat, sums: seq<W>, counts: seq<nat>)
    requires |idx| == |val| && k <= |idx|
  {
    && |sums| == |counts|
    && forall i :: 0 <= i < |sums| ==> sums[i] == Sum(ops, Contributions(idx[..k], val[..k], i)) && counts[i] == |Contributions(idx[..k], val[..k], i)|
  }

  lemma TallyStep<V, W>(ops: Scalars<V, W>, idx: seq<int>, val: seq<W>, k: nat, sums: seq<W>, counts: seq<nat>)
    requires |idx| == |val| && k < |idx| && Tallied(ops, idx, val, k, sums, counts) && 0 <= idx[k] < |sums|
    ensures Tallied(ops, idx, val, k + 1, sums[idx[k] := ops.add(sums[idx[k]], val[k])], counts[idx[k] := counts[idx[k]] + 1])
  {
    var sums', counts' := sums[idx[k] := ops.add(sums[idx[k]], val[k])], counts[idx[k] := counts[idx[k]] + 1];
    forall i | 0 <= i < |sums|
      ensures sums'[i] == Sum(ops, Contributions(idx[..k + 1], val[..k + 1], i)) && counts'[i] == |Contributions(idx[..k + 1], val[..k + 1], i)|
    {
      ContributionsPrefix(idx, val, k, i);
      var before := Contributions(idx[..k], val[..k], i);
      SumSnoc(ops, before, val[k]);
      assert before + [] == before;
    }
  }

  /** torch.bincount with weights: a serial in-order loop. */
  method BinCount<V, W(0)>(ops: Scalars<V, W>, idx: seq<int>, val: seq<W>, numel: nat) returns (sums: array<W>, counts: array<nat>)
    requires |idx| == |val| && forall k :: 0 <= k < |idx| ==> 0 <= idx[k] < numel
    ensures sums.Length == counts.Length == numel
    ensures Tallied(ops, idx, val, |idx|, sums[..], counts[..])
  {
    sums := new W[numel](_ => ops.wideZero);
    counts := new nat[numel](_ => 0);
    for k := 0 to |idx|
      invariant Tallied(ops, idx, val, k, sums[..], counts[..])
    {
      TallyStep(ops, idx, val, k, sums[..], counts[..]);
      ghost var s, c := sums[..], counts[..];
      sums[idx[k]] := ops.add(sums[idx[k]], val[k]);
      counts[idx[k]] := counts[idx[k]] + 1;
      assert sums[..] == s[idx[k] := ops.add(s[idx[k]], val[k])] && counts[..] == c[idx[k] := c[idx[k]] + 1];
    }
  }

  /** Peer-order concatenation with the per-peer length check. */
  method Concatenate<V, W>(ops: Scalars<V, W>, indices: seq<seq<int>>, values: seq<seq<V>>)
      returns (bad: Option<nat>, idx: seq<int>, val: seq<W>)
    requires |indices| == |values|
    ensures bad == None <==> Matched(indices, values)
    ensures bad.Some? ==>
      bad.value < |indices| && |indices[bad.value]| != |values[bad.value]| && Matched(indices[..bad.value], values[..bad.value])
    ensures bad == None ==> |idx| == |val| && (forall i :: Contributions(idx, val, i) == PeerContributions(ops, indices, values, i))
    ensures bad == None ==> (forall numel :: InRange(indices, numel) <==> forall k :: 0 <= k < |idx| ==> 0 <= idx[k] < numel)
  {
    idx, val := [], [];
    for k := 0 to |indices|
      invariant Matched(indices[..k], values[..k]) && |idx| == |val|
      invariant forall i :: Contributions(idx, val, i) == PeerContributions(ops, indices[..k], values[..k], i)
      invariant forall x :: x in idx <==> Occurs(indices, k, x)
    {
      if |indices[k]| != |values[k]| {
        assert !Matched(indices, values);
        return Some(k), [], [];
      }
      var wide := Widened(ops, values[k]);
      forall i ensures Contributions(idx + indices[k], val + wide, i) == PeerContributions(ops, indices[..k + 1], values[..k + 1], i) {
        ContributionsConcat(idx, val, indices[k], wide, i);
        assert indices[..k + 1][..k] == indices[..k] && values[..k + 1][..k] == values[..k];
      }
      forall x ensures x in idx + indices[k] <==> Occurs(indices, k + 1, x) {
        if Occurs(indices, k, x) {
          var p :| 0 <= p < k && x in indices[p];
        }
      }
      idx, val := idx + indices[k], val + wide;
    }
    assert indices[..|indices|] == indices && values[..|values|] == values;
    forall numel ensures InRange(indices, numel) <==> forall k :: 0 <= k < |idx| ==> 0 <= idx[k] < numel {
      MembersBound(indices, idx, numel);
    }
    bad := None;
  }

  ghost predicate Occurs(indices: seq<seq<int>>, peers: nat, x: int) {
    exists p :: 0 <= p < peers <= |indices| && x in indices[p]
  }

  lemma MembersBound(indices: seq<seq<int>>, idx: seq<int>, numel: int)
    requires forall x :: x in idx <==> Occurs(indices, |indices|, x)
    ensures InRange(indices, numel) <==> forall k :: 0 <= k < |idx| ==> 0 <= idx[k] < numel
  {
    if InRange(indices, numel) {
      forall k | 0 <= k < |idx| ensures 0 <= idx[k] < numel {
        assert idx[k] in idx && Occurs(indices, |indices|, idx[k]);
        var p :| 0 <= p < |indices| && idx[k] in indices[p];
      }
    }
    if forall k :: 0 <= k < |idx| ==> 0 <= idx[k] < numel {
      forall p, j | 0 <= p < |indices| && 0 <= j < |indices[p]| ensures 0 <= indices[p][j] < numel {
        assert indices[p][j] in indices[p];
        assert Occurs(indices, |indices|, indices[p][j]);
      }
    }
  }

  /** The merge: at every index the mean of exactly that index's contributions, summed in
      peer order and then position order, whatever stable sort is used. */
  method DeterministicSegmentMean<V, W(0)>(ops: Scalars<V, W>, argsort: seq<int> -> seq<int>, indices: seq<seq<int>>, values: seq<seq<V>>, numel: int)
      returns (r: Result<seq<V>, MergeError>)
    requires ZeroStaysZero(ops) && forall s :: IsStableOrder(argsort(s), s)
    ensures r.Ok? <==> numel > 0 && Matched(indices, values) && InRange(indices, numel)
    ensures r.Ok? ==> |r.value| == numel && forall i :: 0 <= i < numel ==> r.value[i] == MeanOf(ops, PeerContributions(ops, indices, values, i))
    ensures r.Err? ==> match r.error
      case NonPositiveSize => numel <= 0
      case PeerCountMismatch => numel > 0 && |indices| != |values|
      case PairCountMismatch(k) => numel > 0 && |indices| == |values| && k < |indices| && |indices[k]| != |values[k]|
                                   && Matched(indices[..k], values[..k])
      case IndexOutOfRange => numel > 0 && Matched(indices, values)
  {
    if numel <= 0 { return Err(NonPositiveSize); }
    if |indices| != |values| { return Err(PeerCountMismatch); }
    if indices == [] {
      return Ok(seq(numel, _ => ops.zero));
    }
    var bad, idx, val := Concatenate(ops, indices, values);
    if bad.Some? { return Err(PairCountMismatch(bad.value)); }
    assert Matched(indices, values);
    if idx == [] {
      assert forall i :: PeerContributions(ops, indices, values, i) == Contributions(idx, val, i) == [];
      return Ok(seq(numel, _ => ops.zero));
    }
    if exists k :: 0 <= k < |idx| && !(0 <= idx[k] < numel) { return Err(IndexOutOfRange); }
    var order := argsort(idx);
    forall i ensures Contributions(Gathered(idx, order), Gathered(val, order), i) == PeerContributions(ops, indices, values, i) {
      SortingKeepsContributions(order, idx, val, i);
    }
    var sums, counts := BinCount(ops, Gathered(idx, order), Gathered(val, order), numel);
    var s, c := sums[..], counts[..];
    assert Gathered(idx, order)[..|idx|] == Gathered(idx, order) && Gathered(val, order)[..|idx|] == Gathered(val, order);
    r := Ok(seq(numel, i requires 0 <= i < numel => ops.narrow(ops.divideBy(s[i], if c[i] < 1 then 1 else c[i]))));
  }
}
