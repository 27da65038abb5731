/** One certified window put together (subnet/core/checkpoint.py:717-721): the gathered payloads become
    the outer step's inputs, sparse tensors through the wire format's own reading, and the step is
    applied. With it the runs of Lockstep speak about the named tensors and momentum buffers
    themselves. */
module CertifiedStep {
  import opened Prelude
  import opened BitPacking
  import Chunking
  import SparsePairs
  import SegmentMean
  import OuterInputs
  import opened OuterStep
  import Exchange
  import Consensus
  import CatchUp
  import Lockstep

  /** One compressed tensor and the parameters of its quantizer. */
  datatype Compressed<Q> = Compressed(tensor: SparsePairs.CompressedTensor, qparams: Q)

  type Payload<Q, V> = OuterInputs.Payload<Compressed<Q>, Tensor<V>>

  /** What a node is configured with: the compressor, the names it compresses, the outer step. */
  datatype Setup<!Q, !V, !W> = Setup(
    tc: int, dequantize: (Q, bv8) -> Option<V>, norm: seq<V> -> V, names: seq<int>,
    a: Arithmetic<V, W>, cfg: Config<V>, shapes: map<int, seq<nat>>)

  // ---- the conversion ----

  function Firsts<V>(ps: seq<(int, V)>): (r: seq<int>)
    ensures |r| == |ps| && forall i :: 0 <= i < |r| ==> r[i] == ps[i].0
  {
    seq(|ps|, i requires 0 <= i < |ps| => ps[i].0)
  }

  function Seconds<V>(ps: seq<(int, V)>): (r: seq<V>)
    ensures |r| == |ps| && forall i :: 0 <= i < |r| ==> r[i] == ps[i].1
  {
    seq(|ps|, i requires 0 <= i < |ps| => ps[i].1)
  }

  /** sparse_pairs_from_compressed under the geometry registered for the name. */
  function Convert<Q, V, W>(s: Setup<Q, V, W>, name: int, c: Compressed<Q>): Option<(seq<int>, seq<V>)> {
    if name in s.shapes && Chunking.ChunkGeometry(s.shapes[name], s.tc).Ok? then
      Chunking.GeometryFits(s.shapes[name], s.tc);
      match SparsePairs.SparsePairsFromCompressed(Chunking.ChunkGeometry(s.shapes[name], s.tc).value, s.tc, c.tensor, (code: bv8) => s.dequantize(c.qparams, code))
      case Err(_) => None
      case Ok(ps) => Some((Firsts(ps), Seconds(ps)))
    else None
  }

  function ConversionOf<Q, V, W>(s: Setup<Q, V, W>): OuterInputs.Conversion<Compressed<Q>, Tensor<V>, (seq<int>, seq<V>), V> {
    OuterInputs.Conversion((n, c) => Convert(s, n, c), (x: (seq<int>, seq<V>)) => s.norm(x.1), (t: Tensor<V>) => s.norm(t.data))
  }

  ghost function Build<Q, V, W>(s: Setup<Q, V, W>, payloads: seq<(int, Payload<Q, V>)>): Option<Inputs<V>> {
    OuterInputs.OuterInputsOf(ConversionOf(s), payloads, s.names)
  }

  // ---- the step ----

  type Tensors<V> = map<int, Tensor<V>>

  type Momenta<V> = map<int, seq<V>>

  ghost function StepOf<Q, V, W>(s: Setup<Q, V, W>, node: CatchUp.Node<Tensors<V>, Momenta<V>>, inputs: Inputs<V>)
    : CatchUp.Stepped<Tensors<V>, Momenta<V>>
  {
    var w := Walk(s.a, s.cfg, s.shapes, inputs, Sorted(node.theta.Keys), node.theta, node.momentum);
    if w.error == None then CatchUp.Done(CatchUp.Node(w.tensors, w.momentum)) else CatchUp.Broke(CatchUp.Node(w.tensors, w.momentum))
  }

  lemma ApplyIsStepOf<Q, V, W>(s: Setup<Q, V, W>, node: CatchUp.Node<Tensors<V>, Momenta<V>>, inputs: Inputs<V>, w: Walked<V>)
    requires forall n :: n in s.shapes ==> n in node.momentum
    requires Ends(s.a, s.cfg, s.shapes, inputs, Sorted(node.theta.Keys), node.theta, node.momentum, w)
    ensures StepOf(s, node, inputs).node == CatchUp.Node(w.tensors, w.momentum)
    ensures StepOf(s, node, inputs).Done? <==> w.error == None
  {
    var names := Sorted(node.theta.Keys);
    WalkEnds(s.a, s.cfg, s.shapes, inputs, names, node.theta, node.momentum);
    OutcomeUnique(s.a, s.cfg, s.shapes, inputs, names, node.theta, node.momentum, w, Walk(s.a, s.cfg, s.shapes, inputs, names, node.theta, node.momentum));
  }

  // ---- what the two methods promise leaves no freedom ----

  type State<V> = CatchUp.Node<Tensors<V>, Momenta<V>>

  /** A window applied as the contracts of build_outer_inputs and apply allow. */
  ghost predicate StepsTo<Q, V(!new), W>(s: Setup<Q, V, W>, payloads: seq<(int, Payload<Q, V>)>, before: State<V>, after: State<V>) {
    exists inputs: Inputs<V>, done: nat ::
      && IsBuilt(s, payloads, inputs)
      && Ends(s.a, s.cfg, s.shapes, inputs, Sorted(before.theta.Keys), before.theta, before.momentum, Walked(after.theta, after.momentum, None, done))
  }

  ghost predicate IsBuilt<Q, V, W>(s: Setup<Q, V, W>, payloads: seq<(int, Payload<Q, V>)>, inputs: Inputs<V>) {
    var names, dense, ps := OuterInputs.NameSet(s.names), OuterInputs.CohortDense(payloads), OuterInputs.Payloads(payloads);
    OuterInputs.AllComplete(ConversionOf(s), names, dense, ps) && OuterInputs.Built(ConversionOf(s), names, dense, ps, inputs)
  }

  /** Every registered name has a momentum buffer. */
  ghost predicate Ready<Q, V, W>(s: Setup<Q, V, W>, node: State<V>) {
    forall n :: n in s.shapes ==> n in node.momentum
  }

  lemma StepsToIs<Q, V(!new), W>(s: Setup<Q, V, W>, payloads: seq<(int, Payload<Q, V>)>, before: State<V>, after: State<V>)
    requires Ready(s, before) && Ascending(OuterInputs.Uids(payloads)) && StepsTo(s, payloads, before, after)
    ensures Build(s, payloads).Some? && StepOf(s, before, Build(s, payloads).value) == CatchUp.Done(after)
    ensures Ready(s, after)
  {
    var inputs: Inputs<V>, done: nat :|
      && IsBuilt(s, payloads, inputs)
      && Ends(s.a, s.cfg, s.shapes, inputs, Sorted(before.theta.Keys), before.theta, before.momentum, Walked(after.theta, after.momentum, None, done));
    OuterInputs.BuiltIs(ConversionOf(s), OuterInputs.NameSet(s.names), OuterInputs.CohortDense(payloads), OuterInputs.Payloads(payloads), inputs);
    ApplyIsStepOf(s, before, inputs, Walked(after.theta, after.momentum, None, done));
  }

  /** Every dense tensor of the payloads holds as many values as its shape says. */
  ghost predicate DenseFit<Q, V>(payloads: seq<(int, Payload<Q, V>)>) {
    forall i, n :: 0 <= i < |payloads| && n in payloads[i].1.dense ==> Fits(payloads[i].1.dense[n])
  }

  lemma {:induction false} ColumnsFit<Q, V>(dense: set<int>, ps: seq<Payload<Q, V>>, n: int)
    requires forall i, m :: 0 <= i < |ps| && m in ps[i].dense ==> Fits(ps[i].dense[m])
    ensures forall k :: 0 <= k < |OuterInputs.DenseColumn(dense, ps, n)| ==> Fits(OuterInputs.DenseColumn(dense, ps, n)[k])
  {
    if ps != [] { ColumnsFit(dense, ps[..|ps| - 1], n); }
  }

  /** What the functions and the contracts above say of the window: refused payloads change nothing,
      otherwise it is the step, complete or broken off. */
  ghost predicate WindowDone<Q, V(!new), W>(s: Setup<Q, V, W>, payloads: seq<(int, Payload<Q, V>)>, before: State<V>, after: State<V>, ok: bool) {
    && (ok ==> StepsTo(s, payloads, before, after))
    && match Build(s, payloads)
       case None => !ok && after == before
       case Some(inputs) => (ok <==> StepOf(s, before, inputs).Done?) && after == StepOf(s, before, inputs).node
  }

  lemma WindowEnds<Q, V(!new), W>(s: Setup<Q, V, W>, payloads: seq<(int, Payload<Q, V>)>, before: State<V>, inputs: Inputs<V>, w: Walked<V>)
    requires Ready(s, before) && IsBuilt(s, payloads, inputs) && Build(s, payloads) == Some(inputs)
    requires Ends(s.a, s.cfg, s.shapes, inputs, Sorted(before.theta.Keys), before.theta, before.momentum, w)
    ensures WindowDone(s, payloads, before, CatchUp.Node(w.tensors, w.momentum), w.error == None)
  {
    ApplyIsStepOf(s, before, inputs, w);
    if w.error == None { assert w == Walked(w.tensors, w.momentum, None, w.done); }
  }

  lemma BuiltFits<Q, V, W>(s: Setup<Q, V, W>, payloads: seq<(int, Payload<Q, V>)>, inputs: Inputs<V>, n: int)
    requires DenseFit(payloads) && IsBuilt(s, payloads, inputs) && n in inputs.dense
    ensures forall k :: 0 <= k < |inputs.dense[n]| ==> Fits(inputs.dense[n][k])
  {
    ColumnsFit(OuterInputs.CohortDense(payloads), OuterInputs.Payloads(payloads), n);
    assert OuterInputs.Listed(inputs.dense, n, OuterInputs.DenseColumn(OuterInputs.CohortDense(payloads), OuterInputs.Payloads(payloads), n));
  }

  /** The second half: the outer step on what was built. */
  method ApplyBuilt<Q, V(!new), W(0)>(s: Setup<Q, V, W>, outer: ReplicatedOuterStep<V, W>, params: OuterStep.Params<V>,
                                      ghost payloads: seq<(int, Payload<Q, V>)>, inputs: Inputs<V>)
    returns (ok: bool)
    requires outer.Valid() && outer.a == s.a && outer.cfg == s.cfg && outer.shapes == s.shapes
    requires forall n :: n in params.tensors ==> Fits(params.tensors[n])
    requires DenseFit(payloads) && IsBuilt(s, payloads, inputs) && Build(s, payloads) == Some(inputs)
    modifies outer, params
    ensures outer.Valid() && forall n :: n in params.tensors ==> Fits(params.tensors[n])
    ensures WindowDone(s, payloads, CatchUp.Node(old(params.tensors), old(outer.momentum)), CatchUp.Node(params.tensors, outer.momentum), ok)
  {
    ghost var before := CatchUp.Node(params.tensors, outer.momentum);
    forall n, k | n in inputs.dense && 0 <= k < |inputs.dense[n]| ensures Fits(inputs.dense[n][k]) { BuiltFits(s, payloads, inputs, n); }
    var error, done := outer.Apply(params, inputs);
    WindowEnds(s, payloads, before, inputs, Walked(params.tensors, outer.momentum, error, done));
    ok := error == None;
  }

  /** Conversion, then the outer step in place. */
  method ApplyWindow<Q, V(!new), W(0)>(s: Setup<Q, V, W>, outer: ReplicatedOuterStep<V, W>, params: OuterStep.Params<V>, payloads: seq<(int, Payload<Q, V>)>)
    returns (ok: bool)
    requires outer.Valid() && outer.a == s.a && outer.cfg == s.cfg && outer.shapes == s.shapes
    requires (forall n :: n in params.tensors ==> Fits(params.tensors[n])) && DenseFit(payloads)
    requires forall i, j :: 0 <= i < j < |payloads| ==> payloads[i].0 != payloads[j].0
    modifies outer, params
    ensures outer.Valid() && forall n :: n in params.tensors ==> Fits(params.tensors[n])
    ensures WindowDone(s, payloads, CatchUp.Node(old(params.tensors), old(outer.momentum)), CatchUp.Node(params.tensors, outer.momentum), ok)
  {
    var built := OuterInputs.BuildOuterInputs(ConversionOf(s), payloads, s.names);
    if built.Err? { return false; }
    ok := ApplyBuilt(s, outer, params, payloads, built.value);
  }

  // ---- when a step breaks off ----

  /** The clip factors are as many as the norms they are computed from. */
  ghost predicate KeepsLength<V(!new), W>(a: Arithmetic<V, W>) {
    forall norms :: |a.clipFactors(norms)| == |norms|
  }

  lemma NormsHeld<Q, V, W>(s: Setup<Q, V, W>, dense: set<int>, ps: seq<Payload<Q, V>>, n: int)
    requires ps != [] && OuterInputs.AllComplete(ConversionOf(s), OuterInputs.NameSet(s.names), dense, ps)
    requires n in OuterInputs.NameSet(s.names) || n in dense
    ensures var names := OuterInputs.NameSet(s.names);
            var norms := OuterInputs.InputsOf(ConversionOf(s), names, dense, ps).norms;
            n in norms && |norms[n]| == if n in names && n in dense then 2 * |ps| else |ps|
  {
    OuterInputs.ColumnLengths(ConversionOf(s), OuterInputs.NameSet(s.names), dense, ps, n);
  }

  /** The factors of a name fail exactly when clipping is on and every peer sent the name twice,
      compressed and dense. */
  lemma FactorsFailExactly<Q, V(!new), W>(s: Setup<Q, V, W>, dense: set<int>, ps: seq<Payload<Q, V>>, n: int)
    requires KeepsLength(s.a) && ps != []
    requires OuterInputs.AllComplete(ConversionOf(s), OuterInputs.NameSet(s.names), dense, ps)
    requires n in OuterInputs.NameSet(s.names) || n in dense
    ensures var names := OuterInputs.NameSet(s.names);
            var f := Factors(s.a, s.cfg, OuterInputs.InputsOf(ConversionOf(s), names, dense, ps).norms, n, |ps|);
            && (f == Err(NormCount(n)) <==> s.cfg.clip && n in names && n in dense)
            && (f.Err? ==> f == Err(NormCount(n))) && (f.Ok? ==> |f.value| == |ps|)
  {
    NormsHeld(s, dense, ps, n);
  }

  lemma {:induction false} NumelIsProduct(dims: seq<nat>)
    ensures Numel(dims) == Chunking.Product(dims)
  {
    if dims != [] { NumelIsProduct(dims[1..]); }
  }

  lemma {:induction false} ProductSplits(s: seq<int>)
    requires s != []
    ensures Chunking.Product(s) == Chunking.Product(s[..|s| - 1]) * s[|s| - 1]
  {
    if |s| > 1 {
      ProductSplits(s[1..]);
      assert s[..|s| - 1][1..] == s[1..][..|s| - 2];
      MulAssoc(s[0], Chunking.Product(s[1..][..|s| - 2]), s[|s| - 1]);
    } else {
      assert s[1..] == [] && s[..0] == [];
    }
  }

  lemma MulAssoc(a: int, b: int, c: int)
    ensures a * (b * c) == (a * b) * c
  {
  }

  lemma GeometryNumel(dims: seq<nat>, tc: int)
    requires Chunking.ChunkGeometry(dims, tc).Ok?
    ensures Chunking.ChunkGeometry(dims, tc).value.Numel() == Numel(dims) > 0
  {
    NumelIsProduct(dims);
    Chunking.ProductPositive(dims);
    if |dims| >= 1 { ProductSplits(dims); }
    if |dims| == 1 { assert dims[..0] == []; }
  }

  /** Equally many indices and values, every index inside the parameter. */
  ghost predicate Sound<V>(pairs: (seq<int>, seq<V>), numel: int) {
    numel > 0 && |pairs.0| == |pairs.1| && forall i :: 0 <= i < |pairs.0| ==> 0 <= pairs.0[i] < numel
  }

  lemma ConvertedIsSound<Q, V, W>(s: Setup<Q, V, W>, name: int, c: Compressed<Q>)
    requires Convert(s, name, c).Some?
    ensures name in s.shapes && Sound(Convert(s, name, c).value, Numel(s.shapes[name]))
  {
    var g, dequantize := Chunking.ChunkGeometry(s.shapes[name], s.tc).value, (code: bv8) => s.dequantize(c.qparams, code);
    Chunking.GeometryFits(s.shapes[name], s.tc);
    GeometryNumel(s.shapes[name], s.tc);
    SparsePairs.EntriesNeedTopk(g, c.tensor, dequantize);
    var entries := SparsePairs.ReadEntries(g, c.tensor, dequantize).value;
    SparsePairs.PairsInRange(g, s.tc, c.tensor.topk, entries, |entries|);
  }

  lemma SoundMerges<V, W>(a: Arithmetic<V, W>, pairs: seq<(seq<int>, seq<V>)>, factors: seq<V>, numel: int)
    requires |factors| == |pairs| && numel > 0 && forall k :: 0 <= k < |pairs| ==> Sound(pairs[k], numel)
    ensures Mergeable(Indices(pairs), Values(a, pairs, factors), numel)
  {
    var indices := Indices(pairs);
    forall k, j | 0 <= k < |indices| && 0 <= j < |indices[k]| ensures 0 <= indices[k][j] < numel { assert Sound(pairs[k], numel); }
    forall k | 0 <= k < |indices| ensures |indices[k]| == |Values(a, pairs, factors)[k]| { assert Sound(pairs[k], numel); }
  }

  lemma ColumnSound<Q, V, W>(s: Setup<Q, V, W>, dense: set<int>, ps: seq<Payload<Q, V>>, n: int)
    requires OuterInputs.AllComplete(ConversionOf(s), OuterInputs.NameSet(s.names), dense, ps) && ps != [] && n in OuterInputs.NameSet(s.names)
    ensures var column := OuterInputs.SparseColumn(ConversionOf(s), OuterInputs.NameSet(s.names), ps, n);
            && |column| == |ps| && n in s.shapes && Numel(s.shapes[n]) > 0
            && forall k :: 0 <= k < |column| ==> Sound(column[k], Numel(s.shapes[n]))
  {
    var conv, names := ConversionOf(s), OuterInputs.NameSet(s.names);
    forall i | 0 <= i < |ps| ensures OuterInputs.Converts(conv, ps[i], n) { assert OuterInputs.Complete(conv, names, dense, ps[i]); }
    forall k | 0 <= k < |ps|
      ensures |OuterInputs.SparseColumn(conv, names, ps, n)| == |ps| && n in s.shapes
      ensures Sound(OuterInputs.SparseColumn(conv, names, ps, n)[k], Numel(s.shapes[n]))
    {
      OuterInputs.SparseEntry(conv, names, ps, n, k);
      ConvertedIsSound(s, n, ps[k].compressed[n]);
    }
    OuterInputs.SparseEntry(conv, names, ps, n, 0);
    assert Sound(OuterInputs.SparseColumn(conv, names, ps, n)[0], Numel(s.shapes[n]));
  }

  /** Every peer's dense tensor of the name has the registered shape. */
  ghost predicate DenseShaped<Q, V>(ps: seq<Payload<Q, V>>, n: int, dims: seq<nat>) {
    forall i :: 0 <= i < |ps| && n in ps[i].dense ==> ps[i].dense[n].dims == dims && Fits(ps[i].dense[n])
  }

  lemma ColumnShaped<Q, V, W>(s: Setup<Q, V, W>, dense: set<int>, ps: seq<Payload<Q, V>>, n: int, dims: seq<nat>)
    requires OuterInputs.AllComplete(ConversionOf(s), OuterInputs.NameSet(s.names), dense, ps) && n in dense
    ensures |OuterInputs.DenseColumn(dense, ps, n)| == |ps|
    ensures SameDims(OuterInputs.DenseColumn(dense, ps, n), dims) <==> DenseShaped(ps, n, dims)
  {
    var column := OuterInputs.DenseColumn(dense, ps, n);
    OuterInputs.ColumnLengths(ConversionOf(s), OuterInputs.NameSet(s.names), dense, ps, n);
    forall i | 0 <= i < |ps| ensures n in ps[i].dense { assert OuterInputs.Complete(ConversionOf(s), OuterInputs.NameSet(s.names), dense, ps[i]); }
    forall k | 0 <= k < |ps| ensures column[k] == ps[k].dense[n] { OuterInputs.DenseEntry(dense, ps, n, k); }
  }

  /** What can go wrong with one name: norms of both kinds under clipping, or a dense tensor of
      another shape. */
  ghost predicate Applicable<Q, V, W>(s: Setup<Q, V, W>, dense: set<int>, ps: seq<Payload<Q, V>>, n: int)
    requires n in s.shapes
  {
    var named := n in OuterInputs.NameSet(s.names);
    && !(s.cfg.clip && named && n in dense)
    && (n in dense && !named ==> DenseShaped(ps, n, s.shapes[n]))
  }

  lemma GradientExactly<Q, V(!new), W>(s: Setup<Q, V, W>, dense: set<int>, ps: seq<Payload<Q, V>>, n: int)
    requires KeepsLength(s.a) && ps != [] && n in s.shapes
    requires OuterInputs.AllComplete(ConversionOf(s), OuterInputs.NameSet(s.names), dense, ps)
    ensures var g := Gradient(s.a, s.cfg, OuterInputs.InputsOf(ConversionOf(s), OuterInputs.NameSet(s.names), dense, ps), n, s.shapes[n]);
            && (g.Ok? <==> Applicable(s, dense, ps, n))
            && (g.Ok? && g.value.Some? ==> |g.value.value| == Numel(s.shapes[n]))
  {
    var conv, names := ConversionOf(s), OuterInputs.NameSet(s.names);
    var inputs := OuterInputs.InputsOf(conv, names, dense, ps);
    OuterInputs.ColumnLengths(conv, names, dense, ps, n);
    OuterInputs.NoColumn(conv, names, dense, ps, n);
    if n in names {
      FactorsFailExactly(s, dense, ps, n);
      ColumnSound(s, dense, ps, n);
      var pairs := OuterInputs.SparseColumn(conv, names, ps, n);
      assert n in inputs.sparse && inputs.sparse[n] == pairs;
      var f := Factors(s.a, s.cfg, inputs.norms, n, |ps|);
      if f.Ok? { SoundMerges(s.a, pairs, f.value, Numel(s.shapes[n])); }
    } else if n in dense {
      FactorsFailExactly(s, dense, ps, n);
      ColumnShaped(s, dense, ps, n, s.shapes[n]);
      assert n in inputs.dense && inputs.dense[n] == OuterInputs.DenseColumn(dense, ps, n);
    }
  }

  lemma NothingToMerge<Q, V, W>(s: Setup<Q, V, W>, dense: set<int>, n: int)
    requires n in s.shapes
    ensures Gradient(s.a, s.cfg, OuterInputs.InputsOf(ConversionOf(s), OuterInputs.NameSet(s.names), dense, []), n, s.shapes[n]) == Ok(None)
  {
  }

  /** Parameters and buffers have the registered shapes. */
  ghost predicate Coherent<Q, V, W>(s: Setup<Q, V, W>, node: CatchUp.Node<Tensors<V>, Momenta<V>>) {
    && (forall n :: n in node.theta ==> n in s.shapes && node.theta[n].dims == s.shapes[n] && Fits(node.theta[n]))
    && forall n :: n in s.shapes ==> n in node.momentum && |node.momentum[n]| == Numel(s.shapes[n])
  }

  /** On certified payloads the outer step breaks off exactly when some parameter is named on both
      sides under clipping, or a dense tensor has another shape: never for want of norms, and
      never over an index the wire format let through. */
  lemma StepBreaksExactly<Q, V(!new), W>(s: Setup<Q, V, W>, node: CatchUp.Node<Tensors<V>, Momenta<V>>, payloads: seq<(int, Payload<Q, V>)>)
    requires KeepsLength(s.a) && Coherent(s, node) && Build(s, payloads).Some?
    ensures StepOf(s, node, Build(s, payloads).value).Done?
       <==> forall n :: n in node.theta ==> Applicable(s, OuterInputs.CohortDense(payloads), OuterInputs.Payloads(payloads), n)
  {
    var dense, ps, inputs := OuterInputs.CohortDense(payloads), OuterInputs.Payloads(payloads), Build(s, payloads).value;
    var names := Sorted(node.theta.Keys);
    forall n | n in node.theta
      ensures Stepped(s.a, s.cfg, s.shapes, inputs, n, node.theta[n], Held(node.momentum, n)).Ok? <==> Applicable(s, dense, ps, n)
    {
      if payloads != [] { GradientExactly(s, dense, ps, n); } else { NothingToMerge(s, dense, n); }
    }
    WalkCompletes(s.a, s.cfg, s.shapes, inputs, names, node.theta, node.momentum);
  }

  lemma {:induction false} WalkCompletes<V, W>(a: Arithmetic<V, W>, cfg: Config<V>, shapes: map<int, seq<nat>>, inputs: Inputs<V>, names: seq<int>,
                                               p0: map<int, Tensor<V>>, m0: map<int, seq<V>>)
    requires forall n :: n in names ==> n in p0
    ensures Walk(a, cfg, shapes, inputs, names, p0, m0).error == None
       <==> forall n :: n in names ==> Stepped(a, cfg, shapes, inputs, n, p0[n], Held(m0, n)).Ok?
  {
    if names != [] {
      var last := |names| - 1;
      WalkCompletes(a, cfg, shapes, inputs, names[..last], p0, m0);
      assert names == names[..last] + [names[last]];
    }
  }

  // ---- lockstep of training runs ----

  type Training<!Q, !V> = CatchUp.World<Payload<Q, V>, Inputs<V>, Tensors<V>, Momenta<V>>

  /** Chain, storage and root around the conversion and the step above. */
  ghost function TrainingWorld<Q, V, W>(s: Setup<Q, V, W>, rules: Exchange.Rules<Payload<Q, V>>, isVoid: int -> bool,
                                        commits: int -> Option<map<int, Consensus.Commit>>, certificate: int -> CatchUp.CertRead,
                                        mirror: int -> Option<map<int, Bytes>>, root: Tensors<V> -> nat): Training<Q, V> {
    CatchUp.World(rules, isVoid, commits, certificate, mirror, root, payloads => Build(s, payloads), (node, inputs) => StepOf(s, node, inputs))
  }

  ghost predicate Trains<Q(!new), V(!new), W>(s: Setup<Q, V, W>, world: Training<Q, V>) {
    && (forall payloads :: world.build(payloads) == Build(s, payloads))
    && (forall node, inputs :: world.step(node, inputs) == StepOf(s, node, inputs))
  }

  lemma TrainingWorldTrains<Q(!new), V(!new), W>(s: Setup<Q, V, W>, rules: Exchange.Rules<Payload<Q, V>>, isVoid: int -> bool,
                                                 commits: int -> Option<map<int, Consensus.Commit>>, certificate: int -> CatchUp.CertRead,
                                                 mirror: int -> Option<map<int, Bytes>>, root: Tensors<V> -> nat)
    ensures Trains(s, TrainingWorld(s, rules, isVoid, commits, certificate, mirror, root))
  {
  }

  /** One window of a live node: the gather over its route is complete and the window is applied. */
  ghost predicate Advances<Q, V(!new), W>(s: Setup<Q, V, W>, world: Training<Q, V>, route: Lockstep.Route, w: int, before: State<V>, after: State<V>) {
    if !Lockstep.Certified(world, w) then after == before
    else
      var cert := world.certificate(w).cert;
      var raw := Exchange.Verified(world.rules, cert, route.transport, route.retry);
      Exchange.NothingMissing(world.rules, cert, raw) && StepsTo(s, Exchange.Payloads(world.rules, cert, raw, cert.included), before, after)
  }

  lemma UidsAgree<Q, V>(payloads: seq<(int, Payload<Q, V>)>)
    ensures OuterInputs.Uids(payloads) == Exchange.UidsOf(payloads)
  {
  }

  lemma AdvancesIsLiveStep<Q(!new), V(!new), W>(s: Setup<Q, V, W>, world: Training<Q, V>, route: Lockstep.Route, w: int, before: State<V>, after: State<V>)
    requires Trains(s, world) && Ready(s, before) && Advances(s, world, route, w, before, after)
    ensures Lockstep.LiveStep(world, route, before, w) == Some(after) && Ready(s, after)
  {
    if Lockstep.Certified(world, w) {
      var cert := world.certificate(w).cert;
      var raw := Exchange.Verified(world.rules, cert, route.transport, route.retry);
      var payloads := Exchange.Payloads(world.rules, cert, raw, cert.included);
      Exchange.PayloadsList(world.rules, cert, raw, cert.included);
      UidsAgree(payloads);
      StepsToIs(s, payloads, before, after);
      CompleteIsListed(world.rules, cert, route.transport, route.retry);
    }
  }

  lemma CompleteIsListed<P>(rules: Exchange.Rules<P>, cert: Exchange.Certificate, t: Exchange.Transport, retry: bool)
    requires Exchange.NothingMissing(rules, cert, Exchange.Verified(rules, cert, t, retry))
    ensures Exchange.LookupsSucceed(rules, cert, t, retry)
  {
    var raw := Exchange.Verified(rules, cert, t, retry);
    Exchange.PayloadsList(rules, cert, raw, cert.included);
    forall u | u in cert.included ensures u in cert.payloadHashes {
      assert u in Exchange.UidsOf(Exchange.Payloads(rules, cert, raw, cert.included));
      Exchange.VerifiedMatches(rules, cert, t, retry, u);
    }
  }

  /** The states of a live node from before window w to after window upto. */
  ghost predicate Lives<Q, V(!new), W>(s: Setup<Q, V, W>, world: Training<Q, V>, route: int -> Lockstep.Route, w: int, upto: int, trace: seq<State<V>>) {
    && w <= upto + 1 && |trace| == upto - w + 2
    && forall v :: w <= v <= upto ==> Advances(s, world, route(v), v, trace[v - w], trace[v - w + 1])
  }

  lemma LivesOn<Q, V(!new), W>(s: Setup<Q, V, W>, world: Training<Q, V>, route: int -> Lockstep.Route, w: int, upto: int, trace: seq<State<V>>)
    requires w <= upto && Lives(s, world, route, w, upto, trace)
    ensures Advances(s, world, route(w), w, trace[0], trace[1]) && Lives(s, world, route, w + 1, upto, trace[1..])
    ensures |trace| >= 2 && trace[1..][0] == trace[1] && trace[1..][|trace| - 2] == trace[|trace| - 1]
  {
    var rest := trace[1..];
    assert rest[0] == trace[1] && rest[|rest| - 1] == trace[|trace| - 1];
    forall v | w + 1 <= v <= upto ensures Advances(s, world, route(v), v, rest[v - (w + 1)], rest[v - (w + 1) + 1]) {
      assert Advances(s, world, route(v), v, trace[v - w], trace[v - w + 1]);
      assert rest[v - (w + 1)] == trace[v - w] && rest[v - (w + 1) + 1] == trace[v - w + 1];
    }
  }

  lemma {:induction false} TraceIsLive<Q(!new), V(!new), W>(s: Setup<Q, V, W>, world: Training<Q, V>, route: int -> Lockstep.Route,
                                                            w: int, upto: int, trace: seq<State<V>>)
    requires Trains(s, world) && Lives(s, world, route, w, upto, trace) && Ready(s, trace[0])
    ensures Lockstep.Live(world, route, trace[0], w, upto) == Some(trace[|trace| - 1])
    decreases upto + 1 - w
  {
    if w <= upto {
      LivesOn(s, world, route, w, upto, trace);
      AdvancesIsLiveStep(s, world, route(w), w, trace[0], trace[1]);
      TraceIsLive(s, world, route, w + 1, upto, trace[1..]);
      Lockstep.LiveNext(world, route, trace[0], trace[1], w, upto);
    }
  }

  /** A node that lived through (from, upto] over any routes, each window applied as its methods
      promise and no more, ends with exactly the tensors and momentum of one that caught up from
      the mirror. */
  lemma TraceMeetsCatchUp<Q(!new), V(!new), W>(s: Setup<Q, V, W>, world: Training<Q, V>, route: int -> Lockstep.Route,
                                               from: int, upto: int, trace: seq<State<V>>)
    requires Trains(s, world) && Lives(s, world, route, from + 1, upto, trace) && Ready(s, trace[0])
    requires CatchUp.Outcome(world, trace[0], from, upto).error == None
    requires forall v :: from < v <= upto ==> Lockstep.BlobsDistinct(world, route(v), Lockstep.MirrorRoute(world, v), v)
    ensures CatchUp.Outcome(world, trace[0], from, upto).node == trace[|trace| - 1]
  {
    TraceIsLive(s, world, route, from + 1, upto, trace);
    Lockstep.LiveMeetsCatchUp(world, route, trace[0], from, upto);
  }

  /** And two live nodes on different routes end with exactly the same tensors and momentum. */
  lemma TracesAgree<Q(!new), V(!new), W>(s: Setup<Q, V, W>, world: Training<Q, V>, route: int -> Lockstep.Route, route': int -> Lockstep.Route,
                                         w: int, upto: int, trace: seq<State<V>>, trace': seq<State<V>>)
    requires Trains(s, world) && Lives(s, world, route, w, upto, trace) && Lives(s, world, route', w, upto, trace')
    requires trace[0] == trace'[0] && Ready(s, trace[0])
    requires forall v :: w <= v <= upto ==> Lockstep.BlobsDistinct(world, route(v), route'(v), v)
    ensures trace[|trace| - 1] == trace'[|trace'| - 1]
  {
    TraceIsLive(s, world, route, w, upto, trace);
    TraceIsLive(s, world, route', w, upto, trace');
    Lockstep.LiveNodesAgree(world, route, route', trace[0], w, upto);
  }
}
