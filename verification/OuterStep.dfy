/** ReplicatedOuterStep.apply (subnet/core/outer_opt.py:111-216). Arithmetic is uninterpreted; names
    are numbered in sorted order. The telemetry report is not modelled. */
module OuterStep {
  import opened Prelude
  import OuterInputs
  import SegmentMean

  datatype Arithmetic<!V, !W> = Arithmetic(
    scalars: SegmentMean.Scalars<V, W>, argsort: seq<int> -> seq<int>,
    one: V, scale: (V, V) -> V, add: (V, V) -> V, divideBy: (V, nat) -> V, addScaled: (V, V, V) -> V, subScaled: (V, V, V) -> V,
    load: (int, V) -> V, store: (int, V) -> V, clipFactors: seq<V> -> seq<V>)

  datatype Config<V> = Config(nesterov: bool, clip: bool, mu: V, lr: V)

  datatype Tensor<V> = Tensor(dtype: int, dims: seq<nat>, data: seq<V>)

  /** What the certified peers contribute, per name and in certificate uid order. */
  type Inputs<V> = OuterInputs.Inputs<(seq<int>, seq<V>), Tensor<V>, V>

  datatype Error = NotRegistered(name: int) | BadShape(name: int) | NoNorms(name: int) | NormCount(name: int) | BadMerge(name: int)

  function Numel(dims: seq<nat>): nat {
    if dims == [] then 1 else dims[0] * Numel(dims[1..])
  }

  ghost predicate Fits<V>(t: Tensor<V>) {
    |t.data| == Numel(t.dims)
  }

  // ---- the gradient of one name ----

  function Filled<V>(v: V, n: nat): (r: seq<V>)
    ensures |r| == n && forall i :: 0 <= i < n ==> r[i] == v
  {
    seq(n, _ => v)
  }

  function Factors<V, W>(a: Arithmetic<V, W>, cfg: Config<V>, norms: map<int, seq<V>>, name: int, n: nat): Result<seq<V>, Error> {
    if !cfg.clip then Ok(Filled(a.one, n))
    else if name !in norms then Err(NoNorms(name))
    else if |a.clipFactors(norms[name])| != n then Err(NormCount(name))
    else Ok(a.clipFactors(norms[name]))
  }

  function ScaledBy<V, W>(a: Arithmetic<V, W>, v: seq<V>, f: V): (r: seq<V>)
    ensures |r| == |v| && forall i :: 0 <= i < |r| ==> r[i] == a.scale(v[i], f)
  {
    seq(|v|, i requires 0 <= i < |v| => a.scale(v[i], f))
  }

  function Indices<V>(pairs: seq<(seq<int>, seq<V>)>): (r: seq<seq<int>>)
    ensures |r| == |pairs| && forall k :: 0 <= k < |r| ==> r[k] == pairs[k].0
  {
    if pairs == [] then [] else Indices(pairs[..|pairs| - 1]) + [pairs[|pairs| - 1].0]
  }

  function Values<V, W>(a: Arithmetic<V, W>, pairs: seq<(seq<int>, seq<V>)>, factors: seq<V>): (r: seq<seq<V>>)
    requires |factors| == |pairs|
    ensures |r| == |pairs| && forall k :: 0 <= k < |r| ==> r[k] == ScaledBy(a, pairs[k].1, factors[k])
  {
    if pairs == [] then [] else
      var n := |pairs| - 1;
      Values(a, pairs[..n], factors[..n]) + [ScaledBy(a, pairs[n].1, factors[n])]
  }

  ghost predicate Mergeable<V>(indices: seq<seq<int>>, values: seq<seq<V>>, numel: int) {
    numel > 0 && SegmentMean.Matched(indices, values) && SegmentMean.InRange(indices, numel)
  }

  ghost function Mean<V, W>(a: Arithmetic<V, W>, indices: seq<seq<int>>, values: seq<seq<V>>, numel: nat): (r: seq<V>)
    requires SegmentMean.Matched(indices, values)
    ensures |r| == numel
    ensures forall i :: 0 <= i < numel ==> r[i] == SegmentMean.MeanOf(a.scalars, SegmentMean.PeerContributions(a.scalars, indices, values, i))
  {
    seq(numel, i requires 0 <= i < numel => SegmentMean.MeanOf(a.scalars, SegmentMean.PeerContributions(a.scalars, indices, values, i)))
  }

  /** Element-wise g + contribution * factor. */
  function Accumulated<V, W>(a: Arithmetic<V, W>, g: seq<V>, contrib: seq<V>, f: V): (r: seq<V>)
    requires |g| == |contrib|
    ensures |r| == |g| && forall i :: 0 <= i < |r| ==> r[i] == a.add(g[i], a.scale(contrib[i], f))
  {
    seq(|g|, i requires 0 <= i < |g| => a.add(g[i], a.scale(contrib[i], f)))
  }

  ghost predicate SameDims<V>(ts: seq<Tensor<V>>, dims: seq<nat>) {
    forall k :: 0 <= k < |ts| ==> ts[k].dims == dims && |ts[k].data| == Numel(dims)
  }

  /** The dense contributions summed in uid order from zero. */
  function DenseSum<V, W>(a: Arithmetic<V, W>, dense: seq<Tensor<V>>, factors: seq<V>, dims: seq<nat>): (r: seq<V>)
    requires |factors| == |dense| && SameDims(dense, dims)
    ensures |r| == Numel(dims)
  {
    if dense == [] then Filled(a.scalars.zero, Numel(dims)) else
      var n := |dense| - 1;
      Accumulated(a, DenseSum(a, dense[..n], factors[..n], dims), dense[n].data, factors[n])
  }

  function Divided<V, W>(a: Arithmetic<V, W>, g: seq<V>, n: nat): (r: seq<V>)
    ensures |r| == |g| && forall i :: 0 <= i < |r| ==> r[i] == a.divideBy(g[i], n)
  {
    seq(|g|, i requires 0 <= i < |g| => a.divideBy(g[i], n))
  }

  /** None: the name has no contributions and is left alone. */
  ghost function Gradient<V, W>(a: Arithmetic<V, W>, cfg: Config<V>, inputs: Inputs<V>, name: int, dims: seq<nat>): Result<Option<seq<V>>, Error> {
    if name in inputs.sparse && inputs.sparse[name] != [] then
      var pairs := inputs.sparse[name];
      match Factors(a, cfg, inputs.norms, name, |pairs|)
      case Err(e) => Err(e)
      case Ok(f) =>
        if |f| == |pairs| && Mergeable(Indices(pairs), Values(a, pairs, f), Numel(dims))
        then Ok(Some(Mean(a, Indices(pairs), Values(a, pairs, f), Numel(dims))))
        else Err(BadMerge(name))
    else if name in inputs.dense && inputs.dense[name] != [] then
      var dense := inputs.dense[name];
      match Factors(a, cfg, inputs.norms, name, |dense|)
      case Err(e) => Err(e)
      case Ok(f) =>
        if |f| == |dense| && SameDims(dense, dims) then Ok(Some(Divided(a, DenseSum(a, dense, f, dims), |dense|))) else Err(BadShape(name))
    else Ok(None)
  }

  // ---- the update of one name ----

  function NewMomentum<V, W>(a: Arithmetic<V, W>, cfg: Config<V>, m: seq<V>, g: seq<V>): (r: seq<V>)
    requires |m| == |g|
    ensures |r| == |m| && forall i :: 0 <= i < |r| ==> r[i] == if cfg.nesterov then a.add(a.scale(m[i], cfg.mu), g[i]) else m[i]
  {
    seq(|m|, i requires 0 <= i < |m| => if cfg.nesterov then a.add(a.scale(m[i], cfg.mu), g[i]) else m[i])
  }

  function Direction<V, W>(a: Arithmetic<V, W>, cfg: Config<V>, m: seq<V>, g: seq<V>): (r: seq<V>)
    requires |m| == |g|
    ensures |r| == |m| && forall i :: 0 <= i < |r| ==> r[i] == if cfg.nesterov then a.addScaled(g[i], cfg.mu, m[i]) else g[i]
  {
    seq(|m|, i requires 0 <= i < |m| => if cfg.nesterov then a.addScaled(g[i], cfg.mu, m[i]) else g[i])
  }

  function Moved<V, W>(a: Arithmetic<V, W>, cfg: Config<V>, p: Tensor<V>, d: seq<V>): (r: Tensor<V>)
    requires |p.data| == |d|
    ensures r.dims == p.dims && r.dtype == p.dtype && |r.data| == |d|
    ensures forall i :: 0 <= i < |d| ==> r.data[i] == a.store(p.dtype, a.subScaled(a.load(p.dtype, p.data[i]), cfg.lr, d[i]))
  {
    p.(data := seq(|d|, i requires 0 <= i < |d| => a.store(p.dtype, a.subScaled(a.load(p.dtype, p.data[i]), cfg.lr, d[i]))))
  }

  /** One name's step, from that name's parameter, momentum and contributions alone. */
  ghost function Stepped<V, W>(a: Arithmetic<V, W>, cfg: Config<V>, shapes: map<int, seq<nat>>, inputs: Inputs<V>, name: int, p: Tensor<V>, m: seq<V>)
    : Result<(Tensor<V>, seq<V>), Error>
  {
    if name !in shapes then Err(NotRegistered(name))
    else if p.dims != shapes[name] then Err(BadShape(name))
    else
      match Gradient(a, cfg, inputs, name, p.dims)
      case Err(e) => Err(e)
      case Ok(None) => Ok((p, m))
      case Ok(Some(g)) =>
        if |g| != |m| || |g| != |p.data| then Err(BadShape(name))
        else
          var m' := NewMomentum(a, cfg, m, g);
          Ok((Moved(a, cfg, p, Direction(a, cfg, m', g)), m'))
  }

  /** The parameters, updated in place. */
  class Params<V> {
    var tensors: map<int, Tensor<V>>

    constructor (tensors: map<int, Tensor<V>>)
      ensures this.tensors == tensors
    {
      this.tensors := tensors;
    }
  }

  class ReplicatedOuterStep<!V, !W(0)> {
    const a: Arithmetic<V, W>
    const cfg: Config<V>
    const shapes: map<int, seq<nat>>
    var momentum: map<int, seq<V>>

    ghost predicate Valid() reads this {
      && SegmentMean.ZeroStaysZero(a.scalars) && (forall s :: SegmentMean.IsStableOrder(a.argsort(s), s))
      && forall n :: n in shapes ==> n in momentum && |momentum[n]| == Numel(shapes[n])
    }

    constructor (a: Arithmetic<V, W>, cfg: Config<V>, shapes: map<int, seq<nat>>)
      requires SegmentMean.ZeroStaysZero(a.scalars) && forall s :: SegmentMean.IsStableOrder(a.argsort(s), s)
      ensures Valid() && this.a == a && this.cfg == cfg && this.shapes == shapes
      ensures forall n :: n in shapes ==> momentum[n] == Filled(a.scalars.zero, Numel(shapes[n]))
    {
      this.a, this.cfg, this.shapes := a, cfg, shapes;
      momentum := map n | n in shapes :: Filled(a.scalars.zero, Numel(shapes[n]));
    }

    /** The sparse branch. */
    method MergeSparse(pairs: seq<(seq<int>, seq<V>)>, factors: seq<V>, numel: nat) returns (g: Option<seq<V>>)
      requires Valid() && |factors| == |pairs|
      ensures g.Some? <==> Mergeable(Indices(pairs), Values(a, pairs, factors), numel)
      ensures g.Some? ==> g.value == Mean(a, Indices(pairs), Values(a, pairs, factors), numel)
    {
      var r := SegmentMean.DeterministicSegmentMean(a.scalars, a.argsort, Indices(pairs), Values(a, pairs, factors), numel);
      g := if r.Ok? then Some(r.value) else None;
    }

    /** The dense branch. */
    method MergeDense(dense: seq<Tensor<V>>, factors: seq<V>, dims: seq<nat>) returns (g: Option<seq<V>>)
      requires |factors| == |dense| && forall k :: 0 <= k < |dense| ==> Fits(dense[k])
      ensures g.Some? <==> SameDims(dense, dims)
      ensures g.Some? ==> g.value == Divided(a, DenseSum(a, dense, factors, dims), |dense|)
    {
      var sum := Filled(a.scalars.zero, Numel(dims));
      for k := 0 to |dense|
        invariant SameDims(dense[..k], dims) && sum == DenseSum(a, dense[..k], factors[..k], dims)
      {
        if dense[k].dims != dims { return None; }
        assert Fits(dense[k]);
        sum := Accumulated(a, sum, dense[k].data, factors[k]);
        assert dense[..k + 1][..k] == dense[..k] && factors[..k + 1][..k] == factors[..k];
      }
      assert dense[..|dense|] == dense && factors[..|factors|] == factors;
      g := Some(Divided(a, sum, |dense|));
    }

    method Merge(inputs: Inputs<V>, name: int, dims: seq<nat>) returns (r: Result<Option<seq<V>>, Error>)
      requires Valid()
      requires forall n, k :: n in inputs.dense && 0 <= k < |inputs.dense[n]| ==> Fits(inputs.dense[n][k])
      ensures r == Gradient(a, cfg, inputs, name, dims)
    {
      if name in inputs.sparse && inputs.sparse[name] != [] {
        var pairs := inputs.sparse[name];
        var f := Factors(a, cfg, inputs.norms, name, |pairs|);
        if f.Err? { return Err(f.error); }
        var g := MergeSparse(pairs, f.value, Numel(dims));
        return if g.Some? then Ok(g) else Err(BadMerge(name));
      }
      if name in inputs.dense && inputs.dense[name] != [] {
        var dense := inputs.dense[name];
        var f := Factors(a, cfg, inputs.norms, name, |dense|);
        if f.Err? { return Err(f.error); }
        var g := MergeDense(dense, f.value, dims);
        return if g.Some? then Ok(g) else Err(BadShape(name));
      }
      r := Ok(None);
    }

    /** The loop body. An error comes before anything of this name has changed. */
    method StepOne(params: Params<V>, inputs: Inputs<V>, name: int) returns (error: Option<Error>)
      requires Valid() && name in params.tensors && Fits(params.tensors[name])
      requires forall n, k :: n in inputs.dense && 0 <= k < |inputs.dense[n]| ==> Fits(inputs.dense[n][k])
      modifies this, params
      ensures Valid()
      ensures var m := if name in old(momentum) then old(momentum)[name] else [];
              match Stepped(a, cfg, shapes, inputs, name, old(params.tensors)[name], m)
              case Err(e) => error == Some(e) && params.tensors == old(params.tensors) && momentum == old(momentum)
              case Ok(next) => error == None && name in old(momentum)
                               && params.tensors == old(params.tensors)[name := next.0] && momentum == old(momentum)[name := next.1]
                               && Fits(next.0)
    {
      var p := params.tensors[name];
      if name !in shapes { return Some(NotRegistered(name)); }
      if p.dims != shapes[name] { return Some(BadShape(name)); }
      var merged := Merge(inputs, name, p.dims);
      if merged.Err? { return Some(merged.error); }
      if merged.value == None {
        assert params.tensors == params.tensors[name := p] && momentum == momentum[name := momentum[name]];
        return None;
      }
      var g := merged.value.value;
      var m := NewMomentum(a, cfg, momentum[name], g);
      momentum := momentum[name := m];
      params.tensors := params.tensors[name := Moved(a, cfg, p, Direction(a, cfg, m, g))];
      error := None;
    }

    /** One more name of a step in progress. */
    method StepNext(params: Params<V>, inputs: Inputs<V>, name: int, ghost p0: map<int, Tensor<V>>, ghost m0: map<int, seq<V>>, ghost done: seq<int>)
      returns (error: Option<Error>)
      requires Valid() && forall n :: n in params.tensors ==> Fits(params.tensors[n])
      requires forall n, k :: n in inputs.dense && 0 <= k < |inputs.dense[n]| ==> Fits(inputs.dense[n][k])
      requires name in p0 && name !in done && Progress(a, cfg, shapes, inputs, p0, m0, done, params.tensors, momentum)
      modifies this, params
      ensures Valid() && forall n :: n in params.tensors ==> Fits(params.tensors[n])
      ensures error == None ==> Progress(a, cfg, shapes, inputs, p0, m0, done + [name], params.tensors, momentum)
      ensures error.Some? ==> Progress(a, cfg, shapes, inputs, p0, m0, done, params.tensors, momentum)
                              && Failed(a, cfg, shapes, inputs, p0, m0, name, error.value)
    {
      ghost var p, m := params.tensors, momentum;
      error := StepOne(params, inputs, name);
      if error == None { ProgressNext(a, cfg, shapes, inputs, p0, m0, done, p, m, name, params.tensors, momentum); }
    }

    /** The loop, over distinct names. */
    method StepAll(params: Params<V>, inputs: Inputs<V>, names: seq<int>) returns (error: Option<Error>, ghost done: nat)
      requires Valid() && forall n :: n in params.tensors ==> Fits(params.tensors[n])
      requires forall n, k :: n in inputs.dense && 0 <= k < |inputs.dense[n]| ==> Fits(inputs.dense[n][k])
      requires Ascending(names) && forall i :: 0 <= i < |names| ==> names[i] in params.tensors
      modifies this, params
      ensures Valid() && forall n :: n in params.tensors ==> Fits(params.tensors[n])
      ensures done <= |names| && (error == None <==> done == |names|)
      ensures Progress(a, cfg, shapes, inputs, old(params.tensors), old(momentum), names[..done], params.tensors, momentum)
      ensures error.Some? ==> Failed(a, cfg, shapes, inputs, old(params.tensors), old(momentum), names[done], error.value)
    {
      ghost var p0, m0 := params.tensors, momentum;
      done := 0;
      for i := 0 to |names|
        invariant done == i && Valid() && forall n :: n in params.tensors ==> Fits(params.tensors[n])
        invariant Progress(a, cfg, shapes, inputs, p0, m0, names[..i], params.tensors, momentum)
      {
        assert names[i] in p0 && names[i] !in names[..i];
        assert names[..i + 1] == names[..i] + [names[i]];
        error := StepNext(params, inputs, names[i], p0, m0, names[..i]);
        if error.Some? { return; }
        done := i + 1;
      }
      assert names[..|names|] == names;
      error := None;
    }

    /** apply: one outer step in place, names in sorted order. An error leaves exactly the names
        before the failing one stepped. */
    method Apply(params: Params<V>, inputs: Inputs<V>) returns (error: Option<Error>, ghost done: nat)
      requires Valid() && forall n :: n in params.tensors ==> Fits(params.tensors[n])
      requires forall n, k :: n in inputs.dense && 0 <= k < |inputs.dense[n]| ==> Fits(inputs.dense[n][k])
      modifies this, params
      ensures Valid() && forall n :: n in params.tensors ==> Fits(params.tensors[n])
      ensures Ends(a, cfg, shapes, inputs, Sorted(old(params.tensors).Keys), old(params.tensors), old(momentum),
                   Walked(params.tensors, momentum, error, done))
    {
      var names := Sorted(params.tensors.Keys);
      forall i | 0 <= i < |names| ensures names[i] in params.tensors { assert names[i] in names; }
      error, done := StepAll(params, inputs, names);
    }
  }

  function Held<V>(m: map<int, seq<V>>, name: int): seq<V> {
    if name in m then m[name] else []
  }

  /** The name's step fails, from where it started. */
  ghost predicate Failed<V, W>(a: Arithmetic<V, W>, cfg: Config<V>, shapes: map<int, seq<nat>>, inputs: Inputs<V>,
                               p0: map<int, Tensor<V>>, m0: map<int, seq<V>>, name: int, e: Error) {
    name in p0 && Stepped(a, cfg, shapes, inputs, name, p0[name], Held(m0, name)) == Err(e)
  }

  /** The name's parameter and momentum are what its own step makes of where they started. */
  ghost predicate NameStepped<V, W>(a: Arithmetic<V, W>, cfg: Config<V>, shapes: map<int, seq<nat>>, inputs: Inputs<V>,
                                    p0: map<int, Tensor<V>>, m0: map<int, seq<V>>, name: int, p: map<int, Tensor<V>>, m: map<int, seq<V>>) {
    && name in p0 && name in m0 && name in p && name in m
    && Stepped(a, cfg, shapes, inputs, name, p0[name], m0[name]) == Ok((p[name], m[name]))
  }

  /** The names in `done` are stepped, every other name is as it was. */
  ghost predicate Progress<V, W>(a: Arithmetic<V, W>, cfg: Config<V>, shapes: map<int, seq<nat>>, inputs: Inputs<V>,
                                 p0: map<int, Tensor<V>>, m0: map<int, seq<V>>, done: seq<int>, p: map<int, Tensor<V>>, m: map<int, seq<V>>) {
    && (forall n :: n in p <==> n in p0) && (forall n :: n in m <==> n in m0)
    && (forall n :: n in done ==> NameStepped(a, cfg, shapes, inputs, p0, m0, n, p, m))
    && (forall n :: n in p0 && n !in done ==> p[n] == p0[n])
    && (forall n :: n in m0 && n !in done ==> m[n] == m0[n])
  }

  lemma ProgressNext<V, W>(a: Arithmetic<V, W>, cfg: Config<V>, shapes: map<int, seq<nat>>, inputs: Inputs<V>,
                           p0: map<int, Tensor<V>>, m0: map<int, seq<V>>, done: seq<int>, p: map<int, Tensor<V>>, m: map<int, seq<V>>,
                           name: int, p': map<int, Tensor<V>>, m': map<int, seq<V>>)
    requires Progress(a, cfg, shapes, inputs, p0, m0, done, p, m) && name !in done && name in p && name in m
    requires Stepped(a, cfg, shapes, inputs, name, p[name], m[name]).Ok?
    requires var next := Stepped(a, cfg, shapes, inputs, name, p[name], m[name]).value;
             p' == p[name := next.0] && m' == m[name := next.1]
    ensures Progress(a, cfg, shapes, inputs, p0, m0, done + [name], p', m')
  {
    assert p[name] == p0[name] && m[name] == m0[name];
    forall n | n in done ensures NameStepped(a, cfg, shapes, inputs, p0, m0, n, p', m') {
      assert NameStepped(a, cfg, shapes, inputs, p0, m0, n, p, m);
      assert n != name;
    }
    assert NameStepped(a, cfg, shapes, inputs, p0, m0, name, p', m');
  }

  /** A complete step is determined by where each name started: it does not matter in which order
      the names come, nor what the other names hold. */
  lemma CompleteStepUnique<V, W>(a: Arithmetic<V, W>, cfg: Config<V>, shapes: map<int, seq<nat>>, inputs: Inputs<V>,
                                 p0: map<int, Tensor<V>>, m0: map<int, seq<V>>, x: seq<int>, p: map<int, Tensor<V>>, m: map<int, seq<V>>,
                                 y: seq<int>, p': map<int, Tensor<V>>, m': map<int, seq<V>>)
    requires Progress(a, cfg, shapes, inputs, p0, m0, x, p, m) && Progress(a, cfg, shapes, inputs, p0, m0, y, p', m')
    requires (forall n :: n in p0 ==> n in x) && (forall n :: n in p0 ==> n in y)
    requires (forall n :: n in x ==> n in p0) && (forall n :: n in y ==> n in p0)
    ensures forall n :: n in p0 ==> n in p && n in p' && p[n] == p'[n]
    ensures forall n :: n in m0 ==> n in m && n in m' && m[n] == m'[n]
  {
    forall n | n in p0 ensures p[n] == p'[n] {
      assert NameStepped(a, cfg, shapes, inputs, p0, m0, n, p, m) && NameStepped(a, cfg, shapes, inputs, p0, m0, n, p', m');
    }
    forall n | n in m0 ensures m[n] == m'[n] {
      if n in p0 {
        assert NameStepped(a, cfg, shapes, inputs, p0, m0, n, p, m) && NameStepped(a, cfg, shapes, inputs, p0, m0, n, p', m');
      }
    }
  }

  // ---- the outcome of a step ----

  /** Parameters, momentum, error and number of names stepped when apply ends. */
  datatype Walked<V> = Walked(tensors: map<int, Tensor<V>>, momentum: map<int, seq<V>>, error: Option<Error>, done: nat)

  /** What apply promises about its end, over the sorted names. */
  ghost predicate Ends<V, W>(a: Arithmetic<V, W>, cfg: Config<V>, shapes: map<int, seq<nat>>, inputs: Inputs<V>, names: seq<int>,
                             p0: map<int, Tensor<V>>, m0: map<int, seq<V>>, w: Walked<V>) {
    && w.done <= |names| && (w.error == None <==> w.done == |names|)
    && Progress(a, cfg, shapes, inputs, p0, m0, names[..w.done], w.tensors, w.momentum)
    && (w.error.Some? ==> Failed(a, cfg, shapes, inputs, p0, m0, names[w.done], w.error.value))
  }

  /** Name by name, each from its own parameter, momentum and contributions, until one fails. */
  ghost function Walk<V, W>(a: Arithmetic<V, W>, cfg: Config<V>, shapes: map<int, seq<nat>>, inputs: Inputs<V>, names: seq<int>,
                            p0: map<int, Tensor<V>>, m0: map<int, seq<V>>): Walked<V>
    requires forall n :: n in names ==> n in p0
  {
    if names == [] then Walked(p0, m0, None, 0)
    else
      var last := |names| - 1;
      var before := Walk(a, cfg, shapes, inputs, names[..last], p0, m0);
      if before.error.Some? then before
      else
        match Stepped(a, cfg, shapes, inputs, names[last], p0[names[last]], Held(m0, names[last]))
        case Err(e) => before.(error := Some(e))
        case Ok(next) => Walked(before.tensors[names[last] := next.0], before.momentum[names[last] := next.1], None, |names|)
  }

  lemma {:induction false} WalkEnds<V, W>(a: Arithmetic<V, W>, cfg: Config<V>, shapes: map<int, seq<nat>>, inputs: Inputs<V>, names: seq<int>,
                                          p0: map<int, Tensor<V>>, m0: map<int, seq<V>>)
    requires Ascending(names) && (forall n :: n in names ==> n in p0) && forall n :: n in shapes ==> n in m0
    ensures Ends(a, cfg, shapes, inputs, names, p0, m0, Walk(a, cfg, shapes, inputs, names, p0, m0))
  {
    if names != [] {
      var last := |names| - 1;
      var front, name := names[..last], names[last];
      WalkEnds(a, cfg, shapes, inputs, front, p0, m0);
      var before := Walk(a, cfg, shapes, inputs, front, p0, m0);
      assert front[..before.done] == names[..before.done];
      if before.error == None && Stepped(a, cfg, shapes, inputs, name, p0[name], Held(m0, name)).Ok? {
        assert name in p0 && name !in front && name in m0;
        assert names[..|names|] == front + [name];
        var next := Stepped(a, cfg, shapes, inputs, name, p0[name], m0[name]).value;
        ProgressNext(a, cfg, shapes, inputs, p0, m0, front, before.tensors, before.momentum, name,
                     before.tensors[name := next.0], before.momentum[name := next.1]);
      }
    }
  }

  lemma SteppedNotFailed<V, W>(a: Arithmetic<V, W>, cfg: Config<V>, shapes: map<int, seq<nat>>, inputs: Inputs<V>, done: seq<int>,
                               p0: map<int, Tensor<V>>, m0: map<int, seq<V>>, p: map<int, Tensor<V>>, m: map<int, seq<V>>, i: nat, e: Error)
    requires Progress(a, cfg, shapes, inputs, p0, m0, done, p, m) && i < |done|
    ensures !Failed(a, cfg, shapes, inputs, p0, m0, done[i], e)
  {
    assert NameStepped(a, cfg, shapes, inputs, p0, m0, done[i], p, m);
  }

  lemma StopsOnce<V, W>(a: Arithmetic<V, W>, cfg: Config<V>, shapes: map<int, seq<nat>>, inputs: Inputs<V>, names: seq<int>,
                        p0: map<int, Tensor<V>>, m0: map<int, seq<V>>, x: Walked<V>, y: Walked<V>)
    requires Ends(a, cfg, shapes, inputs, names, p0, m0, x) && Ends(a, cfg, shapes, inputs, names, p0, m0, y)
    ensures x.done >= y.done
  {
    forall i, e | 0 <= i < y.done ensures !Failed(a, cfg, shapes, inputs, p0, m0, names[i], e) {
      SteppedNotFailed(a, cfg, shapes, inputs, names[..y.done], p0, m0, y.tensors, y.momentum, i, e);
    }
  }

  lemma SameProgress<V, W>(a: Arithmetic<V, W>, cfg: Config<V>, shapes: map<int, seq<nat>>, inputs: Inputs<V>, done: seq<int>,
                           p0: map<int, Tensor<V>>, m0: map<int, seq<V>>, p: map<int, Tensor<V>>, m: map<int, seq<V>>,
                           p': map<int, Tensor<V>>, m': map<int, seq<V>>)
    requires Progress(a, cfg, shapes, inputs, p0, m0, done, p, m) && Progress(a, cfg, shapes, inputs, p0, m0, done, p', m')
    ensures p == p' && m == m'
  {
    forall n | n in done ensures n in p && n in p' && n in m && n in m' && p[n] == p'[n] && m[n] == m'[n] {
      assert NameStepped(a, cfg, shapes, inputs, p0, m0, n, p, m) && NameStepped(a, cfg, shapes, inputs, p0, m0, n, p', m');
    }
    forall n ensures Agree(p, p', n) {}
    forall n ensures Agree(m, m', n) {}
    MapsEqual(p, p');
    MapsEqual(m, m');
  }

  /** Every outcome, complete or broken off, is determined by where each name started: parameters,
      momentum, the error and how far the step came. */
  lemma OutcomeUnique<V, W>(a: Arithmetic<V, W>, cfg: Config<V>, shapes: map<int, seq<nat>>, inputs: Inputs<V>, names: seq<int>,
                            p0: map<int, Tensor<V>>, m0: map<int, seq<V>>, x: Walked<V>, y: Walked<V>)
    requires Ends(a, cfg, shapes, inputs, names, p0, m0, x) && Ends(a, cfg, shapes, inputs, names, p0, m0, y)
    ensures x == y
  {
    StopsOnce(a, cfg, shapes, inputs, names, p0, m0, x, y);
    StopsOnce(a, cfg, shapes, inputs, names, p0, m0, y, x);
    SameProgress(a, cfg, shapes, inputs, names[..x.done], p0, m0, x.tensors, x.momentum, y.tensors, y.momentum);
  }
}
