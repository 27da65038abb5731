/** build_outer_inputs (subnet/core/checkpoint.py:478-523): certified payloads become the per-name
    lists the outer step merges. Names are numbered in sorted order; turning one compressed tensor
    into pairs and taking a norm are parameters. */
module OuterInputs {
  import opened Prelude

  datatype Payload<C, D> = Payload(compressed: map<int, C>, dense: map<int, D>)

  datatype Conversion<!C, !D, !S, !N> = Conversion(pairs: (int, C) -> Option<S>, pairNorm: S -> N, denseNorm: D -> N)

  datatype Inputs<S, D, N> = Inputs(sparse: map<int, seq<S>>, dense: map<int, seq<D>>, norms: map<int, seq<N>>)

  datatype Error = NotAscending | MissingParam(uid: int, name: int) | BadTensor(uid: int, name: int) | DenseSetDiffers(uid: int)

  /** dict.get(name, []), the list setdefault appends to. */
  function Get<T>(m: map<int, seq<T>>, name: int): seq<T> {
    if name in m then m[name] else []
  }

  function Appended<T>(m: map<int, seq<T>>, name: int, x: T): map<int, seq<T>> {
    m[name := Get(m, name) + [x]]
  }

  // ---- what each peer contributes to one name ----

  function SparseOf<C, D, S, N>(conv: Conversion<C, D, S, N>, names: set<int>, p: Payload<C, D>, name: int): seq<S> {
    if name in names && name in p.compressed && conv.pairs(name, p.compressed[name]).Some?
    then [conv.pairs(name, p.compressed[name]).value] else []
  }

  function DenseOf<C, D>(dense: set<int>, p: Payload<C, D>, name: int): seq<D> {
    if name in dense && name in p.dense then [p.dense[name]] else []
  }

  function NormsOf<C, D, S, N>(conv: Conversion<C, D, S, N>, names: set<int>, dense: set<int>, p: Payload<C, D>, name: int): seq<N> {
    PairNorm(conv, names, p, name) + DenseNorm(conv, dense, p, name)
  }

  /** A payload that has every named tensor, readable, and exactly the cohort's dense names. */
  ghost predicate Complete<C, D, S, N>(conv: Conversion<C, D, S, N>, names: set<int>, dense: set<int>, p: Payload<C, D>) {
    Readable(conv, names, p) && forall n :: n in p.dense <==> n in dense
  }

  ghost predicate Converts<C, D, S, N>(conv: Conversion<C, D, S, N>, p: Payload<C, D>, n: int) {
    n in p.compressed && conv.pairs(n, p.compressed[n]).Some?
  }

  ghost predicate Readable<C, D, S, N>(conv: Conversion<C, D, S, N>, names: set<int>, p: Payload<C, D>) {
    forall n :: n in names ==> Converts(conv, p, n)
  }

  // ---- one payload ----

  /** The list under n grew by xs. */
  ghost predicate Grew<T>(before: map<int, seq<T>>, next: map<int, seq<T>>, n: int, xs: seq<T>) {
    Get(next, n) == Get(before, n) + xs && (n in next <==> n in before || xs != [])
  }

  lemma GrewNothing<T>(m: map<int, seq<T>>, n: int)
    ensures Grew(m, m, n, [])
  {
  }

  lemma GrewOne<T>(before: map<int, seq<T>>, now: map<int, seq<T>>, name: int, x: T, n: int, xs: seq<T>)
    requires Grew(before, now, n, xs) && (n == name ==> xs == [])
    ensures Grew(before, Appended(now, name, x), n, if n == name then [x] else xs)
  {
    if n == name { assert Get(before, n) + [] == Get(before, n); }
  }

  lemma GrewTwice<T>(a: map<int, seq<T>>, b: map<int, seq<T>>, c: map<int, seq<T>>, n: int, xs: seq<T>, ys: seq<T>)
    requires Grew(a, b, n, xs) && Grew(b, c, n, ys)
    ensures Grew(a, c, n, xs + ys)
  {
    assert Get(a, n) + (xs + ys) == (Get(a, n) + xs) + ys;
  }

  function PairNorm<C, D, S, N>(conv: Conversion<C, D, S, N>, names: set<int>, p: Payload<C, D>, n: int): seq<N> {
    if SparseOf(conv, names, p, n) == [] then [] else [conv.pairNorm(SparseOf(conv, names, p, n)[0])]
  }

  function DenseNorm<C, D, S, N>(conv: Conversion<C, D, S, N>, dense: set<int>, p: Payload<C, D>, n: int): seq<N> {
    if DenseOf(dense, p, n) == [] then [] else [conv.denseNorm(DenseOf(dense, p, n)[0])]
  }

  /** The names of `done` have grown, no other. */
  ghost predicate GrewUpto<T>(before: map<int, seq<T>>, now: map<int, seq<T>>, add: int -> seq<T>, done: seq<int>) {
    forall n :: Grew(before, now, n, Part(add, done, n))
  }

  function Part<T>(add: int -> seq<T>, done: seq<int>, n: int): seq<T> {
    if n in done then add(n) else []
  }

  lemma GrewStart<T>(m: map<int, seq<T>>, add: int -> seq<T>)
    ensures GrewUpto(m, m, add, [])
  {
    forall n ensures Grew(m, m, n, Part(add, [], n)) { GrewNothing(m, n); }
  }

  lemma GrewNext<T>(before: map<int, seq<T>>, now: map<int, seq<T>>, add: int -> seq<T>, done: seq<int>, name: int, x: T)
    requires GrewUpto(before, now, add, done) && name !in done && add(name) == [x]
    ensures GrewUpto(before, Appended(now, name, x), add, done + [name])
  {
    forall n ensures Grew(before, Appended(now, name, x), n, Part(add, done + [name], n)) {
      assert Grew(before, now, n, Part(add, done, n));
      GrewOne(before, now, name, x, n, Part(add, done, n));
    }
  }

  lemma GrewEnd<T>(before: map<int, seq<T>>, now: map<int, seq<T>>, add: int -> seq<T>, names: seq<int>, n: int)
    requires GrewUpto(before, now, add, names) && (n !in names ==> add(n) == [])
    ensures Grew(before, now, n, add(n))
  {
    assert Grew(before, now, n, Part(add, names, n));
  }

  /** The loop body: one named tensor. */
  method AddOne<C, D, S, N>(conv: Conversion<C, D, S, N>, uid: int, p: Payload<C, D>, name: int, sparse0: map<int, seq<S>>, norms0: map<int, seq<N>>)
    returns (error: Option<Error>, sparse: map<int, seq<S>>, norms: map<int, seq<N>>)
    ensures error == None <==> Converts(conv, p, name)
    ensures error != Some(NotAscending)
    ensures error == None ==> var s := conv.pairs(name, p.compressed[name]).value;
              sparse == Appended(sparse0, name, s) && norms == Appended(norms0, name, conv.pairNorm(s))
  {
    sparse, norms := sparse0, norms0;
    if name !in p.compressed { return Some(MissingParam(uid, name)), sparse, norms; }
    var s := conv.pairs(name, p.compressed[name]);
    if s == None { return Some(BadTensor(uid, name)), sparse, norms; }
    sparse, norms := Appended(sparse, name, s.value), Appended(norms, name, conv.pairNorm(s.value));
    error := None;
  }

  lemma NameAt(listed: seq<int>, names: set<int>, j: nat)
    requires Ascending(listed) && (forall x :: x in listed <==> x in names) && j < |listed|
    ensures listed[j] in names && listed[j] !in listed[..j] && listed[..j + 1] == listed[..j] + [listed[j]]
  {
    assert listed[j] in listed;
  }

  lemma AllConvert<C, D, S, N>(conv: Conversion<C, D, S, N>, names: set<int>, p: Payload<C, D>, listed: seq<int>)
    requires forall n :: n in listed <==> n in names
    ensures Readable(conv, names, p) <==> forall i :: 0 <= i < |listed| ==> Converts(conv, p, listed[i])
  {
    if Readable(conv, names, p) {
      forall i | 0 <= i < |listed| ensures Converts(conv, p, listed[i]) { assert listed[i] in listed; }
    }
  }

  function SparseAdd<C, D, S, N>(conv: Conversion<C, D, S, N>, names: set<int>, p: Payload<C, D>): int -> seq<S> {
    n => SparseOf(conv, names, p, n)
  }

  function PairNormAdd<C, D, S, N>(conv: Conversion<C, D, S, N>, names: set<int>, p: Payload<C, D>): int -> seq<N> {
    n => PairNorm(conv, names, p, n)
  }

  function DenseAdd<C, D>(dense: set<int>, p: Payload<C, D>): int -> seq<D> {
    n => DenseOf(dense, p, n)
  }

  function DenseNormAdd<C, D, S, N>(conv: Conversion<C, D, S, N>, dense: set<int>, p: Payload<C, D>): int -> seq<N> {
    n => DenseNorm(conv, dense, p, n)
  }

  /** The lists after the named tensors listed in `done`. */
  ghost predicate SparseDone<C, D, S, N>(conv: Conversion<C, D, S, N>, names: set<int>, p: Payload<C, D>, done: seq<int>,
                                         sparse0: map<int, seq<S>>, norms0: map<int, seq<N>>, sparse: map<int, seq<S>>, norms: map<int, seq<N>>) {
    GrewUpto(sparse0, sparse, SparseAdd(conv, names, p), done) && GrewUpto(norms0, norms, PairNormAdd(conv, names, p), done)
  }

  lemma SparseStart<C, D, S, N>(conv: Conversion<C, D, S, N>, names: set<int>, p: Payload<C, D>, sparse: map<int, seq<S>>, norms: map<int, seq<N>>)
    ensures SparseDone(conv, names, p, [], sparse, norms, sparse, norms)
  {
    GrewStart(sparse, SparseAdd(conv, names, p));
    GrewStart(norms, PairNormAdd(conv, names, p));
  }

  lemma SparseNext<C, D, S, N>(conv: Conversion<C, D, S, N>, names: set<int>, p: Payload<C, D>, done: seq<int>, name: int,
                               sparse0: map<int, seq<S>>, norms0: map<int, seq<N>>, sparse: map<int, seq<S>>, norms: map<int, seq<N>>)
    requires SparseDone(conv, names, p, done, sparse0, norms0, sparse, norms)
    requires name in names && name !in done && Converts(conv, p, name)
    ensures var s := conv.pairs(name, p.compressed[name]).value;
            SparseDone(conv, names, p, done + [name], sparse0, norms0, Appended(sparse, name, s), Appended(norms, name, conv.pairNorm(s)))
  {
    var s := conv.pairs(name, p.compressed[name]).value;
    GrewNext(sparse0, sparse, SparseAdd(conv, names, p), done, name, s);
    GrewNext(norms0, norms, PairNormAdd(conv, names, p), done, name, conv.pairNorm(s));
  }

  lemma SparseEnd<C, D, S, N>(conv: Conversion<C, D, S, N>, names: set<int>, p: Payload<C, D>, done: seq<int>,
                              sparse0: map<int, seq<S>>, norms0: map<int, seq<N>>, sparse: map<int, seq<S>>, norms: map<int, seq<N>>)
    requires SparseDone(conv, names, p, done, sparse0, norms0, sparse, norms) && forall n :: n in names ==> n in done
    ensures forall n :: Grew(sparse0, sparse, n, SparseOf(conv, names, p, n))
    ensures forall n :: Grew(norms0, norms, n, PairNorm(conv, names, p, n))
  {
    forall n ensures Grew(sparse0, sparse, n, SparseOf(conv, names, p, n)) { GrewEnd(sparse0, sparse, SparseAdd(conv, names, p), done, n); }
    forall n ensures Grew(norms0, norms, n, PairNorm(conv, names, p, n)) { GrewEnd(norms0, norms, PairNormAdd(conv, names, p), done, n); }
  }

  /** The loop over the named tensors of one payload. */
  method AddSparse<C, D, S, N>(conv: Conversion<C, D, S, N>, names: set<int>, uid: int, p: Payload<C, D>, sparse0: map<int, seq<S>>, norms0: map<int, seq<N>>)
    returns (error: Option<Error>, sparse: map<int, seq<S>>, norms: map<int, seq<N>>)
    ensures error == None <==> Readable(conv, names, p)
    ensures error == None ==> forall n :: Grew(sparse0, sparse, n, SparseOf(conv, names, p, n))
    ensures error == None ==> forall n :: Grew(norms0, norms, n, PairNorm(conv, names, p, n))
    ensures error != Some(NotAscending)
  {
    sparse, norms := sparse0, norms0;
    var listed := Sorted(names);
    AllConvert(conv, names, p, listed);
    SparseStart(conv, names, p, sparse0, norms0);
    assert listed[..0] == [];
    for j := 0 to |listed|
      invariant SparseDone(conv, names, p, listed[..j], sparse0, norms0, sparse, norms)
      invariant forall i :: 0 <= i < j ==> Converts(conv, p, listed[i])
    {
      NameAt(listed, names, j);
      ghost var s1, n1 := sparse, norms;
      error, sparse, norms := AddOne(conv, uid, p, listed[j], sparse, norms);
      if error.Some? { return; }
      SparseNext(conv, names, p, listed[..j], listed[j], sparse0, norms0, s1, n1);
    }
    assert listed[..|listed|] == listed;
    SparseEnd(conv, names, p, listed, sparse0, norms0, sparse, norms);
    error := None;
  }

  ghost predicate DenseDone<C, D, S, N>(conv: Conversion<C, D, S, N>, dense: set<int>, p: Payload<C, D>, done: seq<int>,
                                        dense0: map<int, seq<D>>, norms0: map<int, seq<N>>, contribs: map<int, seq<D>>, norms: map<int, seq<N>>) {
    GrewUpto(dense0, contribs, DenseAdd(dense, p), done) && GrewUpto(norms0, norms, DenseNormAdd(conv, dense, p), done)
  }

  lemma DenseStart<C, D, S, N>(conv: Conversion<C, D, S, N>, dense: set<int>, p: Payload<C, D>, contribs: map<int, seq<D>>, norms: map<int, seq<N>>)
    ensures DenseDone(conv, dense, p, [], contribs, norms, contribs, norms)
  {
    GrewStart(contribs, DenseAdd(dense, p));
    GrewStart(norms, DenseNormAdd(conv, dense, p));
  }

  lemma DenseNext<C, D, S, N>(conv: Conversion<C, D, S, N>, dense: set<int>, p: Payload<C, D>, done: seq<int>, name: int,
                              dense0: map<int, seq<D>>, norms0: map<int, seq<N>>, contribs: map<int, seq<D>>, norms: map<int, seq<N>>)
    requires DenseDone(conv, dense, p, done, dense0, norms0, contribs, norms)
    requires name in dense && name !in done && name in p.dense
    ensures DenseDone(conv, dense, p, done + [name], dense0, norms0, Appended(contribs, name, p.dense[name]), Appended(norms, name, conv.denseNorm(p.dense[name])))
  {
    GrewNext(dense0, contribs, DenseAdd(dense, p), done, name, p.dense[name]);
    GrewNext(norms0, norms, DenseNormAdd(conv, dense, p), done, name, conv.denseNorm(p.dense[name]));
  }

  lemma DenseEnd<C, D, S, N>(conv: Conversion<C, D, S, N>, dense: set<int>, p: Payload<C, D>, done: seq<int>,
                             dense0: map<int, seq<D>>, norms0: map<int, seq<N>>, contribs: map<int, seq<D>>, norms: map<int, seq<N>>)
    requires DenseDone(conv, dense, p, done, dense0, norms0, contribs, norms) && forall n :: n in dense ==> n in done
    ensures forall n :: Grew(dense0, contribs, n, DenseOf(dense, p, n))
    ensures forall n :: Grew(norms0, norms, n, DenseNorm(conv, dense, p, n))
  {
    forall n ensures Grew(dense0, contribs, n, DenseOf(dense, p, n)) { GrewEnd(dense0, contribs, DenseAdd(dense, p), done, n); }
    forall n ensures Grew(norms0, norms, n, DenseNorm(conv, dense, p, n)) { GrewEnd(norms0, norms, DenseNormAdd(conv, dense, p), done, n); }
  }

  /** The loop over the dense tensors of one payload. */
  method AddDense<C, D, S, N>(conv: Conversion<C, D, S, N>, dense: set<int>, p: Payload<C, D>, dense0: map<int, seq<D>>, norms0: map<int, seq<N>>)
    returns (contribs: map<int, seq<D>>, norms: map<int, seq<N>>)
    requires forall n :: n in p.dense <==> n in dense
    ensures forall n :: Grew(dense0, contribs, n, DenseOf(dense, p, n))
    ensures forall n :: Grew(norms0, norms, n, DenseNorm(conv, dense, p, n))
  {
    contribs, norms := dense0, norms0;
    var listed := Sorted(dense);
    DenseStart(conv, dense, p, dense0, norms0);
    assert listed[..0] == [];
    for j := 0 to |listed|
      invariant DenseDone(conv, dense, p, listed[..j], dense0, norms0, contribs, norms)
    {
      var name := listed[j];
      assert name in listed && name !in listed[..j];
      assert listed[..j + 1] == listed[..j] + [name];
      DenseNext(conv, dense, p, listed[..j], name, dense0, norms0, contribs, norms);
      contribs, norms := Appended(contribs, name, p.dense[name]), Appended(norms, name, conv.denseNorm(p.dense[name]));
    }
    assert listed[..|listed|] == listed;
    DenseEnd(conv, dense, p, listed, dense0, norms0, contribs, norms);
  }

  // ---- all payloads ----

  /** The lists hold, for every name, what the payloads contribute in their order. */
  ghost predicate Built<C, D, S, N>(conv: Conversion<C, D, S, N>, names: set<int>, dense: set<int>, ps: seq<Payload<C, D>>, r: Inputs<S, D, N>) {
    && (forall n :: Listed(r.sparse, n, SparseColumn(conv, names, ps, n)))
    && (forall n :: Listed(r.dense, n, DenseColumn(dense, ps, n)))
    && (forall n :: Listed(r.norms, n, NormColumn(conv, names, dense, ps, n)))
  }

  /** A name is present exactly when its list is not empty. */
  ghost predicate Listed<T>(m: map<int, seq<T>>, n: int, column: seq<T>) {
    Get(m, n) == column && (n in m <==> column != [])
  }

  function SparseColumn<C, D, S, N>(conv: Conversion<C, D, S, N>, names: set<int>, ps: seq<Payload<C, D>>, n: int): seq<S> {
    if ps == [] then [] else SparseColumn(conv, names, ps[..|ps| - 1], n) + SparseOf(conv, names, ps[|ps| - 1], n)
  }

  function DenseColumn<C, D>(dense: set<int>, ps: seq<Payload<C, D>>, n: int): seq<D> {
    if ps == [] then [] else DenseColumn(dense, ps[..|ps| - 1], n) + DenseOf(dense, ps[|ps| - 1], n)
  }

  function NormColumn<C, D, S, N>(conv: Conversion<C, D, S, N>, names: set<int>, dense: set<int>, ps: seq<Payload<C, D>>, n: int): seq<N> {
    if ps == [] then [] else NormColumn(conv, names, dense, ps[..|ps| - 1], n) + NormsOf(conv, names, dense, ps[|ps| - 1], n)
  }

  lemma ListedNext<T>(before: map<int, seq<T>>, next: map<int, seq<T>>, n: int, column: seq<T>, xs: seq<T>)
    requires Listed(before, n, column) && Grew(before, next, n, xs)
    ensures Listed(next, n, column + xs)
  {
  }

  function Payloads<C, D>(entries: seq<(int, Payload<C, D>)>): (r: seq<Payload<C, D>>)
    ensures |r| == |entries| && forall i :: 0 <= i < |r| ==> r[i] == entries[i].1
  {
    if entries == [] then [] else Payloads(entries[..|entries| - 1]) + [entries[|entries| - 1].1]
  }

  /** One payload: its named tensors, the cohort check, its dense tensors. */
  method AddPayload<C, D, S, N>(conv: Conversion<C, D, S, N>, names: set<int>, dense: set<int>, uid: int, p: Payload<C, D>,
                                before: Inputs<S, D, N>, ghost ps: seq<Payload<C, D>>)
    returns (error: Option<Error>, next: Inputs<S, D, N>)
    requires Built(conv, names, dense, ps, before)
    ensures error == None <==> Complete(conv, names, dense, p)
    ensures error == None ==> Built(conv, names, dense, ps + [p], next)
    ensures error != Some(NotAscending)
  {
    var sparse, norms, contribs, norms2;
    next := before;
    error, sparse, norms := AddSparse(conv, names, uid, p, before.sparse, before.norms);
    if error.Some? { return; }
    if !((forall n :: n in p.dense ==> n in dense) && forall n :: n in dense ==> n in p.dense) { return Some(DenseSetDiffers(uid)), next; }
    contribs, norms2 := AddDense(conv, dense, p, before.dense, norms);
    next := Inputs(sparse, contribs, norms2);
    assert next.sparse == sparse && next.dense == contribs && next.norms == norms2;
    BuiltNext(conv, names, dense, ps, p, before, norms, next);
  }

  lemma BuiltNext<C, D, S, N>(conv: Conversion<C, D, S, N>, names: set<int>, dense: set<int>, ps: seq<Payload<C, D>>, p: Payload<C, D>,
                              before: Inputs<S, D, N>, norms: map<int, seq<N>>, next: Inputs<S, D, N>)
    requires Built(conv, names, dense, ps, before)
    requires forall n :: Grew(before.sparse, next.sparse, n, SparseOf(conv, names, p, n))
    requires forall n :: Grew(before.dense, next.dense, n, DenseOf(dense, p, n))
    requires forall n :: Grew(before.norms, norms, n, PairNorm(conv, names, p, n))
    requires forall n :: Grew(norms, next.norms, n, DenseNorm(conv, dense, p, n))
    ensures Built(conv, names, dense, ps + [p], next)
  {
    assert (ps + [p])[..|ps|] == ps;
    forall n ensures Listed(next.sparse, n, SparseColumn(conv, names, ps + [p], n)) {
      ListedNext(before.sparse, next.sparse, n, SparseColumn(conv, names, ps, n), SparseOf(conv, names, p, n));
    }
    forall n ensures Listed(next.dense, n, DenseColumn(dense, ps + [p], n)) {
      ListedNext(before.dense, next.dense, n, DenseColumn(dense, ps, n), DenseOf(dense, p, n));
    }
    forall n ensures Listed(next.norms, n, NormColumn(conv, names, dense, ps + [p], n)) {
      GrewTwice(before.norms, norms, next.norms, n, PairNorm(conv, names, p, n), DenseNorm(conv, dense, p, n));
      ListedNext(before.norms, next.norms, n, NormColumn(conv, names, dense, ps, n), NormsOf(conv, names, dense, p, n));
    }
  }

  function Uids<C, D>(entries: seq<(int, Payload<C, D>)>): (r: seq<int>)
    ensures |r| == |entries| && forall i :: 0 <= i < |r| ==> r[i] == entries[i].0
  {
    if entries == [] then [] else Uids(entries[..|entries| - 1]) + [entries[|entries| - 1].0]
  }

  function NameSet(s: seq<int>): set<int> {
    set n | n in s
  }

  ghost predicate AllComplete<C, D, S, N>(conv: Conversion<C, D, S, N>, names: set<int>, dense: set<int>, ps: seq<Payload<C, D>>) {
    forall i :: 0 <= i < |ps| ==> Complete(conv, names, dense, ps[i])
  }

  lemma PayloadsNext<C, D>(entries: seq<(int, Payload<C, D>)>, k: nat)
    requires k < |entries|
    ensures Payloads(entries[..k + 1]) == Payloads(entries[..k]) + [entries[k].1]
  {
    assert entries[..k + 1][..k] == entries[..k];
  }

  lemma CompletePrefix<C, D, S, N>(conv: Conversion<C, D, S, N>, names: set<int>, dense: set<int>, entries: seq<(int, Payload<C, D>)>, k: nat)
    requires k < |entries| && AllComplete(conv, names, dense, Payloads(entries))
    ensures Complete(conv, names, dense, entries[k].1)
  {
    assert Payloads(entries)[k] == entries[k].1;
  }

  lemma CompleteNext<C, D, S, N>(conv: Conversion<C, D, S, N>, names: set<int>, dense: set<int>, ps: seq<Payload<C, D>>, p: Payload<C, D>)
    requires AllComplete(conv, names, dense, ps) && Complete(conv, names, dense, p)
    ensures AllComplete(conv, names, dense, ps + [p])
  {
  }

  /** What the loop has made of the first payloads. */
  ghost predicate Added<C, D, S, N>(conv: Conversion<C, D, S, N>, names: set<int>, dense: set<int>, ps: seq<Payload<C, D>>, inputs: Inputs<S, D, N>) {
    AllComplete(conv, names, dense, ps) && Built(conv, names, dense, ps, inputs)
  }

  lemma NothingAdded<C, D, S, N>(conv: Conversion<C, D, S, N>, names: set<int>, dense: set<int>)
    ensures Added(conv, names, dense, [], Inputs(map[], map[], map[]))
  {
  }

  method AddNext<C, D, S, N>(conv: Conversion<C, D, S, N>, names: set<int>, dense: set<int>, entry: (int, Payload<C, D>),
                             before: Inputs<S, D, N>, ghost ps: seq<Payload<C, D>>)
    returns (error: Option<Error>, next: Inputs<S, D, N>)
    requires Added(conv, names, dense, ps, before)
    ensures error == None ==> Added(conv, names, dense, ps + [entry.1], next)
    ensures error.Some? ==> error != Some(NotAscending) && !Complete(conv, names, dense, entry.1)
  {
    error, next := AddPayload(conv, names, dense, entry.0, entry.1, before, ps);
    if error == None { CompleteNext(conv, names, dense, ps, entry.1); }
  }

  /** The loop over the payloads. */
  method AddAll<C, D, S, N>(conv: Conversion<C, D, S, N>, names: set<int>, dense: set<int>, payloads: seq<(int, Payload<C, D>)>)
    returns (r: Result<Inputs<S, D, N>, Error>)
    ensures r != Err(NotAscending)
    ensures r.Ok? <==> AllComplete(conv, names, dense, Payloads(payloads))
    ensures r.Ok? ==> Built(conv, names, dense, Payloads(payloads), r.value)
  {
    var inputs: Inputs<S, D, N> := Inputs(map[], map[], map[]);
    NothingAdded(conv, names, dense);
    for k := 0 to |payloads|
      invariant Added(conv, names, dense, Payloads(payloads[..k]), inputs)
    {
      PayloadsNext(payloads, k);
      var error, next := AddNext(conv, names, dense, payloads[k], inputs, Payloads(payloads[..k]));
      if error.Some? {
        if AllComplete(conv, names, dense, Payloads(payloads)) { CompletePrefix(conv, names, dense, payloads, k); }
        return Err(error.value);
      }
      inputs := next;
    }
    assert payloads[..|payloads|] == payloads;
    r := Ok(inputs);
  }

  // ---- the lists as a function of the payloads ----

  lemma {:induction false} NoColumn<C, D, S, N>(conv: Conversion<C, D, S, N>, names: set<int>, dense: set<int>, ps: seq<Payload<C, D>>, n: int)
    ensures n !in names ==> SparseColumn(conv, names, ps, n) == []
    ensures n !in dense ==> DenseColumn(dense, ps, n) == []
    ensures n !in names && n !in dense ==> NormColumn(conv, names, dense, ps, n) == []
  {
    if ps != [] { NoColumn(conv, names, dense, ps[..|ps| - 1], n); }
  }

  ghost function InputsOf<C, D, S, N>(conv: Conversion<C, D, S, N>, names: set<int>, dense: set<int>, ps: seq<Payload<C, D>>): Inputs<S, D, N> {
    Inputs(map n | n in names && SparseColumn(conv, names, ps, n) != [] :: SparseColumn(conv, names, ps, n),
           map n | n in dense && DenseColumn(dense, ps, n) != [] :: DenseColumn(dense, ps, n),
           map n | n in names + dense && NormColumn(conv, names, dense, ps, n) != [] :: NormColumn(conv, names, dense, ps, n))
  }

  lemma ListedIs<T>(x: map<int, seq<T>>, y: map<int, seq<T>>, n: int, column: seq<T>)
    requires Listed(x, n, column) && (n in y <==> column != []) && (n in y ==> y[n] == column)
    ensures Agree(x, y, n)
  {
  }

  /** Built leaves no freedom: the lists are this function of the payloads in their order. */
  lemma BuiltIs<C, D, S, N>(conv: Conversion<C, D, S, N>, names: set<int>, dense: set<int>, ps: seq<Payload<C, D>>, r: Inputs<S, D, N>)
    requires Built(conv, names, dense, ps, r)
    ensures r == InputsOf(conv, names, dense, ps)
  {
    var x := InputsOf(conv, names, dense, ps);
    forall n ensures Agree(r.sparse, x.sparse, n) && Agree(r.dense, x.dense, n) && Agree(r.norms, x.norms, n) {
      NoColumn(conv, names, dense, ps, n);
      ListedIs(r.sparse, x.sparse, n, SparseColumn(conv, names, ps, n));
      ListedIs(r.dense, x.dense, n, DenseColumn(dense, ps, n));
      ListedIs(r.norms, x.norms, n, NormColumn(conv, names, dense, ps, n));
    }
    MapsEqual(r.sparse, x.sparse);
    MapsEqual(r.dense, x.dense);
    MapsEqual(r.norms, x.norms);
  }

  /** The dense names of the cohort are those of its first peer. */
  function CohortDense<C, D>(payloads: seq<(int, Payload<C, D>)>): set<int> {
    if payloads == [] then {} else payloads[0].1.dense.Keys
  }

  /** build_outer_inputs as a function; None when it raises. */
  ghost function OuterInputsOf<C, D, S, N>(conv: Conversion<C, D, S, N>, payloads: seq<(int, Payload<C, D>)>, paramNames: seq<int>): Option<Inputs<S, D, N>> {
    if Ascending(Uids(payloads)) && AllComplete(conv, NameSet(paramNames), CohortDense(payloads), Payloads(payloads))
    then Some(InputsOf(conv, NameSet(paramNames), CohortDense(payloads), Payloads(payloads)))
    else None
  }

  /** build_outer_inputs over a mapping's entries in iteration order. */
  method BuildOuterInputs<C, D, S, N>(conv: Conversion<C, D, S, N>, payloads: seq<(int, Payload<C, D>)>, paramNames: seq<int>)
    returns (r: Result<Inputs<S, D, N>, Error>)
    requires forall i, j :: 0 <= i < j < |payloads| ==> payloads[i].0 != payloads[j].0
    ensures r == Err(NotAscending) <==> !Ascending(Uids(payloads))
    ensures Ascending(Uids(payloads)) ==> (r.Ok? <==> AllComplete(conv, NameSet(paramNames), CohortDense(payloads), Payloads(payloads)))
    ensures r.Ok? ==> Built(conv, NameSet(paramNames), CohortDense(payloads), Payloads(payloads), r.value)
    ensures OuterInputsOf(conv, payloads, paramNames) == if r.Ok? then Some(r.value) else None
  {
    if !Ascending(Uids(payloads)) { return Err(NotAscending); }
    var names := NameSet(paramNames);
    if payloads == [] {
      r := Ok(Inputs(map[], map[], map[]));
      NothingAdded(conv, names, {});
      BuiltIs(conv, names, {}, [], r.value);
      return;
    }
    r := AddAll(conv, names, CohortDense(payloads), payloads);
    if r.Ok? { BuiltIs(conv, names, CohortDense(payloads), Payloads(payloads), r.value); }
  }

  // ---- one entry per peer ----

  /** Every complete payload puts one entry into a named list and one into a dense list, and as many
      norms as the two together: so the norms match the peers exactly when the name is not both. */
  lemma {:induction false} ColumnLengths<C, D, S, N>(conv: Conversion<C, D, S, N>, names: set<int>, dense: set<int>, ps: seq<Payload<C, D>>, n: int)
    requires forall i :: 0 <= i < |ps| ==> Complete(conv, names, dense, ps[i])
    ensures |SparseColumn(conv, names, ps, n)| == if n in names then |ps| else 0
    ensures |DenseColumn(dense, ps, n)| == if n in dense then |ps| else 0
    ensures |NormColumn(conv, names, dense, ps, n)| == |SparseColumn(conv, names, ps, n)| + |DenseColumn(dense, ps, n)|
  {
    if ps != [] {
      ColumnLengths(conv, names, dense, ps[..|ps| - 1], n);
      assert Complete(conv, names, dense, ps[|ps| - 1]);
      if n in names { assert Converts(conv, ps[|ps| - 1], n); }
    }
  }

  /** Entry k of a named list is what peer k's tensor of that name converts to. */
  lemma {:induction false} SparseEntry<C, D, S, N>(conv: Conversion<C, D, S, N>, names: set<int>, ps: seq<Payload<C, D>>, n: int, k: nat)
    requires (forall i :: 0 <= i < |ps| ==> Converts(conv, ps[i], n)) && n in names && k < |ps|
    ensures |SparseColumn(conv, names, ps, n)| == |ps|
    ensures Converts(conv, ps[k], n) && SparseColumn(conv, names, ps, n)[k] == conv.pairs(n, ps[k].compressed[n]).value
  {
    var m := |ps| - 1;
    assert Converts(conv, ps[m], n);
    if m > 0 { SparseEntry(conv, names, ps[..m], n, if k < m then k else 0); }
  }

  lemma {:induction false} DenseEntry<C, D>(dense: set<int>, ps: seq<Payload<C, D>>, n: int, k: nat)
    requires (forall i :: 0 <= i < |ps| ==> n in ps[i].dense) && n in dense && k < |ps|
    ensures |DenseColumn(dense, ps, n)| == |ps| && DenseColumn(dense, ps, n)[k] == ps[k].dense[n]
  {
    var m := |ps| - 1;
    if m > 0 { DenseEntry(dense, ps[..m], n, if k < m then k else 0); }
  }

  lemma OneNorm<C, D, S, N>(conv: Conversion<C, D, S, N>, names: set<int>, dense: set<int>, p: Payload<C, D>, n: int)
    requires Complete(conv, names, dense, p) && (n in names <==> n !in dense)
    ensures n in names ==> DenseOf(dense, p, n) == [] && |SparseOf(conv, names, p, n)| == 1
                           && NormsOf(conv, names, dense, p, n) == [conv.pairNorm(SparseOf(conv, names, p, n)[0])]
    ensures n in dense ==> SparseOf(conv, names, p, n) == [] && |DenseOf(dense, p, n)| == 1
                           && NormsOf(conv, names, dense, p, n) == [conv.denseNorm(DenseOf(dense, p, n)[0])]
  {
    if n in names { assert Converts(conv, p, n); }
  }

  /** Norm k is the norm of entry k. */
  ghost predicate Paired<T, N>(norms: seq<N>, column: seq<T>, norm: T -> N) {
    |norms| == |column| && forall k :: 0 <= k < |norms| ==> norms[k] == norm(column[k])
  }

  lemma PairedNext<T, N>(norms: seq<N>, column: seq<T>, norm: T -> N, x: T)
    requires Paired(norms, column, norm)
    ensures Paired(norms + [norm(x)], column + [x], norm)
  {
  }

  /** For a name on one side only, norm k is the norm of what peer k puts into the merge. */
  lemma {:induction false} NormEntry<C, D, S, N>(conv: Conversion<C, D, S, N>, names: set<int>, dense: set<int>, ps: seq<Payload<C, D>>, n: int)
    requires AllComplete(conv, names, dense, ps) && (n in names <==> n !in dense)
    ensures n in names ==> Paired(NormColumn(conv, names, dense, ps, n), SparseColumn(conv, names, ps, n), conv.pairNorm)
    ensures n in dense ==> Paired(NormColumn(conv, names, dense, ps, n), DenseColumn(dense, ps, n), conv.denseNorm)
  {
    if ps != [] {
      var m := |ps| - 1;
      var p, norms := ps[m], NormColumn(conv, names, dense, ps[..m], n);
      NormEntry(conv, names, dense, ps[..m], n);
      OneNorm(conv, names, dense, p, n);
      if n in names {
        PairedNext(norms, SparseColumn(conv, names, ps[..m], n), conv.pairNorm, SparseOf(conv, names, p, n)[0]);
      } else {
        PairedNext(norms, DenseColumn(dense, ps[..m], n), conv.denseNorm, DenseOf(dense, p, n)[0]);
      }
    }
  }
}
