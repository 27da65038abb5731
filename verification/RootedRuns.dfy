/** Training runs under the real state root (mok_core/determinism/hashing.py, used at
    subnet/core/checkpoint.py:652 and :723): what the checks of a catch-up say about names, types,
    shapes and bytes of the tensors, provided none of the hashed strings collide. */
module RootedRuns {
  import opened Prelude
  import StateRoot
  import OuterStep
  import CatchUp
  import Consensus
  import Lockstep
  import Momentum
  import CertifiedStep

  // ---- the tensors as the hash sees them ----

  /** Names behind the numbers, and how a tensor's element type and values look as bytes. */
  datatype Layout<!V> = Layout(nameOf: int -> string, dtypeOf: int -> StateRoot.Dtype, bytesOf: (int, seq<V>) -> Bytes)

  ghost predicate NamesDiffer<V>(l: Layout<V>) {
    forall i, j :: l.nameOf(i) == l.nameOf(j) ==> i == j
  }

  function Seen<V>(l: Layout<V>, t: OuterStep.Tensor<V>): StateRoot.Tensor {
    StateRoot.Tensor(l.dtypeOf(t.dtype), t.dims, l.bytesOf(t.dtype, t.data))
  }

  predicate Named<V>(theta: CertifiedStep.Tensors<V>, names: seq<int>) {
    forall i :: 0 <= i < |names| ==> names[i] in theta
  }

  lemma AllNamed<V>(theta: CertifiedStep.Tensors<V>)
    ensures Named(theta, Sorted(theta.Keys))
  {
    var names := Sorted(theta.Keys);
    forall i | 0 <= i < |names| ensures names[i] in theta { assert names[i] in names; }
  }

  function ItemsOf<V>(l: Layout<V>, theta: CertifiedStep.Tensors<V>, names: seq<int>): (r: seq<StateRoot.Item>)
    requires Named(theta, names)
    ensures |r| == |names| && forall i :: 0 <= i < |r| ==> r[i] == (l.nameOf(names[i]), Seen(l, theta[names[i]]))
  {
    if names == [] then [] else
      var m := |names| - 1;
      ItemsOf(l, theta, names[..m]) + [(l.nameOf(names[m]), Seen(l, theta[names[m]]))]
  }

  /** model_params.items(), sorted by name. */
  function Items<V>(l: Layout<V>, theta: CertifiedStep.Tensors<V>): seq<StateRoot.Item> {
    AllNamed(theta);
    StateRoot.SortItems(ItemsOf(l, theta, Sorted(theta.Keys)))
  }

  predicate Hashable<V>(l: Layout<V>, theta: CertifiedStep.Tensors<V>) {
    forall x :: x in Items(l, theta) ==> StateRoot.ItemHashable(x)
  }

  // ---- the root as a number ----

  /** The number a digest's hex spelling denotes. */
  function BigEndian(b: Bytes): nat {
    if b == [] then 0 else BigEndian(b[..|b| - 1]) * 256 + b[|b| - 1] as nat
  }

  lemma {:induction false} BigEndianInjective(a: Bytes, b: Bytes)
    requires |a| == |b| && BigEndian(a) == BigEndian(b)
    ensures a == b
  {
    if a != [] {
      var n := |a| - 1;
      DivModUnique(BigEndian(a), 256, BigEndian(a[..n]), a[n] as int);
      DivModUnique(BigEndian(b), 256, BigEndian(b[..n]), b[n] as int);
      BigEndianInjective(a[..n], b[..n]);
      assert a == a[..n] + [a[n]] && b == b[..n] + [b[n]];
    }
  }

  /** state_root. A state with a type the hash has no tag for, or a number too wide for its field, has
      none: the code raises there. */
  function RootOf<V>(l: Layout<V>, hash: Bytes -> Bytes, theta: CertifiedStep.Tensors<V>): nat {
    if Hashable(l, theta) then BigEndian(hash(StateRoot.StatePreimage(hash, Items(l, theta)))) else 0
  }

  /** Same names, and the same type, shape and bytes under every name. */
  ghost predicate SameTensors<V>(l: Layout<V>, a: CertifiedStep.Tensors<V>, b: CertifiedStep.Tensors<V>) {
    forall n :: SameAt(l, a, b, n)
  }

  ghost predicate SameAt<V>(l: Layout<V>, a: CertifiedStep.Tensors<V>, b: CertifiedStep.Tensors<V>, n: int) {
    (n in a <==> n in b) && (n in a && n in b ==> Seen(l, a[n]) == Seen(l, b[n]))
  }

  /** The two states can be hashed, and none of the strings hashed for them collide. */
  ghost predicate ToldApart<V>(l: Layout<V>, hash: Bytes -> Bytes, a: CertifiedStep.Tensors<V>, b: CertifiedStep.Tensors<V>) {
    && NamesDiffer(l) && StateRoot.Sound(hash) && Hashable(l, a) && Hashable(l, b)
    && StateRoot.CollisionFree(hash, Items(l, a), Items(l, b))
  }

  lemma ItemListed<V>(l: Layout<V>, theta: CertifiedStep.Tensors<V>, n: int)
    requires n in theta
    ensures (l.nameOf(n), Seen(l, theta[n])) in Items(l, theta)
  {
    var names := Sorted(theta.Keys);
    AllNamed(theta);
    assert n in names;
    var i :| 0 <= i < |names| && names[i] == n;
    assert ItemsOf(l, theta, names)[i] in ItemsOf(l, theta, names);
  }

  lemma ListedItem<V>(l: Layout<V>, theta: CertifiedStep.Tensors<V>, x: StateRoot.Item) returns (n: int)
    requires x in Items(l, theta)
    ensures n in theta && x == (l.nameOf(n), Seen(l, theta[n]))
  {
    var names := Sorted(theta.Keys);
    AllNamed(theta);
    var items := ItemsOf(l, theta, names);
    assert x in items;
    var i :| 0 <= i < |items| && items[i] == x;
    assert names[i] in names;
    n := names[i];
  }

  lemma ItemsShow<V>(l: Layout<V>, a: CertifiedStep.Tensors<V>, b: CertifiedStep.Tensors<V>, n: int)
    requires NamesDiffer(l) && Items(l, a) == Items(l, b) && n in a
    ensures n in b && Seen(l, a[n]) == Seen(l, b[n])
  {
    ItemListed(l, a, n);
    var m := ListedItem(l, b, (l.nameOf(n), Seen(l, a[n])));
    assert m == n;
  }

  lemma {:induction false} ItemsDependOnSeen<V>(l: Layout<V>, a: CertifiedStep.Tensors<V>, b: CertifiedStep.Tensors<V>, names: seq<int>)
    requires Named(a, names) && Named(b, names) && forall i :: 0 <= i < |names| ==> Seen(l, a[names[i]]) == Seen(l, b[names[i]])
    ensures ItemsOf(l, a, names) == ItemsOf(l, b, names)
  {
    if names != [] { ItemsDependOnSeen(l, a, b, names[..|names| - 1]); }
  }

  lemma SameItems<V>(l: Layout<V>, a: CertifiedStep.Tensors<V>, b: CertifiedStep.Tensors<V>)
    requires SameTensors(l, a, b)
    ensures Items(l, a) == Items(l, b)
  {
    forall n ensures n in Sorted(a.Keys) <==> n in Sorted(b.Keys) { assert SameAt(l, a, b, n); }
    AscendingUnique(Sorted(a.Keys), Sorted(b.Keys));
    AllNamed(a);
    AllNamed(b);
    forall i | 0 <= i < |Sorted(a.Keys)| ensures Seen(l, a[Sorted(a.Keys)[i]]) == Seen(l, b[Sorted(a.Keys)[i]]) {
      assert SameAt(l, a, b, Sorted(a.Keys)[i]);
    }
    ItemsDependOnSeen(l, a, b, Sorted(a.Keys));
  }

  /** Equal roots are equal names, types, shapes and bytes. */
  lemma RootBindsTensors<V>(l: Layout<V>, hash: Bytes -> Bytes, a: CertifiedStep.Tensors<V>, b: CertifiedStep.Tensors<V>)
    requires ToldApart(l, hash, a, b)
    ensures RootOf(l, hash, a) == RootOf(l, hash, b) <==> SameTensors(l, a, b)
  {
    RootBindsItems(l, hash, a, b);
    if Items(l, a) == Items(l, b) { ItemsShowAll(l, a, b); }
    if SameTensors(l, a, b) { SameItems(l, a, b); }
  }

  lemma ItemsShowAll<V>(l: Layout<V>, a: CertifiedStep.Tensors<V>, b: CertifiedStep.Tensors<V>)
    requires NamesDiffer(l) && Items(l, a) == Items(l, b)
    ensures SameTensors(l, a, b)
  {
    forall n ensures SameAt(l, a, b, n) {
      if n in a { ItemsShow(l, a, b, n); }
      if n in b { ItemsShow(l, b, a, n); }
    }
  }

  lemma RootBindsItems<V>(l: Layout<V>, hash: Bytes -> Bytes, a: CertifiedStep.Tensors<V>, b: CertifiedStep.Tensors<V>)
    requires ToldApart(l, hash, a, b)
    ensures RootOf(l, hash, a) == RootOf(l, hash, b) <==> Items(l, a) == Items(l, b)
  {
    var x, y := StateRoot.StatePreimage(hash, Items(l, a)), StateRoot.StatePreimage(hash, Items(l, b));
    StateRoot.RootBindsState(hash, Items(l, a), Items(l, b));
    if RootOf(l, hash, a) == RootOf(l, hash, b) { BigEndianInjective(hash(x), hash(y)); }
  }

  // ---- what a run's checks say of the tensors ----

  ghost predicate Rooted<Q, V(!new)>(l: Layout<V>, hash: Bytes -> Bytes, world: CertifiedStep.Training<Q, V>) {
    forall theta :: world.root(theta) == RootOf(l, hash, theta)
  }

  /** The tensors a run has when it reaches its k-th applied window are those of whoever the window's
      certificate was made from. */
  lemma CertificateNamesTensors<Q, V(!new)>(l: Layout<V>, hash: Bytes -> Bytes, world: CertifiedStep.Training<Q, V>,
                                            node: CertifiedStep.State<V>, from: int, upto: int, k: nat, leader: CertifiedStep.Tensors<V>)
    requires Rooted(l, hash, world) && k < |CatchUp.Replay(world, node, from + 1, upto).report.applied|
    requires var applied := CatchUp.Replay(world, node, from + 1, upto).report.applied;
             && ToldApart(l, hash, Lockstep.Fold(world, node, applied[..k]).theta, leader)
             && world.certificate(applied[k]).CertFound? && world.certificate(applied[k]).cert.thetaStartRoot == RootOf(l, hash, leader)
    ensures var applied := CatchUp.Replay(world, node, from + 1, upto).report.applied;
            SameTensors(l, Lockstep.Fold(world, node, applied[..k]).theta, leader)
  {
    var applied := CatchUp.Replay(world, node, from + 1, upto).report.applied;
    var theta := Lockstep.Fold(world, node, applied[..k]).theta;
    Lockstep.CertificateNamedState(world, node, from + 1, upto, k);
    RootBindsTensors(l, hash, theta, leader);
  }

  /** Two nodes that pass every check had the same names, types, shapes and bytes before every window
      they applied, whatever they started from. */
  lemma TensorsAgreeBeforeEach<Q, V(!new)>(l: Layout<V>, hash: Bytes -> Bytes, world: CertifiedStep.Training<Q, V>,
                                           a: CertifiedStep.State<V>, b: CertifiedStep.State<V>, from: int, upto: int, k: nat)
    requires Rooted(l, hash, world) && Momentum.BothPass(world, a, b, from, upto)
    requires k < |Lockstep.CertifiedWindows(world, from + 1, upto)|
    requires var ws := Lockstep.CertifiedWindows(world, from + 1, upto)[..k];
             ToldApart(l, hash, Lockstep.Fold(world, a, ws).theta, Lockstep.Fold(world, b, ws).theta)
    ensures var ws := Lockstep.CertifiedWindows(world, from + 1, upto)[..k];
            SameTensors(l, Lockstep.Fold(world, a, ws).theta, Lockstep.Fold(world, b, ws).theta)
  {
    var ws := Lockstep.CertifiedWindows(world, from + 1, upto)[..k];
    Lockstep.CatchUpIsFold(world, a, from, upto);
    Lockstep.CatchUpIsFold(world, b, from, upto);
    Lockstep.CertificateNamedState(world, a, from + 1, upto, k);
    Lockstep.CertificateNamedState(world, b, from + 1, upto, k);
    RootBindsTensors(l, hash, Lockstep.Fold(world, a, ws).theta, Lockstep.Fold(world, b, ws).theta);
  }

  /** And at the end, once anyone has committed to the next window. */
  lemma CommittedHeadBindsTensors<Q, V(!new)>(l: Layout<V>, hash: Bytes -> Bytes, world: CertifiedStep.Training<Q, V>,
                                              a: CertifiedStep.State<V>, b: CertifiedStep.State<V>, from: int, upto: int)
    requires Rooted(l, hash, world) && Momentum.BothPass(world, a, b, from, upto) && Momentum.HeadCommitted(world, upto)
    requires ToldApart(l, hash, CatchUp.Outcome(world, a, from, upto).node.theta, CatchUp.Outcome(world, b, from, upto).node.theta)
    ensures SameTensors(l, CatchUp.Outcome(world, a, from, upto).node.theta, CatchUp.Outcome(world, b, from, upto).node.theta)
  {
    var root := Consensus.ConsensusRoot(world.commits(upto + 1).value).value;
    assert world.root(CatchUp.Outcome(world, a, from, upto).node.theta) == root;
    assert world.root(CatchUp.Outcome(world, b, from, upto).node.theta) == root;
    RootBindsTensors(l, hash, CatchUp.Outcome(world, a, from, upto).node.theta, CatchUp.Outcome(world, b, from, upto).node.theta);
  }
}
