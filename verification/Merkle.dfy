/** The dataset commitment (mok_core/data/merkle.py) and the check of a downloaded
    index against it (mok_core/data/shards.py). Digests are an arbitrary type and the
    parent hash an arbitrary function: collision freedom is asked only of the pairs
    that the computations at hand really hash. */
module Merkle {
  import opened Prelude

  type Parent<!D> = (D, D) -> D

  datatype Step<D> = Step(sibling: D, siblingIsRight: bool)

  // ---- the tree as a function of its leaves ----

  /** The node paired with position 2j: its right neighbour, or itself at an odd end. */
  function Partner<D>(level: seq<D>, j: nat): D
    requires 2 * j < |level|
  {
    if 2 * j + 1 < |level| then level[2 * j + 1] else level[2 * j]
  }

  function Next<D>(parent: Parent<D>, level: seq<D>): seq<D> {
    seq((|level| + 1) / 2, j requires 0 <= j < (|level| + 1) / 2 => parent(level[2 * j], Partner(level, j)))
  }

  function Levels<D>(parent: Parent<D>, leaves: seq<D>): (ls: seq<seq<D>>)
    requires leaves != []
    ensures ls != [] && ls[0] == leaves
    decreases |leaves|
  {
    if |leaves| == 1 then [leaves] else [leaves] + Levels(parent, Next(parent, leaves))
  }

  function Root<D>(parent: Parent<D>, leaves: seq<D>): D
    requires leaves != []
    decreases |leaves|
  {
    if |leaves| == 1 then leaves[0] else Root(parent, Next(parent, leaves))
  }

  function Depth(n: nat): nat
    requires n >= 1
  {
    if n == 1 then 0 else 1 + Depth((n + 1) / 2)
  }

  function SiblingOf<D>(level: seq<D>, i: nat): D
    requires i < |level|
  {
    if i % 2 == 0 then Partner(level, i / 2) else level[i - 1]
  }

  function Path<D>(parent: Parent<D>, leaves: seq<D>, i: nat): seq<Step<D>>
    requires i < |leaves|
    decreases |leaves|
  {
    if |leaves| == 1 then [] else [Step(SiblingOf(leaves, i), i % 2 == 0)] + Path(parent, Next(parent, leaves), i / 2)
  }

  function Fold<D>(parent: Parent<D>, node: D, proof: seq<Step<D>>): D
    decreases |proof|
  {
    if proof == [] then node
    else
      var s := proof[0];
      Fold(parent, if s.siblingIsRight then parent(node, s.sibling) else parent(s.sibling, node), proof[1..])
  }

  lemma PairingIsNext<D>(parent: Parent<D>, level: seq<D>, paired: seq<D>, above: seq<D>)
    requires level != []
    requires paired == if |level| % 2 == 0 then level else level + [level[|level| - 1]]
    requires |above| == |paired| / 2
    requires forall j :: 0 <= j < |above| ==> above[j] == parent(paired[2 * j], paired[2 * j + 1])
    ensures above == Next(parent, level)
  {
    forall j | 0 <= j < |above| ensures above[j] == Next(parent, level)[j] {
      assert paired[2 * j] == level[2 * j] && paired[2 * j + 1] == Partner(level, j);
    }
  }

  lemma LevelsUnfold<D>(parent: Parent<D>, below: seq<seq<D>>, level: seq<D>)
    requires |level| > 1
    ensures below + Levels(parent, level) == (below + [level]) + Levels(parent, Next(parent, level))
  {
  }

  // ---- the class ----

  class MerkleTree<D(==)> {
    const parent: Parent<D>
    var levels: seq<seq<D>>

    ghost predicate Commits(leaves: seq<D>)
      reads this
    {
      leaves != [] && levels == Levels(parent, leaves)
    }

    constructor (parent: Parent<D>, leaves: seq<D>)
      requires leaves != []
      ensures this.parent == parent && Commits(leaves)
    {
      var ls := [leaves];
      ghost var below: seq<seq<D>> := [];
      while |ls[|ls| - 1]| > 1
        invariant ls != [] && ls == below + [ls[|ls| - 1]] && ls[|ls| - 1] != []
        invariant below + Levels(parent, ls[|ls| - 1]) == Levels(parent, leaves)
        decreases |ls[|ls| - 1]|
      {
        var level := ls[|ls| - 1];
        var paired := if |level| % 2 == 0 then level else level + [level[|level| - 1]];
        var above := seq(|paired| / 2, j requires 0 <= j < |paired| / 2 => parent(paired[2 * j], paired[2 * j + 1]));
        PairingIsNext(parent, level, paired, above);
        LevelsUnfold(parent, below, level);
        below := ls;
        ls := ls + [above];
      }
      this.parent := parent;
      levels := ls;
    }

    method Proof(ghost leaves: seq<D>, index: int) returns (r: Option<seq<Step<D>>>)
      requires Commits(leaves)
      ensures r.Some? <==> 0 <= index < |leaves|
      ensures r.Some? ==> r.value == Path(parent, leaves, index)
    {
      if !(0 <= index < |levels[0]|) {
        return None;
      }
      var path: seq<Step<D>> := [];
      var i: nat := index;
      ghost var rest := leaves;
      var k := 0;
      while k < |levels| - 1
        invariant 0 <= k <= |levels| - 1
        invariant i < |rest| && levels[k..] == Levels(parent, rest)
        invariant path + Path(parent, rest, i) == Path(parent, leaves, index)
      {
        var level := levels[k];
        assert level == levels[k..][0] == rest;
        assert |levels[k..]| > 1;
        var siblingIsRight := i % 2 == 0;
        var j := if siblingIsRight then i + 1 else i - 1;
        var sibling := if j < |level| then level[j] else level[i];
        assert sibling == SiblingOf(rest, i);
        path := path + [Step(sibling, siblingIsRight)];
        assert levels[k + 1..] == levels[k..][1..];
        rest := Next(parent, rest);
        i := i / 2;
        k := k + 1;
      }
      assert |levels[k..]| == 1;
      r := Some(path);
    }
  }

  method Verify<D(==)>(parent: Parent<D>, root: D, leaf: D, proof: seq<Step<D>>) returns (ok: bool)
    ensures ok <==> Fold(parent, leaf, proof) == root
  {
    var node := leaf;
    for k := 0 to |proof|
      invariant Fold(parent, node, proof[k..]) == Fold(parent, leaf, proof)
    {
      assert proof[k..][1..] == proof[k + 1..];
      node := if proof[k].siblingIsRight then parent(node, proof[k].sibling) else parent(proof[k].sibling, node);
    }
    ok := node == root;
  }

  // ---- completeness ----

  lemma {:induction false} PathVerifies<D>(parent: Parent<D>, leaves: seq<D>, i: nat)
    requires i < |leaves|
    ensures Fold(parent, leaves[i], Path(parent, leaves, i)) == Root(parent, leaves)
    ensures |Path(parent, leaves, i)| == Depth(|leaves|)
    decreases |leaves|
  {
    if |leaves| > 1 {
      PathVerifies(parent, Next(parent, leaves), i / 2);
      var p := Path(parent, leaves, i);
      assert p[1..] == Path(parent, Next(parent, leaves), i / 2);
      var h := i / 2;
      assert Next(parent, leaves)[h] == parent(leaves[2 * h], Partner(leaves, h));
      if i % 2 == 0 {
        assert i == 2 * h;
      } else {
        assert i == 2 * h + 1;
      }
    }
  }

  // ---- binding ----

  function LevelPairs<D(==)>(level: seq<D>): set<(D, D)> {
    set j | 0 <= j < (|level| + 1) / 2 :: (level[2 * j], Partner(level, j))
  }

  /** Every pair hashed while building the tree. */
  function TreePairs<D(==)>(parent: Parent<D>, leaves: seq<D>): set<(D, D)>
    requires leaves != []
    decreases |leaves|
  {
    if |leaves| == 1 then {} else LevelPairs(leaves) + TreePairs(parent, Next(parent, leaves))
  }

  /** Every pair hashed while checking a proof. */
  function ProofPairs<D(==)>(parent: Parent<D>, node: D, proof: seq<Step<D>>): set<(D, D)>
    decreases |proof|
  {
    if proof == [] then {}
    else
      var s := proof[0];
      var pair := if s.siblingIsRight then (node, s.sibling) else (s.sibling, node);
      {pair} + ProofPairs(parent, parent(pair.0, pair.1), proof[1..])
  }

  ghost predicate CollisionFree<D(!new)>(parent: Parent<D>, pairs: set<(D, D)>) {
    forall p, q :: p in pairs && q in pairs && parent(p.0, p.1) == parent(q.0, q.1) ==> p == q
  }

  /** The leaf position that a list of directions addresses in a tree of n leaves; at a
      duplicated end both directions address the same node. */
  function Target(n: nat, proof: seq<bool>): (t: nat)
    requires n >= 1 && |proof| == Depth(n)
    ensures t < n
    decreases n
  {
    if n == 1 then 0
    else
      var up := Target((n + 1) / 2, proof[1..]);
      if proof[0] || 2 * up + 1 == n then 2 * up else 2 * up + 1
  }

  function Directions<D>(proof: seq<Step<D>>): seq<bool> {
    seq(|proof|, k requires 0 <= k < |proof| => proof[k].siblingIsRight)
  }

  /** The siblings a verifier must be shown for the addressed leaf. */
  function Siblings<D>(parent: Parent<D>, leaves: seq<D>, dirs: seq<bool>): (r: seq<D>)
    requires leaves != [] && |dirs| == Depth(|leaves|)
    ensures |r| == |dirs|
    decreases |leaves|
  {
    if |leaves| == 1 then []
    else
      var up := Target((|leaves| + 1) / 2, dirs[1..]);
      [if dirs[0] then Partner(leaves, up) else leaves[2 * up]] + Siblings(parent, Next(parent, leaves), dirs[1..])
  }

  /** Without collisions a parent has one pair of children. */
  lemma GenuinePair<D(!new)>(parent: Parent<D>, leaves: seq<D>, t: nat, pair: (D, D), all: set<(D, D)>)
    requires |leaves| > 1 && t < |Next(parent, leaves)| && 2 * t < |leaves|
    requires CollisionFree(parent, all) && TreePairs(parent, leaves) <= all && pair in all
    ensures parent(pair.0, pair.1) == Next(parent, leaves)[t] <==> pair == (leaves[2 * t], Partner(leaves, t))
  {
    var genuine := (leaves[2 * t], Partner(leaves, t));
    assert genuine in LevelPairs(leaves) && genuine in all;
  }

  /** The pair the first step hashes is the tree's exactly when leaf and sibling are. */
  lemma ShownPair<D>(parent: Parent<D>, leaves: seq<D>, dirs: seq<bool>, leaf: D, sibling: D)
    requires |leaves| > 1 && |dirs| == Depth(|leaves|)
    ensures var t := Target(|Next(parent, leaves)|, dirs[1..]);
            && 2 * t < |leaves|
            && ((if dirs[0] then (leaf, sibling) else (sibling, leaf)) == (leaves[2 * t], Partner(leaves, t))
                <==> leaf == leaves[Target(|leaves|, dirs)] && sibling == Siblings(parent, leaves, dirs)[0])
  {
  }

  lemma FewerPairs<D(!new)>(parent: Parent<D>, leaves: seq<D>, leaf: D, proof: seq<Step<D>>, pair: (D, D))
    requires |leaves| > 1 && proof != []
    requires pair == if proof[0].siblingIsRight then (leaf, proof[0].sibling) else (proof[0].sibling, leaf)
    requires CollisionFree(parent, TreePairs(parent, leaves) + ProofPairs(parent, leaf, proof))
    ensures CollisionFree(parent, TreePairs(parent, Next(parent, leaves)) + ProofPairs(parent, parent(pair.0, pair.1), proof[1..]))
    ensures pair in ProofPairs(parent, leaf, proof)
  {
    var all := TreePairs(parent, leaves) + ProofPairs(parent, leaf, proof);
    assert TreePairs(parent, Next(parent, leaves)) + ProofPairs(parent, parent(pair.0, pair.1), proof[1..]) <= all;
  }

  lemma ShiftSiblings<D>(proof: seq<Step<D>>, sib: seq<D>, sib': seq<D>)
    requires |proof| == |sib| > 0 && sib[1..] == sib'
    ensures (forall k :: 0 <= k < |proof| ==> proof[k].sibling == sib[k]) <==>
            proof[0].sibling == sib[0] && forall k :: 0 <= k < |proof| - 1 ==> proof[1..][k].sibling == sib'[k]
  {
    assert forall k :: 0 < k < |proof| ==> proof[k].sibling == proof[1..][k - 1].sibling && sib[k] == sib'[k - 1];
  }

  /** What acceptance means, exactly: a proof of the tree's depth is accepted if and only
      if it shows the leaf its directions address together with that leaf's true siblings. */
  lemma {:induction false} AcceptedIffGenuine<D(!new)>(parent: Parent<D>, leaves: seq<D>, leaf: D, proof: seq<Step<D>>)
    requires leaves != [] && |proof| == Depth(|leaves|)
    requires CollisionFree(parent, TreePairs(parent, leaves) + ProofPairs(parent, leaf, proof))
    ensures Fold(parent, leaf, proof) == Root(parent, leaves) <==>
            leaf == leaves[Target(|leaves|, Directions(proof))]
            && forall k :: 0 <= k < |proof| ==> proof[k].sibling == Siblings(parent, leaves, Directions(proof))[k]
    decreases |leaves|
  {
    if |leaves| > 1 {
      var s := proof[0];
      var pair := if s.siblingIsRight then (leaf, s.sibling) else (s.sibling, leaf);
      var above, up := Next(parent, leaves), parent(pair.0, pair.1);
      FewerPairs(parent, leaves, leaf, proof, pair);
      AcceptedIffGenuine(parent, above, up, proof[1..]);
      var dirs := Directions(proof);
      assert dirs[1..] == Directions(proof[1..]);
      ShownPair(parent, leaves, dirs, leaf, s.sibling);
      GenuinePair(parent, leaves, Target(|above|, dirs[1..]), pair, TreePairs(parent, leaves) + ProofPairs(parent, leaf, proof));
      ShiftSiblings(proof, Siblings(parent, leaves, dirs), Siblings(parent, above, dirs[1..]));
    }
  }

  /** The nodes h levels above the leaves. */
  function LevelAt<D>(parent: Parent<D>, leaves: seq<D>, h: nat): (r: seq<D>)
    requires leaves != [] && h <= Depth(|leaves|)
    ensures r != [] && Depth(|r|) == Depth(|leaves|) - h
    decreases h
  {
    if h == 0 then leaves else LevelAt(parent, Next(parent, leaves), h - 1)
  }

  lemma {:induction false} LevelAtKeepsRoot<D>(parent: Parent<D>, leaves: seq<D>, h: nat)
    requires leaves != [] && h <= Depth(|leaves|)
    ensures Root(parent, LevelAt(parent, leaves, h)) == Root(parent, leaves)
    ensures TreePairs(parent, LevelAt(parent, leaves, h)) <= TreePairs(parent, leaves)
    decreases h
  {
    if h > 0 { LevelAtKeepsRoot(parent, Next(parent, leaves), h - 1); }
  }

  /** A proof h steps short of the tree's depth is accepted exactly when it shows the inner node h
      levels above the leaves that its directions address, with that node's true siblings: it says
      nothing about a leaf. */
  lemma ShortProofShowsInnerNode<D(!new)>(parent: Parent<D>, leaves: seq<D>, h: nat, node: D, proof: seq<Step<D>>)
    requires leaves != [] && h <= Depth(|leaves|) && |proof| == Depth(|leaves|) - h
    requires CollisionFree(parent, TreePairs(parent, leaves) + ProofPairs(parent, node, proof))
    ensures var level := LevelAt(parent, leaves, h);
            Fold(parent, node, proof) == Root(parent, leaves) <==>
            node == level[Target(|level|, Directions(proof))]
            && forall k :: 0 <= k < |proof| ==> proof[k].sibling == Siblings(parent, level, Directions(proof))[k]
  {
    var level := LevelAt(parent, leaves, h);
    LevelAtKeepsRoot(parent, leaves, h);
    assert TreePairs(parent, level) + ProofPairs(parent, node, proof) <= TreePairs(parent, leaves) + ProofPairs(parent, node, proof);
    AcceptedIffGenuine(parent, level, node, proof);
  }

  lemma {:induction false} FoldSplits<D>(parent: Parent<D>, node: D, proof: seq<Step<D>>, d: nat)
    requires d <= |proof|
    ensures Fold(parent, node, proof) == Fold(parent, Fold(parent, node, proof[..d]), proof[d..])
    ensures ProofPairs(parent, Fold(parent, node, proof[..d]), proof[d..]) <= ProofPairs(parent, node, proof)
    decreases d
  {
    if d > 0 {
      var s := proof[0];
      var up := if s.siblingIsRight then parent(node, s.sibling) else parent(s.sibling, node);
      FoldSplits(parent, up, proof[1..], d - 1);
      assert proof[..d][1..] == proof[1..][..d - 1] && proof[1..][d - 1..] == proof[d..];
    } else {
      assert proof[0..] == proof;
    }
  }

  /** A proof with d steps too many is accepted exactly when its first d steps lead to the leaf that
      the others address, with that leaf's true siblings: the value shown would lie below a leaf. */
  lemma LongProofHangsBelowLeaf<D(!new)>(parent: Parent<D>, leaves: seq<D>, d: nat, node: D, proof: seq<Step<D>>)
    requires leaves != [] && |proof| == Depth(|leaves|) + d
    requires CollisionFree(parent, TreePairs(parent, leaves) + ProofPairs(parent, node, proof))
    ensures var rest := proof[d..];
            Fold(parent, node, proof) == Root(parent, leaves) <==>
            Fold(parent, node, proof[..d]) == leaves[Target(|leaves|, Directions(rest))]
            && forall k :: 0 <= k < |rest| ==> rest[k].sibling == Siblings(parent, leaves, Directions(rest))[k]
  {
    var low := Fold(parent, node, proof[..d]);
    FoldSplits(parent, node, proof, d);
    assert TreePairs(parent, leaves) + ProofPairs(parent, low, proof[d..]) <= TreePairs(parent, leaves) + ProofPairs(parent, node, proof);
    AcceptedIffGenuine(parent, leaves, low, proof[d..]);
  }

  /** The tree's own proof for i has the directions that address i, so acceptance under
      those directions pins leaf i and nothing else. */
  lemma {:induction false} PathAddresses<D>(parent: Parent<D>, leaves: seq<D>, i: nat)
    requires i < |leaves|
    ensures |Path(parent, leaves, i)| == Depth(|leaves|)
    ensures Target(|leaves|, Directions(Path(parent, leaves, i))) == i
    decreases |leaves|
  {
    if |leaves| > 1 {
      var above := Next(parent, leaves);
      PathAddresses(parent, above, i / 2);
      assert Directions(Path(parent, leaves, i))[1..] == Directions(Path(parent, above, i / 2));
    }
  }

  lemma LevelBinds<D(!new)>(parent: Parent<D>, a: seq<D>, b: seq<D>, all: set<(D, D)>)
    requires |a| == |b| > 1 && Next(parent, a) == Next(parent, b) && CollisionFree(parent, all)
    requires (forall p :: p in LevelPairs(a) ==> p in all) && (forall p :: p in LevelPairs(b) ==> p in all)
    ensures a == b
  {
    forall k | 0 <= k < |a| ensures a[k] == b[k] {
      var j := k / 2;
      var p, q := (a[2 * j], Partner(a, j)), (b[2 * j], Partner(b, j));
      assert p in LevelPairs(a) && q in LevelPairs(b);
      assert Next(parent, a)[j] == Next(parent, b)[j];
    }
  }

  /** Equal roots over equally many leaves mean equal leaves, despite duplicate-last padding. */
  lemma {:induction false} RootBindsLeaves<D(!new)>(parent: Parent<D>, a: seq<D>, b: seq<D>)
    requires a != [] && |a| == |b| && Root(parent, a) == Root(parent, b)
    requires CollisionFree(parent, TreePairs(parent, a) + TreePairs(parent, b))
    ensures a == b
    decreases |a|
  {
    if |a| > 1 {
      var all := TreePairs(parent, a) + TreePairs(parent, b);
      assert TreePairs(parent, Next(parent, a)) + TreePairs(parent, Next(parent, b)) <= all;
      RootBindsLeaves(parent, Next(parent, a), Next(parent, b));
      LevelBinds(parent, a, b, all);
    }
  }

  /** The shard count is needed: repeating an odd last leaf keeps the root, for every hash. */
  lemma RepeatedLastLeafKeepsRoot<D>(parent: Parent<D>, leaves: seq<D>)
    requires |leaves| % 2 == 1 && |leaves| > 1
    ensures Root(parent, leaves + [leaves[|leaves| - 1]]) == Root(parent, leaves)
  {
    var longer := leaves + [leaves[|leaves| - 1]];
    forall j | 0 <= j < (|leaves| + 1) / 2 ensures Next(parent, longer)[j] == Next(parent, leaves)[j] {
      assert Partner(longer, j) == Partner(leaves, j);
    }
    assert Next(parent, longer) == Next(parent, leaves);
  }

  // ---- index against reference ----

  datatype ShardIndex<D> = ShardIndex(name: string, seqLen: nat, leaves: seq<D>)
  datatype ManifestRef<D> = ManifestRef(name: string, seqLen: nat, numShards: nat, merkleRoot: D)

  /** The reference dataprep publishes for an index. */
  function Publish<D>(parent: Parent<D>, index: ShardIndex<D>): ManifestRef<D>
    requires index.leaves != []
  {
    ManifestRef(index.name, index.seqLen, |index.leaves|, Root(parent, index.leaves))
  }

  /** What the check raises; an index without leaves has no tree. */
  datatype Mismatch = NameDiffers | SeqLenDiffers | CountDiffers | NoLeaves | RootDiffers

  /** The first mismatch, in the order of the checks, or none. */
  method VerifyIndexMatchesRef<D(==)>(parent: Parent<D>, index: ShardIndex<D>, ref: ManifestRef<D>) returns (error: Option<Mismatch>)
    ensures error == None <==> index.leaves != [] && Publish(parent, index) == ref
    ensures error == Some(NameDiffers) <==> index.name != ref.name
    ensures error == Some(SeqLenDiffers) <==> index.name == ref.name && index.seqLen != ref.seqLen
    ensures error == Some(CountDiffers) <==> index.name == ref.name && index.seqLen == ref.seqLen && |index.leaves| != ref.numShards
    ensures error == Some(NoLeaves) <==> index.name == ref.name && index.seqLen == ref.seqLen && |index.leaves| == ref.numShards == 0
  {
    if index.name != ref.name { return Some(NameDiffers); }
    if index.seqLen != ref.seqLen { return Some(SeqLenDiffers); }
    if |index.leaves| != ref.numShards { return Some(CountDiffers); }
    if |index.leaves| == 0 { return Some(NoLeaves); }
    var tree := new MerkleTree(parent, index.leaves);
    LevelsEndInRoot(parent, index.leaves);
    error := if tree.levels[|tree.levels| - 1][0] == ref.merkleRoot then None else Some(RootDiffers);
  }

  lemma {:induction false} LevelsEndInRoot<D>(parent: Parent<D>, leaves: seq<D>)
    requires leaves != []
    ensures var ls := Levels(parent, leaves); ls[|ls| - 1] == [Root(parent, leaves)] && |ls| == 1 + Depth(|leaves|)
    decreases |leaves|
  {
    if |leaves| > 1 {
      LevelsEndInRoot(parent, Next(parent, leaves));
    }
  }

  /** Against the reference of a committed index, exactly the committed index is accepted. */
  lemma AcceptedIndexIsCommitted<D(!new)>(parent: Parent<D>, committed: ShardIndex<D>, index: ShardIndex<D>)
    requires committed.leaves != []
    requires index.leaves != [] ==>
      CollisionFree(parent, TreePairs(parent, committed.leaves) + TreePairs(parent, index.leaves))
    ensures index.leaves != [] && Publish(parent, index) == Publish(parent, committed) <==> index == committed
  {
    if index.leaves != [] && Publish(parent, index) == Publish(parent, committed) {
      RootBindsLeaves(parent, index.leaves, committed.leaves);
    }
  }
}
