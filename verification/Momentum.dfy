/** What a successful catch-up says about two nodes that differ in outer momentum. The state root
    covers theta only (subnet/core/checkpoint.py:654), so nothing a run checks ever sees momentum. */
module Momentum {
  import opened Prelude
  import opened Exchange
  import opened Consensus
  import opened CatchUp
  import opened Lockstep

  ghost predicate Injective<T(!new)>(root: T -> nat) {
    forall x, y :: root(x) == root(y) ==> x == y
  }

  /** No check of the run is empty: the root tells any two parameters apart and the chain has a
      consensus root for every window of (from, upto] that is not void. */
  ghost predicate Vouched<P, I, T(!new), M>(world: World<P, I, T, M>, from: int, upto: int) {
    && Injective(world.root)
    && forall w :: from < w <= upto && !world.isVoid(w) ==> world.commits(w).Some? && world.commits(w).value != map[]
  }

  ghost predicate BothPass<P, I, T, M>(world: World<P, I, T, M>, a: Node<T, M>, b: Node<T, M>, from: int, upto: int) {
    Outcome(world, a, from, upto).error == None && Outcome(world, b, from, upto).error == None
  }

  ghost predicate HeadCommitted<P, I, T, M>(world: World<P, I, T, M>, upto: int) {
    world.commits(upto + 1).Some? && world.commits(upto + 1).value != map[]
  }

  // ---- what the checks do bind ----

  /** Two nodes that pass had the same theta before every window they applied. */
  lemma ThetaAgreesBeforeEach<P, I, T(!new), M>(world: World<P, I, T, M>, a: Node<T, M>, b: Node<T, M>, from: int, upto: int, k: nat)
    requires Injective(world.root) && BothPass(world, a, b, from, upto)
    requires k < |CertifiedWindows(world, from + 1, upto)|
    ensures var ws := CertifiedWindows(world, from + 1, upto)[..k];
            Fold(world, a, ws).theta == Fold(world, b, ws).theta
  {
    CatchUpIsFold(world, a, from, upto);
    CatchUpIsFold(world, b, from, upto);
    CertificateNamedState(world, a, from + 1, upto, k);
    CertificateNamedState(world, b, from + 1, upto, k);
  }

  /** And the same theta at the end, once anyone has committed to the next window. */
  lemma CommittedHeadBindsTheta<P, I, T(!new), M>(world: World<P, I, T, M>, a: Node<T, M>, b: Node<T, M>, from: int, upto: int)
    requires Injective(world.root) && BothPass(world, a, b, from, upto) && HeadCommitted(world, upto)
    ensures Outcome(world, a, from, upto).node.theta == Outcome(world, b, from, upto).node.theta
  {
    var root := ConsensusRoot(world.commits(upto + 1).value).value;
    assert world.root(Outcome(world, a, from, upto).node.theta) == root;
    assert world.root(Outcome(world, b, from, upto).node.theta) == root;
  }

  // ---- what they do not bind ----

  /** Wherever both nodes pass every check, they end with the same theta. */
  ghost predicate ThetasMeet<P(!new), I(!new), T(!new), M(!new)>(a: Node<T, M>, b: Node<T, M>, from: int, upto: int) {
    forall world: World<P, I, T, M> :: Vouched(world, from, upto) && BothPass(world, a, b, from, upto)
      ==> Outcome(world, a, from, upto).node.theta == Outcome(world, b, from, upto).node.theta
  }

  /** Wherever both pass and the next window is committed as well, they end in the same state. */
  ghost predicate StatesMeet<P(!new), I(!new), T(!new), M(!new)>(a: Node<T, M>, b: Node<T, M>, from: int, upto: int) {
    forall world: World<P, I, T, M> :: Vouched(world, from, upto) && HeadCommitted(world, upto) && BothPass(world, a, b, from, upto)
      ==> Outcome(world, a, from, upto).node == Outcome(world, b, from, upto).node
  }

  const UID := 1

  function OneCertificate(w: int, root: nat): Certificate {
    Certificate(w, {UID}, map[UID := "h"], root)
  }

  function OneCommit(root: nat): (commits: map<int, Commit>)
    ensures UID in commits && commits != map[]
  {
    map[UID := Commit(root, "h")]
  }

  /** Only window `upto` is not void. Its certificate and its one commit name root(theta), and its
      outer step moves theta exactly when the momentum is not `keep`. */
  function Witness<P, I, T, M(==)>(root: T -> nat, theta: T, other: T, keep: M, upto: int, head: map<int, Commit>, p: P, i: I): World<P, I, T, M> {
    World(Rules(_ => "h", (h: Hash) => h, 10, _ => Some(p), _ => UID, _ => upto, _ => true),
          w => w != upto, w => Some(if w == upto then OneCommit(root(theta)) else head),
          _ => CertFound(OneCertificate(upto, root(theta))), _ => Some(map[UID := []]), root, _ => Some(i),
          (n: Node<T, M>, _: I) => Done(if n.momentum == keep then n else Node(other, n.momentum)))
  }

  lemma OneRoot(root: nat)
    ensures ConsensusRoot(OneCommit(root)) == Some(root)
  {
    var commits := OneCommit(root);
    assert ConsensusRoot(commits).value in Roots(commits);
  }

  lemma WitnessComplete<P, I, T, M>(root: T -> nat, theta: T, other: T, keep: M, upto: int, head: map<int, Commit>, p: P, i: I)
    ensures Complete(Witness(root, theta, other, keep, upto, head, p, i), OneCertificate(upto, root(theta)), upto)
  {
    var world, cert := Witness(root, theta, other, keep, upto, head, p, i), OneCertificate(upto, root(theta));
    var t := MirrorOnly(world.mirror(upto));
    assert Source(world.rules, cert, t, true, UID) == Some([]);
    PayloadsList(world.rules, cert, Verified(world.rules, cert, t, true), cert.included);
  }

  lemma WitnessJudges<P, I, T, M>(root: T -> nat, theta: T, other: T, keep: M, upto: int, head: map<int, Commit>, p: P, i: I, node: Node<T, M>)
    requires node.theta == theta
    ensures Judge(Witness(root, theta, other, keep, upto, head, p, i), node, upto)
         == Applied(if node.momentum == keep then node else Node(other, node.momentum), true)
  {
    OneRoot(root(theta));
    WitnessComplete(root, theta, other, keep, upto, head, p, i);
  }

  lemma {:induction false} WitnessReplay<P, I, T, M>(root: T -> nat, theta: T, other: T, keep: M, upto: int, head: map<int, Commit>, p: P, i: I,
                                                    node: Node<T, M>, w: int)
    requires node.theta == theta
    ensures var run := Replay(Witness(root, theta, other, keep, upto, head, p, i), node, w, upto);
            && run.error == None
            && run.node == if w > upto || node.momentum == keep then node else Node(other, node.momentum)
    decreases upto + 1 - w
  {
    var world := Witness(root, theta, other, keep, upto, head, p, i);
    if w < upto {
      assert Judge(world, node, w) == Void;
      WitnessReplay(root, theta, other, keep, upto, head, p, i, node, w + 1);
    } else if w == upto {
      WitnessJudges(root, theta, other, keep, upto, head, p, i, node);
      var next := if node.momentum == keep then node else Node(other, node.momentum);
      assert Replay(world, next, w + 1, upto) == Run(next, EMPTY, None);
    }
  }

  lemma {:induction false} NothingToReplay<P, I, T, M>(world: World<P, I, T, M>, node: Node<T, M>, from: int, upto: int)
    requires upto <= from && Outcome(world, node, from, upto).error == None
    ensures upto == from && Outcome(world, node, from, upto).node == node
  {
  }

  lemma WitnessParts<P, I, T(!new), M>(a: Node<T, M>, b: Node<T, M>, from: int, upto: int, root: T -> nat, other: T, p: P, i: I)
    requires a.theta == b.theta && other != a.theta && Injective(root) && from < upto && a.momentum != b.momentum
    ensures var world: World<P, I, T, M> := Witness(root, a.theta, other, a.momentum, upto, map[], p, i);
            && Vouched(world, from, upto) && BothPass(world, a, b, from, upto)
            && Outcome(world, a, from, upto).node.theta != Outcome(world, b, from, upto).node.theta
  {
    WitnessReplay(root, a.theta, other, a.momentum, upto, map[], p, i, a, from + 1);
    WitnessReplay(root, a.theta, other, a.momentum, upto, map[], p, i, b, from + 1);
  }

  /** Equal theta at the start stays equal in every run both nodes pass exactly when their momentum
      is equal too, or there is no window to replay. */
  lemma MomentumDecidesTheta<P(!new), I(!new), T(!new), M(!new)>(a: Node<T, M>, b: Node<T, M>, from: int, upto: int, root: T -> nat, other: T, p: P, i: I)
    requires a.theta == b.theta && other != a.theta && Injective(root)
    ensures ThetasMeet<P, I, T, M>(a, b, from, upto) <==> a.momentum == b.momentum || upto <= from
  {
    if upto <= from {
      forall world: World<P, I, T, M> | BothPass(world, a, b, from, upto)
        ensures Outcome(world, a, from, upto).node.theta == Outcome(world, b, from, upto).node.theta
      {
        NothingToReplay(world, a, from, upto);
        NothingToReplay(world, b, from, upto);
      }
    } else if a.momentum != b.momentum {
      WitnessParts(a, b, from, upto, root, other, p, i);
    }
  }

  /** Even when the next window's commits have confirmed theta, the states are equal exactly when
      the momentum was equal at the start. */
  lemma MomentumDecidesState<P(!new), I(!new), T(!new), M(!new)>(a: Node<T, M>, b: Node<T, M>, from: int, upto: int, root: T -> nat, p: P, i: I)
    requires a.theta == b.theta && Injective(root)
    ensures StatesMeet<P, I, T, M>(a, b, from, upto) <==> a.momentum == b.momentum || upto < from
  {
    if from <= upto && a.momentum != b.momentum {
      var head := OneCommit(root(a.theta));
      var world: World<P, I, T, M> := Witness(root, a.theta, a.theta, a.momentum, upto, head, p, i);
      WitnessReplay(root, a.theta, a.theta, a.momentum, upto, head, p, i, a, from + 1);
      WitnessReplay(root, a.theta, a.theta, a.momentum, upto, head, p, i, b, from + 1);
      OneRoot(root(a.theta));
      assert Vouched(world, from, upto) && HeadCommitted(world, upto) && BothPass(world, a, b, from, upto);
    }
  }
}
