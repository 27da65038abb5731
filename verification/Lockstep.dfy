/** What a catch-up run means, and why every route lands on the same state: the promises
    of subnet/core/checkpoint.py over whole runs. */
module Lockstep {
  import opened Prelude
  import opened Exchange
  import opened Consensus
  import opened CatchUp

  // ---- the reference: folding the outer step over the certified windows ----

  predicate Certified<P, I, T, M>(world: World<P, I, T, M>, w: int) {
    !world.isVoid(w) && world.certificate(w).CertFound?
  }

  predicate Unseen<P, I, T, M>(world: World<P, I, T, M>, w: int) {
    !world.isVoid(w) && world.commits(w) == Some(map[])
  }

  function Where(p: int -> bool, w: int, upto: int): (r: seq<int>)
    ensures forall v :: v in r <==> w <= v <= upto && p(v)
    ensures Ascending(r)
    decreases upto + 1 - w
  {
    if w > upto then []
    else
      var rest := Where(p, w + 1, upto);
      assert forall k :: 0 <= k < |rest| ==> rest[k] in rest;
      if p(w) then [w] + rest else rest
  }

  function CertifiedWindows<P, I, T, M>(world: World<P, I, T, M>, w: int, upto: int): seq<int> {
    Where(v => Certified(world, v), w, upto)
  }

  function UnseenWindows<P, I, T, M>(world: World<P, I, T, M>, w: int, upto: int): seq<int> {
    Where(v => Unseen(world, v), w, upto)
  }

  ghost function Inputs<P, I, T, M>(world: World<P, I, T, M>, w: int): Option<I> {
    if Certified(world, w) then world.build(Gathered(world, world.certificate(w).cert, w)) else None
  }

  ghost function StepAt<P, I, T, M>(world: World<P, I, T, M>, node: Node<T, M>, w: int): Node<T, M> {
    match Inputs(world, w)
    case Some(inputs) => world.step(node, inputs).node
    case None => node
  }

  ghost function Fold<P, I, T, M>(world: World<P, I, T, M>, node: Node<T, M>, ws: seq<int>): Node<T, M>
    decreases |ws|
  {
    if ws == [] then node else Fold(world, StepAt(world, node, ws[0]), ws[1..])
  }

  // ---- runs are folds ----

  lemma AppliedStep<P, I, T, M>(world: World<P, I, T, M>, node: Node<T, M>, w: int)
    ensures var v := Judge(world, node, w);
            && (v.Applied? ==> Certified(world, w) && v.node == StepAt(world, node, w))
            && (v.Failed? && v.error.StepBroke? ==> Certified(world, w) && v.error == StepBroke(w) && v.node == StepAt(world, node, w))
            && (v.Failed? && !v.error.StepBroke? ==> v.node == node)
            && (v.Void? <==> world.isVoid(w))
            && (v.Empty? ==> Unseen(world, w) && !Certified(world, w))
            && (v.Applied? ==> (v.seen <==> !Unseen(world, w)))
  {
  }

  lemma {:induction false} RunLists<P, I, T, M>(world: World<P, I, T, M>, node: Node<T, M>, w: int, upto: int)
    ensures var run := Replay(world, node, w, upto);
            && run.report.applied <= CertifiedWindows(world, w, upto)
            && (run.error == None ==> run.report == Report(
                  CertifiedWindows(world, w, upto), Where(world.isVoid, w, upto), UnseenWindows(world, w, upto)))
    decreases upto + 1 - w
  {
    if w <= upto {
      var v := Judge(world, node, w);
      AppliedStep(world, node, w);
      if !v.Failed? {
        RunLists(world, After(v, node), w + 1, upto);
        LinePlaced(world, node, w, upto);
      }
    }
  }

  lemma WhereNext(p: int -> bool, w: int, upto: int)
    requires w <= upto
    ensures Where(p, w, upto) == (if p(w) then [w] else []) + Where(p, w + 1, upto)
  {
  }

  /** The first window's line in the report is its place in each of the three lists. */
  lemma LinePlaced<P, I, T, M>(world: World<P, I, T, M>, node: Node<T, M>, w: int, upto: int)
    requires w <= upto && !Judge(world, node, w).Failed?
    ensures var line := Line(Judge(world, node, w), w);
            && CertifiedWindows(world, w, upto) == line.applied + CertifiedWindows(world, w + 1, upto)
            && Where(world.isVoid, w, upto) == line.skippedVoid + Where(world.isVoid, w + 1, upto)
            && UnseenWindows(world, w, upto) == line.unverified + UnseenWindows(world, w + 1, upto)
  {
    LineIs(world, node, w);
    WhereNext(v => Certified(world, v), w, upto);
    WhereNext(world.isVoid, w, upto);
    WhereNext(v => Unseen(world, v), w, upto);
  }

  lemma LineIs<P, I, T, M>(world: World<P, I, T, M>, node: Node<T, M>, w: int)
    requires !Judge(world, node, w).Failed?
    ensures Line(Judge(world, node, w), w) == Report(
              if Certified(world, w) then [w] else [], if world.isVoid(w) then [w] else [], if Unseen(world, w) then [w] else [])
  {
    AppliedStep(world, node, w);
  }

  /** Whatever happens, the node holds the fold over what was applied, one more half step
      on if the outer step itself broke. */
  lemma {:induction false} RunIsFold<P, I, T, M>(world: World<P, I, T, M>, node: Node<T, M>, w: int, upto: int)
    ensures var run := Replay(world, node, w, upto);
            var reached := Fold(world, node, run.report.applied);
            run.node == if run.error.Some? && run.error.value.StepBroke? then StepAt(world, reached, run.error.value.window) else reached
    decreases upto + 1 - w
  {
    if w <= upto {
      var v := Judge(world, node, w);
      AppliedStep(world, node, w);
      if !v.Failed? {
        RunIsFold(world, After(v, node), w + 1, upto);
        var rest := Replay(world, After(v, node), w + 1, upto).report.applied;
        assert v.Applied? ==> ([w] + rest)[1..] == rest;
        assert [] + rest == rest;
      }
    }
  }

  /** A successful catch-up leaves theta and momentum at the left fold of the outer step
      over exactly the non-void certified windows of (from, upto], in order. */
  lemma CatchUpIsFold<P, I, T, M>(world: World<P, I, T, M>, node: Node<T, M>, from: int, upto: int)
    requires Outcome(world, node, from, upto).error == None
    ensures var run := Outcome(world, node, from, upto);
            && run.node == Fold(world, node, CertifiedWindows(world, from + 1, upto))
            && run.report.applied == CertifiedWindows(world, from + 1, upto)
            && run.report.skippedVoid == Where(world.isVoid, from + 1, upto)
            && run.report.unverified == UnseenWindows(world, from + 1, upto)
  {
    RunLists(world, node, from + 1, upto);
    RunIsFold(world, node, from + 1, upto);
  }

  /** An error before a window's apply leaves the fold over the windows already applied. */
  lemma ErrorLeavesPrefix<P, I, T, M>(world: World<P, I, T, M>, node: Node<T, M>, from: int, upto: int)
    requires var e := Outcome(world, node, from, upto).error; e.Some? && !e.value.StepBroke?
    ensures var run := Outcome(world, node, from, upto);
            run.report.applied <= CertifiedWindows(world, from + 1, upto) && run.node == Fold(world, node, run.report.applied)
  {
    RunLists(world, node, from + 1, upto);
    RunIsFold(world, node, from + 1, upto);
  }

  lemma {:induction false} UncertifiedMeansEmpty<P, I, T, M>(world: World<P, I, T, M>, node: Node<T, M>, w: int, upto: int, v: int)
    requires Replay(world, node, w, upto).error == None && w <= v <= upto
    requires !world.isVoid(v) && !Certified(world, v)
    ensures Unseen(world, v)
    decreases upto + 1 - w
  {
    var j := Judge(world, node, w);
    AppliedStep(world, node, w);
    if w < v { UncertifiedMeansEmpty(world, After(j, node), w + 1, upto, v); }
  }

  /** Which lists a window is in, from what the chain and the bucket say of it. */
  lemma ListedWhere<P, I, T, M>(world: World<P, I, T, M>, w: int, upto: int, v: int)
    requires w <= v <= upto
    ensures v in CertifiedWindows(world, w, upto) <==> Certified(world, v)
    ensures v in Where(world.isVoid, w, upto) <==> world.isVoid(v)
    ensures v in UnseenWindows(world, w, upto) <==> Unseen(world, v)
  {
  }

  /** The report has the window as exactly one of void, applied, or empty and unverified. */
  ghost predicate Classified<P, I, T, M>(world: World<P, I, T, M>, r: Report, v: int) {
    var void, applied, empty := v in r.skippedVoid, v in r.applied, v in r.unverified && v !in r.applied;
    && (void || applied || empty) && !(void && applied) && !(void && empty) && !(applied && empty)
    && (empty ==> world.commits(v) == Some(map[]) && !world.certificate(v).CertFound?)
  }

  lemma InOneList<P, I, T, M>(world: World<P, I, T, M>, w: int, upto: int, v: int, r: Report)
    requires w <= v <= upto && (world.isVoid(v) || Certified(world, v) || Unseen(world, v))
    requires r == Report(CertifiedWindows(world, w, upto), Where(world.isVoid, w, upto), UnseenWindows(world, w, upto))
    ensures Classified(world, r, v)
  {
    ListedWhere(world, w, upto, v);
  }

  lemma UncertifiedIsUnseen<P, I, T, M>(world: World<P, I, T, M>, node: Node<T, M>, from: int, upto: int, v: int)
    requires Outcome(world, node, from, upto).error == None && from < v <= upto
    ensures world.isVoid(v) || Certified(world, v) || Unseen(world, v)
  {
    if !world.isVoid(v) && !Certified(world, v) { UncertifiedMeansEmpty(world, node, from + 1, upto, v); }
  }

  /** Every window is exactly one of void, applied, or empty and unverified. */
  lemma WindowsClassified<P, I, T, M>(world: World<P, I, T, M>, node: Node<T, M>, from: int, upto: int, v: int)
    requires Outcome(world, node, from, upto).error == None && from < v <= upto
    ensures Classified(world, Outcome(world, node, from, upto).report, v)
  {
    UncertifiedIsUnseen(world, node, from, upto, v);
    SuccessReport(world, node, from, upto);
    InOneList(world, from + 1, upto, v, Outcome(world, node, from, upto).report);
  }

  lemma SuccessReport<P, I, T, M>(world: World<P, I, T, M>, node: Node<T, M>, from: int, upto: int)
    requires Outcome(world, node, from, upto).error == None
    ensures Outcome(world, node, from, upto).report == Report(
              CertifiedWindows(world, from + 1, upto), Where(world.isVoid, from + 1, upto), UnseenWindows(world, from + 1, upto))
  {
    RunLists(world, node, from + 1, upto);
  }

  /** The state a run had when it reached its k-th applied window is the one that window's
      certificate, and the chain's consensus where there is one, had named. */
  lemma {:induction false} CertificateNamedState<P, I, T, M>(world: World<P, I, T, M>, node: Node<T, M>, w: int, upto: int, k: nat)
    requires k < |Replay(world, node, w, upto).report.applied|
    ensures var applied := Replay(world, node, w, upto).report.applied;
            var root := world.root(Fold(world, node, applied[..k]).theta);
            && Certified(world, applied[k]) && world.certificate(applied[k]).cert.thetaStartRoot == root
            && world.commits(applied[k]).Some?
            && (world.commits(applied[k]).value != map[] ==> ConsensusRoot(world.commits(applied[k]).value) == Some(root))
    decreases upto + 1 - w
  {
    var v := Judge(world, node, w);
    AppliedStep(world, node, w);
    var applied := Replay(world, node, w, upto).report.applied;
    if !v.Failed? {
      var rest := Replay(world, After(v, node), w + 1, upto).report.applied;
      assert applied == (if v.Applied? then [w] else []) + rest;
      if !v.Applied? {
        assert applied == rest;
        CertificateNamedState(world, After(v, node), w + 1, upto, k);
      } else if k > 0 {
        CertificateNamedState(world, After(v, node), w + 1, upto, k - 1);
        FoldFirst(world, node, w, applied, rest, k);
      }
    }
  }

  lemma FoldFirst<P, I, T, M>(world: World<P, I, T, M>, node: Node<T, M>, w: int, applied: seq<int>, rest: seq<int>, k: nat)
    requires applied == [w] + rest && 0 < k <= |applied|
    ensures Fold(world, node, applied[..k]) == Fold(world, StepAt(world, node, w), rest[..k - 1])
  {
    assert applied[..k][1..] == rest[..k - 1] && applied[..k][0] == w;
  }

  // ---- splitting a run ----

  lemma {:induction false} ReplaySplits<P, I, T, M>(world: World<P, I, T, M>, node: Node<T, M>, w: int, mid: int, upto: int)
    requires w <= mid + 1 <= upto + 1
    ensures var first, whole := Replay(world, node, w, mid), Replay(world, node, w, upto);
            if first.error.Some? then whole == first
            else var rest := Replay(world, first.node, mid + 1, upto);
                 whole == Run(rest.node, Joined(first.report, rest.report), rest.error)
    decreases mid + 1 - w
  {
    if w > mid {
      JoinedAssociative(Replay(world, node, w, upto).report, EMPTY, EMPTY);
    } else {
      var v := Judge(world, node, w);
      if !v.Failed? {
        var node' := After(v, node);
        ReplaySplits(world, node', w + 1, mid, upto);
        var first := Replay(world, node', w + 1, mid);
        JoinedAssociative(Line(v, w), first.report, Replay(world, first.node, mid + 1, upto).report);
      }
    }
  }

  /** Two consecutive runs succeed exactly when the single run does and the chain's next
      window agrees at the seam; then the single run reaches the same node with the
      concatenated reports. */
  lemma RunsCompose<P, I, T, M>(world: World<P, I, T, M>, node: Node<T, M>, a: int, b: int, c: int)
    requires a <= b <= c
    ensures var one, first := Outcome(world, node, a, c), Replay(world, node, a + 1, b);
            var two := Outcome(world, first.node, b, c);
            && (Outcome(world, node, a, b).error == None && two.error == None <==>
                one.error == None && HeadError(world, first.node, b) == None)
            && (Outcome(world, node, a, b).error == None ==> Outcome(world, node, a, b).node == first.node)
            && (one.error == None ==> one.node == two.node && one.report == Joined(first.report, two.report))
  {
    ReplaySplits(world, node, a + 1, b, c);
  }

  /** The seam needs no extra check when the next window is not void: the single run makes
      that check itself. */
  lemma SeamIsChecked<P, I, T, M>(world: World<P, I, T, M>, node: Node<T, M>, a: int, b: int, c: int)
    requires a <= b < c && !world.isVoid(b + 1) && Outcome(world, node, a, c).error == None
    ensures HeadError(world, Replay(world, node, a + 1, b).node, b) == None
  {
    ReplaySplits(world, node, a + 1, b, c);
    var seam := Replay(world, node, a + 1, b).node;
    assert !Judge(world, seam, b + 1).Failed?;
  }

  /** A world in which every window is void, the chain disagrees with the node at one window, and
      nobody has committed to any other. */
  function SeamWorld<P, I, T, M>(root: T -> nat, seam: int, other: nat): World<P, I, T, M> {
    World(Rules(_ => "", (h: Hash) => h, 0, _ => None, _ => 0, _ => 0, _ => false),
          _ => true, w => Some(if w == seam then map[0 := Commit(other, "")] else map[]),
          _ => CertMissing, _ => None, root, _ => None, (n: Node<T, M>, _: I) => Done(n))
  }

  lemma {:induction false} VoidReplay<P, I, T, M>(root: T -> nat, seam: int, other: nat, node: Node<T, M>, w: int, upto: int)
    ensures var run := Replay<P, I, T, M>(SeamWorld(root, seam, other), node, w, upto);
            run.error == None && run.node == node
    decreases upto + 1 - w
  {
    if w <= upto {
      assert Judge<P, I, T, M>(SeamWorld(root, seam, other), node, w) == Void;
      VoidReplay<P, I, T, M>(root, seam, other, node, w + 1, upto);
    }
  }

  lemma OtherRoot(commits: map<int, Commit>, other: nat)
    requires commits == map[0 := Commit(other, "")]
    ensures ConsensusRoot(commits) == Some(other)
  {
    assert 0 in commits;
    assert ConsensusRoot(commits).value in Roots(commits);
  }

  /** When the next window is void the extra check at the seam can fail where the single run succeeds:
      so two runs in a row may be refused what one run is not. */
  lemma SeamCanDiffer<P, I, T, M>(node: Node<T, M>, a: int, b: int, c: int, root: T -> nat, other: nat)
    requires a <= b < c && other != root(node.theta)
    ensures var world: World<P, I, T, M> := SeamWorld(root, b + 1, other);
            && Outcome(world, node, a, c).error == None
            && Outcome(world, node, a, b).error == Some(RootDiverged(b + 1, other, root(node.theta)))
  {
    var world: World<P, I, T, M> := SeamWorld(root, b + 1, other);
    VoidReplay<P, I, T, M>(root, b + 1, other, node, a + 1, c);
    VoidReplay<P, I, T, M>(root, b + 1, other, node, a + 1, b);
    OtherRoot(world.commits(b + 1).value, other);
  }

  // ---- lockstep with live nodes ----

  datatype Route = Route(transport: Transport, retry: bool)

  /** One window of a node that takes part as windows close: it gathers the certificate over
      its own route, needs nothing missing, and applies the outer step. A window without a
      certificate leaves it unchanged. */
  ghost function LiveStep<P, I, T, M>(world: World<P, I, T, M>, route: Route, node: Node<T, M>, w: int): Option<Node<T, M>> {
    if !Certified(world, w) then Some(node)
    else
      var cert := world.certificate(w).cert;
      if !LookupsSucceed(world.rules, cert, route.transport, route.retry) then None
      else
        var raw := Verified(world.rules, cert, route.transport, route.retry);
        if !NothingMissing(world.rules, cert, raw) then None
        else match world.build(Payloads(world.rules, cert, raw, cert.included))
          case None => None
          case Some(inputs) =>
            match world.step(node, inputs)
            case Done(next) => Some(next)
            case Broke(_) => None
  }

  ghost function Live<P, I, T, M>(world: World<P, I, T, M>, route: int -> Route, node: Node<T, M>, w: int, upto: int): Option<Node<T, M>>
    decreases upto + 1 - w
  {
    if w > upto then Some(node)
    else match LiveStep(world, route(w), node, w)
      case None => None
      case Some(next) => Live(world, route, next, w + 1, upto)
  }

  lemma LiveNext<P, I, T, M>(world: World<P, I, T, M>, route: int -> Route, node: Node<T, M>, next: Node<T, M>, w: int, upto: int)
    requires w <= upto && LiveStep(world, route(w), node, w) == Some(next)
    ensures Live(world, route, node, w, upto) == Live(world, route, next, w + 1, upto)
  {
  }

  /** No two verified blobs of a window share a hash, over both routes. */
  ghost predicate BlobsDistinct<P, I, T, M>(world: World<P, I, T, M>, a: Route, b: Route, w: int) {
    Certified(world, w) ==>
      var cert := world.certificate(w).cert;
      CollisionFree(world.rules, Verified(world.rules, cert, a.transport, a.retry).Values + Verified(world.rules, cert, b.transport, b.retry).Values)
  }

  function MirrorRoute<P, I, T, M>(world: World<P, I, T, M>, w: int): Route {
    Route(MirrorOnly(world.mirror(w)), true)
  }

  lemma LiveStepsAgree<P, I, T, M>(world: World<P, I, T, M>, a: Route, b: Route, node: Node<T, M>, w: int)
    requires BlobsDistinct(world, a, b, w)
    requires LiveStep(world, a, node, w).Some? && LiveStep(world, b, node, w).Some?
    ensures LiveStep(world, a, node, w) == LiveStep(world, b, node, w)
  {
    if Certified(world, w) {
      TransportIndependence(world.rules, world.certificate(w).cert, a.transport, a.retry, b.transport, b.retry);
    }
  }

  lemma ReplayedStepIsLive<P, I, T, M>(world: World<P, I, T, M>, node: Node<T, M>, w: int)
    requires !Judge(world, node, w).Failed?
    ensures LiveStep(world, MirrorRoute(world, w), node, w) == Some(After(Judge(world, node, w), node))
  {
  }

  lemma LiveStepIsReplayed<P, I, T, M>(world: World<P, I, T, M>, route: Route, node: Node<T, M>, w: int)
    requires BlobsDistinct(world, route, MirrorRoute(world, w), w)
    requires LiveStep(world, route, node, w).Some? && !Judge(world, node, w).Failed?
    ensures LiveStep(world, route, node, w) == Some(After(Judge(world, node, w), node))
  {
    ReplayedStepIsLive(world, node, w);
    LiveStepsAgree(world, route, MirrorRoute(world, w), node, w);
  }

  lemma {:induction false} LiveMeetsReplay<P, I, T, M>(world: World<P, I, T, M>, route: int -> Route, node: Node<T, M>, w: int, upto: int)
    requires Live(world, route, node, w, upto).Some? && Replay(world, node, w, upto).error == None
    requires forall v :: w <= v <= upto ==> BlobsDistinct(world, route(v), MirrorRoute(world, v), v)
    ensures Replay(world, node, w, upto).node == Live(world, route, node, w, upto).value
    decreases upto + 1 - w
  {
    if w <= upto {
      LiveStepIsReplayed(world, route(w), node, w);
      LiveMeetsReplay(world, route, After(Judge(world, node, w), node), w + 1, upto);
    }
  }

  /** Lockstep: a node that lived through (from, upto] over any routes and one that caught
      up from the mirror, started from equal theta and equal momentum, end with equal theta
      and equal momentum. */
  lemma LiveMeetsCatchUp<P, I, T, M>(world: World<P, I, T, M>, route: int -> Route, node: Node<T, M>, from: int, upto: int)
    requires Live(world, route, node, from + 1, upto).Some? && Outcome(world, node, from, upto).error == None
    requires forall v :: from < v <= upto ==> BlobsDistinct(world, route(v), MirrorRoute(world, v), v)
    ensures Outcome(world, node, from, upto).node == Live(world, route, node, from + 1, upto).value
  {
    LiveMeetsReplay(world, route, node, from + 1, upto);
  }

  /** The same for two live nodes on different routes. */
  lemma {:induction false} LiveNodesAgree<P, I, T, M>(world: World<P, I, T, M>, route: int -> Route, route': int -> Route, node: Node<T, M>, w: int, upto: int)
    requires Live(world, route, node, w, upto).Some? && Live(world, route', node, w, upto).Some?
    requires forall v :: w <= v <= upto ==> BlobsDistinct(world, route(v), route'(v), v)
    ensures Live(world, route, node, w, upto) == Live(world, route', node, w, upto)
    decreases upto + 1 - w
  {
    if w <= upto {
      LiveStepsAgree(world, route(w), route'(w), node, w);
      LiveNodesAgree(world, route, route', LiveStep(world, route(w), node, w).value, w + 1, upto);
    }
  }
}
