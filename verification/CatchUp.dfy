/** Bitwise catch-up (subnet/core/checkpoint.py, catch_up). The chain, the leader's bucket
    and the outer step are given; theta is covered by the state root, momentum is not. */
module CatchUp {
  import opened Prelude
  import opened Exchange
  import opened Consensus

  datatype CertRead = CertMissing | CertUnreadable | CertFound(cert: Certificate)

  /** What a node holds: parameters and outer momentum. */
  datatype Node<T, M> = Node(theta: T, momentum: M)

  /** The outer step may raise part-way, leaving parameters or momentum half updated. */
  datatype Stepped<T, M> = Done(node: Node<T, M>) | Broke(node: Node<T, M>)

  /** Payloads P become merge inputs I, which advance a node. */
  datatype World<!P, !I, !T, !M> = World(
    rules: Rules<P>,
    isVoid: int -> bool,
    commits: int -> Option<map<int, Commit>>,
    certificate: int -> CertRead,
    mirror: int -> Option<map<int, Bytes>>,
    root: T -> nat,
    build: seq<(int, P)> -> Option<I>,
    step: (Node<T, M>, I) -> Stepped<T, M>)

  datatype Error =
    | BadRange
    | ChainReadFailed(window: int)
    | RootDiverged(window: int, expected: nat, actual: nat)
    | CertificatePending(window: int)
    | CertificateUnreadable(window: int)
    | HashContradictsCommit(window: int)
    | CertificateRootDiverged(window: int, expected: nat, actual: nat)
    | HashNotListed(window: int)
    | PayloadsMissing(window: int)
    | BuildFailed(window: int)
    | StepBroke(window: int)
    | HeadReadFailed

  datatype Report = Report(applied: seq<int>, skippedVoid: seq<int>, unverified: seq<int>)

  const EMPTY := Report([], [], [])

  function Joined(a: Report, b: Report): Report {
    Report(a.applied + b.applied, a.skippedVoid + b.skippedVoid, a.unverified + b.unverified)
  }

  datatype Run<T, M> = Run(node: Node<T, M>, report: Report, error: Option<Error>)

  // ---- one window ----

  predicate Binds(commit: Commit, hash: Hash, lower: Hash -> Hash) {
    commit.payloadPrefix <= lower(hash)
  }

  /** A commit on chain vouches for another payload than the certificate names. */
  ghost predicate Contradicted<P>(rules: Rules<P>, cert: Certificate, commits: map<int, Commit>) {
    exists u :: u in cert.included && u in commits
             && !Binds(commits[u], if u in cert.payloadHashes then cert.payloadHashes[u] else "", rules.lower)
  }

  function Gathered<P, I, T, M>(world: World<P, I, T, M>, cert: Certificate, w: int): seq<(int, P)> {
    Payloads(world.rules, cert, Verified(world.rules, cert, MirrorOnly(world.mirror(w)), true), cert.included)
  }

  /** The mirror offers nothing for a certified uid whose hash the certificate does not list. */
  ghost predicate Readable<P, I, T, M>(world: World<P, I, T, M>, cert: Certificate, w: int) {
    LookupsSucceed(world.rules, cert, MirrorOnly(world.mirror(w)), true)
  }

  ghost predicate Complete<P, I, T, M>(world: World<P, I, T, M>, cert: Certificate, w: int) {
    NothingMissing(world.rules, cert, Verified(world.rules, cert, MirrorOnly(world.mirror(w)), true))
  }

  datatype Verdict<T, M> =
    | Void
    | Empty
    | Applied(node: Node<T, M>, seen: bool)
    | Failed(node: Node<T, M>, error: Error, seen: bool)

  /** What the code does with window w from a given node. `seen` says that the chain had
      commits for the window, so it is not listed as unverified. */
  ghost function Judge<P, I, T, M>(world: World<P, I, T, M>, node: Node<T, M>, w: int): Verdict<T, M> {
    if world.isVoid(w) then Void
    else match world.commits(w)
      case None => Failed(node, ChainReadFailed(w), true)
      case Some(commits) =>
        var have, want := world.root(node.theta), ConsensusRoot(commits);
        var seen := want.Some?;
        if seen && want.value != have then Failed(node, RootDiverged(w, want.value, have), seen)
        else match world.certificate(w)
          case CertMissing => if commits != map[] then Failed(node, CertificatePending(w), seen) else Empty
          case CertUnreadable => Failed(node, CertificateUnreadable(w), seen)
          case CertFound(cert) =>
            if Contradicted(world.rules, cert, commits) then Failed(node, HashContradictsCommit(w), seen)
            else if cert.thetaStartRoot != have then Failed(node, CertificateRootDiverged(w, cert.thetaStartRoot, have), seen)
            else if !Readable(world, cert, w) then Failed(node, HashNotListed(w), seen)
            else if !Complete(world, cert, w) then Failed(node, PayloadsMissing(w), seen)
            else match world.build(Gathered(world, cert, w))
              case None => Failed(node, BuildFailed(w), seen)
              case Some(inputs) =>
                match world.step(node, inputs)
                case Done(next) => Applied(next, seen)
                case Broke(half) => Failed(half, StepBroke(w), seen)
  }

  function Line<T, M>(v: Verdict<T, M>, w: int): Report {
    match v
    case Void => Report([], [w], [])
    case Empty => Report([], [], [w])
    case Applied(_, seen) => Report([w], [], if seen then [] else [w])
    case Failed(_, _, seen) => Report([], [], if seen then [] else [w])
  }

  function After<T, M>(v: Verdict<T, M>, node: Node<T, M>): Node<T, M> {
    if v.Applied? || v.Failed? then v.node else node
  }

  // ---- the loop ----

  /** Windows w, w + 1, ..., to; the report lists what was recorded before any error. */
  ghost function Replay<P, I, T, M>(world: World<P, I, T, M>, node: Node<T, M>, w: int, upto: int): Run<T, M>
    decreases upto + 1 - w
  {
    if w > upto then Run(node, EMPTY, None)
    else
      var v := Judge(world, node, w);
      if v.Failed? then Run(v.node, Line(v, w), Some(v.error))
      else
        var rest := Replay(world, After(v, node), w + 1, upto);
        Run(rest.node, Joined(Line(v, w), rest.report), rest.error)
  }

  /** The check of the next window's commits after the last apply. */
  ghost function HeadError<P, I, T, M>(world: World<P, I, T, M>, node: Node<T, M>, upto: int): Option<Error> {
    match world.commits(upto + 1)
    case None => Some(HeadReadFailed)
    case Some(commits) =>
      var want := ConsensusRoot(commits);
      if want.Some? && want.value != world.root(node.theta) then Some(RootDiverged(upto + 1, want.value, world.root(node.theta)))
      else None
  }

  ghost function Outcome<P, I, T, M>(world: World<P, I, T, M>, node: Node<T, M>, from: int, upto: int): Run<T, M> {
    if upto < from then Run(node, EMPTY, Some(BadRange))
    else
      var r := Replay(world, node, from + 1, upto);
      if r.error.Some? then r else Run(r.node, r.report, HeadError(world, r.node, upto))
  }

  class Replica<T, M> {
    var theta: T
    var momentum: M

    constructor (theta: T, momentum: M)
      ensures this.theta == theta && this.momentum == momentum
    {
      this.theta, this.momentum := theta, momentum;
    }

    function State(): Node<T, M>
      reads this
    {
      Node(theta, momentum)
    }

    method Contradiction<P>(rules: Rules<P>, cert: Certificate, commits: map<int, Commit>) returns (found: bool)
      ensures found <==> Contradicted(rules, cert, commits)
    {
      var pending := cert.included;
      while pending != {}
        invariant pending <= cert.included
        invariant forall u :: u in cert.included && u !in pending && u in commits ==>
          Binds(commits[u], if u in cert.payloadHashes then cert.payloadHashes[u] else "", rules.lower)
        decreases pending
      {
        var u := Minimum(pending);
        if u in commits && !Binds(commits[u], if u in cert.payloadHashes then cert.payloadHashes[u] else "", rules.lower) {
          return true;
        }
        pending := pending - {u};
      }
      found := false;
    }

    /** One loop iteration. */
    method Advance<P, I>(world: World<P, I, T, M>, w: int, report: Report) returns (r: Report, error: Option<Error>)
      modifies this
      ensures var v := Judge(world, old(State()), w);
              && State() == After(v, old(State()))
              && r == Joined(report, Line(v, w))
              && error == if v.Failed? then Some(v.error) else None
    {
      ghost var v := Judge(world, State(), w);
      r, error := report, None;
      if world.isVoid(w) {
        return Joined(report, Report([], [w], [])), None;
      }
      var read := world.commits(w);
      if read == None { return report, Some(ChainReadFailed(w)); }
      var commits := read.value;
      var currentRoot := world.root(theta);
      var want := ConsensusStateRoot(commits);
      if want == None {
        r := Joined(report, Report([], [], [w]));
      } else if want.value != currentRoot {
        return report, Some(RootDiverged(w, want.value, currentRoot));
      }
      var certRead := world.certificate(w);
      if certRead == CertMissing {
        if commits != map[] { return r, Some(CertificatePending(w)); }
        return r, None;
      }
      if certRead == CertUnreadable { return r, Some(CertificateUnreadable(w)); }
      r, error := ApplyCertified(world, w, certRead.cert, commits, currentRoot, r);
    }

    /** The rest of the iteration, once the window has a certificate. */
    method ApplyCertified<P, I>(world: World<P, I, T, M>, w: int, cert: Certificate, commits: map<int, Commit>, currentRoot: nat, report: Report)
      returns (r: Report, error: Option<Error>)
      requires !world.isVoid(w) && world.commits(w) == Some(commits) && world.certificate(w) == CertFound(cert)
      requires currentRoot == world.root(theta) && (ConsensusRoot(commits) == None || ConsensusRoot(commits) == Some(currentRoot))
      modifies this
      ensures var v := Judge(world, old(State()), w);
              && State() == After(v, old(State()))
              && r == Joined(report, Report(Line(v, w).applied, [], []))
              && error == if v.Failed? then Some(v.error) else None
    {
      r := report;
      assert Joined(r, Report([], [], [])) == r;
      var contradicted := Contradiction(world.rules, cert, commits);
      if contradicted { return r, Some(HashContradictsCommit(w)); }
      if cert.thetaStartRoot != currentRoot { return r, Some(CertificateRootDiverged(w, cert.thetaStartRoot, currentRoot)); }
      var gathered := GatherFromAggregator(world.rules, cert, world.mirror(w));
      if gathered.Err? { return r, Some(HashNotListed(w)); }
      var gather := gathered.value;
      MissingIsIncomplete(world, cert, w, gather);
      if gather.missing != map[] { return r, Some(PayloadsMissing(w)); }
      var inputs := world.build(gather.payloads);
      if inputs == None { return r, Some(BuildFailed(w)); }
      var out := world.step(Node(theta, momentum), inputs.value);
      theta, momentum := out.node.theta, out.node.momentum;
      if out.Broke? { return r, Some(StepBroke(w)); }
      r, error := Joined(r, Report([w], [], [])), None;
    }

    method ReplayWindows<P, I>(world: World<P, I, T, M>, first: int, upto: int) returns (report: Report, error: Option<Error>)
      modifies this
      ensures Run(State(), report, error) == Replay(world, old(State()), first, upto)
    {
      report, error := EMPTY, None;
      var w := first;
      JoinedAssociative(Replay(world, State(), w, upto).report, EMPTY, EMPTY);
      while w <= upto
        invariant error == None && Resumes(Replay(world, old(State()), first, upto), report, Replay(world, State(), w, upto))
        decreases upto + 1 - w
      {
        ReplayStep(world, State(), w, upto, report);
        report, error := Advance(world, w, report);
        if error.Some? { return; }
        w := w + 1;
      }
      JoinedAssociative(report, EMPTY, EMPTY);
    }

    method CatchUp<P, I>(world: World<P, I, T, M>, from: int, upto: int) returns (report: Report, error: Option<Error>)
      modifies this
      ensures Run(State(), report, error) == Outcome(world, old(State()), from, upto)
    {
      if upto < from { return EMPTY, Some(BadRange); }
      report, error := ReplayWindows(world, from + 1, upto);
      if error.Some? { return; }
      var read := world.commits(upto + 1);
      if read == None { return report, Some(HeadReadFailed); }
      var finalRoot := world.root(theta);
      var want := ConsensusStateRoot(read.value);
      if want.Some? && want.value != finalRoot {
        error := Some(RootDiverged(upto + 1, want.value, finalRoot));
      }
    }
  }

  lemma ReplayStep<P, I, T, M>(world: World<P, I, T, M>, node: Node<T, M>, w: int, upto: int, sofar: Report)
    requires w <= upto
    ensures var v, run := Judge(world, node, w), Replay(world, node, w, upto);
            if v.Failed? then run.node == v.node && Joined(sofar, run.report) == Joined(sofar, Line(v, w)) && run.error == Some(v.error)
            else var rest := Replay(world, After(v, node), w + 1, upto);
                 run.node == rest.node && run.error == rest.error
                 && Joined(sofar, run.report) == Joined(Joined(sofar, Line(v, w)), rest.report)
  {
    var v := Judge(world, node, w);
    JoinedAssociative(sofar, Line(v, w), Replay(world, After(v, node), w + 1, upto).report);
  }

  /** The whole run is what was recorded so far, continued by the rest. */
  ghost predicate Resumes<T, M>(whole: Run<T, M>, sofar: Report, rest: Run<T, M>) {
    whole.node == rest.node && whole.error == rest.error && whole.report == Joined(sofar, rest.report)
  }

  lemma JoinedAssociative(a: Report, b: Report, c: Report)
    ensures Joined(Joined(a, b), c) == Joined(a, Joined(b, c))
    ensures Joined(a, EMPTY) == a && Joined(EMPTY, a) == a
  {
    assert (a.applied + b.applied) + c.applied == a.applied + (b.applied + c.applied);
    assert (a.skippedVoid + b.skippedVoid) + c.skippedVoid == a.skippedVoid + (b.skippedVoid + c.skippedVoid);
    assert (a.unverified + b.unverified) + c.unverified == a.unverified + (b.unverified + c.unverified);
    assert a.applied + [] == a.applied && a.skippedVoid + [] == a.skippedVoid && a.unverified + [] == a.unverified;
    assert [] + a.applied == a.applied && [] + a.skippedVoid == a.skippedVoid && [] + a.unverified == a.unverified;
  }

  lemma MissingIsIncomplete<P, I, T, M>(world: World<P, I, T, M>, cert: Certificate, w: int, gather: CertifiedGather<P>)
    requires Accounts(cert, gather) && gather.payloads == Gathered(world, cert, w)
    ensures gather.missing == map[] <==> Complete(world, cert, w)
  {
    if gather.missing != map[] {
      var u := Minimum(gather.missing.Keys);
      assert u in gather.missing;
    }
  }
}
