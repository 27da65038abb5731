/** The state root most miners committed (subnet/core/checkpoint.py, consensus_state_root).
    Roots are fixed-width hex strings, so their lexicographic order is the order of the
    numbers they denote. */
module Consensus {
  import opened Prelude

  datatype Commit = Commit(stateRoot: nat, payloadPrefix: string)

  function Voters(commits: map<int, Commit>, root: nat): set<int> {
    set u | u in commits && commits[u].stateRoot == root
  }

  function Roots(commits: map<int, Commit>): set<int> {
    set u | u in commits :: commits[u].stateRoot
  }

  /** r has the most voters, and is the smallest of those that do. */
  ghost predicate Wins(commits: map<int, Commit>, r: nat) {
    r in Roots(commits)
    && forall q: nat :: q in Roots(commits) && q != r ==>
         |Voters(commits, q)| < |Voters(commits, r)| || (|Voters(commits, q)| == |Voters(commits, r)| && r < q)
  }

  lemma WinnerUnique(commits: map<int, Commit>, r: nat, q: nat)
    requires Wins(commits, r) && Wins(commits, q)
    ensures r == q
  {
  }

  function VotersIn(commits: map<int, Commit>, done: set<int>, root: nat): set<int> {
    set u | u in done && u in commits && commits[u].stateRoot == root
  }

  function CountOf(counts: map<nat, nat>, root: nat): nat {
    if root in counts then counts[root] else 0
  }

  ghost predicate Tallied(commits: map<int, Commit>, done: set<int>, counts: map<nat, nat>) {
    && (forall r: nat :: r in counts ==> counts[r] > 0)
    && forall r: nat :: |VotersIn(commits, done, r)| == CountOf(counts, r)
  }

  lemma VotersStep(commits: map<int, Commit>, done: set<int>, u: int, q: nat)
    requires u in commits && u !in done
    ensures |VotersIn(commits, done + {u}, q)| == |VotersIn(commits, done, q)| + if q == commits[u].stateRoot then 1 else 0
  {
    var before, after := VotersIn(commits, done, q), VotersIn(commits, done + {u}, q);
    if q == commits[u].stateRoot {
      assert after == before + {u};
    } else {
      assert after == before;
    }
  }

  lemma TallyStep(commits: map<int, Commit>, done: set<int>, counts: map<nat, nat>, u: int)
    requires Tallied(commits, done, counts) && u in commits && u !in done
    ensures var r := commits[u].stateRoot; Tallied(commits, done + {u}, counts[r := CountOf(counts, r) + 1])
  {
    var r := commits[u].stateRoot;
    forall q: nat ensures |VotersIn(commits, done + {u}, q)| == CountOf(counts[r := CountOf(counts, r) + 1], q) {
      VotersStep(commits, done, u, q);
    }
  }

  lemma TallyTotal(commits: map<int, Commit>, counts: map<nat, nat>)
    requires Tallied(commits, commits.Keys, counts)
    ensures counts.Keys == Roots(commits)
    ensures forall q: nat :: q in counts ==> counts[q] == |Voters(commits, q)|
  {
    forall q: nat ensures VotersIn(commits, commits.Keys, q) == Voters(commits, q) && (q in counts <==> q in Roots(commits)) {
      assert VotersIn(commits, commits.Keys, q) == Voters(commits, q);
      if q in Roots(commits) {
        var u :| u in commits && commits[u].stateRoot == q;
        assert u in Voters(commits, q);
      }
      if q in counts {
        assert Voters(commits, q) != {};
        var u := Minimum(Voters(commits, q));
        assert commits[u].stateRoot == q;
      }
    }
    assert forall q :: q in Roots(commits) ==> q >= 0;
  }

  method Counter(commits: map<int, Commit>) returns (counts: map<nat, nat>)
    ensures counts.Keys == Roots(commits)
    ensures forall q: nat :: q in counts ==> counts[q] == |Voters(commits, q)|
  {
    counts := map[];
    var pending := commits.Keys;
    ghost var done: set<int> := {};
    while pending != {}
      invariant pending + done == commits.Keys && pending !! done && Tallied(commits, done, counts)
      decreases pending
    {
      var u := Minimum(pending);
      var root := commits[u].stateRoot;
      TallyStep(commits, done, counts, u);
      counts := counts[root := CountOf(counts, root) + 1];
      pending := pending - {u};
      done := done + {u};
    }
    TallyTotal(commits, counts);
  }

  /** The code: a counter, then the minimum by (-count, root). */
  method ConsensusStateRoot(commits: map<int, Commit>) returns (r: Option<nat>)
    ensures r == ConsensusRoot(commits)
  {
    if commits == map[] { return None; }
    var counts := Counter(commits);
    SomeRoot(commits);
    var best := Minimum(counts.Keys);
    var left := counts.Keys - {best};
    while left != {}
      invariant left <= counts.Keys && best in counts && best !in left
      invariant forall q: nat :: q in counts && q !in left && q != best ==> counts[q] < counts[best] || (counts[q] == counts[best] && best < q)
      decreases left
    {
      var q := Minimum(left);
      if counts[q] > counts[best] || (counts[q] == counts[best] && q < best) {
        best := q;
      }
      left := left - {q};
    }
    WinnerUnique(commits, best, ConsensusRoot(commits).value);
    r := Some(best);
  }

  lemma SomeRoot(commits: map<int, Commit>)
    requires commits != map[]
    ensures Roots(commits) != {}
  {
    var u := Minimum(commits.Keys);
    assert commits[u].stateRoot in Roots(commits);
  }

  /** The consensus as a function, for specifications; the method above computes it. */
  ghost function ConsensusRoot(commits: map<int, Commit>): (r: Option<nat>)
    ensures r == None <==> commits == map[]
    ensures r.Some? ==> Wins(commits, r.value)
  {
    if commits == map[] then None
    else
      WinnerExists(commits, Roots(commits));
      var r: nat :| Wins(commits, r);
      Some(r)
  }

  lemma {:induction false} BestOf(commits: map<int, Commit>, roots: set<int>) returns (r: nat)
    requires roots != {} && forall q :: q in roots ==> q >= 0
    ensures r in roots
    ensures forall q: nat :: q in roots && q != r ==>
      |Voters(commits, q)| < |Voters(commits, r)| || (|Voters(commits, q)| == |Voters(commits, r)| && r < q)
  {
    var x := Minimum(roots);
    r := x;
    if roots != {x} {
      var y := BestOf(commits, roots - {x});
      if |Voters(commits, y)| > |Voters(commits, x)| { r := y; }
      forall q: nat | q in roots && q != r
        ensures |Voters(commits, q)| < |Voters(commits, r)| || (|Voters(commits, q)| == |Voters(commits, r)| && r < q)
      {
        if q != x { assert q in roots - {x}; }
      }
    }
  }

  lemma WinnerExists(commits: map<int, Commit>, roots: set<int>)
    requires commits != map[] && roots == Roots(commits)
    ensures exists r: nat :: Wins(commits, r)
  {
    SomeRoot(commits);
    var r := BestOf(commits, roots);
    assert Wins(commits, r);
  }

  /** With an honest majority the tie-break never matters: a root that more than half of
      the commits carry is the consensus. */
  lemma MajorityWins(commits: map<int, Commit>, root: nat)
    requires 2 * |Voters(commits, root)| > |commits|
    ensures ConsensusRoot(commits) == Some(root)
  {
    var r := ConsensusRoot(commits);
    assert Voters(commits, root) != {};
    var u := Minimum(Voters(commits, root));
    assert commits[u].stateRoot in Roots(commits);
    if r.value != root {
      var a, b := Voters(commits, root), Voters(commits, r.value);
      assert a !! b && a + b <= commits.Keys;
      SubsetSize(a + b, commits.Keys);
    }
  }

  lemma {:induction false} SubsetSize(a: set<int>, b: set<int>)
    requires a <= b
    ensures |a| <= |b|
  {
    assert b == a + (b - a);
  }
}
