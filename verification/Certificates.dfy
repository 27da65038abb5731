/** subnet/core/certificate.py: choosing and signing the included peer set, and checking it. Scores
    are reals; the canonical message, the signature scheme and hex are parameters. */
module Certificates {
  import opened Prelude

  datatype Commit = Commit(payloadHash: string, inGate: bool, valid: bool)

  /** The signed fields. */
  datatype Unsigned = Unsigned(
    window: int, includedUids: seq<int>, payloadHashes: map<int, string>, thetaStartRoot: string, leaderUid: int)

  datatype WindowCertificate = WindowCertificate(unsigned: Unsigned, leaderSig: string)

  /** certificate_message, the leader's signer, bytes.hex and bytes.fromhex. */
  datatype Signing = Signing(
    message: Unsigned -> Bytes, sign: Bytes -> Bytes, hex: Bytes -> string, fromHex: string -> Option<Bytes>)

  ghost predicate HexReads(s: Signing) {
    forall b :: s.fromHex(s.hex(b)) == Some(b)
  }

  datatype Error = BadGatherCount | BadReserveCount

  // ---- ranking ----

  function Score(scores: map<int, real>, uid: int): real {
    if uid in scores then scores[uid] else 0.0
  }

  /** Higher score first, ties by lower uid. */
  predicate Before(scores: map<int, real>, u: int, v: int) {
    Score(scores, u) > Score(scores, v) || (Score(scores, u) == Score(scores, v) && u < v)
  }

  predicate Ranked(scores: map<int, real>, s: seq<int>) {
    forall i, j :: 0 <= i < j < |s| ==> Before(scores, s[i], s[j])
  }

  function Insert(scores: map<int, real>, u: int, s: seq<int>): (r: seq<int>)
    ensures forall x :: x in r <==> x == u || x in s
  {
    if s == [] then [u] else if Before(scores, u, s[0]) then [u] + s else [s[0]] + Insert(scores, u, s[1..])
  }

  /** sorted(eligible, key=...) */
  function RankSort(scores: map<int, real>, s: seq<int>): (r: seq<int>)
    ensures forall x :: x in r <==> x in s
  {
    if s == [] then [] else Insert(scores, s[0], RankSort(scores, s[1..]))
  }

  lemma RankedCons(scores: map<int, real>, u: int, s: seq<int>)
    requires Ranked(scores, s) && forall x :: x in s ==> Before(scores, u, x)
    ensures Ranked(scores, [u] + s)
  {
    var r := [u] + s;
    forall i, j | 0 <= i < j < |r| ensures Before(scores, r[i], r[j]) {
      if i == 0 { assert r[j] in s; }
    }
  }

  lemma {:induction false} InsertRanked(scores: map<int, real>, u: int, s: seq<int>)
    requires Ranked(scores, s) && u !in s
    ensures Ranked(scores, Insert(scores, u, s))
  {
    if s != [] {
      if Before(scores, u, s[0]) {
        forall x | x in s ensures Before(scores, u, x) {
          var k :| 0 <= k < |s| && s[k] == x;
          assert k == 0 || Before(scores, s[0], s[k]);
        }
        RankedCons(scores, u, s);
      } else {
        InsertRanked(scores, u, s[1..]);
        assert s[0] in s && u != s[0];
        forall x | x in Insert(scores, u, s[1..]) ensures Before(scores, s[0], x) {
          if x != u { var k :| 0 <= k < |s[1..]| && s[1..][k] == x; assert s[k + 1] == x; }
        }
        RankedCons(scores, s[0], Insert(scores, u, s[1..]));
      }
    }
  }

  ghost predicate Distinct(s: seq<int>) {
    forall i, j :: 0 <= i < j < |s| ==> s[i] != s[j]
  }

  lemma {:induction false} SortRanks(scores: map<int, real>, s: seq<int>)
    requires Distinct(s)
    ensures Ranked(scores, RankSort(scores, s))
  {
    if s != [] {
      SortRanks(scores, s[1..]);
      assert forall k :: 0 <= k < |s[1..]| ==> s[1..][k] == s[k + 1];
      InsertRanked(scores, s[0], RankSort(scores, s[1..]));
    }
  }

  /** A ranking is a total order, so a set has one ranked listing. */
  lemma {:induction false} RankingUnique(scores: map<int, real>, a: seq<int>, b: seq<int>)
    requires Ranked(scores, a) && Ranked(scores, b) && forall x :: x in a <==> x in b
    ensures a == b
  {
    if a == [] {
      assert forall k :: 0 <= k < |b| ==> b[k] in b;
    } else {
      assert a[0] in a && a[0] in b && b[0] in b && b[0] in a;
      HeadIsFirst(scores, a, b[0]);
      HeadIsFirst(scores, b, a[0]);
      forall x ensures x in a[1..] <==> x in b[1..] {
        TailMembers(scores, a, x);
        TailMembers(scores, b, x);
      }
      RankingUnique(scores, a[1..], b[1..]);
    }
  }

  lemma HeadIsFirst(scores: map<int, real>, a: seq<int>, x: int)
    requires Ranked(scores, a) && x in a
    ensures a[0] == x || Before(scores, a[0], x)
  {
  }

  lemma TailMembers(scores: map<int, real>, a: seq<int>, x: int)
    requires Ranked(scores, a) && a != []
    ensures x in a[1..] <==> x in a && x != a[0]
  {
    if x in a && x != a[0] { var k :| 0 <= k < |a| && a[k] == x; assert a[1..][k - 1] == x; }
    if x in a[1..] { var k :| 0 <= k < |a[1..]| && a[1..][k] == x; assert Before(scores, a[0], a[k + 1]); }
  }

  // ---- the selection ----

  function Valids(commits: map<int, Commit>, s: seq<int>): seq<int> {
    if s == [] then [] else Valids(commits, s[..|s| - 1]) + if IsValid(commits, s[|s| - 1]) then [s[|s| - 1]] else []
  }

  predicate IsValid(commits: map<int, Commit>, u: int) {
    u in commits && commits[u].valid
  }

  function Prefix(s: seq<int>, n: int): seq<int> {
    if n <= 0 then [] else if n <= |s| then s[..n] else s
  }

  /** The commits in the gate, in the iteration order `order` of the mapping. */
  function InGate(commits: map<int, Commit>, order: seq<int>): (r: seq<int>)
    ensures forall u :: u in r <==> u in order && u in commits && commits[u].inGate
  {
    if order == [] then [] else
      (if order[0] in commits && commits[order[0]].inGate then [order[0]] else []) + InGate(commits, order[1..])
  }

  /** The peers the protocol names: the first `gather` valid ones among the first gather + reserve
      ranked peers whose commit is in the gate. */
  function Chosen(commits: map<int, Commit>, scores: map<int, real>, gather: int, reserve: int): seq<int> {
    Prefix(Valids(commits, Prefix(RankSort(scores, InGate(commits, Sorted(commits.Keys))), gather + reserve)), gather)
  }

  lemma {:induction false} ValidsConcat(commits: map<int, Commit>, a: seq<int>, b: seq<int>)
    ensures Valids(commits, a + b) == Valids(commits, a) + Valids(commits, b)
  {
    if b == [] {
      assert a + b == a;
    } else {
      ValidsConcat(commits, a, b[..|b| - 1]);
      assert (a + b)[..|a + b| - 1] == a + b[..|b| - 1];
    }
  }

  lemma {:induction false} ValidsShorter(commits: map<int, Commit>, s: seq<int>)
    ensures |Valids(commits, s)| <= |s|
    ensures forall u :: u in Valids(commits, s) <==> u in s && IsValid(commits, u)
  {
    if s != [] {
      ValidsShorter(commits, s[..|s| - 1]);
      assert s == s[..|s| - 1] + [s[|s| - 1]];
    }
  }

  lemma {:induction false} InGateDistinct(commits: map<int, Commit>, order: seq<int>)
    requires Distinct(order)
    ensures Distinct(InGate(commits, order))
  {
    if order != [] {
      InGateDistinct(commits, order[1..]);
      var rest := InGate(commits, order[1..]);
      forall j | 0 <= j < |rest| ensures rest[j] != order[0] {
        assert rest[j] in rest && rest[j] in order[1..];
        var k :| 0 <= k < |order[1..]| && order[1..][k] == rest[j];
        assert order[k + 1] == rest[j];
      }
    }
  }

  /** The iteration order of the mapping does not matter. */
  lemma OrderIrrelevant(commits: map<int, Commit>, scores: map<int, real>, order: seq<int>)
    requires Distinct(order) && forall u :: u in order <==> u in commits
    ensures RankSort(scores, InGate(commits, order)) == RankSort(scores, InGate(commits, Sorted(commits.Keys)))
    ensures Ranked(scores, RankSort(scores, InGate(commits, order)))
  {
    var sorted := Sorted(commits.Keys);
    InGateDistinct(commits, order);
    InGateDistinct(commits, sorted);
    SortRanks(scores, InGate(commits, order));
    SortRanks(scores, InGate(commits, sorted));
    RankingUnique(scores, RankSort(scores, InGate(commits, order)), RankSort(scores, InGate(commits, sorted)));
  }

  /** The comprehension over the top ranks. */
  method TakeValid(commits: map<int, Commit>, top: seq<int>) returns (included: seq<int>)
    ensures included == Valids(commits, top)
  {
    included := [];
    for k := 0 to |top|
      invariant included == Valids(commits, top[..k])
    {
      if IsValid(commits, top[k]) { included := included + [top[k]]; }
      assert top[..k + 1][..k] == top[..k];
    }
    assert top[..|top|] == top;
  }

  /** The backfill loop. */
  method Backfill(commits: map<int, Commit>, top: seq<int>, pool: seq<int>, gather: int) returns (included: seq<int>)
    requires |top| <= gather
    ensures included == Prefix(Valids(commits, top + pool), gather)
  {
    included := TakeValid(commits, top);
    ValidsShorter(commits, top);
    assert top + pool[..0] == top;
    for k := 0 to |pool|
      invariant included == Valids(commits, top + pool[..k]) && |included| <= gather
    {
      if |included| >= gather {
        assert top + pool == (top + pool[..k]) + pool[k..];
        ValidsConcat(commits, top + pool[..k], pool[k..]);
        return;
      }
      if IsValid(commits, pool[k]) { included := included + [pool[k]]; }
      assert top + pool[..k + 1] == (top + pool[..k]) + [pool[k]];
      assert ((top + pool[..k]) + [pool[k]])[..|top + pool[..k]|] == top + pool[..k];
    }
    assert pool[..|pool|] == pool;
  }

  function SetOf(s: seq<int>): set<int> {
    set u | u in s
  }

  /** The unsigned certificate over the included peers: uids sorted, their hashes as committed. */
  function UnsignedFor(window: int, commits: map<int, Commit>, included: seq<int>, root: string, leader: int): Unsigned {
    var uids := Sorted(SetOf(included));
    Unsigned(window, uids, map u | u in uids && u in commits :: commits[u].payloadHash, root, leader)
  }

  lemma PoolFollows(ranked: seq<int>, gather: int, reserve: int)
    requires gather > 0 && reserve >= 0
    ensures var top := Prefix(ranked, gather);
            |top| <= gather && |top| <= |ranked| && top + Prefix(ranked[|top|..], reserve) == Prefix(ranked, gather + reserve)
  {
  }

  /** build_certificate, over any iteration order of the commits. */
  method BuildCertificate(window: int, commits: map<int, Commit>, order: seq<int>, scores: map<int, real>,
                          gatherCount: int, reserveCount: int, root: string, leader: int, signing: Signing)
    returns (r: Result<WindowCertificate, Error>)
    requires Distinct(order) && forall u :: u in order <==> u in commits
    ensures r.Ok? <==> gatherCount > 0 && reserveCount >= 0
    ensures r.Ok? ==>
      var unsigned := UnsignedFor(window, commits, Chosen(commits, scores, gatherCount, reserveCount), root, leader);
      r.value == WindowCertificate(unsigned, signing.hex(signing.sign(signing.message(unsigned))))
  {
    if gatherCount <= 0 { return Err(BadGatherCount); }
    if reserveCount < 0 { return Err(BadReserveCount); }
    var ranked := RankSort(scores, InGate(commits, order));
    OrderIrrelevant(commits, scores, order);
    PoolFollows(ranked, gatherCount, reserveCount);
    var top := Prefix(ranked, gatherCount);
    var pool := Prefix(ranked[|top|..], reserveCount);
    var included := Backfill(commits, top, pool, gatherCount);
    var unsigned := UnsignedFor(window, commits, included, root, leader);
    r := Ok(WindowCertificate(unsigned, signing.hex(signing.sign(signing.message(unsigned)))));
  }

  // ---- what the selection guarantees ----

  /** `chosen` is the best choice of up to `gather` valid peers among the candidates. */
  ghost predicate BestOf(commits: map<int, Commit>, scores: map<int, real>, candidates: seq<int>, gather: int, chosen: seq<int>) {
    && |chosen| <= gather && Ranked(scores, chosen)
    && (forall u :: u in chosen ==> u in candidates && IsValid(commits, u))
    && (|chosen| == gather || forall u :: u in candidates && IsValid(commits, u) ==> u in chosen)
    && forall u, v :: u in candidates && IsValid(commits, u) && u !in chosen && v in chosen ==> Before(scores, v, u)
  }

  lemma FirstValidsAreBest(commits: map<int, Commit>, scores: map<int, real>, candidates: seq<int>, gather: int)
    requires gather > 0 && Ranked(scores, candidates)
    ensures BestOf(commits, scores, candidates, gather, Prefix(Valids(commits, candidates), gather))
  {
    ValidsShorter(commits, candidates);
    ValidsRanked(commits, scores, candidates);
    CutRanked(scores, Valids(commits, candidates), gather);
  }

  /** Everyone chosen is committed, in the gate, valid and among the first gather + reserve ranks; the
      set is as large as it can be up to gather_count, and no valid peer is passed over for a
      lower-ranked one. */
  lemma ChosenIsBest(commits: map<int, Commit>, scores: map<int, real>, gather: int, reserve: int)
    requires gather > 0 && reserve >= 0
    ensures var ranked := RankSort(scores, InGate(commits, Sorted(commits.Keys)));
            && Ranked(scores, ranked)
            && (forall u :: u in ranked <==> u in commits && commits[u].inGate)
            && BestOf(commits, scores, Prefix(ranked, gather + reserve), gather, Chosen(commits, scores, gather, reserve))
  {
    var sorted := Sorted(commits.Keys);
    InGateDistinct(commits, sorted);
    SortRanks(scores, InGate(commits, sorted));
    FirstValidsAreBest(commits, scores, Prefix(RankSort(scores, InGate(commits, sorted)), gather + reserve), gather);
  }

  lemma {:induction false} ValidsRanked(commits: map<int, Commit>, scores: map<int, real>, s: seq<int>)
    requires Ranked(scores, s)
    ensures Ranked(scores, Valids(commits, s))
  {
    if s != [] {
      var n := |s| - 1;
      var v := Valids(commits, s[..n]);
      ValidsRanked(commits, scores, s[..n]);
      ValidsShorter(commits, s[..n]);
      forall i | 0 <= i < |v| ensures Before(scores, v[i], s[n]) {
        assert v[i] in v && v[i] in s[..n];
        var k :| 0 <= k < n && s[..n][k] == v[i];
        assert Before(scores, s[k], s[n]);
      }
    }
  }

  /** A cut through a ranked list puts everything kept before everything cut. */
  lemma CutRanked(scores: map<int, real>, s: seq<int>, n: int)
    requires Ranked(scores, s) && n > 0
    ensures var kept := Prefix(s, n);
            && |kept| <= n && Ranked(scores, kept) && (forall u :: u in kept ==> u in s)
            && (|kept| == n || kept == s)
            && forall u, v :: u in s && u !in kept && v in kept ==> Before(scores, v, u)
  {
    var kept := Prefix(s, n);
    assert forall t :: 0 <= t < |kept| ==> kept[t] == s[t] && s[t] in kept;
    forall u, v | u in s && u !in kept && v in kept ensures Before(scores, v, u) {
      var i :| 0 <= i < |s| && s[i] == u;
      var j :| 0 <= j < |kept| && kept[j] == v;
      assert i >= |kept|;
      assert Before(scores, s[j], s[i]);
    }
  }

  // ---- verification ----

  /** The chain commit of k binds the hash the certificate names for it. */
  ghost predicate Bound<C>(u: Unsigned, chain: map<int, C>, binds: (C, string) -> bool, k: int) {
    k in u.payloadHashes && k in chain && binds(chain[k], u.payloadHashes[k])
  }

  /** The consensus check. `binds` is the chain commit's binds_payload_hash. */
  ghost predicate Accepts<C>(cert: WindowCertificate, chain: map<int, C>, binds: (C, string) -> bool, verify: (Bytes, Bytes) -> bool, signing: Signing) {
    var u := cert.unsigned;
    && Ascending(u.includedUids)
    && (forall k :: k in u.payloadHashes <==> k in u.includedUids)
    && (forall k :: k in u.payloadHashes ==> Bound(u, chain, binds, k))
    && signing.fromHex(cert.leaderSig).Some? && verify(signing.message(u), signing.fromHex(cert.leaderSig).value)
  }

  lemma SortedSet(s: seq<int>)
    ensures s == Sorted(SetOf(s)) <==> Ascending(s)
  {
    if Ascending(s) { AscendingUnique(s, Sorted(SetOf(s))); }
  }

  /** The loop over the included uids. */
  method AllBound<C>(u: Unsigned, chain: map<int, C>, binds: (C, string) -> bool) returns (bound: bool)
    requires forall k :: k in u.payloadHashes <==> k in u.includedUids
    ensures bound <==> forall k :: k in u.payloadHashes ==> Bound(u, chain, binds, k)
  {
    var uids := u.includedUids;
    for i := 0 to |uids|
      invariant forall j :: 0 <= j < i ==> Bound(u, chain, binds, uids[j])
    {
      var uid := uids[i];
      assert uid in u.includedUids && uid in u.payloadHashes;
      if uid !in chain { return false; }
      if !binds(chain[uid], u.payloadHashes[uid]) { return false; }
    }
    forall k | k in u.payloadHashes ensures Bound(u, chain, binds, k) {
      assert k in uids;
      var j :| 0 <= j < |uids| && uids[j] == k;
    }
    bound := true;
  }

  /** The hashes are listed for exactly these uids. */
  predicate KeysAre(hashes: map<int, string>, uids: seq<int>)
    ensures KeysAre(hashes, uids) <==> forall k :: k in hashes <==> k in uids
  {
    (forall k :: k in hashes ==> k in uids) && forall k :: k in uids ==> k in hashes
  }

  /** verify_certificate */
  method VerifyCertificate<C>(cert: WindowCertificate, chain: map<int, C>, binds: (C, string) -> bool, verify: (Bytes, Bytes) -> bool, signing: Signing)
    returns (ok: bool)
    ensures ok <==> Accepts(cert, chain, binds, verify, signing)
  {
    var u := cert.unsigned;
    var uids := u.includedUids;
    SortedSet(uids);
    if uids != Sorted(SetOf(uids)) { return false; }
    if !KeysAre(u.payloadHashes, uids) { return false; }
    var bound := AllBound(u, chain, binds);
    if !bound { return false; }
    var sig := signing.fromHex(cert.leaderSig);
    if sig == None { return false; }
    ok := verify(signing.message(u), sig.value);
  }

  lemma SignedIsAccepted<C>(window: int, commits: map<int, Commit>, included: seq<int>, root: string, leader: int,
                            signing: Signing, chain: map<int, C>, binds: (C, string) -> bool, verify: (Bytes, Bytes) -> bool)
    requires HexReads(signing) && forall u :: u in included ==> u in commits
    ensures var unsigned := UnsignedFor(window, commits, included, root, leader);
            var sig := signing.sign(signing.message(unsigned));
            Accepts(WindowCertificate(unsigned, signing.hex(sig)), chain, binds, verify, signing)
            <==> AllBind(commits, included, chain, binds) && verify(signing.message(unsigned), sig)
  {
    var unsigned := UnsignedFor(window, commits, included, root, leader);
    HashesNamed(window, commits, included, root, leader);
    forall u | u in included
      ensures u in unsigned.payloadHashes && (Bound(unsigned, chain, binds, u) <==> u in chain && binds(chain[u], commits[u].payloadHash))
    {
      assert u in unsigned.payloadHashes;
    }
  }

  /** The chain commits of the included peers bind the hashes they committed to the leader. */
  ghost predicate AllBind<C>(commits: map<int, Commit>, included: seq<int>, chain: map<int, C>, binds: (C, string) -> bool) {
    forall u :: u in included ==> u in chain && u in commits && binds(chain[u], commits[u].payloadHash)
  }

  /** A built certificate is accepted exactly when the chain commits bind the hashes it names and the
      scheme accepts the leader's signature on its message. */
  lemma BuiltIsAccepted<C>(window: int, commits: map<int, Commit>, scores: map<int, real>, gather: int, reserve: int, root: string, leader: int,
                           signing: Signing, chain: map<int, C>, binds: (C, string) -> bool, verify: (Bytes, Bytes) -> bool)
    requires gather > 0 && reserve >= 0 && HexReads(signing)
    ensures var chosen := Chosen(commits, scores, gather, reserve);
            var unsigned := UnsignedFor(window, commits, chosen, root, leader);
            var sig := signing.sign(signing.message(unsigned));
            Accepts(WindowCertificate(unsigned, signing.hex(sig)), chain, binds, verify, signing)
            <==> AllBind(commits, chosen, chain, binds) && verify(signing.message(unsigned), sig)
  {
    ChosenCommitted(commits, scores, gather, reserve);
    SignedIsAccepted(window, commits, Chosen(commits, scores, gather, reserve), root, leader, signing, chain, binds, verify);
  }

  lemma ChosenCommitted(commits: map<int, Commit>, scores: map<int, real>, gather: int, reserve: int)
    requires gather > 0 && reserve >= 0
    ensures forall u :: u in Chosen(commits, scores, gather, reserve) ==> u in commits
  {
    ChosenIsBest(commits, scores, gather, reserve);
  }

  lemma HashesNamed(window: int, commits: map<int, Commit>, included: seq<int>, root: string, leader: int)
    requires forall u :: u in included ==> u in commits
    ensures var unsigned := UnsignedFor(window, commits, included, root, leader);
            && Ascending(unsigned.includedUids) && (forall u :: u in unsigned.includedUids <==> u in included)
            && (forall u :: u in unsigned.payloadHashes <==> u in included)
            && forall u :: u in unsigned.payloadHashes ==> unsigned.payloadHashes[u] == commits[u].payloadHash
  {
    assert forall u :: u in SetOf(included) <==> u in included;
  }
}
