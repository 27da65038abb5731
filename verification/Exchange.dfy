/** The certified gather (subnet/core/exchange.py): fetch exactly the certificate's peer
    set, from peers with a mirror retry or from the leader's mirror alone. Storage is an
    oracle that answers or fails; payload parsing and validation are parameters. */
module Exchange {
  import opened Prelude

  type Hash = string

  /** The uids are kept as the set that both gathers take of them. */
  datatype Certificate = Certificate(
    window: int, included: set<int>, payloadHashes: map<int, Hash>, thetaStartRoot: nat)

  /** Everything both paths share: hashing, the size cap, deserialize and validate_structure. */
  datatype Rules<!P> = Rules(
    hash: Bytes -> Hash, lower: Hash -> Hash, maxBytes: int,
    parse: Bytes -> Option<P>, uidOf: P -> int, windowOf: P -> int, wellFormed: P -> bool)

  /** What storage answers: per peer bucket an object or a failure, and the leader's parsed
      aggregator object or a failure. */
  datatype Transport = Transport(buckets: set<int>, served: map<int, Bytes>, mirror: Option<map<int, Bytes>>)

  datatype Note = NoBucket | FetchFailed | MirrorUnavailable | MirrorAbsent | MirrorTooLarge | MirrorMismatch | Invalid

  datatype CertifiedGather<P> = CertifiedGather(payloads: seq<(int, P)>, missing: map<int, seq<Note>>)

  // ---- what each source yields for one uid ----

  predicate Matches<P>(rules: Rules<P>, cert: Certificate, uid: int, blob: Bytes)
    requires uid in cert.payloadHashes
  {
    |blob| <= rules.maxBytes && rules.hash(blob) == rules.lower(cert.payloadHashes[uid])
  }

  /** The mirror's verdict on one uid: the verified blob, or why not. */
  function FromMirror<P>(rules: Rules<P>, cert: Certificate, mirror: map<int, Bytes>, uid: int): Result<Bytes, Note>
    requires uid in mirror && |mirror[uid]| <= rules.maxBytes ==> uid in cert.payloadHashes
  {
    if uid !in mirror then Err(MirrorAbsent)
    else if |mirror[uid]| > rules.maxBytes then Err(MirrorTooLarge)
    else if rules.hash(mirror[uid]) != rules.lower(cert.payloadHashes[uid]) then Err(MirrorMismatch)
    else Ok(mirror[uid])
  }

  predicate PeerOk<P>(rules: Rules<P>, cert: Certificate, t: Transport, uid: int) {
    uid in t.buckets && uid in t.served && uid in cert.payloadHashes && Matches(rules, cert, uid, t.served[uid])
  }

  /** The mirror has an object for the uid that it is worth hashing. */
  predicate Offered<P>(rules: Rules<P>, mirror: Option<map<int, Bytes>>, uid: int) {
    mirror.Some? && uid in mirror.value && |mirror.value[uid]| <= rules.maxBytes
  }

  /** Asking the mirror for the uid does not look up a hash the certificate does not list. */
  predicate Askable<P>(rules: Rules<P>, cert: Certificate, mirror: Option<map<int, Bytes>>, uid: int) {
    Offered(rules, mirror, uid) ==> uid in cert.payloadHashes
  }

  /** What the retry learns about a failed uid. */
  function Verdict<P>(rules: Rules<P>, cert: Certificate, mirror: Option<map<int, Bytes>>, uid: int): Result<Bytes, Note>
    requires Askable(rules, cert, mirror, uid)
  {
    if mirror == None then Err(MirrorUnavailable) else FromMirror(rules, cert, mirror.value, uid)
  }

  /** The code looks this uid's hash up: to fetch it from its bucket or to check the mirror's blob. */
  predicate LooksUp<P>(rules: Rules<P>, t: Transport, retry: bool, uid: int) {
    uid in t.buckets || (retry && Offered(rules, t.mirror, uid))
  }

  /** No lookup of a hash fails. */
  ghost predicate LookupsSucceed<P>(rules: Rules<P>, cert: Certificate, t: Transport, retry: bool) {
    forall u :: u in cert.included && LooksUp(rules, t, retry, u) ==> u in cert.payloadHashes
  }

  /** A certified uid whose hash is looked up and not there. */
  ghost predicate LookupFails<P>(rules: Rules<P>, cert: Certificate, t: Transport, retry: bool, u: int) {
    u in cert.included && LooksUp(rules, t, retry, u) && u !in cert.payloadHashes
  }

  function Decoded<P>(rules: Rules<P>, cert: Certificate, uid: int, blob: Bytes): Option<P> {
    match rules.parse(blob)
    case None => None
    case Some(p) =>
      if rules.uidOf(p) == uid && rules.windowOf(p) == cert.window && rules.wellFormed(p) then Some(p) else None
  }

  // ---- the result of a gather, as a function of the verified blobs ----

  /** The uids with a verified blob that decodes, smallest first. */
  function Payloads<P>(rules: Rules<P>, cert: Certificate, raw: map<int, Bytes>, uids: set<int>): seq<(int, P)> {
    if uids == {} then [] else One(rules, cert, raw, Minimum(uids)) + Payloads(rules, cert, raw, uids - {Minimum(uids)})
  }

  function One<P>(rules: Rules<P>, cert: Certificate, raw: map<int, Bytes>, uid: int): seq<(int, P)> {
    if uid in raw && Decoded(rules, cert, uid, raw[uid]).Some? then [(uid, Decoded(rules, cert, uid, raw[uid]).value)] else []
  }

  function UidsOf<P>(ps: seq<(int, P)>): (r: seq<int>)
    ensures |r| == |ps| && forall k :: 0 <= k < |ps| ==> r[k] == ps[k].0
  {
    seq(|ps|, k requires 0 <= k < |ps| => ps[k].0)
  }

  /** The shape every gather has: payloads in certificate order, and every certified uid in
      exactly one of payloads and missing. */
  ghost predicate Accounts<P>(cert: Certificate, g: CertifiedGather<P>) {
    && Ascending(UidsOf(g.payloads))
    && (forall u :: u in g.missing ==> u in cert.included)
    && forall u :: u in UidsOf(g.payloads) <==> u in cert.included && u !in g.missing
  }

  /** Every uid of `all` in exactly one of the two dictionaries. */
  ghost predicate Split(all: set<int>, raw: map<int, Bytes>, failures: map<int, seq<Note>>) {
    && (forall u :: u in raw ==> u in all && u !in failures)
    && (forall u :: u in failures ==> u in all)
    && forall u :: u in all && u !in failures ==> u in raw
  }

  // ---- the two dictionaries the code fills ----

  class Buffers {
    var raw: map<int, Bytes>
    var failures: map<int, seq<Note>>

    constructor ()
      ensures raw == map[] && failures == map[]
    {
      raw, failures := map[], map[];
    }

    /** Every certified uid has failed or holds a blob that matches the certificate. */
    ghost predicate Settled<P>(rules: Rules<P>, cert: Certificate)
      reads this
    {
      && Split(cert.included, raw, failures)
      && forall u :: u in raw ==> u in cert.payloadHashes && Matches(rules, cert, u, raw[u])
    }

    /** One retry pass over the failed uids; in place, as the code does it. A blob on offer for a
        uid without a listed hash ends it with a lookup error. */
    method MirrorRetry<P>(rules: Rules<P>, cert: Certificate, mirror: Option<map<int, Bytes>>) returns (error: Option<int>)
      requires Settled(rules, cert)
      modifies this
      ensures error == None <==> forall u :: u in old(failures) ==> Askable(rules, cert, mirror, u)
      ensures error.Some? ==> error.value in old(failures) && !Askable(rules, cert, mirror, error.value)
      ensures error == None ==> Settled(rules, cert)
      ensures error == None ==> forall u :: u in old(raw) ==> u in raw && raw[u] == old(raw)[u]
      ensures error == None ==> forall u :: u in old(failures) ==> Retried(Verdict(rules, cert, mirror, u), old(failures)[u], raw, failures, u)
    {
      error := None;
      if mirror == None {
        failures := map u | u in failures :: failures[u] + [MirrorUnavailable];
        return;
      }
      ghost var raw0, fail0 := raw, failures;
      var pending := failures.Keys;
      while pending != {}
        invariant Retrying(rules, cert, mirror, raw0, fail0, pending, raw, failures)
        decreases pending
      {
        var uid := Minimum(pending);
        if !Askable(rules, cert, mirror, uid) { return Some(uid); }
        RetryStep(rules, cert, mirror, raw0, fail0, pending, raw, failures, uid);
        var verdict := FromMirror(rules, cert, mirror.value, uid);
        if verdict.Ok? {
          raw := raw[uid := verdict.value];
          failures := failures - {uid};
        } else {
          failures := failures[uid := failures[uid] + [verdict.error]];
        }
        pending := pending - {uid};
      }
    }
  }

  /** Midway through a retry pass: `pending` uids are still untouched. */
  ghost predicate Retrying<P>(rules: Rules<P>, cert: Certificate, mirror: Option<map<int, Bytes>>, raw0: map<int, Bytes>, fail0: map<int, seq<Note>>,
                              pending: set<int>, raw: map<int, Bytes>, failures: map<int, seq<Note>>)
  {
    && Split(cert.included, raw0, fail0) && Split(cert.included, raw, failures)
    && (forall u :: u in pending ==> u in fail0)
    && (forall u :: u in raw ==> u in cert.payloadHashes && Matches(rules, cert, u, raw[u]))
    && (forall u :: u in raw0 ==> u in raw && raw[u] == raw0[u])
    && (forall u :: u in pending ==> u in failures && failures[u] == fail0[u])
    && forall u :: u in fail0 && u !in pending ==> Askable(rules, cert, mirror, u) && Retried(Verdict(rules, cert, mirror, u), fail0[u], raw, failures, u)
  }

  lemma RetryStep<P>(rules: Rules<P>, cert: Certificate, mirror: Option<map<int, Bytes>>, raw0: map<int, Bytes>, fail0: map<int, seq<Note>>,
                     pending: set<int>, raw: map<int, Bytes>, failures: map<int, seq<Note>>, uid: int)
    requires Retrying(rules, cert, mirror, raw0, fail0, pending, raw, failures) && uid in pending && Askable(rules, cert, mirror, uid)
    ensures match Verdict(rules, cert, mirror, uid)
      case Ok(blob) => Retrying(rules, cert, mirror, raw0, fail0, pending - {uid}, raw[uid := blob], failures - {uid})
      case Err(note) => Retrying(rules, cert, mirror, raw0, fail0, pending - {uid}, raw, failures[uid := failures[uid] + [note]])
  {
  }

  ghost predicate Retried(verdict: Result<Bytes, Note>, reason: seq<Note>, raw: map<int, Bytes>, failures: map<int, seq<Note>>, uid: int) {
    match verdict
    case Ok(blob) => uid in raw && raw[uid] == blob && uid !in failures
    case Err(note) => uid !in raw && uid in failures && failures[uid] == reason + [note]
  }

  /** What decoding makes of one certified uid. */
  function Missing<P>(rules: Rules<P>, cert: Certificate, raw: map<int, Bytes>, failures: map<int, seq<Note>>, uid: int): Option<seq<Note>>
    requires uid in failures || uid in raw
  {
    if uid in failures then Some(failures[uid])
    else if Decoded(rules, cert, uid, raw[uid]) == None then Some([Invalid])
    else None
  }

  /** Deserialize and validate what was fetched; a lookup in raw cannot fail. */
  method DecodeCertified<P>(rules: Rules<P>, cert: Certificate, raw: map<int, Bytes>, failures: map<int, seq<Note>>) returns (g: CertifiedGather<P>)
    requires Split(cert.included, raw, failures)
    ensures Accounts(cert, g)
    ensures g.payloads == Payloads(rules, cert, raw, cert.included)
    ensures forall u :: u in cert.included ==>
      match Missing(rules, cert, raw, failures, u) { case Some(note) => u in g.missing && g.missing[u] == note case None => u !in g.missing }
  {
    var payloads: seq<(int, P)> := [];
    var missing: map<int, seq<Note>> := map[];
    var pending := cert.included;
    while pending != {}
      invariant pending <= cert.included && Recorded(rules, cert, raw, failures, cert.included - pending, missing)
      invariant payloads + Payloads(rules, cert, raw, pending) == Payloads(rules, cert, raw, cert.included)
      decreases pending
    {
      var uid := Minimum(pending);
      ghost var done := cert.included - pending;
      RecordStep(rules, cert, raw, failures, done, missing, uid);
      PayloadsStep(rules, cert, raw, payloads, pending);
      ghost var before := payloads;
      if uid in failures {
        missing := missing[uid := failures[uid]];
      } else {
        var p := Decoded(rules, cert, uid, raw[uid]);
        if p == None {
          missing := missing[uid := [Invalid]];
        } else {
          payloads := payloads + [(uid, p.value)];
        }
      }
      assert payloads == before + One(rules, cert, raw, uid);
      pending := pending - {uid};
      assert cert.included - pending == done + {uid};
    }
    assert cert.included - pending == cert.included;
    assert payloads + [] == payloads;
    g := CertifiedGather(payloads, missing);
    DecodedAccounts(rules, cert, raw, failures, g);
  }

  lemma DecodedAccounts<P>(rules: Rules<P>, cert: Certificate, raw: map<int, Bytes>, failures: map<int, seq<Note>>, g: CertifiedGather<P>)
    requires Split(cert.included, raw, failures)
    requires g.payloads == Payloads(rules, cert, raw, cert.included)
    requires Recorded(rules, cert, raw, failures, cert.included, g.missing)
    ensures Accounts(cert, g)
  {
    PayloadsList(rules, cert, raw, cert.included);
  }

  lemma PayloadsStep<P>(rules: Rules<P>, cert: Certificate, raw: map<int, Bytes>, front: seq<(int, P)>, pending: set<int>)
    requires pending != {}
    ensures front + Payloads(rules, cert, raw, pending)
         == (front + One(rules, cert, raw, Minimum(pending))) + Payloads(rules, cert, raw, pending - {Minimum(pending)})
  {
    var one, rest := One(rules, cert, raw, Minimum(pending)), Payloads(rules, cert, raw, pending - {Minimum(pending)});
    assert Payloads(rules, cert, raw, pending) == one + rest;
    SeqAssoc(front, one, rest);
  }

  ghost predicate Recorded<P>(rules: Rules<P>, cert: Certificate, raw: map<int, Bytes>, failures: map<int, seq<Note>>, done: set<int>, missing: map<int, seq<Note>>)
    requires Split(cert.included, raw, failures)
  {
    && (forall u :: u in missing ==> u in done) && (forall u :: u in done ==> u in cert.included)
    && forall u :: u in done ==>
         match Missing(rules, cert, raw, failures, u) { case Some(note) => u in missing && missing[u] == note case None => u !in missing }
  }

  lemma RecordStep<P>(rules: Rules<P>, cert: Certificate, raw: map<int, Bytes>, failures: map<int, seq<Note>>, done: set<int>, missing: map<int, seq<Note>>, uid: int)
    requires Split(cert.included, raw, failures)
    requires Recorded(rules, cert, raw, failures, done, missing) && uid in cert.included && uid !in done
    ensures Recorded(rules, cert, raw, failures, done + {uid},
              match Missing(rules, cert, raw, failures, uid) { case Some(note) => missing[uid := note] case None => missing })
    ensures uid !in failures ==> uid in raw
  {
  }

  /** The uid has a blob that decodes. */
  predicate Decodes<P>(rules: Rules<P>, cert: Certificate, raw: map<int, Bytes>, u: int) {
    u in raw && Decoded(rules, cert, u, raw[u]).Some?
  }

  lemma UidsConcat<P>(a: seq<(int, P)>, b: seq<(int, P)>)
    ensures UidsOf(a + b) == UidsOf(a) + UidsOf(b)
  {
  }

  lemma OneUid<P>(rules: Rules<P>, cert: Certificate, raw: map<int, Bytes>, u: int)
    ensures UidsOf(One(rules, cert, raw, u)) == if Decodes(rules, cert, raw, u) then [u] else []
  {
  }

  lemma AscendingCons(u: int, s: seq<int>)
    requires Ascending(s) && forall x :: x in s ==> u < x
    ensures Ascending([u] + s)
  {
    forall k | 0 <= k < |s| ensures u < s[k] { assert s[k] in s; }
  }

  lemma ConsLists(u: int, front: seq<int>, after: seq<int>, uids: set<int>, p: int -> bool)
    requires u in uids && (forall x :: x in uids ==> u <= x) && front == if p(u) then [u] else []
    requires Ascending(after) && forall x :: x in after <==> x in uids && x != u && p(x)
    ensures Ascending(front + after) && forall x :: x in front + after <==> x in uids && p(x)
  {
    if p(u) { AscendingCons(u, after); } else { assert front + after == after; }
  }

  lemma {:induction false} PayloadsList<P>(rules: Rules<P>, cert: Certificate, raw: map<int, Bytes>, uids: set<int>)
    ensures var us := UidsOf(Payloads(rules, cert, raw, uids));
            Ascending(us) && forall u :: u in us <==> u in uids && Decodes(rules, cert, raw, u)
  {
    if uids != {} {
      var u := Minimum(uids);
      PayloadsList(rules, cert, raw, uids - {u});
      OneUid(rules, cert, raw, u);
      var one, after := One(rules, cert, raw, u), Payloads(rules, cert, raw, uids - {u});
      UidsConcat(one, after);
      ConsLists(u, UidsOf(one), UidsOf(after), uids, x => Decodes(rules, cert, raw, x));
    }
  }

  // ---- the gathers ----

  /** The verified blob a transport yields for a uid: from its peer, or on retry from the mirror. */
  function Source<P>(rules: Rules<P>, cert: Certificate, t: Transport, retry: bool, uid: int): Option<Bytes> {
    if uid !in cert.payloadHashes then None
    else if PeerOk(rules, cert, t, uid) then Some(t.served[uid])
    else if retry && Verdict(rules, cert, t.mirror, uid).Ok? then Some(Verdict(rules, cert, t.mirror, uid).value)
    else None
  }

  function Verified<P>(rules: Rules<P>, cert: Certificate, t: Transport, retry: bool): map<int, Bytes> {
    map u | u in cert.included && Source(rules, cert, t, retry, u).Some? :: Source(rules, cert, t, retry, u).value
  }

  ghost predicate Holds<P>(rules: Rules<P>, cert: Certificate, t: Transport, retry: bool, raw: map<int, Bytes>, u: int) {
    Source(rules, cert, t, retry, u) == if u in raw then Some(raw[u]) else None
  }

  lemma VerifiedIs<P>(rules: Rules<P>, cert: Certificate, t: Transport, retry: bool, raw: map<int, Bytes>)
    requires forall u :: u in raw ==> u in cert.included
    requires forall u :: u in cert.included ==> Holds(rules, cert, t, retry, raw, u)
    ensures raw == Verified(rules, cert, t, retry)
  {
    var v := Verified(rules, cert, t, retry);
    forall u ensures Agree(raw, v, u) {
      if u in cert.included { assert Holds(rules, cert, t, retry, raw, u); }
    }
    MapsEqual(raw, v);
  }

  lemma VerifiedMatches<P>(rules: Rules<P>, cert: Certificate, t: Transport, retry: bool, u: int)
    requires u in Verified(rules, cert, t, retry)
    ensures u in cert.included && u in cert.payloadHashes && Matches(rules, cert, u, Verified(rules, cert, t, retry)[u])
  {
  }

  /** The first certified uid with a bucket and no listed hash. */
  method ExpectedHashes(cert: Certificate, buckets: set<int>) returns (error: Option<int>)
    ensures error == None <==> forall u :: u in cert.included && u in buckets ==> u in cert.payloadHashes
    ensures error.Some? ==> error.value in cert.included && error.value in buckets && error.value !in cert.payloadHashes
  {
    var pending := cert.included;
    while pending != {}
      invariant pending <= cert.included
      invariant forall u :: u in cert.included && u !in pending && u in buckets ==> u in cert.payloadHashes
      decreases pending
    {
      var uid := Minimum(pending);
      if uid in buckets && uid !in cert.payloadHashes { return Some(uid); }
      pending := pending - {uid};
    }
    error := None;
  }

  /** What the peers served, and who failed. */
  method FetchPeers<P>(rules: Rules<P>, cert: Certificate, t: Transport) returns (bufs: Buffers)
    requires forall u :: u in cert.included && u in t.buckets ==> u in cert.payloadHashes
    ensures fresh(bufs) && bufs.Settled(rules, cert)
    ensures forall u :: u in bufs.raw ==> PeerOk(rules, cert, t, u) && bufs.raw[u] == t.served[u]
    ensures forall u :: u in bufs.failures ==> !PeerOk(rules, cert, t, u)
  {
    bufs := new Buffers();
    bufs.raw := map u | u in cert.included && PeerOk(rules, cert, t, u) :: t.served[u];
    bufs.failures := map u | u in cert.included && !PeerOk(rules, cert, t, u) :: [if u in t.buckets then FetchFailed else NoBucket];
  }

  lemma FetchedHolds<P>(rules: Rules<P>, cert: Certificate, t: Transport, retry: bool, raw: map<int, Bytes>, failures: map<int, seq<Note>>, u: int)
    requires u in raw || u in failures
    requires u in raw ==> PeerOk(rules, cert, t, u) && raw[u] == t.served[u]
    requires u in failures ==> u !in raw && !PeerOk(rules, cert, t, u) && !retry
    ensures Holds(rules, cert, t, retry, raw, u)
  {
  }

  lemma RetriedHolds<P>(rules: Rules<P>, cert: Certificate, t: Transport, reason: seq<Note>, raw: map<int, Bytes>, failures: map<int, seq<Note>>, u: int)
    requires !PeerOk(rules, cert, t, u) && Askable(rules, cert, t.mirror, u)
    requires Retried(Verdict(rules, cert, t.mirror, u), reason, raw, failures, u)
    ensures Holds(rules, cert, t, true, raw, u)
  {
  }

  /** The retry, and what it makes of the two dictionaries. */
  method RetryAll<P>(rules: Rules<P>, cert: Certificate, t: Transport, bufs: Buffers) returns (error: Option<int>)
    requires bufs.Settled(rules, cert)
    requires forall u :: u in cert.included && u in t.buckets ==> u in cert.payloadHashes
    requires forall u :: u in bufs.raw ==> PeerOk(rules, cert, t, u) && bufs.raw[u] == t.served[u]
    requires forall u :: u in bufs.failures ==> !PeerOk(rules, cert, t, u)
    modifies bufs
    ensures error == None <==> LookupsSucceed(rules, cert, t, true)
    ensures error.Some? ==> LookupFails(rules, cert, t, true, error.value)
    ensures error == None ==> Split(cert.included, bufs.raw, bufs.failures) && bufs.raw == Verified(rules, cert, t, true)
  {
    ghost var raw0, fail0 := bufs.raw, bufs.failures;
    error := bufs.MirrorRetry(rules, cert, t.mirror);
    if error == None {
      forall u | u in cert.included ensures Holds(rules, cert, t, true, bufs.raw, u) {
        if u in fail0 {
          RetriedHolds(rules, cert, t, fail0[u], bufs.raw, bufs.failures, u);
        } else {
          assert u in raw0;
        }
      }
      VerifiedIs(rules, cert, t, true, bufs.raw);
    }
  }

  /** Peers first, then one mirror retry when a leader bucket is given. It fails exactly when it
      looks up the hash of a certified uid the certificate does not list. */
  method GatherCertified<P>(rules: Rules<P>, cert: Certificate, t: Transport, retry: bool) returns (r: Result<CertifiedGather<P>, int>)
    ensures r.Ok? <==> LookupsSucceed(rules, cert, t, retry)
    ensures r.Err? ==> LookupFails(rules, cert, t, retry, r.error)
    ensures r.Ok? ==> Accounts(cert, r.value) && r.value.payloads == Payloads(rules, cert, Verified(rules, cert, t, retry), cert.included)
  {
    var error := ExpectedHashes(cert, t.buckets);
    if error.Some? { return Err(error.value); }
    var bufs := FetchPeers(rules, cert, t);
    if bufs.failures != map[] && retry {
      error := RetryAll(rules, cert, t, bufs);
      if error.Some? { return Err(error.value); }
    } else {
      PeersSuffice(rules, cert, t, retry, bufs.raw, bufs.failures);
    }
    var g := DecodeCertified(rules, cert, bufs.raw, bufs.failures);
    r := Ok(g);
  }

  lemma PeersSuffice<P>(rules: Rules<P>, cert: Certificate, t: Transport, retry: bool, raw: map<int, Bytes>, failures: map<int, seq<Note>>)
    requires Split(cert.included, raw, failures) && (retry ==> failures == map[])
    requires forall u :: u in cert.included && u in t.buckets ==> u in cert.payloadHashes
    requires forall u :: u in raw ==> PeerOk(rules, cert, t, u) && raw[u] == t.served[u]
    requires forall u :: u in failures ==> !PeerOk(rules, cert, t, u)
    ensures LookupsSucceed(rules, cert, t, retry) && raw == Verified(rules, cert, t, retry)
  {
    forall u | u in cert.included ensures Holds(rules, cert, t, retry, raw, u) {
      FetchedHolds(rules, cert, t, retry, raw, failures, u);
    }
    VerifiedIs(rules, cert, t, retry, raw);
  }

  /** What the mirror alone yields for the uids already asked for. */
  ghost predicate Asked<P>(rules: Rules<P>, cert: Certificate, mirror: Option<map<int, Bytes>>, done: set<int>, raw: map<int, Bytes>, failures: map<int, seq<Note>>) {
    && Split(done, raw, failures)
    && forall u :: u in done ==> Askable(rules, cert, mirror, u) && Holds(rules, cert, MirrorOnly(mirror), true, raw, u)
  }

  lemma AskedNext<P>(rules: Rules<P>, cert: Certificate, mirror: Option<map<int, Bytes>>, done: set<int>, raw: map<int, Bytes>, failures: map<int, seq<Note>>, uid: int)
    requires Asked(rules, cert, mirror, done, raw, failures) && uid !in done && Askable(rules, cert, mirror, uid)
    ensures match Verdict(rules, cert, mirror, uid)
      case Ok(blob) => Asked(rules, cert, mirror, done + {uid}, raw[uid := blob], failures)
      case Err(note) => Asked(rules, cert, mirror, done + {uid}, raw, failures[uid := [note]])
  {
    assert uid !in raw && uid !in failures;
    var next := if Verdict(rules, cert, mirror, uid).Ok? then raw[uid := Verdict(rules, cert, mirror, uid).value] else raw;
    forall u | u in done + {uid} ensures Askable(rules, cert, mirror, u) && Holds(rules, cert, MirrorOnly(mirror), true, next, u) {
      if u != uid { assert Holds(rules, cert, MirrorOnly(mirror), true, raw, u); }
    }
  }

  /** The loop over the mirror's objects. */
  method AskMirror<P>(rules: Rules<P>, cert: Certificate, mirror: Option<map<int, Bytes>>)
    returns (error: Option<int>, raw: map<int, Bytes>, failures: map<int, seq<Note>>)
    ensures error == None ==> Asked(rules, cert, mirror, cert.included, raw, failures)
    ensures error.Some? ==> error.value in cert.included && !Askable(rules, cert, mirror, error.value)
  {
    error, raw, failures := None, map[], map[];
    if mirror == None {
      failures := map u | u in cert.included :: [MirrorUnavailable];
      return;
    }
    var pending := cert.included;
    ghost var done: set<int> := {};
    while pending != {}
      invariant pending + done == cert.included && pending !! done && Asked(rules, cert, mirror, done, raw, failures)
      decreases pending
    {
      var uid := Minimum(pending);
      if !Askable(rules, cert, mirror, uid) { return Some(uid), raw, failures; }
      AskedNext(rules, cert, mirror, done, raw, failures, uid);
      var verdict := FromMirror(rules, cert, mirror.value, uid);
      if verdict.Ok? {
        raw := raw[uid := verdict.value];
      } else {
        failures := failures[uid := [verdict.error]];
      }
      pending := pending - {uid};
      done := done + {uid};
    }
    assert done == cert.included;
  }

  /** The catch-up path: the mirror is the only source. */
  method GatherFromAggregator<P>(rules: Rules<P>, cert: Certificate, mirror: Option<map<int, Bytes>>) returns (r: Result<CertifiedGather<P>, int>)
    ensures r.Ok? <==> LookupsSucceed(rules, cert, MirrorOnly(mirror), true)
    ensures r.Err? ==> LookupFails(rules, cert, MirrorOnly(mirror), true, r.error)
    ensures r.Ok? ==> Accounts(cert, r.value)
                      && r.value.payloads == Payloads(rules, cert, Verified(rules, cert, MirrorOnly(mirror), true), cert.included)
  {
    var error, raw, failures := AskMirror(rules, cert, mirror);
    if error.Some? { return Err(error.value); }
    VerifiedIs(rules, cert, MirrorOnly(mirror), true, raw);
    var g := DecodeCertified(rules, cert, raw, failures);
    r := Ok(g);
  }

  function MirrorOnly(mirror: Option<map<int, Bytes>>): Transport {
    Transport({}, map[], mirror)
  }

  // ---- transport independence ----

  /** No two of the blobs in play share a hash. */
  ghost predicate CollisionFree<P>(rules: Rules<P>, blobs: set<Bytes>) {
    forall a, b :: a in blobs && b in blobs && rules.hash(a) == rules.hash(b) ==> a == b
  }

  ghost predicate NothingMissing<P>(rules: Rules<P>, cert: Certificate, raw: map<int, Bytes>) {
    forall u :: u in cert.included ==> u in UidsOf(Payloads(rules, cert, raw, cert.included))
  }

  lemma {:induction false} PayloadsDependOnBlobs<P>(rules: Rules<P>, cert: Certificate, a: map<int, Bytes>, b: map<int, Bytes>, uids: set<int>)
    requires forall u :: u in uids ==> u in a && u in b && a[u] == b[u]
    ensures Payloads(rules, cert, a, uids) == Payloads(rules, cert, b, uids)
  {
    if uids != {} {
      PayloadsDependOnBlobs(rules, cert, a, b, uids - {Minimum(uids)});
    }
  }

  /** Two nodes that gather one certificate with nothing missing hold the same payloads,
      whichever mix of peers and mirror each of them used. */
  lemma TransportIndependence<P>(rules: Rules<P>, cert: Certificate, t: Transport, retry: bool, t': Transport, retry': bool)
    requires NothingMissing(rules, cert, Verified(rules, cert, t, retry))
    requires NothingMissing(rules, cert, Verified(rules, cert, t', retry'))
    requires CollisionFree(rules, Verified(rules, cert, t, retry).Values + Verified(rules, cert, t', retry').Values)
    ensures Payloads(rules, cert, Verified(rules, cert, t, retry), cert.included)
         == Payloads(rules, cert, Verified(rules, cert, t', retry'), cert.included)
  {
    var a, b := Verified(rules, cert, t, retry), Verified(rules, cert, t', retry');
    PayloadsList(rules, cert, a, cert.included);
    PayloadsList(rules, cert, b, cert.included);
    forall u | u in cert.included ensures u in a && u in b && a[u] == b[u] {
      assert u in UidsOf(Payloads(rules, cert, a, cert.included)) && u in UidsOf(Payloads(rules, cert, b, cert.included));
      VerifiedMatches(rules, cert, t, retry, u);
      VerifiedMatches(rules, cert, t', retry', u);
      assert a[u] in a.Values && b[u] in b.Values;
    }
    PayloadsDependOnBlobs(rules, cert, a, b, cert.included);
  }
}
