/** The leader's side and the followers' side of one window put together: the certificate that
    verify_certificate accepts (subnet/core/certificate.py) is the one the gathers read, and the object
    the leader publishes (subnet/core/exchange.py:271-296) is the mirror they fall back to. */
module Mirror {
  import opened Prelude
  import Aggregator
  import Certificates
  import opened Exchange

  // ---- an accepted certificate lists every hash ----

  /** A signed certificate as the gathers see it; `number` reads the root's hex spelling. */
  function GatherView(u: Certificates.Unsigned, number: string -> nat): Certificate {
    Certificate(u.window, Certificates.SetOf(u.includedUids), u.payloadHashes, number(u.thetaStartRoot))
  }

  /** No gather of an accepted certificate can fail on a hash lookup, over any route. */
  lemma AcceptedListsHashes<C, P>(cert: Certificates.WindowCertificate, chain: map<int, C>, binds: (C, string) -> bool,
                                  verify: (Bytes, Bytes) -> bool, signing: Certificates.Signing, number: string -> nat,
                                  rules: Rules<P>, t: Transport, retry: bool)
    requires Certificates.Accepts(cert, chain, binds, verify, signing)
    ensures LookupsSucceed(rules, GatherView(cert.unsigned, number), t, retry)
  {
  }

  /** Nor can it name a hash that no chain commit of that peer binds. */
  lemma AcceptedHashesAreBound<C>(cert: Certificates.WindowCertificate, chain: map<int, C>, binds: (C, string) -> bool,
                                  verify: (Bytes, Bytes) -> bool, signing: Certificates.Signing, number: string -> nat, u: int)
    requires Certificates.Accepts(cert, chain, binds, verify, signing) && u in GatherView(cert.unsigned, number).included
    ensures u in chain && binds(chain[u], GatherView(cert.unsigned, number).payloadHashes[u])
  {
    assert u in cert.unsigned.includedUids && u in cert.unsigned.payloadHashes;
    assert Certificates.Bound(cert.unsigned, chain, binds, u);
  }

  // ---- a complete gather makes a complete mirror ----

  /** The mirror has every blob the complete gather verified. */
  ghost predicate Mirrors<P>(rules: Rules<P>, cert: Certificate, raw: map<int, Bytes>, mirror: map<int, Bytes>) {
    forall u :: u in cert.included ==> u in raw && u in mirror && mirror[u] == raw[u]
  }

  lemma CompleteIsVerified<P>(rules: Rules<P>, cert: Certificate, t: Transport, retry: bool, u: int)
    requires NothingMissing(rules, cert, Verified(rules, cert, t, retry)) && u in cert.included
    ensures u in Verified(rules, cert, t, retry) && u in cert.payloadHashes && Matches(rules, cert, u, Verified(rules, cert, t, retry)[u])
  {
    var raw := Verified(rules, cert, t, retry);
    PayloadsList(rules, cert, raw, cert.included);
    assert u in UidsOf(Payloads(rules, cert, raw, cert.included));
    VerifiedMatches(rules, cert, t, retry, u);
  }

  /** Whatever route the first gather took: read from such a mirror alone, every blob is verified again,
      so nothing is missing and the payloads are the same. */
  lemma MirrorServesAll<P>(rules: Rules<P>, cert: Certificate, t: Transport, retry: bool, mirror: map<int, Bytes>)
    requires NothingMissing(rules, cert, Verified(rules, cert, t, retry))
    requires Mirrors(rules, cert, Verified(rules, cert, t, retry), mirror)
    ensures LookupsSucceed(rules, cert, MirrorOnly(Some(mirror)), true)
    ensures Verified(rules, cert, MirrorOnly(Some(mirror)), true) == Verified(rules, cert, t, retry)
  {
    var raw := Verified(rules, cert, t, retry);
    forall u | u in cert.included ensures u in cert.payloadHashes && Holds(rules, cert, MirrorOnly(Some(mirror)), true, raw, u) {
      CompleteIsVerified(rules, cert, t, retry, u);
    }
    VerifiedIs(rules, cert, MirrorOnly(Some(mirror)), true, raw);
  }

  // ---- publishing and fetching ----

  /** get_aggregator_object: what storage answers, parsed, and only if it is for the window. */
  method GetAggregatorObject(c: Aggregator.Codec, served: Option<Bytes>, window: int, budget: int) returns (mirror: Option<map<int, Bytes>>)
    requires Aggregator.Sound(c) && budget >= 1
    ensures mirror.Some? ==>
      var obj := Aggregator.AggregatorObject(window, mirror.value);
      served.Some? && Aggregator.Readable(c, obj) && Aggregator.Framed(c, served.value, budget, 4 * budget, Aggregator.BodyOf(c, obj))
    ensures mirror == None && served.Some? ==> forall obj :: Aggregator.Readable(c, obj) && obj.window == window ==>
      !Aggregator.Framed(c, served.value, budget, 4 * budget, Aggregator.BodyOf(c, obj))
  {
    if served == None { return None; }
    var r := Aggregator.Deserialize(c, served.value, budget, None);
    if r.Err? { return None; }
    if r.value.window != window {
      OneObject(c, served.value, budget, r.value, window);
      return None;
    }
    mirror := Some(r.value.payloads);
    assert r.value == Aggregator.AggregatorObject(window, mirror.value);
  }

  /** A frame holds one object. */
  lemma OneObject(c: Aggregator.Codec, data: Bytes, budget: int, a: Aggregator.AggregatorObject, window: int)
    requires Aggregator.Sound(c) && Aggregator.Readable(c, a) && Aggregator.Framed(c, data, budget, 4 * budget, Aggregator.BodyOf(c, a))
    requires a.window != window
    ensures forall obj :: Aggregator.Readable(c, obj) && obj.window == window ==>
      !Aggregator.Framed(c, data, budget, 4 * budget, Aggregator.BodyOf(c, obj))
  {
    forall obj | Aggregator.Readable(c, obj) && Aggregator.Framed(c, data, budget, 4 * budget, Aggregator.BodyOf(c, obj))
      ensures obj == a
    {
      Aggregator.SameBodySameObject(c, a, obj);
    }
  }

  ghost predicate Travels(c: Aggregator.Codec, obj: Aggregator.AggregatorObject, budget: int) {
    Aggregator.Readable(c, obj) && |Aggregator.Frame(c, Aggregator.BodyOf(c, obj))| <= budget && |Aggregator.BodyOf(c, obj)| <= 4 * budget
  }

  /** The leader publishes what its complete gather verified; a follower gathers from the mirror alone.
      None: the object cannot be published. Otherwise the follower misses nothing and holds the
      leader's payloads, unless the object is outside the limits of a reader, and then it misses
      everything. */
  method PublishThenGather<P>(c: Aggregator.Codec, rules: Rules<P>, cert: Certificate, t: Transport, retry: bool, budget: int)
    returns (r: Option<CertifiedGather<P>>)
    requires Aggregator.Sound(c) && budget >= 1 && NothingMissing(rules, cert, Verified(rules, cert, t, retry))
    ensures var obj := Aggregator.AggregatorObject(cert.window, Verified(rules, cert, t, retry));
            && (r == None <==> !Aggregator.Serializable(c, obj))
            && (r.Some? && Travels(c, obj, budget) ==>
                  r.value.missing == map[] && r.value.payloads == Payloads(rules, cert, Verified(rules, cert, t, retry), cert.included))
            && (r.Some? && !Travels(c, obj, budget) ==> forall u :: u in cert.included ==> u in r.value.missing)
  {
    var raw := Verified(rules, cert, t, retry);
    var obj := Aggregator.AggregatorObject(cert.window, raw);
    var data := Aggregator.Serialize(c, obj);
    if data.Err? { return None; }
    var mirror := GetAggregatorObject(c, Some(data.value), cert.window, budget);
    FrameTravels(c, obj, data.value, budget, mirror);
    if mirror.Some? {
      forall u | u in cert.included ensures u in raw { CompleteIsVerified(rules, cert, t, retry, u); }
      MirrorServesAll(rules, cert, t, retry, raw);
    } else {
      NothingOffered(rules, cert);
    }
    var g := GatherFromAggregator(rules, cert, mirror);
    if mirror.Some? { CompleteMeansNoneMissing(rules, cert, raw, g.value); } else { AllMissing(rules, cert, g.value); }
    r := Some(g.value);
  }

  lemma FrameTravels(c: Aggregator.Codec, obj: Aggregator.AggregatorObject, data: Bytes, budget: int, mirror: Option<map<int, Bytes>>)
    requires Aggregator.Sound(c) && Aggregator.Serializable(c, obj) && data == Aggregator.Frame(c, Aggregator.BodyOf(c, obj))
    requires mirror.Some? ==>
      var read := Aggregator.AggregatorObject(obj.window, mirror.value);
      Aggregator.Readable(c, read) && Aggregator.Framed(c, data, budget, 4 * budget, Aggregator.BodyOf(c, read))
    requires mirror == None ==> forall o :: Aggregator.Readable(c, o) && o.window == obj.window ==>
      !Aggregator.Framed(c, data, budget, 4 * budget, Aggregator.BodyOf(c, o))
    ensures mirror == if Travels(c, obj, budget) then Some(obj.payloads) else None
  {
    Aggregator.WrittenFrame(c, data, Aggregator.BodyOf(c, obj), budget, 4 * budget);
    if mirror.Some? {
      Aggregator.SameBodySameObject(c, obj, Aggregator.AggregatorObject(obj.window, mirror.value));
    }
  }

  lemma NothingOffered<P>(rules: Rules<P>, cert: Certificate)
    ensures LookupsSucceed(rules, cert, MirrorOnly(None), true)
  {
  }

  lemma CompleteMeansNoneMissing<P>(rules: Rules<P>, cert: Certificate, raw: map<int, Bytes>, g: CertifiedGather<P>)
    requires Accounts(cert, g) && g.payloads == Payloads(rules, cert, raw, cert.included) && NothingMissing(rules, cert, raw)
    ensures g.missing == map[]
  {
    EmptyOrHasKey(g.missing);
  }

  lemma EmptyOrHasKey<V>(m: map<int, V>)
    ensures m == map[] || exists u :: u in m
  {
    if m != map[] { assert Minimum(m.Keys) in m; }
  }

  lemma AllMissing<P>(rules: Rules<P>, cert: Certificate, g: CertifiedGather<P>)
    requires Accounts(cert, g) && g.payloads == Payloads(rules, cert, Verified(rules, cert, MirrorOnly(None), true), cert.included)
    ensures forall u :: u in cert.included ==> u in g.missing
  {
    PayloadsList(rules, cert, Verified(rules, cert, MirrorOnly(None), true), cert.included);
  }
}
