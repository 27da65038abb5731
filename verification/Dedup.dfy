/** dataprep/pipeline/dedup.py:66-133: exact deduplication, one pass with a seen set. The digest of
    a text is a parameter; None stands for a document with nothing but whitespace. */
module Dedup {
  import opened Prelude

  type Text = string
  type Tagged = (string, Text)

  datatype Verdict = Keep | Drop | Empty

  function Tag(source: string, docs: seq<Text>): (r: seq<Tagged>)
    ensures |r| == |docs|
    ensures forall i :: 0 <= i < |r| ==> r[i] == (source, docs[i])
  {
    if docs == [] then [] else [(source, docs[0])] + Tag(source, docs[1..])
  }

  function Texts(s: seq<Tagged>): (r: seq<Text>)
    ensures |r| == |s|
    ensures forall i :: 0 <= i < |r| ==> r[i] == s[i].1
  {
    if s == [] then [] else [s[0].1] + Texts(s[1..])
  }

  predicate SeenIn(digest: Text -> Option<nat>, texts: seq<Text>, d: nat) {
    exists j :: 0 <= j < |texts| && digest(texts[j]) == Some(d)
  }

  /** What happens to a document that comes after `before`. */
  function Judge(digest: Text -> Option<nat>, before: seq<Text>, text: Text): Verdict {
    match digest(text)
    case None => Empty
    case Some(d) => if SeenIn(digest, before, d) then Drop else Keep
  }

  function Verdicts(digest: Text -> Option<nat>, texts: seq<Text>): (r: seq<Verdict>)
    ensures |r| == |texts|
  {
    if texts == [] then [] else
      var n := |texts| - 1;
      Verdicts(digest, texts[..n]) + [Judge(digest, texts[..n], texts[n])]
  }

  lemma {:induction false} VerdictAt(digest: Text -> Option<nat>, texts: seq<Text>, i: nat)
    requires i < |texts|
    ensures Verdicts(digest, texts)[i] == Judge(digest, texts[..i], texts[i])
  {
    var n := |texts| - 1;
    if i < n {
      VerdictAt(digest, texts[..n], i);
      assert texts[..n][..i] == texts[..i];
    }
  }

  /** The surviving documents, in order. */
  function Survivors(s: seq<Tagged>, v: seq<Verdict>): seq<Tagged>
    requires |s| == |v|
  {
    if s == [] then [] else (if v[0] == Keep then [s[0]] else []) + Survivors(s[1..], v[1..])
  }

  function Count(s: seq<Tagged>, v: seq<Verdict>, source: string, verdict: Verdict): nat
    requires |s| == |v|
  {
    if s == [] then 0
    else (if s[0].0 == source && v[0] == verdict then 1 else 0) + Count(s[1..], v[1..], source, verdict)
  }

  lemma {:induction false} SurvivorsConcat(s: seq<Tagged>, v: seq<Verdict>, s': seq<Tagged>, v': seq<Verdict>)
    requires |s| == |v| && |s'| == |v'|
    ensures Survivors(s + s', v + v') == Survivors(s, v) + Survivors(s', v')
  {
    if s == [] {
      assert s + s' == s' && v + v' == v';
    } else {
      SurvivorsConcat(s[1..], v[1..], s', v');
      assert (s + s')[1..] == s[1..] + s' && (v + v')[1..] == v[1..] + v';
      SeqAssoc(if v[0] == Keep then [s[0]] else [], Survivors(s[1..], v[1..]), Survivors(s', v'));
    }
  }

  lemma {:induction false} CountConcat(s: seq<Tagged>, v: seq<Verdict>, s': seq<Tagged>, v': seq<Verdict>, source: string, verdict: Verdict)
    requires |s| == |v| && |s'| == |v'|
    ensures Count(s + s', v + v', source, verdict) == Count(s, v, source, verdict) + Count(s', v', source, verdict)
  {
    if s == [] {
      assert s + s' == s' && v + v' == v';
    } else {
      CountConcat(s[1..], v[1..], s', v', source, verdict);
      assert (s + s')[1..] == s[1..] + s' && (v + v')[1..] == v[1..] + v';
    }
  }

  lemma {:induction false} FirstWithDigest(digest: Text -> Option<nat>, texts: seq<Text>, i: nat)
    requires i < |texts| && digest(texts[i]).Some?
    ensures exists j :: 0 <= j <= i && Verdicts(digest, texts)[j] == Keep && digest(texts[j]) == digest(texts[i])
  {
    VerdictAt(digest, texts, i);
    if Verdicts(digest, texts)[i] == Drop {
      var j :| 0 <= j < |texts[..i]| && digest(texts[..i][j]) == digest(texts[i]);
      assert texts[..i][j] == texts[j];
      FirstWithDigest(digest, texts, j);
    }
  }

  lemma KeptIsNew(digest: Text -> Option<nat>, texts: seq<Text>, i: nat, j: nat)
    requires i < j < |texts| && Verdicts(digest, texts)[j] == Keep
    ensures digest(texts[i]) != digest(texts[j])
  {
    VerdictAt(digest, texts, j);
    assert texts[..j][i] == texts[i];
  }

  /** Survivors have distinct digests, and every digest of the corpus survives, at or before the
      document that carries it. */
  lemma EachDigestSurvivesOnce(digest: Text -> Option<nat>, texts: seq<Text>)
    ensures var v := Verdicts(digest, texts);
            && (forall i, j :: 0 <= i < j < |texts| && v[i] == Keep && v[j] == Keep ==> digest(texts[i]) != digest(texts[j]))
            && forall i :: 0 <= i < |texts| && digest(texts[i]).Some? ==>
                 exists j :: 0 <= j <= i && v[j] == Keep && digest(texts[j]) == digest(texts[i])
  {
    var v := Verdicts(digest, texts);
    forall i, j | 0 <= i < j < |texts| && v[i] == Keep && v[j] == Keep ensures digest(texts[i]) != digest(texts[j]) {
      KeptIsNew(digest, texts, i, j);
    }
    forall i | 0 <= i < |texts| && digest(texts[i]).Some?
      ensures exists j :: 0 <= j <= i && v[j] == Keep && digest(texts[j]) == digest(texts[i])
    {
      FirstWithDigest(digest, texts, i);
    }
  }

  // ---- statistics ----

  function Get(bucket: map<string, nat>, source: string): nat {
    if source in bucket then bucket[source] else 0
  }

  datatype Totals = Totals(kept: map<string, nat>, dropped: map<string, nat>, empty: map<string, nat>) {
    function Of(verdict: Verdict, source: string): nat {
      match verdict
      case Keep => Get(kept, source)
      case Drop => Get(dropped, source)
      case Empty => Get(empty, source)
    }
  }

  /** Summed over some of the sources, in any order. */
  ghost function TotalOver(bucket: map<string, nat>, sources: set<string>): nat {
    if sources == {} then 0
    else
      var s :| s in sources;
      Get(bucket, s) + TotalOver(bucket, sources - {s})
  }

  ghost function Total(bucket: map<string, nat>): nat {
    TotalOver(bucket, bucket.Keys)
  }

  lemma {:induction false} TotalPick(bucket: map<string, nat>, sources: set<string>, s: string)
    requires s in sources
    ensures TotalOver(bucket, sources) == Get(bucket, s) + TotalOver(bucket, sources - {s})
  {
    var t :| t in sources && TotalOver(bucket, sources) == Get(bucket, t) + TotalOver(bucket, sources - {t});
    if t != s {
      TotalPick(bucket, sources - {t}, s);
      TotalPick(bucket, sources - {s}, t);
      assert sources - {t} - {s} == sources - {s} - {t};
    }
  }

  lemma {:induction false} TotalSame(a: map<string, nat>, b: map<string, nat>, sources: set<string>)
    requires forall s :: s in sources ==> Get(a, s) == Get(b, s)
    ensures TotalOver(a, sources) == TotalOver(b, sources)
  {
    if sources != {} {
      var s :| s in sources;
      TotalPick(a, sources, s);
      TotalPick(b, sources, s);
      TotalSame(a, b, sources - {s});
    }
  }

  lemma TotalAdd(bucket: map<string, nat>, s: string, n: nat)
    ensures Total(bucket[s := Get(bucket, s) + n]) == Total(bucket) + n
  {
    var next := bucket[s := Get(bucket, s) + n];
    TotalPick(next, next.Keys, s);
    TotalSame(bucket, next, bucket.Keys - {s});
    assert next.Keys - {s} == bucket.Keys - {s};
    if s in bucket {
      TotalPick(bucket, bucket.Keys, s);
    } else {
      assert bucket.Keys - {s} == bucket.Keys;
    }
  }

  /** Nothing counted exactly when no source has a count. */
  lemma {:induction false} TotalZero(bucket: map<string, nat>, sources: set<string>)
    ensures TotalOver(bucket, sources) == 0 <==> forall s :: s in sources ==> Get(bucket, s) == 0
  {
    if sources != {} {
      var s :| s in sources;
      TotalPick(bucket, sources, s);
      TotalZero(bucket, sources - {s});
    }
  }

  class DedupStats {
    var kept: map<string, nat>
    var dropped: map<string, nat>
    var empty: map<string, nat>

    constructor ()
      ensures Now() == Totals(map[], map[], map[])
    {
      kept, dropped, empty := map[], map[], map[];
    }

    function Now(): Totals reads this {
      Totals(kept, dropped, empty)
    }

    method Add(verdict: Verdict, source: string, n: nat)
      modifies this
      ensures forall q, name :: Now().Of(q, name) == old(Now()).Of(q, name) + if q == verdict && name == source then n else 0
      ensures Total(kept) == old(Total(kept)) + if verdict == Keep then n else 0
    {
      TotalAdd(kept, source, n);
      match verdict
      case Keep => kept := kept[source := Get(kept, source) + n];
      case Drop => dropped := dropped[source := Get(dropped, source) + n];
      case Empty => empty := empty[source := Get(empty, source) + n];
    }

    /** total_kept */
    method TotalKept() returns (total: nat)
      ensures total == Total(kept)
    {
      total := 0;
      var pending := kept.Keys;
      while pending != {}
        invariant pending <= kept.Keys && total + TotalOver(kept, pending) == Total(kept)
        decreases pending
      {
        var s :| s in pending;
        TotalPick(kept, pending, s);
        total := total + Get(kept, s);
        pending := pending - {s};
      }
    }
  }

  /** The whole corpus in examine order. */
  function Stream(sources: seq<(string, seq<Text>)>): seq<Tagged> {
    if sources == [] then [] else Stream(sources[..|sources| - 1]) + Tag(sources[|sources| - 1].0, sources[|sources| - 1].1)
  }

  /** `seen` holds the digests of `texts`. */
  ghost predicate SeenAll(digest: Text -> Option<nat>, texts: seq<Text>, seen: set<nat>) {
    forall d: nat :: d in seen <==> SeenIn(digest, texts, d)
  }

  lemma SeenNext(digest: Text -> Option<nat>, texts: seq<Text>, text: Text, seen: set<nat>)
    requires SeenAll(digest, texts, seen)
    ensures SeenAll(digest, texts + [text], if digest(text).Some? then seen + {digest(text).value} else seen)
  {
    var more := texts + [text];
    forall d: nat ensures SeenIn(digest, more, d) <==> SeenIn(digest, texts, d) || digest(text) == Some(d) {
      if SeenIn(digest, texts, d) {
        var j :| 0 <= j < |texts| && digest(texts[j]) == Some(d);
        assert more[j] == texts[j];
      }
      if digest(text) == Some(d) { assert more[|texts|] == text; }
    }
  }

  lemma NextVerdict(digest: Text -> Option<nat>, s: seq<Tagged>, x: Tagged)
    ensures Texts(s + [x]) == Texts(s) + [x.1]
    ensures Verdicts(digest, Texts(s + [x])) == Verdicts(digest, Texts(s)) + [Judge(digest, Texts(s), x.1)]
  {
    var more := Texts(s + [x]);
    assert more == Texts(s) + [x.1];
    assert more[..|s|] == Texts(s);
  }

  /** The totals grew by the verdicts on `s`. */
  ghost predicate Tallied(s: seq<Tagged>, v: seq<Verdict>, before: Totals, now: Totals)
    requires |s| == |v|
  {
    forall q, source :: now.Of(q, source) == before.Of(q, source) + Count(s, v, source, q)
  }

  lemma TallyNext(s: seq<Tagged>, v: seq<Verdict>, x: Tagged, verdict: Verdict, before: Totals, now: Totals, next: Totals)
    requires |s| == |v| && Tallied(s, v, before, now)
    requires forall q, source :: next.Of(q, source) == now.Of(q, source) + if q == verdict && source == x.0 then 1 else 0
    ensures Tallied(s + [x], v + [verdict], before, next)
  {
    forall q, source ensures next.Of(q, source) == before.Of(q, source) + Count(s + [x], v + [verdict], source, q) {
      CountConcat(s, v, [x], [verdict], source, q);
    }
  }

  lemma SurvivorsNext(s: seq<Tagged>, v: seq<Verdict>, x: Tagged, verdict: Verdict)
    requires |s| == |v|
    ensures Survivors(s + [x], v + [verdict]) == Survivors(s, v) + if verdict == Keep then [x] else []
  {
    SurvivorsConcat(s, v, [x], [verdict]);
    assert Survivors([x][1..], [verdict][1..]) == [];
  }

  /** Everything the loop has done is accounted for by the documents examined so far. */
  ghost predicate Examined(digest: Text -> Option<nat>, s: seq<Tagged>, seen: set<nat>, out: seq<Tagged>, before: Totals, now: Totals) {
    var v := Verdicts(digest, Texts(s));
    && SeenAll(digest, Texts(s), seen)
    && out == Survivors(s, v)
    && Tallied(s, v, before, now)
  }

  lemma ExaminedNext(digest: Text -> Option<nat>, s: seq<Tagged>, seen: set<nat>, out: seq<Tagged>, before: Totals, now: Totals,
                     x: Tagged, seen': set<nat>, out': seq<Tagged>, next: Totals)
    requires Examined(digest, s, seen, out, before, now)
    requires var verdict := Judge(digest, Texts(s), x.1);
             && (forall q, source :: next.Of(q, source) == now.Of(q, source) + if q == verdict && source == x.0 then 1 else 0)
             && out' == out + (if verdict == Keep then [x] else [])
             && seen' == if digest(x.1).Some? then seen + {digest(x.1).value} else seen
    ensures Examined(digest, s + [x], seen', out', before, next)
  {
    var v, verdict := Verdicts(digest, Texts(s)), Judge(digest, Texts(s), x.1);
    NextVerdict(digest, s, x);
    SeenNext(digest, Texts(s), x.1, seen);
    SurvivorsNext(s, v, x, verdict);
    TallyNext(s, v, x, verdict, before, now, next);
  }

  lemma NothingExamined(digest: Text -> Option<nat>, before: Totals)
    ensures Examined(digest, [], {}, [], before, before)
  {
  }

  /** The loop body. */
  method Examine(digest: Text -> Option<nat>, ghost before: seq<Text>, seen: set<nat>, out: seq<Tagged>, x: Tagged, stats: DedupStats)
    returns (seen': set<nat>, out': seq<Tagged>)
    requires SeenAll(digest, before, seen)
    modifies stats
    ensures var verdict := Judge(digest, before, x.1);
            && (forall q, source :: stats.Now().Of(q, source) == old(stats.Now()).Of(q, source) + if q == verdict && source == x.0 then 1 else 0)
            && out' == out + (if verdict == Keep then [x] else [])
            && seen' == if digest(x.1).Some? then seen + {digest(x.1).value} else seen
  {
    seen', out' := seen, out;
    match digest(x.1) {
      case None => stats.Add(Empty, x.0, 1);
      case Some(d) =>
        if d in seen {
          stats.Add(Drop, x.0, 1);
          assert seen + {d} == seen;
        } else {
          seen' := seen + {d};
          stats.Add(Keep, x.0, 1);
          out' := out + [x];
        }
    }
  }

  lemma TakeNext(s0: seq<Tagged>, tagged: seq<Tagged>, k: nat)
    requires k < |tagged|
    ensures s0 + tagged[..k + 1] == (s0 + tagged[..k]) + [tagged[k]]
  {
  }

  method ExamineNext(digest: Text -> Option<nat>, ghost s: seq<Tagged>, ghost before: Totals,
                     seen: set<nat>, out: seq<Tagged>, x: Tagged, stats: DedupStats)
    returns (seen': set<nat>, out': seq<Tagged>)
    requires Examined(digest, s, seen, out, before, stats.Now())
    modifies stats
    ensures Examined(digest, s + [x], seen', out', before, stats.Now())
  {
    ghost var now := stats.Now();
    seen', out' := Examine(digest, Texts(s), seen, out, x, stats);
    ExaminedNext(digest, s, seen, out, before, now, x, seen', out', stats.Now());
  }

  /** The inner loop: one source. */
  method ExamineSource(digest: Text -> Option<nat>, ghost s0: seq<Tagged>, ghost before: Totals,
                       seen0: set<nat>, out0: seq<Tagged>, source: string, docs: seq<Text>, stats: DedupStats)
    returns (seen: set<nat>, out: seq<Tagged>)
    requires Examined(digest, s0, seen0, out0, before, stats.Now())
    modifies stats
    ensures Examined(digest, s0 + Tag(source, docs), seen, out, before, stats.Now())
  {
    ghost var tagged := Tag(source, docs);
    seen, out := seen0, out0;
    assert s0 + tagged[..0] == s0;
    for k := 0 to |docs|
      invariant Examined(digest, s0 + tagged[..k], seen, out, before, stats.Now())
    {
      TakeNext(s0, tagged, k);
      seen, out := ExamineNext(digest, s0 + tagged[..k], before, seen, out, (source, docs[k]), stats);
    }
    assert tagged[..|docs|] == tagged;
  }

  /** dedup_documents */
  method DedupDocuments(digest: Text -> Option<nat>, sources: seq<(string, seq<Text>)>, stats: DedupStats) returns (out: seq<Tagged>)
    modifies stats
    ensures var s := Stream(sources);
            && out == Survivors(s, Verdicts(digest, Texts(s)))
            && Tallied(s, Verdicts(digest, Texts(s)), old(stats.Now()), stats.Now())
  {
    var seen: set<nat> := {};
    out := [];
    NothingExamined(digest, stats.Now());
    for i := 0 to |sources|
      invariant Examined(digest, Stream(sources[..i]), seen, out, old(stats.Now()), stats.Now())
    {
      seen, out := ExamineSource(digest, Stream(sources[..i]), old(stats.Now()), seen, out, sources[i].0, sources[i].1, stats);
      assert sources[..i + 1][..i] == sources[..i];
    }
    assert sources[..|sources|] == sources;
  }
}
