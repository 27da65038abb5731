/** dataprep/pipeline/dedup_parallel.py:66-279: the same deduplication in two passes over the spool
    parts. numpy.unique(return_index=True) is a parameter; the process pools, which keep task order,
    are loops. */
module DedupParallel {
  import opened Prelude
  import opened Dedup
  import Grouping
  import Spool

  datatype Record = Record(parts: seq<seq<Text>>, docs: nat)

  datatype SourceSpool = SourceSpool(name: string, legacy: Record, workers: seq<Record>)

  /** One contiguous run of a source: its legacy stream or one worker's. */
  datatype Slice = Slice(source: string, worker: Option<nat>, record: Record)

  datatype Unit = Unit(slice: Slice, offset: nat)

  datatype Error = Inconsistent(unit: nat) | CountMismatch | NoUnits | KeptMismatch(written: nat, kept: nat)

  function SliceDocs(s: Slice): seq<Text> {
    Flatten(s.record.parts)
  }

  /** iter_source_documents: legacy parts first, then the workers in order. */
  function WorkerDocs(workers: seq<Record>): seq<Text> {
    if workers == [] then [] else WorkerDocs(workers[..|workers| - 1]) + Flatten(workers[|workers| - 1].parts)
  }

  function Documents(sources: seq<SourceSpool>): (r: seq<(string, seq<Text>)>)
    ensures |r| == |sources|
  {
    if sources == [] then [] else
      var s := sources[|sources| - 1];
      Documents(sources[..|sources| - 1]) + [(s.name, Flatten(s.legacy.parts) + WorkerDocs(s.workers))]
  }

  function WorkerSlices(name: string, workers: seq<Record>): seq<Slice> {
    if workers == [] then [] else
      var n := |workers| - 1;
      WorkerSlices(name, workers[..n]) + [Slice(name, Some(n), workers[n])]
  }

  function LegacySlices(s: SourceSpool): seq<Slice> {
    if s.legacy.parts == [] then [] else [Slice(s.name, None, s.legacy)]
  }

  function SourceSlices(s: SourceSpool): seq<Slice> {
    LegacySlices(s) + WorkerSlices(s.name, s.workers)
  }

  function Plan(sources: seq<SourceSpool>): seq<Slice> {
    if sources == [] then [] else
      var s := sources[|sources| - 1];
      Plan(sources[..|sources| - 1]) + SourceSlices(s)
  }

  function DocsIn(slices: seq<Slice>): nat {
    if slices == [] then 0 else DocsIn(slices[..|slices| - 1]) + slices[|slices| - 1].record.docs
  }

  ghost predicate Numbered(units: seq<Unit>, slices: seq<Slice>) {
    |units| == |slices| && forall k :: 0 <= k < |units| ==> units[k] == Unit(slices[k], DocsIn(slices[..k]))
  }

  lemma NumberedNext(units: seq<Unit>, slices: seq<Slice>, s: Slice)
    requires Numbered(units, slices)
    ensures Numbered(units + [Unit(s, DocsIn(slices))], slices + [s])
    ensures DocsIn(slices + [s]) == DocsIn(slices) + s.record.docs
  {
    var more := slices + [s];
    assert more[..|slices|] == slices;
    assert forall k :: 0 <= k < |slices| ==> more[..k] == slices[..k];
  }

  method AddUnit(units: seq<Unit>, slice: Slice, offset: nat, ghost done: seq<Slice>) returns (more: seq<Unit>, next: nat)
    requires Numbered(units, done) && offset == DocsIn(done)
    ensures Numbered(more, done + [slice]) && next == DocsIn(done + [slice])
  {
    NumberedNext(units, done, slice);
    more, next := units + [Unit(slice, offset)], offset + slice.record.docs;
  }

  function SoFar(done: seq<Slice>, s: SourceSpool, w: nat): seq<Slice>
    requires w <= |s.workers|
  {
    done + (LegacySlices(s) + WorkerSlices(s.name, s.workers[..w]))
  }

  lemma SoFarStart(done: seq<Slice>, s: SourceSpool)
    ensures SoFar(done, s, 0) == done + LegacySlices(s)
    ensures SoFar(done, s, |s.workers|) == done + SourceSlices(s)
    ensures done + [] == done
  {
    assert s.workers[..|s.workers|] == s.workers;
  }

  lemma SoFarNext(done: seq<Slice>, s: SourceSpool, w: nat)
    requires w < |s.workers|
    ensures SoFar(done, s, w + 1) == SoFar(done, s, w) + [Slice(s.name, Some(w), s.workers[w])]
  {
    assert s.workers[..w + 1][..w] == s.workers[..w];
  }

  method PlanSource(units0: seq<Unit>, offset0: nat, s: SourceSpool, ghost done: seq<Slice>) returns (units: seq<Unit>, offset: nat)
    requires Numbered(units0, done) && offset0 == DocsIn(done)
    ensures Numbered(units, done + SourceSlices(s)) && offset == DocsIn(done + SourceSlices(s))
  {
    units, offset := units0, offset0;
    SoFarStart(done, s);
    if s.legacy.parts != [] {
      units, offset := AddUnit(units, Slice(s.name, None, s.legacy), offset, done);
    }
    for w := 0 to |s.workers|
      invariant Numbered(units, SoFar(done, s, w)) && offset == DocsIn(SoFar(done, s, w))
    {
      SoFarNext(done, s, w);
      units, offset := AddUnit(units, Slice(s.name, Some(w), s.workers[w]), offset, SoFar(done, s, w));
    }
  }

  /** plan_units */
  method PlanUnits(sources: seq<SourceSpool>) returns (units: seq<Unit>)
    ensures Numbered(units, Plan(sources))
  {
    units := [];
    var offset := 0;
    for i := 0 to |sources|
      invariant Numbered(units, Plan(sources[..i])) && offset == DocsIn(Plan(sources[..i]))
    {
      units, offset := PlanSource(units, offset, sources[i], Plan(sources[..i]));
      assert sources[..i + 1][..i] == sources[..i];
    }
    assert sources[..|sources|] == sources;
  }

  // ---- the plan covers the corpus in examine order ----

  function SliceStream(slices: seq<Slice>): seq<Tagged> {
    if slices == [] then [] else
      var s := slices[|slices| - 1];
      SliceStream(slices[..|slices| - 1]) + Tag(s.source, SliceDocs(s))
  }

  lemma SliceStreamSnoc(a: seq<Slice>, x: Slice)
    ensures SliceStream(a + [x]) == SliceStream(a) + Tag(x.source, SliceDocs(x))
  {
    assert (a + [x])[..|a|] == a;
  }

  lemma {:induction false} SliceStreamConcat(a: seq<Slice>, b: seq<Slice>)
    ensures SliceStream(a + b) == SliceStream(a) + SliceStream(b)
  {
    if b == [] {
      assert a + b == a;
    } else {
      var n := |b| - 1;
      SliceStreamConcat(a, b[..n]);
      SliceStreamSnoc(a + b[..n], b[n]);
      SliceStreamSnoc(b[..n], b[n]);
      LastOff(a, b);
      SeqAssoc(SliceStream(a), SliceStream(b[..n]), Tag(b[n].source, SliceDocs(b[n])));
    }
  }

  lemma TagConcat(source: string, a: seq<Text>, b: seq<Text>)
    ensures Tag(source, a + b) == Tag(source, a) + Tag(source, b)
  {
  }

  lemma {:induction false} WorkersStream(name: string, workers: seq<Record>)
    ensures SliceStream(WorkerSlices(name, workers)) == Tag(name, WorkerDocs(workers))
  {
    if workers != [] {
      var n := |workers| - 1;
      WorkersStream(name, workers[..n]);
      var slices := WorkerSlices(name, workers);
      assert slices[..|slices| - 1] == WorkerSlices(name, workers[..n]);
      TagConcat(name, WorkerDocs(workers[..n]), Flatten(workers[n].parts));
    }
  }

  lemma LegacyStream(s: SourceSpool)
    ensures SliceStream(LegacySlices(s)) == Tag(s.name, Flatten(s.legacy.parts))
  {
    if s.legacy.parts != [] { assert SliceStream(LegacySlices(s)[..0]) == []; }
  }

  /** The units, read in plan order, are the corpus the sequential pass reads. */
  lemma {:induction false} PlanIsExamineOrder(sources: seq<SourceSpool>)
    ensures SliceStream(Plan(sources)) == Stream(Documents(sources))
  {
    if sources != [] {
      var n := |sources| - 1;
      var s := sources[n];
      PlanIsExamineOrder(sources[..n]);
      WorkersStream(s.name, s.workers);
      LegacyStream(s);
      SliceStreamConcat(LegacySlices(s), WorkerSlices(s.name, s.workers));
      SliceStreamConcat(Plan(sources[..n]), SourceSlices(s));
      TagConcat(s.name, Flatten(s.legacy.parts), WorkerDocs(s.workers));
      assert Documents(sources)[..n] == Documents(sources[..n]);
    }
  }

  // ---- pass 1 ----

  /** Digest and empty flag of every document; an empty document has placeholder digest 0. */
  ghost predicate Encoded(digest: Text -> Option<nat>, texts: seq<Text>, digests: seq<nat>, empties: seq<nat>) {
    && |digests| == |empties| == |texts|
    && forall i :: 0 <= i < |texts| ==>
         match digest(texts[i])
         case None => digests[i] == 0 && empties[i] == 1
         case Some(d) => digests[i] == d && empties[i] == 0
  }

  method HashPart(digest: Text -> Option<nat>, part: seq<Text>) returns (digests: seq<nat>, empties: seq<nat>)
    ensures Encoded(digest, part, digests, empties)
  {
    digests, empties := [], [];
    for i := 0 to |part|
      invariant Encoded(digest, part[..i], digests, empties)
    {
      match digest(part[i]) {
        case None => digests, empties := digests + [0], empties + [1];
        case Some(d) => digests, empties := digests + [d], empties + [0];
      }
    }
    assert part[..|part|] == part;
  }

  lemma EncodedConcat(digest: Text -> Option<nat>, a: seq<Text>, da: seq<nat>, ea: seq<nat>, b: seq<Text>, db: seq<nat>, eb: seq<nat>)
    requires Encoded(digest, a, da, ea) && Encoded(digest, b, db, eb)
    ensures Encoded(digest, a + b, da + db, ea + eb)
  {
  }

  function AllParts(slices: seq<Slice>): seq<seq<Text>> {
    if slices == [] then [] else AllParts(slices[..|slices| - 1]) + slices[|slices| - 1].record.parts
  }

  lemma TextsConcat(a: seq<Tagged>, b: seq<Tagged>)
    ensures Texts(a + b) == Texts(a) + Texts(b)
  {
  }

  lemma TextsTag(source: string, docs: seq<Text>)
    ensures Texts(Tag(source, docs)) == docs
  {
  }

  lemma {:induction false} PartsHoldStream(slices: seq<Slice>)
    ensures Flatten(AllParts(slices)) == Texts(SliceStream(slices))
  {
    if slices != [] {
      var n := |slices| - 1;
      PartsHoldStream(slices[..n]);
      FlattenConcat(AllParts(slices[..n]), slices[n].record.parts);
      TextsConcat(SliceStream(slices[..n]), Tag(slices[n].source, SliceDocs(slices[n])));
      TextsTag(slices[n].source, SliceDocs(slices[n]));
    }
  }

  lemma {:induction false} PartsOf(slices: seq<Slice>, k: nat)
    requires k < |slices|
    ensures var before := AllParts(slices[..k]);
            && AllParts(slices[..k + 1]) == before + slices[k].record.parts
            && before + slices[k].record.parts <= AllParts(slices)
    decreases |slices|
  {
    var n := |slices| - 1;
    assert slices[..k + 1][..k] == slices[..k];
    if k < n {
      PartsOf(slices[..n], k);
      assert slices[..n][..k] == slices[..k] && slices[..n][..k + 1] == slices[..k + 1];
    } else {
      assert slices[..k + 1] == slices;
    }
  }

  predicate SliceConsistent(s: Slice) {
    |SliceDocs(s)| == s.record.docs
  }

  /** One task per part file, results joined in task order. */
  method HashTasks(digest: Text -> Option<nat>, tasks: seq<seq<Text>>) returns (digests: seq<nat>, empties: seq<nat>, lens: seq<nat>)
    ensures Encoded(digest, Flatten(tasks), digests, empties)
    ensures |lens| == |tasks| && forall i :: 0 <= i < |tasks| ==> lens[i] == |tasks[i]|
  {
    digests, empties, lens := [], [], [];
    for i := 0 to |tasks|
      invariant Encoded(digest, Flatten(tasks[..i]), digests, empties)
      invariant |lens| == i && forall j :: 0 <= j < i ==> lens[j] == |tasks[j]|
    {
      var d, e := HashPart(digest, tasks[i]);
      EncodedConcat(digest, Flatten(tasks[..i]), digests, empties, tasks[i], d, e);
      FlattenSnoc(tasks[..i], tasks[i]);
      assert tasks[..i + 1] == tasks[..i] + [tasks[i]];
      digests, empties, lens := digests + d, empties + e, lens + [|e|];
    }
    assert tasks[..|tasks|] == tasks;
  }

  /** How many documents the next unit's parts hold. */
  method CountUnit(parts: seq<seq<Text>>, lens: seq<nat>, pi: nat) returns (n: nat)
    requires pi + |parts| <= |lens| && forall j :: 0 <= j < |parts| ==> lens[pi + j] == |parts[j]|
    ensures n == |Flatten(parts)|
  {
    n := 0;
    for j := 0 to |parts|
      invariant n == |Flatten(parts[..j])|
    {
      n := n + lens[pi + j];
      FlattenSnoc(parts[..j], parts[j]);
      assert parts[..j + 1] == parts[..j] + [parts[j]];
    }
    assert parts[..|parts|] == parts;
  }

  /** The documents of the first units, as far as they have been counted and checked. */
  ghost predicate Counted(slices: seq<Slice>, k: nat, counts: seq<nat>, cursor: nat, pi: nat)
    requires k <= |slices|
  {
    && pi == |AllParts(slices[..k])| && cursor == |Flatten(AllParts(slices[..k]))| && |counts| == k
    && forall j :: 0 <= j < k ==> counts[j] == |SliceDocs(slices[j])|
  }

  lemma CountedNext(slices: seq<Slice>, k: nat, counts: seq<nat>, cursor: nat, pi: nat, n: nat)
    requires k < |slices| && Counted(slices, k, counts, cursor, pi) && n == |SliceDocs(slices[k])|
    ensures Counted(slices, k + 1, counts + [n], cursor + n, pi + |slices[k].record.parts|)
  {
    PartsOf(slices, k);
    FlattenConcat(AllParts(slices[..k]), slices[k].record.parts);
  }

  lemma SecondAt<T>(x: seq<T>, y: seq<T>, all: seq<T>, j: nat)
    requires x + y <= all && j < |y|
    ensures |x| + j < |all| && all[|x| + j] == y[j]
  {
    assert (x + y)[|x| + j] == y[j];
  }

  lemma PartAt(slices: seq<Slice>, k: nat)
    requires k < |slices|
    ensures var pi, parts := |AllParts(slices[..k])|, slices[k].record.parts;
            pi + |parts| <= |AllParts(slices)| && forall j :: 0 <= j < |parts| ==> AllParts(slices)[pi + j] == parts[j]
  {
    PartsOf(slices, k);
    forall j | 0 <= j < |slices[k].record.parts|
      ensures |AllParts(slices[..k])| + j < |AllParts(slices)| && AllParts(slices)[|AllParts(slices[..k])| + j] == slices[k].record.parts[j]
    {
      SecondAt(AllParts(slices[..k]), slices[k].record.parts, AllParts(slices), j);
    }
  }

  method CountNext(slices: seq<Slice>, k: nat, ghost counts: seq<nat>, ghost cursor: nat, lens: seq<nat>, pi: nat) returns (n: nat)
    requires k < |slices| && Counted(slices, k, counts, cursor, pi)
    requires |lens| == |AllParts(slices)| && forall i :: 0 <= i < |lens| ==> lens[i] == |AllParts(slices)[i]|
    ensures n == |SliceDocs(slices[k])|
  {
    PartAt(slices, k);
    n := CountUnit(slices[k].record.parts, lens, pi);
  }

  /** The first units are counted and agree with their states. */
  ghost predicate Checked(slices: seq<Slice>, k: nat, counts: seq<nat>, cursor: nat, pi: nat)
    requires k <= |slices|
  {
    Counted(slices, k, counts, cursor, pi) && forall j :: 0 <= j < k ==> SliceConsistent(slices[j])
  }

  /** The loop over the units; the first unit whose parts and state disagree. */
  method CountAll(slices: seq<Slice>, lens: seq<nat>) returns (bad: Option<nat>, counts: seq<nat>, cursor: nat)
    requires |lens| == |AllParts(slices)| && forall i :: 0 <= i < |lens| ==> lens[i] == |AllParts(slices)[i]|
    ensures bad == None ==> exists pi :: Checked(slices, |slices|, counts, cursor, pi)
    ensures bad.Some? ==> bad.value < |slices| && !SliceConsistent(slices[bad.value])
    ensures bad.Some? ==> forall k :: 0 <= k < bad.value ==> SliceConsistent(slices[k])
  {
    counts, cursor := [], 0;
    var pi: nat := 0;
    for k := 0 to |slices|
      invariant Checked(slices, k, counts, cursor, pi)
    {
      var n := CountNext(slices, k, counts, cursor, lens, pi);
      CountedNext(slices, k, counts, cursor, pi, n);
      counts, cursor, pi := counts + [n], cursor + n, pi + |slices[k].record.parts|;
      if n != slices[k].record.docs { return Some(k), counts, cursor; }
    }
    bad := None;
  }

  /** hash_all_parts. It succeeds exactly when every unit holds as many documents as its state says. */
  method HashAllParts(digest: Text -> Option<nat>, slices: seq<Slice>) returns (r: Result<(seq<nat>, seq<nat>, seq<nat>), Error>)
    ensures r.Ok? <==> forall k :: 0 <= k < |slices| ==> SliceConsistent(slices[k])
    ensures r.Ok? ==> Encoded(digest, Texts(SliceStream(slices)), r.value.0, r.value.1)
    ensures r.Ok? ==> |r.value.2| == |slices| && forall k :: 0 <= k < |slices| ==> r.value.2[k] == |SliceDocs(slices[k])|
    ensures r.Err? ==> r.error.Inconsistent? && r.error.unit < |slices| && !SliceConsistent(slices[r.error.unit])
    ensures r.Err? ==> forall k :: 0 <= k < r.error.unit ==> SliceConsistent(slices[k])
  {
    var digests, empties, lens := HashTasks(digest, AllParts(slices));
    PartsHoldStream(slices);
    var bad, counts, cursor := CountAll(slices, lens);
    if bad.Some? { return Err(Inconsistent(bad.value)); }
    assert slices[..|slices|] == slices;
    if cursor != |digests| { return Err(CountMismatch); }
    r := Ok((digests, empties, counts));
  }

  // ---- resolve ----

  /** numpy.unique(return_index=True): where each distinct value first occurs, in some order. */
  ghost predicate FirstIndices(unique: seq<nat> -> seq<nat>) {
    forall v, k: nat :: k in unique(v) <==> FirstIn(v, k)
  }

  ghost predicate FirstIn(v: seq<nat>, k: nat) {
    k < |v| && forall n :: 0 <= n < k ==> v[n] != v[k]
  }

  /** numpy.flatnonzero(empties == 0) */
  ghost predicate NonEmptyPositions(empties: seq<nat>, p: seq<nat>) {
    && (forall k, m :: 0 <= k < m < |p| ==> p[k] < p[m])
    && (forall k :: 0 <= k < |p| ==> p[k] < |empties| && empties[p[k]] == 0)
    && forall i :: 0 <= i < |empties| && empties[i] == 0 ==> i in p
  }

  method FlatNonzero(empties: seq<nat>) returns (p: seq<nat>)
    ensures NonEmptyPositions(empties, p)
  {
    p := [];
    for i := 0 to |empties|
      invariant NonEmptyPositions(empties[..i], p)
    {
      if empties[i] == 0 { p := p + [i]; }
    }
    assert empties[..|empties|] == empties;
  }

  method Gather(digests: seq<nat>, p: seq<nat>) returns (values: seq<nat>)
    requires forall k :: 0 <= k < |p| ==> p[k] < |digests|
    ensures |values| == |p| && forall k :: 0 <= k < |p| ==> values[k] == digests[p[k]]
  {
    values := [];
    for k := 0 to |p|
      invariant |values| == k && forall j :: 0 <= j < k ==> values[j] == digests[p[j]]
    {
      values := values + [digests[p[k]]];
    }
  }

  /** Non-empty, and no earlier non-empty document has the digest. */
  ghost predicate FirstNonEmpty(digests: seq<nat>, empties: seq<nat>, i: nat)
    requires i < |digests| == |empties|
  {
    empties[i] == 0 && forall j :: 0 <= j < i && empties[j] == 0 ==> digests[j] != digests[i]
  }

  /** Document i is marked by one of the first k entries of `first`. */
  ghost predicate Marked(p: seq<nat>, first: seq<nat>, k: nat, i: nat) {
    exists m :: 0 <= m < k && m < |first| && first[m] < |p| && p[first[m]] == i
  }

  ghost predicate Gathered(digests: seq<nat>, empties: seq<nat>, p: seq<nat>, values: seq<nat>) {
    && |digests| == |empties| && NonEmptyPositions(empties, p) && |values| == |p|
    && forall k :: 0 <= k < |p| ==> values[k] == digests[p[k]]
  }

  lemma MarkedThenFirst(digests: seq<nat>, empties: seq<nat>, p: seq<nat>, values: seq<nat>, k: nat)
    requires Gathered(digests, empties, p, values) && FirstIn(values, k)
    ensures FirstNonEmpty(digests, empties, p[k])
  {
    forall j | 0 <= j < p[k] && empties[j] == 0 ensures digests[j] != digests[p[k]] {
      var n :| 0 <= n < |p| && p[n] == j;
      assert n < k;
    }
  }

  lemma FirstThenListed(digests: seq<nat>, empties: seq<nat>, p: seq<nat>, values: seq<nat>, i: nat) returns (k: nat)
    requires Gathered(digests, empties, p, values) && i < |digests| && FirstNonEmpty(digests, empties, i)
    ensures FirstIn(values, k) && p[k] == i
  {
    k :| 0 <= k < |p| && p[k] == i;
  }

  lemma MarkedIsFirst(digests: seq<nat>, empties: seq<nat>, p: seq<nat>, values: seq<nat>, first: seq<nat>, i: nat)
    requires Gathered(digests, empties, p, values) && i < |digests|
    requires forall k: nat :: k in first <==> FirstIn(values, k)
    ensures Marked(p, first, |first|, i) <==> FirstNonEmpty(digests, empties, i)
  {
    if Marked(p, first, |first|, i) {
      var m :| 0 <= m < |first| && first[m] < |p| && p[first[m]] == i;
      assert first[m] in first;
      MarkedThenFirst(digests, empties, p, values, first[m]);
    }
    if FirstNonEmpty(digests, empties, i) {
      var k := FirstThenListed(digests, empties, p, values, i);
      assert k in first;
      var m :| 0 <= m < |first| && first[m] == k;
      assert p[first[m]] == i;
    }
  }

  /** resolve_keep_mask */
  method ResolveKeepMask(digests: seq<nat>, empties: seq<nat>, unique: seq<nat> -> seq<nat>) returns (mask: seq<bool>)
    requires |digests| == |empties| && FirstIndices(unique)
    ensures |mask| == |digests| && forall i :: 0 <= i < |mask| ==> (mask[i] <==> FirstNonEmpty(digests, empties, i))
  {
    var keep := new bool[|digests|](_ => false);
    var p := FlatNonzero(empties);
    var values := Gather(digests, p);
    var first := unique(values);
    assert forall k: nat :: k in first <==> FirstIn(values, k);
    for k := 0 to |first|
      invariant forall i :: 0 <= i < keep.Length ==> (keep[i] <==> Marked(p, first, k, i))
    {
      MarkNext(p, first, k);
      keep[p[first[k]]] := true;
    }
    forall i | 0 <= i < |digests| ensures Marked(p, first, |first|, i) <==> FirstNonEmpty(digests, empties, i) {
      MarkedIsFirst(digests, empties, p, values, first, i);
    }
    mask := keep[..];
  }

  lemma MarkNext(p: seq<nat>, first: seq<nat>, k: nat)
    requires k < |first| && forall m :: m in first ==> m < |p|
    ensures first[k] < |p| && forall i: nat :: Marked(p, first, k + 1, i) <==> Marked(p, first, k, i) || p[first[k]] == i
  {
    assert first[k] in first;
    forall i: nat ensures Marked(p, first, k + 1, i) <==> Marked(p, first, k, i) || p[first[k]] == i {
      if Marked(p, first, k + 1, i) {
        var m :| 0 <= m < k + 1 && m < |first| && first[m] < |p| && p[first[m]] == i;
        if m < k { assert Marked(p, first, k, i); }
      }
      if p[first[k]] == i { assert Marked(p, first, k + 1, i); }
    }
  }

  // ---- the mask is the sequential decision ----

  ghost predicate Matches(v: seq<Verdict>, mask: seq<bool>, empties: seq<nat>) {
    && |v| == |mask| == |empties|
    && forall i :: 0 <= i < |v| ==> (mask[i] <==> v[i] == Keep) && (empties[i] == if v[i] == Empty then 1 else 0)
  }

  lemma MaskIsVerdicts(digest: Text -> Option<nat>, texts: seq<Text>, digests: seq<nat>, empties: seq<nat>, mask: seq<bool>)
    requires Encoded(digest, texts, digests, empties)
    requires |mask| == |digests| && forall i :: 0 <= i < |mask| ==> (mask[i] <==> FirstNonEmpty(digests, empties, i))
    ensures Matches(Verdicts(digest, texts), mask, empties)
  {
    forall i | 0 <= i < |texts|
      ensures mask[i] <==> Verdicts(digest, texts)[i] == Keep
      ensures empties[i] == if Verdicts(digest, texts)[i] == Empty then 1 else 0
    {
      VerdictAt(digest, texts, i);
      if empties[i] == 0 { SeenBefore(digest, texts, digests, empties, i); }
    }
  }

  lemma SeenBefore(digest: Text -> Option<nat>, texts: seq<Text>, digests: seq<nat>, empties: seq<nat>, i: nat)
    requires Encoded(digest, texts, digests, empties) && i < |texts| && empties[i] == 0
    ensures SeenIn(digest, texts[..i], digests[i]) <==> !FirstNonEmpty(digests, empties, i)
  {
    if SeenIn(digest, texts[..i], digests[i]) {
      var j :| 0 <= j < |texts[..i]| && digest(texts[..i][j]) == Some(digests[i]);
      assert digest(texts[j]) == Some(digests[i]);
    }
    if !FirstNonEmpty(digests, empties, i) {
      var j :| 0 <= j < i && empties[j] == 0 && digests[j] == digests[i];
      assert texts[..i][j] == texts[j];
    }
  }

  // ---- statistics ----

  /** The sum of a boolean slice. */
  function Trues(b: seq<bool>): nat {
    if b == [] then 0 else (if b[0] then 1 else 0) + Trues(b[1..])
  }

  function EmptyMask(empties: seq<nat>): (r: seq<bool>)
    ensures |r| == |empties| && forall i :: 0 <= i < |r| ==> (r[i] <==> empties[i] == 1)
  {
    if empties == [] then [] else [empties[0] == 1] + EmptyMask(empties[1..])
  }

  function DropMask(mask: seq<bool>, empties: seq<nat>): (r: seq<bool>)
    requires |mask| == |empties|
    ensures |r| == |empties| && forall i :: 0 <= i < |r| ==> (r[i] <==> !mask[i] && empties[i] == 0)
  {
    if mask == [] then [] else [!mask[0] && empties[0] == 0] + DropMask(mask[1..], empties[1..])
  }

  lemma {:induction false} TruesCount(source: string, docs: seq<Text>, b: seq<bool>, v: seq<Verdict>, name: string, q: Verdict)
    requires |b| == |v| == |docs| && forall i :: 0 <= i < |b| ==> (b[i] <==> v[i] == q)
    ensures Count(Tag(source, docs), v, name, q) == if name == source then Trues(b) else 0
  {
    if docs != [] {
      assert Tag(source, docs)[1..] == Tag(source, docs[1..]);
      TruesCount(source, docs[1..], b[1..], v[1..], name, q);
    }
  }

  lemma {:induction false} TruesKept(source: string, docs: seq<Text>, b: seq<bool>, v: seq<Verdict>)
    requires |b| == |v| == |docs| && forall i :: 0 <= i < |b| ==> (b[i] <==> v[i] == Keep)
    ensures |Survivors(Tag(source, docs), v)| == Trues(b)
  {
    if docs != [] {
      assert Tag(source, docs)[1..] == Tag(source, docs[1..]);
      TruesKept(source, docs[1..], b[1..], v[1..]);
    }
  }

  method TallyUnit(source: string, mask: seq<bool>, empties: seq<nat>, stats: DedupStats, ghost docs: seq<Text>, ghost v: seq<Verdict>)
    requires |docs| == |v| && Matches(v, mask, empties)
    modifies stats
    ensures forall q, name :: stats.Now().Of(q, name) == old(stats.Now()).Of(q, name) + Count(Tag(source, docs), v, name, q)
    ensures Total(stats.kept) == old(Total(stats.kept)) + |Survivors(Tag(source, docs), v)|
  {
    TruesKept(source, docs, mask, v);
    stats.Add(Keep, source, Trues(mask));
    stats.Add(Empty, source, Trues(EmptyMask(empties)));
    stats.Add(Drop, source, Trues(DropMask(mask, empties)));
    forall q, name ensures stats.Now().Of(q, name) == old(stats.Now()).Of(q, name) + Count(Tag(source, docs), v, name, q) {
      match q
      case Keep => TruesCount(source, docs, mask, v, name, q);
      case Empty => TruesCount(source, docs, EmptyMask(empties), v, name, q);
      case Drop => TruesCount(source, docs, DropMask(mask, empties), v, name, q);
    }
  }

  /** The statistics account for the stream so far. */
  ghost predicate TalliedTo(s: seq<Tagged>, v: seq<Verdict>, before: Totals, now: Totals)
    requires |s| == |v|
  {
    Tallied(s, v, before, now) && Total(now.kept) == Total(before.kept) + |Survivors(s, v)|
  }

  lemma TallyNothing(before: Totals)
    ensures TalliedTo([], [], before, before)
  {
  }

  lemma TallySlice(s: seq<Tagged>, v: seq<Verdict>, x: seq<Tagged>, w: seq<Verdict>, before: Totals, now: Totals, next: Totals)
    requires |s| == |v| && |x| == |w| && TalliedTo(s, v, before, now)
    requires forall q, name :: next.Of(q, name) == now.Of(q, name) + Count(x, w, name, q)
    requires Total(next.kept) == Total(now.kept) + |Survivors(x, w)|
    ensures TalliedTo(s + x, v + w, before, next)
  {
    SurvivorsConcat(s, v, x, w);
    forall q, name ensures next.Of(q, name) == before.Of(q, name) + Count(s + x, v + w, name, q) {
      CountConcat(s, v, x, w, name, q);
    }
  }

  /** The stream of the first k slices is the first `cursor` documents, and slice k follows. */
  lemma {:induction false} StreamSlices(slices: seq<Slice>, k: nat)
    requires k < |slices|
    ensures var before, next := SliceStream(slices[..k]), Tag(slices[k].source, SliceDocs(slices[k]));
            && SliceStream(slices[..k + 1]) == before + next
            && |before| + |next| <= |SliceStream(slices)|
    decreases |slices|
  {
    var n := |slices| - 1;
    assert slices[..k + 1][..k] == slices[..k];
    if k < n {
      StreamSlices(slices[..n], k);
      assert slices[..n][..k] == slices[..k] && slices[..n][..k + 1] == slices[..k + 1];
    } else {
      assert slices[..k + 1] == slices;
    }
  }

  lemma MatchesSlice(v: seq<Verdict>, mask: seq<bool>, empties: seq<nat>, a: nat, b: nat)
    requires Matches(v, mask, empties) && a <= b <= |v|
    ensures Matches(v[a..b], mask[a..b], empties[a..b])
    ensures v[..a] + v[a..b] == v[..b]
  {
  }

  /** Per-source statistics, from the arrays the writers will apply. */
  method TallyAll(slices: seq<Slice>, counts: seq<nat>, mask: seq<bool>, empties: seq<nat>, stats: DedupStats, ghost v: seq<Verdict>)
    requires |counts| == |slices| && forall k :: 0 <= k < |slices| ==> counts[k] == |SliceDocs(slices[k])|
    requires |v| == |SliceStream(slices)| && Matches(v, mask, empties)
    modifies stats
    ensures TalliedTo(SliceStream(slices), v, old(stats.Now()), stats.Now())
  {
    var cursor: nat := 0;
    TallyNothing(stats.Now());
    for k := 0 to |slices|
      invariant cursor == |SliceStream(slices[..k])| <= |v|
      invariant TalliedTo(SliceStream(slices[..k]), v[..cursor], old(stats.Now()), stats.Now())
    {
      StreamSlices(slices, k);
      var next := cursor + counts[k];
      MatchesSlice(v, mask, empties, cursor, next);
      ghost var now := stats.Now();
      TallyUnit(slices[k].source, mask[cursor..next], empties[cursor..next], stats, SliceDocs(slices[k]), v[cursor..next]);
      TallySlice(SliceStream(slices[..k]), v[..cursor], Tag(slices[k].source, SliceDocs(slices[k])), v[cursor..next], old(stats.Now()), now, stats.Now());
      cursor := next;
    }
    assert slices[..|slices|] == slices && v[..|v|] == v;
  }

  // ---- pass 2 ----

  function Picked(docs: seq<Text>, mask: seq<bool>): seq<Text>
    requires |docs| == |mask|
  {
    if docs == [] then [] else (if mask[0] then [docs[0]] else []) + Picked(docs[1..], mask[1..])
  }

  lemma {:induction false} PickedSnoc(docs: seq<Text>, mask: seq<bool>, i: nat)
    requires i < |docs| == |mask|
    ensures Picked(docs[..i + 1], mask[..i + 1]) == Picked(docs[..i], mask[..i]) + if mask[i] then [docs[i]] else []
  {
    if i > 0 {
      PickedSnoc(docs[1..], mask[1..], i - 1);
      assert docs[..i][1..] == docs[1..][..i - 1] && mask[..i][1..] == mask[1..][..i - 1];
      assert docs[..i + 1][1..] == docs[1..][..i] && mask[..i + 1][1..] == mask[1..][..i];
    } else {
      assert docs[..1][1..] == [] && docs[..0] == [];
    }
  }

  lemma {:induction false} PickedSurvive(source: string, docs: seq<Text>, mask: seq<bool>, v: seq<Verdict>)
    requires |docs| == |mask| == |v| && forall i :: 0 <= i < |v| ==> (mask[i] <==> v[i] == Keep)
    ensures Tag(source, Picked(docs, mask)) == Survivors(Tag(source, docs), v)
  {
    if docs != [] {
      PickedSurvive(source, docs[1..], mask[1..], v[1..]);
      assert Tag(source, docs)[1..] == Tag(source, docs[1..]);
      TagConcat(source, if mask[0] then [docs[0]] else [], Picked(docs[1..], mask[1..]));
      assert Tag(source, [docs[0]]) == [(source, docs[0])];
    }
  }

  /** _write_unit, into a fresh output spool: what reading that spool back gives. */
  method WriteUnit(unit: Unit, mask: seq<bool>, count: nat) returns (out: seq<Text>, written: nat)
    requires count == |SliceDocs(unit.slice)| && unit.offset + count <= |mask|
    ensures out == Picked(SliceDocs(unit.slice), mask[unit.offset..unit.offset + count]) && written == |out|
  {
    var keep := mask[unit.offset..unit.offset + count];
    var docs := SliceDocs(unit.slice);
    var survivors: seq<Text> := [];
    for i := 0 to |docs|
      invariant survivors == Picked(docs[..i], keep[..i])
    {
      if keep[i] { survivors := survivors + [docs[i]]; }
      PickedSnoc(docs, keep, i);
    }
    assert docs[..|docs|] == docs && keep[..|docs|] == keep;
    var spool := new Spool.Directory();
    var r := Spool.ResumeUntilDone(spool, survivors, None, 100_000, []);
    out := Spool.IterDocuments(spool);
    WholeStream(survivors, 0, 0);
    Grouping.ChunksHold(survivors, 100_000);
    assert survivors[..|survivors|] == survivors;
    written := r.state.docs;
  }

  /** Without a budget a spool takes the whole stream. */
  lemma {:induction false} WholeStream(docs: seq<Text>, d: nat, chars: nat)
    requires d <= |docs|
    ensures Spool.StopAt(docs, d, chars, None) == |docs|
    decreases |docs| - d
  {
    if d < |docs| { WholeStream(docs, d + 1, chars + |docs[d]|); }
  }

  /** The outputs, read back in plan order. */
  function OutputStream(slices: seq<Slice>, outs: seq<seq<Text>>): seq<Tagged>
    requires |slices| == |outs|
  {
    if slices == [] then [] else
      var n := |slices| - 1;
      OutputStream(slices[..n], outs[..n]) + Tag(slices[n].source, outs[n])
  }

  lemma {:induction false} OffsetsAgree(slices: seq<Slice>)
    requires forall k :: 0 <= k < |slices| ==> SliceConsistent(slices[k])
    ensures DocsIn(slices) == |SliceStream(slices)|
  {
    if slices != [] { OffsetsAgree(slices[..|slices| - 1]); }
  }

  lemma OffsetAt(slices: seq<Slice>, k: nat)
    requires k < |slices| && forall i :: 0 <= i < |slices| ==> SliceConsistent(slices[i])
    ensures DocsIn(slices[..k]) == |SliceStream(slices[..k])|
    ensures |SliceStream(slices[..k])| + |SliceDocs(slices[k])| <= |SliceStream(slices)|
  {
    StreamSlices(slices, k);
    OffsetsAgree(slices[..k]);
  }

  /** The outputs of the first k units are the survivors among their documents. */
  ghost predicate Written(slices: seq<Slice>, k: nat, outs: seq<seq<Text>>, v: seq<Verdict>)
    requires k <= |slices|
  {
    var a := |SliceStream(slices[..k])|;
    |outs| == k && a <= |v| && OutputStream(slices[..k], outs) == Survivors(SliceStream(slices[..k]), v[..a])
  }

  lemma WrittenNext(slices: seq<Slice>, k: nat, outs: seq<seq<Text>>, out: seq<Text>, v: seq<Verdict>, mask: seq<bool>, empties: seq<nat>)
    requires k < |slices| && |v| == |SliceStream(slices)| && Matches(v, mask, empties)
    requires Written(slices, k, outs, v)
    requires var a, n := |SliceStream(slices[..k])|, |SliceDocs(slices[k])|;
             a + n <= |mask| && out == Picked(SliceDocs(slices[k]), mask[a..a + n])
    ensures Written(slices, k + 1, outs + [out], v)
  {
    var a, docs := |SliceStream(slices[..k])|, SliceDocs(slices[k]);
    StreamSlices(slices, k);
    MatchesSlice(v, mask, empties, a, a + |docs|);
    PickedSurvive(slices[k].source, docs, mask[a..a + |docs|], v[a..a + |docs|]);
    SurvivorsConcat(SliceStream(slices[..k]), v[..a], Tag(slices[k].source, docs), v[a..a + |docs|]);
    assert slices[..k + 1][..k] == slices[..k] && (outs + [out])[..k] == outs;
  }

  lemma {:induction false} OutputLength(slices: seq<Slice>, outs: seq<seq<Text>>)
    requires |slices| == |outs|
    ensures |OutputStream(slices, outs)| == |Flatten(outs)|
  {
    if slices != [] {
      var n := |slices| - 1;
      OutputLength(slices[..n], outs[..n]);
      assert outs == outs[..n] + [outs[n]];
      FlattenSnoc(outs[..n], outs[n]);
    }
  }

  /** What the writers of the first units have written, and how many documents. */
  ghost predicate WrittenUpto(slices: seq<Slice>, k: nat, outs: seq<seq<Text>>, total: nat, v: seq<Verdict>)
    requires k <= |slices|
  {
    Written(slices, k, outs, v) && total == |Flatten(outs)|
  }

  /** One writer. */
  method WriteNext(units: seq<Unit>, counts: seq<nat>, mask: seq<bool>, k: nat, outs: seq<seq<Text>>, total: nat,
                   ghost slices: seq<Slice>, ghost v: seq<Verdict>, ghost empties: seq<nat>)
    returns (outs': seq<seq<Text>>, total': nat)
    requires Numbered(units, slices) && forall k :: 0 <= k < |slices| ==> SliceConsistent(slices[k])
    requires k < |counts| == |slices| && counts[k] == |SliceDocs(slices[k])|
    requires |v| == |SliceStream(slices)| && Matches(v, mask, empties) && WrittenUpto(slices, k, outs, total, v)
    ensures WrittenUpto(slices, k + 1, outs', total', v)
  {
    OffsetAt(slices, k);
    var out, written := WriteUnit(units[k], mask, counts[k]);
    WrittenNext(slices, k, outs, out, v, mask, empties);
    FlattenSnoc(outs, out);
    outs', total' := outs + [out], total + written;
  }

  /** The writers in plan order, and the sum of what they report. */
  method WriteAll(units: seq<Unit>, counts: seq<nat>, mask: seq<bool>, ghost slices: seq<Slice>, ghost v: seq<Verdict>, ghost empties: seq<nat>)
    returns (outs: seq<seq<Text>>, total: nat)
    requires Numbered(units, slices) && forall k :: 0 <= k < |slices| ==> SliceConsistent(slices[k])
    requires |counts| == |slices| && forall k :: 0 <= k < |slices| ==> counts[k] == |SliceDocs(slices[k])|
    requires |v| == |SliceStream(slices)| && Matches(v, mask, empties)
    ensures |outs| == |slices| && OutputStream(slices, outs) == Survivors(SliceStream(slices), v)
    ensures total == |Survivors(SliceStream(slices), v)|
  {
    outs, total := [], 0;
    for k := 0 to |units|
      invariant WrittenUpto(slices, k, outs, total, v)
    {
      outs, total := WriteNext(units, counts, mask, k, outs, total, slices, v, empties);
    }
    assert slices[..|slices|] == slices && v[..|v|] == v;
    OutputLength(slices, outs);
  }

  function Slices(units: seq<Unit>): (r: seq<Slice>)
    ensures |r| == |units| && forall k :: 0 <= k < |r| ==> r[k] == units[k].slice
  {
    if units == [] then [] else [units[0].slice] + Slices(units[1..])
  }

  ghost predicate AllConsistent(slices: seq<Slice>) {
    forall k :: 0 <= k < |slices| ==> SliceConsistent(slices[k])
  }

  ghost function KeptOf(digest: Text -> Option<nat>, s: seq<Tagged>): seq<Tagged> {
    Survivors(s, Verdicts(digest, Texts(s)))
  }

  /** The first pass, the mask and the statistics. */
  method Resolve(digest: Text -> Option<nat>, unique: seq<nat> -> seq<nat>, slices: seq<Slice>, stats: DedupStats)
    returns (r: Result<(seq<bool>, seq<nat>), Error>, ghost empties: seq<nat>)
    requires FirstIndices(unique)
    modifies stats
    ensures r.Ok? <==> AllConsistent(slices)
    ensures r.Err? ==> r.error.Inconsistent? && stats.Now() == old(stats.Now())
    ensures r.Ok? ==>
      var s := SliceStream(slices);
      var v := Verdicts(digest, Texts(s));
      && Matches(v, r.value.0, empties) && TalliedTo(s, v, old(stats.Now()), stats.Now())
      && |r.value.1| == |slices| && forall k :: 0 <= k < |slices| ==> r.value.1[k] == |SliceDocs(slices[k])|
  {
    empties := [];
    var hashed := HashAllParts(digest, slices);
    if hashed.Err? { return Err(hashed.error), empties; }
    var mask := ResolveKeepMask(hashed.value.0, hashed.value.1, unique);
    ghost var v := Verdicts(digest, Texts(SliceStream(slices)));
    MaskIsVerdicts(digest, Texts(SliceStream(slices)), hashed.value.0, hashed.value.1, mask);
    TallyAll(slices, hashed.value.2, mask, hashed.value.1, stats, v);
    r, empties := Ok((mask, hashed.value.2)), hashed.value.1;
  }

  /** The second pass and the comparison with the statistics. */
  method Rewrite(units: seq<Unit>, counts: seq<nat>, mask: seq<bool>, stats: DedupStats,
                 ghost slices: seq<Slice>, ghost v: seq<Verdict>, ghost empties: seq<nat>, ghost before: Totals)
    returns (r: Result<seq<seq<Text>>, Error>)
    requires Numbered(units, slices) && AllConsistent(slices)
    requires |counts| == |slices| && forall k :: 0 <= k < |slices| ==> counts[k] == |SliceDocs(slices[k])|
    requires |v| == |SliceStream(slices)| && Matches(v, mask, empties) && TalliedTo(SliceStream(slices), v, before, stats.Now())
    ensures var kept := Survivors(SliceStream(slices), v);
            if Total(before.kept) == 0 then r.Ok? && |r.value| == |slices| && OutputStream(slices, r.value) == kept
            else r == Err(KeptMismatch(|kept|, |kept| + Total(before.kept)))
  {
    var outs, written := WriteAll(units, counts, mask, slices, v, empties);
    var kept := stats.TotalKept();
    r := if written != kept then Err(KeptMismatch(written, kept)) else Ok(outs);
  }

  /** How both passes over the units end, told by the units' documents. */
  ghost predicate Ended(digest: Text -> Option<nat>, slices: seq<Slice>, s: seq<Tagged>, before: Totals, now: Totals, r: Result<seq<seq<Text>>, Error>) {
    var n := |KeptOf(digest, s)|;
    if !AllConsistent(slices) then r.Err? && r.error.Inconsistent? && now == before
    else
      && Tallied(s, Verdicts(digest, Texts(s)), before, now)
      && if slices == [] then r == Err(NoUnits)
         else if Total(before.kept) != 0 then r == Err(KeptMismatch(n, n + Total(before.kept)))
         else r.Ok? && |r.value| == |slices| && OutputStream(slices, r.value) == KeptOf(digest, s)
  }

  method BothPasses(digest: Text -> Option<nat>, unique: seq<nat> -> seq<nat>, units: seq<Unit>, slices: seq<Slice>, stats: DedupStats)
    returns (r: Result<seq<seq<Text>>, Error>)
    requires FirstIndices(unique) && Numbered(units, slices)
    modifies stats
    ensures Ended(digest, slices, SliceStream(slices), old(stats.Now()), stats.Now(), r)
  {
    ghost var before := stats.Now();
    var resolved;
    ghost var empties;
    resolved, empties := Resolve(digest, unique, slices, stats);
    if resolved.Err? { return Err(resolved.error); }
    if units == [] { return Err(NoUnits); }
    r := Rewrite(units, resolved.value.1, resolved.value.0, stats, slices, Verdicts(digest, Texts(SliceStream(slices))), empties, before);
  }

  /** dedup_parallel. When it succeeds, the outputs in plan order are the sequence the sequential
      pass yields and the statistics grow by the same amounts. It fails on a spool whose states
      disagree with its parts, on one with no units at all, and, with everything written and
      counted, when the statistics object it was given had counted kept documents before. */
  method DedupParallel(digest: Text -> Option<nat>, unique: seq<nat> -> seq<nat>, sources: seq<SourceSpool>, stats: DedupStats)
    returns (r: Result<seq<seq<Text>>, Error>)
    requires FirstIndices(unique)
    modifies stats
    ensures Ended(digest, Plan(sources), Stream(Documents(sources)), old(stats.Now()), stats.Now(), r)
    ensures r.Ok? <==> Plan(sources) != [] && AllConsistent(Plan(sources)) && forall name :: old(stats.Now()).Of(Keep, name) == 0
  {
    ghost var before := stats.Now();
    var units := PlanUnits(sources);
    var slices := Slices(units);
    assert slices == Plan(sources);
    PlanIsExamineOrder(sources);
    r := BothPasses(digest, unique, units, slices, stats);
    NothingKept(before);
  }

  lemma NothingKept(t: Totals)
    ensures Total(t.kept) == 0 <==> forall name :: t.Of(Keep, name) == 0
  {
    TotalZero(t.kept, t.kept.Keys);
    if Total(t.kept) == 0 {
      forall name ensures t.Of(Keep, name) == 0 {}
    } else {
      assert exists name :: name in t.kept.Keys && Get(t.kept, name) != 0;
      var name :| name in t.kept.Keys && Get(t.kept, name) != 0;
      assert t.Of(Keep, name) != 0;
    }
  }
}
