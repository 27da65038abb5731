/** The shard cache under interleaved fetches (mok_core/data/download.py). One prefetch call
    runs a task per wanted shard; every await is a point where another task may run, so a
    run is any enabled sequence of the atomic sections between awaits. */
module ShardCache {
  import opened Prelude

  /** The dataset index: hex leaf digests, with the digest function they were made by. */
  datatype Index = Index(leaves: seq<string>, hash: Bytes -> string)

  /** The file name carries only the first 16 hex digits of the leaf. */
  function NameOf(leaf: string): string {
    if |leaf| <= 16 then leaf else leaf[..16]
  }

  function FileOf(index: Index, i: nat): string
    requires i < |index.leaves|
  {
    NameOf(index.leaves[i])
  }

  datatype Entry = Entry(shard: nat, size: nat)

  /** Resident shards, least recently used first, and the cache directory. */
  datatype Cache = Cache(resident: seq<Entry>, disk: map<string, Bytes>)

  // ---- the ordered dictionary ----

  function Total(r: seq<Entry>): nat {
    if r == [] then 0 else r[0].size + Total(r[1..])
  }

  predicate Has(r: seq<Entry>, i: nat) {
    exists k :: 0 <= k < |r| && r[k].shard == i
  }

  /** The entries whose shard is not in `gone`, in order. */
  function Keep(r: seq<Entry>, gone: set<nat>): (kept: seq<Entry>)
    ensures |kept| <= |r|
    ensures forall e :: e in kept <==> e in r && e.shard !in gone
  {
    if r == [] then []
    else if r[0].shard in gone then Keep(r[1..], gone)
    else [r[0]] + Keep(r[1..], gone)
  }

  function Find(r: seq<Entry>, i: nat): (e: Entry)
    requires Has(r, i)
    ensures e in r && e.shard == i
  {
    if r[0].shard == i then r[0]
    else
      assert Has(r[1..], i) by { var k :| 0 <= k < |r| && r[k].shard == i; assert r[1..][k - 1].shard == i; }
      Find(r[1..], i)
  }

  function Touched(r: seq<Entry>, i: nat): seq<Entry>
    requires Has(r, i)
  {
    Keep(r, {i}) + [Find(r, i)]
  }

  /** next(i for i in resident if i not in pinned) */
  function Victim(r: seq<Entry>, pinned: set<nat>): (v: Option<nat>)
    ensures v.Some? ==> v.value !in pinned && Has(r, v.value)
    ensures v == None ==> forall e :: e in r ==> e.shard in pinned
  {
    if r == [] then None
    else if r[0].shard !in pinned then (assert r[0].shard == r[0].shard; Some(r[0].shard))
    else
      var v := Victim(r[1..], pinned);
      assert v.Some? ==> Has(r, v.value) by {
        if v.Some? { var k :| 0 <= k < |r[1..]| && r[1..][k].shard == v.value; assert r[k + 1].shard == v.value; }
      }
      v
  }

  lemma KeepShrinks(r: seq<Entry>, i: nat)
    requires Has(r, i)
    ensures |Keep(r, {i})| < |r|
    decreases |r|
  {
    if r[0].shard != i {
      var k :| 0 <= k < |r| && r[k].shard == i;
      assert r[1..][k - 1].shard == i;
      KeepShrinks(r[1..], i);
    }
  }

  /** Drop least recently used unpinned shards until within budget; false when the pinned
      ones alone exceed it. */
  function Evict(index: Index, budget: int, pinned: set<nat>, c: Cache): (Cache, bool)
    requires InIndex(index, c)
    decreases |c.resident|
  {
    if Total(c.resident) <= budget then (c, true)
    else match Victim(c.resident, pinned)
      case None => (c, false)
      case Some(v) =>
        KeepShrinks(c.resident, v);
        assert v < |index.leaves| by { var k :| 0 <= k < |c.resident| && c.resident[k].shard == v; assert c.resident[k] in c.resident; }
        Evict(index, budget, pinned, Cache(Keep(c.resident, {v}), c.disk - {FileOf(index, v)}))
  }

  ghost predicate InIndex(index: Index, c: Cache) {
    forall e :: e in c.resident ==> e.shard < |index.leaves|
  }

  // ---- what eviction does ----

  ghost predicate Distinct(r: seq<Entry>) {
    forall j, k :: 0 <= j < k < |r| ==> r[j].shard != r[k].shard
  }

  function Unpinned(r: seq<Entry>, pinned: set<nat>): seq<nat> {
    if r == [] then [] else (if r[0].shard in pinned then [] else [r[0].shard]) + Unpinned(r[1..], pinned)
  }

  function SetOf(s: seq<nat>): set<nat> {
    set i | i in s
  }

  lemma {:induction false} KeepNothing(r: seq<Entry>, gone: set<nat>)
    requires forall e :: e in r ==> e.shard !in gone
    ensures Keep(r, gone) == r
  {
    if r != [] {
      assert r[0] in r;
      KeepNothing(r[1..], gone);
    }
  }

  lemma {:induction false} KeepTwice(r: seq<Entry>, a: set<nat>, b: set<nat>)
    ensures Keep(Keep(r, a), b) == Keep(r, a + b)
  {
    if r != [] {
      KeepTwice(r[1..], a, b);
      if r[0].shard !in a { assert Keep(r, a)[1..] == Keep(r[1..], a); }
    }
  }

  lemma {:induction false} KeepDistinct(r: seq<Entry>, gone: set<nat>)
    requires Distinct(r)
    ensures Distinct(Keep(r, gone))
  {
    if r != [] {
      KeepDistinct(r[1..], gone);
      var rest := Keep(r[1..], gone);
      forall k | 0 <= k < |rest| ensures rest[k].shard != r[0].shard {
        assert rest[k] in rest && rest[k] in r[1..];
        var j :| 0 <= j < |r[1..]| && r[1..][j] == rest[k];
        assert r[1..][j] == r[j + 1];
      }
    }
  }

  lemma {:induction false} VictimIsFirst(r: seq<Entry>, pinned: set<nat>)
    requires Distinct(r)
    ensures var v, u := Victim(r, pinned), Unpinned(r, pinned);
            && (v == None <==> u == [])
            && (v.Some? ==> u[0] == v.value && Unpinned(Keep(r, {v.value}), pinned) == u[1..])
  {
    if r != [] {
      if r[0].shard in pinned {
        VictimIsFirst(r[1..], pinned);
        var v := Victim(r, pinned);
        if v.Some? { UnpinnedKept(r, pinned, v.value); }
      } else {
        TailWithout(r);
      }
    }
  }

  /** A pinned first entry is passed over, before and after an eviction behind it. */
  lemma UnpinnedKept(r: seq<Entry>, pinned: set<nat>, v: nat)
    requires r != [] && r[0].shard in pinned && v !in pinned
    ensures Unpinned(Keep(r, {v}), pinned) == Unpinned(Keep(r[1..], {v}), pinned)
    ensures Unpinned(r, pinned) == Unpinned(r[1..], pinned)
  {
    assert Keep(r, {v})[1..] == Keep(r[1..], {v});
  }

  lemma TailWithout(r: seq<Entry>)
    requires Distinct(r) && r != []
    ensures Keep(r, {r[0].shard}) == r[1..]
  {
    forall e | e in r[1..] ensures e.shard !in {r[0].shard} {
      var j :| 0 <= j < |r[1..]| && r[1..][j] == e;
      assert r[j + 1].shard != r[0].shard;
    }
    KeepNothing(r[1..], {r[0].shard});
  }

  /** n evictions: what is left, and that fewer would not have been enough. */
  ghost predicate MinimalEviction(r: seq<Entry>, u: seq<nat>, budget: int, n: nat, left: seq<Entry>) {
    && n <= |u| && left == Keep(r, SetOf(u[..n]))
    && forall m :: 0 <= m < n ==> Total(Keep(r, SetOf(u[..m]))) > budget
  }

  lemma KeepPrefix(r: seq<Entry>, u: seq<nat>, m: nat)
    requires m < |u|
    ensures Keep(Keep(r, {u[0]}), SetOf(u[1..][..m])) == Keep(r, SetOf(u[..m + 1]))
  {
    KeepTwice(r, {u[0]}, SetOf(u[1..][..m]));
    assert u[..m + 1] == [u[0]] + u[1..][..m];
    assert SetOf(u[..m + 1]) == {u[0]} + SetOf(u[1..][..m]);
  }

  lemma MinimalStep(r: seq<Entry>, u: seq<nat>, budget: int, n: nat, left: seq<Entry>)
    requires u != [] && Total(r) > budget && MinimalEviction(Keep(r, {u[0]}), u[1..], budget, n, left)
    ensures MinimalEviction(r, u, budget, n + 1, left)
  {
    KeepPrefix(r, u, n);
    forall m | 0 <= m < n + 1 ensures Total(Keep(r, SetOf(u[..m]))) > budget {
      if m > 0 { KeepPrefix(r, u, m - 1); } else { KeepNothing(r, SetOf(u[..0])); }
    }
  }

  ghost function Evictions(index: Index, budget: int, pinned: set<nat>, c: Cache): nat
    requires InIndex(index, c)
    decreases |c.resident|
  {
    if Total(c.resident) <= budget then 0
    else match Victim(c.resident, pinned)
      case None => 0
      case Some(v) =>
        KeepShrinks(c.resident, v);
        VictimInIndex(index, c, v);
        1 + Evictions(index, budget, pinned, Cache(Keep(c.resident, {v}), c.disk - {FileOf(index, v)}))
  }

  /** Evictions take the shortest prefix of the unpinned shards in LRU order that brings the
      cache within budget; pinned shards stay, survivors keep their order, and when even all
      the unpinned ones are not enough they are all gone before the call fails. */
  lemma {:induction false} EvictsMinimalPrefix(index: Index, budget: int, pinned: set<nat>, c: Cache)
    requires InIndex(index, c) && Distinct(c.resident)
    ensures var (c', ok) := Evict(index, budget, pinned, c);
            EvictedMinimally(c.resident, Unpinned(c.resident, pinned), budget, Evictions(index, budget, pinned, c), c'.resident, ok)
    decreases |c.resident|
  {
    var r, u := c.resident, Unpinned(c.resident, pinned);
    if Total(r) <= budget || Victim(r, pinned) == None {
      EvictsNone(index, budget, pinned, c);
    } else {
      EvictsOne(index, budget, pinned, c);
      var next := Without(index, c, Victim(r, pinned).value);
      EvictsMinimalPrefix(index, budget, pinned, next);
      EvictedStep(r, u, budget, Evictions(index, budget, pinned, next), Evict(index, budget, pinned, next).0.resident, Evict(index, budget, pinned, next).1);
    }
  }

  /** The shortest prefix of the unpinned shards is gone, all of them if even that is not enough. */
  ghost predicate EvictedMinimally(r: seq<Entry>, u: seq<nat>, budget: int, n: nat, left: seq<Entry>, ok: bool) {
    MinimalEviction(r, u, budget, n, left) && (ok <==> Total(left) <= budget) && (!ok ==> n == |u|)
  }

  lemma EvictedStep(r: seq<Entry>, u: seq<nat>, budget: int, n: nat, left: seq<Entry>, ok: bool)
    requires u != [] && Total(r) > budget && EvictedMinimally(Keep(r, {u[0]}), u[1..], budget, n, left, ok)
    ensures EvictedMinimally(r, u, budget, n + 1, left, ok)
  {
    MinimalStep(r, u, budget, n, left);
  }

  lemma EvictsNone(index: Index, budget: int, pinned: set<nat>, c: Cache)
    requires InIndex(index, c) && Distinct(c.resident) && (Total(c.resident) <= budget || Victim(c.resident, pinned) == None)
    ensures Evict(index, budget, pinned, c) == (c, Total(c.resident) <= budget) && Evictions(index, budget, pinned, c) == 0
    ensures EvictedMinimally(c.resident, Unpinned(c.resident, pinned), budget, 0, c.resident, Total(c.resident) <= budget)
  {
    var u := Unpinned(c.resident, pinned);
    VictimIsFirst(c.resident, pinned);
    KeepNothing(c.resident, SetOf(u[..0]));
  }

  /** The first eviction, and what is left to do. */
  lemma EvictsOne(index: Index, budget: int, pinned: set<nat>, c: Cache)
    requires InIndex(index, c) && Distinct(c.resident) && Total(c.resident) > budget && Victim(c.resident, pinned).Some?
    ensures var v := Victim(c.resident, pinned).value;
            && v < |index.leaves| && Unpinned(c.resident, pinned) != []
            && var next := Without(index, c, v);
            && InIndex(index, next) && Distinct(next.resident) && |next.resident| < |c.resident|
            && next.resident == Keep(c.resident, {Unpinned(c.resident, pinned)[0]})
            && Unpinned(next.resident, pinned) == Unpinned(c.resident, pinned)[1..]
            && Evict(index, budget, pinned, c) == Evict(index, budget, pinned, next)
            && Evictions(index, budget, pinned, c) == 1 + Evictions(index, budget, pinned, next)
  {
    var v := Victim(c.resident, pinned).value;
    VictimIsFirst(c.resident, pinned);
    KeepShrinks(c.resident, v);
    KeepDistinct(c.resident, {v});
    VictimInIndex(index, c, v);
  }

  lemma VictimInIndex(index: Index, c: Cache, v: nat)
    requires InIndex(index, c) && Has(c.resident, v)
    ensures v < |index.leaves|
  {
    var k :| 0 <= k < |c.resident| && c.resident[k].shard == v;
    assert c.resident[k] in c.resident;
  }

  // ---- one prefetch call ----

  datatype Phase =
    | Waiting              // for the semaphore
    | Fetching
    | Writing(data: Bytes) // verified bytes on their way to disk
    | Ready(data: Bytes)   // installed on disk, not yet in the resident table
    | Finished
    | Failed
    | Orphan(data: Bytes)  // cancelled, its write thread still running

  datatype Event = Enter(i: nat) | Fetched(i: nat, answer: Option<Bytes>) | Written(i: nat) | Install(i: nat) | Cancel(i: nat) | LateWrite(i: nat)

  datatype Call = Call(cache: Cache, phases: map<nat, Phase>)

  function Running(phases: map<nat, Phase>): set<nat> {
    set i | i in phases && (phases[i].Fetching? || phases[i].Writing? || phases[i].Ready?)
  }

  predicate AnyFailed(phases: map<nat, Phase>) {
    exists i :: i in phases && (phases[i] == Failed || phases[i].Orphan?)
  }

  function Start(cache: Cache, wanted: set<nat>): Call {
    Call(cache, map i | i in wanted :: Waiting)
  }

  function Install1(index: Index, budget: int, pinned: set<nat>, c: Cache, i: nat, size: nat): (Cache, bool)
    requires InIndex(index, c) && i < |index.leaves|
  {
    Evict(index, budget, pinned, Cache(Keep(c.resident, {i}) + [Entry(i, size)], c.disk))
  }

  /** One atomic section; an event that is not enabled changes nothing. */
  function Next(index: Index, budget: int, slots: int, call: Call, ev: Event): Call
    requires InIndex(index, call.cache) && forall i :: i in call.phases ==> i < |index.leaves|
  {
    if ev.i !in call.phases then call
    else
      var c, i, phases := call.cache, ev.i, call.phases;
      match (ev, phases[i])
      case (Enter(_), Waiting) =>
        if |Running(phases)| >= slots then call
        else if Has(c.resident, i) then Call(c.(resident := Touched(c.resident, i)), phases[i := Finished])
        else Call(c, phases[i := Fetching])
      case (Fetched(_, answer), Fetching) =>
        if answer == None || index.hash(answer.value) != index.leaves[i] then Call(c, phases[i := Failed])
        else Call(c, phases[i := Writing(answer.value)])
      case (Written(_), Writing(data)) => Call(c.(disk := c.disk[FileOf(index, i) := data]), phases[i := Ready(data)])
      case (Install(_), Ready(data)) =>
        var (c', ok) := Install1(index, budget, phases.Keys, c, i, |data|);
        Call(c', phases[i := if ok then Finished else Failed])
      case (Cancel(_), Waiting) => if AnyFailed(phases) then Call(c, phases[i := Failed]) else call
      case (Cancel(_), Fetching) => if AnyFailed(phases) then Call(c, phases[i := Failed]) else call
      case (Cancel(_), Ready(_)) => if AnyFailed(phases) then Call(c, phases[i := Failed]) else call
      case (Cancel(_), Writing(data)) => if AnyFailed(phases) then Call(c, phases[i := Orphan(data)]) else call
      case (LateWrite(_), Orphan(data)) => Call(c.(disk := c.disk[FileOf(index, i) := data]), phases[i := Failed])
      case _ => call
  }

  // ---- the invariant ----

  /** No two shards share a file name. */
  predicate DistinctNames(index: Index) {
    forall i, j :: 0 <= i < j < |index.leaves| ==> FileOf(index, i) != FileOf(index, j)
  }

  ghost predicate OnDisk(index: Index, disk: map<string, Bytes>, i: nat) {
    i < |index.leaves| && FileOf(index, i) in disk && index.hash(disk[FileOf(index, i)]) == index.leaves[i]
  }

  /** Every resident shard has its verified bytes on disk. */
  ghost predicate Safe(index: Index, c: Cache) {
    Distinct(c.resident) && forall e :: e in c.resident ==> OnDisk(index, c.disk, e.shard)
  }

  ghost predicate PhaseOk(index: Index, c: Cache, i: nat, phase: Phase) {
    i < |index.leaves| &&
    match phase
    case Waiting => true
    case Fetching => !Has(c.resident, i)
    case Writing(data) => !Has(c.resident, i) && index.hash(data) == index.leaves[i]
    case Ready(data) => !Has(c.resident, i) && OnDisk(index, c.disk, i)
    case Finished => Has(c.resident, i)
    case Failed => true
    case Orphan(data) => index.hash(data) == index.leaves[i]
  }

  /** `within`: the call began within budget. */
  ghost predicate Good(index: Index, budget: int, within: bool, call: Call) {
    && Safe(index, call.cache)
    && (forall i :: i in call.phases ==> PhaseOk(index, call.cache, i, call.phases[i]))
    && (within ==> AnyFailed(call.phases) || Total(call.cache.resident) <= budget)
  }

  lemma HasKept(r: seq<Entry>, gone: set<nat>, i: nat)
    ensures Has(Keep(r, gone), i) <==> Has(r, i) && i !in gone
  {
    var kept := Keep(r, gone);
    if Has(kept, i) {
      var k :| 0 <= k < |kept| && kept[k].shard == i;
      assert kept[k] in kept && kept[k] in r;
    }
    if Has(r, i) && i !in gone {
      var k :| 0 <= k < |r| && r[k].shard == i;
      assert r[k] in r && r[k] in kept;
    }
  }

  function Without(index: Index, c: Cache, v: nat): Cache
    requires v < |index.leaves|
  {
    Cache(Keep(c.resident, {v}), c.disk - {FileOf(index, v)})
  }

  lemma OneEviction(index: Index, c: Cache, v: nat)
    requires DistinctNames(index) && Safe(index, c) && InIndex(index, c) && v < |index.leaves|
    ensures Safe(index, Without(index, c, v)) && InIndex(index, Without(index, c, v))
    ensures forall i: nat :: Has(Without(index, c, v).resident, i) <==> Has(c.resident, i) && i != v
    ensures forall i: nat :: OnDisk(index, c.disk, i) && i != v ==> OnDisk(index, Without(index, c, v).disk, i)
  {
    var r := Keep(c.resident, {v});
    KeepDistinct(c.resident, {v});
    forall i: nat ensures Has(r, i) <==> Has(c.resident, i) && i != v { HasKept(c.resident, {v}, i); }
    forall e | e in r ensures OnDisk(index, c.disk - {FileOf(index, v)}, e.shard) {
      assert e in c.resident && e.shard != v;
      assert FileOf(index, e.shard) != FileOf(index, v);
    }
  }

  /** Eviction keeps the invariant and every pinned shard. */
  lemma {:induction false} EvictSafe(index: Index, budget: int, pinned: set<nat>, c: Cache)
    requires DistinctNames(index) && Safe(index, c) && InIndex(index, c)
    ensures var (c', ok) := Evict(index, budget, pinned, c);
            && Safe(index, c') && InIndex(index, c') && (ok ==> Total(c'.resident) <= budget)
            && (forall i: nat :: Has(c'.resident, i) ==> Has(c.resident, i))
            && (forall i: nat :: i in pinned && Has(c.resident, i) ==> Has(c'.resident, i))
            && forall i: nat :: OnDisk(index, c.disk, i) && (i in pinned || Has(c'.resident, i)) ==> OnDisk(index, c'.disk, i)
    decreases |c.resident|
  {
    var v := Victim(c.resident, pinned);
    if Total(c.resident) > budget && v.Some? {
      KeepShrinks(c.resident, v.value);
      VictimInIndex(index, c, v.value);
      OneEviction(index, c, v.value);
      EvictSafe(index, budget, pinned, Without(index, c, v.value));
      assert Evict(index, budget, pinned, c) == Evict(index, budget, pinned, Without(index, c, v.value));
    }
  }

  lemma {:induction false} TotalConcat(a: seq<Entry>, b: seq<Entry>)
    ensures Total(a + b) == Total(a) + Total(b)
  {
    if a == [] {
      assert a + b == b;
    } else {
      TotalConcat(a[1..], b);
      assert (a + b)[1..] == a[1..] + b;
    }
  }

  lemma {:induction false} TotalWithout(r: seq<Entry>, i: nat)
    requires Distinct(r)
    ensures Total(Keep(r, {i})) == Total(r) - if Has(r, i) then Find(r, i).size else 0
  {
    if r != [] {
      if r[0].shard == i {
        forall e | e in r[1..] ensures e.shard !in {i} {
          var j :| 0 <= j < |r[1..]| && r[1..][j] == e;
          assert r[j + 1].shard != r[0].shard;
        }
        KeepNothing(r[1..], {i});
      } else {
        TotalWithout(r[1..], i);
        if Has(r, i) {
          var k :| 0 <= k < |r| && r[k].shard == i;
          assert r[1..][k - 1].shard == i;
        }
        if Has(r[1..], i) {
          var k :| 0 <= k < |r[1..]| && r[1..][k].shard == i;
          assert r[k + 1].shard == i;
        }
      }
    }
  }

  /** Moving an entry to the most recently used end keeps everything else. */
  lemma AppendKeeps(r: seq<Entry>, e: Entry)
    requires Distinct(r)
    ensures var r' := Keep(r, {e.shard}) + [e];
            Distinct(r') && (forall i: nat :: Has(r', i) <==> Has(r, i) || i == e.shard)
            && Total(r') == Total(r) - (if Has(r, e.shard) then Find(r, e.shard).size else 0) + e.size
  {
    var kept := Keep(r, {e.shard});
    var r' := kept + [e];
    KeepDistinct(r, {e.shard});
    TotalWithout(r, e.shard);
    TotalConcat(kept, [e]);
    forall k | 0 <= k < |kept| ensures kept[k].shard != e.shard { assert kept[k] in kept; }
    forall i: nat ensures Has(r', i) <==> Has(r, i) || i == e.shard {
      HasKept(r, {e.shard}, i);
      if Has(kept, i) { var k :| 0 <= k < |kept| && kept[k].shard == i; assert r'[k].shard == i; }
      if i == e.shard { assert r'[|kept|].shard == i; }
      if Has(r', i) && i != e.shard { var k :| 0 <= k < |r'| && r'[k].shard == i; assert kept[k].shard == i; }
    }
  }

  lemma EntriesSafe(index: Index, c: Cache)
    requires Distinct(c.resident) && forall i: nat :: Has(c.resident, i) ==> OnDisk(index, c.disk, i)
    ensures Safe(index, c)
  {
    forall e | e in c.resident ensures OnDisk(index, c.disk, e.shard) {
      var k :| 0 <= k < |c.resident| && c.resident[k] == e;
      assert Has(c.resident, e.shard);
    }
  }

  lemma ResidentOnDisk(index: Index, c: Cache, i: nat)
    requires Safe(index, c) && Has(c.resident, i)
    ensures OnDisk(index, c.disk, i)
  {
    var k :| 0 <= k < |c.resident| && c.resident[k].shard == i;
    assert c.resident[k] in c.resident;
  }

  lemma TouchGood(index: Index, budget: int, within: bool, call: Call, i: nat)
    requires Good(index, budget, within, call) && i in call.phases && call.phases[i] == Waiting && Has(call.cache.resident, i)
    ensures Good(index, budget, within, Call(call.cache.(resident := Touched(call.cache.resident, i)), call.phases[i := Finished]))
    ensures forall j: nat :: Has(call.cache.resident, j) ==> Has(Touched(call.cache.resident, i), j)
  {
    var c := call.cache;
    var c' := c.(resident := Touched(c.resident, i));
    AppendKeeps(c.resident, Find(c.resident, i));
    forall j: nat | Has(c'.resident, j) ensures OnDisk(index, c'.disk, j) { ResidentOnDisk(index, c, j); }
    EntriesSafe(index, c');
    FailuresUnchanged(call.phases, i, Finished);
  }

  lemma FailuresUnchanged(phases: map<nat, Phase>, i: nat, phase: Phase)
    requires i in phases && phases[i] != Failed && !phases[i].Orphan?
    ensures AnyFailed(phases[i := phase]) <==> AnyFailed(phases) || phase == Failed || phase.Orphan?
  {
    var after := phases[i := phase];
    if AnyFailed(phases) {
      var j :| j in phases && (phases[j] == Failed || phases[j].Orphan?);
      assert j in after && after[j] == phases[j];
    }
    if phase == Failed || phase.Orphan? { assert i in after && after[i] == phase; }
  }

  /** A verified write replaces a file by verified bytes of the same shard. */
  lemma WriteGood(index: Index, budget: int, within: bool, call: Call, i: nat, data: Bytes, phase: Phase)
    requires DistinctNames(index) && Good(index, budget, within, call) && i in call.phases
    requires (call.phases[i] == Writing(data) && phase == Ready(data)) || (call.phases[i] == Orphan(data) && phase == Failed)
    ensures Good(index, budget, within, Call(call.cache.(disk := call.cache.disk[FileOf(index, i) := data]), call.phases[i := phase]))
  {
    var c := call.cache;
    var c' := c.(disk := c.disk[FileOf(index, i) := data]);
    forall j: nat | OnDisk(index, c.disk, j) || j == i ensures OnDisk(index, c'.disk, j) {}
    if call.phases[i].Writing? {
      FailuresUnchanged(call.phases, i, phase);
    } else {
      assert i in call.phases[i := phase] && call.phases[i := phase][i] == Failed;
    }
  }

  lemma InstalledSafe(index: Index, c: Cache, e: Entry)
    requires Safe(index, c) && InIndex(index, c) && OnDisk(index, c.disk, e.shard)
    ensures var mid := Cache(Keep(c.resident, {e.shard}) + [e], c.disk);
            Safe(index, mid) && InIndex(index, mid) && forall i: nat :: Has(mid.resident, i) <==> Has(c.resident, i) || i == e.shard
  {
    var mid := Cache(Keep(c.resident, {e.shard}) + [e], c.disk);
    AppendKeeps(c.resident, e);
    forall j: nat | Has(mid.resident, j) ensures OnDisk(index, mid.disk, j) {
      if j != e.shard { ResidentOnDisk(index, c, j); }
    }
    EntriesSafe(index, mid);
  }

  lemma EvictKeepsPhase(index: Index, budget: int, pinned: set<nat>, c: Cache, i: nat, phase: Phase)
    requires DistinctNames(index) && Safe(index, c) && InIndex(index, c) && i in pinned && PhaseOk(index, c, i, phase)
    ensures PhaseOk(index, Evict(index, budget, pinned, c).0, i, phase)
  {
    EvictSafe(index, budget, pinned, c);
  }

  lemma InstallGood(index: Index, budget: int, within: bool, call: Call, i: nat, data: Bytes)
    requires DistinctNames(index) && Good(index, budget, within, call) && i in call.phases && call.phases[i] == Ready(data)
    requires InIndex(index, call.cache)
    ensures var (c', ok) := Install1(index, budget, call.phases.Keys, call.cache, i, |data|);
            && Good(index, budget, within, Call(c', call.phases[i := if ok then Finished else Failed]))
            && forall j: nat :: j in call.phases && Has(call.cache.resident, j) ==> Has(c'.resident, j)
  {
    var c, pinned := call.cache, call.phases.Keys;
    var mid := Cache(Keep(c.resident, {i}) + [Entry(i, |data|)], c.disk);
    InstalledSafe(index, c, Entry(i, |data|));
    EvictSafe(index, budget, pinned, mid);
    var phase := if Evict(index, budget, pinned, mid).1 then Finished else Failed;
    FailuresUnchanged(call.phases, i, phase);
    forall j | j in call.phases ensures PhaseOk(index, Evict(index, budget, pinned, mid).0, j, call.phases[i := phase][j]) {
      if j != i { assert PhaseOk(index, c, j, call.phases[j]); }
      EvictKeepsPhase(index, budget, pinned, mid, j, call.phases[i := phase][j]);
    }
  }

  /** A section that only moves its task on. */
  lemma PhaseGood(index: Index, budget: int, within: bool, call: Call, i: nat, phase: Phase)
    requires Good(index, budget, within, call) && i in call.phases && call.phases[i] != Failed && !call.phases[i].Orphan?
    requires PhaseOk(index, call.cache, i, phase)
    ensures Good(index, budget, within, Call(call.cache, call.phases[i := phase]))
  {
    FailuresUnchanged(call.phases, i, phase);
  }

  /** Every atomic section of every task keeps the invariant. */
  lemma NextGood(index: Index, budget: int, within: bool, slots: int, call: Call, ev: Event)
    requires DistinctNames(index) && Good(index, budget, within, call)
    ensures InIndex(index, call.cache)
    ensures Good(index, budget, within, Next(index, budget, slots, call, ev))
    ensures Next(index, budget, slots, call, ev).phases.Keys == call.phases.Keys
    ensures forall i: nat :: i in call.phases && Has(call.cache.resident, i) ==> Has(Next(index, budget, slots, call, ev).cache.resident, i)
  {
    assert InIndex(index, call.cache);
    if ev.i in call.phases {
      var i, phases := ev.i, call.phases;
      match (ev, phases[i])
      case (Enter(_), Waiting) =>
        if Has(call.cache.resident, i) { TouchGood(index, budget, within, call, i); } else { PhaseGood(index, budget, within, call, i, Fetching); }
      case (Fetched(_, answer), Fetching) =>
        PhaseGood(index, budget, within, call, i, Failed);
        if answer.Some? && index.hash(answer.value) == index.leaves[i] { PhaseGood(index, budget, within, call, i, Writing(answer.value)); }
      case (Written(_), Writing(data)) => WriteGood(index, budget, within, call, i, data, Ready(data));
      case (Install(_), Ready(data)) => InstallGood(index, budget, within, call, i, data);
      case (Cancel(_), Waiting) => PhaseGood(index, budget, within, call, i, Failed);
      case (Cancel(_), Fetching) => PhaseGood(index, budget, within, call, i, Failed);
      case (Cancel(_), Ready(_)) => PhaseGood(index, budget, within, call, i, Failed);
      case (Cancel(_), Writing(data)) => PhaseGood(index, budget, within, call, i, Orphan(data));
      case (LateWrite(_), Orphan(data)) => WriteGood(index, budget, within, call, i, data, Failed);
      case _ =>
    }
  }

  // ---- whole calls and whole histories ----

  function RunEvents(index: Index, budget: int, slots: int, call: Call, events: seq<Event>): Call
    requires Runnable(index, call)
    decreases |events|
  {
    if events == [] then call
    else
      NextRunnable(index, budget, slots, call, events[0]);
      RunEvents(index, budget, slots, Next(index, budget, slots, call, events[0]), events[1..])
  }

  ghost predicate Runnable(index: Index, call: Call) {
    InIndex(index, call.cache) && forall i :: i in call.phases ==> i < |index.leaves|
  }

  lemma {:induction false} EvictInIndex(index: Index, budget: int, pinned: set<nat>, c: Cache)
    requires InIndex(index, c)
    ensures InIndex(index, Evict(index, budget, pinned, c).0)
    decreases |c.resident|
  {
    var v := Victim(c.resident, pinned);
    if Total(c.resident) > budget && v.Some? {
      KeepShrinks(c.resident, v.value);
      VictimInIndex(index, c, v.value);
      EvictInIndex(index, budget, pinned, Cache(Keep(c.resident, {v.value}), c.disk - {FileOf(index, v.value)}));
    }
  }

  lemma NextRunnable(index: Index, budget: int, slots: int, call: Call, ev: Event)
    requires Runnable(index, call)
    ensures Runnable(index, Next(index, budget, slots, call, ev))
  {
    if ev.i in call.phases && call.phases[ev.i].Ready? && ev.Install? {
      var size := |call.phases[ev.i].data|;
      EvictInIndex(index, budget, call.phases.Keys, Cache(Keep(call.cache.resident, {ev.i}) + [Entry(ev.i, size)], call.cache.disk));
    }
  }

  /** Under every interleaving of one call: the invariant holds throughout, and a wanted
      shard once resident stays resident to the end. */
  lemma {:induction false} CallKeepsInvariant(index: Index, budget: int, within: bool, slots: int, call: Call, events: seq<Event>)
    requires DistinctNames(index) && Good(index, budget, within, call) && Runnable(index, call)
    ensures var last := RunEvents(index, budget, slots, call, events);
            && Good(index, budget, within, last) && last.phases.Keys == call.phases.Keys
            && forall i: nat :: i in call.phases && Has(call.cache.resident, i) ==> Has(last.cache.resident, i)
    decreases |events|
  {
    if events != [] {
      NextGood(index, budget, within, slots, call, events[0]);
      CallKeepsInvariant(index, budget, within, slots, Next(index, budget, slots, call, events[0]), events[1..]);
    }
  }

  lemma StartGood(index: Index, budget: int, cache: Cache, wanted: set<nat>)
    requires Safe(index, cache) && forall i :: i in wanted ==> i < |index.leaves|
    ensures Good(index, budget, Total(cache.resident) <= budget, Start(cache, wanted)) && Runnable(index, Start(cache, wanted))
  {
  }

  /** A call that began within budget and in which every task finished ends within budget
      with every wanted shard resident and its verified bytes on disk. */
  lemma SuccessfulCall(index: Index, budget: int, slots: int, cache: Cache, wanted: set<nat>, events: seq<Event>)
    requires DistinctNames(index) && Safe(index, cache) && InIndex(index, cache) && Total(cache.resident) <= budget
    requires forall i :: i in wanted ==> i < |index.leaves|
    requires var phases := RunEvents(index, budget, slots, Start(cache, wanted), events).phases;
             forall i :: i in wanted ==> i in phases && phases[i] == Finished
    ensures var last := RunEvents(index, budget, slots, Start(cache, wanted), events).cache;
            Total(last.resident) <= budget && forall i :: i in wanted ==> Has(last.resident, i) && OnDisk(index, last.disk, i)
  {
    StartGood(index, budget, cache, wanted);
    CallKeepsInvariant(index, budget, true, slots, Start(cache, wanted), events);
    var last := RunEvents(index, budget, slots, Start(cache, wanted), events);
    assert last.phases.Keys == wanted;
    forall i | i in wanted ensures Has(last.cache.resident, i) && OnDisk(index, last.cache.disk, i) {
      assert PhaseOk(index, last.cache, i, last.phases[i]);
      ResidentOnDisk(index, last.cache, i);
    }
  }

  datatype Prefetch = Prefetch(wanted: set<nat>, slots: int, events: seq<Event>)

  /** One call after another; a call that asks for a shard outside the index raises before
      it starts. Write threads of an earlier call have ended. */
  function History(index: Index, budget: int, cache: Cache, calls: seq<Prefetch>): Cache
    requires InIndex(index, cache)
    decreases |calls|
  {
    if calls == [] then cache
    else if exists i :: i in calls[0].wanted && i >= |index.leaves| then History(index, budget, cache, calls[1..])
    else
      var call := Start(cache, calls[0].wanted);
      RunRunnable(index, budget, calls[0].slots, call, calls[0].events);
      History(index, budget, RunEvents(index, budget, calls[0].slots, call, calls[0].events).cache, calls[1..])
  }

  lemma {:induction false} RunRunnable(index: Index, budget: int, slots: int, call: Call, events: seq<Event>)
    requires Runnable(index, call)
    ensures Runnable(index, RunEvents(index, budget, slots, call, events))
    decreases |events|
  {
    if events != [] {
      NextRunnable(index, budget, slots, call, events[0]);
      RunRunnable(index, budget, slots, Next(index, budget, slots, call, events[0]), events[1..]);
    }
  }

  const EMPTY_CACHE := Cache([], map[])

  lemma {:induction false} HistorySafe(index: Index, budget: int, cache: Cache, calls: seq<Prefetch>)
    requires DistinctNames(index) && Safe(index, cache) && InIndex(index, cache)
    ensures Safe(index, History(index, budget, cache, calls))
    decreases |calls|
  {
    if calls != [] {
      if exists i :: i in calls[0].wanted && i >= |index.leaves| {
        HistorySafe(index, budget, cache, calls[1..]);
      } else {
        var call := Start(cache, calls[0].wanted);
        StartGood(index, budget, cache, calls[0].wanted);
        CallKeepsInvariant(index, budget, Total(cache.resident) <= budget, calls[0].slots, call, calls[0].events);
        RunRunnable(index, budget, calls[0].slots, call, calls[0].events);
        HistorySafe(index, budget, RunEvents(index, budget, calls[0].slots, call, calls[0].events).cache, calls[1..]);
      }
    }
  }

  // ---- when file names collide ----

  function FetchOne(i: nat, data: Bytes): Prefetch {
    Prefetch({i}, 1, [Enter(i), Fetched(i, Some(data)), Written(i), Install(i)])
  }

  lemma FirstInstall(index: Index, budget: int, i: nat, data: Bytes)
    requires i < |index.leaves| && |data| <= budget
    ensures Next(index, budget, 1, Call(Cache([], map[FileOf(index, i) := data]), map[i := Ready(data)]), Install(i))
         == Call(Cache([Entry(i, |data|)], map[FileOf(index, i) := data]), map[i := Finished])
  {
    assert Keep([], {i}) + [Entry(i, |data|)] == [Entry(i, |data|)];
    assert Total([Entry(i, |data|)]) == |data| + Total([]);
    var phases: map<nat, Phase> := map[i := Ready(data)];
    assert phases[i := Finished] == map[i := Finished];
  }

  lemma FirstFetch(index: Index, budget: int, i: nat, data: Bytes)
    requires i < |index.leaves| && index.hash(data) == index.leaves[i] && |data| <= budget
    ensures Runnable(index, Start(EMPTY_CACHE, {i}))
    ensures RunEvents(index, budget, 1, Start(EMPTY_CACHE, {i}), FetchOne(i, data).events)
         == Call(Cache([Entry(i, |data|)], map[FileOf(index, i) := data]), map[i := Finished])
  {
    var c0 := Start(EMPTY_CACHE, {i});
    assert Running(c0.phases) == {};
    var c1 := Call(EMPTY_CACHE, map[i := Fetching]);
    assert Next(index, budget, 1, c0, Enter(i)) == c1;
    var c2 := Call(EMPTY_CACHE, map[i := Writing(data)]);
    assert Next(index, budget, 1, c1, Fetched(i, Some(data))) == c2;
    var c3 := Call(Cache([], map[FileOf(index, i) := data]), map[i := Ready(data)]);
    assert Next(index, budget, 1, c2, Written(i)) == c3;
    var c4 := Call(Cache([Entry(i, |data|)], map[FileOf(index, i) := data]), map[i := Finished]);
    FirstInstall(index, budget, i, data);
    FourEvents(index, budget, c0, Enter(i), Fetched(i, Some(data)), Written(i), Install(i));
  }

  /** The second shard's write replaces the first one's file, and evicting the first shard
      then removes it. */
  lemma SecondFetch(index: Index, budget: int, i: nat, a: Bytes, j: nat, b: Bytes)
    requires i < |index.leaves| && j < |index.leaves| && i != j && FileOf(index, i) == FileOf(index, j)
    requires index.hash(b) == index.leaves[j] && |b| <= budget < |a| + |b|
    ensures var c := Cache([Entry(i, |a|)], map[FileOf(index, i) := a]);
            && Runnable(index, Start(c, {j}))
            && RunEvents(index, budget, 1, Start(c, {j}), FetchOne(j, b).events) == Call(Cache([Entry(j, |b|)], map[]), map[j := Finished])
  {
    var f, r := FileOf(index, i), [Entry(i, |a|)];
    var c0 := Start(Cache(r, map[f := a]), {j});
    assert Running(c0.phases) == {};
    var c1 := Call(Cache(r, map[f := a]), map[j := Fetching]);
    assert Next(index, budget, 1, c0, Enter(j)) == c1;
    var c2 := Call(Cache(r, map[f := a]), map[j := Writing(b)]);
    assert Next(index, budget, 1, c1, Fetched(j, Some(b))) == c2;
    var c3 := Call(Cache(r, map[f := b]), map[j := Ready(b)]);
    assert Next(index, budget, 1, c2, Written(j)) == c3;
    var c4 := Call(Cache([Entry(j, |b|)], map[]), map[j := Finished]);
    InstallStep(index, budget, i, a, j, b);
    FourEvents(index, budget, c0, Enter(j), Fetched(j, Some(b)), Written(j), Install(j));
  }

  lemma InstallStep(index: Index, budget: int, i: nat, a: Bytes, j: nat, b: Bytes)
    requires i < |index.leaves| && j < |index.leaves| && i != j && FileOf(index, i) == FileOf(index, j)
    requires |b| <= budget < |a| + |b|
    ensures var call := Call(Cache([Entry(i, |a|)], map[FileOf(index, i) := b]), map[j := Ready(b)]);
            Runnable(index, call) && Next(index, budget, 1, call, Install(j)) == Call(Cache([Entry(j, |b|)], map[]), map[j := Finished])
  {
    SecondInstall(index, budget, i, a, j, b);
    var phases: map<nat, Phase> := map[j := Ready(b)];
    assert phases.Keys == {j} && phases[j := Finished] == map[j := Finished];
  }

  lemma SecondInstall(index: Index, budget: int, i: nat, a: Bytes, j: nat, b: Bytes)
    requires i < |index.leaves| && j < |index.leaves| && i != j && FileOf(index, i) == FileOf(index, j)
    requires |b| <= budget < |a| + |b|
    ensures var c := Cache([Entry(i, |a|)], map[FileOf(index, i) := b]);
            InIndex(index, c) && Install1(index, budget, {j}, c, j, |b|) == (Cache([Entry(j, |b|)], map[]), true)
  {
    var c := Cache([Entry(i, |a|)], map[FileOf(index, i) := b]);
    var x, y := Entry(i, |a|), Entry(j, |b|);
    KeepNothing([x], {j});
    assert [x] + [y] == [x, y] && [x, y][1..] == [y] && [y][1..] == [];
    assert Total([x, y]) == |a| + Total([y]) && Total([y]) == |b| + Total([]);
    assert Keep([x, y], {i}) == Keep([y], {i});
    KeepNothing([y], {i});
    assert Victim([x, y], {j}) == Some(i);
    var mid := Cache([x, y], c.disk);
    assert Evict(index, budget, {j}, mid) == Evict(index, budget, {j}, Cache([y], map[])) by {
      assert c.disk - {FileOf(index, i)} == map[];
    }
  }

  lemma FourEvents(index: Index, budget: int, call: Call, a: Event, b: Event, c: Event, d: Event)
    requires Runnable(index, call)
    ensures Runnable(index, Next(index, budget, 1, call, a))
    ensures Runnable(index, Next(index, budget, 1, Next(index, budget, 1, call, a), b))
    ensures Runnable(index, Next(index, budget, 1, Next(index, budget, 1, Next(index, budget, 1, call, a), b), c))
    ensures RunEvents(index, budget, 1, call, [a, b, c, d])
         == Next(index, budget, 1, Next(index, budget, 1, Next(index, budget, 1, Next(index, budget, 1, call, a), b), c), d)
  {
    var c1 := Next(index, budget, 1, call, a);
    NextRunnable(index, budget, 1, call, a);
    var c2 := Next(index, budget, 1, c1, b);
    NextRunnable(index, budget, 1, c1, b);
    var c3 := Next(index, budget, 1, c2, c);
    NextRunnable(index, budget, 1, c2, c);
    assert [a, b, c, d][1..] == [b, c, d] && [b, c, d][1..] == [c, d] && [c, d][1..] == [d] && [d][1..] == [];
    assert RunEvents(index, budget, 1, c3, [d]) == Next(index, budget, 1, c3, d) by { NextRunnable(index, budget, 1, c3, d); }
    assert RunEvents(index, budget, 1, c2, [c, d]) == RunEvents(index, budget, 1, c3, [d]);
    assert RunEvents(index, budget, 1, c1, [b, c, d]) == RunEvents(index, budget, 1, c2, [c, d]);
  }

  lemma SharedNameBreaks(index: Index, i: nat, a: Bytes, j: nat, b: Bytes)
    requires i < |index.leaves| && j < |index.leaves| && i != j && FileOf(index, i) == FileOf(index, j)
    requires index.hash(a) == index.leaves[i] && index.hash(b) == index.leaves[j] && a != [] && b != []
    ensures exists budget, calls {:trigger History(index, budget, EMPTY_CACHE, calls)} :: !Safe(index, History(index, budget, EMPTY_CACHE, calls))
  {
    var budget := if |a| > |b| then |a| else |b|;
    FirstFetch(index, budget, i, a);
    SecondFetch(index, budget, i, a, j, b);
    var calls, c := [FetchOne(i, a), FetchOne(j, b)], Cache([Entry(i, |a|)], map[FileOf(index, i) := a]);
    var last := Cache([Entry(j, |b|)], map[]);
    assert calls[1..] == [FetchOne(j, b)] && calls[1..][1..] == [];
    assert History(index, budget, EMPTY_CACHE, calls) == History(index, budget, c, calls[1..]);
    assert History(index, budget, c, calls[1..]) == History(index, budget, last, []) == last;
    assert last.resident[0] in last.resident;
  }

  /** The promise that every resident shard has its verified bytes on disk holds over all
      histories of calls exactly when no two shards of the index share a file name. `data`
      gives non-empty bytes for every leaf. */
  lemma SafeExactlyWithDistinctNames(index: Index, data: nat -> Bytes)
    requires forall i: nat :: i < |index.leaves| ==> data(i) != [] && index.hash(data(i)) == index.leaves[i]
    ensures DistinctNames(index) <==>
      forall budget, calls {:trigger History(index, budget, EMPTY_CACHE, calls)} :: Safe(index, History(index, budget, EMPTY_CACHE, calls))
  {
    if DistinctNames(index) {
      forall budget, calls ensures Safe(index, History(index, budget, EMPTY_CACHE, calls)) {
        HistorySafe(index, budget, EMPTY_CACHE, calls);
      }
    } else {
      var i, j :| 0 <= i < j < |index.leaves| && FileOf(index, i) == FileOf(index, j);
      SharedNameBreaks(index, i, data(i), j, data(j));
    }
  }

  // ---- the class ----

  datatype PrefetchError = ShardOutOfRange | TaskFailed

  class ShardCache {
    const index: Index
    const maxBytes: int
    var resident: seq<Entry>
    var pinned: set<nat>
    var disk: map<string, Bytes>

    constructor (index: Index, maxBytes: int)
      ensures this.index == index && this.maxBytes == maxBytes && State() == EMPTY_CACHE && pinned == {}
    {
      this.index, this.maxBytes := index, maxBytes;
      resident, pinned, disk := [], {}, map[];
    }

    function State(): Cache
      reads this
    {
      Cache(resident, disk)
    }

    method EvictLocked() returns (ok: bool)
      requires InIndex(index, State())
      modifies this`resident, this`disk
      ensures (State(), ok) == Evict(index, maxBytes, pinned, old(State()))
    {
      while Total(resident) > maxBytes
        invariant InIndex(index, State())
        invariant Evict(index, maxBytes, pinned, State()) == Evict(index, maxBytes, pinned, old(State()))
        decreases |resident|
      {
        var victim := Victim(resident, pinned);
        if victim == None { return false; }
        KeepShrinks(resident, victim.value);
        VictimInIndex(index, State(), victim.value);
        resident := Keep(resident, {victim.value});
        disk := disk - {FileOf(index, victim.value)};
      }
      ok := true;
    }

    /** Local path of an installed shard; touches the LRU order. */
    method PathFor(i: nat) returns (path: Option<string>)
      requires i < |index.leaves|
      modifies this`resident
      ensures path == if Has(old(resident), i) then Some(FileOf(index, i)) else None
      ensures resident == if Has(old(resident), i) then Touched(old(resident), i) else old(resident)
    {
      if !Has(resident, i) { return None; }
      resident := Touched(resident, i);
      path := Some(FileOf(index, i));
    }

    /** The locked section that ends a task. */
    method InstallLocked(i: nat, size: nat) returns (ok: bool)
      requires InIndex(index, State()) && i < |index.leaves|
      modifies this`resident, this`disk
      ensures (State(), ok) == Install1(index, maxBytes, pinned, old(State()), i, size)
    {
      resident := Keep(resident, {i}) + [Entry(i, size)];
      ok := EvictLocked();
    }

    /** One atomic section of one task. */
    method Step(phases: map<nat, Phase>, slots: int, ev: Event) returns (next: map<nat, Phase>)
      requires Runnable(index, Call(State(), phases)) && pinned == phases.Keys
      modifies this`resident, this`disk
      ensures Call(State(), next) == Next(index, maxBytes, slots, Call(old(State()), phases), ev)
    {
      next := phases;
      if ev.i !in phases { return; }
      match (ev, phases[ev.i])
      case (Enter(i), Waiting) =>
        if |Running(phases)| < slots {
          var path := PathFor(i);
          next := phases[i := if path.Some? then Finished else Fetching];
        }
      case (Fetched(i, answer), Fetching) =>
        if answer == None || index.hash(answer.value) != index.leaves[i] {
          next := phases[i := Failed];
        } else {
          next := phases[i := Writing(answer.value)];
        }
      case (Written(i), Writing(data)) =>
        disk := disk[FileOf(index, i) := data];
        next := phases[i := Ready(data)];
      case (Install(i), Ready(data)) =>
        var ok := InstallLocked(i, |data|);
        next := phases[i := if ok then Finished else Failed];
      case (Cancel(i), Waiting) =>
        if AnyFailed(phases) { next := phases[i := Failed]; }
      case (Cancel(i), Fetching) =>
        if AnyFailed(phases) { next := phases[i := Failed]; }
      case (Cancel(i), Ready(_)) =>
        if AnyFailed(phases) { next := phases[i := Failed]; }
      case (Cancel(i), Writing(data)) =>
        if AnyFailed(phases) { next := phases[i := Orphan(data)]; }
      case (LateWrite(i), Orphan(data)) =>
        disk := disk[FileOf(index, i) := data];
        next := phases[i := Failed];
      case _ =>
    }

    /** prefetch under a given interleaving of its tasks. Calls do not overlap, so nothing is
        pinned before or after. */
    method Prefetch(wanted: set<nat>, slots: int, events: seq<Event>) returns (r: Result<set<string>, PrefetchError>)
      requires InIndex(index, State()) && pinned == {}
      modifies this
      ensures pinned == {}
      ensures (exists i :: i in wanted && i >= |index.leaves|) ==> State() == old(State()) && r == Err(ShardOutOfRange)
      ensures (forall i :: i in wanted ==> i < |index.leaves|) ==>
        var start := Start(old(State()), wanted);
        && Runnable(index, start)
        && var end := RunEvents(index, maxBytes, slots, start, events);
        && State() == end.cache
        && (r.Ok? <==> forall i :: i in wanted ==> i in end.phases && end.phases[i] == Finished)
        && (r.Ok? ==> r.value == set i | i in wanted :: FileOf(index, i))
    {
      if exists i :: i in wanted && i >= |index.leaves| { return Err(ShardOutOfRange); }
      pinned := pinned + wanted;
      var phases: map<nat, Phase> := map i | i in wanted :: Waiting;
      ghost var last := RunEvents(index, maxBytes, slots, Call(State(), phases), events);
      for k := 0 to |events|
        invariant pinned == phases.Keys == wanted && Runnable(index, Call(State(), phases))
        invariant RunEvents(index, maxBytes, slots, Call(State(), phases), events[k..]) == last
      {
        NextRunnable(index, maxBytes, slots, Call(State(), phases), events[k]);
        NextKeys(index, maxBytes, slots, Call(State(), phases), events[k]);
        assert events[k..][1..] == events[k + 1..];
        phases := Step(phases, slots, events[k]);
      }
      pinned := pinned - wanted;
      if forall i :: i in wanted ==> i in phases && phases[i] == Finished {
        r := Ok(set i | i in wanted :: FileOf(index, i));
      } else {
        r := Err(TaskFailed);
      }
    }
  }

  lemma NextKeys(index: Index, budget: int, slots: int, call: Call, ev: Event)
    requires Runnable(index, call)
    ensures Next(index, budget, slots, call, ev).phases.Keys == call.phases.Keys
  {
  }
}
