/** Recovering bucket credentials from commitment history (mok_core/chain/client.py). Chain
    reads are an oracle from block numbers to snapshots that may fail; what a wire string
    decodes to for a uid is a parameter. */
module HistoryWalk {
  import opened Prelude

  /** A commitment slot: its wire string and the block its occupant landed in. */
  datatype Slot<W> = Slot(wire: W, block: Option<int>)

  datatype Chain<!W, !C> = Chain(
    head: Option<(int, map<int, Slot<W>>)>,
    at: int -> Option<map<int, Slot<W>>>,
    bucketOf: (W, int) -> Option<C>,
    lookbackBlocks: int,
    lookbackHops: int)

  function Floor<W, C>(chain: Chain<W, C>): int {
    match chain.head
    case None => 1
    case Some((head, _)) => if head - chain.lookbackBlocks > 1 then head - chain.lookbackBlocks else 1
  }

  // ---- the walk of one uid ----

  /** Hop back from the block in which the current occupant landed. */
  function WalkFrom<W, C>(chain: Chain<W, C>, uid: int, landed: int, hops: nat): Option<C>
    decreases hops
  {
    if hops == 0 || landed - 1 < Floor(chain) then None
    else match chain.at(landed - 1)
      case None => None
      case Some(older) =>
        if uid !in older then None
        else
          var slot := older[uid];
          var creds := chain.bucketOf(slot.wire, uid);
          if creds.Some? then creds
          else if slot.block == None || slot.block.value > landed - 1 then None
          else WalkFrom(chain, uid, slot.block.value, hops - 1)
  }

  function Answer<W, C>(chain: Chain<W, C>, uid: int): Option<C> {
    match chain.head
    case None => None
    case Some((head, snapshot)) =>
      if uid !in snapshot then None
      else
        var slot := snapshot[uid];
        var creds := chain.bucketOf(slot.wire, uid);
        if creds.Some? then creds
        else WalkFrom(chain, uid, if slot.block.Some? then slot.block.value else head, Cap(chain))
  }

  function Cap<W, C>(chain: Chain<W, C>): nat {
    if chain.lookbackHops < 0 then 0 else chain.lookbackHops
  }

  // ---- the batched walk ----

  datatype Walk<C> = Walk(found: map<int, C>, remaining: set<int>, cursor: map<int, int>)

  /** What the state still owes each wanted uid. Uids in `pending` have not yet used the
      current hop; `left` hops remain after it. */
  ghost predicate Accounted<W, C>(chain: Chain<W, C>, wanted: set<int>, st: Walk<C>, pending: set<int>, left: nat) {
    && (forall u :: u in st.found ==> u in wanted && u !in st.remaining && Answer(chain, u) == Some(st.found[u]))
    && (forall u :: u in st.remaining ==> u in wanted && u in st.cursor)
    && (forall u :: u in pending ==> u in st.remaining)
    && (forall u :: u in st.remaining ==> Answer(chain, u) == WalkFrom(chain, u, st.cursor[u], if u in pending then left + 1 else left))
    && (forall u :: u in wanted && u !in st.found && u !in st.remaining ==> Answer(chain, u) == None)
  }

  function Drop<C>(st: Walk<C>, uid: int): Walk<C> {
    st.(remaining := st.remaining - {uid})
  }

  function Find<C>(st: Walk<C>, uid: int, creds: C): Walk<C> {
    st.(found := st.found[uid := creds], remaining := st.remaining - {uid})
  }

  /** One uid at one older snapshot (None: the read failed). */
  function Hop<W, C>(chain: Chain<W, C>, st: Walk<C>, uid: int, block: int, older: Option<map<int, Slot<W>>>): Walk<C> {
    if older == None || uid !in older.value then Drop(st, uid)
    else
      var slot := older.value[uid];
      var creds := chain.bucketOf(slot.wire, uid);
      if creds.Some? then Find(st, uid, creds.value)
      else if slot.block == None || slot.block.value > block then Drop(st, uid)
      else st.(cursor := st.cursor[uid := slot.block.value])
  }

  lemma HopKeeps<W, C>(chain: Chain<W, C>, wanted: set<int>, st: Walk<C>, pending: set<int>, left: nat, uid: int, block: int)
    requires Accounted(chain, wanted, st, pending, left)
    requires uid in pending && st.cursor[uid] - 1 == block >= Floor(chain)
    ensures Accounted(chain, wanted, Hop(chain, st, uid, block, chain.at(block)), pending - {uid}, left)
    ensures forall u :: u in pending && u != uid ==>
      var st' := Hop(chain, st, uid, block, chain.at(block)); u in st'.remaining && u in st'.cursor && st'.cursor[u] == st.cursor[u]
  {
  }

  lemma BelowFloorKeeps<W, C>(chain: Chain<W, C>, wanted: set<int>, st: Walk<C>, left: nat, uid: int)
    requires Accounted(chain, wanted, st, st.remaining, left)
    requires uid in st.remaining && st.cursor[uid] - 1 < Floor(chain)
    ensures Accounted(chain, wanted, Drop(st, uid), Drop(st, uid).remaining, left)
  {
  }

  /** Every uid still walking looks further back than before, those that still owe a look apart. */
  ghost predicate Lower<C>(before: Walk<C>, now: Walk<C>, owing: set<int>) {
    forall u :: u in now.remaining ==> Lowered(before, now, owing, u)
  }

  ghost predicate Lowered<C>(before: Walk<C>, now: Walk<C>, owing: set<int>, u: int) {
    && u in before.remaining && u in before.cursor && u in now.cursor
    && if u in owing then now.cursor[u] == before.cursor[u] else now.cursor[u] < before.cursor[u]
  }

  lemma HopLowers<W, C>(chain: Chain<W, C>, before: Walk<C>, st: Walk<C>, owing: set<int>, uid: int, block: int)
    requires Lower(before, st, owing) && uid in owing && uid in st.remaining && st.cursor[uid] - 1 == block
    ensures Lower(before, Hop(chain, st, uid, block, chain.at(block)), owing - {uid})
  {
    var now := Hop(chain, st, uid, block, chain.at(block));
    forall u | u in now.remaining ensures Lowered(before, now, owing - {uid}, u) { assert Lowered(before, st, owing, u); }
  }

  /** How far above the floor the uids still walking have got: 0 when none is left. */
  ghost function Height(floor: int, uids: set<int>, cursor: map<int, int>): nat
    requires forall u :: u in uids ==> u in cursor
  {
    if uids == {} then 0
    else
      var u := Minimum(uids);
      var h, rest := if cursor[u] > floor then cursor[u] - floor else 0, Height(floor, uids - {u}, cursor);
      if h + 1 > rest then h + 1 else rest
  }

  lemma {:induction false} HeightBounds(floor: int, uids: set<int>, cursor: map<int, int>, u: int)
    requires (forall v :: v in uids ==> v in cursor) && u in uids
    ensures Height(floor, uids, cursor) >= 1 && Height(floor, uids, cursor) > cursor[u] - floor
  {
    var m := Minimum(uids);
    if u != m { HeightBounds(floor, uids - {m}, cursor, u); }
  }

  /** The height falls with every round in which each uid still walking went lower and is not yet
      below the floor. */
  lemma {:induction false} HeightFalls(floor: int, uids: set<int>, before: map<int, int>, all: set<int>, cursor: map<int, int>)
    requires (forall u :: u in all ==> u in before) && all != {}
    requires forall u :: u in uids ==> u in all && u in cursor && u in before && cursor[u] < before[u] && before[u] > floor
    ensures Height(floor, uids, cursor) < Height(floor, all, before)
  {
    if uids == {} {
      HeightBounds(floor, all, before, Minimum(all));
    } else {
      var u := Minimum(uids);
      HeightFalls(floor, uids - {u}, before, all, cursor);
      HeightBounds(floor, all, before, u);
    }
  }

  /** Midway through a shared read: the uids still owing have not moved. */
  ghost predicate Reading<W, C>(chain: Chain<W, C>, wanted: set<int>, before: Walk<C>, st0: Walk<C>, st: Walk<C>, owing: set<int>, left: nat,
                                cache: map<int, C>, cache0: map<int, C>) {
    && Accounted(chain, wanted, st, owing, left) && cache == cache0 + st.found && Lower(before, st, owing)
    && forall u :: u in owing ==> u in st.cursor && u in st0.cursor && st.cursor[u] == st0.cursor[u]
  }

  class ChainClient<C> {
    var bucketCache: map<int, C>

    constructor ()
      ensures bucketCache == map[]
    {
      bucketCache := map[];
    }

    /** The slots at head: settle uids whose live slot is a bucket or empty. */
    method ReadHead<W>(chain: Chain<W, C>, wanted: set<int>, head: int, snapshot: map<int, Slot<W>>) returns (st: Walk<C>)
      requires chain.head == Some((head, snapshot))
      modifies this
      ensures Accounted(chain, wanted, st, {}, Cap(chain))
      ensures bucketCache == old(bucketCache) + st.found
    {
      st := Walk(map[], wanted, map[]);
      var todo := wanted;
      while todo != {}
        invariant todo <= st.remaining <= wanted
        invariant forall u :: u in st.found ==> u in wanted && u !in st.remaining && Answer(chain, u) == Some(st.found[u])
        invariant forall u :: u in st.remaining && u !in todo ==> u in st.cursor && Answer(chain, u) == WalkFrom(chain, u, st.cursor[u], Cap(chain))
        invariant forall u :: u in wanted && u !in st.found && u !in st.remaining ==> Answer(chain, u) == None
        invariant bucketCache == old(bucketCache) + st.found
        decreases todo
      {
        var uid := Minimum(todo);
        todo := todo - {uid};
        if uid !in snapshot {
          st := Drop(st, uid);
        } else {
          var slot := snapshot[uid];
          var creds := chain.bucketOf(slot.wire, uid);
          if creds.Some? {
            st := Find(st, uid, creds.value);
            bucketCache := bucketCache[uid := creds.value];
          } else {
            st := st.(cursor := st.cursor[uid := if slot.block.Some? then slot.block.value else head]);
          }
        }
      }
    }

    /** Group the uids still walking by the block they look at next; drop those below the floor. */
    method Targets<W>(chain: Chain<W, C>, ghost wanted: set<int>, st0: Walk<C>, ghost left: nat) returns (st: Walk<C>, targets: map<int, set<int>>)
      requires Accounted(chain, wanted, st0, st0.remaining, left)
      ensures st.remaining <= st0.remaining && st.cursor == st0.cursor
      ensures Accounted(chain, wanted, st, st.remaining, left) && st.found == st0.found
      ensures Grouped(Floor(chain), st, {}, targets)
    {
      st, targets := st0, map[];
      var todo := st.remaining;
      while todo != {}
        invariant todo <= st.remaining <= st0.remaining && st.found == st0.found && st.cursor == st0.cursor
        invariant Accounted(chain, wanted, st, st.remaining, left)
        invariant Grouped(Floor(chain), st, todo, targets)
        decreases todo
      {
        var uid := Minimum(todo);
        var block := st.cursor[uid] - 1;
        if block < Floor(chain) {
          BelowFloorKeeps(chain, wanted, st, left, uid);
          GroupDrop(Floor(chain), st, todo, targets, uid);
          st := Drop(st, uid);
        } else {
          GroupJoin(Floor(chain), st, todo, targets, uid);
          targets := Joined(targets, block, uid);
        }
        todo := todo - {uid};
      }
    }

    /** One shared read of an older block for all the uids that look at it. */
    method ReadBlock<W>(chain: Chain<W, C>, ghost wanted: set<int>, st0: Walk<C>, ghost pending: set<int>, ghost left: nat, block: int, uids: set<int>,
                        ghost cache0: map<int, C>, ghost before: Walk<C>) returns (st: Walk<C>)
      requires Accounted(chain, wanted, st0, pending, left)
      requires block >= Floor(chain) && forall u :: u in uids ==> u in pending && st0.cursor[u] - 1 == block
      requires bucketCache == cache0 + st0.found && Lower(before, st0, pending)
      modifies this
      ensures Accounted(chain, wanted, st, pending - uids, left) && Lower(before, st, pending - uids)
      ensures forall u :: u in pending - uids ==> st.cursor[u] == st0.cursor[u]
      ensures bucketCache == cache0 + st.found
    {
      st := st0;
      var older := chain.at(block);
      var todo := uids;
      ghost var owing := pending;
      while todo != {}
        invariant todo <= uids && owing == pending - (uids - todo)
        invariant Reading(chain, wanted, before, st0, st, owing, left, bucketCache, cache0)
        decreases todo
      {
        var uid := Minimum(todo);
        HopKeeps(chain, wanted, st, owing, left, uid, block);
        HopLowers(chain, before, st, owing, uid, block);
        st := HopOne(chain, st, uid, block, older, cache0);
        owing := owing - {uid};
        todo := todo - {uid};
      }
      assert owing == pending - uids;
    }

    /** The inner loop body. */
    method HopOne<W>(chain: Chain<W, C>, st0: Walk<C>, uid: int, block: int, older: Option<map<int, Slot<W>>>, ghost cache0: map<int, C>) returns (st: Walk<C>)
      requires bucketCache == cache0 + st0.found
      modifies this
      ensures st == Hop(chain, st0, uid, block, older) && bucketCache == cache0 + st.found
    {
      st := st0;
      if older == None || uid !in older.value {
        st := Drop(st, uid);
      } else {
        var slot := older.value[uid];
        var creds := chain.bucketOf(slot.wire, uid);
        if creds.Some? {
          st := Find(st, uid, creds.value);
          bucketCache := bucketCache[uid := creds.value];
        } else if slot.block == None || slot.block.value > block {
          st := Drop(st, uid);
        } else {
          st := st.(cursor := st.cursor[uid := slot.block.value]);
        }
      }
    }

    /** One hop of everybody: each block at most once. */
    method HopAll<W>(chain: Chain<W, C>, ghost wanted: set<int>, st0: Walk<C>, ghost left: nat, targets: map<int, set<int>>, ghost cache0: map<int, C>) returns (st: Walk<C>)
      requires Accounted(chain, wanted, st0, st0.remaining, left) && Grouped(Floor(chain), st0, {}, targets)
      requires bucketCache == cache0 + st0.found
      modifies this
      ensures Accounted(chain, wanted, st, {}, left) && Lower(st0, st, {})
      ensures bucketCache == cache0 + st.found
    {
      st := st0;
      var blocks := targets.Keys;
      ghost var pending := st0.remaining;
      while blocks != {}
        invariant blocks <= targets.Keys && pending <= st0.remaining
        invariant Owing(st0, blocks, pending)
        invariant Accounted(chain, wanted, st, pending, left) && Lower(st0, st, pending)
        invariant forall u :: u in pending ==> st.cursor[u] == st0.cursor[u]
        invariant bucketCache == cache0 + st.found
        decreases blocks
      {
        var block := Minimum(blocks);
        var uids := targets[block];
        TargetUids(Floor(chain), st0, targets, blocks, pending, block);
        st := ReadBlock(chain, wanted, st, pending, left, block, uids, cache0, st0);
        pending := pending - uids;
        blocks := blocks - {block};
      }
      assert forall u :: u in pending ==> false;
      assert pending == {};
    }

    /** The batched walk answers every wanted uid as that uid's own walk does, and caches
        exactly what it found. Each round takes every uid still walking further back, so the
        loop ends without its hop counter. */
    method RecoverBucketsFromHistory<W>(chain: Chain<W, C>, wanted: set<int>) returns (found: map<int, C>)
      modifies this
      ensures forall u :: u in wanted ==> Answer(chain, u) == if u in found then Some(found[u]) else None
      ensures forall u :: u in found ==> u in wanted
      ensures bucketCache == old(bucketCache) + found
    {
      found := map[];
      if wanted == {} || chain.head == None { return; }
      var (head, snapshot) := chain.head.value;
      ghost var cache0 := bucketCache;
      var st := ReadHead(chain, wanted, head, snapshot);
      var hops := 0;
      ghost var left := Cap(chain);
      while st.remaining != {} && hops < chain.lookbackHops
        invariant 0 <= hops <= Cap(chain) && left == Cap(chain) - hops
        invariant Accounted(chain, wanted, st, {}, left)
        invariant bucketCache == cache0 + st.found
        decreases Height(Floor(chain), st.remaining, st.cursor)
      {
        ghost var before := st;
        hops := hops + 1;
        left := left - 1;
        var targets;
        SpendHop(chain, wanted, st, left);
        st, targets := Targets(chain, wanted, st, left);
        ghost var grouped := st;
        st := HopAll(chain, wanted, st, left, targets, cache0);
        RoundFalls(Floor(chain), before, grouped, targets, st);
      }
      found := st.found;
    }
  }

  /** The uid sits in the group of the block it looks at. */
  ghost predicate InGroup<C>(floor: int, st: Walk<C>, targets: map<int, set<int>>, u: int) {
    u in st.cursor && st.cursor[u] - 1 >= floor && st.cursor[u] - 1 in targets && u in targets[st.cursor[u] - 1]
  }

  /** The uid looks at block b and is done grouping. */
  ghost predicate LooksAt<C>(st: Walk<C>, todo: set<int>, b: int, u: int) {
    u in st.remaining && u !in todo && u in st.cursor && st.cursor[u] - 1 == b
  }

  /** The uids outside `todo` that still walk sit in the group of the block they look at. */
  ghost predicate Grouped<C>(floor: int, st: Walk<C>, todo: set<int>, targets: map<int, set<int>>) {
    && (forall u :: u in st.remaining ==> u in st.cursor)
    && (forall u :: u in st.remaining && u !in todo ==> InGroup(floor, st, targets, u))
    && (forall b :: b in targets ==> targets[b] != {})
    && forall b, u :: b in targets && u in targets[b] ==> LooksAt(st, todo, b, u)
  }

  lemma GroupDrop<C>(floor: int, st: Walk<C>, todo: set<int>, targets: map<int, set<int>>, uid: int)
    requires Grouped(floor, st, todo, targets) && uid in todo
    ensures Grouped(floor, Drop(st, uid), todo - {uid}, targets)
  {
    var st', todo' := Drop(st, uid), todo - {uid};
    forall u | u in st'.remaining && u !in todo' ensures InGroup(floor, st', targets, u) {
      assert InGroup(floor, st, targets, u);
    }
    forall b, u | b in targets && u in targets[b] ensures LooksAt(st', todo', b, u) {
      assert LooksAt(st, todo, b, u);
    }
  }

  /** The groups with one uid more. */
  function Joined(targets: map<int, set<int>>, block: int, uid: int): map<int, set<int>> {
    targets[block := (if block in targets then targets[block] else {}) + {uid}]
  }

  lemma GroupJoin<C>(floor: int, st: Walk<C>, todo: set<int>, targets: map<int, set<int>>, uid: int)
    requires Grouped(floor, st, todo, targets) && uid in todo && uid in st.remaining && st.cursor[uid] - 1 >= floor
    ensures Grouped(floor, st, todo - {uid}, Joined(targets, st.cursor[uid] - 1, uid))
  {
    var block, todo' := st.cursor[uid] - 1, todo - {uid};
    var targets' := Joined(targets, block, uid);
    forall u | u in st.remaining && u !in todo' ensures InGroup(floor, st, targets', u) {
      if u != uid { assert InGroup(floor, st, targets, u); }
    }
    forall b | b in targets' ensures targets'[b] != {} {
      if b == block { assert uid in targets'[b]; }
    }
    forall b, u | b in targets' && u in targets'[b] ensures LooksAt(st, todo', b, u) {
      if b != block || u != uid { assert b in targets && u in targets[b] && LooksAt(st, todo, b, u); }
    }
  }

  /** Who still has to look: the uids whose block has not been read. */
  ghost predicate Owing<C>(st: Walk<C>, blocks: set<int>, pending: set<int>) {
    forall u :: u in pending <==> u in st.remaining && u in st.cursor && st.cursor[u] - 1 in blocks
  }

  lemma TargetUids<C>(floor: int, st: Walk<C>, targets: map<int, set<int>>, blocks: set<int>, pending: set<int>, block: int)
    requires Grouped(floor, st, {}, targets) && block in blocks && block in targets && Owing(st, blocks, pending)
    ensures block >= floor
    ensures forall u :: u in targets[block] ==> u in pending && u in st.cursor && st.cursor[u] - 1 == block
    ensures Owing(st, blocks - {block}, pending - targets[block])
  {
    forall u | u in targets[block] ensures u in pending && u in st.cursor && st.cursor[u] - 1 == block {
      assert LooksAt(st, {}, block, u);
    }
    var first := Minimum(targets[block]);
    assert InGroup(floor, st, targets, first);
    forall u | u in st.remaining && u in st.cursor && st.cursor[u] - 1 == block ensures u in targets[block] {
      assert InGroup(floor, st, targets, u);
    }
  }

  /** One round of the loop: group, then hop. */
  lemma RoundFalls<C>(floor: int, before: Walk<C>, grouped: Walk<C>, targets: map<int, set<int>>, now: Walk<C>)
    requires before.remaining != {} && (forall u :: u in before.remaining ==> u in before.cursor)
    requires grouped.remaining <= before.remaining && grouped.cursor == before.cursor
    requires Grouped(floor, grouped, {}, targets) && Lower(grouped, now, {})
    ensures forall u :: u in now.remaining ==> u in now.cursor
    ensures Height(floor, now.remaining, now.cursor) < Height(floor, before.remaining, before.cursor)
  {
    forall u | u in now.remaining
      ensures u in before.remaining && u in now.cursor && u in before.cursor && now.cursor[u] < before.cursor[u] && before.cursor[u] > floor
    {
      assert Lowered(grouped, now, {}, u);
      assert InGroup(floor, grouped, targets, u);
    }
    HeightFalls(floor, now.remaining, before.cursor, before.remaining, now.cursor);
  }

  lemma SpendHop<W, C>(chain: Chain<W, C>, wanted: set<int>, st: Walk<C>, left: nat)
    requires Accounted(chain, wanted, st, {}, left + 1)
    ensures Accounted(chain, wanted, st, st.remaining, left)
  {
  }

  // ---- the cap is not what ends the walk ----

  /** Each hop reads strictly older blocks, so with a hop for every block above the floor
      the cap no longer matters. */
  lemma {:induction false} CapIrrelevant<W, C>(chain: Chain<W, C>, uid: int, landed: int, hops: nat, hops': nat)
    requires hops >= landed - Floor(chain) && hops' >= landed - Floor(chain)
    ensures WalkFrom(chain, uid, landed, hops) == WalkFrom(chain, uid, landed, hops')
    decreases hops
  {
    if hops > 0 && hops' > 0 && landed - 1 >= Floor(chain) && chain.at(landed - 1).Some? && uid in chain.at(landed - 1).value {
      var slot := chain.at(landed - 1).value[uid];
      if slot.block.Some? && slot.block.value <= landed - 1 {
        CapIrrelevant(chain, uid, slot.block.value, hops - 1, hops' - 1);
      }
    }
  }

  // ---- on an honest chain ----

  /** Everything a hotkey ever committed, oldest first. */
  datatype Commitment<W> = Commitment(block: int, wire: W)

  ghost predicate Chronicle<W>(h: seq<Commitment<W>>) {
    (forall i :: 0 <= i < |h| ==> h[i].block >= 1) && forall i, j :: 0 <= i < j < |h| ==> h[i].block < h[j].block
  }

  /** How many commitments had landed by a block. */
  function Landed<W>(h: seq<Commitment<W>>, block: int): (n: nat)
    ensures n <= |h|
  {
    if h == [] then 0 else if h[|h| - 1].block <= block then |h| else Landed(h[..|h| - 1], block)
  }

  ghost predicate ShowsSlot<W>(h: seq<Commitment<W>>, n: nat, uid: int, snapshot: map<int, Slot<W>>)
    requires n <= |h|
  {
    if n == 0 then uid !in snapshot else uid in snapshot && snapshot[uid] == Slot(h[n - 1].wire, Some(h[n - 1].block))
  }

  /** Every read succeeds and shows the slot as of its block; the head shows the last one. */
  ghost predicate Honest<W, C>(chain: Chain<W, C>, uid: int, h: seq<Commitment<W>>) {
    && Chronicle(h)
    && chain.head.Some? && ShowsSlot(h, |h|, uid, chain.head.value.1)
    && forall block :: block >= 1 ==> chain.at(block).Some? && ShowsSlot(h, Landed(h, block), uid, chain.at(block).value)
  }

  /** Position of the newest bucket commitment among the first n. */
  function NewestBucket<W, C>(chain: Chain<W, C>, uid: int, h: seq<Commitment<W>>, n: nat): (k: Option<nat>)
    requires n <= |h|
    ensures k.Some? ==> k.value < n && chain.bucketOf(h[k.value].wire, uid).Some?
    ensures forall i :: 0 <= i < n && (k.Some? ==> i > k.value) ==> chain.bucketOf(h[i].wire, uid) == None
  {
    if n == 0 then None
    else if chain.bucketOf(h[n - 1].wire, uid).Some? then Some(n - 1)
    else NewestBucket(chain, uid, h, n - 1)
  }

  lemma {:induction false} LandedBefore<W>(h: seq<Commitment<W>>, j: nat)
    requires Chronicle(h) && j < |h|
    ensures Landed(h, h[j].block - 1) == j
    decreases |h|
  {
    var n := |h| - 1;
    assert h[n].block >= h[j].block;
    if j < n {
      LandedBefore(h[..n], j);
    } else {
      if n > 0 { assert h[..n][n - 1].block <= h[j].block - 1; }
    }
  }

  /** The condition under which the walk from occupant j reaches the newest older bucket. */
  predicate Reaches<W, C>(chain: Chain<W, C>, h: seq<Commitment<W>>, j: nat, k: nat, hops: int) {
    k < j < |h| && j - k <= hops && h[k + 1].block - 1 >= Floor(chain)
  }

  lemma ShownBefore<W, C>(chain: Chain<W, C>, uid: int, h: seq<Commitment<W>>, j: nat)
    requires Honest(chain, uid, h) && j < |h| && h[j].block - 1 >= 1
    ensures chain.at(h[j].block - 1).Some? && ShowsSlot(h, j, uid, chain.at(h[j].block - 1).value)
  {
    LandedBefore(h, j);
  }

  lemma OneHop<W, C>(chain: Chain<W, C>, uid: int, h: seq<Commitment<W>>, j: nat, hops: nat)
    requires Honest(chain, uid, h) && j < |h|
    ensures WalkFrom(chain, uid, h[j].block, hops) ==
      if hops == 0 || h[j].block - 1 < Floor(chain) || j == 0 then None
      else if chain.bucketOf(h[j - 1].wire, uid).Some? then chain.bucketOf(h[j - 1].wire, uid)
      else WalkFrom(chain, uid, h[j - 1].block, hops - 1)
  {
    assert Floor(chain) >= 1;
    if hops > 0 && h[j].block - 1 >= Floor(chain) {
      ShownBefore(chain, uid, h, j);
      if j > 0 { assert h[j - 1].block < h[j].block; }
    }
  }

  lemma ReachStep<W, C>(chain: Chain<W, C>, h: seq<Commitment<W>>, j: nat, k: nat, hops: nat)
    requires Chronicle(h) && 0 < j < |h|
    ensures Reaches(chain, h, j, j - 1, hops) <==> hops > 0 && h[j].block - 1 >= Floor(chain)
    ensures k < j - 1 ==> (Reaches(chain, h, j, k, hops) <==>
              hops > 0 && h[j].block - 1 >= Floor(chain) && Reaches(chain, h, j - 1, k, hops - 1))
  {
  }

  /** The newest bucket commit before occupant j, if the walk from there gets to it. */
  function Promise<W, C>(chain: Chain<W, C>, uid: int, h: seq<Commitment<W>>, j: nat, hops: nat): Option<C>
    requires j < |h|
  {
    var k := NewestBucket(chain, uid, h, j);
    if k.Some? && Reaches(chain, h, j, k.value, hops) then chain.bucketOf(h[k.value].wire, uid) else None
  }

  /** What one hop more does to the promise of the walk. */
  lemma WalkStep<W, C>(chain: Chain<W, C>, uid: int, h: seq<Commitment<W>>, j: nat, hops: nat)
    requires Chronicle(h) && 0 < j < |h|
    ensures Promise(chain, uid, h, j, hops) ==
      if hops == 0 || h[j].block - 1 < Floor(chain) then None
      else if chain.bucketOf(h[j - 1].wire, uid).Some? then chain.bucketOf(h[j - 1].wire, uid)
      else Promise(chain, uid, h, j - 1, hops - 1)
  {
    var k := NewestBucket(chain, uid, h, j);
    if k.Some? { ReachStep(chain, h, j, k.value, hops); }
  }

  lemma {:induction false} WalkOnHonestChain<W, C>(chain: Chain<W, C>, uid: int, h: seq<Commitment<W>>, j: nat, hops: nat)
    requires Honest(chain, uid, h) && j < |h|
    ensures WalkFrom(chain, uid, h[j].block, hops) == Promise(chain, uid, h, j, hops)
    decreases hops
  {
    OneHop(chain, uid, h, j, hops);
    if j > 0 {
      WalkStep(chain, uid, h, j, hops);
      if hops > 0 { WalkOnHonestChain(chain, uid, h, j - 1, hops - 1); }
    }
  }

  lemma AnswerFromHead<W, C>(chain: Chain<W, C>, uid: int, h: seq<Commitment<W>>)
    requires Honest(chain, uid, h)
    ensures Answer(chain, uid) ==
      if h == [] then None
      else if chain.bucketOf(h[|h| - 1].wire, uid).Some? then chain.bucketOf(h[|h| - 1].wire, uid)
      else WalkFrom(chain, uid, h[|h| - 1].block, Cap(chain))
  {
  }

  /** The live slot's bucket, or what the walk behind it promises. */
  lemma NewestFromHead<W, C>(chain: Chain<W, C>, uid: int, h: seq<Commitment<W>>)
    requires h != []
    ensures var k, last := NewestBucket(chain, uid, h, |h|), chain.bucketOf(h[|h| - 1].wire, uid);
            (if k.Some? && (k.value == |h| - 1 || (|h| - 1 - k.value <= Cap(chain) && h[k.value + 1].block - 1 >= Floor(chain)))
             then chain.bucketOf(h[k.value].wire, uid) else None)
            == if last.Some? then last else Promise(chain, uid, h, |h| - 1, Cap(chain))
  {
  }

  /** The answer is the newest bucket commitment: if it is still live, or if at most the hop
      cap of later commitments overwrote it and the one that overwrote it landed above the
      lookback floor; otherwise nothing. */
  lemma AnswerIsNewestBucket<W, C>(chain: Chain<W, C>, uid: int, h: seq<Commitment<W>>)
    requires Honest(chain, uid, h)
    ensures var k := NewestBucket(chain, uid, h, |h|);
            Answer(chain, uid) ==
              if k.Some? && (k.value == |h| - 1 || (|h| - 1 - k.value <= Cap(chain) && h[k.value + 1].block - 1 >= Floor(chain)))
              then chain.bucketOf(h[k.value].wire, uid) else None
  {
    AnswerFromHead(chain, uid, h);
    if h != [] {
      WalkOnHonestChain(chain, uid, h, |h| - 1, Cap(chain));
      NewestFromHead(chain, uid, h);
    }
  }
}
