/** The aggregator object (subnet/core/exchange.py:143-268). The canonical JSON header codec, zstd
    and the hash are parameters with the laws the source relies on. */
module Aggregator {
  import opened LittleEndian
  import opened Prelude

  const MAX_UID := 100_000
  const MAX_WINDOW := 100_000_000
  const I64 := 0x7FFF_FFFF_FFFF_FFFF
  const MAGIC: Bytes := [0x4D, 0x4F, 0x4B, 0x41]
  const WIRE_VERSION: byte := 1

  datatype AggregatorObject = AggregatorObject(window: int, payloads: map<int, Bytes>)

  datatype Entry = Entry(uid: int, nbytes: int, payloadHash: string)

  datatype Header = Header(window: int, entries: seq<Entry>)

  /** `parse` reads a header: JSON with exactly the header's and the entries' keys, each value of its type. */
  datatype Codec = Codec(
    canonical: Header -> Bytes, parse: Bytes -> Option<Header>, hash: Bytes -> string,
    compress: Bytes -> Bytes, frameSize: Bytes -> Option<int>, decompress: Bytes -> Option<Bytes>)

  ghost predicate Sound(c: Codec) {
    && (forall h :: c.parse(c.canonical(h)) == Some(h) && |c.canonical(h)| >= 2)
    && (forall b :: |c.hash(b)| == 64)
    && forall b :: |c.compress(b)| > 0 && c.decompress(c.compress(b)) == Some(b) && c.frameSize(c.compress(b)) == Some(|b|)
  }

  datatype Error =
    | BadUid(uid: int) | EmptyBlob(uid: int) | HeaderTooLong
    | BadLimit | TooLarge | BadFrame | BadBody | BadHeader | BadEntry | BadAccounting | BadHash(uid: int)

  // ---- the body of an object ----

  ghost predicate Listed(payloads: map<int, Bytes>, uids: seq<int>) {
    forall j :: 0 <= j < |uids| ==> uids[j] in payloads
  }

  function EntryFor(c: Codec, payloads: map<int, Bytes>, uid: int): Entry
    requires uid in payloads
  {
    Entry(uid, |payloads[uid]|, c.hash(payloads[uid]))
  }

  function EntriesFor(c: Codec, payloads: map<int, Bytes>, uids: seq<int>): (r: seq<Entry>)
    requires Listed(payloads, uids)
    ensures |r| == |uids|
    ensures forall j :: 0 <= j < |r| ==> r[j] == EntryFor(c, payloads, uids[j])
  {
    if uids == [] then [] else EntriesFor(c, payloads, uids[..|uids| - 1]) + [EntryFor(c, payloads, uids[|uids| - 1])]
  }

  function BlobsFor(payloads: map<int, Bytes>, uids: seq<int>): Bytes
    requires Listed(payloads, uids)
  {
    if uids == [] then [] else BlobsFor(payloads, uids[..|uids| - 1]) + payloads[uids[|uids| - 1]]
  }

  function Uids(payloads: map<int, Bytes>): (r: seq<int>)
    ensures Listed(payloads, r) && Ascending(r) && forall u :: u in payloads <==> u in r
  {
    var r := Sorted(payloads.Keys);
    assert forall j :: 0 <= j < |r| ==> r[j] in r;
    r
  }

  function HeaderOf(c: Codec, obj: AggregatorObject): Header {
    Header(obj.window, EntriesFor(c, obj.payloads, Uids(obj.payloads)))
  }

  function BodyOf(c: Codec, obj: AggregatorObject): Bytes {
    Assemble(c.canonical(HeaderOf(c, obj)), BlobsFor(obj.payloads, Uids(obj.payloads)))
  }

  function Assemble(raw: Bytes, blobs: Bytes): Bytes {
    ToLittle(|raw|, 4) + raw + blobs
  }

  function Frame(c: Codec, body: Bytes): Bytes {
    MAGIC + [WIRE_VERSION] + c.compress(body)
  }

  /** What serialize() refuses. */
  ghost predicate Serializable(c: Codec, obj: AggregatorObject) {
    && (forall u :: u in obj.payloads ==> 0 <= u < MAX_UID && obj.payloads[u] != [])
    && |c.canonical(HeaderOf(c, obj))| < 0x1_0000_0000
  }

  lemma NextEntry(c: Codec, payloads: map<int, Bytes>, uids: seq<int>, i: nat)
    requires i < |uids| && Listed(payloads, uids)
    ensures EntriesFor(c, payloads, uids[..i + 1]) == EntriesFor(c, payloads, uids[..i]) + [EntryFor(c, payloads, uids[i])]
  {
    assert uids[..i + 1][..i] == uids[..i];
  }

  lemma NextBlob(payloads: map<int, Bytes>, uids: seq<int>, i: nat)
    requires i < |uids| && Listed(payloads, uids)
    ensures BlobsFor(payloads, uids[..i + 1]) == BlobsFor(payloads, uids[..i]) + payloads[uids[i]]
  {
    assert uids[..i + 1][..i] == uids[..i];
  }

  /** The entry loop of serialize. */
  method Collect(c: Codec, payloads: map<int, Bytes>, uids: seq<int>) returns (r: Result<(seq<Entry>, Bytes), Error>)
    requires Listed(payloads, uids)
    ensures r.Ok? <==> forall j :: 0 <= j < |uids| ==> 0 <= uids[j] < MAX_UID && payloads[uids[j]] != []
    ensures r.Ok? ==> r.value.0 == EntriesFor(c, payloads, uids) && r.value.1 == BlobsFor(payloads, uids)
  {
    var entries: seq<Entry> := [];
    var blobs: Bytes := [];
    for i := 0 to |uids|
      invariant entries == EntriesFor(c, payloads, uids[..i])
      invariant blobs == BlobsFor(payloads, uids[..i])
      invariant forall j :: 0 <= j < i ==> 0 <= uids[j] < MAX_UID && payloads[uids[j]] != []
    {
      var uid := uids[i];
      if !(0 <= uid < MAX_UID) { return Err(BadUid(uid)); }
      var blob := payloads[uid];
      if blob == [] { return Err(EmptyBlob(uid)); }
      NextEntry(c, payloads, uids, i);
      NextBlob(payloads, uids, i);
      entries, blobs := entries + [Entry(uid, |blob|, c.hash(blob))], blobs + blob;
    }
    assert uids[..|uids|] == uids;
    r := Ok((entries, blobs));
  }

  lemma UidsCover(payloads: map<int, Bytes>)
    ensures var uids := Uids(payloads);
            (forall j :: 0 <= j < |uids| ==> 0 <= uids[j] < MAX_UID && payloads[uids[j]] != [])
            <==> (forall u :: u in payloads ==> 0 <= u < MAX_UID && payloads[u] != [])
  {
    var uids := Uids(payloads);
    assert forall j :: 0 <= j < |uids| ==> uids[j] in payloads;
  }

  /** AggregatorObject.serialize */
  method Serialize(c: Codec, obj: AggregatorObject) returns (r: Result<Bytes, Error>)
    ensures r.Ok? <==> Serializable(c, obj)
    ensures r.Ok? ==> r.value == Frame(c, BodyOf(c, obj))
  {
    var uids := Uids(obj.payloads);
    UidsCover(obj.payloads);
    var collected := Collect(c, obj.payloads, uids);
    if collected.Err? { return Err(collected.error); }
    var header := Header(obj.window, collected.value.0);
    assert header == HeaderOf(c, obj);
    var raw := c.canonical(header);
    if |raw| >= 0x1_0000_0000 { return Err(HeaderTooLong); }
    r := Ok(Frame(c, Assemble(raw, collected.value.1)));
  }

  // ---- reading a body back ----

  function Offset(entries: seq<Entry>, j: nat): int
    requires j <= |entries|
  {
    if j == 0 then 0 else Offset(entries, j - 1) + entries[j - 1].nbytes
  }

  ghost predicate EntriesOk(entries: seq<Entry>) {
    && (forall j :: 0 <= j < |entries| ==> 0 <= entries[j].uid < MAX_UID && 1 <= entries[j].nbytes <= I64 && |entries[j].payloadHash| == 64)
    && UidsAscend(entries)
  }

  ghost predicate UidsAscend(entries: seq<Entry>) {
    forall i, j :: 0 <= i < j < |entries| ==> entries[i].uid < entries[j].uid
  }

  ghost predicate Sized(entries: seq<Entry>) {
    forall j :: 0 <= j < |entries| ==> entries[j].nbytes >= 0
  }

  lemma {:induction false} OffsetsGrow(entries: seq<Entry>, i: nat, j: nat)
    requires Sized(entries) && i <= j <= |entries|
    ensures 0 <= Offset(entries, i) <= Offset(entries, j)
    decreases j
  {
    if i < j { OffsetsGrow(entries, i, j - 1); } else if j > 0 { OffsetsGrow(entries, j - 1, j - 1); }
  }

  /** The entry loop. */
  method CheckEntries(entries: seq<Entry>) returns (ok: bool, total: int)
    ensures ok <==> EntriesOk(entries)
    ensures ok ==> total == Offset(entries, |entries|)
  {
    var prev := -1;
    ok, total := true, 0;
    for j := 0 to |entries|
      invariant ok && total == Offset(entries, j)
      invariant prev == if j == 0 then -1 else entries[j - 1].uid
      invariant EntriesOk(entries[..j])
    {
      var e := entries[j];
      if !(0 <= e.uid < MAX_UID) { return false, 0; }
      if e.uid <= prev { return false, 0; }
      prev := e.uid;
      if !(1 <= e.nbytes <= I64) { return false, 0; }
      if |e.payloadHash| != 64 { return false, 0; }
      total := total + e.nbytes;
    }
    assert entries[..|entries|] == entries;
  }

  /** Entry j's slice of the blob area. */
  function BlobAt(entries: seq<Entry>, blobs: Bytes, j: nat): Bytes
    requires j < |entries|
  {
    var a, b := Offset(entries, j), Offset(entries, j + 1);
    if 0 <= a <= b <= |blobs| then blobs[a..b] else []
  }

  /** The blob area cut at the declared sizes. */
  function Pieces(entries: seq<Entry>, blobs: Bytes, n: nat): (r: seq<Bytes>)
    requires n <= |entries|
    ensures |r| == n
  {
    if n == 0 then [] else Pieces(entries, blobs, n - 1) + [BlobAt(entries, blobs, n - 1)]
  }

  lemma {:induction false} PieceAt(entries: seq<Entry>, blobs: Bytes, n: nat, j: nat)
    requires j < n <= |entries|
    ensures Pieces(entries, blobs, n)[j] == BlobAt(entries, blobs, j)
  {
    if j < n - 1 { PieceAt(entries, blobs, n - 1, j); }
  }

  ghost predicate HashesMatch(c: Codec, entries: seq<Entry>, pieces: seq<Bytes>) {
    |pieces| <= |entries| && forall j :: 0 <= j < |pieces| ==> c.hash(pieces[j]) == entries[j].payloadHash
  }

  /** The first pieces have been filed under their uids. */
  ghost predicate Cut(entries: seq<Entry>, pieces: seq<Bytes>, payloads: map<int, Bytes>) {
    && |pieces| <= |entries|
    && (forall j :: 0 <= j < |pieces| ==> entries[j].uid in payloads && payloads[entries[j].uid] == pieces[j])
    && forall u :: u in payloads ==> exists j :: 0 <= j < |pieces| && entries[j].uid == u
  }

  lemma BlobBounds(entries: seq<Entry>, blobs: Bytes, j: nat)
    requires j < |entries| && Sized(entries) && |blobs| == Offset(entries, |entries|)
    ensures 0 <= Offset(entries, j) <= Offset(entries, j + 1) <= |blobs|
    ensures Offset(entries, j + 1) == Offset(entries, j) + entries[j].nbytes
    ensures BlobAt(entries, blobs, j) == blobs[Offset(entries, j)..Offset(entries, j + 1)]
  {
    OffsetsGrow(entries, j, j + 1);
    OffsetsGrow(entries, j + 1, |entries|);
  }

  lemma CutNext(entries: seq<Entry>, pieces: seq<Bytes>, payloads: map<int, Bytes>, blob: Bytes)
    requires |pieces| < |entries| && UidsAscend(entries) && Cut(entries, pieces, payloads)
    ensures Cut(entries, pieces + [blob], payloads[entries[|pieces|].uid := blob])
  {
    var n := |pieces|;
    var more := payloads[entries[n].uid := blob];
    forall u | u in more ensures exists j :: 0 <= j < n + 1 && entries[j].uid == u {
      if u in payloads { var j :| 0 <= j < n && entries[j].uid == u; }
    }
  }

  /** The next blob; `off` is where the entries before it end. */
  method NextSlice(entries: seq<Entry>, blobs: Bytes, j: nat, off: int) returns (blob: Bytes, next: int)
    requires j < |entries| && Sized(entries) && |blobs| == Offset(entries, |entries|) && off == Offset(entries, j)
    ensures blob == BlobAt(entries, blobs, j) && next == Offset(entries, j + 1)
    ensures Pieces(entries, blobs, j + 1) == Pieces(entries, blobs, j) + [blob]
  {
    BlobBounds(entries, blobs, j);
    blob, next := blobs[off..off + entries[j].nbytes], off + entries[j].nbytes;
  }

  lemma MismatchStays(c: Codec, entries: seq<Entry>, blobs: Bytes, j: nat)
    requires j < |entries| && c.hash(BlobAt(entries, blobs, j)) != entries[j].payloadHash
    ensures !HashesMatch(c, entries, Pieces(entries, blobs, |entries|))
  {
    PieceAt(entries, blobs, |entries|, j);
  }

  /** The blob loop. */
  method CutBlobs(c: Codec, entries: seq<Entry>, blobs: Bytes) returns (r: Result<map<int, Bytes>, Error>)
    requires Sized(entries) && UidsAscend(entries) && |blobs| == Offset(entries, |entries|)
    ensures r.Ok? <==> HashesMatch(c, entries, Pieces(entries, blobs, |entries|))
    ensures r.Ok? ==> Cut(entries, Pieces(entries, blobs, |entries|), r.value)
    ensures r != Err(BadLimit)
  {
    var payloads: map<int, Bytes> := map[];
    var off := 0;
    for j := 0 to |entries|
      invariant off == Offset(entries, j) && CutUpto(c, entries, blobs, j, payloads)
    {
      var blob, next := NextSlice(entries, blobs, j, off);
      off := next;
      if c.hash(blob) != entries[j].payloadHash {
        MismatchStays(c, entries, blobs, j);
        return Err(BadHash(entries[j].uid));
      }
      CutUptoNext(c, entries, blobs, j, payloads);
      payloads := payloads[entries[j].uid := blob];
    }
    r := Ok(payloads);
  }

  /** The first slices are filed and have their declared hashes. */
  ghost predicate CutUpto(c: Codec, entries: seq<Entry>, blobs: Bytes, j: nat, payloads: map<int, Bytes>)
    requires j <= |entries| && Sized(entries) && |blobs| == Offset(entries, |entries|)
  {
    Cut(entries, Pieces(entries, blobs, j), payloads) && HashesMatch(c, entries, Pieces(entries, blobs, j))
  }

  lemma CutUptoNext(c: Codec, entries: seq<Entry>, blobs: Bytes, j: nat, payloads: map<int, Bytes>)
    requires j < |entries| && Sized(entries) && UidsAscend(entries) && |blobs| == Offset(entries, |entries|)
    requires CutUpto(c, entries, blobs, j, payloads) && c.hash(BlobAt(entries, blobs, j)) == entries[j].payloadHash
    ensures CutUpto(c, entries, blobs, j + 1, payloads[entries[j].uid := BlobAt(entries, blobs, j)])
  {
    CutNext(entries, Pieces(entries, blobs, j), payloads, BlobAt(entries, blobs, j));
    PiecesNext(entries, blobs, j);
    HashesNext(c, entries, Pieces(entries, blobs, j), BlobAt(entries, blobs, j));
  }

  lemma PiecesNext(entries: seq<Entry>, blobs: Bytes, j: nat)
    requires j < |entries| && Sized(entries) && |blobs| == Offset(entries, |entries|)
    ensures |Pieces(entries, blobs, j)| == j
    ensures Pieces(entries, blobs, j + 1) == Pieces(entries, blobs, j) + [BlobAt(entries, blobs, j)]
  {
  }

  lemma HashesNext(c: Codec, entries: seq<Entry>, pieces: seq<Bytes>, blob: Bytes)
    requires |pieces| < |entries| && HashesMatch(c, entries, pieces) && c.hash(blob) == entries[|pieces|].payloadHash
    ensures HashesMatch(c, entries, pieces + [blob])
  {
  }

  // ---- the two directions ----

  /** The objects a reader accepts. */
  ghost predicate Readable(c: Codec, obj: AggregatorObject) {
    && 0 <= obj.window < MAX_WINDOW && Serializable(c, obj)
    && forall u :: u in obj.payloads ==> |obj.payloads[u]| <= I64
  }

  lemma {:induction false} BlobsLength(c: Codec, payloads: map<int, Bytes>, uids: seq<int>, j: nat)
    requires Listed(payloads, uids) && j <= |uids|
    ensures Offset(EntriesFor(c, payloads, uids), j) == |BlobsFor(payloads, uids[..j])|
    ensures BlobsFor(payloads, uids[..j]) <= BlobsFor(payloads, uids)
    decreases |uids| - j, j
  {
    var entries := EntriesFor(c, payloads, uids);
    BlobsOffset(c, payloads, uids, j);
    if j < |uids| {
      BlobsLength(c, payloads, uids, j + 1);
      NextBlob(payloads, uids, j);
    } else {
      assert uids[..j] == uids;
    }
  }

  lemma {:induction false} BlobsOffset(c: Codec, payloads: map<int, Bytes>, uids: seq<int>, j: nat)
    requires Listed(payloads, uids) && j <= |uids|
    ensures Offset(EntriesFor(c, payloads, uids), j) == |BlobsFor(payloads, uids[..j])|
  {
    if j > 0 {
      BlobsOffset(c, payloads, uids, j - 1);
      NextBlob(payloads, uids, j - 1);
    }
  }

  /** Cutting a written blob area at the written sizes gives back the payloads. */
  lemma CutWritten(c: Codec, payloads: map<int, Bytes>, uids: seq<int>, j: nat)
    requires Listed(payloads, uids) && j < |uids|
    ensures BlobAt(EntriesFor(c, payloads, uids), BlobsFor(payloads, uids), j) == payloads[uids[j]]
  {
    var entries, blobs := EntriesFor(c, payloads, uids), BlobsFor(payloads, uids);
    BlobsLength(c, payloads, uids, j);
    BlobsLength(c, payloads, uids, j + 1);
    NextBlob(payloads, uids, j);
    var before, text := BlobsFor(payloads, uids[..j]), payloads[uids[j]];
    assert blobs[..|before + text|] == before + text;
    assert blobs[|before|..|before + text|] == (before + text)[|before|..];
  }

  lemma CutUids(entries: seq<Entry>, pieces: seq<Bytes>, payloads: map<int, Bytes>, uids: seq<int>)
    requires UidsAscend(entries) && |pieces| == |entries| && Cut(entries, pieces, payloads)
    requires |uids| == |entries| && forall j :: 0 <= j < |uids| ==> uids[j] == entries[j].uid
    ensures uids == Uids(payloads)
  {
    forall u ensures u in uids <==> u in Uids(payloads) {
      if u in uids { var j :| 0 <= j < |uids| && uids[j] == u; assert entries[j].uid in payloads; }
      if u in payloads { var j :| 0 <= j < |entries| && entries[j].uid == u; assert uids[j] == u; }
    }
    AscendingUnique(uids, Uids(payloads));
  }

  lemma PieceSize(entries: seq<Entry>, blobs: Bytes, j: nat)
    requires j < |entries| && Sized(entries) && |blobs| == Offset(entries, |entries|)
    ensures |Pieces(entries, blobs, |entries|)[j]| == entries[j].nbytes
  {
    BlobBounds(entries, blobs, j);
    PieceAt(entries, blobs, |entries|, j);
  }

  lemma EntriesBack(c: Codec, entries: seq<Entry>, pieces: seq<Bytes>, payloads: map<int, Bytes>, uids: seq<int>)
    requires |pieces| == |entries| && Cut(entries, pieces, payloads) && HashesMatch(c, entries, pieces)
    requires |uids| == |entries| && forall j :: 0 <= j < |uids| ==> uids[j] == entries[j].uid
    requires forall j :: 0 <= j < |pieces| ==> |pieces[j]| == entries[j].nbytes
    ensures Listed(payloads, uids) && EntriesFor(c, payloads, uids) == entries
    ensures forall j :: 0 <= j < |uids| ==> payloads[uids[j]] == pieces[j]
  {
    forall j | 0 <= j < |entries| ensures uids[j] in payloads && EntryFor(c, payloads, uids[j]) == entries[j] {
      assert entries[j].uid in payloads;
    }
  }

  lemma PieceSizes(entries: seq<Entry>, blobs: Bytes)
    requires Sized(entries) && |blobs| == Offset(entries, |entries|)
    ensures var pieces := Pieces(entries, blobs, |entries|); forall j :: 0 <= j < |pieces| ==> |pieces[j]| == entries[j].nbytes
  {
    forall j | 0 <= j < |entries| ensures |Pieces(entries, blobs, |entries|)[j]| == entries[j].nbytes { PieceSize(entries, blobs, j); }
  }

  lemma BlobsBack(entries: seq<Entry>, blobs: Bytes, pieces: seq<Bytes>, payloads: map<int, Bytes>, uids: seq<int>)
    requires Sized(entries) && |blobs| == Offset(entries, |entries|)
    requires |uids| == |entries| && Listed(payloads, uids)
    requires pieces == Pieces(entries, blobs, |entries|) && forall j :: 0 <= j < |uids| ==> payloads[uids[j]] == pieces[j]
    ensures BlobsFor(payloads, uids) == blobs
  {
    BlobsWhole(entries, blobs, pieces, payloads, uids, |entries|);
    assert uids[..|entries|] == uids && blobs[..|blobs|] == blobs;
  }

  /** What was cut is exactly what writing those payloads produces. */
  lemma WrittenBack(c: Codec, entries: seq<Entry>, blobs: Bytes, pieces: seq<Bytes>, payloads: map<int, Bytes>)
    requires Sized(entries) && UidsAscend(entries) && |blobs| == Offset(entries, |entries|)
    requires pieces == Pieces(entries, blobs, |entries|) && HashesMatch(c, entries, pieces) && Cut(entries, pieces, payloads)
    ensures EntriesFor(c, payloads, Uids(payloads)) == entries && BlobsFor(payloads, Uids(payloads)) == blobs
  {
    var uids := UidsOf(entries);
    CutUids(entries, pieces, payloads, uids);
    PieceSizes(entries, blobs);
    EntriesBack(c, entries, pieces, payloads, uids);
    BlobsBack(entries, blobs, pieces, payloads, uids);
  }

  function UidsOf(entries: seq<Entry>): (r: seq<int>)
    ensures |r| == |entries| && forall j :: 0 <= j < |r| ==> r[j] == entries[j].uid
  {
    if entries == [] then [] else UidsOf(entries[..|entries| - 1]) + [entries[|entries| - 1].uid]
  }

  lemma {:induction false} BlobsWhole(entries: seq<Entry>, blobs: Bytes, pieces: seq<Bytes>, payloads: map<int, Bytes>, uids: seq<int>, n: nat)
    requires Sized(entries) && |blobs| == Offset(entries, |entries|)
    requires |uids| == |entries| && Listed(payloads, uids)
    requires pieces == Pieces(entries, blobs, |entries|) && forall j :: 0 <= j < |uids| ==> payloads[uids[j]] == pieces[j]
    requires n <= |entries|
    ensures 0 <= Offset(entries, n) <= |blobs| && BlobsFor(payloads, uids[..n]) == blobs[..Offset(entries, n)]
  {
    if n > 0 {
      BlobsWhole(entries, blobs, pieces, payloads, uids, n - 1);
      NextBlob(payloads, uids, n - 1);
      BlobBounds(entries, blobs, n - 1);
      PieceAt(entries, blobs, |entries|, n - 1);
      SplitAt(blobs, Offset(entries, n - 1), Offset(entries, n));
    }
  }

  lemma SplitAt(b: Bytes, i: nat, j: nat)
    requires i <= j <= |b|
    ensures b[..j] == b[..i] + b[i..j]
  {
  }

  // ---- the whole body ----

  function RawLength(body: Bytes): int {
    if |body| < 4 then -1 else FromLittle(body[..4])
  }

  /** Header length, header bytes and blob area fit together. */
  ghost predicate Layout(body: Bytes, raw: Bytes, blobs: Bytes) {
    |raw| < 0x1_0000_0000 && body == Assemble(raw, blobs)
  }

  lemma LayoutRead(body: Bytes, raw: Bytes, blobs: Bytes)
    requires Layout(body, raw, blobs)
    ensures RawLength(body) == |raw| && body[4..4 + |raw|] == raw && body[4 + |raw|..] == blobs
  {
    FourBytes();
    LittleEndianWritten(|raw|, 4);
    assert body[..4] == ToLittle(|raw|, 4);
  }

  lemma LayoutFound(body: Bytes, n: nat)
    requires |body| >= 4 && n == RawLength(body) && 4 + n <= |body|
    ensures Layout(body, body[4..4 + n], body[4 + n..])
  {
    FourBytes();
    LittleEndianRead(body[..4]);
    assert body == body[..4] + body[4..4 + n] + body[4 + n..];
  }

  lemma WrittenPieces(c: Codec, payloads: map<int, Bytes>, uids: seq<int>)
    requires Listed(payloads, uids)
    ensures var entries := EntriesFor(c, payloads, uids);
            HashesMatch(c, entries, Pieces(entries, BlobsFor(payloads, uids), |entries|))
  {
    var entries := EntriesFor(c, payloads, uids);
    var pieces := Pieces(entries, BlobsFor(payloads, uids), |entries|);
    forall j | 0 <= j < |pieces| ensures c.hash(pieces[j]) == entries[j].payloadHash {
      PieceAt(entries, BlobsFor(payloads, uids), |entries|, j);
      CutWritten(c, payloads, uids, j);
    }
  }

  /** Entries and blob area account for each other exactly. */
  ghost predicate Accounted(c: Codec, entries: seq<Entry>, blobs: Bytes) {
    && EntriesOk(entries) && |blobs| == Offset(entries, |entries|)
    && HashesMatch(c, entries, Pieces(entries, blobs, |entries|))
  }

  lemma WrittenEntriesOk(c: Codec, payloads: map<int, Bytes>, uids: seq<int>)
    requires Sound(c) && Listed(payloads, uids) && Ascending(uids)
    requires forall u :: u in payloads ==> 0 <= u < MAX_UID && 1 <= |payloads[u]| <= I64
    ensures EntriesOk(EntriesFor(c, payloads, uids))
  {
    var entries := EntriesFor(c, payloads, uids);
    forall j | 0 <= j < |entries|
      ensures entries[j].uid == uids[j] && 0 <= entries[j].uid < MAX_UID && 1 <= entries[j].nbytes <= I64 && |entries[j].payloadHash| == 64
    {
      assert entries[j] == EntryFor(c, payloads, uids[j]);
    }
  }

  lemma WrittenAccounted(c: Codec, payloads: map<int, Bytes>, uids: seq<int>)
    requires Sound(c) && Listed(payloads, uids) && Ascending(uids)
    requires forall u :: u in payloads ==> 0 <= u < MAX_UID && 1 <= |payloads[u]| <= I64
    ensures Accounted(c, EntriesFor(c, payloads, uids), BlobsFor(payloads, uids))
  {
    WrittenEntriesOk(c, payloads, uids);
    WrittenPieces(c, payloads, uids);
    BlobsTotal(c, payloads, uids);
  }

  lemma BlobsTotal(c: Codec, payloads: map<int, Bytes>, uids: seq<int>)
    requires Listed(payloads, uids)
    ensures Offset(EntriesFor(c, payloads, uids), |uids|) == |BlobsFor(payloads, uids)|
  {
    BlobsOffset(c, payloads, uids, |uids|);
    assert uids[..|uids|] == uids;
  }

  /** What a reader finds in the body of an object it accepts. */
  lemma BodyFacts(c: Codec, obj: AggregatorObject)
    requires Sound(c) && Readable(c, obj)
    ensures var h, blobs := HeaderOf(c, obj), BlobsFor(obj.payloads, Uids(obj.payloads));
            Layout(BodyOf(c, obj), c.canonical(h), blobs) && Accounted(c, h.entries, blobs)
  {
    WrittenAccounted(c, obj.payloads, Uids(obj.payloads));
  }

  /** A body has one header and one blob area. */
  lemma LayoutUnique(c: Codec, body: Bytes, h: Header, blobs: Bytes, h': Header, blobs': Bytes)
    requires Sound(c) && Layout(body, c.canonical(h), blobs) && Layout(body, c.canonical(h'), blobs')
    ensures h == h' && blobs == blobs'
  {
    LayoutRead(body, c.canonical(h), blobs);
    LayoutRead(body, c.canonical(h'), blobs');
    assert c.parse(c.canonical(h)) == Some(h) && c.parse(c.canonical(h')) == Some(h');
  }

  lemma EntriesSized(entries: seq<Entry>)
    requires EntriesOk(entries)
    ensures Sized(entries) && UidsAscend(entries)
  {
  }

  lemma CutBack(c: Codec, entries: seq<Entry>, blobs: Bytes, payloads: map<int, Bytes>)
    requires Accounted(c, entries, blobs) && Cut(entries, Pieces(entries, blobs, |entries|), payloads)
    ensures EntriesFor(c, payloads, Uids(payloads)) == entries && BlobsFor(payloads, Uids(payloads)) == blobs
    ensures forall u :: u in payloads ==> 0 <= u < MAX_UID && 1 <= |payloads[u]| <= I64
  {
    EntriesSized(entries);
    WrittenBack(c, entries, blobs, Pieces(entries, blobs, |entries|), payloads);
    PayloadSizes(c, entries, payloads);
  }

  /** The parsed object is readable and has exactly this body. */
  lemma ParsedIsBody(c: Codec, body: Bytes, h: Header, blobs: Bytes, payloads: map<int, Bytes>)
    requires Layout(body, c.canonical(h), blobs) && 0 <= h.window < MAX_WINDOW
    requires EntriesFor(c, payloads, Uids(payloads)) == h.entries && BlobsFor(payloads, Uids(payloads)) == blobs
    requires forall u :: u in payloads ==> 0 <= u < MAX_UID && 1 <= |payloads[u]| <= I64
    ensures var obj := AggregatorObject(h.window, payloads); Readable(c, obj) && BodyOf(c, obj) == body
  {
    assert HeaderOf(c, AggregatorObject(h.window, payloads)) == h;
  }

  lemma PayloadSizes(c: Codec, entries: seq<Entry>, payloads: map<int, Bytes>)
    requires EntriesOk(entries) && EntriesFor(c, payloads, Uids(payloads)) == entries
    ensures forall u :: u in payloads ==> 0 <= u < MAX_UID && 1 <= |payloads[u]| <= I64
  {
    forall u | u in payloads ensures 0 <= u < MAX_UID && 1 <= |payloads[u]| <= I64 {
      var uids := Uids(payloads);
      var j :| 0 <= j < |uids| && uids[j] == u;
      assert entries[j] == EntryFor(c, payloads, u);
    }
  }

  lemma SameUids(c: Codec, a: map<int, Bytes>, b: map<int, Bytes>)
    requires EntriesFor(c, a, Uids(a)) == EntriesFor(c, b, Uids(b))
    ensures Uids(a) == Uids(b)
  {
    var ua, ub := Uids(a), Uids(b);
    var ea, eb := EntriesFor(c, a, ua), EntriesFor(c, b, ub);
    forall j | 0 <= j < |ua| ensures ua[j] == ub[j] {
      assert ea[j] == EntryFor(c, a, ua[j]) && eb[j] == EntryFor(c, b, ub[j]);
    }
  }

  lemma SamePayloads(c: Codec, a: map<int, Bytes>, b: map<int, Bytes>)
    requires EntriesFor(c, a, Uids(a)) == EntriesFor(c, b, Uids(b)) && BlobsFor(a, Uids(a)) == BlobsFor(b, Uids(b))
    ensures a == b
  {
    SameUids(c, a, b);
    var uids := Uids(a);
    assert forall u :: u in a <==> u in uids;
    assert forall u :: u in b <==> u in uids;
    forall u ensures Agree(a, b, u) {
      if u in uids {
        var j :| 0 <= j < |uids| && uids[j] == u;
        CutWritten(c, a, uids, j);
        CutWritten(c, b, uids, j);
      }
    }
    MapsEqual(a, b);
  }

  ghost predicate HeaderFits(c: Codec, body: Bytes, h: Header) {
    2 <= RawLength(body) <= |body| - 4 && body[4..4 + RawLength(body)] == c.canonical(h) && c.parse(c.canonical(h)) == Some(h)
  }

  /** The header checks. */
  function ReadHeader(c: Codec, body: Bytes): Result<Header, Error> {
    var n := RawLength(body);
    if |body| < 4 || !(2 <= n <= |body| - 4) then Err(BadBody)
    else
      match c.parse(body[4..4 + n])
      case None => Err(BadHeader)
      case Some(h) =>
        if c.canonical(h) != body[4..4 + n] || !(0 <= h.window < MAX_WINDOW) then Err(BadHeader) else Ok(h)
  }

  lemma HeaderRead(c: Codec, body: Bytes, h: Header)
    ensures ReadHeader(c, body) == Ok(h) ==> 0 <= h.window < MAX_WINDOW && 2 <= RawLength(body) <= |body| - 4 && Layout(body, c.canonical(h), body[4 + RawLength(body)..])
    ensures HeaderFits(c, body, h) && 0 <= h.window < MAX_WINDOW ==> ReadHeader(c, body) == Ok(h)
  {
    if ReadHeader(c, body) == Ok(h) { LayoutFound(body, RawLength(body)); }
  }

  lemma NoOtherBody(c: Codec, body: Bytes, obj: AggregatorObject)
    requires Sound(c) && Readable(c, obj) && BodyOf(c, obj) == body
    ensures var h := HeaderOf(c, obj);
            ReadHeader(c, body) == Ok(h) && 4 + RawLength(body) <= |body| && Accounted(c, h.entries, body[4 + RawLength(body)..])
  {
    BodyFacts(c, obj);
    LayoutRead(body, c.canonical(HeaderOf(c, obj)), BlobsFor(obj.payloads, Uids(obj.payloads)));
    HeaderRead(c, body, HeaderOf(c, obj));
  }

  /** The entry checks and the blob loop. */
  method ReadBlobs(c: Codec, entries: seq<Entry>, blobs: Bytes) returns (r: Result<map<int, Bytes>, Error>)
    ensures r.Ok? <==> Accounted(c, entries, blobs)
    ensures r.Ok? ==> Cut(entries, Pieces(entries, blobs, |entries|), r.value)
    ensures r != Err(BadLimit)
  {
    var ok, total := CheckEntries(entries);
    if !ok { return Err(BadEntry); }
    if |blobs| != total { return Err(BadAccounting); }
    EntriesSized(entries);
    r := CutBlobs(c, entries, blobs);
  }

  /** The checks before the blob loop, and the accounting the blob loop checks. */
  ghost predicate Passes(c: Codec, body: Bytes) {
    var header := ReadHeader(c, body);
    header.Ok? && 4 + RawLength(body) <= |body| && RawLength(body) >= 0 && Accounted(c, header.value.entries, body[4 + RawLength(body)..])
  }

  lemma ReadablePasses(c: Codec, body: Bytes)
    requires Sound(c) && !Passes(c, body)
    ensures forall obj :: Readable(c, obj) ==> BodyOf(c, obj) != body
  {
    forall obj | Readable(c, obj) ensures BodyOf(c, obj) != body {
      if BodyOf(c, obj) == body { NoOtherBody(c, body, obj); }
    }
  }

  lemma PassesReadable(c: Codec, body: Bytes, payloads: map<int, Bytes>)
    requires Passes(c, body)
    requires var entries := ReadHeader(c, body).value.entries;
             Cut(entries, Pieces(entries, body[4 + RawLength(body)..], |entries|), payloads)
    ensures var obj := AggregatorObject(ReadHeader(c, body).value.window, payloads);
            Readable(c, obj) && BodyOf(c, obj) == body
  {
    var h := ReadHeader(c, body).value;
    var blobs := body[4 + RawLength(body)..];
    HeaderRead(c, body, h);
    CutBack(c, h.entries, blobs, payloads);
    ParsedIsBody(c, body, h, blobs, payloads);
  }

  /** The part of deserialize after decompression: it accepts exactly the bodies of readable
      objects, and returns the object. */
  method ParseBody(c: Codec, body: Bytes) returns (r: Result<AggregatorObject, Error>)
    requires Sound(c)
    ensures r.Ok? ==> Readable(c, r.value) && body == BodyOf(c, r.value)
    ensures r.Err? ==> forall obj :: Readable(c, obj) ==> BodyOf(c, obj) != body
    ensures r != Err(BadLimit)
  {
    var header := ReadHeader(c, body);
    if header.Err? {
      ReadablePasses(c, body);
      return Err(header.error);
    }
    var cut := ReadBlobs(c, header.value.entries, body[4 + RawLength(body)..]);
    if cut.Err? {
      ReadablePasses(c, body);
      return Err(cut.error);
    }
    PassesReadable(c, body, cut.value);
    r := Ok(AggregatorObject(header.value.window, cut.value));
  }

  // ---- frames ----

  /** The frame checks: size caps, magic, version, declared size, decompression. */
  ghost predicate Framed(c: Codec, data: Bytes, maxBytes: int, budget: int, body: Bytes) {
    && 6 <= |data| <= maxBytes && data[..4] == MAGIC && data[4] == WIRE_VERSION
    && c.frameSize(data[5..]).Some? && 0 <= c.frameSize(data[5..]).value <= budget
    && c.decompress(data[5..]) == Some(body)
  }

  /** AggregatorObject.deserialize: it succeeds exactly on a well-framed body of a readable object,
      and returns that object. */
  method Deserialize(c: Codec, data: Bytes, maxBytes: int, maxDecompressedBytes: Option<int>) returns (r: Result<AggregatorObject, Error>)
    requires Sound(c)
    ensures maxBytes < 1 <==> r == Err(BadLimit)
    ensures var budget := if maxDecompressedBytes.Some? then maxDecompressedBytes.value else 4 * maxBytes;
            && (r.Ok? ==> Readable(c, r.value) && Framed(c, data, maxBytes, budget, BodyOf(c, r.value)))
            && (r.Err? && r.error != BadLimit ==>
                  forall obj :: Readable(c, obj) ==> !Framed(c, data, maxBytes, budget, BodyOf(c, obj)))
  {
    if maxBytes < 1 { return Err(BadLimit); }
    if |data| > maxBytes { return Err(TooLarge); }
    if |data| < 6 { return Err(BadFrame); }
    if data[..4] != MAGIC { return Err(BadFrame); }
    if data[4] != WIRE_VERSION { return Err(BadFrame); }
    var budget := if maxDecompressedBytes.Some? then maxDecompressedBytes.value else 4 * maxBytes;
    var frame := data[5..];
    var size := c.frameSize(frame);
    if size == None { return Err(BadFrame); }
    if size.value < 0 || size.value > budget { return Err(BadFrame); }
    var body := c.decompress(frame);
    if body == None { return Err(BadFrame); }
    r := ParseBody(c, body.value);
  }

  lemma WrittenFrame(c: Codec, data: Bytes, body: Bytes, maxBytes: int, budget: int)
    requires Sound(c) && data == Frame(c, body)
    ensures |data| >= 6 && (Framed(c, data, maxBytes, budget, body) <==> |data| <= maxBytes && |body| <= budget)
    ensures c.decompress(data[5..]) == Some(body)
  {
    assert data[5..] == c.compress(body);
    assert data[..4] == MAGIC;
  }

  /** Reading back what was written: exactly the objects a reader accepts, within its limits. */
  method RoundTrip(c: Codec, obj: AggregatorObject, maxBytes: int, maxDecompressedBytes: Option<int>) returns (r: Result<AggregatorObject, Error>)
    requires Sound(c) && Serializable(c, obj)
    ensures var data := Frame(c, BodyOf(c, obj));
            var budget := if maxDecompressedBytes.Some? then maxDecompressedBytes.value else 4 * maxBytes;
            && (r.Ok? <==> |data| <= maxBytes && |BodyOf(c, obj)| <= budget && Readable(c, obj))
            && (r.Ok? ==> r.value == obj)
  {
    var data := Serialize(c, obj);
    WrittenFrame(c, data.value, BodyOf(c, obj), maxBytes, if maxDecompressedBytes.Some? then maxDecompressedBytes.value else 4 * maxBytes);
    r := Deserialize(c, data.value, maxBytes, maxDecompressedBytes);
    if r.Ok? {
      SameBodySameObject(c, obj, r.value);
    }
  }

  /** Only a readable object has a readable object's body. */
  lemma SameBodySameObject(c: Codec, a: AggregatorObject, b: AggregatorObject)
    requires Sound(c) && Serializable(c, a) && Readable(c, b) && BodyOf(c, a) == BodyOf(c, b)
    ensures a == b
  {
    LayoutUnique(c, BodyOf(c, a), HeaderOf(c, a), BlobsFor(a.payloads, Uids(a.payloads)), HeaderOf(c, b), BlobsFor(b.payloads, Uids(b.payloads)));
    SamePayloads(c, a.payloads, b.payloads);
  }
}
