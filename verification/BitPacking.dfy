/** 12-bit index and 2-bit code packing (subnet/core/compress.py). Both formats map fixed
    blocks of values to fixed blocks of bytes, so the buffer-level facts are proved once,
    for any block function, and the bit-level facts once per block. */
module BitPacking {
  import opened Prelude

  datatype PackError = OutOfRange | LengthMismatch

  function Packed12Bytes(count: nat): nat {
    count / 2 * 3 + if count % 2 != 0 then 2 else 0
  }

  function Packed2Bytes(count: nat): nat {
    (count + 3) / 4
  }

  // ---- one block ----

  function PackPair(s: seq<bv16>): (t: seq<bv8>)
    requires |s| == 2
    ensures |t| == 3
  {
    [(s[0] & 0xFF) as bv8, (((s[0] >> 8) & 0x0F) | ((s[1] & 0x0F) << 4)) as bv8, ((s[1] >> 4) & 0xFF) as bv8]
  }

  function UnpackPair(t: seq<bv8>): (s: seq<bv16>)
    requires |t| == 3
    ensures |s| == 2
  {
    [(t[0] as bv16) | (((t[1] & 0x0F) as bv16) << 8), (((t[1] >> 4) & 0x0F) as bv16) | ((t[2] as bv16) << 4)]
  }

  function PackTail(a: bv16): (t: seq<bv8>)
    ensures |t| == 2
  {
    [(a & 0xFF) as bv8, ((a >> 8) & 0x0F) as bv8]
  }

  function UnpackTail(x: bv8, y: bv8): bv16 {
    (x as bv16) | (((y & 0x0F) as bv16) << 8)
  }

  function PackQuad(s: seq<bv8>): (t: seq<bv8>)
    requires |s| == 4
    ensures |t| == 1
  {
    [s[0] | (s[1] << 2) | (s[2] << 4) | (s[3] << 6)]
  }

  function UnpackQuad(t: seq<bv8>): (s: seq<bv8>)
    requires |t| == 1
    ensures |s| == 4
  {
    [t[0] & 3, (t[0] >> 2) & 3, (t[0] >> 4) & 3, (t[0] >> 6) & 3]
  }

  predicate Index12(a: bv16) { a < 4096 }

  predicate Code2(a: bv8) { a < 4 }

  lemma PairInverses(s: seq<bv16>, t: seq<bv8>)
    requires |s| == 2 && |t| == 3
    ensures Index12(s[0]) && Index12(s[1]) ==> UnpackPair(PackPair(s)) == s
    ensures PackPair(UnpackPair(t)) == t && Index12(UnpackPair(t)[0]) && Index12(UnpackPair(t)[1])
  {
  }

  lemma TailInverses(a: bv16, x: bv8, y: bv8)
    ensures Index12(a) ==> UnpackTail(PackTail(a)[0], PackTail(a)[1]) == a
    ensures PackTail(UnpackTail(x, y)) == [x, y & 0x0F] && Index12(UnpackTail(x, y))
    ensures y & 0x0F == y <==> y & 0xF0 == 0
  {
  }

  lemma QuadInverses(s: seq<bv8>, t: seq<bv8>)
    requires |s| == 4 && |t| == 1
    ensures Code2(s[0]) && Code2(s[1]) && Code2(s[2]) && Code2(s[3]) ==> UnpackQuad(PackQuad(s)) == s
    ensures PackQuad(UnpackQuad(t)) == t
    ensures var u := UnpackQuad(t); Code2(u[0]) && Code2(u[1]) && Code2(u[2]) && Code2(u[3])
  {
  }

  // ---- blocks of any kind ----

  type Block<!A, !B> = seq<A> --> seq<B>

  ghost predicate Maps<A(!new), B>(f: Block<A, B>, k: nat, m: nat) {
    k > 0 && m > 0 && forall s {:trigger f(s)} {:trigger f.requires(s)} :: |s| == k ==> f.requires(s) && |f(s)| == m
  }

  /** f on consecutive blocks of k; a shorter rest contributes nothing. */
  function Blockwise<A(!new), B>(f: Block<A, B>, k: nat, s: seq<A>): seq<B>
    requires k > 0 && forall b {:trigger f.requires(b)} :: |b| == k ==> f.requires(b)
  {
    if |s| < k then [] else f(s[..k]) + Blockwise(f, k, s[k..])
  }

  /** The part of s made of whole blocks. */
  function Whole<A>(k: nat, s: seq<A>): seq<A>
    requires k > 0
  {
    if |s| < k then [] else s[..k] + Whole(k, s[k..])
  }

  ghost predicate Undoes<A(!new), B(!new)>(g: Block<B, A>, f: Block<A, B>, k: nat, m: nat, ok: A -> bool) {
    Maps(f, k, m) && Maps(g, m, k)
    && forall s {:trigger f(s)} :: |s| == k && (forall i :: 0 <= i < k ==> ok(s[i])) ==> g(f(s)) == s
  }

  lemma Front<T>(a: seq<T>, b: seq<T>, c: seq<T>)
    ensures ((a + b) + c)[..|a|] == a && ((a + b) + c)[|a|..] == b + c
  {
  }

  lemma {:induction false} BlocksInvert<A(!new), B(!new)>(g: Block<B, A>, f: Block<A, B>, k: nat, m: nat, ok: A -> bool, s: seq<A>, rest: seq<B>)
    requires Undoes(g, f, k, m, ok) && |rest| < m
    requires forall i :: 0 <= i < |s| ==> ok(s[i])
    ensures Blockwise(g, m, Blockwise(f, k, s) + rest) == Whole(k, s)
    decreases |s|
  {
    if |s| >= k {
      var head := s[..k];
      var packed := Blockwise(f, k, s) + rest;
      BlocksInvert(g, f, k, m, ok, s[k..], rest);
      Front(f(head), Blockwise(f, k, s[k..]), rest);
    }
  }

  lemma {:induction false} BlocksSize<A(!new), B>(f: Block<A, B>, k: nat, m: nat, s: seq<A>, blocks: nat)
    requires Maps(f, k, m)
    requires blocks * k <= |s| < blocks * k + k
    ensures |Blockwise(f, k, s)| == blocks * m
    ensures Whole(k, s) == s[..blocks * k]
    decreases blocks
  {
    if blocks == 0 {
    } else {
      assert blocks * k == (blocks - 1) * k + k && blocks * m == (blocks - 1) * m + m;
      assert 0 <= (blocks - 1) * k;
      BlocksSize(f, k, m, s[k..], blocks - 1);
      assert s[..blocks * k] == s[..k] + s[k..][..(blocks - 1) * k];
    }
  }

  lemma {:induction false} BlocksAll<A(!new), B>(f: Block<A, B>, k: nat, m: nat, s: seq<A>, ok: B -> bool)
    requires Maps(f, k, m)
    requires forall b {:trigger f(b)} :: |b| == k ==> forall i :: 0 <= i < m ==> ok(f(b)[i])
    ensures forall i :: 0 <= i < |Blockwise(f, k, s)| ==> ok(Blockwise(f, k, s)[i])
    decreases |s|
  {
    if |s| >= k {
      BlocksAll(f, k, m, s[k..], ok);
      var head, tail := f(s[..k]), Blockwise(f, k, s[k..]);
      forall i | 0 <= i < m + |tail| ensures ok((head + tail)[i]) {
        if i >= m { assert (head + tail)[i] == tail[i - m]; }
      }
    }
  }

  lemma BlocksUnfold<A(!new), B>(f: Block<A, B>, k: nat, s: seq<A>, src: nat)
    requires k > 0 && forall b {:trigger f.requires(b)} :: |b| == k ==> f.requires(b)
    requires src + k <= |s|
    ensures Blockwise(f, k, s[src..]) == f(s[src..src + k]) + Blockwise(f, k, s[src + k..])
  {
    assert s[src..][..k] == s[src..src + k] && s[src..][k..] == s[src + k..];
  }

  /** One block at its place. */
  method FillOne<A(!new), B(0)>(out: array<B>, f: Block<A, B>, k: nat, m: nat, s: seq<A>, src: nat, dst: nat, ghost all: seq<B>, ghost start: seq<B>)
    requires Maps(f, k, m) && src + k <= |s| && Filled(out[..], dst, Blockwise(f, k, s[src..]), all, start)
    modifies out
    ensures Filled(out[..], dst + m, Blockwise(f, k, s[src + k..]), all, start)
  {
    var t := f(s[src..src + k]);
    BlocksUnfold(f, k, s, src);
    ghost var before := out[..];
    WriteAt(out, dst, t);
    FilledNext(before, out[..], dst, t, Blockwise(f, k, s[src..]), Blockwise(f, k, s[src + k..]), all, start);
  }

  /** The strided writes: block after block into a preallocated buffer. */
  method FillBlocks<A(!new), B(0)>(out: array<B>, f: Block<A, B>, k: nat, m: nat, s: seq<A>)
    requires Maps(f, k, m) && |Blockwise(f, k, s)| <= out.Length
    modifies out
    ensures out[..] == Blockwise(f, k, s) + old(out[|Blockwise(f, k, s)|..])
  {
    var src, dst: nat := 0, 0;
    ghost var all, start := Blockwise(f, k, s), out[..];
    while src + k <= |s|
      invariant 0 <= src <= |s|
      invariant Filled(out[..], dst, Blockwise(f, k, s[src..]), all, start)
    {
      FillOne(out, f, k, m, s, src, dst, all, start);
      src, dst := src + k, dst + m;
    }
    FilledAll(out[..], dst, all, start);
  }

  /** The first `dst` elements are written, `rest` is still to come, the others are untouched. */
  ghost predicate Filled<B>(now: seq<B>, dst: nat, rest: seq<B>, all: seq<B>, start: seq<B>) {
    && |now| == |start| && dst + |rest| == |all| <= |now|
    && all == now[..dst] + rest && now[dst..] == start[dst..]
  }

  lemma FilledNext<B>(now: seq<B>, next: seq<B>, dst: nat, t: seq<B>, rest: seq<B>, rest': seq<B>, all: seq<B>, start: seq<B>)
    requires Filled(now, dst, rest, all, start) && rest == t + rest' && |next| == |now|
    requires next[..dst + |t|] == now[..dst] + t && next[dst + |t|..] == now[dst + |t|..]
    ensures Filled(next, dst + |t|, rest', all, start)
  {
    SeqAssoc(now[..dst], t, rest');
    assert now[dst..][|t|..] == now[dst + |t|..] && start[dst..][|t|..] == start[dst + |t|..];
  }

  lemma FilledAll<B>(now: seq<B>, dst: nat, all: seq<B>, start: seq<B>)
    requires Filled(now, dst, [], all, start)
    ensures now == all + start[|all|..]
  {
    assert now == now[..dst] + now[dst..];
  }

  /** Into a buffer that the blocks fill. */
  method FillExactly<A(!new), B(0)>(f: Block<A, B>, k: nat, m: nat, s: seq<A>, size: nat) returns (r: seq<B>)
    requires Maps(f, k, m) && |Blockwise(f, k, s)| == size
    ensures r == Blockwise(f, k, s)
  {
    var out := new B[size];
    FillBlocks(out, f, k, m, s);
    r := out[..];
  }

  method WriteAt<B(0)>(out: array<B>, at: nat, t: seq<B>)
    requires at + |t| <= out.Length
    modifies out
    ensures out[..at + |t|] == old(out[..at]) + t && out[at + |t|..] == old(out[at + |t|..])
  {
    for i := 0 to |t|
      invariant out[..at] == old(out[..at]) && out[at..at + i] == t[..i]
      invariant out[at + |t|..] == old(out[at + |t|..])
    {
      out[at + i] := t[i];
      assert out[at..at + i + 1] == out[at..at + i] + [t[i]];
    }
    assert out[..at + |t|] == out[..at] + out[at..at + |t|];
  }

  /** Into a buffer with room for an odd rest, which is written last. */
  method FillWithTail<A(!new), B(0)>(f: Block<A, B>, k: nat, m: nat, s: seq<A>, size: nat, tail: seq<B>) returns (r: seq<B>)
    requires Maps(f, k, m) && |Blockwise(f, k, s)| == size
    ensures r == Blockwise(f, k, s) + tail
  {
    var out := new B[size + |tail|];
    FillBlocks(out, f, k, m, s);
    assert out[..size] == Blockwise(f, k, s);
    WriteAt(out, size, tail);
    r := out[..size + |tail|];
  }

  // ---- the two formats ----

  function Pack12(s: seq<bv16>): seq<bv8> {
    Blockwise(PackPair, 2, s) + if |s| % 2 == 0 then [] else PackTail(s[|s| - 1])
  }

  function Unpack12(b: seq<bv8>, count: nat): seq<bv16>
    requires |b| == Packed12Bytes(count)
  {
    Blockwise(UnpackPair, 3, b) + if count % 2 == 0 then [] else [UnpackTail(b[|b| - 2], b[|b| - 1])]
  }

  function PadQuads(s: seq<bv8>): (r: seq<bv8>)
    ensures |r| == 4 * Packed2Bytes(|s|) && r[..|s|] == s && forall k :: |s| <= k < |r| ==> r[k] == 0
  {
    s + if |s| % 4 == 0 then [] else seq(4 - |s| % 4, _ => 0)
  }

  function Pack2(s: seq<bv8>): seq<bv8> {
    Blockwise(PackQuad, 4, PadQuads(s))
  }

  function UnpackAll2(b: seq<bv8>): seq<bv8> {
    Blockwise(UnpackQuad, 1, b)
  }

  function Unpack2(b: seq<bv8>, count: nat): (r: seq<bv8>)
    requires |b| == Packed2Bytes(count)
    ensures |r| == count && |UnpackAll2(b)| == 4 * |b|
  {
    BlocksSize(UnpackQuad, 1, 4, b, |b|);
    UnpackAll2(b)[..count]
  }

  lemma SizePack12(s: seq<bv16>)
    ensures |Blockwise(PackPair, 2, s)| == |s| / 2 * 3 && Whole(2, s) == s[..|s| / 2 * 2] && |Pack12(s)| == Packed12Bytes(|s|)
  {
    BlocksSize(PackPair, 2, 3, s, |s| / 2);
  }

  lemma SizeUnpack12(b: seq<bv8>, count: nat)
    requires |b| == Packed12Bytes(count)
    ensures |Blockwise(UnpackPair, 3, b)| == count / 2 * 2 && Whole(3, b) == b[..count / 2 * 3] && |Unpack12(b, count)| == count
  {
    BlocksSize(UnpackPair, 3, 2, b, count / 2);
  }

  lemma Size2(s: seq<bv8>)
    requires |s| % 4 == 0
    ensures |Blockwise(PackQuad, 4, s)| == |s| / 4 && Whole(4, s) == s
  {
    BlocksSize(PackQuad, 4, 1, s, |s| / 4);
  }

  // ---- the buffer-writing code ----

  method InRange<T>(s: seq<T>, ok: T -> bool) returns (r: bool)
    ensures r <==> forall k :: 0 <= k < |s| ==> ok(s[k])
  {
    for k := 0 to |s|
      invariant forall i :: 0 <= i < k ==> ok(s[i])
    {
      if !ok(s[k]) { return false; }
    }
    r := true;
  }

  method PackIndices(indices: seq<bv16>) returns (r: Result<seq<bv8>, PackError>)
    ensures r == if forall k :: 0 <= k < |indices| ==> Index12(indices[k]) then Ok(Pack12(indices)) else Err(OutOfRange)
  {
    var ok := InRange(indices, Index12);
    if !ok { return Err(OutOfRange); }
    SizePack12(indices);
    var n := |indices|;
    var packed := FillWithTail(PackPair, 2, 3, indices, n / 2 * 3, if n % 2 == 0 then [] else PackTail(indices[n - 1]));
    r := Ok(packed);
  }

  method UnpackIndices(packed: seq<bv8>, count: nat) returns (r: Result<seq<bv16>, PackError>)
    ensures r == if |packed| == Packed12Bytes(count) then Ok(Unpack12(packed, count)) else Err(LengthMismatch)
  {
    if |packed| != Packed12Bytes(count) { return Err(LengthMismatch); }
    SizeUnpack12(packed, count);
    var tail := if count % 2 == 0 then [] else [UnpackTail(packed[|packed| - 2], packed[|packed| - 1])];
    var out := FillWithTail(UnpackPair, 3, 2, packed, count / 2 * 2, tail);
    r := Ok(out);
  }

  method PackCodes(codes: seq<bv8>) returns (r: Result<seq<bv8>, PackError>)
    ensures r == if forall k :: 0 <= k < |codes| ==> Code2(codes[k]) then Ok(Pack2(codes)) else Err(OutOfRange)
  {
    var ok := InRange(codes, Code2);
    if !ok { return Err(OutOfRange); }
    var padded := PadQuads(codes);
    Size2(padded);
    var packed := FillExactly(PackQuad, 4, 1, padded, |padded| / 4);
    r := Ok(packed);
  }

  method UnpackCodes(packed: seq<bv8>, count: nat) returns (r: Result<seq<bv8>, PackError>)
    ensures r == if |packed| == Packed2Bytes(count) then Ok(Unpack2(packed, count)) else Err(LengthMismatch)
  {
    if |packed| != Packed2Bytes(count) { return Err(LengthMismatch); }
    BlocksSize(UnpackQuad, 1, 4, packed, |packed|);
    var quads := FillExactly(UnpackQuad, 1, 4, packed, 4 * |packed|);
    r := Ok(quads[..count]);
  }

  // ---- inverses ----

  lemma PairsUndo()
    ensures Undoes(UnpackPair, PackPair, 2, 3, Index12)
    ensures Undoes(PackPair, UnpackPair, 3, 2, _ => true)
    ensures forall t {:trigger UnpackPair(t)} :: |t| == 3 ==> forall i :: 0 <= i < 2 ==> Index12(UnpackPair(t)[i])
  {
    forall s: seq<bv16> | |s| == 2 && forall i :: 0 <= i < 2 ==> Index12(s[i]) ensures UnpackPair(PackPair(s)) == s {
      PairInverses(s, [0, 0, 0]);
    }
    forall t: seq<bv8> | |t| == 3 ensures PackPair(UnpackPair(t)) == t && forall i :: 0 <= i < 2 ==> Index12(UnpackPair(t)[i]) {
      PairInverses([0, 0], t);
    }
  }

  lemma QuadsUndo()
    ensures Undoes(UnpackQuad, PackQuad, 4, 1, Code2)
    ensures Undoes(PackQuad, UnpackQuad, 1, 4, _ => true)
    ensures forall t {:trigger UnpackQuad(t)} :: |t| == 1 ==> forall i :: 0 <= i < 4 ==> Code2(UnpackQuad(t)[i])
  {
    forall s: seq<bv8> | |s| == 4 && forall i :: 0 <= i < 4 ==> Code2(s[i]) ensures UnpackQuad(PackQuad(s)) == s {
      QuadInverses(s, [0]);
    }
    forall t: seq<bv8> | |t| == 1 ensures PackQuad(UnpackQuad(t)) == t && forall i :: 0 <= i < 4 ==> Code2(UnpackQuad(t)[i]) {
      QuadInverses([0, 0, 0, 0], t);
    }
  }

  lemma LastTwo<T>(a: seq<T>, x: T, y: T)
    ensures (a + [x, y])[|a + [x, y]| - 2] == x && (a + [x, y])[|a + [x, y]| - 1] == y
  {
  }

  /** Unpacking undoes packing, for even and odd counts. */
  lemma Unpack12AfterPack12(s: seq<bv16>)
    requires forall k :: 0 <= k < |s| ==> Index12(s[k])
    ensures |Pack12(s)| == Packed12Bytes(|s|) && Unpack12(Pack12(s), |s|) == s
  {
    var n := |s|;
    SizePack12(s);
    PairsUndo();
    if n % 2 == 0 {
      BlocksInvert(UnpackPair, PackPair, 2, 3, Index12, s, []);
    } else {
      var rest := PackTail(s[n - 1]);
      BlocksInvert(UnpackPair, PackPair, 2, 3, Index12, s, rest);
      TailInverses(s[n - 1], 0, 0);
      LastTwo(Blockwise(PackPair, 2, s), rest[0], rest[1]);
      assert s == s[..n / 2 * 2] + [s[n - 1]];
    }
  }

  lemma UnpackedInRange(b: seq<bv8>, count: nat)
    requires |b| == Packed12Bytes(count)
    ensures |Unpack12(b, count)| == count && forall k :: 0 <= k < count ==> Index12(Unpack12(b, count)[k])
  {
    var u, body := Unpack12(b, count), Blockwise(UnpackPair, 3, b);
    SizeUnpack12(b, count);
    PairsUndo();
    BlocksAll(UnpackPair, 3, 2, b, Index12);
    forall k | 0 <= k < count ensures Index12(u[k]) {
      if k < |body| { assert u[k] == body[k]; } else { TailInverses(0, b[|b| - 2], b[|b| - 1]); }
    }
  }

  lemma RepackedBlocks(b: seq<bv8>, count: nat)
    requires |b| == Packed12Bytes(count)
    ensures Blockwise(PackPair, 2, Unpack12(b, count)) == b[..count / 2 * 3]
  {
    var u, body := Unpack12(b, count), Blockwise(UnpackPair, 3, b);
    SizeUnpack12(b, count);
    PairsUndo();
    BlocksInvert(PackPair, UnpackPair, 3, 2, _ => true, b, u[|body|..]);
    assert body + u[|body|..] == u;
  }

  lemma LastUnpacked(b: seq<bv8>, count: nat)
    requires |b| == Packed12Bytes(count) && count % 2 != 0
    ensures |Unpack12(b, count)| == count && PackTail(Unpack12(b, count)[count - 1]) == [b[|b| - 2], b[|b| - 1] & 0x0F]
  {
    SizeUnpack12(b, count);
    TailInverses(0, b[|b| - 2], b[|b| - 1]);
  }

  lemma ReplaceLast(b: seq<bv8>, y: bv8)
    requires |b| >= 2
    ensures b[..|b| - 2] + [b[|b| - 2], y] == b[|b| - 1 := y]
  {
  }

  /** What packing makes of unpacked bytes: the same bytes with an odd tail's high nibble cleared. */
  lemma RepackedBytes(b: seq<bv8>, count: nat)
    requires |b| == Packed12Bytes(count)
    ensures Pack12(Unpack12(b, count)) == if count % 2 == 0 then b else b[|b| - 1 := b[|b| - 1] & 0x0F]
  {
    SizeUnpack12(b, count);
    RepackedBlocks(b, count);
    if count % 2 != 0 {
      LastUnpacked(b, count);
      ReplaceLast(b, b[|b| - 1] & 0x0F);
    }
  }

  /** Packing undoes unpacking exactly when an odd tail's high nibble is zero; the indices
      unpacked are in range either way. */
  lemma Pack12AfterUnpack12(b: seq<bv8>, count: nat)
    requires |b| == Packed12Bytes(count)
    ensures |Unpack12(b, count)| == count && forall k :: 0 <= k < count ==> Index12(Unpack12(b, count)[k])
    ensures Pack12(Unpack12(b, count)) == b <==> (count % 2 != 0 ==> b[|b| - 1] & 0xF0 == 0)
  {
    UnpackedInRange(b, count);
    RepackedBytes(b, count);
    if count % 2 != 0 {
      var n := |b| - 1;
      TailInverses(0, 0, b[n]);
      assert b[n := b[n] & 0x0F][n] == b[n] & 0x0F;
    }
  }

  lemma PaddedInRange(s: seq<bv8>)
    requires forall k :: 0 <= k < |s| ==> Code2(s[k])
    ensures forall k :: 0 <= k < |PadQuads(s)| ==> Code2(PadQuads(s)[k])
  {
    var p := PadQuads(s);
    forall k | 0 <= k < |p| ensures Code2(p[k]) {
      if k < |s| { assert p[k] == p[..|s|][k]; }
    }
  }

  lemma Unpack2AfterPack2(s: seq<bv8>)
    requires forall k :: 0 <= k < |s| ==> Code2(s[k])
    ensures |Pack2(s)| == Packed2Bytes(|s|) && Unpack2(Pack2(s), |s|) == s
  {
    PaddedInRange(s);
    Size2(PadQuads(s));
    PackQuadsInjective(PadQuads(s));
  }

  lemma UnpackedCodes(b: seq<bv8>)
    ensures |UnpackAll2(b)| == 4 * |b| && Blockwise(PackQuad, 4, UnpackAll2(b)) == b
    ensures forall k :: 0 <= k < 4 * |b| ==> Code2(UnpackAll2(b)[k])
  {
    QuadsUndo();
    BlocksAll(UnpackQuad, 1, 4, b, Code2);
    BlocksInvert(PackQuad, UnpackQuad, 1, 4, _ => true, b, []);
    BlocksSize(UnpackQuad, 1, 4, b, |b|);
    assert UnpackAll2(b) + [] == UnpackAll2(b);
  }

  lemma PackQuadsInjective(s: seq<bv8>)
    requires |s| % 4 == 0 && forall k :: 0 <= k < |s| ==> Code2(s[k])
    ensures UnpackAll2(Blockwise(PackQuad, 4, s)) == s
  {
    QuadsUndo();
    Size2(s);
    BlocksInvert(UnpackQuad, PackQuad, 4, 1, Code2, s, []);
    assert Blockwise(PackQuad, 4, s) + [] == Blockwise(PackQuad, 4, s);
  }

  /** Packing undoes unpacking exactly when the codes past `count` in the last byte are zero. */
  lemma Pack2AfterUnpack2(b: seq<bv8>, count: nat)
    requires |b| == Packed2Bytes(count)
    ensures forall k :: 0 <= k < count ==> Code2(Unpack2(b, count)[k])
    ensures Pack2(Unpack2(b, count)) == b <==> forall k :: count <= k < 4 * |b| ==> UnpackAll2(b)[k] == 0
  {
    UnpackedCodes(b);
    PaddedInRange(Unpack2(b, count));
    PackQuadsInjective(PadQuads(Unpack2(b, count)));
    CutIsPadded(UnpackAll2(b), count);
  }

  lemma CutIsPadded(all: seq<bv8>, count: nat)
    requires |all| == 4 * Packed2Bytes(count)
    ensures all == PadQuads(all[..count]) <==> forall k :: count <= k < |all| ==> all[k] == 0
  {
    var padded := PadQuads(all[..count]);
    assert forall k :: 0 <= k < count ==> padded[k] == padded[..count][k] == all[k];
  }
}
