/** Splitting a sequence into consecutive groups of fixed size: document parts, part groups, shards. */
module Grouping {
  import opened Prelude

  /** Consecutive groups of `k` elements, the last possibly shorter. */
  function Chunks<T>(s: seq<T>, k: nat): seq<seq<T>>
    requires k > 0
    decreases |s|
  {
    if s == [] then [] else if |s| <= k then [s] else [s[..k]] + Chunks(s[k..], k)
  }

  ghost predicate AllFull<T>(parts: seq<seq<T>>, k: nat) {
    forall j :: 0 <= j < |parts| ==> |parts[j]| == k
  }

  /** Only the last group may be short. */
  ghost predicate FullButLast<T>(parts: seq<seq<T>>, k: nat) {
    forall j :: 0 <= j < |parts| ==> 0 < |parts[j]| <= k && (j < |parts| - 1 ==> |parts[j]| == k)
  }

  lemma {:induction false} ChunksHold<T>(s: seq<T>, k: nat)
    requires k > 0
    ensures Flatten(Chunks(s, k)) == s && FullButLast(Chunks(s, k), k)
    decreases |s|
  {
    if s != [] {
      if |s| <= k {
        assert Flatten([s]) == s + Flatten([]);
      } else {
        ChunksHold(s[k..], k);
        FullButLastCons(s[..k], Chunks(s[k..], k), k);
        assert s == s[..k] + s[k..];
      }
    }
  }

  lemma FullButLastCons<T>(p: seq<T>, rest: seq<seq<T>>, k: nat)
    requires |p| == k > 0 && FullButLast(rest, k)
    ensures FullButLast([p] + rest, k) && Flatten([p] + rest) == p + Flatten(rest)
  {
    assert ([p] + rest)[1..] == rest;
  }

  lemma FirstChunk<T>(s: seq<T>, t: seq<T>, k: nat)
    requires 0 < k <= |s| && t != []
    ensures Chunks(s + t, k) == [s[..k]] + Chunks(s[k..] + t, k)
  {
    assert (s + t)[..k] == s[..k] && (s + t)[k..] == s[k..] + t;
  }

  lemma ChunksTail<T>(s: seq<T>, k: nat)
    requires 0 < k && s != [] && AllFull(Chunks(s, k), k)
    ensures |s| >= k && AllFull(Chunks(s[k..], k), k)
    ensures Chunks(s, k) == [s[..k]] + Chunks(s[k..], k)
  {
    var c := Chunks(s, k);
    assert |c[0]| == k;
    if |s| > k {
      var rest := Chunks(s[k..], k);
      forall j | 0 <= j < |rest| ensures |rest[j]| == k { assert rest[j] == c[j + 1]; }
    } else {
      assert s[..k] == s && s[k..] == [];
    }
  }

  lemma {:induction false} ChunksConcat<T>(s: seq<T>, t: seq<T>, k: nat)
    requires k > 0 && AllFull(Chunks(s, k), k)
    ensures Chunks(s + t, k) == Chunks(s, k) + Chunks(t, k)
    decreases |s|
  {
    if s == [] {
      assert s + t == t;
    } else if t == [] {
      assert s + t == s;
    } else {
      ChunksTail(s, k);
      ChunksConcat(s[k..], t, k);
      FirstChunk(s, t, k);
    }
  }

  lemma ChunksSnoc<T>(s: seq<T>, t: seq<T>, k: nat)
    requires 0 < |t| <= k && AllFull(Chunks(s, k), k)
    ensures Chunks(s + t, k) == Chunks(s, k) + [t]
  {
    ChunksConcat(s, t, k);
  }
}
