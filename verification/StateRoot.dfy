/** mok_core/determinism/hashing.py: the state root. The hash is a parameter with 32-byte digests;
    names are strings of Unicode scalar values. */
module StateRoot {
  import opened LittleEndian
  import opened Prelude

  datatype Dtype = Float32 | BFloat16 | Float16 | Int64 | Int32 | UInt8 | Int8 | Float8E4M3 | Bool | UInt16 | OtherType

  /** A tensor as the hash sees it: element type, shape and raw little-endian bytes. */
  datatype Tensor = Tensor(dtype: Dtype, shape: seq<nat>, data: Bytes)

  datatype Error = UnhashableType | Overflow

  function TypeTag(d: Dtype): Option<nat> {
    match d
    case Float32 => Some(1)
    case BFloat16 => Some(2)
    case Float16 => Some(3)
    case Int64 => Some(4)
    case Int32 => Some(5)
    case UInt8 => Some(6)
    case Int8 => Some(7)
    case Float8E4M3 => Some(8)
    case Bool => Some(9)
    case UInt16 => Some(10)
    case OtherType => None
  }

  // ---- tensor preimages ----

  function ShapeBytes(shape: seq<nat>): Bytes {
    if shape == [] then [] else ToLittle(shape[0], 8) + ShapeBytes(shape[1..])
  }

  predicate Hashable(t: Tensor) {
    TypeTag(t.dtype).Some? && |t.shape| < Span(2) && forall i :: 0 <= i < |t.shape| ==> t.shape[i] < Span(8)
  }

  function TensorPreimage(t: Tensor): Bytes
    requires TypeTag(t.dtype).Some?
  {
    ToLittle(TypeTag(t.dtype).value, 2) + (ToLittle(|t.shape|, 2) + (ShapeBytes(t.shape) + t.data))
  }

  lemma Associative(p: Bytes, q: Bytes, r: Bytes)
    ensures (p + q) + r == p + (q + r)
  {
  }

  lemma {:induction false} ShapeInjective(a: seq<nat>, x: Bytes, b: seq<nat>, y: Bytes)
    requires |a| == |b| && ShapeBytes(a) + x == ShapeBytes(b) + y
    requires forall i :: 0 <= i < |a| ==> a[i] < Span(8) && b[i] < Span(8)
    ensures a == b && x == y
  {
    if a != [] {
      var p, q := ToLittle(a[0], 8), ToLittle(b[0], 8);
      Associative(p, ShapeBytes(a[1..]), x);
      Associative(q, ShapeBytes(b[1..]), y);
      SplitEqual(p, ShapeBytes(a[1..]) + x, q, ShapeBytes(b[1..]) + y);
      WidthInjective(a[0], b[0], 8);
      ShapeInjective(a[1..], x, b[1..], y);
    } else {
      assert [] + x == x && [] + y == y;
    }
  }

  /** A tensor preimage determines type, shape and bytes. */
  lemma TensorInjective(a: Tensor, b: Tensor)
    requires Hashable(a) && Hashable(b) && TensorPreimage(a) == TensorPreimage(b)
    ensures a == b
  {
    var ta, tb := TypeTag(a.dtype).value, TypeTag(b.dtype).value;
    SplitEqual(ToLittle(ta, 2), ToLittle(|a.shape|, 2) + (ShapeBytes(a.shape) + a.data),
               ToLittle(tb, 2), ToLittle(|b.shape|, 2) + (ShapeBytes(b.shape) + b.data));
    SplitEqual(ToLittle(|a.shape|, 2), ShapeBytes(a.shape) + a.data, ToLittle(|b.shape|, 2), ShapeBytes(b.shape) + b.data);
    TwoBytes();
    WidthInjective(ta, tb, 2);
    WidthInjective(|a.shape|, |b.shape|, 2);
    ShapeInjective(a.shape, a.data, b.shape, b.data);
  }

  lemma TwoBytes()
    ensures Span(2) == 65536
  {
    assert Span(1) == 256;
  }

  /** hash_tensor */
  method HashTensor(hash: Bytes -> Bytes, t: Tensor) returns (r: Result<Bytes, Error>)
    ensures r.Ok? <==> Hashable(t)
    ensures r.Ok? ==> r.value == hash(TensorPreimage(t))
    ensures r.Err? ==> r.error == if TypeTag(t.dtype) == None then UnhashableType else Overflow
  {
    var tag := TypeTag(t.dtype);
    if tag == None { return Err(UnhashableType); }
    if |t.shape| >= Span(2) { return Err(Overflow); }
    var fed := ToLittle(tag.value, 2) + ToLittle(|t.shape|, 2);
    ghost var head := fed;
    for i := 0 to |t.shape|
      invariant fed + ShapeBytes(t.shape[i..]) == head + ShapeBytes(t.shape)
      invariant forall j :: 0 <= j < i ==> t.shape[j] < Span(8)
    {
      if t.shape[i] >= Span(8) { return Err(Overflow); }
      assert t.shape[i..][1..] == t.shape[i + 1..];
      assert fed + (ToLittle(t.shape[i], 8) + ShapeBytes(t.shape[i + 1..])) == (fed + ToLittle(t.shape[i], 8)) + ShapeBytes(t.shape[i + 1..]);
      fed := fed + ToLittle(t.shape[i], 8);
    }
    assert fed == head + ShapeBytes(t.shape);
    assert fed + t.data == TensorPreimage(t);
    r := Ok(hash(fed + t.data));
  }

  // ---- UTF-8 ----

  function Utf8Char(c: char): (b: Bytes)
    ensures b != []
  {
    var n := c as int;
    if n < 0x80 then [n as byte]
    else if n < 0x800 then [(0xC0 + n / 64) as byte, (0x80 + n % 64) as byte]
    else if n < 0x10000 then [(0xE0 + n / 4096) as byte, (0x80 + n / 64 % 64) as byte, (0x80 + n % 64) as byte]
    else [(0xF0 + n / 262144) as byte, (0x80 + n / 4096 % 64) as byte, (0x80 + n / 64 % 64) as byte, (0x80 + n % 64) as byte]
  }

  function Utf8(text: string): Bytes {
    if text == "" then [] else Utf8Char(text[0]) + Utf8(text[1..])
  }

  /** The lead byte tells how many bytes follow. */
  function Follow(lead: byte): nat {
    if lead < 0x80 then 0 else if lead < 0xE0 then 1 else if lead < 0xF0 then 2 else 3
  }

  lemma LeadTells(c: char)
    ensures |Utf8Char(c)| == 1 + Follow(Utf8Char(c)[0])
  {
  }

  /** What a reader makes of one character's bytes. */
  function CodePoint(b: Bytes): int {
    if |b| == 1 then b[0] as int
    else if |b| == 2 then (b[0] as int - 0xC0) * 64 + (b[1] as int - 0x80)
    else if |b| == 3 then (b[0] as int - 0xE0) * 4096 + (b[1] as int - 0x80) * 64 + (b[2] as int - 0x80)
    else if |b| == 4 then (b[0] as int - 0xF0) * 262144 + (b[1] as int - 0x80) * 4096 + (b[2] as int - 0x80) * 64 + (b[3] as int - 0x80)
    else -1
  }

  lemma Digits64(n: nat)
    ensures n / 64 / 64 == n / 4096 && n / 4096 / 64 == n / 262144
    ensures n == n / 64 * 64 + n % 64 && n / 64 == n / 4096 * 64 + n / 64 % 64
    ensures n / 4096 == n / 262144 * 64 + n / 4096 % 64
  {
  }

  lemma CodePointRead(c: char)
    ensures CodePoint(Utf8Char(c)) == c as int
  {
    Digits64(c as int);
  }

  lemma Utf8CharInjective(c: char, d: char)
    requires Utf8Char(c) == Utf8Char(d)
    ensures c == d
  {
    CodePointRead(c);
    CodePointRead(d);
  }

  lemma CharSplit(c: char, x: Bytes, d: char, y: Bytes)
    requires Utf8Char(c) + x == Utf8Char(d) + y
    ensures c == d && x == y
  {
    var b, e := Utf8Char(c), Utf8Char(d);
    assert (b + x)[0] == b[0] && (e + y)[0] == e[0];
    LeadTells(c);
    LeadTells(d);
    SplitEqual(b, x, e, y);
    Utf8CharInjective(c, d);
  }

  /** A count of characters is enough to find where a name ends, ASCII or not. */
  lemma {:induction false} NameSplit(a: string, x: Bytes, b: string, y: Bytes)
    requires |a| == |b| && Utf8(a) + x == Utf8(b) + y
    ensures a == b && x == y
  {
    if a != "" {
      assert Utf8(a) + x == Utf8Char(a[0]) + (Utf8(a[1..]) + x);
      assert Utf8(b) + y == Utf8Char(b[0]) + (Utf8(b[1..]) + y);
      CharSplit(a[0], Utf8(a[1..]) + x, b[0], Utf8(b[1..]) + y);
      NameSplit(a[1..], x, b[1..], y);
    } else {
      assert [] + x == x && [] + y == y;
    }
  }

  // ---- sorting names ----

  /** Python's order on strings. */
  predicate Less(a: string, b: string) {
    if a == "" then b != ""
    else if b == "" then false
    else a[0] < b[0] || (a[0] == b[0] && Less(a[1..], b[1..]))
  }

  lemma {:induction false} LessTotal(a: string, b: string)
    ensures Less(a, b) || Less(b, a) || a == b
    ensures !(Less(a, b) && Less(b, a)) && !Less(a, a)
  {
    if a != "" && b != "" {
      LessTotal(a[1..], b[1..]);
      LessTotal(a[1..], a[1..]);
      assert a == [a[0]] + a[1..] && b == [b[0]] + b[1..];
    } else if a != "" {
      LessTotal(a[1..], a[1..]);
    }
  }

  lemma {:induction false} LessTransitive(a: string, b: string, c: string)
    requires Less(a, b) && Less(b, c)
    ensures Less(a, c)
  {
    if a != "" && a[0] == b[0] && b[0] == c[0] { LessTransitive(a[1..], b[1..], c[1..]); }
  }

  type Item = (string, Tensor)

  ghost predicate NameSorted(s: seq<Item>) {
    forall i, j :: 0 <= i < j < |s| ==> Less(s[i].0, s[j].0)
  }

  ghost predicate DistinctNames(s: seq<Item>) {
    forall i, j :: 0 <= i < j < |s| ==> s[i].0 != s[j].0
  }

  function Insert(x: Item, s: seq<Item>): (r: seq<Item>)
    ensures forall y :: y in r <==> y == x || y in s
    ensures |r| == |s| + 1
  {
    if s == [] then [x] else if Less(s[0].0, x.0) then [s[0]] + Insert(x, s[1..]) else [x] + s
  }

  /** sorted(named, key=name), which keeps the order of equal names. */
  function SortItems(s: seq<Item>): (r: seq<Item>)
    ensures forall y :: y in r <==> y in s
    ensures |r| == |s|
  {
    if s == [] then [] else Insert(s[0], SortItems(s[1..]))
  }

  lemma ConsSorted(x: Item, s: seq<Item>)
    requires NameSorted(s) && forall y :: y in s ==> Less(x.0, y.0)
    ensures NameSorted([x] + s)
  {
    var r := [x] + s;
    forall i, j | 0 <= i < j < |r| ensures Less(r[i].0, r[j].0) {
      if i == 0 { assert r[j] in s; }
    }
  }

  lemma {:induction false} InsertSorted(x: Item, s: seq<Item>)
    requires NameSorted(s) && forall y :: y in s ==> y.0 != x.0
    ensures NameSorted(Insert(x, s))
  {
    if s == [] {
    } else if Less(s[0].0, x.0) {
      InsertSorted(x, s[1..]);
      forall y | y in Insert(x, s[1..]) ensures Less(s[0].0, y.0) {
        if y != x { var k :| 0 <= k < |s[1..]| && s[1..][k] == y; assert s[k + 1] == y; }
      }
      ConsSorted(s[0], Insert(x, s[1..]));
    } else {
      assert s[0] in s;
      LessTotal(s[0].0, x.0);
      forall y | y in s ensures Less(x.0, y.0) {
        var k :| 0 <= k < |s| && s[k] == y;
        if k > 0 { LessTransitive(x.0, s[0].0, s[k].0); }
      }
      ConsSorted(x, s);
    }
  }

  lemma {:induction false} SortSorts(s: seq<Item>)
    requires DistinctNames(s)
    ensures NameSorted(SortItems(s))
  {
    if s != [] {
      SortSorts(s[1..]);
      forall y | y in SortItems(s[1..]) ensures y.0 != s[0].0 {
        var k :| 0 <= k < |s[1..]| && s[1..][k] == y;
        assert s[k + 1] == y;
      }
      InsertSorted(s[0], SortItems(s[1..]));
    }
  }

  lemma {:induction false} SortedUnique(a: seq<Item>, b: seq<Item>)
    requires NameSorted(a) && NameSorted(b) && forall y :: y in a <==> y in b
    ensures a == b
  {
    if a == [] {
      assert forall k :: 0 <= k < |b| ==> b[k] in b;
    } else {
      assert a[0] in b && b[0] in b && b[0] in a;
      HeadLeast(a, b[0]);
      HeadLeast(b, a[0]);
      LessTotal(a[0].0, b[0].0);
      assert a[0] == b[0];
      forall y ensures y in a[1..] <==> y in b[1..] {
        TailOf(a, y);
        TailOf(b, y);
      }
      SortedUnique(a[1..], b[1..]);
    }
  }

  lemma HeadLeast(a: seq<Item>, y: Item)
    requires NameSorted(a) && y in a
    ensures y == a[0] || Less(a[0].0, y.0)
  {
  }

  lemma TailOf(a: seq<Item>, y: Item)
    requires NameSorted(a) && a != []
    ensures y in a[1..] <==> y in a && y != a[0]
  {
    if y in a && y != a[0] { var k :| 0 <= k < |a| && a[k] == y; assert a[1..][k - 1] == y; }
    if y in a[1..] {
      var k :| 0 <= k < |a[1..]| && a[1..][k] == y;
      assert a[k + 1] == y;
      LessTotal(a[0].0, y.0);
    }
  }

  // ---- the state preimage ----

  ghost predicate Sound(hash: Bytes -> Bytes) {
    forall x :: |hash(x)| == 32
  }

  predicate ItemHashable(x: Item) {
    |x.0| < Span(4) && Hashable(x.1)
  }

  /** Same name, and tensors with the same digest. */
  ghost predicate SameItem(hash: Bytes -> Bytes, x: Item, y: Item) {
    ItemHashable(x) && ItemHashable(y) && x.0 == y.0 && hash(TensorPreimage(x.1)) == hash(TensorPreimage(y.1))
  }

  function ItemBytes(hash: Bytes -> Bytes, x: Item): (r: Bytes)
    requires ItemHashable(x)
    ensures |r| >= 4
  {
    ToLittle(|x.0|, 4) + (Utf8(x.0) + hash(TensorPreimage(x.1)))
  }

  function StatePreimage(hash: Bytes -> Bytes, items: seq<Item>): Bytes
    requires forall x :: x in items ==> ItemHashable(x)
  {
    if items == [] then [] else ItemBytes(hash, items[0]) + StatePreimage(hash, items[1..])
  }

  /** No two different preimages that go into the two roots share a digest. */
  ghost predicate CollisionFree(hash: Bytes -> Bytes, a: seq<Item>, b: seq<Item>)
    requires forall x :: x in a ==> ItemHashable(x)
    requires forall x :: x in b ==> ItemHashable(x)
  {
    && (hash(StatePreimage(hash, a)) == hash(StatePreimage(hash, b)) ==> StatePreimage(hash, a) == StatePreimage(hash, b))
    && forall x, y :: x in a && y in b && hash(TensorPreimage(x.1)) == hash(TensorPreimage(y.1)) ==> TensorPreimage(x.1) == TensorPreimage(y.1)
  }

  lemma ItemSplit(hash: Bytes -> Bytes, a: Item, x: Bytes, b: Item, y: Bytes)
    requires Sound(hash) && ItemHashable(a) && ItemHashable(b)
    requires ItemBytes(hash, a) + x == ItemBytes(hash, b) + y
    ensures a.0 == b.0 && hash(TensorPreimage(a.1)) == hash(TensorPreimage(b.1)) && x == y
  {
    var da, db := hash(TensorPreimage(a.1)), hash(TensorPreimage(b.1));
    var la, lb := ToLittle(|a.0|, 4), ToLittle(|b.0|, 4);
    assert ItemBytes(hash, a) + x == la + (Utf8(a.0) + (da + x));
    assert ItemBytes(hash, b) + y == lb + (Utf8(b.0) + (db + y));
    SplitEqual(la, Utf8(a.0) + (da + x), lb, Utf8(b.0) + (db + y));
    WidthInjective(|a.0|, |b.0|, 4);
    NameSplit(a.0, da + x, b.0, db + y);
    SplitEqual(da, x, db, y);
  }

  /** The state preimage is uniquely parseable: names, and tensors up to their digests. */
  lemma {:induction false} PreimageInjective(hash: Bytes -> Bytes, a: seq<Item>, b: seq<Item>)
    requires Sound(hash)
    requires forall x :: x in a ==> ItemHashable(x)
    requires forall x :: x in b ==> ItemHashable(x)
    requires StatePreimage(hash, a) == StatePreimage(hash, b)
    ensures |a| == |b|
    ensures forall i :: 0 <= i < |a| ==> SameItem(hash, a[i], b[i])
  {
    if a != [] && b != [] {
      ItemSplit(hash, a[0], StatePreimage(hash, a[1..]), b[0], StatePreimage(hash, b[1..]));
      PreimageInjective(hash, a[1..], b[1..]);
    }
  }

  /** Equal roots mean equal names, types, shapes and bytes. */
  lemma RootBindsState(hash: Bytes -> Bytes, a: seq<Item>, b: seq<Item>)
    requires Sound(hash)
    requires forall x :: x in a ==> ItemHashable(x)
    requires forall x :: x in b ==> ItemHashable(x)
    requires CollisionFree(hash, a, b)
    ensures hash(StatePreimage(hash, a)) == hash(StatePreimage(hash, b)) <==> a == b
  {
    if hash(StatePreimage(hash, a)) == hash(StatePreimage(hash, b)) {
      PreimageInjective(hash, a, b);
      forall i | 0 <= i < |a| ensures a[i] == b[i] {
        assert a[i] in a && b[i] in b;
        TensorInjective(a[i].1, b[i].1);
      }
    }
  }

  /** The order in which a mapping yields its tensors does not change the root. */
  lemma OrderIrrelevant(a: seq<Item>, b: seq<Item>)
    requires DistinctNames(a) && DistinctNames(b) && forall y :: y in a <==> y in b
    ensures SortItems(a) == SortItems(b)
  {
    SortSorts(a);
    SortSorts(b);
    SortedUnique(SortItems(a), SortItems(b));
  }

  /** hash_named_tensors: what the running hasher is fed. The hex spelling of the digest is left out. */
  method HashNamedTensors(hash: Bytes -> Bytes, named: seq<Item>) returns (r: Result<Bytes, Error>)
    ensures r.Ok? <==> forall x :: x in named ==> ItemHashable(x)
    ensures r.Ok? ==> r.value == hash(StatePreimage(hash, SortItems(named)))
  {
    var items := SortItems(named);
    var fed: Bytes := [];
    for i := 0 to |items|
      invariant forall x :: x in items[..i] ==> ItemHashable(x)
      invariant fed == StatePreimage(hash, items[..i])
    {
      var (name, tensor) := items[i];
      assert items[i] in items && items[i] in named;
      if |name| >= Span(4) { return Err(Overflow); }
      var digest := HashTensor(hash, tensor);
      if digest.Err? { return Err(digest.error); }
      PreimageSnoc(hash, items[..i], items[i]);
      assert items[..i + 1] == items[..i] + [items[i]];
      fed := fed + (ToLittle(|name|, 4) + (Utf8(name) + digest.value));
    }
    assert items[..|items|] == items;
    r := Ok(hash(fed));
  }

  lemma {:induction false} PreimageSnoc(hash: Bytes -> Bytes, items: seq<Item>, x: Item)
    requires (forall y :: y in items ==> ItemHashable(y)) && ItemHashable(x)
    ensures (forall y :: y in items + [x] ==> ItemHashable(y))
         && StatePreimage(hash, items + [x]) == StatePreimage(hash, items) + ItemBytes(hash, x)
  {
    if items != [] {
      PreimageSnoc(hash, items[1..], x);
      TailConcat(items, [x]);
      assert forall y :: y in items + [x] ==> y in items || y == x;
      SeqAssoc(ItemBytes(hash, items[0]), StatePreimage(hash, items[1..]), ItemBytes(hash, x));
    } else {
      assert items + [x] == [x] && [x][1..] == [];
      assert ItemBytes(hash, x) + [] == ItemBytes(hash, x);
    }
  }
}
