/** Shared vocabulary: optional values, results, flattening, ascending listings of
    finite integer sets, and the division facts the layout proofs lean on. */
module Prelude {

  datatype Option<+T> = None | Some(value: T)

  datatype Result<+T, +E> = Ok(value: T) | Err(error: E)

  newtype byte = x: int | 0 <= x < 256
  type Bytes = seq<byte>

  function Flatten<T>(ss: seq<seq<T>>): seq<T> {
    if ss == [] then [] else ss[0] + Flatten(ss[1..])
  }

  lemma TailConcat<T>(a: seq<T>, b: seq<T>)
    requires a != []
    ensures (a + b)[0] == a[0] && (a + b)[1..] == a[1..] + b
  {
  }

  lemma {:induction false} FlattenConcat<T>(a: seq<seq<T>>, b: seq<seq<T>>)
    ensures Flatten(a + b) == Flatten(a) + Flatten(b)
  {
    if a == [] {
      assert a + b == b;
    } else {
      FlattenConcat(a[1..], b);
      TailConcat(a, b);
      SeqAssoc(a[0], Flatten(a[1..]), Flatten(b));
    }
  }

  lemma SeqAssoc<T>(a: seq<T>, b: seq<T>, c: seq<T>)
    ensures a + (b + c) == (a + b) + c
  {
  }

  /** Concatenation one last element at a time. */
  lemma LastOff<T>(a: seq<T>, b: seq<T>)
    requires b != []
    ensures b == b[..|b| - 1] + [b[|b| - 1]]
    ensures a + b == (a + b[..|b| - 1]) + [b[|b| - 1]]
  {
  }

  lemma FlattenSnoc<T>(a: seq<seq<T>>, x: seq<T>)
    ensures Flatten(a + [x]) == Flatten(a) + x
  {
    FlattenConcat(a, [x]);
    assert Flatten([x]) == x + Flatten([]);
  }

  predicate Ascending(s: seq<int>) {
    forall i, j :: 0 <= i < j < |s| ==> s[i] < s[j]
  }

  lemma {:induction false} HasMinimum(s: set<int>)
    requires s != {}
    ensures exists m :: m in s && forall x :: x in s ==> m <= x
  {
    assert (forall x :: x !in s) ==> s == {};
    var x :| x in s;
    var rest := s - {x};
    assert forall y :: y in s ==> y == x || y in rest;
    if rest == {} {
      assert forall y :: y in s ==> x <= y;
    } else {
      HasMinimum(rest);
      var m :| m in rest && forall y :: y in rest ==> m <= y;
      var k := if x < m then x else m;
      assert k in s && forall y :: y in s ==> k <= y;
    }
  }

  function Minimum(s: set<int>): (m: int)
    requires s != {}
    ensures m in s && forall x :: x in s ==> m <= x
  {
    HasMinimum(s);
    var m :| m in s && forall x :: x in s ==> m <= x;
    m
  }

  /** Python's `sorted(set)` over integers. */
  function Sorted(s: set<int>): (r: seq<int>)
    ensures Ascending(r)
    ensures forall x :: x in r <==> x in s
  {
    if s == {} then [] else var m := Minimum(s); [m] + Sorted(s - {m})
  }

  ghost predicate Agree<K, T>(x: map<K, T>, y: map<K, T>, k: K) {
    (k in x <==> k in y) && (k in x && k in y ==> x[k] == y[k])
  }

  lemma MapsEqual<K(!new), T>(x: map<K, T>, y: map<K, T>)
    requires forall k :: Agree(x, y, k)
    ensures x == y
  {
    forall k ensures k in x <==> k in y { assert Agree(x, y, k); }
    forall k | k in x ensures k in y && x[k] == y[k] { assert Agree(x, y, k); }
  }

  /** An ascending listing is determined by its members. */
  lemma {:induction false} AscendingUnique(a: seq<int>, b: seq<int>)
    requires Ascending(a) && Ascending(b)
    requires forall x :: x in a <==> x in b
    ensures a == b
  {
    if a == [] {
      assert forall k :: 0 <= k < |b| ==> b[k] in b;
    } else {
      assert a[0] in a && b != [];
      assert b[0] in b;
      assert a[0] == b[0];
      forall x ensures x in a[1..] <==> x in b[1..] {
        if x in a[1..] { assert x in a && x > a[0]; }
        if x in b[1..] { assert x in b && x > b[0]; }
      }
      AscendingUnique(a[1..], b[1..]);
    }
  }

  lemma DivisionBounds(n: int, d: int)
    requires d > 0
    ensures n == (n / d) * d + n % d && 0 <= n % d < d
  {
  }

  lemma MulStep(a: int, b: int, d: int)
    requires a > b && d > 0
    ensures a * d >= b * d + d
  {
    var k := a - b - 1;
    assert 0 <= k * d;
    assert a * d == (b + 1 + k) * d == b * d + d + k * d;
  }

  lemma DivModUnique(n: int, d: int, q: int, r: int)
    requires 0 <= r < d && n == q * d + r
    ensures n / d == q && n % d == r
  {
    var q' := n / d;
    DivisionBounds(n, d);
    if q' > q {
      MulStep(q', q, d);
    } else if q > q' {
      MulStep(q, q', d);
    }
  }

  lemma MulPositive(a: int, b: int)
    requires a > 0 && b > 0
    ensures a * b > 0
  {
  }

  lemma MulMono(a: int, b: int, d: int)
    requires a <= b && d >= 0
    ensures a * d <= b * d
  {
    if a < b && d > 0 { MulStep(b, a, d); }
  }

  lemma QuotientBound(n: nat, d: nat, bound: nat)
    requires d > 0 && n < bound * d
    ensures 0 <= n / d < bound
  {
    DivisionBounds(n, d);
    if n / d >= bound { MulMono(bound, n / d, d); }
    if n / d < 0 { MulMono(n / d, -1, d); }
  }

  lemma RowMajor(i: nat, j: nat, a: nat, b: nat)
    requires i < a && j < b
    ensures 0 <= i * b + j < a * b
    ensures (i * b + j) / b == i && (i * b + j) % b == j
  {
    MulStep(a, i, b);
    assert 0 <= i * b;
    DivModUnique(i * b + j, b, i, j);
  }

  lemma CeilBounds(n: int, d: int)
    requires n > 0 && d > 0
    ensures CeilDiv(n, d) >= 1 && CeilDiv(n, d) * d >= n > (CeilDiv(n, d) - 1) * d
  {
    var q := (-n) / d;
    DivisionBounds(-n, d);
    assert (-q) * d == -(q * d);
    assert (-q - 1) * d == -(q * d) - d;
    if q >= 0 { MulMono(0, q, d); }
  }

  /** Python's `-(-n // d)`. */
  function CeilDiv(n: int, d: int): int
    requires d > 0
  {
    -((-n) / d)
  }
}
