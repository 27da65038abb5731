/** median_norm_clip_factors (subnet/core/outer_opt.py:85-102), over the reals: rounding and NaN are
    not modelled. */
module ClipFactors {

  predicate Sorted(s: seq<real>) {
    forall i, j :: 0 <= i < j < |s| ==> s[i] <= s[j]
  }

  function Insert(x: real, s: seq<real>): (r: seq<real>)
    ensures |r| == |s| + 1
  {
    if s == [] || x <= s[0] then [x] + s else [s[0]] + Insert(x, s[1..])
  }

  function Sort(s: seq<real>): (r: seq<real>)
    ensures |r| == |s|
  {
    if s == [] then [] else Insert(s[0], Sort(s[1..]))
  }

  /** torch.median: the lower of the two middle values when there is an even number. */
  function Median(s: seq<real>): real
    requires s != []
  {
    Sort(s)[(|s| - 1) / 2]
  }

  function Factor(median: real, norm: real): real {
    if norm > 0.0 then (if median / norm > 1.0 then 1.0 else median / norm) else 1.0
  }

  function Factors(norms: seq<real>): (r: seq<real>)
    ensures |r| == |norms|
  {
    if norms == [] then [] else var med := Median(norms); seq(|norms|, k requires 0 <= k < |norms| => Factor(med, norms[k]))
  }

  // ---- counting ----

  function CountAtMost(s: seq<real>, x: real): nat {
    if s == [] then 0 else (if s[0] <= x then 1 else 0) + CountAtMost(s[1..], x)
  }

  function CountAtLeast(s: seq<real>, x: real): nat {
    if s == [] then 0 else (if s[0] >= x then 1 else 0) + CountAtLeast(s[1..], x)
  }

  function CountOnes(s: seq<real>): nat {
    if s == [] then 0 else (if s[0] == 1.0 then 1 else 0) + CountOnes(s[1..])
  }

  lemma {:induction false} InsertCounts(y: real, s: seq<real>, x: real)
    ensures CountAtMost(Insert(y, s), x) == CountAtMost([y], x) + CountAtMost(s, x)
    ensures CountAtLeast(Insert(y, s), x) == CountAtLeast([y], x) + CountAtLeast(s, x)
  {
    if s == [] || y <= s[0] {
      assert ([y] + s)[1..] == s && [y][1..] == [];
    } else {
      InsertCounts(y, s[1..], x);
      assert Insert(y, s)[1..] == Insert(y, s[1..]);
    }
  }

  lemma {:induction false} SortCounts(s: seq<real>, x: real)
    ensures CountAtMost(Sort(s), x) == CountAtMost(s, x) && CountAtLeast(Sort(s), x) == CountAtLeast(s, x)
  {
    if s != [] {
      SortCounts(s[1..], x);
      InsertCounts(s[0], Sort(s[1..]), x);
      assert [s[0]][1..] == [];
    }
  }

  lemma {:induction false} InsertSorted(x: real, s: seq<real>)
    requires Sorted(s)
    ensures Sorted(Insert(x, s))
    ensures Insert(x, s)[0] == if s == [] || x <= s[0] then x else s[0]
  {
    if s != [] && x > s[0] {
      InsertSorted(x, s[1..]);
      var rest := Insert(x, s[1..]);
      assert s[0] <= rest[0];
      forall i, j | 0 <= i < j < |rest| + 1 ensures ([s[0]] + rest)[i] <= ([s[0]] + rest)[j] {
        if i == 0 && j > 1 { assert rest[0] <= rest[j - 1]; }
      }
    }
  }

  lemma {:induction false} SortSorts(s: seq<real>)
    ensures Sorted(Sort(s))
  {
    if s != [] {
      SortSorts(s[1..]);
      InsertSorted(s[0], Sort(s[1..]));
    }
  }

  lemma {:induction false} SortedCounts(s: seq<real>, i: nat)
    requires Sorted(s) && i < |s|
    ensures CountAtMost(s, s[i]) >= i + 1 && CountAtLeast(s, s[i]) >= |s| - i
  {
    if i > 0 {
      SortedCounts(s[1..], i - 1);
    } else {
      AllAtLeast(s, s[0]);
    }
  }

  lemma {:induction false} AllAtLeast(s: seq<real>, x: real)
    requires forall k :: 0 <= k < |s| ==> s[k] >= x
    ensures CountAtLeast(s, x) == |s|
  {
    if s != [] { AllAtLeast(s[1..], x); }
  }

  /** At least half of the norms lie on either side of the median. */
  lemma MedianIsMiddle(norms: seq<real>)
    requires norms != []
    ensures CountAtMost(norms, Median(norms)) >= (|norms| + 1) / 2
    ensures CountAtLeast(norms, Median(norms)) >= |norms| / 2 + 1
  {
    SortSorts(norms);
    SortedCounts(Sort(norms), (|norms| - 1) / 2);
    SortCounts(norms, Median(norms));
  }

  lemma SignTimes(x: real, b: real)
    requires b > 0.0
    ensures (x * b > 0.0 <==> x > 0.0) && (x * b == 0.0 <==> x == 0.0)
  {
    if x > 0.0 { assert x * b > 0.0; }
    if x < 0.0 { assert (-x) * b > 0.0; }
  }

  lemma Quotient(q: real, a: real, b: real)
    requires b > 0.0 && q == a / b
    ensures q * b == a && (q > 1.0 <==> a > b) && (q == 0.0 <==> a == 0.0) && (q == 1.0 <==> a == b)
  {
    assert q * b == a;
    assert (q - 1.0) * b == a - b;
    SignTimes(q - 1.0, b);
    SignTimes(q, b);
  }

  lemma OneFactor(med: real, norm: real)
    ensures var f := Factor(med, norm);
            && (norm > 0.0 ==> Clipped(f, norm) == if norm <= med then norm else med)
            && (norm <= 0.0 ==> f == 1.0)
            && (f == 1.0 <==> norm <= 0.0 || norm <= med)
            && (f == 0.0 <==> med == 0.0 && norm > 0.0)
  {
    if norm > 0.0 { Quotient(med / norm, med, norm); }
  }

  function Clipped(f: real, norm: real): real {
    f * norm
  }

  /** After clipping no norm exceeds the median: a positive norm becomes the smaller of the two. */
  lemma ClippedNorm(norms: seq<real>, k: nat)
    requires k < |norms|
    ensures norms[k] > 0.0 ==> Clipped(Factors(norms)[k], norms[k]) == if norms[k] <= Median(norms) then norms[k] else Median(norms)
    ensures Factors(norms)[k] == 1.0 <==> norms[k] <= 0.0 || norms[k] <= Median(norms)
  {
    FactorAt(norms, k);
    OneFactor(Median(norms), norms[k]);
  }

  lemma FactorAt(norms: seq<real>, k: nat)
    requires k < |norms|
    ensures Factors(norms)[k] == Factor(Median(norms), norms[k])
  {
  }

  lemma {:induction false} OnesCount(norms: seq<real>, factors: seq<real>, med: real)
    requires |norms| == |factors| && forall k :: 0 <= k < |norms| && norms[k] <= med ==> factors[k] == 1.0
    ensures CountOnes(factors) >= CountAtMost(norms, med)
  {
    if norms != [] { OnesCount(norms[1..], factors[1..], med); }
  }

  /** At least half of the peers are left as they are. */
  lemma HalfUnclipped(norms: seq<real>)
    requires norms != []
    ensures CountOnes(Factors(norms)) >= (|norms| + 1) / 2
  {
    MedianIsMiddle(norms);
    forall k | 0 <= k < |norms| && norms[k] <= Median(norms) ensures Factors(norms)[k] == 1.0 { ClippedNorm(norms, k); }
    OnesCount(norms, Factors(norms), Median(norms));
  }

  /** A contribution is wiped out exactly when the median peer sent nothing and this one did. */
  lemma SilencedExactly(norms: seq<real>, k: nat)
    requires k < |norms|
    ensures Factors(norms)[k] == 0.0 <==> Median(norms) == 0.0 && norms[k] > 0.0
  {
    OneFactor(Median(norms), norms[k]);
  }
}
