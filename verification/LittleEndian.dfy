/** Fixed-width little-endian numbers, Python's int.to_bytes(width, "little"). */
module LittleEndian {
  import opened Prelude

  function ToLittle(n: nat, width: nat): (b: Bytes)
    ensures |b| == width
  {
    if width == 0 then [] else [(n % 256) as byte] + ToLittle(n / 256, width - 1)
  }

  function FromLittle(b: Bytes): nat {
    if b == [] then 0 else b[0] as nat + 256 * FromLittle(b[1..])
  }

  function Span(width: nat): nat {
    if width == 0 then 1 else 256 * Span(width - 1)
  }

  lemma {:induction false} LittleEndianRead(b: Bytes)
    ensures FromLittle(b) < Span(|b|) && ToLittle(FromLittle(b), |b|) == b
  {
    if b != [] {
      LittleEndianRead(b[1..]);
      DivModUnique(FromLittle(b), 256, FromLittle(b[1..]), b[0] as int);
    }
  }

  lemma {:induction false} LittleEndianWritten(n: nat, width: nat)
    requires n < Span(width)
    ensures FromLittle(ToLittle(n, width)) == n
  {
    if width > 0 {
      QuotientBound(n, 256, Span(width - 1));
      LittleEndianWritten(n / 256, width - 1);
      DivisionBounds(n, 256);
      assert ToLittle(n, width)[1..] == ToLittle(n / 256, width - 1);
    }
  }

  lemma FourBytes()
    ensures Span(4) == 0x1_0000_0000
  {
    assert Span(1) == 256 && Span(2) == 65536 && Span(3) == 16777216;
  }

  /** Equal strings with prefixes of equal length have equal prefixes and equal rests. */
  lemma SplitEqual<T>(p: seq<T>, x: seq<T>, q: seq<T>, y: seq<T>)
    requires |p| == |q| && p + x == q + y
    ensures p == q && x == y
  {
    assert p == (p + x)[..|p|] && q == (q + y)[..|q|];
    assert x == (p + x)[|p|..] && y == (q + y)[|q|..];
  }

  lemma WidthInjective(a: nat, b: nat, width: nat)
    requires a < Span(width) && b < Span(width) && ToLittle(a, width) == ToLittle(b, width)
    ensures a == b
  {
    LittleEndianWritten(a, width);
    LittleEndianWritten(b, width);
  }
}
