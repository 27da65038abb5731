/** The text codecs under the commitments (mok_core/chain/schemas.py:83-144): base64url without
    padding (section 5 of RFC 4648, pad bits zero as in its section 3.5), lower-case hex, and
    fixed-width numerals. None stands for the ValueError each of them raises. */
module Base64Url {
  import opened BitPacking
  import opened Prelude

  type Sextet = x: int | 0 <= x < 64

  // ---- the alphabet ----

  function Letter(v: Sextet): (c: char)
    ensures IsLetter(c)
  {
    if v < 26 then 'A' + v as char
    else if v < 52 then 'a' + (v - 26) as char
    else if v < 62 then '0' + (v - 52) as char
    else if v == 62 then '-' else '_'
  }

  predicate IsLetter(c: char) {
    'A' <= c <= 'Z' || 'a' <= c <= 'z' || '0' <= c <= '9' || c == '-' || c == '_'
  }

  function Value(c: char): (v: Sextet)
    requires IsLetter(c)
  {
    var n := c as int;
    if 'A' <= c <= 'Z' then n - 65
    else if 'a' <= c <= 'z' then n - 97 + 26
    else if '0' <= c <= '9' then n - 48 + 52
    else if c == '-' then 62 else 63
  }

  lemma LetterInverses(v: Sextet, c: char)
    ensures Value(Letter(v)) == v
    ensures IsLetter(c) ==> Letter(Value(c)) == c
  {
  }

  // ---- groups of three bytes ----

  /** Unpadded length: a tail of one byte takes two letters, a tail of two takes three. */
  function Length(n: nat): nat {
    (4 * n + 2) / 3
  }

  function Split(b: Bytes): (s: seq<Sextet>)
    requires |b| == 3
    ensures |s| == 4
  {
    var x, y, z := b[0] as int, b[1] as int, b[2] as int;
    [x / 4, x % 4 * 16 + y / 16, y % 16 * 4 + z / 64, z % 64]
  }

  function Join(s: seq<Sextet>): (b: Bytes)
    requires |s| == 4
    ensures |b| == 3
  {
    var p: int, q: int, r: int, t: int := s[0], s[1], s[2], s[3];
    [(p * 4 + q / 16) as byte, (q % 16 * 16 + r / 4) as byte, (r % 4 * 64 + t) as byte]
  }

  function SplitTail(b: Bytes): (s: seq<Sextet>)
    requires |b| < 3
    ensures |s| == if b == [] then 0 else |b| + 1
  {
    if b == [] then [] else if |b| == 1 then Split([b[0], 0, 0])[..2] else Split([b[0], b[1], 0])[..3]
  }

  function JoinTail(s: seq<Sextet>): (b: Bytes)
    requires |s| < 4 && |s| != 1
    ensures |b| == if s == [] then 0 else |s| - 1
  {
    if s == [] then [] else if |s| == 2 then Join([s[0], s[1], 0, 0])[..1] else Join([s[0], s[1], s[2], 0])[..2]
  }

  lemma GroupInverses(b: Bytes, s: seq<Sextet>)
    requires |b| == 3 && |s| == 4
    ensures Join(Split(b)) == b
    ensures Split(Join(s)) == s
  {
    var p: int, q: int, r: int, t: int := s[0], s[1], s[2], s[3];
    DivModUnique(p * 4 + q / 16, 4, p, q / 16);
    DivModUnique(q % 16 * 16 + r / 4, 16, q % 16, r / 4);
    DivModUnique(r % 4 * 64 + t, 64, r % 4, t);
  }

  lemma GroupsUndo()
    ensures Undoes(Join, Split, 3, 4, _ => true)
    ensures Undoes(Split, Join, 4, 3, _ => true)
  {
    forall b: Bytes | |b| == 3 ensures Join(Split(b)) == b { GroupInverses(b, [0, 0, 0, 0]); }
    forall s: seq<Sextet> | |s| == 4 ensures Split(Join(s)) == s { GroupInverses([0, 0, 0], s); }
  }

  lemma JoinSplitOne(x: byte)
    ensures JoinTail(SplitTail([x])) == [x]
  {
    var s := Split([x, 0, 0]);
    assert s == [s[0], s[1], 0, 0];
    GroupInverses([x, 0, 0], s);
  }

  lemma JoinSplitTwo(x: byte, y: byte)
    ensures JoinTail(SplitTail([x, y])) == [x, y]
  {
    var s := Split([x, y, 0]);
    assert s == [s[0], s[1], s[2], 0];
    GroupInverses([x, y, 0], s);
  }

  lemma JoinSplitTail(b: Bytes)
    requires |b| < 3
    ensures JoinTail(SplitTail(b)) == b
  {
    if |b| == 1 {
      JoinSplitOne(b[0]);
      assert b == [b[0]];
    } else if |b| == 2 {
      JoinSplitTwo(b[0], b[1]);
      assert b == [b[0], b[1]];
    }
  }

  lemma SplitJoinTail(s: seq<Sextet>)
    requires |s| < 4 && |s| != 1
    ensures SplitTail(JoinTail(s)) == s <==> PadBitsZero(s)
  {
    if |s| == 2 {
      SplitJoinTwo(s[0], s[1]);
      assert s == [s[0], s[1]];
    } else if |s| == 3 {
      SplitJoinThree(s[0], s[1], s[2]);
      assert s == [s[0], s[1], s[2]];
    }
  }

  lemma SplitJoinTwo(p: Sextet, q: Sextet)
    ensures SplitTail(JoinTail([p, q])) == [p, q / 16 * 16]
  {
  }

  lemma SplitJoinThree(p: Sextet, q: Sextet, r: Sextet)
    ensures SplitTail(JoinTail([p, q, r])) == [p, q, r / 4 * 4]
  {
    JoinedParts(p, q, r);
  }

  lemma JoinedParts(p: int, q: int, r: int)
    requires 0 <= p < 64 && 0 <= q < 64 && 0 <= r < 64
    ensures (p * 4 + q / 16) / 4 == p && (p * 4 + q / 16) % 4 == q / 16
    ensures (q % 16 * 16 + r / 4) / 16 == q % 16 && (q % 16 * 16 + r / 4) % 16 == r / 4
    ensures q / 16 * 16 + q % 16 == q
  {
    DivModUnique(p * 4 + q / 16, 4, p, q / 16);
    DivModUnique(q % 16 * 16 + r / 4, 16, q % 16, r / 4);
  }

  function ToSextets(b: Bytes): seq<Sextet> {
    Blockwise(Split, 3, b) + SplitTail(b[|b| - |b| % 3..])
  }

  /** urlsafe_b64decode once padded: whatever the last letter holds beyond the bytes is dropped. */
  function ToBytes(s: seq<Sextet>): Bytes
    requires |s| % 4 != 1
  {
    Blockwise(Join, 4, s) + JoinTail(s[|s| - |s| % 4..])
  }

  lemma Sizes(b: Bytes, s: seq<Sextet>)
    ensures |Blockwise(Split, 3, b)| == |b| / 3 * 4 && Whole(3, b) == b[..|b| / 3 * 3]
    ensures |Blockwise(Join, 4, s)| == |s| / 4 * 3 && Whole(4, s) == s[..|s| / 4 * 4]
    ensures |ToSextets(b)| == Length(|b|)
    ensures |s| % 4 != 1 ==> |s| == Length(|ToBytes(s)|)
  {
    BlocksSize(Split, 3, 4, b, |b| / 3);
    BlocksSize(Join, 4, 3, s, |s| / 4);
  }

  /** Section 3.5: the bits of the last letter that hold no data. */
  predicate PadBitsZero(s: seq<Sextet>) {
    (|s| % 4 == 2 ==> s[|s| - 1] % 16 == 0) && (|s| % 4 == 3 ==> s[|s| - 1] % 4 == 0)
  }

  lemma BytesOfSextets(b: Bytes)
    ensures |ToSextets(b)| % 4 != 1 && ToBytes(ToSextets(b)) == b
  {
    var tail := SplitTail(b[|b| - |b| % 3..]);
    var s := ToSextets(b);
    Sizes(b, s);
    GroupsUndo();
    BlocksInvert(Join, Split, 3, 4, _ => true, b, tail);
    assert s[|s| - |s| % 4..] == tail;
    JoinSplitTail(b[|b| - |b| % 3..]);
    assert b == b[..|b| / 3 * 3] + b[|b| - |b| % 3..];
  }

  /** Going to bytes and back keeps whole groups and rewrites the last, incomplete one. */
  lemma RewrittenTail(s: seq<Sextet>)
    requires |s| % 4 != 1
    ensures ToSextets(ToBytes(s)) == s[..|s| / 4 * 4] + SplitTail(JoinTail(s[|s| - |s| % 4..]))
  {
    var tail, b := JoinTail(s[|s| - |s| % 4..]), ToBytes(s);
    Sizes(b, s);
    GroupsUndo();
    BlocksInvert(Split, Join, 4, 3, _ => true, s, tail);
    assert b[|b| - |b| % 3..] == tail;
  }

  lemma PadBitsOfRest(s: seq<Sextet>)
    ensures var rest := s[|s| - |s| % 4..];
            s == s[..|s| / 4 * 4] + rest && |rest| == |s| % 4 && (PadBitsZero(s) <==> PadBitsZero(rest))
  {
    DivisionBounds(|s|, 4);
  }

  lemma SextetsOfBytes(s: seq<Sextet>)
    requires |s| % 4 != 1
    ensures ToSextets(ToBytes(s)) == s <==> PadBitsZero(s)
  {
    var rest := s[|s| - |s| % 4..];
    RewrittenTail(s);
    SplitJoinTail(rest);
    PadBitsOfRest(s);
    SameTail(s[..|s| / 4 * 4], SplitTail(JoinTail(rest)), rest);
  }

  lemma SameTail(head: seq<Sextet>, a: seq<Sextet>, b: seq<Sextet>)
    ensures head + a == head + b <==> a == b
  {
    if head + a == head + b {
      assert a == (head + a)[|head|..] && b == (head + b)[|head|..];
    }
  }

  // ---- text ----

  function Letters(s: seq<Sextet>): (t: string)
    ensures |t| == |s|
  {
    if s == [] then "" else [Letter(s[0])] + Letters(s[1..])
  }

  predicate AllLetters(text: string) {
    forall i :: 0 <= i < |text| ==> IsLetter(text[i])
  }

  function Values(text: string): (s: seq<Sextet>)
    requires AllLetters(text)
    ensures |s| == |text|
  {
    if text == "" then [] else [Value(text[0])] + Values(text[1..])
  }

  /** _b64e */
  function Encode(raw: Bytes): string {
    Letters(ToSextets(raw))
  }

  /** _b64d */
  function Decode(text: string, nbytes: nat): Option<Bytes> {
    if text == "" || !AllLetters(text) then None
    else if |text| % 4 == 1 then None
    else
      var raw := ToBytes(Values(text));
      if |raw| != nbytes || Encode(raw) != text then None else Some(raw)
  }

  lemma {:induction false} LettersValues(s: seq<Sextet>)
    ensures AllLetters(Letters(s)) && Values(Letters(s)) == s
  {
    if s != [] {
      LettersValues(s[1..]);
      LetterInverses(s[0], 'A');
      var t := Letters(s);
      assert t[1..] == Letters(s[1..]);
      assert forall i :: 0 < i < |t| ==> t[i] == t[1..][i - 1];
    }
  }

  lemma {:induction false} ValuesLetters(text: string)
    requires AllLetters(text)
    ensures Letters(Values(text)) == text
  {
    if text != "" {
      ValuesLetters(text[1..]);
      LetterInverses(0, text[0]);
      assert Values(text)[1..] == Values(text[1..]);
    }
  }

  lemma EncodedText(raw: Bytes)
    ensures AllLetters(Encode(raw)) && |Encode(raw)| == Length(|raw|)
    ensures Length(|raw|) % 4 != 1 && (Encode(raw) == "" <==> raw == [])
    ensures Values(Encode(raw)) == ToSextets(raw)
  {
    Sizes(raw, []);
    LettersValues(ToSextets(raw));
    LengthInjective(|raw|, 0);
  }

  lemma DecodeEncode(raw: Bytes)
    requires raw != []
    ensures |Encode(raw)| == Length(|raw|) && AllLetters(Encode(raw))
    ensures Decode(Encode(raw), |raw|) == Some(raw)
  {
    EncodedText(raw);
    BytesOfSextets(raw);
  }

  lemma CanonicalText(text: string)
    requires AllLetters(text) && |text| % 4 != 1
    ensures Encode(ToBytes(Values(text))) == text <==> PadBitsZero(Values(text))
  {
    var s := Values(text);
    var t := ToSextets(ToBytes(s));
    SextetsOfBytes(s);
    ValuesLetters(text);
    if Letters(t) == text {
      LettersValues(t);
      LettersValues(s);
    }
  }

  /** Exactly the canonical texts are accepted, and each is the encoding of what it decodes to. */
  lemma DecodeAccepts(text: string, nbytes: nat)
    ensures Decode(text, nbytes).Some? <==>
              nbytes > 0 && |text| == Length(nbytes) && AllLetters(text) && PadBitsZero(Values(text))
    ensures Decode(text, nbytes).Some? ==> |Decode(text, nbytes).value| == nbytes && Encode(Decode(text, nbytes).value) == text
  {
    LengthInjective(nbytes, 0);
    if text != "" && AllLetters(text) && |text| % 4 != 1 {
      CanonicalText(text);
      Sizes([], Values(text));
      LengthInjective(|ToBytes(Values(text))|, nbytes);
    }
  }

  lemma LengthForm(n: nat)
    ensures var tail := if n % 3 == 0 then 0 else n % 3 + 1;
            Length(n) == n / 3 * 4 + tail && Length(n) / 4 == n / 3 && Length(n) % 4 == tail
  {
    var q, tail := n / 3, if n % 3 == 0 then 0 else n % 3 + 1;
    DivModUnique(4 * n + 2, 3, q * 4 + tail, 4 * n + 2 - 3 * (q * 4 + tail));
    DivModUnique(q * 4 + tail, 4, q, tail);
  }

  lemma LengthInjective(a: nat, b: nat)
    ensures Length(a) == Length(b) <==> a == b
    ensures Length(a) % 4 != 1 && (Length(a) == 0 <==> a == 0)
  {
    LengthForm(a);
    LengthForm(b);
    if Length(a) == Length(b) {
      assert a / 3 == b / 3 && a % 3 == b % 3;
      DivisionBounds(a, 3);
      DivisionBounds(b, 3);
    }
  }

  // ---- fixed-width numerals ----

  function Power(base: nat, width: nat): nat {
    if width == 0 then 1 else Power(base, width - 1) * base
  }

  predicate IsDigit(c: char, base: nat) {
    ('0' <= c <= '9' && (c as int) - 48 < base) || ('a' <= c <= 'f' && (c as int) - 87 < base)
  }

  function DigitValue(c: char, base: nat): (v: nat)
    requires base <= 16 && IsDigit(c, base)
    ensures v < base
  {
    if '0' <= c <= '9' then (c as int) - 48 else (c as int) - 87
  }

  function Digit(v: nat): (c: char)
    requires v < 16
    ensures forall base :: v < base <= 16 ==> IsDigit(c, base)
  {
    if v < 10 then '0' + v as char else 'a' + (v - 10) as char
  }

  lemma DigitInverses(v: nat, c: char, base: nat)
    requires base <= 16
    ensures v < base ==> DigitValue(Digit(v), base) == v
    ensures IsDigit(c, base) ==> Digit(DigitValue(c, base)) == c
  {
  }

  predicate Numeral(text: string, base: nat) {
    forall i :: 0 <= i < |text| ==> IsDigit(text[i], base)
  }

  /** f"{v:0{width}d}" and f"{v:0{width}x}" for values that fit the width. */
  function Format(v: nat, base: nat, width: nat): (text: string)
    requires 2 <= base <= 16
    ensures |text| == width && Numeral(text, base)
  {
    if width == 0 then "" else Format(v / base, base, width - 1) + [Digit(v % base)]
  }

  function Parse(text: string, base: nat): nat
    requires 2 <= base <= 16 && Numeral(text, base)
  {
    if text == "" then 0 else
      var n := |text| - 1;
      Parse(text[..n], base) * base + DigitValue(text[n], base)
  }

  lemma ParseSnoc(text: string, c: char, base: nat)
    requires 2 <= base <= 16 && Numeral(text, base) && IsDigit(c, base)
    ensures Numeral(text + [c], base) && Parse(text + [c], base) == Parse(text, base) * base + DigitValue(c, base)
  {
    assert (text + [c])[..|text|] == text;
  }

  lemma {:induction false} ParseFormat(v: nat, base: nat, width: nat)
    requires 2 <= base <= 16 && v < Power(base, width)
    ensures Parse(Format(v, base, width), base) == v
  {
    if width > 0 {
      QuotientBound(v, base, Power(base, width - 1));
      ParseFormat(v / base, base, width - 1);
      ParseSnoc(Format(v / base, base, width - 1), Digit(v % base), base);
      DivisionBounds(v, base);
      DigitInverses(v % base, '0', base);
    }
  }

  lemma {:induction false} FormatParse(text: string, base: nat)
    requires 2 <= base <= 16 && Numeral(text, base)
    ensures Parse(text, base) < Power(base, |text|) && Format(Parse(text, base), base, |text|) == text
  {
    if text != "" {
      var n := |text| - 1;
      FormatParse(text[..n], base);
      var high, low := Parse(text[..n], base), DigitValue(text[n], base);
      DivModUnique(high * base + low, base, high, low);
      MulStep(Power(base, n), high, base);
      DigitInverses(0, text[n], base);
      assert text == text[..n] + [text[n]];
    }
  }

  // ---- hex ----

  /** bytes.hex() */
  function Hex(b: Bytes): (text: string)
    ensures |text| == 2 * |b| && Numeral(text, 16)
  {
    if b == [] then "" else [Digit(b[0] as nat / 16), Digit(b[0] as nat % 16)] + Hex(b[1..])
  }

  /** bytes.fromhex() on lower-case hex. */
  function FromHex(text: string): (b: Bytes)
    requires |text| % 2 == 0 && Numeral(text, 16)
    ensures 2 * |b| == |text|
  {
    if text == "" then [] else [(DigitValue(text[0], 16) * 16 + DigitValue(text[1], 16)) as byte] + FromHex(text[2..])
  }

  lemma {:induction false} FromHexHex(b: Bytes)
    ensures FromHex(Hex(b)) == b
  {
    if b != [] {
      FromHexHex(b[1..]);
      DigitInverses(b[0] as nat / 16, '0', 16);
      DigitInverses(b[0] as nat % 16, '0', 16);
      assert Hex(b)[2..] == Hex(b[1..]);
    }
  }

  lemma HexPair(p: char, q: char)
    requires IsDigit(p, 16) && IsDigit(q, 16)
    ensures var x := DigitValue(p, 16) * 16 + DigitValue(q, 16);
            x < 256 && Digit(x / 16) == p && Digit(x % 16) == q
  {
    DigitInverses(0, p, 16);
    DigitInverses(0, q, 16);
    DivModUnique(DigitValue(p, 16) * 16 + DigitValue(q, 16), 16, DigitValue(p, 16), DigitValue(q, 16));
  }

  lemma {:induction false} HexFromHex(text: string)
    requires |text| % 2 == 0 && Numeral(text, 16)
    ensures Hex(FromHex(text)) == text
  {
    if text != "" {
      HexFromHex(text[2..]);
      HexPair(text[0], text[1]);
      var b := FromHex(text);
      assert b[1..] == FromHex(text[2..]);
      assert text == [text[0], text[1]] + text[2..];
    }
  }
}
