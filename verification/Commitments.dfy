/** The on-chain commitment strings (mok_core/chain/schemas.py:105-372). Encoding takes an instance
    its validators accept; decoding yields None where the source raises ValueError. */
module Commitments {
  import opened Base64Url
  import opened Prelude

  const TAG_BUCKET := "MOKB"
  const TAG_WINDOW := "MOKW"
  const TAG_MANIFEST := "MOKM"
  const TAG_VOTE := "MOKV"
  const MAX_COMMITMENT_BYTES: nat := 128

  datatype Creds = Creds(accountId: string, bucketName: string, accessKeyId: string, secretAccessKey: string)

  datatype VoteKind = Rollback | Amendment

  datatype Commitment =
    | Bucket(version: int, creds: Creds)
    | Window(version: int, window: int, payloadHash: string, stateRoot: string, thetaEndHash: string)
    | Manifest(version: int, manifestHash: string)
    | Vote(version: int, kind: VoteKind, target: int, hash: string)

  predicate HexOf(text: string, nbytes: nat) {
    |text| == 2 * nbytes && Numeral(text, 16)
  }

  /** The model validators. */
  predicate Valid(c: Commitment) {
    && 0 <= c.version <= 99
    && match c
       case Bucket(_, creds) =>
         && HexOf(creds.accountId, 16) && HexOf(creds.accessKeyId, 16) && HexOf(creds.secretAccessKey, 32)
         && creds.bucketName != ""
       case Window(_, window, payloadHash, stateRoot, thetaEndHash) =>
         && 0 <= window < 0x100_0000 && (HexOf(payloadHash, 16) || HexOf(payloadHash, 32))
         && HexOf(stateRoot, 32) && HexOf(thetaEndHash, 32)
       case Manifest(_, manifestHash) => HexOf(manifestHash, 32)
       case Vote(_, _, target, hash) => 0 <= target < 1_000_000_000_000 && HexOf(hash, 32)
  }

  function Tag(c: Commitment): string {
    match c
    case Bucket(_, _) => TAG_BUCKET
    case Window(_, _, _, _, _) => TAG_WINDOW
    case Manifest(_, _) => TAG_MANIFEST
    case Vote(_, _, _, _) => TAG_VOTE
  }

  function WireLength(tag: string): nat {
    if tag == TAG_BUCKET then 92 else if tag == TAG_WINDOW then 120 else if tag == TAG_MANIFEST then 70 else 83
  }

  // ---- the prefix ----

  predicate Ascii(text: string) {
    forall i :: 0 <= i < |text| ==> text[i] < 128 as char
  }

  function Prefix(tag: string, version: nat): string {
    tag + Format(version, 10, 2)
  }

  function SplitPrefix(wire: string, tag: string, length: nat): Option<(nat, string)>
    requires length >= 6
  {
    if !Ascii(wire) || |wire| != length || wire[..4] != tag || !Numeral(wire[4..6], 10) then None
    else Some((Parse(wire[4..6], 10), wire[6..]))
  }

  lemma HundredVersions()
    ensures Power(10, 2) == 100
  {
    assert Power(10, 1) == 10;
  }

  lemma SplitJoined(tag: string, version: nat, body: string)
    requires |tag| == 4 && Ascii(tag) && Ascii(body) && version <= 99
    ensures SplitPrefix(Prefix(tag, version) + body, tag, 6 + |body|) == Some((version, body))
  {
    var digits := Format(version, 10, 2);
    var wire := Prefix(tag, version) + body;
    HundredVersions();
    ParseFormat(version, 10, 2);
    assert wire[..4] == tag && wire[4..6] == digits && wire[6..] == body;
    forall i | 0 <= i < |wire| ensures wire[i] < 128 as char {
      if i < 4 { assert wire[i] == tag[i]; } else if i < 6 { assert IsDigit(digits[i - 4], 10); } else { assert wire[i] == body[i - 6]; }
    }
  }

  lemma JoinSplitPrefix(wire: string, tag: string, length: nat)
    requires length >= 6 && SplitPrefix(wire, tag, length).Some?
    ensures var (version, body) := SplitPrefix(wire, tag, length).value;
            version <= 99 && |body| == length - 6 && wire == Prefix(tag, version) + body
  {
    HundredVersions();
    FormatParse(wire[4..6], 10);
    assert wire == wire[..4] + wire[4..6] + wire[6..];
  }

  // ---- ss58 names ----

  predicate IsBase58(c: char) {
    '1' <= c <= '9' || 'A' <= c <= 'H' || 'J' <= c <= 'N' || 'P' <= c <= 'Z' || 'a' <= c <= 'k' || 'm' <= c <= 'z'
  }

  predicate IsHotkey(hotkey: string) {
    46 <= |hotkey| <= 50 && forall i :: 0 <= i < |hotkey| ==> IsBase58(hotkey[i])
  }

  function Lower(text: string): (r: string)
    ensures |r| == |text|
  {
    if text == "" then "" else [if 'A' <= text[0] <= 'Z' then text[0] + 32 as char else text[0]] + Lower(text[1..])
  }

  // ---- encoding ----

  function VoteChar(kind: VoteKind): string {
    match kind
    case Rollback => "R"
    case Amendment => "A"
  }

  function Raw(creds: Creds): Bytes
    requires HexOf(creds.accountId, 16) && HexOf(creds.accessKeyId, 16) && HexOf(creds.secretAccessKey, 32)
  {
    FromHex(creds.accountId) + FromHex(creds.accessKeyId) + FromHex(creds.secretAccessKey)
  }

  /** The 128 bits of the payload hash that go on chain. */
  function PayloadPrefix(c: Commitment): string
    requires c.Window? && Valid(c)
  {
    c.payloadHash[..32]
  }

  /** The bytes of a hex field as base64url. */
  function Field(text: string): string
    requires |text| % 2 == 0 && Numeral(text, 16)
  {
    Encode(FromHex(text))
  }

  function Body(c: Commitment): string
    requires Valid(c)
  {
    match c
    case Bucket(_, creds) => Encode(Raw(creds))
    case Window(_, window, _, stateRoot, thetaEndHash) =>
      NumeralPrefix(c.payloadHash, 32);
      Format(window, 16, 6) + Field(PayloadPrefix(c)) + Field(stateRoot) + Field(thetaEndHash)
    case Manifest(_, manifestHash) => manifestHash
    case Vote(_, kind, target, hash) => VoteChar(kind) + Format(target, 10, 12) + hash
  }

  lemma NumeralPrefix(text: string, n: nat)
    requires n <= |text| && Numeral(text, 16)
    ensures Numeral(text[..n], 16) && Numeral(text[n..], 16)
  {
  }

  function EncodeCommitment(c: Commitment): string
    requires Valid(c)
  {
    Prefix(Tag(c), c.version) + Body(c)
  }

  // ---- decoding ----

  function Checked(c: Commitment): Option<Commitment> {
    if Valid(c) then Some(c) else None
  }

  function DecodeBucket(wire: string, hotkey: string): Option<Commitment> {
    match SplitPrefix(wire, TAG_BUCKET, 92)
    case None => None
    case Some((version, body)) => ReadBucket(version, body, hotkey)
  }

  function ReadBucket(version: nat, body: string, hotkey: string): Option<Commitment> {
    match Decode(body, 64)
    case None => None
    case Some(raw) => if !IsHotkey(hotkey) || |raw| != 64 then None else Checked(Bucket(version, ReadCreds(raw, hotkey)))
  }

  function ReadCreds(raw: Bytes, hotkey: string): Creds
    requires |raw| == 64
  {
    Creds(Hex(raw[..16]), Lower(hotkey), Hex(raw[16..32]), Hex(raw[32..]))
  }

  function DecodeWindow(wire: string): Option<Commitment> {
    match SplitPrefix(wire, TAG_WINDOW, 120)
    case None => None
    case Some((version, body)) => ReadWindow(version, body[..6], body[6..28], body[28..71], body[71..])
  }

  function ReadWindow(version: nat, window: string, payloadHash: string, stateRoot: string, thetaEndHash: string): Option<Commitment> {
    if !Numeral(window, 16) then None
    else
      match (DecodeHex(payloadHash, 16), DecodeHex(stateRoot, 32), DecodeHex(thetaEndHash, 32))
      case (Some(p), Some(s), Some(t)) => Checked(Window(version, Parse(window, 16), p, s, t))
      case _ => None
  }

  function DecodeHex(text: string, nbytes: nat): Option<string> {
    match Decode(text, nbytes)
    case None => None
    case Some(raw) => Some(Hex(raw))
  }

  function DecodeManifest(wire: string): Option<Commitment> {
    match SplitPrefix(wire, TAG_MANIFEST, 70)
    case None => None
    case Some((version, body)) => Checked(Manifest(version, body))
  }

  function DecodeVote(wire: string): Option<Commitment> {
    match SplitPrefix(wire, TAG_VOTE, 83)
    case None => None
    case Some((version, body)) =>
      if body[0] != 'R' && body[0] != 'A' then None
      else if !Numeral(body[1..13], 10) then None
      else Checked(Vote(version, if body[0] == 'R' then Rollback else Amendment, Parse(body[1..13], 10), body[13..]))
  }

  /** decode_commitment */
  function DecodeCommitment(wire: string, hotkey: Option<string>): Option<Commitment> {
    if |wire| < 6 then None
    else if wire[..4] == TAG_BUCKET then
      if hotkey == None then None else DecodeBucket(wire, hotkey.value)
    else if wire[..4] == TAG_WINDOW then DecodeWindow(wire)
    else if wire[..4] == TAG_MANIFEST then DecodeManifest(wire)
    else if wire[..4] == TAG_VOTE then DecodeVote(wire)
    else None
  }

  // ---- bodies ----

  lemma LettersAscii(text: string)
    ensures AllLetters(text) ==> Ascii(text)
    ensures Numeral(text, 16) ==> Ascii(text)
    ensures Numeral(text, 10) ==> Numeral(text, 16)
  {
    if AllLetters(text) {
      forall i | 0 <= i < |text| ensures text[i] < 128 as char { assert IsLetter(text[i]); }
    }
    if Numeral(text, 16) {
      forall i | 0 <= i < |text| ensures text[i] < 128 as char { assert IsDigit(text[i], 16); }
    }
    if Numeral(text, 10) {
      forall i | 0 <= i < |text| ensures IsDigit(text[i], 16) { assert IsDigit(text[i], 10); }
    }
  }

  lemma Powers()
    ensures Power(16, 6) == 0x100_0000 && Power(10, 12) == 1_000_000_000_000
  {
    assert Power(16, 2) == 256 && Power(16, 4) == 65536 && Power(16, 6) == Power(16, 5) * 16;
    assert Power(10, 2) == 100 && Power(10, 4) == 10_000 && Power(10, 6) == 1_000_000 && Power(10, 8) == 100_000_000;
    assert Power(10, 10) == 10_000_000_000;
  }

  lemma FieldShape(text: string, nbytes: nat)
    requires HexOf(text, nbytes) && nbytes > 0
    ensures |Field(text)| == Length(nbytes) && Ascii(Field(text)) && DecodeHex(Field(text), nbytes) == Some(text)
  {
    DecodeEncode(FromHex(text));
    LettersAscii(Field(text));
    HexFromHex(text);
  }

  lemma FieldAccepted(text: string, nbytes: nat)
    requires DecodeHex(text, nbytes).Some?
    ensures var h := DecodeHex(text, nbytes).value;
            HexOf(h, nbytes) && Field(h) == text && |text| == Length(nbytes)
  {
    DecodeAccepts(text, nbytes);
    FromHexHex(Decode(text, nbytes).value);
  }

  lemma WindowNumeral(window: nat, text: string)
    ensures window < 0x100_0000 ==> Parse(Format(window, 16, 6), 16) == window && Ascii(Format(window, 16, 6))
    ensures |text| == 6 && Numeral(text, 16) ==> Parse(text, 16) < 0x100_0000 && Format(Parse(text, 16), 16, 6) == text
  {
    Powers();
    LettersAscii(Format(window, 16, 6));
    if window < 0x100_0000 { ParseFormat(window, 16, 6); }
    if |text| == 6 && Numeral(text, 16) { FormatParse(text, 16); }
  }

  lemma RawShape(creds: Creds)
    requires HexOf(creds.accountId, 16) && HexOf(creds.accessKeyId, 16) && HexOf(creds.secretAccessKey, 32)
    ensures |Raw(creds)| == 64
    ensures Hex(Raw(creds)[..16]) == creds.accountId && Hex(Raw(creds)[16..32]) == creds.accessKeyId
    ensures Hex(Raw(creds)[32..]) == creds.secretAccessKey
  {
    var a, k, x := FromHex(creds.accountId), FromHex(creds.accessKeyId), FromHex(creds.secretAccessKey);
    assert (a + k + x)[..16] == a && (a + k + x)[16..32] == k && (a + k + x)[32..] == x;
    HexFromHex(creds.accountId);
    HexFromHex(creds.accessKeyId);
    HexFromHex(creds.secretAccessKey);
  }

  /** Cutting the window body at its fixed positions gives back the fields. */
  lemma WindowFields(w: string, p: string, s: string, t: string)
    requires |w| == 6 && |p| == 22 && |s| == 43 && |t| == 43
    ensures var body := w + p + s + t;
            |body| == 114 && body[..6] == w && body[6..28] == p && body[28..71] == s && body[71..] == t
    ensures Ascii(w) && Ascii(p) && Ascii(s) && Ascii(t) ==> Ascii(w + p + s + t)
  {
  }

  lemma WindowCut(body: string)
    requires |body| == 114
    ensures body == body[..6] + body[6..28] + body[28..71] + body[71..]
  {
  }

  lemma VoteFields(k: string, n: string, h: string)
    requires |k| == 1 && |n| == 12 && |h| == 64
    ensures var body := k + n + h;
            |body| == 77 && body[0] == k[0] && body[1..13] == n && body[13..] == h
    ensures Ascii(k) && Ascii(n) && Ascii(h) ==> Ascii(k + n + h)
  {
  }

  lemma VoteCut(body: string)
    requires |body| == 77
    ensures body == [body[0]] + body[1..13] + body[13..]
  {
  }

  // ---- decoding inverts encoding ----

  lemma JoinedBucket(version: nat, body: string, hotkey: string)
    requires version <= 99 && |body| == 86 && Ascii(body)
    ensures |Prefix(TAG_BUCKET, version) + body| == 92
    ensures DecodeBucket(Prefix(TAG_BUCKET, version) + body, hotkey) == ReadBucket(version, body, hotkey)
  {
    SplitJoined(TAG_BUCKET, version, body);
  }

  lemma EncodedCreds(raw: Bytes)
    requires |raw| == 64
    ensures |Encode(raw)| == 86 && Ascii(Encode(raw)) && Decode(Encode(raw), 64) == Some(raw)
  {
    DecodeEncode(raw);
    LettersAscii(Encode(raw));
  }

  lemma BucketRoundTrip(c: Commitment, hotkey: string)
    requires c.Bucket? && Valid(c) && IsHotkey(hotkey)
    ensures |EncodeCommitment(c)| == 92
    ensures DecodeBucket(EncodeCommitment(c), hotkey) == Some(c.(creds := c.creds.(bucketName := Lower(hotkey))))
  {
    RawShape(c.creds);
    EncodedCreds(Raw(c.creds));
    JoinedBucket(c.version, Encode(Raw(c.creds)), hotkey);
  }

  lemma FieldsRead(version: nat, window: nat, w: string, p: string, s: string, t: string, ph: string, sr: string, th: string)
    requires Numeral(w, 16) && Parse(w, 16) == window
    requires DecodeHex(p, 16) == Some(ph) && DecodeHex(s, 32) == Some(sr) && DecodeHex(t, 32) == Some(th)
    ensures ReadWindow(version, w, p, s, t) == Checked(Window(version, window, ph, sr, th))
  {
  }

  lemma PrefixValid(c: Commitment)
    requires c.Window? && Valid(c)
    ensures HexOf(PayloadPrefix(c), 16) && Valid(c.(payloadHash := PayloadPrefix(c)))
  {
    NumeralPrefix(c.payloadHash, 32);
  }

  lemma WindowText(c: Commitment, w: string, p: string, s: string, t: string)
    requires c.Window? && Valid(c) && HexOf(PayloadPrefix(c), 16)
    requires w == Format(c.window, 16, 6) && p == Field(PayloadPrefix(c)) && s == Field(c.stateRoot) && t == Field(c.thetaEndHash)
    ensures |p| == 22 && |s| == 43 && |t| == 43 && Ascii(w) && Ascii(p) && Ascii(s) && Ascii(t)
    ensures ReadWindow(c.version, w, p, s, t) == Checked(c.(payloadHash := PayloadPrefix(c)))
  {
    WindowNumeral(c.window, "");
    FieldShape(PayloadPrefix(c), 16);
    FieldShape(c.stateRoot, 32);
    FieldShape(c.thetaEndHash, 32);
    FieldsRead(c.version, c.window, w, p, s, t, PayloadPrefix(c), c.stateRoot, c.thetaEndHash);
  }

  lemma WindowRoundTrip(c: Commitment)
    requires c.Window? && Valid(c)
    ensures |EncodeCommitment(c)| == 120
    ensures DecodeWindow(EncodeCommitment(c)) == Some(c.(payloadHash := PayloadPrefix(c)))
  {
    PrefixValid(c);
    var w, p, s, t := Format(c.window, 16, 6), Field(PayloadPrefix(c)), Field(c.stateRoot), Field(c.thetaEndHash);
    WindowText(c, w, p, s, t);
    JoinedWindow(c.version, w, p, s, t);
  }

  lemma JoinedWindow(version: nat, w: string, p: string, s: string, t: string)
    requires version <= 99 && |w| == 6 && |p| == 22 && |s| == 43 && |t| == 43
    requires Ascii(w) && Ascii(p) && Ascii(s) && Ascii(t)
    ensures var wire := Prefix(TAG_WINDOW, version) + (w + p + s + t);
            |wire| == 120 && DecodeWindow(wire) == ReadWindow(version, w, p, s, t)
  {
    WindowFields(w, p, s, t);
    SplitJoined(TAG_WINDOW, version, w + p + s + t);
  }

  lemma ManifestRoundTrip(c: Commitment)
    requires c.Manifest? && Valid(c)
    ensures |EncodeCommitment(c)| == 70 && DecodeManifest(EncodeCommitment(c)) == Some(c)
  {
    LettersAscii(c.manifestHash);
    SplitJoined(TAG_MANIFEST, c.version, Body(c));
  }

  lemma VoteRoundTrip(c: Commitment)
    requires c.Vote? && Valid(c)
    ensures |EncodeCommitment(c)| == 83 && DecodeVote(EncodeCommitment(c)) == Some(c)
  {
    var n := Format(c.target, 10, 12);
    LettersAscii(n);
    LettersAscii(c.hash);
    VoteFields(VoteChar(c.kind), n, c.hash);
    SplitJoined(TAG_VOTE, c.version, Body(c));
    Powers();
    ParseFormat(c.target, 10, 12);
  }

  /** What of a commitment its wire string carries, read by the committer's peers. */
  function OnWire(c: Commitment, hotkey: string): Commitment
    requires Valid(c)
  {
    match c
    case Bucket(_, creds) => c.(creds := creds.(bucketName := Lower(hotkey)))
    case Window(_, _, _, _, _) => c.(payloadHash := PayloadPrefix(c))
    case Manifest(_, _) => c
    case Vote(_, _, _, _) => c
  }

  lemma TagsDiffer()
    ensures TAG_BUCKET != TAG_WINDOW && TAG_BUCKET != TAG_MANIFEST && TAG_BUCKET != TAG_VOTE
    ensures TAG_WINDOW != TAG_MANIFEST && TAG_WINDOW != TAG_VOTE && TAG_MANIFEST != TAG_VOTE
  {
    assert TAG_BUCKET[3] == 'B' && TAG_WINDOW[3] == 'W' && TAG_MANIFEST[3] == 'M' && TAG_VOTE[3] == 'V';
  }

  lemma DispatchWire(wire: string, hotkey: string)
    requires |wire| >= 6
    ensures wire[..4] == TAG_BUCKET ==> DecodeCommitment(wire, Some(hotkey)) == DecodeBucket(wire, hotkey)
    ensures wire[..4] == TAG_WINDOW ==> DecodeCommitment(wire, Some(hotkey)) == DecodeWindow(wire)
    ensures wire[..4] == TAG_MANIFEST ==> DecodeCommitment(wire, Some(hotkey)) == DecodeManifest(wire)
    ensures wire[..4] == TAG_VOTE ==> DecodeCommitment(wire, Some(hotkey)) == DecodeVote(wire)
  {
    TagsDiffer();
  }

  lemma TagFirst(tag: string, version: nat, body: string)
    requires |tag| == 4
    ensures |Prefix(tag, version) + body| >= 6 && (Prefix(tag, version) + body)[..4] == tag
  {
  }

  /** The tag of an encoding picks the decoder of its kind. */
  lemma Dispatched(c: Commitment, hotkey: string)
    requires Valid(c)
    ensures var wire, decoded := EncodeCommitment(c), DecodeCommitment(EncodeCommitment(c), Some(hotkey));
            match c
            case Bucket(_, _) => decoded == DecodeBucket(wire, hotkey)
            case Window(_, _, _, _, _) => decoded == DecodeWindow(wire)
            case Manifest(_, _) => decoded == DecodeManifest(wire)
            case Vote(_, _, _, _) => decoded == DecodeVote(wire)
  {
    TagFirst(Tag(c), c.version, Body(c));
    DispatchWire(EncodeCommitment(c), hotkey);
  }

  lemma OwnRoundTrip(c: Commitment, hotkey: string)
    requires Valid(c) && IsHotkey(hotkey)
    ensures |EncodeCommitment(c)| == match c
            case Bucket(_, _) => 92
            case Window(_, _, _, _, _) => 120
            case Manifest(_, _) => 70
            case Vote(_, _, _, _) => 83
    ensures var wire := EncodeCommitment(c);
            Some(OnWire(c, hotkey)) == match c
            case Bucket(_, _) => DecodeBucket(wire, hotkey)
            case Window(_, _, _, _, _) => DecodeWindow(wire)
            case Manifest(_, _) => DecodeManifest(wire)
            case Vote(_, _, _, _) => DecodeVote(wire)
  {
    match c
    case Bucket(_, _) => BucketRoundTrip(c, hotkey);
    case Window(_, _, _, _, _) => WindowRoundTrip(c);
    case Manifest(_, _) => ManifestRoundTrip(c);
    case Vote(_, _, _, _) => VoteRoundTrip(c);
  }

  /** Decoding inverts encoding for every kind, within one 128-byte field; a window keeps the first
      128 bits of its payload hash, and a bucket name is replaced by the committer's own. */
  lemma DecodeInvertsEncode(c: Commitment, hotkey: string)
    requires Valid(c) && IsHotkey(hotkey)
    ensures |EncodeCommitment(c)| == WireLength(Tag(c)) <= MAX_COMMITMENT_BYTES
    ensures DecodeCommitment(EncodeCommitment(c), Some(hotkey)) == Some(OnWire(c, hotkey))
  {
    OwnRoundTrip(c, hotkey);
    Dispatched(c, hotkey);
    TagsDiffer();
  }

  // ---- encoding inverts decoding ----

  lemma CredsRead(raw: Bytes, hotkey: string)
    requires |raw| == 64
    ensures var creds := ReadCreds(raw, hotkey);
            && HexOf(creds.accountId, 16) && HexOf(creds.accessKeyId, 16) && HexOf(creds.secretAccessKey, 32)
            && Raw(creds) == raw
  {
    FromHexHex(raw[..16]);
    FromHexHex(raw[16..32]);
    FromHexHex(raw[32..]);
    assert raw == raw[..16] + raw[16..32] + raw[32..];
  }

  lemma BucketAccepted(wire: string, hotkey: string)
    requires DecodeBucket(wire, hotkey).Some?
    ensures var c := DecodeBucket(wire, hotkey).value; c.Bucket? && Valid(c) && EncodeCommitment(c) == wire
    ensures DecodeBucket(wire, hotkey).value.creds.bucketName == Lower(hotkey)
  {
    var (version, body) := SplitPrefix(wire, TAG_BUCKET, 92).value;
    JoinSplitPrefix(wire, TAG_BUCKET, 92);
    DecodeAccepts(body, 64);
    CredsRead(Decode(body, 64).value, hotkey);
  }

  lemma WindowAccepted(wire: string)
    requires DecodeWindow(wire).Some?
    ensures var c := DecodeWindow(wire).value; c.Window? && Valid(c) && EncodeCommitment(c) == wire && |c.payloadHash| == 32
  {
    var (version, body) := SplitPrefix(wire, TAG_WINDOW, 120).value;
    JoinSplitPrefix(wire, TAG_WINDOW, 120);
    WindowReadBack(version, body[..6], body[6..28], body[28..71], body[71..]);
    WindowCut(body);
  }

  lemma ShortPayloadBody(c: Commitment)
    requires c.Window? && Valid(c) && |c.payloadHash| == 32
    ensures PayloadPrefix(c) == c.payloadHash
    ensures Body(c) == Format(c.window, 16, 6) + Field(c.payloadHash) + Field(c.stateRoot) + Field(c.thetaEndHash)
  {
    assert c.payloadHash[..32] == c.payloadHash;
  }

  lemma WindowReadBack(version: nat, w: string, p: string, s: string, t: string)
    requires ReadWindow(version, w, p, s, t).Some? && |w| == 6
    ensures var c := ReadWindow(version, w, p, s, t).value;
            && c.Window? && Valid(c) && c.version == version && |c.payloadHash| == 32
            && Body(c) == w + p + s + t
  {
    FieldAccepted(p, 16);
    FieldAccepted(s, 32);
    FieldAccepted(t, 32);
    WindowNumeral(0, w);
    ShortPayloadBody(ReadWindow(version, w, p, s, t).value);
  }

  lemma VoteAccepted(wire: string)
    requires DecodeVote(wire).Some?
    ensures var c := DecodeVote(wire).value; c.Vote? && Valid(c) && EncodeCommitment(c) == wire
  {
    var (version, body) := SplitPrefix(wire, TAG_VOTE, 83).value;
    JoinSplitPrefix(wire, TAG_VOTE, 83);
    FormatParse(body[1..13], 10);
    VoteCut(body);
  }

  /** Every accepted string is the encoding of what it decodes to. */
  lemma EncodeInvertsDecode(wire: string, hotkey: Option<string>)
    requires DecodeCommitment(wire, hotkey).Some?
    ensures var c := DecodeCommitment(wire, hotkey).value;
            Valid(c) && EncodeCommitment(c) == wire && (c.Bucket? ==> hotkey.Some?)
  {
    if wire[..4] == TAG_BUCKET {
      BucketAccepted(wire, hotkey.value);
    } else if wire[..4] == TAG_WINDOW {
      WindowAccepted(wire);
    } else if wire[..4] == TAG_MANIFEST {
      JoinSplitPrefix(wire, TAG_MANIFEST, 70);
    } else {
      VoteAccepted(wire);
    }
  }

  /** No two strings decode to the same commitment. */
  lemma DecodingIsInjective(a: string, b: string, hotkey: Option<string>, other: Option<string>)
    requires DecodeCommitment(a, hotkey).Some? && DecodeCommitment(a, hotkey) == DecodeCommitment(b, other)
    ensures a == b
  {
    EncodeInvertsDecode(a, hotkey);
    EncodeInvertsDecode(b, other);
  }

  /** A bucket commit reads back as itself exactly when its bucket is named after the committer. */
  lemma BucketKeptExactly(c: Commitment, hotkey: string)
    requires c.Bucket? && Valid(c) && IsHotkey(hotkey)
    ensures DecodeCommitment(EncodeCommitment(c), Some(hotkey)) == Some(c) <==> c.creds.bucketName == Lower(hotkey)
  {
    DecodeInvertsEncode(c, hotkey);
  }

  /** binds_payload_hash */
  predicate Binds(c: Commitment, full: string)
    requires c.Window? && Valid(c)
  {
    PayloadPrefix(c) <= Lower(full)
  }

  /** Only 128 bits are bound on chain, and going over the wire neither adds to nor takes from them. */
  lemma WireBindsSame(c: Commitment, full: string)
    requires c.Window? && Valid(c)
    ensures DecodeWindow(EncodeCommitment(c)).Some?
    ensures var back := DecodeWindow(EncodeCommitment(c)).value;
            back.Window? && Valid(back) && (Binds(back, full) <==> Binds(c, full))
  {
    WindowRoundTrip(c);
    PrefixValid(c);
    ShortPayloadBody(c.(payloadHash := PayloadPrefix(c)));
  }

  lemma {:induction false} LowerHex(text: string)
    requires Numeral(text, 16)
    ensures Lower(text) == text
  {
    if text != "" {
      assert IsDigit(text[0], 16);
      LowerHex(text[1..]);
    }
  }

  /** A commit made with a full hash binds that hash, and of the 256-bit hashes exactly those that
      share its first 128 bits. */
  lemma BindsExactly(c: Commitment, full: string)
    requires c.Window? && Valid(c) && HexOf(full, 32)
    ensures Binds(c, full) <==> full[..32] == PayloadPrefix(c)
    ensures |c.payloadHash| == 64 ==> Binds(c, c.payloadHash)
  {
    LowerHex(full);
    LowerHex(c.payloadHash);
  }
}
