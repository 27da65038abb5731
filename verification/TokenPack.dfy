/** dataprep/pipeline/tokenize_pack.py: EOS-joined token streams, their fixed-length sequences, and
    the two ways of producing them. Tokenization itself is not modelled: a document is its tokens. */
module TokenPack {
  import opened Grouping
  import opened Prelude
  import Base64Url
  import StateRoot

  const MAX_TOKEN_ID := 65535

  predicate IsU16(t: int) {
    0 <= t <= MAX_TOKEN_ID
  }

  predicate AllU16(s: seq<int>) {
    forall i :: 0 <= i < |s| ==> IsU16(s[i])
  }

  datatype Error = BadSeqLen | BadEos | BadToken | BadDtype | BadBlock | BadGroupSize | TooManyChunks(source: nat) | NoTasks | NoFiles

  /** What a generator yielded before it finished or raised. */
  datatype Yielded = Yielded(sequences: seq<seq<int>>, error: Option<Error>)

  /** Exact-length sequences; a shorter rest is dropped. */
  function Sequences(tokens: seq<int>, n: nat): seq<seq<int>>
    requires n > 0
  {
    if |tokens| < n then [] else [tokens[..n]] + Sequences(tokens[n..], n)
  }

  function Rest(tokens: seq<int>, n: nat): seq<int>
    requires n > 0
  {
    if |tokens| < n then tokens else Rest(tokens[n..], n)
  }

  lemma {:induction false} SequencesConcat(a: seq<int>, b: seq<int>, n: nat)
    requires n > 0
    ensures Sequences(a + b, n) == Sequences(a, n) + Sequences(Rest(a, n) + b, n)
    ensures Rest(a + b, n) == Rest(Rest(a, n) + b, n)
  {
    if |a| >= n {
      SequencesConcat(a[n..], b, n);
      assert (a + b)[..n] == a[..n] && (a + b)[n..] == a[n..] + b;
    }
  }

  /** The sequences and the rest are the stream, and the rest is short. */
  lemma {:induction false} SequencesHold(tokens: seq<int>, n: nat)
    requires n > 0
    ensures Flatten(Sequences(tokens, n)) + Rest(tokens, n) == tokens && |Rest(tokens, n)| < n
    ensures forall i :: 0 <= i < |Sequences(tokens, n)| ==> |Sequences(tokens, n)[i]| == n
  {
    if |tokens| >= n {
      SequencesHold(tokens[n..], n);
      assert tokens == tokens[..n] + tokens[n..];
      assert Sequences(tokens, n)[1..] == Sequences(tokens[n..], n);
      var tail := Sequences(tokens[n..], n);
      assert Flatten(Sequences(tokens, n)) == tokens[..n] + Flatten(tail);
    }
  }

  // ---- token at a time ----

  /** The sequences before the first one holding a token out of range. */
  function GoodPrefix(s: seq<seq<int>>): seq<seq<int>> {
    if s == [] || !AllU16(s[0]) then [] else [s[0]] + GoodPrefix(s[1..])
  }

  lemma {:induction false} GoodPrefixConcat(a: seq<seq<int>>, b: seq<seq<int>>)
    requires forall i :: 0 <= i < |a| ==> AllU16(a[i])
    ensures GoodPrefix(a + b) == a + GoodPrefix(b)
  {
    if a == [] {
      assert a + b == b;
    } else {
      GoodPrefixConcat(a[1..], b);
      assert (a + b)[1..] == a[1..] + b;
    }
  }

  /** What the token-at-a-time chunker yields, and how it ends. */
  function StreamYield(tokens: seq<int>, n: nat): Yielded
    requires n > 0
  {
    var all := Sequences(tokens, n);
    Yielded(GoodPrefix(all), if GoodPrefix(all) == all then None else Some(BadToken))
  }

  /** chunk_token_stream. Tokens are checked only when their sequence is full: one out of range in
      the dropped rest goes unnoticed. */
  method ChunkTokenStream(tokens: seq<int>, seqLen: int) returns (r: Yielded)
    ensures seqLen <= 0 ==> r == Yielded([], Some(BadSeqLen))
    ensures seqLen > 0 ==> r == StreamYield(tokens, seqLen)
  {
    if seqLen <= 0 { return Yielded([], Some(BadSeqLen)); }
    var out: seq<seq<int>> := [];
    var buf: seq<int> := [];
    for i := 0 to |tokens|
      invariant out == Sequences(tokens[..i], seqLen) && buf == Rest(tokens[..i], seqLen) && |buf| < seqLen
      invariant forall j :: 0 <= j < |out| ==> AllU16(out[j])
    {
      NextToken(tokens, i, seqLen);
      ghost var before := buf;
      buf := buf + [tokens[i]];
      if |buf| == seqLen {
        assert buf[..seqLen] == buf && buf[seqLen..] == [];
        StopsHere(tokens, i, seqLen, out, buf);
        if !AllU16(buf) { return Yielded(out, Some(BadToken)); }
        out := out + [buf];
        buf := [];
      }
    }
    assert tokens[..|tokens|] == tokens;
    GoodPrefixConcat(out, []);
    assert out + [] == out;
    r := Yielded(out, None);
  }

  lemma NextToken(tokens: seq<int>, i: nat, n: nat)
    requires n > 0 && i < |tokens|
    ensures var buf := Rest(tokens[..i], n) + [tokens[i]];
            && Sequences(tokens[..i + 1], n) == Sequences(tokens[..i], n) + Sequences(buf, n)
            && Rest(tokens[..i + 1], n) == Rest(buf, n)
  {
    assert tokens[..i + 1] == tokens[..i] + [tokens[i]];
    SequencesConcat(tokens[..i], [tokens[i]], n);
  }

  lemma StopsHere(tokens: seq<int>, i: nat, n: nat, out: seq<seq<int>>, buf: seq<int>)
    requires n > 0 && i < |tokens| && |buf| == n && Sequences(tokens[..i + 1], n) == out + [buf]
    requires forall j :: 0 <= j < |out| ==> AllU16(out[j])
    ensures !AllU16(buf) ==> GoodPrefix(Sequences(tokens, n)) == out && Sequences(tokens, n) != out
  {
    assert tokens == tokens[..i + 1] + tokens[i + 1..];
    SequencesConcat(tokens[..i + 1], tokens[i + 1..], n);
    var later := Sequences(Rest(tokens[..i + 1], n) + tokens[i + 1..], n);
    assert (out + [buf]) + later == out + ([buf] + later);
    GoodPrefixConcat(out, [buf] + later);
    assert out + [] == out;
  }

  // ---- block at a time ----

  datatype Block = Block(u16: bool, tokens: seq<int>)

  /** The tokens of the blocks before the first of another dtype. */
  function Readable(blocks: seq<Block>): seq<int> {
    if blocks == [] || !blocks[0].u16 then [] else blocks[0].tokens + Readable(blocks[1..])
  }

  /** The inner loop: every whole sequence of the pending tokens. */
  method YieldWhole(pending: seq<int>, n: nat) returns (out: seq<seq<int>>, rest: seq<int>)
    requires n > 0
    ensures out == Sequences(pending, n) && rest == Rest(pending, n)
  {
    out := [];
    var full := |pending| / n;
    DivisionBounds(|pending|, n);
    for j := 0 to full
      invariant 0 <= j * n <= |pending|
      invariant out + Sequences(pending[j * n..], n) == Sequences(pending, n)
      invariant Rest(pending[j * n..], n) == Rest(pending, n)
    {
      MulStep(j + 1, j, n);
      MulMono(j + 1, full, n);
      assert (j + 1) * n == j * n + n;
      var at := pending[j * n..];
      assert at[..n] == pending[j * n..(j + 1) * n] && at[n..] == pending[(j + 1) * n..];
      assert out + ([at[..n]] + Sequences(at[n..], n)) == (out + [at[..n]]) + Sequences(at[n..], n);
      out := out + [pending[j * n..(j + 1) * n]];
    }
    rest := pending[full * n..];
    assert |rest| < n;
  }

  lemma NothingMore(blocks: seq<Block>, b: nat, read: seq<int>)
    requires b <= |blocks| && (b < |blocks| ==> !blocks[b].u16)
    ensures read + Readable(blocks[b..]) == read
  {
    assert Readable(blocks[b..]) == [];
  }

  lemma ReadableNext(blocks: seq<Block>, b: nat, read: seq<int>)
    requires b < |blocks| && blocks[b].u16
    ensures read + Readable(blocks[b..]) == (read + blocks[b].tokens) + Readable(blocks[b + 1..])
  {
    assert blocks[b..][1..] == blocks[b + 1..];
    assert read + (blocks[b].tokens + Readable(blocks[b + 1..])) == (read + blocks[b].tokens) + Readable(blocks[b + 1..]);
  }

  /** What the block-at-a-time chunker yields, and how it ends. */
  function ArraysYield(blocks: seq<Block>, n: nat): Yielded
    requires n > 0
  {
    Yielded(Sequences(Readable(blocks), n), if forall b :: 0 <= b < |blocks| ==> blocks[b].u16 then None else Some(BadDtype))
  }

  /** chunk_token_arrays */
  method ChunkTokenArrays(blocks: seq<Block>, seqLen: int) returns (r: Yielded)
    ensures seqLen <= 0 ==> r == Yielded([], Some(BadSeqLen))
    ensures seqLen > 0 ==> r == ArraysYield(blocks, seqLen)
  {
    if seqLen <= 0 { return Yielded([], Some(BadSeqLen)); }
    var out: seq<seq<int>> := [];
    var pending: seq<int> := [];
    ghost var read: seq<int> := [];
    for b := 0 to |blocks|
      invariant forall i :: 0 <= i < b ==> blocks[i].u16
      invariant read + Readable(blocks[b..]) == Readable(blocks)
      invariant out == Sequences(read, seqLen) && pending == Rest(read, seqLen)
    {
      if !blocks[b].u16 {
        NothingMore(blocks, b, read);
        return Yielded(out, Some(BadDtype));
      }
      ReadableNext(blocks, b, read);
      SequencesConcat(read, blocks[b].tokens, seqLen);
      var whole, rest := YieldWhole(pending + blocks[b].tokens, seqLen);
      out, pending, read := out + whole, rest, read + blocks[b].tokens;
    }
    NothingMore(blocks, |blocks|, read);
    r := Yielded(out, None);
  }

  function BlockTokens(blocks: seq<Block>): (r: seq<seq<int>>)
    ensures |r| == |blocks| && forall b :: 0 <= b < |r| ==> r[b] == blocks[b].tokens
  {
    if blocks == [] then [] else [blocks[0].tokens] + BlockTokens(blocks[1..])
  }

  lemma {:induction false} ReadableAll(blocks: seq<Block>)
    requires forall b :: 0 <= b < |blocks| ==> blocks[b].u16
    ensures Readable(blocks) == Flatten(BlockTokens(blocks))
  {
    if blocks != [] { ReadableAll(blocks[1..]); }
  }

  /** Both chunkers yield the same and end alike, on every split of a uint16 stream into blocks. */
  lemma BlocksDoNotMatter(blocks: seq<Block>, n: nat)
    requires n > 0 && forall b :: 0 <= b < |blocks| ==> blocks[b].u16 && AllU16(blocks[b].tokens)
    ensures ArraysYield(blocks, n) == StreamYield(Flatten(BlockTokens(blocks)), n)
  {
    ReadableU16(blocks);
    ReadableAll(blocks);
    var all := Sequences(Readable(blocks), n);
    SequencesU16(Readable(blocks), n);
    GoodPrefixConcat(all, []);
    assert all + [] == all;
  }

  lemma {:induction false} ReadableU16(blocks: seq<Block>)
    requires forall b :: 0 <= b < |blocks| ==> AllU16(blocks[b].tokens)
    ensures AllU16(Readable(blocks))
  {
    if blocks != [] { ReadableU16(blocks[1..]); }
  }

  lemma {:induction false} SequencesU16(tokens: seq<int>, n: nat)
    requires n > 0 && AllU16(tokens)
    ensures forall i :: 0 <= i < |Sequences(tokens, n)| ==> AllU16(Sequences(tokens, n)[i])
  {
    if |tokens| >= n { SequencesU16(tokens[n..], n); }
  }

  // ---- the flat token files ----

  /** Every document followed by one EOS. */
  function Joined(docs: seq<seq<int>>, eos: int): seq<int> {
    if docs == [] then [] else Joined(docs[..|docs| - 1], eos) + (docs[|docs| - 1] + [eos])
  }

  lemma JoinedSnoc(docs: seq<seq<int>>, doc: seq<int>, eos: int)
    ensures Joined(docs + [doc], eos) == Joined(docs, eos) + (doc + [eos])
  {
    assert (docs + [doc])[..|docs|] == docs;
  }

  lemma {:induction false} JoinedConcat(a: seq<seq<int>>, b: seq<seq<int>>, eos: int)
    ensures Joined(a + b, eos) == Joined(a, eos) + Joined(b, eos)
  {
    if b == [] {
      assert a + b == a;
    } else {
      var n := |b| - 1;
      JoinedConcat(a, b[..n], eos);
      JoinedSnoc(a + b[..n], b[n], eos);
      LastOff(a, b);
      SeqAssoc(Joined(a, eos), Joined(b[..n], eos), b[n] + [eos]);
    }
  }

  lemma JoinedPrefix(docs: seq<seq<int>>, i: nat, eos: int)
    requires i <= |docs|
    ensures Joined(docs, eos) == Joined(docs[..i], eos) + Joined(docs[i..], eos)
  {
    assert docs == docs[..i] + docs[i..];
    JoinedConcat(docs[..i], docs[i..], eos);
  }

  /** write_token_stream: the file and the count depend on the documents alone, not on when the
      buffer is flushed. */
  method WriteTokenStream(docs: seq<seq<int>>, eos: int, flushTokens: int) returns (r: Result<(seq<int>, nat), Error>)
    ensures !IsU16(eos) <==> r == Err(BadEos)
    ensures r.Err? && IsU16(eos) ==> r == Err(BadToken)
    ensures r.Ok? <==> IsU16(eos) && AllU16(Joined(docs, eos))
    ensures r.Ok? ==> r.value.0 == Joined(docs, eos) && r.value.1 == |Joined(docs, eos)|
  {
    if !IsU16(eos) { return Err(BadEos); }
    var file: seq<int> := [];
    var total: nat := 0;
    var buf: seq<int> := [];
    for i := 0 to |docs|
      invariant file + buf == Joined(docs[..i], eos) && total == |file| && AllU16(file)
    {
      JoinedPrefix(docs, i + 1, eos);
      assert docs[..i + 1][..i] == docs[..i];
      assert (file + buf) + (docs[i] + [eos]) == file + ((buf + docs[i]) + [eos]);
      buf := (buf + docs[i]) + [eos];
      if |buf| >= flushTokens {
        if !AllU16(buf) {
          PartBad(file, buf, Joined(docs[..i + 1], eos), Joined(docs, eos));
          return Err(BadToken);
        }
        file, total, buf := file + buf, total + |buf|, [];
      }
    }
    assert docs[..|docs|] == docs;
    if buf != [] {
      if !AllU16(buf) {
        PartBad(file, buf, Joined(docs, eos), Joined(docs, eos));
        return Err(BadToken);
      }
      file, total := file + buf, total + |buf|;
    } else {
      assert file + buf == file;
    }
    r := Ok((file, total));
  }

  lemma PartBad(file: seq<int>, buf: seq<int>, front: seq<int>, all: seq<int>)
    requires !AllU16(buf) && front == file + buf && front <= all
    ensures !AllU16(all)
  {
    var i :| 0 <= i < |buf| && !IsU16(buf[i]);
    assert front[|file| + i] == buf[i];
    assert !IsU16(all[|file| + i]);
  }

  // ---- parallel tokenization ----

  /** A spool part as the token lists of its documents. */
  type Part = seq<seq<int>>

  /** The inner loop over one unit: consecutive part groups, numbered on from `next`. */
  method GroupUnit(parts: seq<Part>, partsPerTask: nat, next: nat) returns (groups: seq<seq<Part>>, after: nat)
    requires partsPerTask > 0
    ensures groups == Chunks(parts, partsPerTask) && after == next + |groups|
  {
    groups, after := [], next;
    var start := 0;
    assert parts[..0] == [];
    while start < |parts|
      invariant start <= |parts| && groups == Chunks(parts[..start], partsPerTask) && after == next + |groups|
      invariant start == |parts| || AllFull(groups, partsPerTask)
    {
      var end := if start + partsPerTask < |parts| then start + partsPerTask else |parts|;
      ChunksSnoc(parts[..start], parts[start..end], partsPerTask);
      assert parts[..end] == parts[..start] + parts[start..end];
      groups, after, start := groups + [parts[start..end]], after + 1, end;
    }
    assert parts[..start] == parts;
  }

  /** The groups of a source's units, in order. */
  function TaskGroups(units: seq<seq<Part>>, k: nat): seq<seq<Part>>
    requires k > 0
  {
    if units == [] then [] else TaskGroups(units[..|units| - 1], k) + Chunks(units[|units| - 1], k)
  }

  /** Planning one source: at most 1000 chunk files, so that the three-digit names sort as numbers. */
  method PlanSource(units: seq<seq<Part>>, partsPerTask: int) returns (r: Result<seq<seq<Part>>, Error>)
    ensures partsPerTask <= 0 <==> r == Err(BadGroupSize)
    ensures partsPerTask > 0 ==> (r.Ok? <==> |TaskGroups(units, partsPerTask)| <= 1000)
    ensures r.Ok? ==> r.value == TaskGroups(units, partsPerTask)
    ensures partsPerTask > 0 && r.Err? ==> r == Err(TooManyChunks(|TaskGroups(units, partsPerTask)|))
  {
    if partsPerTask <= 0 { return Err(BadGroupSize); }
    var tasks: seq<seq<Part>> := [];
    var chunkIdx := 0;
    for u := 0 to |units|
      invariant tasks == TaskGroups(units[..u], partsPerTask) && chunkIdx == |tasks|
    {
      var groups, next := GroupUnit(units[u], partsPerTask, chunkIdx);
      tasks, chunkIdx := tasks + groups, next;
      assert units[..u + 1][..u] == units[..u];
    }
    assert units[..|units|] == units;
    if chunkIdx > 1000 { return Err(TooManyChunks(chunkIdx)); }
    r := Ok(tasks);
  }

  /** What the token file of one group holds. */
  function GroupTokens(group: seq<Part>, eos: int): seq<int> {
    Joined(Flatten(group), eos)
  }

  function FileTokens(groups: seq<seq<Part>>, eos: int): seq<int> {
    if groups == [] then [] else FileTokens(groups[..|groups| - 1], eos) + GroupTokens(groups[|groups| - 1], eos)
  }

  function UnitDocs(units: seq<seq<Part>>): seq<seq<int>> {
    if units == [] then [] else UnitDocs(units[..|units| - 1]) + Flatten(units[|units| - 1])
  }

  lemma {:induction false} FilesOfGroups(groups: seq<seq<Part>>, eos: int)
    ensures FileTokens(groups, eos) == Joined(Flatten(Flatten(groups)), eos)
  {
    if groups != [] {
      var n := |groups| - 1;
      FilesOfGroups(groups[..n], eos);
      assert groups == groups[..n] + [groups[n]];
      FlattenSnoc(groups[..n], groups[n]);
      FlattenConcat(Flatten(groups[..n]), groups[n]);
      JoinedConcat(Flatten(Flatten(groups[..n])), Flatten(groups[n]), eos);
    }
  }

  lemma {:induction false} GroupsKeepDocs(units: seq<seq<Part>>, k: nat)
    requires k > 0
    ensures Flatten(Flatten(TaskGroups(units, k))) == UnitDocs(units)
  {
    if units != [] {
      var n := |units| - 1;
      var before, last := TaskGroups(units[..n], k), Chunks(units[n], k);
      GroupsKeepDocs(units[..n], k);
      FlattenConcat(before, last);
      FlattenConcat(Flatten(before), Flatten(last));
      ChunksHold(units[n], k);
    }
  }

  /** The chunk files of a source, read in order, are byte for byte the sequential stream, however
      the parts are grouped. */
  lemma ParallelIsSequential(units: seq<seq<Part>>, k: nat, eos: int)
    requires k > 0
    ensures FileTokens(TaskGroups(units, k), eos) == Joined(UnitDocs(units), eos)
  {
    FilesOfGroups(TaskGroups(units, k), eos);
    GroupsKeepDocs(units, k);
  }

  /** iter_token_file_arrays: whatever the block size, the blocks of the files are their tokens. */
  method ReadBlocks(files: seq<seq<int>>, blockTokens: int) returns (r: Result<seq<Block>, Error>)
    ensures r == Err(BadBlock) <==> blockTokens <= 0
    ensures r.Ok? <==> blockTokens > 0
    ensures r.Ok? ==> Readable(r.value) == Flatten(files) && forall b :: 0 <= b < |r.value| ==> r.value[b].u16
  {
    if blockTokens <= 0 { return Err(BadBlock); }
    var blocks: seq<Block> := [];
    for i := 0 to |files|
      invariant Readable(blocks) == Flatten(files[..i]) && forall b :: 0 <= b < |blocks| ==> blocks[b].u16
    {
      var file := files[i];
      var at := 0;
      ghost var before := Flatten(files[..i]);
      assert before + file[..0] == before;
      while at < |file|
        invariant 0 <= at <= |file| && Readable(blocks) == before + file[..at]
        invariant forall b :: 0 <= b < |blocks| ==> blocks[b].u16
      {
        var end := if at + blockTokens < |file| then at + blockTokens else |file|;
        ReadableSnoc(blocks, file[at..end]);
        assert before + file[..end] == (before + file[..at]) + file[at..end];
        blocks, at := blocks + [Block(true, file[at..end])], end;
      }
      assert file[..at] == file;
      FlattenSnoc(files[..i], file);
      assert files[..i + 1] == files[..i] + [file];
    }
    assert files[..|files|] == files;
    r := Ok(blocks);
  }

  lemma {:induction false} ReadableSnoc(blocks: seq<Block>, tokens: seq<int>)
    requires forall b :: 0 <= b < |blocks| ==> blocks[b].u16
    ensures Readable(blocks + [Block(true, tokens)]) == Readable(blocks) + tokens
  {
    if blocks != [] {
      ReadableSnoc(blocks[1..], tokens);
      assert (blocks + [Block(true, tokens)])[1..] == blocks[1..] + [Block(true, tokens)];
      assert blocks[0].tokens + (Readable(blocks[1..]) + tokens) == Readable(blocks) + tokens;
    }
  }

  // ---- chunk file names ----

  lemma {:induction false} LessSnoc(x: string, y: string, c: char, d: char)
    requires |x| == |y| && (StateRoot.Less(x, y) || (x == y && c < d))
    ensures StateRoot.Less(x + [c], y + [d])
  {
    if x == "" {
      assert x + [c] == [c] && y + [d] == [d];
    } else {
      if x == y { assert x[1..] == y[1..]; }
      if x[0] == y[0] { LessSnoc(x[1..], y[1..], c, d); }
      assert (x + [c])[1..] == x[1..] + [c] && (y + [d])[1..] == y[1..] + [d];
    }
  }

  /** Zero-padded numbers of one width sort as numbers, so reading the chunk files by name reads them
      in order. */
  lemma {:induction false} NamesSortAsNumbers(a: nat, b: nat, width: nat)
    requires a < b < Base64Url.Power(10, width)
    ensures StateRoot.Less(Base64Url.Format(a, 10, width), Base64Url.Format(b, 10, width))
  {
    if width > 0 {
      QuotientBound(b, 10, Base64Url.Power(10, width - 1));
      if a / 10 < b / 10 { NamesSortAsNumbers(a / 10, b / 10, width - 1); }
      LessSnoc(Base64Url.Format(a / 10, 10, width - 1), Base64Url.Format(b / 10, 10, width - 1), Base64Url.Digit(a % 10), Base64Url.Digit(b % 10));
    }
  }

  // ---- one source, written in parallel and read back ----

  const DIGITS := 3

  /** The number in a chunk file's name. */
  function ChunkName(i: nat): string {
    Base64Url.Format(i, 10, DIGITS)
  }

  ghost predicate NameOrder(names: seq<string>) {
    forall i, j :: 0 <= i < j < |names| ==> StateRoot.Less(names[i], names[j])
  }

  /** Python's sorted over file names. */
  ghost predicate Sorts(sorted: set<string> -> seq<string>) {
    forall s :: NameOrder(sorted(s)) && forall x :: x in sorted(s) <==> x in s
  }

  lemma ThreeDigits()
    ensures Base64Url.Power(10, DIGITS) == 1000
  {
    assert Base64Url.Power(10, 0) == 1 && Base64Url.Power(10, 1) == 10 && Base64Url.Power(10, 2) == 100;
  }

  lemma FirstName(a: seq<string>, b: seq<string>)
    requires NameOrder(a) && NameOrder(b) && a != [] && (forall x :: x in a <==> x in b)
    ensures b != [] && a[0] == b[0]
  {
    assert a[0] in a && b != [];
    assert b[0] in b;
    var i :| 0 <= i < |b| && b[i] == a[0];
    var j :| 0 <= j < |a| && a[j] == b[0];
    if i > 0 && j > 0 { StateRoot.LessTotal(a[0], b[0]); }
  }

  lemma TailNames(a: seq<string>, b: seq<string>, x: string)
    requires NameOrder(a) && a != [] && b != [] && a[0] == b[0] && NameOrder(b) && (forall y :: y in a <==> y in b) && x in a[1..]
    ensures x in b[1..]
  {
    var i :| 1 <= i < |a| && a[i] == x;
    assert StateRoot.Less(a[0], x);
    StateRoot.LessTotal(x, x);
    assert x in a && x in b && x != b[0];
  }

  lemma EmptyOrFirst(b: seq<string>)
    ensures b == [] || b[0] in b
  {
  }

  /** Names in order are determined by which they are. */
  lemma {:induction false} NameOrderUnique(a: seq<string>, b: seq<string>)
    requires NameOrder(a) && NameOrder(b) && (forall x :: x in a <==> x in b)
    ensures a == b
  {
    if a == [] {
      EmptyOrFirst(b);
    } else {
      FirstName(a, b);
      forall x ensures x in a[1..] <==> x in b[1..] {
        if x in a[1..] { TailNames(a, b, x); }
        if x in b[1..] { TailNames(b, a, x); }
      }
      NameOrderUnique(a[1..], b[1..]);
    }
  }

  // ---- the directory ----

  const CHUNK_LIMIT := 1000

  /** What the token directory holds for one source: the single file of the sequential command, and
      the numbered files by the middle part of their names. */
  datatype TokenDir = TokenDir(single: Option<seq<int>>, chunks: map<string, seq<int>>)

  /** The glob [0-9][0-9][0-9]. */
  predicate Globbed(name: string) {
    |name| == DIGITS && Base64Url.Numeral(name, 10)
  }

  function ChunkAt(dir: TokenDir, i: nat): seq<int> {
    if ChunkName(i) in dir.chunks then dir.chunks[ChunkName(i)] else []
  }

  /** The numbered files from a up to b, by number. */
  function ChunksFrom(dir: TokenDir, a: nat, b: nat): seq<int>
    decreases dir, b
  {
    if b <= a then [] else ChunksFrom(dir, a, b - 1) + ChunkAt(dir, b - 1)
  }

  /** The stream a reader finds: the single file if there is one, else the numbered files. */
  function DirTokens(dir: TokenDir): seq<int> {
    if dir.single.Some? then dir.single.value else ChunksFrom(dir, 0, CHUNK_LIMIT)
  }

  /** The directory once the first n groups are written; nothing is ever removed from it. */
  function Overwritten(dir: TokenDir, groups: seq<seq<Part>>, n: nat, eos: int): TokenDir
    requires n <= |groups|
  {
    if n == 0 then dir else
      var before := Overwritten(dir, groups, n - 1, eos);
      before.(chunks := before.chunks[ChunkName(n - 1) := GroupTokens(groups[n - 1], eos)])
  }

  lemma ChunkNamesDiffer(i: nat, j: nat)
    requires i < CHUNK_LIMIT && j < CHUNK_LIMIT && i != j
    ensures ChunkName(i) != ChunkName(j)
  {
    ThreeDigits();
    StateRoot.LessTotal(ChunkName(i), ChunkName(j));
    if i < j { NamesSortAsNumbers(i, j, DIGITS); } else { NamesSortAsNumbers(j, i, DIGITS); }
  }

  lemma {:induction false} OverwrittenAt(dir: TokenDir, groups: seq<seq<Part>>, n: nat, eos: int, i: nat)
    requires n <= |groups| && n <= CHUNK_LIMIT && i < CHUNK_LIMIT
    ensures ChunkAt(Overwritten(dir, groups, n, eos), i) == if i < n then GroupTokens(groups[i], eos) else ChunkAt(dir, i)
    ensures Overwritten(dir, groups, n, eos).single == dir.single
  {
    if n > 0 {
      OverwrittenAt(dir, groups, n - 1, eos, i);
      if i != n - 1 { ChunkNamesDiffer(i, n - 1); }
    }
  }

  lemma {:induction false} ChunksSplit(dir: TokenDir, a: nat, m: nat, b: nat)
    requires a <= m <= b
    ensures ChunksFrom(dir, a, b) == ChunksFrom(dir, a, m) + ChunksFrom(dir, m, b)
    decreases b
  {
    if m < b {
      ChunksSplit(dir, a, m, b - 1);
      SeqAssoc(ChunksFrom(dir, a, m), ChunksFrom(dir, m, b - 1), ChunkAt(dir, b - 1));
    }
  }

  lemma {:induction false} ChunksAgree(x: TokenDir, y: TokenDir, a: nat, b: nat)
    requires forall i: nat :: a <= i < b ==> ChunkAt(x, i) == ChunkAt(y, i)
    ensures ChunksFrom(x, a, b) == ChunksFrom(y, a, b)
    decreases b
  {
    if a < b { ChunksAgree(x, y, a, b - 1); }
  }

  lemma {:induction false} ChunksAreGroups(dir: TokenDir, groups: seq<seq<Part>>, eos: int)
    requires forall i: nat :: i < |groups| ==> ChunkAt(dir, i) == GroupTokens(groups[i], eos)
    ensures ChunksFrom(dir, 0, |groups|) == FileTokens(groups, eos)
  {
    if groups != [] { ChunksAreGroups(dir, groups[..|groups| - 1], eos); }
  }

  lemma {:induction false} ChunksNothing(dir: TokenDir, a: nat, b: nat)
    ensures ChunksFrom(dir, a, b) == [] <==> forall i: nat :: a <= i < b ==> ChunkAt(dir, i) == []
    decreases b
  {
    if a < b { ChunksNothing(dir, a, b - 1); }
  }

  /** After a run the numbered files are the groups, followed by whatever older files the run did not
      reach. */
  lemma TokensAfter(dir: TokenDir, groups: seq<seq<Part>>, eos: int)
    requires |groups| <= CHUNK_LIMIT
    ensures var after := Overwritten(dir, groups, |groups|, eos);
            && after.single == dir.single
            && ChunksFrom(after, 0, CHUNK_LIMIT) == FileTokens(groups, eos) + ChunksFrom(dir, |groups|, CHUNK_LIMIT)
  {
    var after, n := Overwritten(dir, groups, |groups|, eos), |groups|;
    OverwrittenAt(dir, groups, n, eos, 0);
    forall i: nat | i < CHUNK_LIMIT
      ensures ChunkAt(after, i) == if i < n then GroupTokens(groups[i], eos) else ChunkAt(dir, i)
    {
      OverwrittenAt(dir, groups, n, eos, i);
    }
    ChunksSplit(after, 0, n, CHUNK_LIMIT);
    ChunksAreGroups(after, groups, eos);
    ChunksAgree(after, dir, n, CHUNK_LIMIT);
  }

  /** Nothing an earlier run left behind gets in the way: no single file with other tokens, and no
      non-empty numbered file at or above n. */
  predicate Undisturbed(dir: TokenDir, n: nat, tokens: seq<int>) {
    if dir.single.Some? then dir.single.value == tokens else forall i: nat :: n <= i < CHUNK_LIMIT ==> ChunkAt(dir, i) == []
  }

  /** The directory after a run reads back as the sequential stream, whatever the grouping, exactly when
      nothing older gets in the way. */
  lemma ReadsBackExactly(dir: TokenDir, units: seq<seq<Part>>, k: nat, eos: int)
    requires k > 0 && |TaskGroups(units, k)| <= CHUNK_LIMIT
    ensures var groups, stream := TaskGroups(units, k), Joined(UnitDocs(units), eos);
            var after := Overwritten(dir, groups, |groups|, eos);
            && DirTokens(after) == (if dir.single.Some? then dir.single.value else stream + ChunksFrom(dir, |groups|, CHUNK_LIMIT))
            && (DirTokens(after) == stream <==> Undisturbed(dir, |groups|, stream))
  {
    var groups, stream := TaskGroups(units, k), Joined(UnitDocs(units), eos);
    TokensAfter(dir, groups, eos);
    ParallelIsSequential(units, k, eos);
    ChunksNothing(dir, |groups|, CHUNK_LIMIT);
    NothingAdded(stream, ChunksFrom(dir, |groups|, CHUNK_LIMIT));
  }

  lemma NothingAdded(s: seq<int>, t: seq<int>)
    ensures s + t == s <==> t == []
  {
    if s + t == s { assert |t| == 0; }
  }

  // ---- writing ----

  /** The group's task can write its file. */
  predicate CanWrite(group: seq<Part>, eos: int) {
    IsU16(eos) && AllU16(GroupTokens(group, eos))
  }

  ghost predicate Writable(groups: seq<seq<Part>>, eos: int) {
    forall i :: 0 <= i < |groups| ==> CanWrite(groups[i], eos)
  }

  /** The tasks of one source, one file each. */
  method WriteGroups(dir: TokenDir, groups: seq<seq<Part>>, eos: int, flushTokens: int) returns (r: Result<TokenDir, Error>)
    ensures r.Ok? <==> Writable(groups, eos)
    ensures r.Ok? ==> r.value == Overwritten(dir, groups, |groups|, eos)
    ensures r.Err? ==> r.error == if IsU16(eos) then BadToken else BadEos
  {
    var now := dir;
    for i := 0 to |groups|
      invariant now == Overwritten(dir, groups, i, eos)
      invariant forall j :: 0 <= j < i ==> CanWrite(groups[j], eos)
    {
      var written := WriteTokenStream(Flatten(groups[i]), eos, flushTokens);
      if written.Err? {
        assert !CanWrite(groups[i], eos);
        return Err(written.error);
      }
      now := now.(chunks := now.chunks[ChunkName(i) := written.value.0]);
    }
    r := Ok(now);
  }

  /** tokenize_parallel, for one source, into the directory it finds; the pool refuses to start when
      neither this source nor the `others` have a task. */
  method TokenizeSource(dir: TokenDir, units: seq<seq<Part>>, partsPerTask: int, eos: int, flushTokens: int, others: nat)
    returns (r: Result<TokenDir, Error>)
    ensures partsPerTask <= 0 <==> r == Err(BadGroupSize)
    ensures r == Err(NoTasks) <==> partsPerTask > 0 && TaskGroups(units, partsPerTask) == [] && others == 0
    ensures r.Ok? <==> partsPerTask > 0 && |TaskGroups(units, partsPerTask)| <= CHUNK_LIMIT
                       && |TaskGroups(units, partsPerTask)| + others > 0 && Writable(TaskGroups(units, partsPerTask), eos)
    ensures r.Ok? ==> r.value == Overwritten(dir, TaskGroups(units, partsPerTask), |TaskGroups(units, partsPerTask)|, eos)
  {
    var plan := PlanSource(units, partsPerTask);
    if plan.Err? { return Err(plan.error); }
    if |plan.value| + others == 0 { return Err(NoTasks); }
    r := WriteGroups(dir, plan.value, eos, flushTokens);
  }

  // ---- reading ----

  /** The numbered files that exist, by number. */
  function Present(dir: TokenDir, n: nat): seq<string>
    decreases dir, n
  {
    if n == 0 then [] else Present(dir, n - 1) + if ChunkName(n - 1) in dir.chunks then [ChunkName(n - 1)] else []
  }

  lemma {:induction false} PresentMembers(dir: TokenDir, n: nat, x: string)
    ensures x in Present(dir, n) <==> x in dir.chunks && exists i: nat :: i < n && ChunkName(i) == x
  {
    if n > 0 { PresentMembers(dir, n - 1, x); }
  }

  lemma OrderedSnoc(names: seq<string>, x: string)
    requires NameOrder(names) && forall y :: y in names ==> StateRoot.Less(y, x)
    ensures NameOrder(names + [x])
  {
    forall i | 0 <= i < |names| ensures StateRoot.Less(names[i], x) { assert names[i] in names; }
  }

  lemma {:induction false} PresentOrdered(dir: TokenDir, n: nat)
    requires n <= CHUNK_LIMIT
    ensures NameOrder(Present(dir, n))
  {
    if n > 0 {
      PresentOrdered(dir, n - 1);
      var before, last := Present(dir, n - 1), ChunkName(n - 1);
      forall y | y in before ensures StateRoot.Less(y, last) {
        PresentMembers(dir, n - 1, y);
        var i: nat :| i < n - 1 && ChunkName(i) == y;
        ThreeDigits();
        NamesSortAsNumbers(i, n - 1, DIGITS);
      }
      OrderedSnoc(before, last);
    }
  }

  /** The glob finds exactly the names of the numbers below the limit. */
  lemma GlobbedIsNumbered(x: string)
    ensures Globbed(x) <==> exists i: nat :: i < CHUNK_LIMIT && ChunkName(i) == x
  {
    ThreeDigits();
    if Globbed(x) {
      Base64Url.FormatParse(x, 10);
      assert ChunkName(Base64Url.Parse(x, 10)) == x;
    }
  }

  /** The contents of the files in the order of their sorted names. */
  function Contents(files: map<string, seq<int>>, names: seq<string>): (r: seq<seq<int>>)
    requires forall x :: x in names ==> x in files
    ensures |r| == |names| && forall i :: 0 <= i < |r| ==> r[i] == files[names[i]]
  {
    if names == [] then [] else Contents(files, names[..|names| - 1]) + [files[names[|names| - 1]]]
  }

  lemma ContentsSnoc(files: map<string, seq<int>>, names: seq<string>, x: string)
    requires (forall y :: y in names ==> y in files) && x in files
    ensures Contents(files, names + [x]) == Contents(files, names) + [files[x]]
  {
    assert (names + [x])[..|names|] == names;
  }

  lemma {:induction false} PresentTokens(dir: TokenDir, n: nat)
    requires forall x :: x in Present(dir, n) ==> x in dir.chunks
    ensures Flatten(Contents(dir.chunks, Present(dir, n))) == ChunksFrom(dir, 0, n)
  {
    if n > 0 {
      PresentTokens(dir, n - 1);
      if ChunkName(n - 1) in dir.chunks {
        ContentsSnoc(dir.chunks, Present(dir, n - 1), ChunkName(n - 1));
        FlattenSnoc(Contents(dir.chunks, Present(dir, n - 1)), ChunkAt(dir, n - 1));
      } else {
        assert Present(dir, n) == Present(dir, n - 1);
      }
    }
  }

  lemma SortedIsPresent(sorted: set<string> -> seq<string>, dir: TokenDir)
    requires Sorts(sorted)
    ensures sorted(set x | x in dir.chunks && Globbed(x)) == Present(dir, CHUNK_LIMIT)
  {
    var found := set x | x in dir.chunks && Globbed(x);
    PresentOrdered(dir, CHUNK_LIMIT);
    forall x ensures x in sorted(found) <==> x in Present(dir, CHUNK_LIMIT) {
      PresentMembers(dir, CHUNK_LIMIT, x);
      GlobbedIsNumbered(x);
    }
    NameOrderUnique(sorted(found), Present(dir, CHUNK_LIMIT));
  }

  lemma FoundNone(sorted: set<string> -> seq<string>, dir: TokenDir)
    requires Sorts(sorted)
    ensures sorted(set x | x in dir.chunks && Globbed(x)) == [] <==> forall x :: x in dir.chunks ==> !Globbed(x)
  {
    var found := set x | x in dir.chunks && Globbed(x);
    var names := sorted(found);
    assert forall x :: x in names <==> x in found;
    EmptyOrFirst(names);
    if exists x :: x in dir.chunks && Globbed(x) {
      var x :| x in dir.chunks && Globbed(x);
      assert x in names;
    }
  }

  /** discover_token_files, for one source: the contents of the files found, in order. */
  method DiscoverSource(sorted: set<string> -> seq<string>, dir: TokenDir) returns (r: Result<seq<seq<int>>, Error>)
    requires Sorts(sorted)
    ensures r.Ok? <==> dir.single.Some? || exists x :: x in dir.chunks && Globbed(x)
    ensures r.Ok? ==> Flatten(r.value) == DirTokens(dir)
    ensures r.Err? ==> r.error == NoFiles && DirTokens(dir) == []
  {
    if dir.single.Some? {
      assert Flatten([dir.single.value]) == dir.single.value + Flatten([]);
      return Ok([dir.single.value]);
    }
    var names := sorted(set x | x in dir.chunks && Globbed(x));
    SortedIsPresent(sorted, dir);
    PresentTokens(dir, CHUNK_LIMIT);
    FoundNone(sorted, dir);
    if names == [] { return Err(NoFiles); }
    r := Ok(Contents(dir.chunks, names));
  }

  /** Discovering one source's files and reading them in blocks: the stream the directory holds,
      whatever the block size. */
  method ReadSource(sorted: set<string> -> seq<string>, dir: TokenDir, blockTokens: int) returns (r: Result<seq<Block>, Error>)
    requires Sorts(sorted)
    ensures r == Err(NoFiles) <==> dir.single == None && forall x :: x in dir.chunks ==> !Globbed(x)
    ensures r.Ok? <==> r != Err(NoFiles) && blockTokens > 0
    ensures r.Ok? ==> Readable(r.value) == DirTokens(dir) && forall b :: 0 <= b < |r.value| ==> r.value[b].u16
  {
    var found := DiscoverSource(sorted, dir);
    if found.Err? { return Err(found.error); }
    r := ReadBlocks(found.value, blockTokens);
  }

  /** Both commands, one after the other: what is read is the sequential stream exactly when nothing
      older gets in the way. */
  method TokenizeThenRead(sorted: set<string> -> seq<string>, dir: TokenDir, units: seq<seq<Part>>, partsPerTask: int, eos: int,
                          flushTokens: int, others: nat, blockTokens: int)
    returns (r: Result<seq<Block>, Error>)
    requires Sorts(sorted)
    ensures r.Ok? ==>
      && partsPerTask > 0
      && var n, stream := |TaskGroups(units, partsPerTask)|, Joined(UnitDocs(units), eos);
         Readable(r.value) == stream <==> Undisturbed(dir, n, stream)
  {
    var written := TokenizeSource(dir, units, partsPerTask, eos, flushTokens, others);
    if written.Err? { return Err(written.error); }
    ReadsBackExactly(dir, units, partsPerTask, eos);
    r := ReadSource(sorted, written.value, blockTokens);
  }

  // ---- two ways for an earlier run to get in the way ----

  lemma {:induction false} Singles(parts: seq<Part>)
    ensures |Chunks(parts, 1)| == |parts| && (parts != [] ==> Chunks(parts, 1)[0] == [parts[0]])
    decreases |parts|
  {
    if |parts| > 1 {
      Singles(parts[1..]);
    } else if |parts| == 1 {
      assert parts == [parts[0]];
    }
  }

  lemma OneUnit(parts: seq<Part>, k: nat)
    requires k > 0
    ensures TaskGroups([parts], k) == Chunks(parts, k) && UnitDocs([parts]) == Flatten(parts)
  {
    assert [parts][..0] == [];
  }

  const EMPTY_DIR := TokenDir(None, map[])

  /** An empty directory after a run with one part per task. */
  function FirstRun(parts: seq<Part>, eos: int): TokenDir {
    var fine := TaskGroups([parts], 1);
    Overwritten(EMPTY_DIR, fine, |fine|, eos)
  }

  lemma FirstRunTokens(parts: seq<Part>, eos: int)
    requires |parts| <= CHUNK_LIMIT
    ensures |TaskGroups([parts], 1)| == |parts|
    ensures ChunksFrom(FirstRun(parts, eos), 0, CHUNK_LIMIT) == Joined(Flatten(parts), eos)
  {
    OneUnit(parts, 1);
    Singles(parts);
    ReadsBackExactly(EMPTY_DIR, [parts], 1, eos);
    ChunksNothing(EMPTY_DIR, |parts|, CHUNK_LIMIT);
    OverwrittenAt(EMPTY_DIR, TaskGroups([parts], 1), |parts|, eos, 0);
  }

  lemma FirstRunFile(parts: seq<Part>, eos: int)
    requires 0 < |parts| <= CHUNK_LIMIT
    ensures ChunkAt(FirstRun(parts, eos), 0) == Joined(parts[0], eos)
  {
    OneUnit(parts, 1);
    Singles(parts);
    OverwrittenAt(EMPTY_DIR, TaskGroups([parts], 1), |parts|, eos, 0);
    OneGroup(parts[0], eos);
  }

  lemma OneGroup(part: Part, eos: int)
    ensures GroupTokens([part], eos) == Joined(part, eos)
  {
    assert Flatten([part]) == part + Flatten([part][1..]);
    assert part + [] == part;
  }

  lemma OneChunk(dir: TokenDir)
    ensures ChunksFrom(dir, 0, 1) == ChunkAt(dir, 0)
  {
    assert ChunksFrom(dir, 0, 0) == [];
  }

  /** What such a run leaves from number 1 on. */
  lemma FromSecondPart(parts: seq<Part>, eos: int)
    requires 0 < |parts| <= CHUNK_LIMIT
    ensures ChunksFrom(FirstRun(parts, eos), 1, CHUNK_LIMIT) == Joined(Flatten(parts[1..]), eos)
  {
    var first := FirstRun(parts, eos);
    FirstRunTokens(parts, eos);
    FirstRunFile(parts, eos);
    OneChunk(first);
    ChunksSplit(first, 0, 1, CHUNK_LIMIT);
    JoinedConcat(parts[0], Flatten(parts[1..]), eos);
    SameRest(Joined(parts[0], eos), ChunksFrom(first, 1, CHUNK_LIMIT), Joined(Flatten(parts[1..]), eos));
  }

  lemma SameRest(head: seq<int>, x: seq<int>, y: seq<int>)
    requires head + x == head + y
    ensures x == y
  {
    assert x == (head + x)[|head|..] && y == (head + y)[|head|..];
  }

  /** A run with one part per task, then one that groups them all: the second rewrites only the first
      file, and all parts but the first are read twice. */
  lemma StaleChunksSurvive(parts: seq<Part>, k: nat, eos: int)
    requires 0 < |parts| <= CHUNK_LIMIT && |parts| <= k
    ensures var coarse := TaskGroups([parts], k);
            && |coarse| == 1
            && DirTokens(Overwritten(FirstRun(parts, eos), coarse, 1, eos)) == Joined(Flatten(parts), eos) + Joined(Flatten(parts[1..]), eos)
  {
    OneUnit(parts, k);
    FirstRunTokens(parts, eos);
    FromSecondPart(parts, eos);
    OverwrittenAt(EMPTY_DIR, TaskGroups([parts], 1), |parts|, eos, 0);
    ReadsBackExactly(FirstRun(parts, eos), [parts], k, eos);
  }

  /** Three parts of one document each, first with one part per task, then with 32. */
  lemma ThreePartsReadTwice()
    ensures var parts: seq<Part> := [[[5]], [[6]], [[7]]];
            var coarse := TaskGroups([parts], 32);
            |coarse| == 1 && DirTokens(Overwritten(FirstRun(parts, 2), coarse, 1, 2)) != Joined(UnitDocs([parts]), 2)
  {
    var parts: seq<Part> := [[[5]], [[6]], [[7]]];
    StaleChunksSurvive(parts, 32, 2);
    OneUnit(parts, 32);
    var rest := Flatten(parts[1..]);
    assert rest == parts[1] + Flatten(parts[2..]) by { assert parts[1..][1..] == parts[2..]; }
    LastDocument(rest, 2);
    NothingAdded(Joined(Flatten(parts), 2), Joined(rest, 2));
  }

  lemma LastDocument(docs: seq<seq<int>>, eos: int)
    requires docs != []
    ensures Joined(docs, eos) != []
  {
    assert |docs[|docs| - 1] + [eos]| > 0;
  }

  /** A single file of the sequential command hides every numbered file, whatever a run writes. */
  lemma SingleFileHides(dir: TokenDir, groups: seq<seq<Part>>, eos: int)
    requires dir.single.Some? && |groups| <= CHUNK_LIMIT
    ensures DirTokens(Overwritten(dir, groups, |groups|, eos)) == dir.single.value
  {
    TokensAfter(dir, groups, eos);
  }
}
