/** dataprep/pipeline/download.py:137-292: the resumable document spool. A document is its text; a
    file holds a list of documents (compression and JSON are not modelled); part numbers stand for
    the part names, which are written from them with zero padding. */
module Spool {
  import opened Grouping
  import opened Prelude

  type Doc = string

  datatype State = State(docs: nat, chars: nat, parts: seq<int>, complete: bool)

  datatype Outcome = Done(state: State) | BadPartDocs | Crashed

  function Chars(s: seq<Doc>): nat {
    if s == [] then 0 else Chars(s[..|s| - 1]) + |s[|s| - 1]|
  }

  lemma {:induction false} CharsConcat(a: seq<Doc>, b: seq<Doc>)
    ensures Chars(a + b) == Chars(a) + Chars(b)
  {
    if b == [] {
      assert a + b == a;
    } else {
      CharsConcat(a, b[..|b| - 1]);
      assert (a + b)[..|a + b| - 1] == a + b[..|b| - 1];
    }
  }

  lemma CharsNext(docs: seq<Doc>, a: nat, b: nat)
    requires a <= b < |docs|
    ensures docs[a..b + 1] == docs[a..b] + [docs[b]]
    ensures Chars(docs[a..b + 1]) == Chars(docs[a..b]) + |docs[b]|
  {
    assert docs[a..b + 1] == docs[a..b] + [docs[b]];
  }

  predicate Spent(budget: Option<int>, chars: nat) {
    budget.Some? && chars >= budget.value
  }

  /** Where reading on from document `d` with `chars` already counted stops. */
  function StopAt(docs: seq<Doc>, d: nat, chars: nat, budget: Option<int>): (n: nat)
    requires d <= |docs|
    ensures d <= n <= |docs|
    decreases |docs| - d
  {
    if d == |docs| || Spent(budget, chars) then d else StopAt(docs, d + 1, chars + |docs[d]|, budget)
  }

  /** Reading from `a` to `b` counts the characters in between and leaves the stopping point. */
  ghost predicate ReadTo(docs: seq<Doc>, a: nat, b: nat, before: nat, chars: nat, budget: Option<int>) {
    a <= b <= |docs| && chars == before + Chars(docs[a..b])
    && StopAt(docs, b, chars, budget) == StopAt(docs, a, before, budget)
  }

  lemma ReadOne(docs: seq<Doc>, a: nat, b: nat, before: nat, chars: nat, budget: Option<int>)
    requires ReadTo(docs, a, b, before, chars, budget) && b < |docs| && !Spent(budget, chars)
    ensures ReadTo(docs, a, b + 1, before, chars + |docs[b]|, budget)
    ensures docs[a..b + 1] == docs[a..b] + [docs[b]]
  {
    CharsNext(docs, a, b);
  }

  // ---- the specification functions mean what they should ----

  lemma {:induction false} StopStep(docs: seq<Doc>, d: nat, m: nat, chars: nat, budget: Option<int>)
    requires d <= |docs| && d <= m <= StopAt(docs, d, chars, budget)
    ensures StopAt(docs, m, chars + Chars(docs[d..m]), budget) == StopAt(docs, d, chars, budget)
    decreases m - d
  {
    if d < m {
      StopStep(docs, d + 1, m, chars + |docs[d]|, budget);
      assert docs[d..m] == [docs[d]] + docs[d + 1..m];
      CharsConcat([docs[d]], docs[d + 1..m]);
      assert Chars([docs[d]]) == |docs[d]|;
    }
  }

  /** The target is the shortest prefix that reaches the budget, or the whole stream. */
  lemma ShortestPrefix(docs: seq<Doc>, budget: Option<int>)
    ensures var n := StopAt(docs, 0, 0, budget);
            && (n == |docs| || Spent(budget, Chars(docs[..n])))
            && forall m :: 0 <= m < n ==> !Spent(budget, Chars(docs[..m]))
  {
    var n := StopAt(docs, 0, 0, budget);
    forall m | 0 <= m <= n ensures StopAt(docs, m, Chars(docs[..m]), budget) == n {
      StopStep(docs, 0, m, 0, budget);
    }
  }

  // ---- the directory ----

  /** One source directory. `life` counts the disk operations the running process still gets to
      make before it is killed; None never is. */
  class Directory {
    var temps: map<int, seq<Doc>>
    var stateTemp: Option<State>
    var files: map<int, seq<Doc>>
    var stateFile: Option<State>
    var life: Option<nat>

    /** load_spool_state */
    function Loaded(): State reads this {
      if stateFile.Some? then stateFile.value else State(0, 0, [], false)
    }

    /** The recorded parts exist and hold what the record counts. */
    ghost predicate Valid() reads this {
      && PartsExist()
      && Loaded().docs == |Contents()|
      && Loaded().chars == Chars(Contents())
    }

    ghost predicate PartsExist() reads this {
      forall j :: 0 <= j < |Loaded().parts| ==> Loaded().parts[j] == j && j in files
    }

    ghost function Parts(): seq<seq<Doc>> reads this requires PartsExist() {
      seq(|Loaded().parts|, j requires 0 <= j < |Loaded().parts| reads this requires PartsExist() => files[j])
    }

    ghost function Contents(): seq<Doc> reads this requires PartsExist() {
      Flatten(Parts())
    }

    constructor ()
      ensures Valid() && Parts() == [] && Loaded() == State(0, 0, [], false)
    {
      temps, stateTemp, files, stateFile, life := map[], None, map[], None, None;
    }

    /** Every disk operation starts here. */
    method Survive() returns (alive: bool)
      modifies this`life
      ensures alive <==> old(life) != Some(0)
      ensures life == if old(life).Some? && old(life).value > 0 then Some(old(life).value - 1) else old(life)
    {
      alive := life != Some(0);
      if life.Some? && life.value > 0 { life := Some(life.value - 1); }
    }

    /** The stale temporaries an earlier session left are removed one by one. */
    method RemoveStale() returns (alive: bool)
      modifies this`temps, this`stateTemp, this`life
      ensures life.None? <==> old(life).None?
      ensures life.None? ==> alive
      ensures alive ==> temps == map[] && stateTemp == None
    {
      alive := true;
      if stateTemp.Some? {
        alive := Survive();
        if !alive { return; }
        stateTemp := None;
      }
      while temps.Keys != {}
        invariant life.None? <==> old(life).None?
        invariant stateTemp == None
        decreases temps.Keys
      {
        alive := Survive();
        if !alive { return; }
        var name := Minimum(temps.Keys);
        var fewer := temps - {name};
        assert name in temps && name !in fewer;
        temps := fewer;
      }
      alive := true;
    }

    /** _write_state */
    method WriteState(state: State) returns (alive: bool)
      modifies this`stateTemp, this`stateFile, this`life
      ensures life.None? <==> old(life).None?
      ensures life.None? ==> alive
      ensures stateFile == old(stateFile) || stateFile == Some(state)
      ensures alive ==> stateFile == Some(state)
    {
      alive := Survive();
      if !alive { return; }
      stateTemp := Some(state);
      alive := Survive();
      if !alive { return; }
      stateFile, stateTemp := stateTemp, None;
    }

    method Append(name: int, text: Doc) returns (alive: bool)
      requires name in temps
      modifies this`temps, this`life
      ensures life.None? <==> old(life).None?
      ensures life.None? ==> alive
      ensures alive ==> name in temps && temps[name] == old(temps)[name] + [text]
    {
      alive := Survive();
      if alive { temps := temps[name := temps[name] + [text]]; }
    }

    /** The inner loop: fill one temporary file. */
    method FillPart(docs: seq<Doc>, pos: nat, charsBefore: nat, budget: Option<int>, partDocs: int, name: int)
      returns (alive: bool, wrote: nat, chars: nat, exhausted: bool)
      requires pos <= |docs| && partDocs > 0
      modifies this`temps, this`life
      ensures life.None? <==> old(life).None?
      ensures life.None? ==> alive
      ensures wrote <= partDocs && ReadTo(docs, pos, pos + wrote, charsBefore, chars, budget)
      ensures alive ==> name in temps && temps[name] == docs[pos..pos + wrote]
      ensures exhausted ==> pos + wrote == |docs|
      ensures alive && wrote < partDocs ==> exhausted || Spent(budget, chars)
    {
      wrote, chars, exhausted := 0, charsBefore, false;
      alive := Survive();
      if !alive { return; }
      temps := temps[name := []];
      while wrote < partDocs && !Spent(budget, chars)
        invariant life.None? <==> old(life).None?
        invariant wrote <= partDocs && !exhausted && ReadTo(docs, pos, pos + wrote, charsBefore, chars, budget)
        invariant name in temps && temps[name] == docs[pos..pos + wrote]
      {
        if pos + wrote == |docs| { exhausted := true; break; }
        var text := docs[pos + wrote];
        alive := Append(name, text);
        if !alive { return; }
        ReadOne(docs, pos, pos + wrote, charsBefore, chars, budget);
        wrote, chars := wrote + 1, chars + |text|;
      }
    }

    /** Rename a finished temporary over its part, then record it. */
    method CommitPart(name: int, state: State) returns (alive: bool)
      requires Valid() && name == |Loaded().parts| && name in temps
      requires state.parts == Loaded().parts + [name] && state.docs == Loaded().docs + |temps[name]|
      requires state.chars == Loaded().chars + Chars(temps[name])
      modifies this
      ensures Valid() && (life.None? <==> old(life).None?)
      ensures life.None? ==> alive
      ensures (Loaded() == old(Loaded()) && Parts() == old(Parts()))
           || (Loaded() == state && Parts() == old(Parts()) + [old(temps[name])])
      ensures alive ==> Loaded() == state
    {
      ghost var parts, text := Parts(), temps[name];
      alive := Survive();
      if !alive { return; }
      files, temps := files[name := temps[name]], temps - {name};
      assert Parts() == parts;
      alive := WriteState(state);
      if stateFile == Some(state) {
        assert Parts() == parts + [text];
        FlattenSnoc(parts, text);
        CharsConcat(Flatten(parts), text);
      } else {
        assert Parts() == parts;
      }
    }

    /** spool_documents. A session that ends on its own has read on to the stopping point; one that
        was killed has committed whole parts of the same grouping, never past it; and no
        committed part is ever rewritten. */
    method SpoolDocuments(docs: seq<Doc>, budget: Option<int>, partDocs: int) returns (r: Outcome)
      requires Valid()
      modifies this
      ensures Valid() && (life.None? <==> old(life).None?)
      ensures partDocs <= 0 <==> r == BadPartDocs
      ensures partDocs <= 0 ==> Loaded() == old(Loaded()) && Parts() == old(Parts())
      ensures life.None? && partDocs > 0 ==> r.Done?
      ensures old(Loaded()).complete || old(Loaded()).docs > |docs| ==> Parts() == old(Parts())
      ensures old(Loaded()).complete ==> Loaded() == old(Loaded())
      ensures r.Done? ==> r.state == Loaded() && r.state.complete
      ensures partDocs > 0 && !old(Loaded()).complete && old(Loaded()).docs <= |docs| ==>
                var d0, d, stop := old(Loaded()).docs, Loaded().docs, StopAt(docs, old(Loaded()).docs, old(Loaded()).chars, budget);
                && d0 <= d <= stop && (Loaded().complete ==> d == stop)
                && Parts() == old(Parts()) + Chunks(docs[d0..d], partDocs)
                && (AllFull(Chunks(docs[d0..d], partDocs), partDocs) || d == stop)
    {
      if partDocs <= 0 { return BadPartDocs; }
      ghost var before := Parts();
      var alive := RemoveStale();
      assert Parts() == before;
      if !alive { return Crashed; }
      var state := Loaded();
      if state.complete { return Done(state); }
      if state.docs > |docs| {
        r := Finish(state);
        return;
      }
      r := Extend(docs, budget, partDocs);
    }

    /** One round of the outer loop: fill a temporary, and commit it unless it stayed empty. */
    method OnePart(docs: seq<Doc>, budget: Option<int>, partDocs: int, state: State) returns (alive: bool, next: State, exhausted: bool)
      requires Valid() && Loaded() == state && partDocs > 0 && !state.complete && state.docs <= |docs|
      requires !Spent(budget, state.chars)
      modifies this
      ensures Valid() && (life.None? <==> old(life).None?)
      ensures life.None? ==> alive
      ensures !Loaded().complete && Grown(docs, budget, partDocs, state, Loaded())
      ensures Parts() == old(Parts()) + if Loaded().docs == state.docs then [] else [docs[state.docs..Loaded().docs]]
      ensures alive ==> Loaded() == next
      ensures exhausted ==> Loaded().docs == |docs| || !alive
      ensures alive && next.docs < state.docs + partDocs ==> exhausted || Spent(budget, next.chars)
    {
      ghost var before := Parts();
      var name := |state.parts|;
      var wrote, chars;
      alive, wrote, chars, exhausted := FillPart(docs, state.docs, state.chars, budget, partDocs, name);
      assert Parts() == before;
      next := state;
      if !alive { return; }
      if wrote == 0 {
        assert docs[state.docs..state.docs] == [];
        alive := Survive();
        if alive { temps := temps - {name}; }
        assert Parts() == before;
        return;
      }
      next := State(state.docs + wrote, chars, state.parts + [name], false);
      alive := CommitPart(name, next);
    }

    method Finish(state: State) returns (r: Outcome)
      requires Valid() && Loaded() == state
      modifies this
      ensures Valid() && (life.None? <==> old(life).None?) && Parts() == old(Parts())
      ensures Loaded() == state || Loaded() == state.(complete := true)
      ensures r == Crashed || (r == Done(state.(complete := true)) && Loaded() == r.state)
      ensures life.None? ==> r.Done?
    {
      ghost var held := Parts();
      var alive := WriteState(state.(complete := true));
      assert Parts() == held;
      r := if alive then Done(state.(complete := true)) else Crashed;
    }

    /** The outer loop, once the committed documents have been skipped. */
    method Extend(docs: seq<Doc>, budget: Option<int>, partDocs: int) returns (r: Outcome)
      requires Valid() && partDocs > 0 && !Loaded().complete && Loaded().docs <= |docs|
      modifies this
      ensures Valid() && (life.None? <==> old(life).None?)
      ensures r != BadPartDocs && (life.None? ==> r.Done?)
      ensures r.Done? ==> r.state == Loaded() && r.state.complete
      ensures Grouped(docs, budget, partDocs, old(Loaded()), old(Parts()), Loaded(), Parts())
      ensures Loaded().complete ==> Loaded().docs == StopAt(docs, old(Loaded()).docs, old(Loaded()).chars, budget)
    {
      var state, exhausted := Loaded(), false;
      ghost var before, first, stop := Parts(), state, StopAt(docs, state.docs, state.chars, budget);
      assert docs[first.docs..first.docs] == [];
      while !exhausted && !Spent(budget, state.chars)
        invariant Valid() && (life.None? <==> old(life).None?)
        invariant Loaded() == state && !state.complete
        invariant Grouped(docs, budget, partDocs, first, before, state, Parts()) && (exhausted ==> state.docs == |docs|)
        invariant exhausted || Spent(budget, state.chars) || AllFull(Chunks(docs[first.docs..state.docs], partDocs), partDocs)
        decreases !exhausted, |docs| - state.docs
      {
        ghost var held := Parts();
        var alive, next, hitEnd := OnePart(docs, budget, partDocs, state);
        NextGroup(docs, budget, partDocs, first, before, state, held, Loaded(), Parts());
        if !alive { return Crashed; }
        exhausted := hitEnd;
        if next.docs == state.docs { break; }
        state := next;
      }
      r := Finish(state);
    }
  }

  /** At most one group further, short of the stopping point only when the group is full. */
  ghost predicate Grown(docs: seq<Doc>, budget: Option<int>, k: nat, a: State, b: State)
    requires a.docs <= |docs|
  {
    var stop := StopAt(docs, a.docs, a.chars, budget);
    && a.docs <= b.docs <= stop && b.docs - a.docs <= k
    && StopAt(docs, b.docs, b.chars, budget) == stop
    && (b.docs == a.docs || b.docs - a.docs == k || b.docs == stop)
  }

  /** The parts of a session so far: those it found, then full groups of what it read. */
  ghost predicate Grouped(docs: seq<Doc>, budget: Option<int>, k: nat, first: State, before: seq<seq<Doc>>, state: State, parts: seq<seq<Doc>>)
    requires k > 0 && first.docs <= |docs|
  {
    var stop := StopAt(docs, first.docs, first.chars, budget);
    && first.docs <= state.docs <= |docs| && StopAt(docs, state.docs, state.chars, budget) == stop
    && parts == before + Chunks(docs[first.docs..state.docs], k)
    && (AllFull(Chunks(docs[first.docs..state.docs], k), k) || state.docs == stop)
  }

  lemma NextGroup(docs: seq<Doc>, budget: Option<int>, k: nat, first: State, before: seq<seq<Doc>>,
                  state: State, parts: seq<seq<Doc>>, next: State, nextParts: seq<seq<Doc>>)
    requires k > 0 && first.docs <= |docs| && Grouped(docs, budget, k, first, before, state, parts)
    requires AllFull(Chunks(docs[first.docs..state.docs], k), k) && Grown(docs, budget, k, state, next)
    requires nextParts == parts + if next.docs == state.docs then [] else [docs[state.docs..next.docs]]
    ensures Grouped(docs, budget, k, first, before, next, nextParts)
    ensures next.docs - state.docs == k ==> AllFull(Chunks(docs[first.docs..next.docs], k), k)
  {
    if state.docs < next.docs {
      var seg, piece := docs[first.docs..state.docs], docs[state.docs..next.docs];
      ChunksSnoc(seg, piece, k);
      assert docs[first.docs..next.docs] == seg + piece;
      assert before + (Chunks(seg, k) + [piece]) == (before + Chunks(seg, k)) + [piece];
    }
  }

  // ---- whole runs ----

  /** How to read a state whose parts follow the grouping of one stream. */
  ghost predicate OnCourse(docs: seq<Doc>, budget: Option<int>, k: nat, state: State, parts: seq<seq<Doc>>)
    requires k > 0
  {
    var n := StopAt(docs, 0, 0, budget);
    && state.docs <= n && parts == Chunks(docs[..state.docs], k)
    && (AllFull(parts, k) || state.docs == n) && (state.complete ==> state.docs == n)
  }

  lemma SameStop(docs: seq<Doc>, budget: Option<int>, k: nat, a: State, before: seq<seq<Doc>>)
    requires k > 0 && OnCourse(docs, budget, k, a, before) && a.chars == Chars(Flatten(before))
    ensures StopAt(docs, a.docs, a.chars, budget) == StopAt(docs, 0, 0, budget)
  {
    ChunksHold(docs[..a.docs], k);
    StopStep(docs, 0, a.docs, 0, budget);
  }

  lemma StaysOnCourse(docs: seq<Doc>, budget: Option<int>, k: nat, a: State, before: seq<seq<Doc>>, b: State, after: seq<seq<Doc>>)
    requires k > 0 && OnCourse(docs, budget, k, a, before) && a.chars == Chars(Flatten(before))
    requires var stop := StopAt(docs, a.docs, a.chars, budget);
             && a.docs <= b.docs <= stop && (b.complete ==> b.docs == stop)
             && after == before + Chunks(docs[a.docs..b.docs], k)
             && (AllFull(Chunks(docs[a.docs..b.docs], k), k) || b.docs == stop)
    ensures OnCourse(docs, budget, k, b, after)
  {
    SameStop(docs, budget, k, a, before);
    if a.docs < b.docs {
      var s, t := docs[..a.docs], docs[a.docs..b.docs];
      ChunksConcat(s, t, k);
      assert docs[..b.docs] == s + t;
    } else {
      assert docs[a.docs..b.docs] == [];
    }
  }

  /** Whatever the crashes and whatever settings each session runs with, the recorded parts hold
      exactly the first `docs` documents of the stream. */
  method RunSessions(dir: Directory, docs: seq<Doc>, sessions: seq<(Option<nat>, Option<int>, int)>)
    requires dir.Valid() && dir.Loaded().docs <= |docs| && dir.Contents() == docs[..dir.Loaded().docs]
    modifies dir
    ensures dir.Valid() && old(dir.Loaded().docs) <= dir.Loaded().docs <= |docs|
    ensures dir.Contents() == docs[..dir.Loaded().docs] && old(dir.Parts()) <= dir.Parts()
  {
    for i := 0 to |sessions|
      invariant dir.Valid() && old(dir.Loaded().docs) <= dir.Loaded().docs <= |docs|
      invariant dir.Contents() == docs[..dir.Loaded().docs] && old(dir.Parts()) <= dir.Parts()
    {
      ghost var d0, before := dir.Loaded().docs, dir.Parts();
      dir.life := sessions[i].0;
      assert dir.Parts() == before;
      var r := dir.SpoolDocuments(docs, sessions[i].1, sessions[i].2);
      MorePrefix(docs, d0, dir.Loaded().docs, sessions[i].2, before, dir.Parts());
    }
  }

  lemma MorePrefix(docs: seq<Doc>, d0: nat, d: nat, k: int, before: seq<seq<Doc>>, after: seq<seq<Doc>>)
    requires d0 <= |docs| && Flatten(before) == docs[..d0]
    requires after == before || (k > 0 && d0 <= d <= |docs| && after == before + Chunks(docs[d0..d], k))
    requires d == |Flatten(after)|
    ensures before <= after && d <= |docs| && Flatten(after) == docs[..d]
  {
    if after != before {
      FlattenConcat(before, Chunks(docs[d0..d], k));
      ChunksHold(docs[d0..d], k);
      assert docs[..d] == docs[..d0] + docs[d0..d];
    }
  }

  /** Any schedule of crashes, then a session left to finish: the state and the parts depend on the
      stream and the settings alone, not on the crashes. */
  method ResumeUntilDone(dir: Directory, docs: seq<Doc>, budget: Option<int>, partDocs: int, lives: seq<nat>) returns (r: Outcome)
    requires dir.Valid() && dir.Loaded() == State(0, 0, [], false) && dir.Parts() == [] && partDocs > 0
    modifies dir
    ensures dir.Valid() && r == Done(dir.Loaded())
    ensures var n := StopAt(docs, 0, 0, budget);
            && dir.Parts() == Chunks(docs[..n], partDocs)
            && dir.Loaded() == State(n, Chars(docs[..n]), Numbered(|dir.Parts()|), true)
  {
    assert docs[..0] == [];
    for i := 0 to |lives|
      invariant dir.Valid() && OnCourse(docs, budget, partDocs, dir.Loaded(), dir.Parts())
    {
      r := ResumeOnce(dir, docs, budget, partDocs, Some(lives[i]));
    }
    r := ResumeOnce(dir, docs, budget, partDocs, None);
    ChunksHold(docs[..dir.Loaded().docs], partDocs);
    assert dir.Loaded().parts == Numbered(|dir.Parts()|);
  }

  method ResumeOnce(dir: Directory, docs: seq<Doc>, budget: Option<int>, partDocs: int, life: Option<nat>) returns (r: Outcome)
    requires partDocs > 0 && dir.Valid() && OnCourse(docs, budget, partDocs, dir.Loaded(), dir.Parts())
    modifies dir
    ensures dir.Valid() && OnCourse(docs, budget, partDocs, dir.Loaded(), dir.Parts())
    ensures life.None? ==> r.Done?
    ensures r.Done? ==> r.state == dir.Loaded() && r.state.complete
  {
    ghost var a, before := dir.Loaded(), dir.Parts();
    dir.life := life;
    assert dir.Parts() == before;
    r := dir.SpoolDocuments(docs, budget, partDocs);
    if !a.complete { StaysOnCourse(docs, budget, partDocs, a, before, dir.Loaded(), dir.Parts()); }
  }

  function Numbered(m: nat): seq<int> {
    seq(m, j => j)
  }

  /** _iter_parts over the recorded parts. */
  method IterDocuments(dir: Directory) returns (out: seq<Doc>)
    requires dir.Valid()
    ensures out == dir.Contents()
  {
    out := [];
    var parts := dir.Loaded().parts;
    for j := 0 to |parts|
      invariant out == Flatten(dir.Parts()[..j])
    {
      out := out + dir.files[parts[j]];
      FlattenSnoc(dir.Parts()[..j], dir.Parts()[j]);
      assert dir.Parts()[..j + 1] == dir.Parts()[..j] + [dir.Parts()[j]];
    }
    assert dir.Parts()[..|parts|] == dir.Parts();
  }
}
