/**
 Diff hunks against patch application (apps/api/src/sandbox/tools/diff.ts).

 The edit script itself comes from a library; every script that rewrites the old lines
 into the new ones is covered.
 */
module Diff {
  import opened Wrappers

  datatype LineType = Added | Removed | Unchanged

  datatype Change = Change(kind: LineType, lines: seq<string>)

  datatype DiffLine = DiffLine(kind: LineType, oldNumber: Option<nat>, newNumber: Option<nat>, content: string)

  type Hunk = seq<DiffLine>

  const CONTEXT_LINES := 3

  // ---------- The two sides ----------

  // The lines of a script that are not of this kind: without additions, the old lines; without removals, the new.
  function ScriptSide(script: seq<Change>, without: LineType): seq<string> {
    if script == [] then []
    else
      var last := script[|script| - 1];
      ScriptSide(script[..|script| - 1], without) + (if last.kind == without then [] else last.lines)
  }

  function Side(flat: seq<DiffLine>, without: LineType): seq<string> {
    if flat == [] then []
    else
      var last := flat[|flat| - 1];
      Side(flat[..|flat| - 1], without) + (if last.kind == without then [] else [last.content])
  }

  lemma SideSnoc(flat: seq<DiffLine>, line: DiffLine, without: LineType)
    ensures Side(flat + [line], without) == Side(flat, without) + (if line.kind == without then [] else [line.content])
  {
    assert (flat + [line])[..|flat|] == flat;
  }

  lemma {:induction false} SideConcat(a: seq<DiffLine>, b: seq<DiffLine>, without: LineType)
    ensures Side(a + b, without) == Side(a, without) + Side(b, without)
    decreases |b|
  {
    if b == [] {
      assert a + b == a;
    } else {
      var front, last := b[..|b| - 1], b[|b| - 1];
      SideConcat(a, front, without);
      assert a + b == (a + front) + [last];
      SideSnoc(a + front, last, without);
    }
  }

  // Each line carries its place on the sides it stands on, counted from one.
  ghost predicate NumberedLine(before: seq<DiffLine>, line: DiffLine) {
    && line.oldNumber == (if line.kind == Added then None else Some(|Side(before, Added)| + 1))
    && line.newNumber == (if line.kind == Removed then None else Some(|Side(before, Removed)| + 1))
  }

  ghost predicate NumberedAt(flat: seq<DiffLine>, i: nat)
    requires i < |flat|
  {
    NumberedLine(flat[..i], flat[i])
  }

  ghost predicate Numbered(flat: seq<DiffLine>) {
    forall i {:trigger NumberedAt(flat, i)} :: 0 <= i < |flat| ==> NumberedAt(flat, i)
  }

  // ---------- Applying hunks ----------

  function FirstOldNumber(hunk: Hunk): Option<nat> {
    if hunk == [] then None
    else if hunk[0].oldNumber.Some? then hunk[0].oldNumber
    else FirstOldNumber(hunk[1..])
  }

  // Hunk by hunk from position `at` of the old lines: what lies before a hunk's first recorded line is
  // copied, and the lines the hunk says were there are checked and replaced. None when they are not there.
  function Patch(text: seq<string>, at: nat, hunks: seq<Hunk>): Option<seq<string>>
    requires at <= |text|
    decreases |hunks|
  {
    if hunks == [] then Some(text[at..])
    else
      var was := Side(hunks[0], Added);
      var start := FirstOldNumber(hunks[0]).GetOr(at + 1) - 1;
      if !(at <= start && start + |was| <= |text| && text[start..start + |was|] == was) then None
      else
        match Patch(text, start + |was|, hunks[1..])
        case Some(rest) => Some(text[at..start] + Side(hunks[0], Removed) + rest)
        case None => None
  }

  // ---------- Hunks ----------

  predicate Near(i: int, j: int) {
    -CONTEXT_LINES <= i - j <= CONTEXT_LINES
  }

  // A line is kept when it stands within the context of a change.
  ghost predicate Kept(flat: seq<DiffLine>, i: nat) {
    exists j :: 0 <= j < |flat| && flat[j].kind != Unchanged && Near(i, j)
  }

  // Where each hunk stands. Two spans never touch, so a dropped line lies between any two hunks.
  datatype Span = Span(lo: nat, hi: nat)

  ghost predicate Apart(spans: seq<Span>, end: nat) {
    && (forall k :: 0 <= k < |spans| ==> spans[k].lo < spans[k].hi <= end)
    && (forall k :: 0 <= k < |spans| - 1 ==> spans[k].hi < spans[k + 1].lo)
  }

  ghost predicate Covered(spans: seq<Span>, i: nat) {
    exists k :: 0 <= k < |spans| && spans[k].lo <= i < spans[k].hi
  }

  // The hunks are the maximal runs of kept lines, in order.
  ghost predicate AreRuns(flat: seq<DiffLine>, hunks: seq<Hunk>, spans: seq<Span>) {
    && Apart(spans, |flat|)
    && |hunks| == |spans|
    && (forall k :: 0 <= k < |spans| ==> hunks[k] == flat[spans[k].lo..spans[k].hi])
    && (forall i :: 0 <= i < |flat| ==> (Covered(spans, i) <==> Kept(flat, i)))
  }

  method MarkKept(flat: seq<DiffLine>) returns (keep: array<bool>)
    ensures fresh(keep) && keep.Length == |flat|
    ensures forall i :: 0 <= i < |flat| ==> (keep[i] <==> Kept(flat, i))
  {
    keep := new bool[|flat|](_ => false);
    for i := 0 to |flat|
      invariant forall k :: 0 <= k < |flat| ==>
        (keep[k] <==> exists j :: 0 <= j < i && flat[j].kind != Unchanged && Near(k, j))
    {
      if flat[i].kind != Unchanged {
        var first := if i - CONTEXT_LINES > 0 then i - CONTEXT_LINES else 0;
        var last := if i + CONTEXT_LINES < |flat| - 1 then i + CONTEXT_LINES else |flat| - 1;
        for j := first to last + 1
          invariant forall k :: 0 <= k < |flat| ==>
            (keep[k] <==> (first <= k < j || exists c :: 0 <= c < i && flat[c].kind != Unchanged && Near(k, c)))
        {
          keep[j] := true;
        }
      }
    }
  }

  // The runs found so far, where they stand, and the one still open.
  datatype Runs = Runs(hunks: seq<Hunk>, spans: seq<Span>, current: Hunk)

  ghost predicate RunsTo(flat: seq<DiffLine>, i: nat, r: Runs)
    requires i <= |flat|
  {
    && |r.current| <= i && r.current == flat[i - |r.current|..i]
    && Apart(r.spans, i) && |r.hunks| == |r.spans|
    && (forall k :: 0 <= k < |r.spans| ==> r.hunks[k] == flat[r.spans[k].lo..r.spans[k].hi])
    && (r.spans != [] ==> r.spans[|r.spans| - 1].hi < if r.current == [] then i else i - |r.current|)
    && (forall k :: 0 <= k < i ==> (Kept(flat, k) <==> (Covered(r.spans, k) || i - |r.current| <= k)))
  }

  // The open run ends before line i.
  function Close(r: Runs, i: nat): Runs
    requires |r.current| <= i
  {
    if r.current == [] then r else Runs(r.hunks + [r.current], r.spans + [Span(i - |r.current|, i)], [])
  }

  lemma CloseRun(flat: seq<DiffLine>, i: nat, r: Runs)
    requires i <= |flat| && RunsTo(flat, i, r)
    ensures var c := Close(r, i);
      && Apart(c.spans, i) && |c.hunks| == |c.spans|
      && (forall k :: 0 <= k < |c.spans| ==> c.hunks[k] == flat[c.spans[k].lo..c.spans[k].hi])
      && (forall k :: 0 <= k < i ==> (Kept(flat, k) <==> Covered(c.spans, k)))
  {
    if r.current != [] {
      var c := Close(r, i);
      forall k | 0 <= k < i
        ensures Covered(c.spans, k) <==> Covered(r.spans, k) || i - |r.current| <= k
      {
        if Covered(r.spans, k) {
          var s :| 0 <= s < |r.spans| && r.spans[s].lo <= k < r.spans[s].hi;
          assert c.spans[s] == r.spans[s];
        }
        if i - |r.current| <= k {
          assert c.spans[|r.spans|].lo <= k < c.spans[|r.spans|].hi;
        }
      }
    }
  }

  lemma KeptLineRuns(flat: seq<DiffLine>, i: nat, r: Runs)
    requires i < |flat| && RunsTo(flat, i, r) && Kept(flat, i)
    ensures RunsTo(flat, i + 1, r.(current := r.current + [flat[i]]))
  {
    assert !Covered(r.spans, i);
  }

  lemma DroppedLineRuns(flat: seq<DiffLine>, i: nat, r: Runs)
    requires i < |flat| && RunsTo(flat, i, r) && !Kept(flat, i)
    ensures RunsTo(flat, i + 1, Close(r, i))
  {
    CloseRun(flat, i, r);
    assert !Covered(Close(r, i).spans, i);
  }

  // The runs of marked lines among the first i.
  function RunsOf(flat: seq<DiffLine>, keep: seq<bool>, i: nat): (r: Runs)
    requires i <= |flat| == |keep|
    ensures |r.current| <= i
  {
    if i == 0 then Runs([], [], [])
    else
      var r := RunsOf(flat, keep, i - 1);
      if keep[i - 1] then r.(current := r.current + [flat[i - 1]]) else Close(r, i - 1)
  }

  ghost predicate Marks(flat: seq<DiffLine>, keep: seq<bool>) {
    |keep| == |flat| && forall i :: 0 <= i < |flat| ==> (keep[i] <==> Kept(flat, i))
  }

  lemma {:induction false} RunsOfAre(flat: seq<DiffLine>, keep: seq<bool>, i: nat)
    requires Marks(flat, keep) && i <= |flat|
    ensures RunsTo(flat, i, RunsOf(flat, keep, i))
  {
    if i != 0 {
      RunsOfAre(flat, keep, i - 1);
      if keep[i - 1] {
        KeptLineRuns(flat, i - 1, RunsOf(flat, keep, i - 1));
      } else {
        DroppedLineRuns(flat, i - 1, RunsOf(flat, keep, i - 1));
      }
    }
  }

  // The hunks are the maximal runs of kept lines, wherever they stand.
  ghost predicate Windowed(flat: seq<DiffLine>, hunks: seq<Hunk>) {
    exists spans :: AreRuns(flat, hunks, spans)
  }

  lemma MarkedRuns(flat: seq<DiffLine>, keep: seq<bool>)
    requires Marks(flat, keep)
    ensures Windowed(flat, Close(RunsOf(flat, keep, |flat|), |flat|).hunks)
  {
    var r := RunsOf(flat, keep, |flat|);
    RunsOfAre(flat, keep, |flat|);
    CloseRun(flat, |flat|, r);
    assert AreRuns(flat, Close(r, |flat|).hunks, Close(r, |flat|).spans);
  }

  // The marked lines, cut into runs.
  method CutRuns(flat: seq<DiffLine>, keep: seq<bool>) returns (hunks: seq<Hunk>)
    requires Marks(flat, keep)
    ensures Windowed(flat, hunks)
  {
    var current: Hunk := [];
    hunks := [];
    for i := 0 to |flat|
      invariant hunks == RunsOf(flat, keep, i).hunks && current == RunsOf(flat, keep, i).current
    {
      if !keep[i] {
        if |current| > 0 {
          hunks, current := hunks + [current], [];
        }
      } else {
        current := current + [flat[i]];
      }
    }
    MarkedRuns(flat, keep);
    if |current| > 0 {
      hunks := hunks + [current];
    }
  }

  /** windowHunks: the lines near a change, cut into runs. */
  method WindowHunks(flat: seq<DiffLine>) returns (hunks: seq<Hunk>)
    ensures Windowed(flat, hunks)
  {
    var marks := MarkKept(flat);
    hunks := CutRuns(flat, marks[..]);
  }

  // ---------- Rebuilding the new lines ----------

  // Lines nothing changed read the same on both sides.
  lemma {:induction false} UnchangedSidesAgree(flat: seq<DiffLine>)
    requires forall i :: 0 <= i < |flat| ==> flat[i].kind == Unchanged
    ensures Side(flat, Added) == Side(flat, Removed)
    decreases |flat|
  {
    if flat != [] {
      UnchangedSidesAgree(flat[..|flat| - 1]);
    }
  }

  lemma {:induction false} AdditionsHaveNoOld(flat: seq<DiffLine>)
    requires forall i :: 0 <= i < |flat| ==> flat[i].kind == Added
    ensures Side(flat, Added) == []
    decreases |flat|
  {
    if flat != [] {
      AdditionsHaveNoOld(flat[..|flat| - 1]);
    }
  }

  lemma SideSlice(flat: seq<DiffLine>, lo: nat, hi: nat, without: LineType)
    requires lo <= hi <= |flat|
    ensures Side(flat[..hi], without) == Side(flat[..lo], without) + Side(flat[lo..hi], without)
    ensures Side(flat[lo..], without) == Side(flat[lo..hi], without) + Side(flat[hi..], without)
  {
    assert flat[..hi] == flat[..lo] + flat[lo..hi] && flat[lo..] == flat[lo..hi] + flat[hi..];
    SideConcat(flat[..lo], flat[lo..hi], without);
    SideConcat(flat[lo..hi], flat[hi..], without);
  }

  // Where a slice of the lines stands among the old ones.
  lemma OldSlice(flat: seq<DiffLine>, lo: nat, hi: nat)
    requires lo <= hi <= |flat|
    ensures var (from, end) := (|Side(flat[..lo], Added)|, |Side(flat[..hi], Added)|);
      from <= end <= |Side(flat, Added)| && Side(flat, Added)[from..end] == Side(flat[lo..hi], Added)
  {
    SideSlice(flat, lo, hi, Added);
    SideSlice(flat, hi, |flat|, Added);
    assert flat[..|flat|] == flat;
  }

  // The first old number a slice records says where its old lines begin.
  lemma {:induction false} SliceStart(flat: seq<DiffLine>, lo: nat, mid: nat, hi: nat)
    requires Numbered(flat) && lo <= mid <= hi <= |flat|
    requires forall i :: lo <= i < mid ==> flat[i].kind == Added
    ensures FirstOldNumber(flat[mid..hi]) == None ==> forall i :: lo <= i < hi ==> flat[i].kind == Added
    ensures FirstOldNumber(flat[mid..hi]).Some? ==>
              FirstOldNumber(flat[mid..hi]) == Some(|Side(flat[..lo], Added)| + 1)
    decreases hi - mid
  {
    if mid < hi {
      assert flat[mid..hi][1..] == flat[mid + 1..hi] && NumberedAt(flat, mid);
      if flat[mid].kind == Added {
        SliceStart(flat, lo, mid + 1, hi);
      } else {
        SideSlice(flat, lo, mid, Added);
        AdditionsHaveNoOld(flat[lo..mid]);
      }
    }
  }

  lemma DroppedIsUnchanged(flat: seq<DiffLine>, i: nat)
    requires i < |flat| && !Kept(flat, i)
    ensures flat[i].kind == Unchanged && (i + 1 < |flat| ==> flat[i + 1].kind == Unchanged)
  {
    assert Near(i, i) && Near(i, i + 1);
  }

  // A hunk of additions only has nothing before it: an unchanged neighbour would be its context.
  lemma StartOfHunk(flat: seq<DiffLine>, p: nat, span: Span)
    requires Numbered(flat) && p <= span.lo < span.hi <= |flat|
    requires forall i :: p <= i < span.lo ==> !Kept(flat, i)
    ensures FirstOldNumber(flat[span.lo..span.hi]).GetOr(|Side(flat[..p], Added)| + 1) == |Side(flat[..span.lo], Added)| + 1
  {
    SliceStart(flat, span.lo, span.lo, span.hi);
    if p < span.lo {
      DroppedIsUnchanged(flat, span.lo - 1);
    }
  }

  lemma GapAgrees(flat: seq<DiffLine>, p: nat, end: nat)
    requires p <= end <= |flat| && forall i :: p <= i < end ==> !Kept(flat, i)
    ensures Side(flat[p..end], Added) == Side(flat[p..end], Removed)
  {
    forall i | p <= i < end
      ensures flat[i].kind == Unchanged
    {
      DroppedIsUnchanged(flat, i);
    }
    UnchangedSidesAgree(flat[p..end]);
  }

  // Between one span and the next, and after the last, no line is kept.
  lemma GapIsDropped(flat: seq<DiffLine>, spans: seq<Span>, k: nat, p: nat, end: nat)
    requires Apart(spans, |flat|) && k <= |spans|
    requires forall i :: 0 <= i < |flat| ==> (Covered(spans, i) <==> Kept(flat, i))
    requires p == if k == 0 then 0 else spans[k - 1].hi
    requires end == if k < |spans| then spans[k].lo else |flat|
    ensures p <= end <= |flat|
    ensures forall i :: p <= i < end ==> !Kept(flat, i)
  {
    forall i | p <= i < end
      ensures !Kept(flat, i)
    {
      forall s | 0 <= s < |spans|
        ensures !(spans[s].lo <= i < spans[s].hi)
      {
        if s < k { SpansAscend(spans, |flat|, s, k - 1); } else { SpansAscend(spans, |flat|, k, s); }
      }
      assert !Covered(spans, i);
    }
  }

  lemma {:induction false} SpansAscend(spans: seq<Span>, end: nat, a: nat, b: nat)
    requires Apart(spans, end) && a <= b < |spans|
    ensures spans[a].lo <= spans[b].lo && spans[a].hi <= spans[b].hi
    decreases b - a
  {
    if a < b {
      SpansAscend(spans, end, a, b - 1);
    }
  }

  // One hunk applied: what stands before it is copied, its own lines are found and replaced.
  lemma PatchStep(text: seq<string>, at: nat, hunks: seq<Hunk>, start: nat, end: nat, rest: seq<string>)
    requires hunks != [] && at <= start <= end <= |text|
    requires text[start..end] == Side(hunks[0], Added)
    requires FirstOldNumber(hunks[0]).GetOr(at + 1) == start + 1
    requires Patch(text, end, hunks[1..]) == Some(rest)
    ensures Patch(text, at, hunks) == Some(text[at..start] + Side(hunks[0], Removed) + rest)
  {
  }

  // The new lines from p on: a gap copied from the old side, the hunk's own, and the rest.
  lemma NewLinesSplit(flat: seq<DiffLine>, p: nat, lo: nat, hi: nat)
    requires p <= lo <= hi <= |flat| && forall i :: p <= i < lo ==> !Kept(flat, i)
    ensures Side(flat[p..], Removed)
         == Side(flat[p..lo], Added) + Side(flat[lo..hi], Removed) + Side(flat[hi..], Removed)
  {
    GapAgrees(flat, p, lo);
    SideSlice(flat, p, lo, Removed);
    SideSlice(flat, lo, hi, Removed);
  }

  lemma PatchOne(flat: seq<DiffLine>, hunks: seq<Hunk>, p: nat, span: Span, text: seq<string>, at: nat, end: nat)
    requires Numbered(flat) && p <= span.lo < span.hi <= |flat| && hunks != []
    requires forall i :: p <= i < span.lo ==> !Kept(flat, i)
    requires hunks[0] == flat[span.lo..span.hi]
    requires text == Side(flat, Added) && at == |Side(flat[..p], Added)| && end == |Side(flat[..span.hi], Added)| <= |text|
    requires Patch(text, end, hunks[1..]) == Some(Side(flat[span.hi..], Removed))
    ensures at <= |text| && Patch(text, at, hunks) == Some(Side(flat[p..], Removed))
  {
    StartOfHunk(flat, p, span);
    OldSlice(flat, p, span.lo);
    OldSlice(flat, span.lo, span.hi);
    PatchStep(text, at, hunks, |Side(flat[..span.lo], Added)|, end, Side(flat[span.hi..], Removed));
    NewLinesSplit(flat, p, span.lo, span.hi);
  }

  lemma {:induction false} PatchRebuilds(flat: seq<DiffLine>, hunks: seq<Hunk>, spans: seq<Span>, k: nat, p: nat,
                                         text: seq<string>)
    requires Numbered(flat) && AreRuns(flat, hunks, spans) && k <= |spans|
    requires p == (if k == 0 then 0 else spans[k - 1].hi) && text == Side(flat, Added)
    ensures |Side(flat[..p], Added)| <= |text|
    ensures Patch(text, |Side(flat[..p], Added)|, hunks[k..]) == Some(Side(flat[p..], Removed))
    decreases |spans| - k
  {
    if k == |spans| {
      NoHunkLeft(flat, spans, p, text);
    } else {
      GapIsDropped(flat, spans, k, p, spans[k].lo);
      PatchRebuilds(flat, hunks, spans, k + 1, spans[k].hi, text);
      assert hunks[k..][1..] == hunks[k + 1..];
      PatchOne(flat, hunks[k..], p, spans[k], text, |Side(flat[..p], Added)|, |Side(flat[..spans[k].hi], Added)|);
    }
  }

  lemma NoHunkLeft(flat: seq<DiffLine>, spans: seq<Span>, p: nat, text: seq<string>)
    requires Apart(spans, |flat|) && text == Side(flat, Added)
    requires forall i :: 0 <= i < |flat| ==> (Covered(spans, i) <==> Kept(flat, i))
    requires p == if spans == [] then 0 else spans[|spans| - 1].hi
    ensures p <= |flat| && |Side(flat[..p], Added)| <= |text|
    ensures text[|Side(flat[..p], Added)|..] == Side(flat[p..], Removed)
  {
    GapIsDropped(flat, spans, |spans|, p, |flat|);
    GapAgrees(flat, p, |flat|);
    OldSlice(flat, p, |flat|);
    assert flat[..|flat|] == flat && flat[p..|flat|] == flat[p..];
  }

  // ---------- computeDiffHunks ----------

  // The lines so far stand for these two sides, and the counters are where they end.
  ghost predicate Stands(flat: seq<DiffLine>, oldSide: seq<string>, newSide: seq<string>, oldNumber: nat, newNumber: nat) {
    && Numbered(flat) && Side(flat, Added) == oldSide && Side(flat, Removed) == newSide
    && oldNumber == |oldSide| && newNumber == |newSide|
  }

  // The next line of a change, with both counters moved.
  function NextLine(kind: LineType, content: string, oldNumber: nat, newNumber: nat): DiffLine {
    DiffLine(kind, if kind == Added then None else Some(oldNumber), if kind == Removed then None else Some(newNumber), content)
  }

  lemma StandsSnoc(flat: seq<DiffLine>, o: seq<string>, n: seq<string>, kind: LineType, content: string)
    requires Stands(flat, o, n, |o|, |n|)
    ensures Stands(flat + [NextLine(kind, content, |o| + 1, |n| + 1)],
                   if kind == Added then o else o + [content], if kind == Removed then n else n + [content],
                   if kind == Added then |o| else |o| + 1, if kind == Removed then |n| else |n| + 1)
  {
    var line := NextLine(kind, content, |o| + 1, |n| + 1);
    var more := flat + [line];
    SideSnoc(flat, line, Added);
    SideSnoc(flat, line, Removed);
    forall i | 0 <= i < |more|
      ensures NumberedAt(more, i)
    {
      assert i < |flat| ==> NumberedAt(flat, i);
      assert more[..i] == if i < |flat| then flat[..i] else flat;
    }
  }

  datatype Tag = Tag(kind: LineType, content: string)

  // The script's lines, each with what happens to it.
  function Tagged(script: seq<Change>): seq<Tag> {
    if script == [] then []
    else Tagged(script[..|script| - 1]) + TagsOf(script[|script| - 1].kind, script[|script| - 1].lines)
  }

  function TagsOf(kind: LineType, lines: seq<string>): seq<Tag> {
    seq(|lines|, j requires 0 <= j < |lines| => Tag(kind, lines[j]))
  }

  function Tags(flat: seq<DiffLine>): seq<Tag> {
    seq(|flat|, i requires 0 <= i < |flat| => Tag(flat[i].kind, flat[i].content))
  }

  lemma TagsSnoc(before: seq<DiffLine>, flat: seq<DiffLine>, line: DiffLine, kind: LineType, lines: seq<string>)
    requires Tags(flat) == Tags(before) + TagsOf(kind, lines) && line.kind == kind
    ensures Tags(flat + [line]) == Tags(before) + TagsOf(kind, lines + [line.content])
  {
    assert Tags(flat + [line]) == Tags(flat) + [Tag(kind, line.content)];
    assert TagsOf(kind, lines + [line.content]) == TagsOf(kind, lines) + [Tag(kind, line.content)];
  }

  // A side after these lines, unless they are not on it.
  function Grown(side: seq<string>, absent: bool, lines: seq<string>): seq<string> {
    if absent then side else side + lines
  }

  lemma GrownSnoc(side: seq<string>, absent: bool, lines: seq<string>, j: nat)
    requires j < |lines|
    ensures Grown(side, absent, lines[..j + 1])
         == if absent then Grown(side, absent, lines[..j]) else Grown(side, absent, lines[..j]) + [lines[j]]
  {
    assert lines[..j + 1] == lines[..j] + [lines[j]];
    assert side + lines[..j + 1] == (side + lines[..j]) + [lines[j]];
  }

  // The first j lines of a change, laid out behind what stood before.
  ghost predicate LaidOut(before: seq<DiffLine>, flat: seq<DiffLine>, change: Change, o: seq<string>, n: seq<string>, j: nat,
                          oldNumber: nat, newNumber: nat)
    requires j <= |change.lines|
  {
    && Stands(flat, Grown(o, change.kind == Added, change.lines[..j]), Grown(n, change.kind == Removed, change.lines[..j]),
              oldNumber, newNumber)
    && Tags(flat) == Tags(before) + TagsOf(change.kind, change.lines[..j])
  }

  lemma LaysOutNext(before: seq<DiffLine>, flat: seq<DiffLine>, change: Change, o: seq<string>, n: seq<string>, j: nat,
                    oldNumber: nat, newNumber: nat)
    requires j < |change.lines| && LaidOut(before, flat, change, o, n, j, oldNumber, newNumber)
    ensures LaidOut(before, flat + [NextLine(change.kind, change.lines[j], oldNumber + 1, newNumber + 1)], change, o, n, j + 1,
                    if change.kind == Added then oldNumber else oldNumber + 1,
                    if change.kind == Removed then newNumber else newNumber + 1)
  {
    var (kind, lines, done) := (change.kind, change.lines, change.lines[..j]);
    GrownSnoc(o, kind == Added, lines, j);
    GrownSnoc(n, kind == Removed, lines, j);
    StandsSnoc(flat, Grown(o, kind == Added, done), Grown(n, kind == Removed, done), kind, lines[j]);
    assert done + [lines[j]] == lines[..j + 1];
    TagsSnoc(before, flat, NextLine(kind, lines[j], oldNumber + 1, newNumber + 1), kind, done);
  }

  method FlattenChange(flat0: seq<DiffLine>, change: Change, old0: nat, new0: nat, ghost o: seq<string>, ghost n: seq<string>)
    returns (flat: seq<DiffLine>, oldNumber: nat, newNumber: nat)
    requires Stands(flat0, o, n, old0, new0)
    ensures LaidOut(flat0, flat, change, o, n, |change.lines|, oldNumber, newNumber)
  {
    flat, oldNumber, newNumber := flat0, old0, new0;
    assert o + change.lines[..0] == o && n + change.lines[..0] == n;
    for j := 0 to |change.lines|
      invariant LaidOut(flat0, flat, change, o, n, j, oldNumber, newNumber)
    {
      LaysOutNext(flat0, flat, change, o, n, j, oldNumber, newNumber);
      flat := flat + [NextLine(change.kind, change.lines[j], oldNumber + 1, newNumber + 1)];
      if change.kind != Added { oldNumber := oldNumber + 1; }
      if change.kind != Removed { newNumber := newNumber + 1; }
    }
  }

  method Flatten(script: seq<Change>) returns (flat: seq<DiffLine>)
    ensures Numbered(flat) && Tags(flat) == Tagged(script)
    ensures Side(flat, Added) == ScriptSide(script, Added) && Side(flat, Removed) == ScriptSide(script, Removed)
  {
    flat := [];
    var oldNumber, newNumber := 0, 0;
    for i := 0 to |script|
      invariant Stands(flat, ScriptSide(script[..i], Added), ScriptSide(script[..i], Removed), oldNumber, newNumber)
      invariant Tags(flat) == Tagged(script[..i])
    {
      assert script[..i + 1][..i] == script[..i];
      ghost var (o, n) := (ScriptSide(script[..i], Added), ScriptSide(script[..i], Removed));
      assert o + [] == o && n + [] == n;
      flat, oldNumber, newNumber := FlattenChange(flat, script[i], oldNumber, newNumber, o, n);
      assert script[i].lines[..|script[i].lines|] == script[i].lines;
    }
    assert script[..|script|] == script;
  }

  // The script's own lines, numbered.
  ghost predicate Follows(script: seq<Change>, flat: seq<DiffLine>) {
    Tags(flat) == Tagged(script) && Numbered(flat)
  }

  /** computeDiffHunks: for every script from the old lines to the new, the hunks are the maximal runs of
      its lines within three of a change, and applying them to the old lines rebuilds the new ones. */
  method ComputeDiffHunks(oldLines: seq<string>, newLines: seq<string>, script: seq<Change>) returns (hunks: seq<Hunk>)
    requires ScriptSide(script, Added) == oldLines && ScriptSide(script, Removed) == newLines
    ensures exists flat :: Follows(script, flat) && Windowed(flat, hunks)
    ensures Patch(oldLines, 0, hunks) == Some(newLines)
  {
    var flat := Flatten(script);
    hunks := WindowHunks(flat);
    assert Follows(script, flat);
    ghost var spans :| AreRuns(flat, hunks, spans);
    PatchRebuilds(flat, hunks, spans, 0, 0, oldLines);
    assert hunks[0..] == hunks && flat[0..] == flat && flat[..0] == [];
  }
}
