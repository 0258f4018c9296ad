/**
 What interleavings of runs, people, crashes and recoveries keep of the transcript
 itself: row seqs are 0..n-1 always, and the evidence handles are e1..eN exactly as long
 as no author commits handles stamped before somebody else's, under a seq read after.
 */
module ProtocolWrites {
  import opened Wrappers
  import opened Transcript
  import opened SessionTables
  import opened TranscriptWrites
  import opened Protocol

  // What an author knows of the transcript it is to extend: a seq never ahead of it, and, while it stands as it was
  // numbered, the next free handle, unless handles crossed, which makes it one that is taken.
  ghost predicate Author(rows: seq<Row>, base: nat, next: nat, crossed: bool) {
    && base <= |rows|
    && (base == |rows| ==> if crossed then 1 <= next <= |Handles(rows)| else next == |Handles(rows)| + 1)
  }

  // What an author knows who has read the handles and not yet the seq.
  ghost predicate Reader(rows: seq<Row>, next: nat, seen: nat) {
    next == seen + 1 && seen <= |Handles(rows)|
  }

  ghost predicate RunKnows(rows: seq<Row>, run: Option<Run>) {
    run.Some? ==>
      match run.value.phase
      case Claimed => true
      case Reading(next, seen) => Reader(rows, next, seen)
      case Ending => true
      case _ => Author(rows, run.value.nextSeq, run.value.nextEvidence, run.value.crossed)
  }

  ghost predicate PersonKnows(rows: seq<Row>, p: Person) {
    match p
    case Stamped(_, _, _, next, seen) => Reader(rows, next, seen)
    case Built(_, _, row, next, crossed) => Author(rows, row.seqNo, next, crossed)
    case _ => true
  }

  ghost predicate RunMade(rows: seq<Row>, run: Option<Run>) {
    run.Some? && (run.value.phase.Turning? || run.value.phase.Calling?) ==> run.value.nextSeq <= |rows|
  }

  // What a person made: handles from the one they read on, and a seq never ahead of the transcript.
  ghost predicate PersonMade(rows: seq<Row>, p: Person) {
    match p
    case Stamped(_, _, parts, next, _) => PartHandles(parts) == Range(next, |PartHandles(parts)|)
    case Built(_, _, row, next, _) => BuiltFrom([row], row.seqNo, next) && row.seqNo <= |rows|
    case _ => true
  }

  ghost predicate AllKnow(a: System) {
    RunKnows(a.s.rows, a.run) && forall i :: 0 <= i < |a.people| ==> PersonKnows(a.s.rows, a.people[i])
  }

  ghost predicate Writes(a: System) {
    && Dense(a.s.rows)
    && RunMade(a.s.rows, a.run)
    && (forall i :: 0 <= i < |a.people| ==> PersonMade(a.s.rows, a.people[i]))
    && if a.slipped then !Consecutive(a.s.rows) else Consecutive(a.s.rows) && AllKnow(a)
  }

  lemma {:induction false} NoResultsNoHandles(parts: seq<Part>)
    requires forall p :: p in parts ==> !p.ResultPart?
    ensures PartHandles(parts) == []
    decreases |parts|
  {
    if parts != [] {
      NoResultsNoHandles(parts[..|parts| - 1]);
    }
  }

  lemma {:induction false} RowWithoutResults(row: Row)
    ensures Results(row) == {} ==> PartHandles(row.parts) == []
    decreases |row.parts|
  {
    if row.parts != [] {
      var front, last := row.(parts := row.parts[..|row.parts| - 1]), row.parts[|row.parts| - 1];
      RowWithoutResults(front);
      assert row.parts == front.parts + [last];
      if last.ResultPart? {
        assert last.callId in Results(row);
      } else {
        assert Results(row) == Results(front);
      }
    }
  }

  lemma {:induction false} RowsWithoutResults(rows: seq<Row>)
    requires forall r :: r in rows ==> Results(r) == {}
    ensures Handles(rows) == []
    decreases |rows|
  {
    if rows != [] {
      RowsWithoutResults(rows[..|rows| - 1]);
      RowWithoutResults(rows[|rows| - 1]);
    }
  }

  // A row of stamped results, whatever follows them in the row and however many quiet rows follow it.
  lemma StampedRowsBuilt(row: Row, results: seq<ToolResult>, citable: set<CallId>, tail: seq<Part>, notes: seq<Row>, base: nat, next: nat)
    requires row.seqNo == base && row.parts == Stamp(results, citable, next) + tail
    requires forall p :: p in tail ==> !p.ResultPart?
    requires QuietRows(notes) && Numbered(notes, base + 1)
    ensures BuiltFrom([row] + notes, base, next)
  {
    StampHandles(results, citable, next);
    PartHandlesConcat(Stamp(results, citable, next), tail);
    NoResultsNoHandles(tail);
    QuietHoldNoResults(notes);
    RowsWithoutResults(notes);
    HandlesConcat([row], notes);
    HandlesSnoc([], row);
    assert [] + [row] == [row];
    assert Handles([row] + notes) == PartHandles(row.parts);
  }

  lemma QuietHoldNoResults(rows: seq<Row>)
    requires QuietRows(rows)
    ensures forall r :: r in rows ==> Results(r) == {} && Calls(r) == {}
  {
    forall r | r in rows
      ensures Results(r) == {} && Calls(r) == {}
    {
      assert Quiet(r);
    }
  }

  lemma QuietRowsBuilt(rows: seq<Row>, base: nat, next: nat)
    requires forall r :: r in rows ==> Results(r) == {}
    requires Numbered(rows, base)
    ensures BuiltFrom(rows, base, next)
  {
    RowsWithoutResults(rows);
  }

  // ---------- Preservation ----------

  // Handles out of order stay out of order.
  lemma UnsoundStays(rows: seq<Row>, added: seq<Row>)
    requires Consecutive(rows + added)
    ensures Consecutive(rows)
  {
    HandlesConcat(rows, added);
    assert Handles(rows) == Handles(rows + added)[..|Handles(rows)|];
  }

  lemma KnowledgeSurvives(rows: seq<Row>, added: seq<Row>, run: Option<Run>, p: Person)
    ensures RunKnows(rows, run) ==> RunKnows(rows + added, run)
    ensures PersonKnows(rows, p) ==> PersonKnows(rows + added, p)
  {
    HandlesConcat(rows, added);
    if added == [] {
      assert rows + added == rows;
    }
  }

  // A committed append: what everyone else made and knows survives it.
  lemma WritesGrow(a: System, b: System, added: seq<Row>)
    requires Writes(a)
    requires b.s.rows == a.s.rows + added && Dense(b.s.rows)
    requires b.slipped <==> a.slipped || !Consecutive(b.s.rows)
    requires b.run == a.run || (RunMade(b.s.rows, b.run) && (!b.slipped ==> RunKnows(b.s.rows, b.run)))
    requires |b.people| == |a.people|
    requires forall i :: 0 <= i < |a.people| ==>
               b.people[i] == a.people[i] || (!b.people[i].Built? && !b.people[i].Stamped?)
    ensures Writes(b)
  {
    if b.slipped && Consecutive(b.s.rows) {
      UnsoundStays(a.s.rows, added);
      assert false;
    }
    forall i | 0 <= i < |b.people|
      ensures PersonMade(b.s.rows, b.people[i]) && (!b.slipped ==> PersonKnows(b.s.rows, b.people[i]))
    {
      assert PersonMade(a.s.rows, a.people[i]);
      KnowledgeSurvives(a.s.rows, added, a.run, a.people[i]);
    }
    KnowledgeSurvives(a.s.rows, added, a.run, Gone);
  }

  lemma RangeGoesOn(h: seq<nat>, more: seq<nat>, next: nat)
    requires h == Range(1, |h|) && more == Range(next, |more|) && 1 <= next <= |h| + 1
    ensures h + more == Range(1, |h| + |more|) <==> more == [] || next == |h| + 1
  {
    if more != [] {
      assert (h + more)[|h|] == next;
    }
  }

  // Handles that go on from the ones there, and handles that repeat one.
  lemma HandlesGoOn(rows: seq<Row>, added: seq<Row>, next: nat)
    requires Consecutive(rows) && Handles(added) == Range(next, |Handles(added)|) && 1 <= next <= |Handles(rows)| + 1
    ensures Consecutive(rows + added) <==> Handles(added) == [] || next == |Handles(rows)| + 1
  {
    HandlesConcat(rows, added);
    RangeGoesOn(Handles(rows), Handles(added), next);
  }

  // Rows a run or a person commits: the seqs stay 0..n-1, and the handles stay e1..eN exactly when none crossed
  // or none is in them.
  lemma AuthorWrites(rows: seq<Row>, added: seq<Row>, base: nat, next: nat, crossed: bool)
    requires Sound(rows) && BuiltFrom(added, base, next) && Author(rows, base, next, crossed) && !Collides(rows, added)
    ensures Consecutive(rows + added) <==> !crossed || Handles(added) == []
    ensures Consecutive(rows + added) ==>
              Author(rows + added, base + |added|, next + |Handles(added)|, crossed)
  {
    StaleWriteCollides(rows, added, base, next);
    HandlesConcat(rows, added);
    if added == [] {
      assert rows + added == rows;
    } else {
      HandlesGoOn(rows, added, next);
    }
  }

  // And whatever the handles, the seqs.
  lemma SeqsGrow(rows: seq<Row>, added: seq<Row>, base: nat, next: nat)
    requires Dense(rows) && BuiltFrom(added, base, next) && base <= |rows| && !Collides(rows, added)
    ensures Dense(rows + added) && base + |added| <= |rows + added|
  {
    StaleWriteCollides(rows, added, base, next);
  }

  lemma FreshStamped(rows: seq<Row>, row: Row)
    requires Dense(rows) && row.seqNo == NextSeq(rows) && Consecutive(rows) && BuiltFrom([row], row.seqNo, Highest(rows) + 1)
    ensures Consecutive(rows + [row])
  {
    NextSeqIsLength(rows);
    HighestIsCount(rows);
    FreshWriteExtends(rows, [row], row.seqNo, Highest(rows) + 1);
  }

  lemma FreshPlain(rows: seq<Row>, row: Row)
    requires PartHandles(row.parts) == []
    ensures Consecutive(rows + [row]) <==> Consecutive(rows)
  {
    HandlesSnoc(rows, row);
    assert Handles(rows) + [] == Handles(rows);
  }

  // A row numbered from the transcript as it stands is free to commit, and extends it.
  lemma FreshRowExtends(rows: seq<Row>, row: Row)
    requires Dense(rows) && row.seqNo == NextSeq(rows)
    requires PartHandles(row.parts) == [] || (Consecutive(rows) ==> BuiltFrom([row], row.seqNo, Highest(rows) + 1))
    ensures Dense(rows + [row])
    ensures Consecutive(rows + [row]) <==> Consecutive(rows)
  {
    NextSeqIsLength(rows);
    if PartHandles(row.parts) == [] {
      FreshPlain(rows, row);
    } else if Consecutive(rows) {
      FreshStamped(rows, row);
    } else if Consecutive(rows + [row]) {
      UnsoundStays(rows, [row]);
    }
  }

  lemma ReplayRowExtends(registry: Registry, rows: seq<Row>, replayed: seq<ToolResult>, now: int)
    requires Dense(rows)
    ensures var more := rows + [ReplayRow(registry, rows, replayed, now)];
      Dense(more) && (Consecutive(more) <==> Consecutive(rows))
  {
    var row := ReplayRow(registry, rows, replayed, now);
    assert row.parts == row.parts + [];
    StampedRowsBuilt(row, replayed, CitableCalls(registry, Unanswered(rows)), [], [], row.seqNo, Highest(rows) + 1);
    assert [row] + [] == [row];
    FreshRowExtends(rows, row);
  }

  lemma FlushKeepsWrites(a: System, added: seq<Row>, phase: Phase)
    requires Writes(a) && a.run.Some? && (a.run.value.phase.Turning? || a.run.value.phase.Calling?)
    requires phase.Turning? || phase.Calling?
    requires BuiltFrom(added, a.run.value.nextSeq, a.run.value.nextEvidence)
    ensures Writes(Flushed(a, added, phase))
  {
    var run, b := a.run.value, Flushed(a, added, phase);
    if !Collides(a.s.rows, added) {
      SeqsGrow(a.s.rows, added, run.nextSeq, run.nextEvidence);
      assert a.s.rows + [] == a.s.rows;
      if !a.slipped {
        AuthorWrites(a.s.rows, added, run.nextSeq, run.nextEvidence, run.crossed);
      }
      WritesGrow(a, b, added);
    }
  }

  lemma ErrorKeepsWrites(a: System, b: System, text: string)
    requires Writes(a)
    requires b.s.rows == a.s.rows + [ErrorRow(a.s.rows, text, a.now)]
    requires b.people == a.people && b.slipped == a.slipped
    requires b.run == a.run || b.run.None? || b.run.value.phase == Ending || b.run.value.phase == Claimed
    ensures Writes(b)
  {
    FreshRowExtends(a.s.rows, ErrorRow(a.s.rows, text, a.now));
    WritesGrow(a, b, [ErrorRow(a.s.rows, text, a.now)]);
  }

  lemma AnswerKeepsWrites(a: System, results: seq<ToolResult>, notes: seq<Row>)
    requires Writes(a) && RunEnabled(a, Answer(results, notes))
    ensures Writes(RunStep(a, Answer(results, notes)))
  {
    var row := ResultsRow(a, results);
    assert row.parts == row.parts + [];
    StampedRowsBuilt(row, results, CitableCalls(a.registry, a.run.value.phase.row.parts), [], notes,
                     a.run.value.nextSeq, a.run.value.nextEvidence);
    FlushKeepsWrites(a, [row] + notes, Turning);
  }

  lemma ReadsKeepWrites(a: System, e: Event)
    requires Writes(a) && RunEnabled(a, e) && (e.ReadRows? || e.ReadSeq?)
    ensures Writes(RunStep(a, e))
  {
    NextSeqIsLength(a.s.rows);
    if !a.slipped {
      HighestIsCount(a.s.rows);
    }
  }

  lemma RunKeepsWrites(a: System, e: Event)
    requires Writes(a) && RunEnabled(a, e)
    ensures Writes(RunStep(a, e))
  {
    match e
    case ReadRows => ReadsKeepWrites(a, e);
    case ReadSeq => ReadsKeepWrites(a, e);
    case Say(added) =>
      QuietHoldNoResults(added);
      QuietRowsBuilt(added, a.run.value.nextSeq, a.run.value.nextEvidence);
      FlushKeepsWrites(a, added, Turning);
    case Ask(row) =>
      QuietRowsBuilt([row], a.run.value.nextSeq, a.run.value.nextEvidence);
      FlushKeepsWrites(a, [row], Calling(row));
    case Answer(results, notes) => AnswerKeepsWrites(a, results, notes);
    case Park(gate) =>
      assert a.s.rows + [] == a.s.rows;
    case ReportError(text) => ErrorKeepsWrites(a, RunStep(a, e), text);
    case _ =>
  }

  lemma BuildKeepsWrites(a: System, who: nat, answer: ToolResult, decision: Part)
    requires Writes(a) && HumanEnabled(a, Build(who, answer, decision))
    ensures Writes(BuildStep(a, who, answer, decision))
  {
    var results := a.people[who].gate.saved + [answer];
    var citable := CitableIn(a.registry, a.s.rows) * ResultIds(results);
    StampHandles(results, citable, Highest(a.s.rows) + 1);
    PartHandlesSnoc(Stamp(results, citable, Highest(a.s.rows) + 1), decision);
    if !a.slipped {
      HighestIsCount(a.s.rows);
    }
  }

  lemma NumberKeepsWrites(a: System, who: nat)
    requires Writes(a) && HumanEnabled(a, Number(who))
    ensures Writes(NumberStep(a, who))
  {
    var row := NumberStep(a, who).people[who].row;
    assert PersonMade(a.s.rows, a.people[who]);
    assert !a.slipped ==> PersonKnows(a.s.rows, a.people[who]);
    NextSeqIsLength(a.s.rows);
    HandlesSnoc([], row);
    assert [] + [row] == [row];
  }

  lemma PersonWrites(a: System, p: Person)
    requires Writes(a) && p in a.people && p.Built? && !Collides(a.s.rows, [p.row])
    ensures Dense(a.s.rows + [p.row])
    ensures !Consecutive(a.s.rows + [p.row]) <==> a.slipped || (p.crossed && Handles([p.row]) != [])
  {
    assert PersonMade(a.s.rows, p);
    SeqsGrow(a.s.rows, [p.row], p.row.seqNo, p.next);
    if a.slipped {
      if Consecutive(a.s.rows + [p.row]) {
        UnsoundStays(a.s.rows, [p.row]);
      }
    } else {
      assert PersonKnows(a.s.rows, p);
      AuthorWrites(a.s.rows, [p.row], p.row.seqNo, p.next, p.crossed);
    }
  }

  lemma ResolveKeepsWrites(a: System, who: nat)
    requires Writes(a) && HumanEnabled(a, Resolve(who))
    ensures Writes(ResolveStep(a, who))
  {
    var p := a.people[who];
    if a.s.gate.Some? && !Collides(a.s.rows, [p.row]) {
      PersonWrites(a, p);
      WritesGrow(a, ResolveStep(a, who), [p.row]);
    } else {
      WritesUntouched(a, ResolveStep(a, who));
    }
  }

  lemma WritesUntouched(a: System, b: System)
    requires Writes(a) && b.s.rows == a.s.rows && b.slipped == a.slipped
    requires b.run == a.run || (b.run.Some? && b.run.value.phase == Claimed)
    requires forall i :: 0 <= i < |b.people| && (b.people[i].Stamped? || b.people[i].Built?) ==>
               i < |a.people| && b.people[i] == a.people[i]
    ensures Writes(b)
  {
  }

  lemma MoveKeepsWrites(a: System, e: Event)
    requires Writes(a) && HumanEnabled(a, e) && !e.Build? && !e.Number? && !e.Resolve?
    ensures Writes(HumanStep(a, e))
  {
    WritesUntouched(a, HumanStep(a, e));
  }

  lemma HumanKeepsWrites(a: System, e: Event)
    requires Writes(a) && HumanEnabled(a, e)
    ensures Writes(HumanStep(a, e))
  {
    if e.Build? {
      BuildKeepsWrites(a, e.who, e.answer, e.decision);
    } else if e.Number? {
      NumberKeepsWrites(a, e.who);
    } else if e.Resolve? {
      ResolveKeepsWrites(a, e.who);
    } else {
      MoveKeepsWrites(a, e);
    }
  }

  lemma ReplayKeepsWrites(a: System, replayed: seq<ToolResult>)
    requires Writes(a) && WorldEnabled(a, BootReplay(replayed))
    ensures Writes(WorldStep(a, BootReplay(replayed)))
  {
    var calls := Unanswered(a.s.rows);
    if calls != [] && AllReplayable(a.registry, calls) {
      ReplayRowExtends(a.registry, a.s.rows, replayed, a.now);
      WritesGrow(a, WorldStep(a, BootReplay(replayed)), [ReplayRow(a.registry, a.s.rows, replayed, a.now)]);
    }
  }

  lemma WorldKeepsWrites(a: System, e: Event)
    requires Writes(a) && WorldEnabled(a, e)
    ensures Writes(WorldStep(a, e))
  {
    match e
    case BootReplay(replayed) => ReplayKeepsWrites(a, replayed);
    case BootDecide =>
      if !(a.boot == Repaired && WorthResuming(a.s, a.f, a.now)) {
        ErrorKeepsWrites(a, WorldStep(a, e), if a.boot == Repaired then INTERRUPTED else ABANDONED);
      }
    case _ =>
  }

  lemma StepKeepsWrites(a: System, e: Event)
    requires Writes(a) && Enabled(a, e)
    ensures Writes(Step(a, e))
  {
    if RunEnabled(a, e) {
      RunKeepsWrites(a, e);
    } else if HumanEnabled(a, e) {
      HumanKeepsWrites(a, e);
    } else {
      WorldKeepsWrites(a, e);
    }
  }

  /** On every history, row seqs are 0..n-1; and the handles are e1..eN in row order if and only if no author, between
      whose two reads handles were committed, went on to commit a row that carries one. */
  lemma {:induction false} TranscriptStaysSound(a: System, history: seq<Event>)
    requires Writes(a) && Runs(a, history)
    ensures var b := After(a, history);
      Writes(b) && Dense(b.s.rows) && (Consecutive(b.s.rows) <==> !b.slipped)
    decreases |history|
  {
    if history != [] {
      StepKeepsWrites(a, history[0]);
      TranscriptStaysSound(Step(a, history[0]), history[1..]);
    }
  }
}
