/**
 When a transcript stays replayable: every answer must land on the gate its author read.

 A clear tests only that some gate is set. On histories where each answer lands on the
 gate that was read, and a resume finds no new gate, every reachable transcript is
 bracketed, so its seed is one a provider accepts. No author's two reads are crossed by a
 handle either: nobody else commits one while a run reads, nor while the gate stands that
 a person read.
 */
module ProtocolSeed {
  import opened Wrappers
  import opened Transcript
  import opened Seed
  import opened SessionTables
  import opened TranscriptWrites
  import opened Protocol
  import opened ProtocolWrites
  import opened ProtocolStatus
  import opened ProtocolGates

  // What each of these requests could check for itself before it writes.
  predicate Calm(a: System, e: Event)
    requires Enabled(a, e)
  {
    match e
    case Resolve(who) => a.s.gate.Some? ==> a.s.gate == Some(a.people[who].gate)
    case Dispatch(_) => Claimable(a.s) ==> a.s.gate.None?
    case _ => true
  }

  predicate CalmRuns(a: System, history: seq<Event>)
    decreases |history|
  {
    history == []
    || (Enabled(a, history[0]) && Calm(a, history[0]) && CalmRuns(Step(a, history[0]), history[1..]))
  }

  lemma {:induction false} CalmRunsRun(a: System, history: seq<Event>)
    requires CalmRuns(a, history)
    ensures Runs(a, history)
    decreases |history|
  {
    if history != [] {
      CalmRunsRun(Step(a, history[0]), history[1..]);
    }
  }

  // ---------- The invariant ----------

  // The transcript ends on the turn whose calls these are, and answers none of them yet.
  ghost predicate OpenQuestion(rows: seq<Row>, calls: set<CallId>) {
    && rows != [] && calls != {} && Calls(rows[|rows| - 1]) == calls
    && (forall id :: id in calls ==> !Transcript.Answered(rows, id))
  }

  ghost predicate GateKept(a: System) {
    a.s.gate.Some? ==>
      && a.run.None? && a.s.status == ActionRequired && a.s.failure.None?
      && a.boot != Repaired && !a.boot.Marked?
      && (a.s.gate.value.kind != Continue ==> OpenQuestion(a.s.rows, GateCalls(a.s.gate.value)))
  }

  ghost predicate RunKept(a: System) {
    a.run.Some? ==>
      var run := a.run.value;
      && (run.phase.Reading? ==> run.phase.seen == |Handles(a.s.rows)|)
      && (run.phase.Turning? || run.phase.Calling? ==> run.nextSeq == |a.s.rows| && !run.crossed)
      && (run.phase.Calling? ==> OpenQuestion(a.s.rows, Calls(run.phase.row)))
  }

  // While the gate an author read stands, no handle has crossed.
  ghost predicate Uncrossed(a: System, p: Person) {
    && (p.Stamped? && a.s.gate == Some(p.gate) ==> p.seen == |Handles(a.s.rows)|)
    && (p.Built? && a.s.gate == Some(p.gate) ==> !p.crossed)
  }

  // What every history keeps, calm or not.
  ghost predicate Grounded(a: System) {
    Writes(a) && Seats(a) && Parkings(a)
  }

  lemma RunKeepsGround(a: System, e: Event)
    requires Grounded(a) && RunEnabled(a, e)
    ensures Grounded(RunStep(a, e))
  {
    RunKeepsWrites(a, e);
    RunKeepsSeats(a, e);
    RunKeepsParkings(a, e);
  }

  lemma HumanKeepsGround(a: System, e: Event)
    requires Grounded(a) && HumanEnabled(a, e)
    ensures Grounded(HumanStep(a, e))
  {
    HumanKeepsWrites(a, e);
    HumanKeepsSeats(a, e);
    HumanKeepsParkings(a, e);
  }

  lemma WorldKeepsGround(a: System, e: Event)
    requires Grounded(a) && WorldEnabled(a, e)
    ensures Grounded(WorldStep(a, e))
  {
    WorldKeepsWrites(a, e);
    WorldKeepsSeats(a, e);
    WorldKeepsParkings(a, e);
  }

  ghost predicate Kept(a: System) {
    && Grounded(a) && !a.slipped
    && (forall i :: 0 <= i < |a.people| ==> Uncrossed(a, a.people[i]))
    && Bracketed(a.s.rows)
    && GateKept(a) && RunKept(a)
  }

  // ---------- Appends of a run ----------

  lemma PlainRowBrackets(rows: seq<Row>, row: Row)
    requires Bracketed(rows) && row.seqNo == |rows| && Calls(row) == {} && Results(row) == {}
    ensures Bracketed(rows + [row])
  {
    BracketGrows(rows, row);
  }

  lemma {:induction false} QuietRowsBracket(rows: seq<Row>, added: seq<Row>)
    requires Bracketed(rows) && QuietRows(added) && Numbered(added, |rows|)
    ensures Bracketed(rows + added)
    decreases |added|
  {
    if added == [] {
      assert rows + added == rows;
    } else {
      var front, last := added[..|added| - 1], added[|added| - 1];
      QuietRowsBracket(rows, front);
      QuietHoldNoResults(added);
      assert last in added;
      PlainRowBrackets(rows + front, last);
      assert rows + added == (rows + front) + [last];
    }
  }

  lemma AnsweredWasAsked(rows: seq<Row>, id: CallId)
    requires Bracketed(rows)
    ensures Transcript.Answered(rows, id) ==> Asked(rows, id)
  {
    if Transcript.Answered(rows, id) {
      var r :| 0 <= r < |rows| && id in Results(rows[r]);
      assert Asked(rows[..r], id);
      var q :| 0 <= q < r && id in Calls(rows[..r][q]);
      assert id in Calls(rows[q]);
    }
  }

  lemma QuestionBrackets(rows: seq<Row>, row: Row)
    requires Bracketed(rows) && row.seqNo == |rows|
    requires Asks(row) && Calls(row) !! AskedIds(rows)
    ensures Bracketed(rows + [row]) && OpenQuestion(rows + [row], Calls(row))
  {
    BracketGrows(rows, row);
    forall id | id in Calls(row)
      ensures !Transcript.Answered(rows + [row], id)
    {
      AnsweredMore(rows, row, id);
      AnsweredWasAsked(rows, id);
    }
  }

  lemma AnswerBrackets(rows: seq<Row>, row: Row)
    requires Bracketed(rows) && row.seqNo == |rows|
    requires row.kind == User && Calls(row) == {} && OpenQuestion(rows, Results(row))
    ensures Bracketed(rows + [row])
  {
    forall id | id in Results(row)
      ensures Asked(rows, id)
    {
      assert id in Calls(rows[|rows| - 1]);
    }
    BracketGrows(rows, row);
  }

  // ---------- Preservation ----------

  lemma FlushUncrossed(a: System, added: seq<Row>, phase: Phase)
    requires Kept(a) && a.run.Some? && a.s.status == Running && (a.run.value.phase.Turning? || a.run.value.phase.Calling?)
    requires Numbered(added, |a.s.rows|)
    ensures var b := Flushed(a, added, phase);
      && b.s.rows == a.s.rows + added && b.s.gate.None? && !b.slipped && b.people == a.people && b.s.failure == a.s.failure
      && b.run == Some(Run(|a.s.rows + added|, b.run.value.nextEvidence, phase, false)) && b.boot == a.boot
  {
    assert !Collides(a.s.rows, added);
    assert a.s.rows + [] == a.s.rows;
  }

  lemma FlushKeeps(a: System, added: seq<Row>, phase: Phase)
    requires Kept(a) && a.run.Some? && (a.run.value.phase.Turning? || a.run.value.phase.Calling?)
    requires (phase.Turning? || phase.Calling?) && Grounded(Flushed(a, added, phase))
    requires Numbered(added, |a.s.rows|) && Bracketed(a.s.rows + added)
    requires phase.Calling? ==> added == [phase.row] && OpenQuestion(a.s.rows + added, Calls(phase.row))
    ensures Kept(Flushed(a, added, phase))
  {
    assert a.s.status == Running && a.s.gate.None?;
    FlushUncrossed(a, added, phase);
    KeptExtended(Flushed(a, added, phase));
  }

  // A run at work keeps the rest by keeping its transcript bracketed.
  lemma KeptExtended(b: System)
    requires Grounded(b) && !b.slipped && b.s.gate.None? && b.run.Some? && Bracketed(b.s.rows) && RunKept(b)
    ensures Kept(b)
  {
  }

  lemma ResultsRowBrackets(a: System, results: seq<ToolResult>, notes: seq<Row>)
    requires Kept(a) && RunEnabled(a, Answer(results, notes))
    ensures Bracketed(a.s.rows + ([ResultsRow(a, results)] + notes))
  {
    var row, run := ResultsRow(a, results), a.run.value;
    StampIds(results, CitableCalls(a.registry, run.phase.row.parts), run.nextEvidence, row);
    AnswerBrackets(a.s.rows, row);
    QuietRowsBracket(a.s.rows + [row], notes);
    assert a.s.rows + ([row] + notes) == (a.s.rows + [row]) + notes;
  }

  lemma AnswerKeeps(a: System, results: seq<ToolResult>, notes: seq<Row>)
    requires Kept(a) && RunEnabled(a, Answer(results, notes))
    ensures Kept(RunStep(a, Answer(results, notes)))
  {
    RunKeepsGround(a, Answer(results, notes));
    ResultsRowBrackets(a, results, notes);
    FlushKeeps(a, [ResultsRow(a, results)] + notes, Turning);
  }

  lemma ErrorKeeps(a: System, b: System, text: string)
    requires Kept(a) && Grounded(b)
    requires b.s == ErrorAppended(a.s, text, a.f, a.now) && b.people == a.people && a.s.gate.None?
    requires b.slipped == a.slipped && (b.run.None? || b.run.value.phase == Ending)
    ensures Kept(b)
  {
    TakeSnapshot(a.s.rows);
    PlainRowBrackets(a.s.rows, ErrorRow(a.s.rows, text, a.now));
  }

  lemma SayKeeps(a: System, added: seq<Row>)
    requires Kept(a) && RunEnabled(a, Say(added))
    ensures Kept(RunStep(a, Say(added)))
  {
    RunKeepsGround(a, Say(added));
    QuietRowsBracket(a.s.rows, added);
    FlushKeeps(a, added, Turning);
  }

  lemma AskKeeps(a: System, row: Row)
    requires Kept(a) && RunEnabled(a, Ask(row))
    ensures Kept(RunStep(a, Ask(row)))
  {
    RunKeepsGround(a, Ask(row));
    QuestionBrackets(a.s.rows, row);
    FlushKeeps(a, [row], Calling(row));
  }

  // Nobody has read the gate a run parks on.
  lemma NewGateIsUnread(a: System, gate: Gate, p: Person)
    requires Parkings(a) && RunEnabled(a, Park(gate)) && p in a.people
    ensures p.Stamped? || p.Built? ==> gate != p.gate
  {
    ParkedApart(a, gate);
    assert PersonKept(p) && ReadThere(a.gates, p);
    if p.Stamped? || p.Built? {
      var gates := a.gates + [gate];
      assert gates[p.read - 1] == p.gate && gates[|a.gates|] == gate;
      assert p.gate.callId in Parks(p.gate);
    }
  }

  lemma ParkKeeps(a: System, gate: Gate)
    requires Kept(a) && RunEnabled(a, Park(gate))
    ensures Kept(RunStep(a, Park(gate)))
  {
    RunKeepsGround(a, Park(gate));
    assert a.s.rows + [] == a.s.rows;
    forall i | 0 <= i < |a.people|
      ensures Uncrossed(RunStep(a, Park(gate)), a.people[i])
    {
      NewGateIsUnread(a, gate, a.people[i]);
    }
  }

  lemma StartKeeps(a: System, e: Event)
    requires Kept(a) && RunEnabled(a, e) && (e.Start? || e.Retry?)
    ensures Kept(RunStep(a, e))
  {
    RunKeepsGround(a, e);
  }

  lemma ReadKeeps(a: System, e: Event)
    requires Kept(a) && RunEnabled(a, e) && (e.ReadRows? || e.ReadSeq?)
    ensures Kept(RunStep(a, e))
  {
    RunKeepsGround(a, e);
    NextSeqIsLength(a.s.rows);
  }

  lemma EndKeeps(a: System, e: Event)
    requires Kept(a) && RunEnabled(a, e) && (e.Fail? || e.Succeed? || e.Stop? || e.Release?)
    ensures Kept(RunStep(a, e))
  {
    RunKeepsGround(a, e);
  }

  lemma ReportKeeps(a: System, text: string)
    requires Kept(a) && RunEnabled(a, ReportError(text))
    ensures Kept(RunStep(a, ReportError(text)))
  {
    RunKeepsGround(a, ReportError(text));
    ErrorKeeps(a, RunStep(a, ReportError(text)), text);
  }

  lemma RunKeeps(a: System, e: Event)
    requires Kept(a) && RunEnabled(a, e)
    ensures Kept(RunStep(a, e))
  {
    match e
    case Start => StartKeeps(a, e);
    case Retry => StartKeeps(a, e);
    case ReadRows => ReadKeeps(a, e);
    case ReadSeq => ReadKeeps(a, e);
    case Say(added) => SayKeeps(a, added);
    case Ask(row) => AskKeeps(a, row);
    case Answer(results, notes) => AnswerKeeps(a, results, notes);
    case Park(gate) => ParkKeeps(a, gate);
    case ReportError(text) => ReportKeeps(a, text);
    case Fail(_) => EndKeeps(a, e);
    case Succeed => EndKeeps(a, e);
    case Stop => EndKeeps(a, e);
    case Release => EndKeeps(a, e);
  }

  // Steps that leave the transcript alone, and at most clear the gate or move somebody along.
  lemma KeptUntouched(a: System, b: System)
    requires Kept(a) && Grounded(b)
    requires b.s.rows == a.s.rows && b.boot == Up && a.boot == Up
    requires b.s.gate.Some? ==> b.s.gate == a.s.gate && b.s.failure == a.s.failure && b.run == a.run
                                && b.s.status == a.s.status
    requires b.run == a.run || (b.run.Some? && b.s.gate.None? && b.run.value.phase == Claimed)
    requires !b.slipped && forall i :: 0 <= i < |b.people| ==> Uncrossed(b, b.people[i])
    ensures Kept(b)
  {
  }

  // The answer a person built for the gate they read, committed while that gate stands.
  lemma MatchedAnswerBrackets(a: System, p: Person)
    requires Kept(a) && p in a.people && p.Built?
    requires a.s.gate == Some(p.gate) && !Collides(a.s.rows, [p.row])
    ensures Bracketed(a.s.rows + [p.row])
  {
    assert PersonKept(p) && PersonMade(a.s.rows, p);
    StaleWriteCollides(a.s.rows, [p.row], p.row.seqNo, p.next);
    AnswerBrackets(a.s.rows, p.row);
  }

  // A clear that committed: the gate is gone, nothing runs, and the answer closed its question.
  lemma KeptResolved(a: System, b: System, who: nat)
    requires Kept(a) && Grounded(b)
    requires who < |a.people| && a.people[who].Built? && b.people == a.people[who := Cleared]
    requires a.s.gate == Some(a.people[who].gate) && !Collides(a.s.rows, [a.people[who].row])
    requires b.s.rows == a.s.rows + [a.people[who].row] && b.s.gate.None? && b.run == a.run && !b.slipped
    ensures Kept(b)
  {
    MatchedAnswerBrackets(a, a.people[who]);
  }

  lemma ResolveKeeps(a: System, who: nat)
    requires Kept(a) && HumanEnabled(a, Resolve(who)) && Calm(a, Resolve(who))
    ensures Kept(ResolveStep(a, who))
  {
    HumanKeepsGround(a, Resolve(who));
    if a.s.gate.None? || Collides(a.s.rows, [a.people[who].row]) {
      KeptUntouched(a, ResolveStep(a, who));
    } else {
      assert Uncrossed(a, a.people[who]);
      KeptResolved(a, ResolveStep(a, who), who);
    }
  }

  lemma DispatchKeeps(a: System, who: nat)
    requires Kept(a) && HumanEnabled(a, Dispatch(who)) && Calm(a, Dispatch(who))
    ensures Kept(HumanStep(a, Dispatch(who)))
  {
    HumanKeepsGround(a, Dispatch(who));
    KeptUntouched(a, HumanStep(a, Dispatch(who)));
  }

  // One request moved along, and whatever it read it read off the transcript as it stands.
  lemma MovesUncrossed(a: System, e: Event)
    requires Kept(a) && HumanEnabled(a, e) && !e.Resolve? && !e.Dispatch?
    ensures forall i :: 0 <= i < |HumanStep(a, e).people| ==> Uncrossed(HumanStep(a, e), HumanStep(a, e).people[i])
  {
    assert !e.Arrive? ==> Uncrossed(a, a.people[e.who]);
  }

  // Wherever they land, the other requests leave the transcript alone.
  lemma MoveKeeps(a: System, e: Event)
    requires Kept(a) && HumanEnabled(a, e) && !e.Resolve? && !e.Dispatch?
    ensures Kept(HumanStep(a, e))
  {
    HumanKeepsGround(a, e);
    MovesUncrossed(a, e);
    var b := HumanStep(a, e);
    assert b.s.rows == a.s.rows && b.run == a.run && b.slipped == a.slipped;
    KeptUntouched(a, b);
  }

  lemma HumanKeeps(a: System, e: Event)
    requires Kept(a) && HumanEnabled(a, e) && Calm(a, e)
    ensures Kept(HumanStep(a, e))
  {
    if e.Resolve? {
      ResolveKeeps(a, e.who);
    } else if e.Dispatch? {
      DispatchKeeps(a, e.who);
    } else {
      MoveKeeps(a, e);
    }
  }

  lemma ReplayKeeps(a: System, replayed: seq<ToolResult>)
    requires Kept(a) && WorldEnabled(a, BootReplay(replayed))
    ensures Kept(WorldStep(a, BootReplay(replayed)))
  {
    WorldKeepsGround(a, BootReplay(replayed));
    ReplayBrackets(a.registry, a.s.rows, replayed, a.now);
    BracketGrows(a.s.rows, ReplayRow(a.registry, a.s.rows, replayed, a.now));
  }

  lemma WorldKeeps(a: System, e: Event)
    requires Kept(a) && WorldEnabled(a, e)
    ensures Kept(WorldStep(a, e))
  {
    WorldKeepsGround(a, e);
    match e
    case BootReplay(replayed) => ReplayKeeps(a, replayed);
    case BootDecide =>
      if !(a.boot == Repaired && WorthResuming(a.s, a.f, a.now)) {
        ErrorKeeps(a, WorldStep(a, e), if a.boot == Repaired then INTERRUPTED else ABANDONED);
      }
    case _ =>
  }

  lemma {:induction false} CalmHistoriesKeep(a: System, history: seq<Event>)
    requires Kept(a) && CalmRuns(a, history)
    ensures Runs(a, history) && Kept(After(a, history))
    decreases |history|
  {
    CalmRunsRun(a, history);
    if history != [] {
      var e := history[0];
      if RunEnabled(a, e) {
        RunKeeps(a, e);
      } else if HumanEnabled(a, e) {
        HumanKeeps(a, e);
      } else {
        WorldKeeps(a, e);
      }
      CalmHistoriesKeep(Step(a, e), history[1..]);
    }
  }

  /** Every calm history leaves a transcript whose seed has no error row, answers each of its calls
      later inside itself, and is its own seed. */
  lemma SeedStaysReplayable(registry: Registry, ceilingMs: int, investigation: bool, alerts: nat, now: int, history: seq<Event>)
    requires CalmRuns(Initial(registry, ceilingMs, investigation, alerts, now), history)
    ensures var a := Initial(registry, ceilingMs, investigation, alerts, now);
      && Runs(a, history)
      && var rows := After(a, history).s.rows;
      && Replayable(SeedRows(rows))
      && SeedRows(SeedRows(rows)) == SeedRows(rows)
  {
    var a := Initial(registry, ceilingMs, investigation, alerts, now);
    assert Handles([]) == Range(1, 0);
    CalmHistoriesKeep(a, history);
    SeedIsReplayable(After(a, history).s.rows);
    ReseedingIsIdempotent(After(a, history).s.rows);
  }

  /** On every calm history no handle crosses its seq: row seqs are 0..n-1 and the handles e1..eN, each issued once. */
  lemma CalmStaysSound(registry: Registry, ceilingMs: int, investigation: bool, alerts: nat, now: int, history: seq<Event>)
    requires CalmRuns(Initial(registry, ceilingMs, investigation, alerts, now), history)
    ensures var a := Initial(registry, ceilingMs, investigation, alerts, now);
      && Runs(a, history)
      && !After(a, history).slipped && Sound(After(a, history).s.rows)
  {
    assert Handles([]) == Range(1, 0);
    CalmHistoriesKeep(Initial(registry, ceilingMs, investigation, alerts, now), history);
  }

  // ---------- The exact condition ----------

  /** The row a committed clear writes answers the question the session was parked on exactly when
      the gate it cleared is the one its author read, and then every call of that turn is answered. */
  lemma ClearAnswersIffGateWasRead(a: System, who: nat)
    requires Kept(a) && HumanEnabled(a, Resolve(who))
    requires ResolveStep(a, who).people[who] == Cleared && a.s.gate.value.kind != Continue
    ensures AnswersAdjacent(ResolveStep(a, who).s.rows, |a.s.rows|) <==> a.s.gate == Some(a.people[who].gate)
  {
    var p, n := a.people[who], |a.s.rows|;
    assert PersonKept(p) && ReadThere(a.gates, p);
    var rows := ResolveStep(a, who).s.rows;
    assert rows[n] == p.row && rows[n - 1] == a.s.rows[n - 1];
    assert AnswersAdjacent(rows, n) <==> GateCalls(p.gate) == GateCalls(a.s.gate.value);
    if GateCalls(p.gate) == GateCalls(a.s.gate.value) {
      assert p.gate.callId in Parks(p.gate) && p.gate.callId in Parks(a.s.gate.value);
      SameCallSameEpoch(a.gates, p.read - 1, |a.gates| - 1, p.gate.callId);
    }
  }
}
