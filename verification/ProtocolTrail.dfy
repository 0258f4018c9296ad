/**
 What every history leaves on the transcript, calm or not: calls are named once, what is
 said of a call stands after it, and the rows people wrote are the clears that committed.
 */
module ProtocolTrail {
  import opened Wrappers
  import opened Transcript
  import opened SessionTables
  import opened Protocol
  import opened ProtocolWrites
  import opened ProtocolGates
  import opened Evidence

  // ---------- Rows and the trail ----------

  lemma {:induction false} OnTrail(rows: seq<Row>, i: nat, part: Part)
    requires i < |rows| && part in rows[i].parts
    ensures part in Trail(rows)
    decreases |rows|
  {
    var n := |rows| - 1;
    if i < n {
      OnTrail(rows[..n], i, part);
    }
  }

  lemma {:induction false} FromRow(rows: seq<Row>, part: Part) returns (i: nat)
    requires part in Trail(rows)
    ensures i < |rows| && part in rows[i].parts
    decreases |rows|
  {
    var n := |rows| - 1;
    if part in rows[n].parts {
      i := n;
    } else {
      i := FromRow(rows[..n], part);
    }
  }

  lemma CalledInTrail(rows: seq<Row>, id: CallId)
    ensures id in AskedIds(rows) <==> HasCall(Trail(rows), id)
  {
    if id in AskedIds(rows) {
      var i :| 0 <= i < |rows| && id in Calls(rows[i]);
      var p :| p in rows[i].parts && p.CallPart? && p.callId == id;
      OnTrail(rows, i, p);
      var j :| 0 <= j < |Trail(rows)| && Trail(rows)[j] == p;
    }
    if HasCall(Trail(rows), id) {
      var j :| 0 <= j < |Trail(rows)| && Trail(rows)[j].CallPart? && Trail(rows)[j].callId == id;
      var i := FromRow(rows, Trail(rows)[j]);
      assert id in Calls(rows[i]);
    }
  }

  ghost predicate DistinctResultParts(parts: seq<Part>) {
    forall i, j :: 0 <= i < j < |parts| && parts[i].ResultPart? && parts[j].ResultPart? ==>
      parts[i].callId != parts[j].callId
  }

  // One part a call and one a result; a decision stands last, beside the result of its call.
  ghost predicate WellMade(row: Row) {
    && DistinctCalls(row.parts) && DistinctResultParts(row.parts)
    && forall i :: 0 <= i < |row.parts| && IsDecision(row.parts[i]) ==>
         i == |row.parts| - 1 && row.parts[i].callId in Results(row)
  }

  // The row can follow these: its calls are new and what it answers was asked.
  ghost predicate Fits(rows: seq<Row>, row: Row) {
    WellMade(row) && Calls(row) !! AskedIds(rows) && Results(row) <= AskedIds(rows)
  }

  ghost predicate FitAll(rows: seq<Row>, added: seq<Row>)
    decreases |added|
  {
    added == [] || (FitAll(rows, added[..|added| - 1]) && Fits(rows + added[..|added| - 1], added[|added| - 1]))
  }

  ghost predicate NamedRows(rows: seq<Row>) {
    Named(Trail(rows)) && forall i :: 0 <= i < |rows| ==> WellMade(rows[i])
  }

  lemma NamedConcat(trail: seq<Part>, parts: seq<Part>)
    requires Named(trail) && DistinctCalls(parts)
    requires forall q :: q in parts && q.CallPart? ==> !HasCall(trail, q.callId)
    requires forall q :: q in parts && NamesCall(q) ==> HasCall(trail, q.callId)
    ensures Named(trail + parts)
  {
    var more := trail + parts;
    forall i, j | 0 <= i < j < |more| && more[i].CallPart? && more[j].CallPart?
      ensures more[i].callId != more[j].callId
    {
      if i < |trail| <= j {
        assert more[j] in parts && trail[i] == more[i];
      }
    }
    forall j | 0 <= j < |more| && NamesCall(more[j])
      ensures HasCall(more[..j], more[j].callId)
    {
      if j < |trail| {
        assert more[..j] == trail[..j];
      } else {
        assert more[j] in parts;
        var i :| 0 <= i < |trail| && trail[i].CallPart? && trail[i].callId == more[j].callId;
        assert more[..j][i] == trail[i];
      }
    }
  }

  lemma RowFits(rows: seq<Row>, row: Row)
    requires NamedRows(rows) && Fits(rows, row)
    ensures NamedRows(rows + [row])
  {
    assert (rows + [row])[..|rows|] == rows;
    forall q | q in row.parts && q.CallPart?
      ensures !HasCall(Trail(rows), q.callId)
    {
      assert q.callId in Calls(row);
      CalledInTrail(rows, q.callId);
    }
    forall q | q in row.parts && NamesCall(q)
      ensures HasCall(Trail(rows), q.callId)
    {
      assert q.ResultPart? ==> q.callId in Results(row);
      assert IsDecision(q) ==> q.callId in Results(row) by {
        var i :| 0 <= i < |row.parts| && row.parts[i] == q;
      }
      CalledInTrail(rows, q.callId);
    }
    NamedConcat(Trail(rows), row.parts);
  }

  lemma {:induction false} RowsFit(rows: seq<Row>, added: seq<Row>)
    requires NamedRows(rows) && FitAll(rows, added)
    ensures NamedRows(rows + added)
    decreases |added|
  {
    if added == [] {
      assert rows + added == rows;
    } else {
      var front, last := added[..|added| - 1], added[|added| - 1];
      RowsFit(rows, front);
      RowFits(rows + front, last);
      assert rows + added == (rows + front) + [last];
    }
  }

  // ---------- What each writer appends ----------

  lemma {:induction false} QuietFit(rows: seq<Row>, added: seq<Row>)
    requires QuietRows(added)
    ensures FitAll(rows, added)
    decreases |added|
  {
    if added != [] {
      QuietFit(rows, added[..|added| - 1]);
      QuietHoldNoResults(added);
      var last := added[|added| - 1];
      assert Quiet(last);
      assert forall i :: 0 <= i < |last.parts| ==> last.parts[i] in last.parts;
    }
  }

  lemma OneFits(rows: seq<Row>, row: Row)
    requires Fits(rows, row)
    ensures FitAll(rows, [row])
  {
    assert [row][..0] == [] && rows + [] == rows && FitAll(rows, []);
  }

  lemma {:induction false} FitThen(rows: seq<Row>, row: Row, added: seq<Row>)
    requires Fits(rows, row) && FitAll(rows + [row], added)
    ensures FitAll(rows, [row] + added)
    decreases |added|
  {
    if added == [] {
      OneFits(rows, row);
      assert [row] + added == [row];
    } else {
      var front, last := added[..|added| - 1], added[|added| - 1];
      FitThen(rows, row, front);
      assert ([row] + added)[..|added|] == [row] + front;
      assert rows + ([row] + front) == (rows + [row]) + front;
    }
  }

  lemma {:induction false} StampIsResults(results: seq<ToolResult>, citable: set<CallId>, from: nat)
    ensures forall i :: 0 <= i < |results| ==>
              Stamp(results, citable, from)[i].ResultPart? && Stamp(results, citable, from)[i].callId == results[i].callId
    decreases |results|
  {
    if results != [] {
      StampIsResults(results[..|results| - 1], citable, from);
    }
  }

  lemma StampedFits(rows: seq<Row>, row: Row, results: seq<ToolResult>, citable: set<CallId>, from: nat)
    requires row.parts == Stamp(results, citable, from) && DistinctResults(results) && ResultIds(results) <= AskedIds(rows)
    ensures Fits(rows, row) && DecisionOf(row).None?
  {
    StampIsResults(results, citable, from);
    StampIds(results, citable, from, row);
  }

  lemma {:induction false} PendingAreDistinct(parts: seq<Part>, answered: set<CallId>)
    requires DistinctCalls(parts)
    ensures DistinctCalls(PartsNotIn(parts, answered))
    decreases |parts|
  {
    if parts != [] {
      var front, last := parts[..|parts| - 1], parts[|parts| - 1];
      PendingAreDistinct(front, answered);
      PartsNotInIds(front, answered);
      forall c | c in PartsNotIn(front, answered) && last.CallPart?
        ensures c.callId != last.callId
      {
        var i :| 0 <= i < |front| && front[i] == c;
        assert parts[i] == c;
      }
    }
  }

  lemma {:induction false} PendingOnTrail(rows: seq<Row>, answered: set<CallId>)
    ensures CallsNotIn(rows, answered) == PartsNotIn(Trail(rows), answered)
    decreases |rows|
  {
    if rows != [] {
      PendingOnTrail(rows[..|rows| - 1], answered);
      PartsNotInConcat(Trail(rows[..|rows| - 1]), rows[|rows| - 1].parts, answered);
    }
  }

  lemma {:induction false} PartsNotInConcat(a: seq<Part>, b: seq<Part>, answered: set<CallId>)
    ensures PartsNotIn(a + b, answered) == PartsNotIn(a, answered) + PartsNotIn(b, answered)
    decreases |b|
  {
    if b == [] {
      assert a + b == a;
    } else {
      PartsNotInConcat(a, b[..|b| - 1], answered);
      assert (a + b)[..|a + b| - 1] == a + b[..|b| - 1];
    }
  }

  lemma ReplayedWereAsked(rows: seq<Row>, replayed: seq<ToolResult>)
    requires Replays(Unanswered(rows), replayed)
    ensures ResultIds(replayed) <= AskedIds(rows)
  {
    var calls := Unanswered(rows);
    UnansweredIds(rows);
    forall id | id in ResultIds(replayed)
      ensures id in AskedIds(rows)
    {
      var i :| 0 <= i < |replayed| && replayed[i].callId == id;
      assert calls[i] in calls && id in CallIds(calls);
    }
  }

  lemma ReplayFits(registry: Registry, rows: seq<Row>, replayed: seq<ToolResult>, now: int)
    requires NamedRows(rows) && Replays(Unanswered(rows), replayed)
    ensures Fits(rows, ReplayRow(registry, rows, replayed, now)) && DecisionOf(ReplayRow(registry, rows, replayed, now)).None?
  {
    var calls := Unanswered(rows);
    PendingOnTrail(rows, AnsweredIds(rows));
    PendingAreDistinct(Trail(rows), AnsweredIds(rows));
    ReplayedWereAsked(rows, replayed);
    StampedFits(rows, ReplayRow(registry, rows, replayed, now), replayed, CitableCalls(registry, calls), Highest(rows) + 1);
  }

  ghost predicate Undecided(added: seq<Row>) {
    forall r :: r in added ==> DecisionOf(r).None?
  }

  // The rows a step appends: none of them a person's.
  ghost predicate Appends(a: System, b: System, added: seq<Row>) {
    b.s.rows == a.s.rows + added && FitAll(a.s.rows, added) && Undecided(added)
  }

  lemma FlushAppends(a: System, added: seq<Row>, phase: Phase) returns (written: seq<Row>)
    requires a.run.Some? && FitAll(a.s.rows, added) && Undecided(added)
    ensures Appends(a, Flushed(a, added, phase), written)
  {
    written := if Collides(a.s.rows, added) then [] else added;
    assert a.s.rows + [] == a.s.rows;
  }

  lemma QuietUndecided(added: seq<Row>)
    requires QuietRows(added)
    ensures Undecided(added)
  {
    forall r | r in added
      ensures DecisionOf(r).None?
    {
      assert Quiet(r);
      assert r.parts != [] ==> r.parts[|r.parts| - 1] in r.parts;
    }
  }

  lemma AskedFits(rows: seq<Row>, row: Row)
    requires Asks(row) && Calls(row) !! AskedIds(rows)
    ensures FitAll(rows, [row]) && Undecided([row])
  {
    assert forall i :: 0 <= i < |row.parts| ==> row.parts[i] in row.parts;
    assert Results(row) == {};
    OneFits(rows, row);
  }

  lemma AnswerAppends(a: System, results: seq<ToolResult>, notes: seq<Row>) returns (added: seq<Row>)
    requires Parkings(a) && RunEnabled(a, Event.Answer(results, notes))
    ensures Appends(a, RunStep(a, Event.Answer(results, notes)), added)
  {
    var row, run := ResultsRow(a, results), a.run.value;
    StampedFits(a.s.rows, row, results, CitableCalls(a.registry, run.phase.row.parts), run.nextEvidence);
    QuietFit(a.s.rows + [row], notes);
    FitThen(a.s.rows, row, notes);
    QuietUndecided(notes);
    added := FlushAppends(a, [row] + notes, Turning);
  }

  lemma ErrorAppends(rows: seq<Row>, text: string, now: int)
    ensures FitAll(rows, [ErrorRow(rows, text, now)]) && Undecided([ErrorRow(rows, text, now)])
  {
    OneFits(rows, ErrorRow(rows, text, now));
  }

  lemma RunAppends(a: System, e: Event) returns (added: seq<Row>)
    requires Parkings(a) && RunEnabled(a, e)
    ensures Appends(a, RunStep(a, e), added)
  {
    assert a.s.rows + [] == a.s.rows;
    match e
    case Say(rows) =>
      QuietFit(a.s.rows, rows);
      QuietUndecided(rows);
      added := FlushAppends(a, rows, Turning);
    case Ask(row) =>
      AskedFits(a.s.rows, row);
      added := FlushAppends(a, [row], Calling(row));
    case Answer(results, notes) => added := AnswerAppends(a, results, notes);
    case ReportError(text) =>
      ErrorAppends(a.s.rows, text, a.now);
      added := [ErrorRow(a.s.rows, text, a.now)];
    case _ => added := [];
  }

  lemma ReplayAppends(a: System, replayed: seq<ToolResult>) returns (added: seq<Row>)
    requires NamedRows(a.s.rows) && WorldEnabled(a, BootReplay(replayed))
    ensures Appends(a, WorldStep(a, BootReplay(replayed)), added)
  {
    assert a.s.rows + [] == a.s.rows;
    added := [];
    if WorldStep(a, BootReplay(replayed)).s.rows != a.s.rows {
      ReplayFits(a.registry, a.s.rows, replayed, a.now);
      added := [ReplayRow(a.registry, a.s.rows, replayed, a.now)];
      OneFits(a.s.rows, added[0]);
    }
  }

  lemma DecisionAppends(a: System) returns (added: seq<Row>)
    requires WorldEnabled(a, BootDecide)
    ensures Appends(a, WorldStep(a, BootDecide), added)
  {
    assert a.s.rows + [] == a.s.rows;
    added := [];
    if !(a.boot == Repaired && WorthResuming(a.s, a.f, a.now)) {
      var text := if a.boot == Repaired then INTERRUPTED else ABANDONED;
      ErrorAppends(a.s.rows, text, a.now);
      added := [ErrorRow(a.s.rows, text, a.now)];
    }
  }

  lemma WorldAppends(a: System, e: Event) returns (added: seq<Row>)
    requires NamedRows(a.s.rows) && WorldEnabled(a, e)
    ensures Appends(a, WorldStep(a, e), added)
  {
    assert a.s.rows + [] == a.s.rows;
    added := [];
    match e
    case BootReplay(replayed) => added := ReplayAppends(a, replayed);
    case BootDecide => added := DecisionAppends(a);
    case _ =>
  }

  // ---------- The rows people wrote ----------

  function AnswerRows(rows: seq<Row>): seq<Row> {
    if rows == [] then []
    else AnswerRows(rows[..|rows| - 1]) + (if DecisionOf(rows[|rows| - 1]).Some? then [rows[|rows| - 1]] else [])
  }

  predicate OfCallGate(gates: seq<Gate>, m: Mark) {
    0 < m.read <= |gates| && gates[m.read - 1].kind != Continue
  }

  // The clears that answered a call: a continue gate's are deletes.
  function AnswerClears(gates: seq<Gate>, clears: seq<Mark>): seq<Mark> {
    if clears == [] then []
    else AnswerClears(gates, clears[..|clears| - 1])
         + (if OfCallGate(gates, clears[|clears| - 1]) then [clears[|clears| - 1]] else [])
  }

  // The row answers the calls of the gate its author read, and decides the call that gate asked about.
  ghost predicate AnswersClear(gates: seq<Gate>, row: Row, m: Mark) {
    OfCallGate(gates, m) && AnswersGate(row, gates[m.read - 1]) && m.callId == gates[m.read - 1].callId
  }

  ghost predicate OneToOne(gates: seq<Gate>, answers: seq<Row>, marks: seq<Mark>) {
    |answers| == |marks| && forall i :: 0 <= i < |marks| ==> AnswersClear(gates, answers[i], marks[i])
  }

  ghost predicate PersonWellMade(p: Person) {
    && (p.Stamped? ==> WellMade(Bare(p.parts)))
    && (p.Built? ==> WellMade(p.row))
  }

  ghost predicate Trailed(a: System) {
    && Parkings(a) && NamedRows(a.s.rows)
    && (forall i :: 0 <= i < |a.people| ==> PersonWellMade(a.people[i]))
    && (forall m :: m in a.clears ==> 0 < m.read <= |a.gates|)
    && OneToOne(a.gates, AnswerRows(a.s.rows), AnswerClears(a.gates, a.clears))
  }

  lemma {:induction false} UndecidedAddsNone(rows: seq<Row>, added: seq<Row>)
    requires Undecided(added)
    ensures AnswerRows(rows + added) == AnswerRows(rows)
    decreases |added|
  {
    if added == [] {
      assert rows + added == rows;
    } else {
      UndecidedAddsNone(rows, added[..|added| - 1]);
      assert (rows + added)[..|rows + added| - 1] == rows + added[..|added| - 1];
    }
  }

  lemma {:induction false} ClearsStand(gates: seq<Gate>, more: seq<Gate>, clears: seq<Mark>)
    requires gates <= more && forall m :: m in clears ==> 0 < m.read <= |gates|
    ensures AnswerClears(more, clears) == AnswerClears(gates, clears)
    decreases |clears|
  {
    if clears != [] {
      ClearsStand(gates, more, clears[..|clears| - 1]);
      assert clears[|clears| - 1] in clears;
    }
  }

  // Nobody answered: the rows added are a run's or recovery's, and no clear was marked.
  lemma TrailedGrows(a: System, b: System, added: seq<Row>)
    requires Trailed(a) && Parkings(b) && Appends(a, b, added) && a.gates <= b.gates && b.clears == a.clears
    requires forall i :: 0 <= i < |b.people| ==> PersonWellMade(b.people[i])
    ensures Trailed(b)
  {
    RowsFit(a.s.rows, added);
    UndecidedAddsNone(a.s.rows, added);
    ClearsStand(a.gates, b.gates, a.clears);
  }

  lemma RunKeepsTrailed(a: System, e: Event)
    requires Trailed(a) && RunEnabled(a, e)
    ensures Trailed(RunStep(a, e))
  {
    RunKeepsParkings(a, e);
    var added := RunAppends(a, e);
    TrailedGrows(a, RunStep(a, e), added);
  }

  lemma WorldKeepsTrailed(a: System, e: Event)
    requires Trailed(a) && WorldEnabled(a, e)
    ensures Trailed(WorldStep(a, e))
  {
    WorldKeepsParkings(a, e);
    var added := WorldAppends(a, e);
    TrailedGrows(a, WorldStep(a, e), added);
  }

  // Stamped results, and a decision on one of their calls behind them.
  lemma DecidedIsWellMade(row: Row, results: seq<ToolResult>, citable: set<CallId>, from: nat, decision: Part)
    requires row.parts == Stamp(results, citable, from) + [decision] && IsDecision(decision)
    requires DistinctResults(results) && decision.callId in ResultIds(results)
    ensures WellMade(row)
  {
    StampIsResults(results, citable, from);
    var r :| r in results && r.callId == decision.callId;
    var i :| 0 <= i < |results| && results[i] == r;
    assert row.parts[i].ResultPart? && row.parts[i].callId == decision.callId && row.parts[i] in row.parts;
  }

  lemma SavedAndAnswered(gate: Gate, answer: ToolResult)
    requires WellParked(gate) && gate.kind != Continue && answer.callId == gate.callId
    ensures DistinctResults(gate.saved + [answer]) && answer.callId in ResultIds(gate.saved + [answer])
  {
    var results := gate.saved + [answer];
    assert results[|gate.saved|] in results;
    forall i | 0 <= i < |gate.saved|
      ensures gate.saved[i].callId != answer.callId
    {
      assert gate.saved[i] in gate.saved;
    }
  }

  lemma BuiltIsWellMade(a: System, who: nat, answer: ToolResult, decision: Part)
    requires Parkings(a) && HumanEnabled(a, Build(who, answer, decision))
    ensures WellMade(Bare(BuildStep(a, who, answer, decision).people[who].parts))
  {
    var gate := a.people[who].gate;
    var results := gate.saved + [answer];
    assert PersonKept(a.people[who]) && ReadThere(a.gates, a.people[who]);
    SavedAndAnswered(gate, answer);
    DecidedIsWellMade(Bare(BuildStep(a, who, answer, decision).people[who].parts), results,
                      CitableIn(a.registry, a.s.rows) * ResultIds(results), Highest(a.s.rows) + 1, decision);
  }

  // A committed clear: one row and one mark more, of one another.
  lemma CommitKeepsTrailed(a: System, b: System, who: nat)
    requires Trailed(a) && Parkings(b) && who < |a.people| && a.people[who].Built?
    requires b.s.rows == a.s.rows + [a.people[who].row] && b.clears == a.clears + [MarkNow(a, who)] && b.gates == a.gates
    requires b.people == a.people[who := Cleared]
    ensures Trailed(b)
  {
    var p := a.people[who];
    assert PersonKept(p) && ReadThere(a.gates, p) && PersonWellMade(p);
    RowFits(a.s.rows, p.row);
    assert b.s.rows[..|a.s.rows|] == a.s.rows && b.clears[..|a.clears|] == a.clears;
    assert AnswersClear(a.gates, p.row, MarkNow(a, who));
    assert AnswerRows(b.s.rows) == AnswerRows(a.s.rows) + [p.row];
    assert AnswerClears(b.gates, b.clears) == AnswerClears(a.gates, a.clears) + [MarkNow(a, who)];
  }

  // A request that moved along and wrote no row.
  lemma MovedKeepsTrailed(a: System, b: System)
    requires Trailed(a) && Parkings(b) && b.s.rows == a.s.rows && b.gates == a.gates && b.clears == a.clears
    requires forall i :: 0 <= i < |b.people| ==> PersonWellMade(b.people[i])
    ensures Trailed(b)
  {
  }

  lemma ResolveKeepsTrailed(a: System, who: nat)
    requires Trailed(a) && HumanEnabled(a, Resolve(who))
    ensures Trailed(ResolveStep(a, who))
  {
    var b := ResolveStep(a, who);
    HumanKeepsParkings(a, Resolve(who));
    if b.people[who] == Cleared {
      CommitKeepsTrailed(a, b, who);
    } else {
      MovedKeepsTrailed(a, b);
    }
  }

  // A continue gate cleared: no row, and a clear that takes none.
  lemma UnpausedKeepsTrailed(a: System, b: System, who: nat)
    requires Trailed(a) && Parkings(b) && who < |a.people| && a.people[who].Looking? && a.people[who].gate.kind == Continue
    requires b.s.rows == a.s.rows && b.clears == a.clears + [MarkNow(a, who)] && b.gates == a.gates
    requires b.people == a.people[who := Deleting]
    ensures Trailed(b)
  {
    assert ReadThere(a.gates, a.people[who]);
    assert b.clears[..|a.clears|] == a.clears;
  }

  lemma DeleteKeepsTrailed(a: System, who: nat)
    requires Trailed(a) && HumanEnabled(a, Delete(who))
    ensures Trailed(HumanStep(a, Delete(who)))
  {
    var b := HumanStep(a, Delete(who));
    HumanKeepsParkings(a, Delete(who));
    if a.s.gate.None? {
      MovedKeepsTrailed(a, b);
    } else {
      UnpausedKeepsTrailed(a, b, who);
    }
  }

  lemma BuildKeepsTrailed(a: System, who: nat, answer: ToolResult, decision: Part)
    requires Trailed(a) && HumanEnabled(a, Build(who, answer, decision))
    ensures Trailed(BuildStep(a, who, answer, decision))
  {
    HumanKeepsParkings(a, Build(who, answer, decision));
    BuiltIsWellMade(a, who, answer, decision);
    MovedKeepsTrailed(a, BuildStep(a, who, answer, decision));
  }

  lemma NumberKeepsTrailed(a: System, who: nat)
    requires Trailed(a) && HumanEnabled(a, Number(who))
    ensures Trailed(NumberStep(a, who))
  {
    var b := NumberStep(a, who);
    HumanKeepsParkings(a, Number(who));
    assert PersonWellMade(a.people[who]);
    assert Results(b.people[who].row) == Results(Bare(a.people[who].parts));
    MovedKeepsTrailed(a, b);
  }

  lemma MoveKeepsTrailed(a: System, e: Event)
    requires Trailed(a) && HumanEnabled(a, e) && !e.Resolve? && !e.Delete? && !e.Build? && !e.Number?
    ensures Trailed(HumanStep(a, e))
  {
    HumanKeepsParkings(a, e);
    var b := HumanStep(a, e);
    assert forall i :: 0 <= i < |b.people| && (b.people[i].Built? || b.people[i].Stamped?) ==>
                         i < |a.people| && b.people[i] == a.people[i];
    MovedKeepsTrailed(a, b);
  }

  lemma HumanKeepsTrailed(a: System, e: Event)
    requires Trailed(a) && HumanEnabled(a, e)
    ensures Trailed(HumanStep(a, e))
  {
    if e.Resolve? {
      ResolveKeepsTrailed(a, e.who);
    } else if e.Delete? {
      DeleteKeepsTrailed(a, e.who);
    } else if e.Build? {
      BuildKeepsTrailed(a, e.who, e.answer, e.decision);
    } else if e.Number? {
      NumberKeepsTrailed(a, e.who);
    } else {
      MoveKeepsTrailed(a, e);
    }
  }

  lemma {:induction false} HistoryKeepsTrailed(a: System, history: seq<Event>)
    requires Trailed(a) && Runs(a, history)
    ensures Trailed(After(a, history))
    decreases |history|
  {
    if history != [] {
      var e := history[0];
      if RunEnabled(a, e) {
        RunKeepsTrailed(a, e);
      } else if HumanEnabled(a, e) {
        HumanKeepsTrailed(a, e);
      } else {
        WorldKeepsTrailed(a, e);
      }
      HistoryKeepsTrailed(Step(a, e), history[1..]);
    }
  }

  /** On every history, the rows people wrote are one to one, in order, the clears that committed: each answers
      exactly the calls of the gate its author read, and decides the call that gate asked about. A request whose
      clear was lost or aborted wrote nothing. */
  lemma AnswersAreClears(a: System, history: seq<Event>)
    requires Trailed(a) && Runs(a, history)
    ensures var b := After(a, history);
      OneToOne(b.gates, AnswerRows(b.s.rows), AnswerClears(b.gates, b.clears))
  {
    HistoryKeepsTrailed(a, history);
  }
}
