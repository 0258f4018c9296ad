/**
 A history on which a person's two reads are crossed. They stamp an answer off the
 transcript; its gate is answered for them, the run goes on, cites a result and parks
 again; and only then do they read the seq their row goes under. The primary key has
 nothing to say against it, and one handle names two results.
 */
module CrossedReads {
  import opened Wrappers
  import opened Transcript
  import opened SessionTables
  import opened Protocol
  import opened ProtocolWrites
  import opened Evidence
  import opened CrossedAnswers

  const TOOLS: Registry := map["RestartService" := ToolInfo(Write, Policy.Approve, false, true),
                               "ReadLogs" := ToolInfo(Read, Auto, false, true)]

  function Fresh(): System {
    Initial(TOOLS, 0, false, 0, 0)
  }

  const FIRST := Gate(1, GateKind.Approval, [])

  function Ran(id: CallId): ToolResult {
    ToolResult(id, "", false)
  }

  function Unknown(id: CallId): ToolResult {
    ToolResult(id, "", true)
  }

  const RELEASED := [ResultPart(1, "", Some(1), false), ApprovalPart(1, true)]
  const LOGS := [CallPart(2, "ReadLogs")]
  const LOGGED := [ResultPart(2, "", Some(1), false)]

  // ---------- The answer is stamped, and the gate answered for its author ----------

  lemma MayBeCited(rows: seq<Row>)
    requires rows != [] && rows[0] == Question(0, 1)
    ensures 1 in CitableIn(TOOLS, rows)
  {
    var p := CallPart(1, "RestartService");
    assert rows[0].parts[0] == p && p in rows[0].parts && IsCitable(TOOLS, p.name);
  }

  lemma NoHandleYet(rows: seq<Row>)
    requires rows == [Question(0, 1)]
    ensures Handles(rows) == []
  {
    assert rows[..0] == [] && rows[0].parts[..0] == [];
    assert PartHandles(rows[0].parts) == [];
  }

  // The first gate, approved and run.
  lemma Approved() returns (a: System)
    ensures OnCourse(Fresh(), a) && a.registry == TOOLS && a.now == 0 && a.run.None?
    ensures a.s.rows == [Question(0, 1)] && a.s.gate == Some(FIRST) && a.s.claimedAt == Some(0) && a.s.status == ActionRequired
    ensures |a.people| == 1 && a.people[0].Executed? && a.people[0].gate == FIRST
  {
    var init := Fresh();
    assert Runs(init, []) && After(init, []) == init;
    Reach(init, init, Start);
    a := ReadsUp(init, Step(init, Start));
    a := AsksAndParks(init, a, 1);
    a := ApprovesOrFindsStale(init, a);
  }

  ghost predicate HasStamped(p: Person) {
    p.Stamped? && p.gate == FIRST && p.parts == RELEASED && p.seen == 0
  }

  // And its answer stamped with e1.
  lemma ApprovedAndStamped() returns (a: System)
    ensures OnCourse(Fresh(), a) && a.registry == TOOLS && a.now == 0 && a.run.None?
    ensures a.s.rows == [Question(0, 1)] && a.s.gate == Some(FIRST) && a.s.claimedAt == Some(0) && a.s.status == ActionRequired
    ensures |a.people| == 1 && HasStamped(a.people[0])
  {
    var b := Approved();
    MayBeCited(b.s.rows);
    NoHandleYet(b.s.rows);
    a := Stamps(Fresh(), b, 0, Ran(1), ApprovalPart(1, true));
  }

  // Somebody else finds the claim too old.
  lemma StampedAndStale() returns (a: System)
    ensures OnCourse(Fresh(), a) && a.registry == TOOLS && a.run.None?
    ensures a.s.rows == [Question(0, 1)] && a.s.gate == Some(FIRST) && a.s.status == ActionRequired
    ensures |a.people| == 2 && HasStamped(a.people[0]) && a.people[1].Stale? && a.people[1].gate == FIRST
  {
    var b := ApprovedAndStamped();
    Reach(Fresh(), b, Tick(1));
    a := ApprovesOrFindsStale(Fresh(), Step(b, Tick(1)));
    assert a.people[0] == a.people[..1][0];
  }

  lemma AnsweredElsewhere() returns (a: System, row: Row)
    ensures OnCourse(Fresh(), a) && FreshRun(a) && a.run.value.nextEvidence == 1 && a.registry == TOOLS
    ensures a.s.rows == [Question(0, 1), row] && AnswerTo(row, 1) && Handles(a.s.rows) == []
    ensures |a.people| == 2 && HasStamped(a.people[0])
  {
    var b := StampedAndStale();
    NoHandleYet(b.s.rows);
    b, row := Answers(Fresh(), b, 1, Unknown(1), ApprovalPart(1, true));
    UnknownHasNoHandle(b.s.rows, row);
    a := Resumes(Fresh(), b, 1);
  }

  lemma UnknownHasNoHandle(rows: seq<Row>, row: Row)
    requires rows == [Question(0, 1)] + [row] && |row.parts| == 2 && row.parts[1] == ApprovalPart(1, true)
    requires row.parts[0] == ResultPart(1, "", None, true)
    ensures Handles(rows) == []
  {
    NoHandleYet([Question(0, 1)]);
    HandlesSnoc([Question(0, 1)], row);
    assert row.parts[..1] == [row.parts[0]] && row.parts[..1][..0] == [];
    assert PartHandles(row.parts[..1]) == [];
  }

  // ---------- The run cites a result and parks again ----------

  function Asked(n: nat): Row {
    Row(n, Assistant, "", LOGS, 0)
  }

  lemma AsksForLogs(init: System, a: System) returns (b: System)
    requires OnCourse(init, a) && FreshRun(a) && !Transcript.Asked(a.s.rows, 2) && a.run.value.nextEvidence == 1
    ensures OnCourse(init, b) && b.s.rows == a.s.rows + [Asked(|a.s.rows|)] && b.people == a.people && b.registry == a.registry
    ensures IsCalling(b) && b.run.value == Run(|b.s.rows|, 1, Calling(Asked(|a.s.rows|)), false)
    ensures b.s.status == Running && b.s.gate.None?
  {
    var row := Asked(|a.s.rows|);
    assert Calls(row) == {2} by {
      assert LOGS[0] in LOGS;
    }
    assert 2 !in AskedIds(a.s.rows);
    assert Results(row) == {};
    RowWithoutResults(row);
    HandlesSnoc([], row);
    assert [] + [row] == [row];
    Reach(init, a, Ask(row));
    b := Step(a, Ask(row));
  }

  lemma StampsLogs(a: System)
    requires IsCalling(a) && a.run.value.phase.row.parts == LOGS && a.run.value.nextEvidence == 1 && a.registry == TOOLS
    ensures ResultsRow(a, [Ran(2)]).parts == LOGGED
  {
    assert LOGS[0] in LOGS && IsCitable(TOOLS, "ReadLogs");
    OneStamp(Ran(2), CitableCalls(TOOLS, LOGS), 1);
  }

  lemma ReadsLogs(init: System, a: System) returns (b: System)
    requires OnCourse(init, a) && IsCalling(a) && a.registry == TOOLS && a.s.status == Running && a.s.gate.None?
    requires a.run.value.nextSeq == |a.s.rows| && a.run.value.nextEvidence == 1 && !a.run.value.crossed
    requires a.run.value.phase.row.parts == LOGS
    ensures OnCourse(init, b) && FreshRun(b) && b.people == a.people && b.registry == a.registry
    ensures |b.s.rows| == |a.s.rows| + 1 && b.s.rows[..|a.s.rows|] == a.s.rows && b.s.rows[|a.s.rows|].parts == LOGGED
  {
    var row := ResultsRow(a, [Ran(2)]);
    StampsLogs(a);
    var e := Event.Answer([Ran(2)], []);
    assert Ran(2) in [Ran(2)] && LOGS[0] in LOGS;
    assert ResultIds([Ran(2)]) == {2} == Calls(a.run.value.phase.row);
    assert [row] + [] == [row];
    Reach(init, a, e);
    b := Step(a, e);
  }

  // ---------- And the row is numbered after it ----------

  ghost predicate Parked(a: System, first: Row) {
    && a.s.gate.Some? && a.s.status == ActionRequired && |a.s.rows| == 5
    && a.s.rows[..2] == [Question(0, 1), first] && a.s.rows[2] == Asked(2) && a.s.rows[3].parts == LOGGED
    && a.s.rows[4] == Question(4, 3) && Handles(a.s.rows[..2]) == []
  }

  lemma Cites() returns (a: System, first: Row)
    ensures OnCourse(Fresh(), a) && FreshRun(a) && |a.s.rows| == 4 && AnswerTo(first, 1)
    ensures a.s.rows[..2] == [Question(0, 1), first] && a.s.rows[2] == Asked(2) && a.s.rows[3].parts == LOGGED
    ensures Handles(a.s.rows[..2]) == [] && |a.people| == 2 && HasStamped(a.people[0])
  {
    var b;
    b, first := AnsweredElsewhere();
    QuestionIds(0, 1);
    assert !Transcript.Asked(b.s.rows, 2);
    var c := AsksForLogs(Fresh(), b);
    a := ReadsLogs(Fresh(), c);
    assert a.s.rows[..2] == a.s.rows[..3][..2] == b.s.rows;
    assert a.s.rows[2] == a.s.rows[..3][2];
  }

  lemma GoesOn() returns (a: System, first: Row)
    ensures OnCourse(Fresh(), a) && Parked(a, first)
    ensures |a.people| == 2 && HasStamped(a.people[0])
  {
    var b;
    b, first := Cites();
    OnlyTwoAsked(b.s.rows, first);
    a := AsksAndParks(Fresh(), b, 3);
    assert a.s.rows[..2] == b.s.rows[..2];
  }

  lemma OnlyTwoAsked(rows: seq<Row>, first: Row)
    requires |rows| == 4 && rows[..2] == [Question(0, 1), first] && AnswerTo(first, 1)
    requires rows[2] == Asked(2) && rows[3].parts == LOGGED
    ensures !Transcript.Asked(rows, 3)
  {
    QuestionIds(0, 1);
    assert rows[0] == rows[..2][0] && rows[1] == rows[..2][1];
    assert 3 !in Calls(rows[2]) && Calls(rows[3]) == {};
  }

  lemma OneHandle(rows: seq<Row>, first: Row)
    requires |rows| == 5 && rows[..2] == [Question(0, 1), first] && rows[2] == Asked(2) && rows[3].parts == LOGGED
    requires rows[4] == Question(4, 3) && Handles(rows[..2]) == []
    ensures |Handles(rows)| == 1
  {
    HandlesNextRow(rows, 2);
    HandlesNextRow(rows, 3);
    HandlesNextRow(rows, 4);
    assert rows[..5] == rows;
    assert LOGS[..0] == [] && LOGGED[..0] == [] && rows[4].parts[..0] == [];
    assert PartHandles(LOGS) == [] && PartHandles(LOGGED) == [1] && PartHandles(rows[4].parts) == [];
  }

  // One handle, on results of two calls.
  ghost predicate NamesTwo(rows: seq<Row>, n: nat) {
    exists i, j :: 0 <= i < |rows| && 0 <= j < |rows| && i != j
      && rows[i].parts != [] && Carries(rows[i].parts[0], n) && rows[j].parts != [] && Carries(rows[j].parts[0], n)
      && rows[i].parts[0].callId != rows[j].parts[0].callId
  }

  lemma ReleasedHandle(row: Row)
    requires row.parts == RELEASED
    ensures Handles([row]) == [1]
  {
    HandlesSnoc([], row);
    assert [] + [row] == [row];
    assert RELEASED[..1] == [RELEASED[0]] && RELEASED[..1][..0] == [];
    assert PartHandles(RELEASED[..1]) == [1];
  }

  // The stamped answer is numbered now, past a handle that came in between.
  lemma NumbersLate() returns (a: System)
    ensures OnCourse(Fresh(), a) && a.s.gate.Some? && |a.s.rows| == 5 && a.s.rows[3].parts == LOGGED
    ensures |a.people| == 2 && a.people[0].Built? && a.people[0].crossed
    ensures a.people[0].row.seqNo == 5 && a.people[0].row.parts == RELEASED
  {
    var b, first := GoesOn();
    OneHandle(b.s.rows, first);
    a := Numbers(Fresh(), b, 0);
  }

  /** Seqs can be 0..n-1 and a handle name two results: the row of an author whose two reads were crossed commits. */
  lemma CrossedReadsRepeatAHandle()
    ensures exists a :: Reachable(Fresh(), a) && a.slipped && Dense(a.s.rows) && NamesTwo(a.s.rows, 1)
  {
    var a := NumbersLate();
    var row := a.people[0].row;
    ReleasedHandle(row);
    assert !Collides(a.s.rows, [row]);
    Reach(Fresh(), a, Resolve(0));
    var c := Step(a, Resolve(0));
    assert c.s.rows == a.s.rows + [row];
    assert c.s.rows[3].parts == LOGGED && c.s.rows[5] == row;
  }
}
