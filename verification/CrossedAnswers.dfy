/**
 A history on which answers cross: an approved call outlives its ceiling, so its gate is
 answered for it, and its late answer clears the next gate while that gate's own approved
 call is still running. The transcript it leaves has a seed no provider accepts.
 */
module CrossedAnswers {
  import opened Wrappers
  import opened Transcript
  import opened Seed
  import opened SessionTables
  import opened TranscriptWrites
  import opened Protocol

  // What the pieces below carry from one to the next.
  ghost predicate OnCourse(init: System, a: System) {
    Reachable(init, a) && a.boot == Up && a.ceilingMs == 0 && Dense(a.s.rows) && !a.slipped
  }

  ghost predicate FreshRun(a: System) {
    && a.run.Some? && a.run.value.phase == Turning && a.run.value.nextSeq == |a.s.rows| && !a.run.value.crossed
    && a.s.status == Running && a.s.gate.None?
  }

  // A run that has its claim reads the transcript and then the seq.
  lemma ReadsUp(init: System, a: System) returns (b: System)
    requires OnCourse(init, a) && InPhase(a, Claimed) && a.s.status == Running && a.s.gate.None?
    ensures OnCourse(init, b) && FreshRun(b) && b == a.(run := b.run) && b.run.value.nextEvidence == Highest(a.s.rows) + 1
  {
    Reach(init, a, ReadRows);
    b := Step(a, ReadRows);
    Reach(init, b, ReadSeq);
    b := Step(b, ReadSeq);
    NextSeqIsLength(a.s.rows);
  }

  function Question(seqNo: nat, id: CallId): Row {
    Row(seqNo, Assistant, "", [CallPart(id, "RestartService")], 0)
  }

  // A run asks for one gated call and parks on it.
  lemma AsksAndParks(init: System, a: System, id: CallId) returns (b: System)
    requires OnCourse(init, a) && FreshRun(a) && !Asked(a.s.rows, id)
    ensures OnCourse(init, b) && b.s.rows == a.s.rows + [Question(|a.s.rows|, id)]
    ensures b.s.gate == Some(Gate(id, Approval, [])) && b.s.claimedAt.None? && b.s.status == ActionRequired
    ensures b.run.None? && b.people == a.people && b.now == a.now && b.registry == a.registry
    ensures b.gates == a.gates + [Gate(id, Approval, [])] && b.claims == a.claims && b.starts == a.starts
  {
    var row := Question(|a.s.rows|, id);
    assert Calls(row) == {id} && Results(row) == {};
    assert !(id in AskedIds(a.s.rows));
    assert RunEnabled(a, Ask(row));
    Reach(init, a, Ask(row));
    var asked := Step(a, Ask(row));
    assert !Collides(a.s.rows, [row]);
    var gate := Gate(id, Approval, []);
    assert ResultIds([]) == {};
    assert RunEnabled(asked, Park(gate));
    Reach(init, asked, Park(gate));
    b := Step(asked, Park(gate));
    assert asked.s.rows + [] == asked.s.rows;
  }

  // Somebody reads the gate and claims it: held and started if nobody had, stale if that was long ago.
  lemma ApprovesOrFindsStale(init: System, a: System) returns (b: System)
    requires OnCourse(init, a) && a.s.gate.Some? && a.s.gate.value.kind == Approval
    requires a.s.claimedAt.Some? ==> a.s.claimedAt.value < a.now
    ensures OnCourse(init, b) && b.s == a.s.(claimedAt := b.s.claimedAt) && b.run == a.run && b.now == a.now
    ensures b.registry == a.registry
    ensures |b.people| == |a.people| + 1 && b.people[..|a.people|] == a.people && b.s.status == a.s.status
    ensures var p := b.people[|a.people|];
      if a.s.claimedAt.None? then p.Executed? && p.gate == a.s.gate.value && b.s.claimedAt == Some(a.now)
      else p.Stale? && p.gate == a.s.gate.value && b.s.claimedAt == a.s.claimedAt
  {
    Reach(init, a, Arrive);
    var arrived, who := Step(a, Arrive), |a.people|;
    assert HumanEnabled(arrived, Claim(who));
    Reach(init, arrived, Claim(who));
    b := Step(arrived, Claim(who));
    if a.s.claimedAt.None? {
      assert HumanEnabled(b, Execute(who));
      Reach(init, b, Execute(who));
      b := Step(b, Execute(who));
    }
  }

  ghost predicate AnswerTo(row: Row, id: CallId) {
    row.kind == User && Calls(row) == {} && Results(row) == {id}
  }

  // The parts of a one-call turn's answer: the result, with a handle when it may be cited, and the decision.
  function AnswerParts(a: System, answer: ToolResult, decision: Part): seq<Part> {
    [ResultPart(answer.callId, answer.content,
                if IsCited(answer, CitableIn(a.registry, a.s.rows)) then Some(Highest(a.s.rows) + 1) else None, answer.isError),
     decision]
  }

  lemma OneStamp(answer: ToolResult, citable: set<CallId>, from: nat)
    ensures Stamp([answer], citable, from)
         == [ResultPart(answer.callId, answer.content, if IsCited(answer, citable) then Some(from) else None, answer.isError)]
  {
    assert [answer][..0] == [];
    assert Stamp([], citable, from) == [] && CitedCount([], citable) == 0;
  }

  lemma OneAnswerIds(row: Row, id: CallId)
    requires |row.parts| == 2 && row.parts[0].ResultPart? && row.parts[0].callId == id
    requires row.parts[1].ApprovalPart? || row.parts[1].ElicitationPart?
    ensures Calls(row) == {} && Results(row) == {id}
  {
    assert row.parts[0] in row.parts;
  }

  lemma BuildsTheseParts(a: System, who: nat, answer: ToolResult, decision: Part)
    requires HumanEnabled(a, Build(who, answer, decision)) && a.people[who].gate.saved == []
    ensures BuildStep(a, who, answer, decision).people[who].parts == AnswerParts(a, answer, decision)
  {
    assert [] + [answer] == [answer] && answer in [answer];
    OneStamp(answer, CitableIn(a.registry, a.s.rows) * ResultIds([answer]), Highest(a.s.rows) + 1);
  }

  // Somebody stamps their answer off the transcript as it stands.
  lemma Stamps(init: System, a: System, who: nat, answer: ToolResult, decision: Part) returns (b: System)
    requires OnCourse(init, a) && HumanEnabled(a, Build(who, answer, decision)) && a.people[who].gate.saved == []
    ensures OnCourse(init, b) && |b.people| == |a.people| && b.people[who].Stamped?
    ensures b == a.(people := a.people[who := b.people[who]]) && b.people[who].gate == a.people[who].gate
    ensures b.people[who].parts == AnswerParts(a, answer, decision) && b.people[who].seen == |Handles(a.s.rows)|
  {
    Reach(init, a, Build(who, answer, decision));
    b := Step(a, Build(who, answer, decision));
    BuildsTheseParts(a, who, answer, decision);
  }

  // And reads the seq, at once or later.
  lemma Numbers(init: System, a: System, who: nat) returns (b: System)
    requires OnCourse(init, a) && who < |a.people| && a.people[who].Stamped?
    ensures OnCourse(init, b) && |b.people| == |a.people| && b.people[who].Built?
    ensures b == a.(people := a.people[who := b.people[who]]) && b.people[who].gate == a.people[who].gate
    ensures b.people[who].row == Row(|a.s.rows|, User, "", a.people[who].parts, a.now)
    ensures b.people[who].crossed <==> |Handles(a.s.rows)| != a.people[who].seen
  {
    NextSeqIsLength(a.s.rows);
    Reach(init, a, Number(who));
    b := Step(a, Number(who));
  }

  lemma Builds(init: System, a: System, who: nat, answer: ToolResult, decision: Part) returns (b: System)
    requires OnCourse(init, a) && HumanEnabled(a, Build(who, answer, decision)) && a.people[who].gate.saved == []
    ensures OnCourse(init, b) && |b.people| == |a.people| && b.people[who].Built? && !b.people[who].crossed
    ensures b == a.(people := a.people[who := b.people[who]])
    ensures b.people[who].row.seqNo == |a.s.rows| && AnswerTo(b.people[who].row, answer.callId)
    ensures b.people[who].row.parts == AnswerParts(a, answer, decision)
  {
    b := Stamps(init, a, who, answer, decision);
    b := Numbers(init, b, who);
    OneAnswerIds(b.people[who].row, answer.callId);
  }

  lemma Commits(init: System, a: System, who: nat) returns (b: System)
    requires OnCourse(init, a) && who < |a.people| && a.people[who].Built?
    requires a.people[who].row.seqNo == |a.s.rows| && !a.people[who].crossed && a.s.gate.Some? && a.s.status == ActionRequired
    ensures OnCourse(init, b) && b.now == a.now && b.s.rows == a.s.rows + [a.people[who].row]
    ensures b.s.gate.None? && b.s.status != Running && b.people == a.people[who := Cleared]
    ensures b.registry == a.registry && b.starts == a.starts && b.gates == a.gates && b.claims == a.claims
  {
    assert !Collides(a.s.rows, [a.people[who].row]);
    Reach(init, a, Resolve(who));
    b := Step(a, Resolve(who));
  }

  // Somebody answers a one-call turn, and a gate is set for the clear to find, whichever it is.
  lemma Answers(init: System, a: System, who: nat, answer: ToolResult, decision: Part) returns (b: System, row: Row)
    requires OnCourse(init, a) && HumanEnabled(a, Build(who, answer, decision)) && a.people[who].gate.saved == []
    requires a.s.gate.Some? && a.s.status == ActionRequired
    ensures OnCourse(init, b) && b.s.rows == a.s.rows + [row]
    ensures AnswerTo(row, answer.callId) && row.parts == AnswerParts(a, answer, decision)
    ensures b.s.gate.None? && b.s.status != Running && b.people == a.people[who := Cleared] && b.now == a.now
    ensures b.registry == a.registry && b.starts == a.starts && b.gates == a.gates && b.claims == a.claims
  {
    var built := Builds(init, a, who, answer, decision);
    row := built.people[who].row;
    b := Commits(init, built, who);
  }

  // And the run goes on.
  lemma Resumes(init: System, a: System, who: nat) returns (b: System)
    requires OnCourse(init, a) && who < |a.people| && a.people[who].Cleared? && a.s.gate.None? && a.s.status != Running
    ensures OnCourse(init, b) && FreshRun(b) && b.s.rows == a.s.rows && b.people == a.people[who := Gone]
    ensures b.now == a.now && b.registry == a.registry && b.starts == a.starts && b.gates == a.gates && b.claims == a.claims
    ensures b.run.value.nextEvidence == Highest(a.s.rows) + 1
  {
    Reach(init, a, Dispatch(who));
    b := Step(a, Dispatch(who));
    b := ReadsUp(init, b);
  }

  lemma AnswersAndResumes(init: System, a: System, who: nat) returns (b: System, row: Row)
    requires OnCourse(init, a) && who < |a.people| && (a.people[who].Executed? || a.people[who].Stale?)
    requires a.people[who].gate.saved == [] && a.s.gate.Some? && a.s.status == ActionRequired
    ensures OnCourse(init, b) && FreshRun(b) && b.now == a.now
    ensures b.s.rows == a.s.rows + [row] && AnswerTo(row, a.people[who].gate.callId)
    ensures b.people == a.people[who := Gone]
  {
    var answer := ToolResult(a.people[who].gate.callId, "", true);
    b, row := Answers(init, a, who, answer, ApprovalPart(answer.callId, true));
    b := Resumes(init, b, who);
    assert b.people == a.people[who := Gone];
  }

  // Two turns answered out of turn: the first twice, the second only after a third was asked.
  ghost predicate Crossed(rows: seq<Row>) {
    && |rows| == 6
    && rows[0] == Question(0, 1) && AnswerTo(rows[1], 1)
    && rows[2] == Question(2, 2) && AnswerTo(rows[3], 1)
    && rows[4] == Question(4, 3) && AnswerTo(rows[5], 2)
  }

  lemma QuestionIds(n: nat, id: CallId)
    ensures Calls(Question(n, id)) == {id} && Results(Question(n, id)) == {}
  {
  }

  // The cut falls after the second question and before its answer.
  lemma CrossedCut(rows: seq<Row>)
    requires Crossed(rows)
    ensures 2 < FirstUnanswered(rows, AllResults(rows)) <= 4
  {
    QuestionIds(0, 1);
    QuestionIds(2, 2);
    QuestionIds(4, 3);
    assert 1 in Results(rows[1]) && 2 in Results(rows[5]) && 3 in Calls(rows[4]);
    assert 3 !in AllResults(rows);
  }

  lemma CrossedIsNotReplayable(rows: seq<Row>)
    requires Crossed(rows)
    ensures !Seed.Replayable(SeedRows(rows))
  {
    CrossedCut(rows);
    UnwindNoErrors(rows);
    QuestionIds(2, 2);
    var seed := SeedRows(rows);
    assert 2 in Calls(seed[2]);
    assert forall r :: 2 < r < |seed| ==> 2 !in Results(seed[r]);
  }

  lemma AnsweredForIt(init: System, a: System) returns (b: System, row: Row)
    requires OnCourse(init, a) && a.s.gate == Some(Gate(1, Approval, [])) && a.s.claimedAt.None?
    requires a.people == [] && a.now == 0 && a.s.status == ActionRequired
    ensures OnCourse(init, b) && FreshRun(b) && b.s.rows == a.s.rows + [row] && AnswerTo(row, 1)
    ensures |b.people| == 2 && b.people[0].Executed? && b.people[0].gate == Gate(1, Approval, [])
  {
    b := ApprovesOrFindsStale(init, a);
    assert Enabled(b, Tick(1));
    Reach(init, b, Tick(1));
    b := ApprovesOrFindsStale(init, Step(b, Tick(1)));
    b, row := AnswersAndResumes(init, b, 1);
  }

  lemma FirstExchange(init: System) returns (a: System, row: Row)
    requires init == Initial(map[], 0, false, 0, 0)
    ensures OnCourse(init, a) && FreshRun(a)
    ensures |a.people| == 2 && a.people[0].Executed? && a.people[0].gate == Gate(1, Approval, [])
    ensures a.s.rows == [Question(0, 1), row] && AnswerTo(row, 1)
  {
    assert Runs(init, []) && After(init, []) == init;
    Reach(init, init, Start);
    a := ReadsUp(init, Step(init, Start));
    a := AsksAndParks(init, a, 1);
    a, row := AnsweredForIt(init, a);
  }

  lemma LateAnswerExchange(init: System, a: System) returns (b: System, row: Row)
    requires OnCourse(init, a) && FreshRun(a) && !Asked(a.s.rows, 2)
    requires |a.people| == 2 && a.people[0].Executed? && a.people[0].gate == Gate(1, Approval, [])
    ensures OnCourse(init, b) && FreshRun(b)
    ensures |b.people| == 3 && b.people[2].Executed? && b.people[2].gate == Gate(2, Approval, [])
    ensures b.s.rows == a.s.rows + [Question(|a.s.rows|, 2)] + [row] && AnswerTo(row, 1)
  {
    b := AsksAndParks(init, a, 2);
    b := ApprovesOrFindsStale(init, b);
    assert b.people[0] == b.people[..2][0];
    b, row := AnswersAndResumes(init, b, 0);
  }

  // The first turn answered twice over, and the second gate's reader still to answer.
  lemma AnsweredTwice(init: System) returns (b: System, first: Row, second: Row)
    requires init == Initial(map[], 0, false, 0, 0)
    ensures OnCourse(init, b) && FreshRun(b) && !Asked(b.s.rows, 3)
    ensures |b.people| == 3 && b.people[2].Executed? && b.people[2].gate == Gate(2, Approval, [])
    ensures b.s.rows == [Question(0, 1), first, Question(2, 2), second] && AnswerTo(first, 1) && AnswerTo(second, 1)
  {
    var a;
    a, first := FirstExchange(init);
    QuestionIds(0, 1);
    QuestionIds(2, 2);
    assert !Asked(a.s.rows, 2);
    b, second := LateAnswerExchange(init, a);
    assert b.s.rows == [Question(0, 1), first, Question(2, 2), second];
  }

  /** Not every reachable transcript has a replayable seed: answers that land on the wrong gate break it. */
  lemma CrossedAnswersBreakTheSeed()
    ensures exists a :: Reachable(Initial(map[], 0, false, 0, 0), a) && !Seed.Replayable(SeedRows(a.s.rows))
  {
    var init := Initial(map[], 0, false, 0, 0);
    var b, first, second := AnsweredTwice(init);
    var c := AsksAndParks(init, b, 3);
    var third;
    c, third := AnswersAndResumes(init, c, 2);
    CrossedIsNotReplayable(c.s.rows);
  }
}
