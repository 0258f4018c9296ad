/**
 Histories on which a claim crosses: two people read one gate, the first approves it, and
 the second's claim lands on the gate of the next turn. If the second approves too, the
 call is started again and its answer takes a second handle; if the second rejects, the
 approval already acted on is taken back.
 */
module CrossedClaims {
  import opened Wrappers
  import opened Transcript
  import opened SessionTables
  import opened TranscriptWrites
  import opened Protocol
  import opened ProtocolStatus
  import opened ProtocolGates
  import opened ProtocolTrail
  import opened Evidence
  import opened EvidenceOfHistories
  import opened Record
  import opened RecordOfHistories
  import opened CrossedAnswers

  // One gated tool, whose results may be cited.
  const RESTARTS: Registry := map["RestartService" := ToolInfo(Write, Policy.Approve, false, true)]

  function Fresh(): System {
    Initial(RESTARTS, 0, false, 0, 0)
  }

  const FIRST := Gate(1, GateKind.Approval, [])
  const SECOND := Gate(2, GateKind.Approval, [])

  // ---------- The first exchange, with a second reader left looking ----------

  lemma TwoRead() returns (a: System)
    ensures OnCourse(Fresh(), a) && a.registry == RESTARTS && a.now == 0 && a.run.None?
    ensures a.s.rows == [Question(0, 1)] && a.s.gate == Some(FIRST) && a.s.claimedAt.None? && a.s.status == ActionRequired
    ensures a.people == [Looking(FIRST, 1, None), Looking(FIRST, 1, None)]
    ensures a.gates == [FIRST] && a.claims == [] && a.starts == []
  {
    var init := Fresh();
    assert Runs(init, []) && After(init, []) == init;
    Reach(init, init, Start);
    a := ReadsUp(init, Step(init, Start));
    a := AsksAndParks(init, a, 1);
    Reach(init, a, Arrive);
    a := Step(a, Arrive);
    Reach(init, a, Arrive);
    a := Step(a, Arrive);
  }

  // Somebody still looking claims the gate that is set, and runs the call of the gate they read.
  lemma ClaimsAndExecutes(init: System, a: System, who: nat) returns (b: System)
    requires OnCourse(init, a) && who < |a.people| && a.people[who] == Looking(FIRST, 1, None) && GateClaimable(a.s)
    ensures OnCourse(init, b) && b == a.(s := a.s.(claimedAt := Some(a.now)), people := b.people, claims := b.claims, starts := b.starts)
    ensures b.people == a.people[who := Executed(FIRST, 1, Epoch(a))]
    ensures b.starts == a.starts + [Mark(Epoch(a), who, 1, 1)]
  {
    Reach(init, a, Claim(who));
    b := Step(a, Claim(who));
    Reach(init, b, Execute(who));
    b := Step(b, Execute(who));
    assert b.people == a.people[who := Executed(FIRST, 1, Epoch(a))];
  }

  function Ran(): ToolResult {
    ToolResult(1, "", false)
  }

  function FirstAnswer(row: Row): bool {
    row.parts == [ResultPart(1, "", Some(1), false), ApprovalPart(1, true)]
  }

  lemma MayBeCited(rows: seq<Row>)
    requires rows != [] && rows[0] == Question(0, 1)
    ensures 1 in CitableIn(RESTARTS, rows)
  {
    var p := CallPart(1, "RestartService");
    assert rows[0].parts[0] == p && p in rows[0].parts && IsCitable(RESTARTS, p.name);
  }

  lemma NoHandleYet(rows: seq<Row>)
    requires rows == [Question(0, 1)]
    ensures Highest(rows) == 0
  {
    assert rows[..0] == [] && rows[0].parts[..0] == [];
    assert PartHandles(rows[0].parts) == [];
    assert Handles(rows) == [];
  }

  lemma FirstExecuted() returns (b: System)
    ensures OnCourse(Fresh(), b) && b.registry == RESTARTS && b.now == 0
    ensures b.s.rows == [Question(0, 1)] && b.s.gate == Some(FIRST) && b.s.claimedAt == Some(0) && b.s.status == ActionRequired
    ensures b.people == [Executed(FIRST, 1, 1), Looking(FIRST, 1, None)]
    ensures b.gates == [FIRST] && b.starts == [Mark(1, 0, 1, 1)]
  {
    b := TwoRead();
    b := ClaimsAndExecutes(Fresh(), b, 0);
  }

  lemma FirstAnswers() returns (a: System, row: Row)
    ensures OnCourse(Fresh(), a) && a.registry == RESTARTS && a.now == 0 && a.s.gate.None? && a.s.status != Running
    ensures a.s.rows == [Question(0, 1), row] && FirstAnswer(row) && AnswerTo(row, 1)
    ensures a.people == [Cleared, Looking(FIRST, 1, None)]
    ensures a.gates == [FIRST] && a.starts == [Mark(1, 0, 1, 1)]
  {
    var b := FirstExecuted();
    MayBeCited(b.s.rows);
    NoHandleYet(b.s.rows);
    a, row := Answers(Fresh(), b, 0, Ran(), ApprovalPart(1, true));
  }

  lemma FirstApproved() returns (a: System, row: Row)
    ensures OnCourse(Fresh(), a) && FreshRun(a) && a.registry == RESTARTS && a.now == 0
    ensures a.s.rows == [Question(0, 1), row] && FirstAnswer(row) && AnswerTo(row, 1)
    ensures a.people == [Gone, Looking(FIRST, 1, None)]
    ensures a.gates == [FIRST] && a.starts == [Mark(1, 0, 1, 1)]
  {
    var b;
    b, row := FirstAnswers();
    a := Resumes(Fresh(), b, 0);
  }

  // ---------- The claim that crosses ----------

  // The run parks the next turn while the second reader still looks at the first gate.
  lemma NextTurnParks(init: System, a: System) returns (b: System)
    requires OnCourse(init, a) && FreshRun(a) && |a.s.rows| == 2 && a.s.rows[0] == Question(0, 1) && Calls(a.s.rows[1]) == {}
    requires a.people == [Gone, Looking(FIRST, 1, None)] && a.gates == [FIRST]
    ensures OnCourse(init, b) && b.s.rows == a.s.rows + [Question(2, 2)] && b.now == a.now && b.registry == a.registry
    ensures b.s.gate == Some(SECOND) && b.s.claimedAt.None? && b.s.status == ActionRequired
    ensures b.people == a.people && b.gates == [FIRST, SECOND] && b.starts == a.starts
  {
    QuestionIds(0, 1);
    assert !Asked(a.s.rows, 2);
    b := AsksAndParks(init, a, 2);
  }

  /** An approved call is started twice: the second start comes under a claim of the next turn's gate. */
  lemma CrossedClaimStartsTwice()
    ensures exists a :: Reachable(Fresh(), a) && a.starts == [Mark(1, 0, 1, 1), Mark(2, 1, 1, 1)]
              && a.gates == [FIRST, SECOND]
  {
    var a, row := FirstApproved();
    var b := NextTurnParks(Fresh(), a);
    b := ClaimsAndExecutes(Fresh(), b, 1);
    assert b.starts == [Mark(1, 0, 1, 1), Mark(2, 1, 1, 1)];
  }

  // ---------- What it does to the record ----------

  ghost predicate DeskReachable(d: Desk, later: Desk) {
    exists deeds :: Does(d, deeds) && Done(d, deeds) == later
  }

  lemma {:induction false} DoesThen(d: Desk, deeds: seq<Deed>, more: seq<Deed>)
    requires Does(d, deeds) && Does(Done(d, deeds), more)
    ensures Does(d, deeds + more) && Done(d, deeds + more) == Done(Done(d, deeds), more)
    decreases |deeds|
  {
    if deeds == [] {
      assert [] + more == more;
    } else {
      var all := deeds + more;
      assert all[0] == deeds[0] && all[1..] == deeds[1..] + more;
      DoesThen(DeskStep(d, deeds[0]), deeds[1..], more);
    }
  }

  lemma DeskThen(d: Desk, e: Desk, f: Desk)
    requires DeskReachable(d, e) && DeskReachable(e, f)
    ensures DeskReachable(d, f)
  {
    var deeds :| Does(d, deeds) && Done(d, deeds) == e;
    var more :| Does(e, more) && Done(e, more) == f;
    DoesThen(d, deeds, more);
  }

  function AsMoves(history: seq<Event>): seq<Deed> {
    seq(|history|, i requires 0 <= i < |history| => Moves(history[i]))
  }

  lemma {:induction false} MovesAreDeeds(d: Desk, history: seq<Event>)
    requires Runs(d.a, history)
    ensures Does(d, AsMoves(history)) && Done(d, AsMoves(history)) == d.(a := After(d.a, history))
    decreases |history|
  {
    if history != [] {
      MovesAreDeeds(DeskStep(d, Moves(history[0])), history[1..]);
      assert AsMoves(history)[1..] == AsMoves(history[1..]);
    }
  }

  lemma DeskMoves(d: Desk, a: System)
    requires Reachable(d.a, a)
    ensures DeskReachable(d, d.(a := a))
  {
    var history :| Runs(d.a, history) && After(d.a, history) == a;
    MovesAreDeeds(d, history);
  }

  lemma DeskFiles(d: Desk, act: Act, at: nat)
    requires Allowed(d, Files(act, at))
    ensures DeskReachable(d, DeskStep(d, Files(act, at)))
  {
    var deeds := [Files(act, at)];
    assert deeds[1..] == [] && Does(DeskStep(d, deeds[0]), []);
    assert Does(d, deeds) && Done(d, deeds) == DeskStep(d, deeds[0]);
  }

  function Blank(): Desk {
    Desk(Fresh(), EMPTY, [], 0)
  }

  lemma ReachableIsSturdy(a: System)
    requires Reachable(Fresh(), a)
    ensures Sturdy(a)
  {
    InitialIsSturdy(RESTARTS, 0, false, 0, 0);
    var history :| Runs(Fresh(), history) && After(Fresh(), history) == a;
    HistoryKeepsSturdy(Fresh(), history);
  }

  lemma ReachableDeskIsKept(l: Desk)
    requires DeskReachable(Blank(), l)
    ensures DeskKept(l)
  {
    InitialIsSturdy(RESTARTS, 0, false, 0, 0);
    NewDeskIsKept(Fresh());
    var deeds :| Does(Blank(), deeds) && Done(Blank(), deeds) == l;
    DeedsKeepDesk(Blank(), deeds);
  }

  lemma ReachThrough(init: System, a: System, b: System)
    requires Reachable(init, a) && Reachable(a, b)
    ensures Reachable(init, b)
  {
    var h :| Runs(init, h) && After(init, h) == a;
    var g :| Runs(a, g) && After(a, g) == b;
    RunsThen(init, h, g);
  }

  lemma {:induction false} RunsThen(a: System, history: seq<Event>, more: seq<Event>)
    requires Runs(a, history) && Runs(After(a, history), more)
    ensures Runs(a, history + more) && After(a, history + more) == After(After(a, history), more)
    decreases |history|
  {
    if history == [] {
      assert [] + more == more;
    } else {
      var all := history + more;
      assert all[0] == history[0] && all[1..] == history[1..] + more;
      RunsThen(Step(a, history[0]), history[1..], more);
    }
  }

  // The trail after the first approval: the question, its result under e1, and the decision.
  lemma FirstTrail(rows: seq<Row>, row: Row)
    requires rows == [Question(0, 1), row] && FirstAnswer(row)
    ensures Trail(rows) == Question(0, 1).parts + row.parts
    ensures Carries(Trail(rows)[1], 1) && Trail(rows)[1].callId == 1 && |Trail(rows)| == 3
    ensures LastOutput(Trail(rows), 1).Some? && LastDecision(Trail(rows), 1) == Some(true)
  {
    assert rows[..1] == [Question(0, 1)] && rows[..1][..0] == [];
    assert Trail(rows[..1]) == Trail([]) + Question(0, 1).parts;
    var trail := Trail(rows);
    assert trail[..3] == trail && trail[..2] == [trail[0], trail[1]] && trail[2].ApprovalPart?;
    assert LastOutput(trail, 1) == LastOutput(trail[..2], 1);
  }

  ghost predicate AtFirst(a: System, first: Row) {
    && OnCourse(a, a) && Reachable(Fresh(), a) && FreshRun(a) && a.registry == RESTARTS && a.now == 0
    && a.s.rows == [Question(0, 1), first] && AnswerTo(first, 1)
    && a.people == [Gone, Looking(FIRST, 1, None)] && a.gates == [FIRST]
  }

  // The first approval, on the desk, and the trail it left.
  lemma FirstApprovedHere() returns (d: Desk, row: Row)
    ensures DeskReachable(Blank(), d) && d == Blank().(a := d.a)
    ensures AtFirst(d.a, row) && FirstAnswer(row) && Sturdy(d.a)
  {
    var a;
    a, row := FirstApproved();
    DeskMoves(Blank(), a);
    d := Blank().(a := a);
    ReachableIsSturdy(a);
    assert Runs(a, []) && After(a, []) == a;
  }

  // The second reader's answer, which lands on the next turn's gate.
  ghost predicate SecondAnswer(rows: seq<Row>, first: Row, second: Row, answer: ToolResult, approved: bool) {
    && rows == [Question(0, 1), first, Question(2, 2), second]
    && |second.parts| == 2 && second.parts[1] == ApprovalPart(1, approved)
    && second.parts[0].ResultPart? && second.parts[0].callId == 1
    && (second.parts[0].evidence.Some? <==> !answer.isError)
  }

  lemma SecondClaims(a: System, first: Row, run: bool) returns (b: System)
    requires AtFirst(a, first)
    ensures OnCourse(a, b) && b.s.rows == [Question(0, 1), first, Question(2, 2)] && b.registry == RESTARTS
    ensures b.s.gate.Some? && b.s.status == ActionRequired && |b.people| == 2
    ensures (if run then b.people[1].Executed? else b.people[1].Held?) && b.people[1].gate == FIRST
  {
    b := NextTurnParks(a, a);
    if run {
      b := ClaimsAndExecutes(a, b, 1);
    } else {
      Reach(a, b, Claim(1));
      b := Step(b, Claim(1));
    }
  }

  lemma SecondAnswers(a: System, first: Row, run: bool) returns (b: System, row: Row)
    requires AtFirst(a, first)
    ensures Reachable(a, b) && !b.slipped && SecondAnswer(b.s.rows, first, row, ToolResult(1, "", !run), run)
  {
    b := SecondClaims(a, first, run);
    MayBeCited(b.s.rows);
    b, row := Answers(a, b, 1, ToolResult(1, "", !run), ApprovalPart(1, run));
  }

  // The trail's tail past the first exchange.
  lemma SecondTrail(rows: seq<Row>, first: Row, second: Row)
    requires rows == [Question(0, 1), first, Question(2, 2), second]
    ensures Trail(rows[2..]) == Question(2, 2).parts + second.parts
    ensures rows == rows[..2] + rows[2..] && rows[..2] == [Question(0, 1), first]
  {
    var more := rows[2..];
    assert more == [Question(2, 2), second];
    assert more[..1] == [Question(2, 2)] && more[..1][..0] == [];
    assert Trail(more[..1]) == Trail([]) + Question(2, 2).parts;
  }

  const CITES_FIRST := RecordThis(FindingInput("", RootCause, [1], None, None))

  lemma FirstIsIssued(rows: seq<Row>, first: Row)
    requires Named(Trail(rows)) && rows == [Question(0, 1), first] && FirstAnswer(first)
    ensures 1 in Issued(Entries(Trail(rows)))
  {
    FirstTrail(rows, first);
    assert !Reissued(Trail(rows), 1);
    var k := CarrierResolves(rows, 1, 1);
    IssuedIsResolved(rows, 1);
  }

  lemma FirstMayBeCited(d: Desk, first: Row)
    requires Sturdy(d.a) && d.a.s.rows == [Question(0, 1), first] && FirstAnswer(first)
    ensures Allowed(d, Files(CITES_FIRST, 2))
  {
    assert d.a.s.rows[..2] == d.a.s.rows;
    FirstIsIssued(d.a.s.rows, first);
  }

  // After an act on the record, the second reader answers and the transcript grows past what was read.
  lemma FilesThenCrosses(d: Desk, first: Row, act: Act, run: bool) returns (l: Desk, second: Row)
    requires DeskReachable(Blank(), d) && AtFirst(d.a, first) && Allowed(d, Files(act, 2))
    ensures DeskReachable(Blank(), l) && l == DeskStep(d, Files(act, 2)).(a := l.a)
    ensures SecondAnswer(l.a.s.rows, first, second, ToolResult(1, "", !run), run) && Sturdy(l.a) && !l.a.slipped
  {
    var e := DeskStep(d, Files(act, 2));
    DeskFiles(d, act, 2);
    DeskThen(Blank(), d, e);
    var b;
    b, second := SecondAnswers(e.a, first, run);
    DeskMoves(e, b);
    l := e.(a := b);
    DeskThen(Blank(), e, l);
    ReachThrough(Fresh(), e.a, b);
    ReachableIsSturdy(b);
  }

  const CITING := Finding(1, "", RootCause, None, None, [1])

  lemma RecordedHere(d: Desk)
    requires Allowed(d, Files(CITES_FIRST, 2)) && d.r == EMPTY
    ensures DeskStep(d, Files(CITES_FIRST, 2)).r.findings == [CITING]
  {
  }

  lemma RecordsThenCrosses() returns (l: Desk, first: Row, second: Row)
    ensures DeskReachable(Blank(), l) && Sturdy(l.a) && !l.a.slipped && l.r.findings == [CITING]
    ensures FirstAnswer(first) && SecondAnswer(l.a.s.rows, first, second, ToolResult(1, "", false), true)
  {
    var d;
    d, first := FirstApprovedHere();
    FirstMayBeCited(d, first);
    RecordedHere(d);
    l, second := FilesThenCrosses(d, first, CITES_FIRST, true);
  }

  /** A recorded finding loses its citation: the call it cites is answered again, under another handle. */
  lemma LateAnswerLosesACitation()
    ensures exists d, f :: DeskReachable(Blank(), d) && f in d.r.findings && 1 in f.evidence
              && forall k: nat :: !Resolves(Entries(Trail(d.a.s.rows)), 1, k)
  {
    var l, first, second := RecordsThenCrosses();
    CitationIsLost(l.a.s.rows, first, second);
    assert CITING in l.r.findings;
  }

  lemma CitationIsLost(rows: seq<Row>, first: Row, second: Row)
    requires Consecutive(rows) && Named(Trail(rows)) && FirstAnswer(first)
    requires SecondAnswer(rows, first, second, ToolResult(1, "", false), true)
    ensures forall k: nat :: !Resolves(Entries(Trail(rows)), 1, k)
  {
    SecondTrail(rows, first, second);
    FirstTrail(rows[..2], first);
    TrailConcat(rows[..2], rows[2..]);
    var trail := Trail(rows);
    assert trail[1] == Trail(rows[..2])[1];
    assert trail[4] == Trail(rows[2..])[1] == second.parts[0];
    assert HandledFor(trail[4], trail[1].callId);
    HandleResolvesIff(rows, 1, 1);
  }

  lemma ComposedHere(d: Desk, headline: string, approvedWrites: nat, at: nat)
    requires Allowed(d, Files(ComposeReport(headline, approvedWrites), at))
    ensures var e := DeskStep(d, Files(ComposeReport(headline, approvedWrites), at));
      e.r.report.Some? && e.recorded == 0 && e.read == d.a.s.rows[..at]
  {
  }

  lemma ComposesThenCrosses() returns (l: Desk, first: Row, second: Row)
    ensures DeskReachable(Blank(), l) && Sturdy(l.a) && l.r.report.Some? && l.recorded == 0
    ensures FirstAnswer(first) && SecondAnswer(l.a.s.rows, first, second, ToolResult(1, "", true), false)
    ensures l.read == l.a.s.rows[..2]
  {
    var d;
    d, first := FirstApprovedHere();
    var n := ApprovedWrites(EntriesAt(d, 2));
    ComposedHere(d, "", n, 2);
    l, second := FilesThenCrosses(d, first, ComposeReport("", n), false);
    assert d.a.s.rows[..2] == l.a.s.rows[..2];
  }

  /** A report can be behind with nothing new: a late rejection takes back an approval it had counted. */
  lemma LateRejectionUnreleases()
    ensures exists d :: DeskReachable(Blank(), d) && d.r.report.Some? && d.recorded == 0
              && NewlyReleased(d) == {} && Unreleased(d) == {1} && Behind(d)
  {
    var l, first, second := ComposesThenCrosses();
    PrefixStands(l.a.s.rows, 2);
    ReleasedAtFirst(l.a.s.rows[..2], first);
    TakenBack(l.a.s.rows, first, second);
    ReachableDeskIsKept(l);
    BehindCounts(l);
  }

  lemma {:induction false} OnlyDecisions(trail: seq<Part>, id: CallId)
    requires forall p :: p in trail && p.ApprovalPart? ==> p.callId != id
    ensures LastDecision(trail, id) == None
    decreases |trail|
  {
    if trail != [] {
      OnlyDecisions(trail[..|trail| - 1], id);
      assert trail[|trail| - 1] in trail;
    }
  }

  lemma ReleasedAtFirst(rows: seq<Row>, first: Row)
    requires Named(Trail(rows)) && rows == [Question(0, 1), first] && FirstAnswer(first)
    ensures ReleasedIn(rows) == {1}
  {
    FirstTrail(rows, first);
    forall id
      ensures id in ReleasedIn(rows) <==> id == 1
    {
      ReleasedMeans(rows, id);
      if id != 1 {
        OnlyDecisions(Trail(rows), id);
      }
    }
  }

  lemma SecondDecision(rows: seq<Row>, first: Row, second: Row)
    requires FirstAnswer(first) && SecondAnswer(rows, first, second, ToolResult(1, "", true), false)
    ensures LastDecision(Trail(rows), 1) == Some(false)
    ensures forall p :: p in Trail(rows) && p.ApprovalPart? ==> p.callId == 1
  {
    SecondTrail(rows, first, second);
    FirstTrail(rows[..2], first);
    TrailConcat(rows[..2], rows[2..]);
    var trail := Trail(rows);
    assert trail[|trail| - 1] == second.parts[1];
  }

  lemma TakenBack(rows: seq<Row>, first: Row, second: Row)
    requires NamedRows(rows) && FirstAnswer(first)
    requires SecondAnswer(rows, first, second, ToolResult(1, "", true), false)
    ensures ReleasedIn(rows) == {}
  {
    SecondDecision(rows, first, second);
    forall id
      ensures id !in ReleasedIn(rows)
    {
      ReleasedMeans(rows, id);
      if id != 1 {
        OnlyDecisions(Trail(rows), id);
      }
    }
  }
}
