/**
 Answering a gate, as one request run alone (apps/api/src/session/human-input.ts).
 Protocol.dfy has the same request cut into its steps, against every other.
 */
module HumanInput {
  import opened Wrappers
  import opened Transcript
  import opened SessionTables
  import opened AlertTable
  import opened Promotion
  import opened Store
  import opened Dispatcher

  datatype Decision = ToApprove | ToReject | NoDecision

  datatype ApprovalStatus = Approved | Rejected | Replied | Continued

  datatype Reply = Refused(code: nat) | Settled(status: ApprovalStatus)

  const MAY_HAVE_RUN := "This call was already attempted and it may have run."
  const REJECTED := "The user rejected this call, so it did not run and nothing on the system changed."

  // The call a gate is about: made under this id, in the first row that made one.
  ghost predicate CallOf(rows: seq<Row>, id: CallId, call: Part) {
    && call.CallPart? && call.callId == id
    && exists i :: 0 <= i < |rows| && call in rows[i].parts && forall j :: 0 <= j < i ==> id !in Calls(rows[j])
  }

  // findToolCall: the first call made under this id.
  function FindCall(rows: seq<Row>, id: CallId): (call: Option<Part>)
    ensures call.None? <==> !Asked(rows, id)
    ensures call.Some? ==> CallOf(rows, id, call.value)
  {
    if rows == [] then None
    else if FindIn(rows[0].parts, id).Some? then FindIn(rows[0].parts, id)
    else FindCall(rows[1..], id)
  }

  function FindIn(parts: seq<Part>, id: CallId): (call: Option<Part>)
    ensures call.None? <==> forall p :: p in parts && p.CallPart? ==> p.callId != id
    ensures call.Some? ==> call.value in parts && call.value.CallPart? && call.value.callId == id
  {
    if parts == [] then None
    else if parts[0].CallPart? && parts[0].callId == id then Some(parts[0])
    else FindIn(parts[1..], id)
  }

  // What the request must be, before anybody takes the claim.
  predicate WellFormed(kind: GateKind, decision: Decision, text: string) {
    match kind
    case Continue => true
    case Clarification => decision == NoDecision && text != ""
    case Approval => decision != NoDecision
  }

  datatype Hold = Held | Stale | Busy

  // The claim, or its age when somebody else has it.
  function HoldOf(s: Session, ceilingMs: int, now: int): Hold {
    match s.claimedAt
    case None => Held
    case Some(at) => if now - at <= ceilingMs then Busy else Stale
  }

  // The whole answer, given the claim: the decision part, the call's own result, and the status reported.
  function AnswerTo(gate: Gate, hold: Hold, decision: Decision, text: string, ran: (string, bool)): (ToolResult, Part, ApprovalStatus) {
    if hold == Stale then (ToolResult(gate.callId, MAY_HAVE_RUN, true), ApprovalPart(gate.callId, true), Approved)
    else if gate.kind == Clarification then (ToolResult(gate.callId, text, false), ElicitationPart(gate.callId, ""), Replied)
    else if decision == ToApprove then (ToolResult(gate.callId, ran.0, ran.1), ApprovalPart(gate.callId, true), Approved)
    else (ToolResult(gate.callId, REJECTED + text, true), ApprovalPart(gate.callId, false), Rejected)
  }

  function AnsweredRow(registry: Registry, rows: seq<Row>, gate: Gate, answer: ToolResult, decision: Part, now: int): Row {
    var results := gate.saved + [answer];
    AnswerRow(rows, results, CitableIn(registry, rows) * ResultIds(results), decision, now)
  }

  // The session once its answered turn is committed and its run dispatched, unless one runs already.
  function Unpaused(registry: Registry, s: Session, f: AlertFacts, gate: Gate, answer: ToolResult, decision: Part, now: int): Session {
    var answered := SessionTables.Answered(s, [AnsweredRow(registry, s.rows, gate, answer, decision, now)], f);
    if answered.status == Running then answered else answered.(status := Running, stoppedAt := None)
  }

  lemma UnpausedIs(registry: Registry, s: Session, f: AlertFacts, gate: Gate, answer: ToolResult, decision: Part, now: int)
    ensures var r := Unpaused(registry, s, f, gate, answer, decision, now);
      && r.rows == s.rows + [AnsweredRow(registry, s.rows, gate, answer, decision, now)]
      && r.gate.None? && r.claimedAt.None? && r.status == Running
  {
  }

  lemma AnsweredRowIds(registry: Registry, rows: seq<Row>, gate: Gate, answer: ToolResult, decision: Part, now: int)
    requires answer.callId == gate.callId && (decision.ApprovalPart? || decision.ElicitationPart?)
    ensures var row := AnsweredRow(registry, rows, gate, answer, decision, now);
      Results(row) == ResultIds(gate.saved) + {gate.callId} && Calls(row) == {}
  {
    var results := gate.saved + [answer];
    var citable := CitableIn(registry, rows) * ResultIds(results);
    var row := AnswerRow(rows, results, citable, decision, now);
    var bare := row.(parts := Stamp(results, citable, Highest(rows) + 1));
    StampIds(results, citable, Highest(rows) + 1, bare);
    assert row.parts == bare.parts + [decision];
    assert Results(row) == Results(bare) && Calls(row) == Calls(bare);
    assert ResultIds(results) == ResultIds(gate.saved) + {answer.callId};
  }

  // The row an answer is stored in: the saved results and the gated call's own, each in its place and citable ones under
  // a handle, and the decision last.
  ghost predicate StoredTurn(registry: Registry, rows: seq<Row>, gate: Gate, row: Row) {
    var n := |gate.saved|;
    && row.kind == User && |row.parts| == n + 2
    && row.parts[n].ResultPart? && row.parts[n].callId == gate.callId
    && (forall i :: 0 <= i < n ==>
          && row.parts[i].ResultPart?
          && row.parts[i] == ResultPart(gate.saved[i].callId, gate.saved[i].content, row.parts[i].evidence, gate.saved[i].isError))
    && (forall i :: 0 <= i <= n ==>
          && row.parts[i].ResultPart?
          && (row.parts[i].evidence.Some? <==> !row.parts[i].isError && CitableCall(registry, rows, row.parts[i].callId)))
  }

  // The transcript holds this call, made under the name of a tool whose results can be cited.
  ghost predicate CitableCall(registry: Registry, rows: seq<Row>, id: CallId) {
    exists i, p :: 0 <= i < |rows| && p in rows[i].parts && p.CallPart? && p.callId == id
      && p.name in registry && registry[p.name].citable
  }

  lemma AnsweredRowTells(registry: Registry, rows: seq<Row>, gate: Gate, answer: ToolResult, decision: Part, now: int)
    requires answer.callId == gate.callId
    ensures var row, n := AnsweredRow(registry, rows, gate, answer, decision, now), |gate.saved|;
      && StoredTurn(registry, rows, gate, row) && row.parts[n + 1] == decision
      && row.parts[n].output == answer.content && row.parts[n].isError == answer.isError
  {
    var results := gate.saved + [answer];
    var citable := CitableIn(registry, rows) * ResultIds(results);
    StampTells(results, citable, Highest(rows) + 1);
    forall i | 0 <= i < |results|
      ensures results[i].callId in citable <==> CitableCall(registry, rows, results[i].callId)
    {
      assert results[i] in results;
    }
  }

  lemma AnsweredRowHandles(registry: Registry, rows: seq<Row>, gate: Gate, answer: ToolResult, decision: Part, now: int)
    requires decision.ApprovalPart? || decision.ElicitationPart?
    ensures var handles := PartHandles(AnsweredRow(registry, rows, gate, answer, decision, now).parts);
      handles == Range(Highest(rows) + 1, |handles|)
  {
    var results := gate.saved + [answer];
    var citable := CitableIn(registry, rows) * ResultIds(results);
    StampHandles(results, citable, Highest(rows) + 1);
    PartHandlesSnoc(Stamp(results, citable, Highest(rows) + 1), decision);
  }

  /** A settled gate is gone and its run is on its way; the transcript gained one row, which answers exactly the
      saved calls and the gated one, under the handles that come next. */
  lemma UnpausedAnswersTheTurn(registry: Registry, s: Session, f: AlertFacts, gate: Gate, answer: ToolResult,
                               decision: Part, now: int)
    requires answer.callId == gate.callId && (decision.ApprovalPart? || decision.ElicitationPart?)
    ensures var r, n := Unpaused(registry, s, f, gate, answer, decision, now), |s.rows|;
      && r.gate.None? && r.claimedAt.None? && r.status == Running
      && |r.rows| == n + 1 && r.rows[..n] == s.rows
      && Results(r.rows[n]) == ResultIds(gate.saved) + {gate.callId} && Calls(r.rows[n]) == {}
      && PartHandles(r.rows[n].parts) == Range(Highest(s.rows) + 1, |PartHandles(r.rows[n].parts)|)
  {
    UnpausedIs(registry, s, f, gate, answer, decision, now);
    AnsweredRowIds(registry, s.rows, gate, answer, decision, now);
    AnsweredRowHandles(registry, s.rows, gate, answer, decision, now);
  }

  // Holding the claim makes no difference to what the answer leaves: it goes with the gate.
  lemma ClaimGoesWithTheGate(registry: Registry, s: Session, f: AlertFacts, gate: Gate, answer: ToolResult,
                             decision: Part, now: int, at: Option<int>)
    ensures Unpaused(registry, s.(claimedAt := at), f, gate, answer, decision, now)
         == Unpaused(registry, s, f, gate, answer, decision, now)
  {
  }

  // answeredTurn, appendRowsAndResolve and dispatch, in a session whose gate is set.
  method Unpause(d: Dispatcher, registry: Registry, id: SessionId, gate: Gate, answer: ToolResult, decision: Part, now: int)
    returns (settled: bool)
    requires id in d.db.sessions && d.db.sessions[id].gate.Some?
    modifies d`controllers, d.db`sessions
    ensures settled
    ensures d.db.sessions == old(d.db.sessions)[id := Unpaused(registry, old(d.db.sessions)[id], FactsOf(d.db.alerts, id),
                                                              gate, answer, decision, now)]
  {
    var rows := d.db.sessions[id].rows;
    var row := AnsweredRow(registry, rows, gate, answer, decision, now);
    NextSeqIsPast(rows);
    var outcome := d.db.AppendRowsAndResolve(id, [row]);
    settled := outcome == Won;
    if settled {
      var _ := d.Start(id);
    }
  }

  // What refuses a request, and with which code: no gate, a call the transcript does not hold, a malformed
  // reply, or a claim younger than the ceiling.
  function Refusal(s: Session, decision: Decision, text: string, ceilingMs: int, now: int): Option<nat> {
    if s.gate.None? then Some(409)
    else if s.gate.value.kind == Continue then None
    else if FindCall(s.rows, s.gate.value.callId).None? then Some(409)
    else if !WellFormed(s.gate.value.kind, decision, text) then Some(400)
    else if HoldOf(s, ceilingMs, now) == Busy then Some(409)
    else None
  }

  // What a settled call stores and reports, by what the gate asked, who held the claim, and what was said. `ran` is what
  // executing the call came back with.
  ghost predicate SettledAs(gate: Gate, claimedAt: Option<int>, decision: Decision, text: string, ran: (string, bool),
                            answer: Part, part: Part, status: ApprovalStatus)
    requires answer.ResultPart?
  {
    if claimedAt.Some? then
      answer.output == MAY_HAVE_RUN && answer.isError && part == ApprovalPart(gate.callId, true) && status == Approved
    else if gate.kind == Clarification then
      answer.output == text && !answer.isError && part.ElicitationPart? && part.callId == gate.callId && status == Replied
    else if decision == ToApprove then
      (answer.output, answer.isError) == ran && part == ApprovalPart(gate.callId, true) && status == Approved
    else
      answer.output == REJECTED + text && answer.isError && part == ApprovalPart(gate.callId, false) && status == Rejected
  }

  // The transcript gained the answered turn, settled so for the call the gate was about.
  ghost predicate TurnSettled(registry: Registry, s: Session, decision: Decision, text: string,
                              execute: Part -> (string, bool), later: Session, status: ApprovalStatus)
    requires s.gate.Some?
  {
    var (gate, n) := (s.gate.value, |s.rows|);
    && |later.rows| == n + 1 && later.rows[..n] == s.rows && StoredTurn(registry, s.rows, gate, later.rows[n])
    && exists call :: CallOf(s.rows, gate.callId, call)
         && SettledAs(gate, s.claimedAt, decision, text, execute(call),
                      later.rows[n].parts[|gate.saved|], later.rows[n].parts[|gate.saved| + 1], status)
  }

  lemma AnswerMeans(gate: Gate, s: Session, decision: Decision, text: string, ran: (string, bool), ceilingMs: int, now: int,
                    evidence: Option<nat>)
    requires HoldOf(s, ceilingMs, now) != Busy && gate.kind != Continue && WellFormed(gate.kind, decision, text)
    ensures var (answer, part, status) := AnswerTo(gate, HoldOf(s, ceilingMs, now), decision, text, ran);
      && answer.callId == gate.callId
      && SettledAs(gate, s.claimedAt, decision, text, ran,
                   ResultPart(gate.callId, answer.content, evidence, answer.isError), part, status)
  {
  }

  lemma AnswerSettles(registry: Registry, s: Session, f: AlertFacts, decision: Decision, text: string,
                      execute: Part -> (string, bool), ceilingMs: int, now: int)
    requires s.gate.Some? && s.gate.value.kind != Continue && Refusal(s, decision, text, ceilingMs, now).None?
    ensures var call := FindCall(s.rows, s.gate.value.callId);
      && call.Some?
      && var (answer, part, status) := AnswerTo(s.gate.value, HoldOf(s, ceilingMs, now), decision, text, execute(call.value));
      TurnSettled(registry, s, decision, text, execute, Unpaused(registry, s, f, s.gate.value, answer, part, now), status)
  {
    var gate, call := s.gate.value, FindCall(s.rows, s.gate.value.callId);
    var (answer, part, status) := AnswerTo(gate, HoldOf(s, ceilingMs, now), decision, text, execute(call.value));
    var row := AnsweredRow(registry, s.rows, gate, answer, part, now);
    UnpausedIs(registry, s, f, gate, answer, part, now);
    AnsweredRowTells(registry, s.rows, gate, answer, part, now);
    AnswerMeans(gate, s, decision, text, execute(call.value), ceilingMs, now, row.parts[|gate.saved|].evidence);
  }

  // Why a request is turned away. `at` is the claim somebody else took.
  ghost predicate TurnedAway(s: Session, decision: Decision, text: string, ceilingMs: int, now: int, code: nat) {
    if s.gate.None? then code == 409
    else if s.gate.value.kind == Continue then false
    else if !Asked(s.rows, s.gate.value.callId) then code == 409
    else if s.gate.value.kind == Clarification && (decision != NoDecision || text == "") then code == 400
    else if s.gate.value.kind == Approval && decision == NoDecision then code == 400
    else code == 409 && s.claimedAt.Some? && now - s.claimedAt.value <= ceilingMs
  }

  lemma RefusalMeans(s: Session, decision: Decision, text: string, ceilingMs: int, now: int)
    ensures forall code: nat :: Refusal(s, decision, text, ceilingMs, now) == Some(code) <==>
              TurnedAway(s, decision, text, ceilingMs, now, code)
  {
  }

  // Past every refusal: the claim, the call when it may run, and the answered turn, as AnswerTo has it.
  method StoreAnswer(d: Dispatcher, registry: Registry, id: SessionId, decision: Decision, text: string,
                     execute: Part -> (string, bool), ceilingMs: int, now: int)
    returns (status: ApprovalStatus, ran: bool)
    requires id in d.db.sessions
    requires var s := d.db.sessions[id];
      Refusal(s, decision, text, ceilingMs, now).None? && s.gate.Some? && s.gate.value.kind != Continue
    modifies d`controllers, d.db`sessions
    ensures var s := old(d.db.sessions)[id];
      ran <==> s.gate.value.kind == Approval && decision == ToApprove && s.claimedAt.None?
    ensures var s := old(d.db.sessions)[id];
      var call := FindCall(s.rows, s.gate.value.callId);
      call.Some? &&
      var (answer, part, reported) := AnswerTo(s.gate.value, HoldOf(s, ceilingMs, now), decision, text, execute(call.value));
      && status == reported
      && d.db.sessions == old(d.db.sessions)[id := Unpaused(registry, s, FactsOf(d.db.alerts, id), s.gate.value, answer, part, now)]
  {
    var s := d.db.sessions[id];
    var gate, call := s.gate.value, FindCall(s.rows, s.gate.value.callId);
    var held := d.db.ClaimPendingHumanInput(id, now);
    var (answer, part, reported) := AnswerTo(gate, HoldOf(s, ceilingMs, now), decision, text, execute(call.value));
    ClaimGoesWithTheGate(registry, s, FactsOf(d.db.alerts, id), gate, answer, part, now, d.db.sessions[id].claimedAt);
    var _ := Unpause(d, registry, id, gate, answer, part, now);
    status, ran := reported, held && gate.kind == Approval && decision == ToApprove;
  }

  /** A request that is not turned away settles its gate: a stale claim says the call may have run, a question is
      answered by what was said, an approval by what running the call brought, and a rejection by an error; only an
      approval under a fresh claim runs the call. */
  method SettleCall(d: Dispatcher, registry: Registry, id: SessionId, decision: Decision, text: string,
                    execute: Part -> (string, bool), ceilingMs: int, now: int)
    returns (status: ApprovalStatus, ran: bool)
    requires id in d.db.sessions
    requires var s := d.db.sessions[id];
      Refusal(s, decision, text, ceilingMs, now).None? && s.gate.Some? && s.gate.value.kind != Continue
    modifies d`controllers, d.db`sessions
    ensures var s := old(d.db.sessions)[id];
      ran <==> s.gate.value.kind == Approval && decision == ToApprove && s.claimedAt.None?
    ensures id in d.db.sessions && d.db.sessions == old(d.db.sessions)[id := d.db.sessions[id]]
    ensures d.db.sessions[id].gate.None? && d.db.sessions[id].status == Running
    ensures TurnSettled(registry, old(d.db.sessions)[id], decision, text, execute, d.db.sessions[id], status)
  {
    ghost var s := d.db.sessions[id];
    AnswerSettles(registry, s, FactsOf(d.db.alerts, id), decision, text, execute, ceilingMs, now);
    status, ran := StoreAnswer(d, registry, id, decision, text, execute, ceilingMs, now);
  }

  /** respondToPendingHumanInput: a request turned away changes nothing; any other settles the gate and reports what it
      stored, and only an approval under a fresh claim runs the call. */
  method Respond(d: Dispatcher, registry: Registry, id: SessionId, decision: Decision, text: string,
                 execute: Part -> (string, bool), ceilingMs: int, now: int)
    returns (reply: Reply, ran: bool)
    requires id in d.db.sessions
    modifies d`controllers, d.db`sessions
    ensures forall code: nat :: reply == Refused(code) <==> TurnedAway(old(d.db.sessions)[id], decision, text, ceilingMs, now, code)
    ensures reply.Refused? ==> d.db.State() == old(d.db.State()) && !ran
    ensures reply.Settled? ==> id in d.db.sessions && d.db.sessions[id].gate.None? && d.db.sessions[id].status == Running
    ensures reply.Settled? ==>
      var s, later := old(d.db.sessions)[id], d.db.sessions[id];
      && s.gate.Some?
      && (s.gate.value.kind == Continue ==>
            later.rows == s.rows && !ran && reply.status == if decision == ToReject then Rejected else Continued)
      && (s.gate.value.kind != Continue ==>
            && TurnSettled(registry, s, decision, text, execute, later, reply.status)
            && (ran <==> s.gate.value.kind == Approval && decision == ToApprove && s.claimedAt.None?))
    ensures forall other :: other in old(d.db.sessions) && other != id ==>
      other in d.db.sessions && d.db.sessions[other] == old(d.db.sessions)[other]
  {
    var s := d.db.sessions[id];
    RefusalMeans(s, decision, text, ceilingMs, now);
    if s.gate.None? {
      return Refused(409), false;
    }
    if s.gate.value.kind == Continue {
      var deleted := d.db.DeletePendingHumanInput(id);
      assert d.db.State().sessions[id] == Refreshed(Ungated(s), FactsOf(d.db.alerts, id));
      var _ := d.Start(id);
      return Settled(if decision == ToReject then Rejected else Continued), false;
    }
    if FindCall(s.rows, s.gate.value.callId).None? {
      return Refused(409), false;
    }
    if !WellFormed(s.gate.value.kind, decision, text) {
      return Refused(400), false;
    }
    if HoldOf(s, ceilingMs, now) == Busy {
      return Refused(409), false;
    }
    var status;
    status, ran := SettleCall(d, registry, id, decision, text, execute, ceilingMs, now);
    reply := Settled(status);
  }
}
