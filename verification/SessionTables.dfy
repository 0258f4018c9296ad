/**
 One session's row and what each store operation makes of it
 (apps/api/src/session/status-store.ts, transcript-store.ts, gate-store.ts).

 The functions here are the effect of one committed statement or transaction. The
 class Store (Store.dfy) runs them on the tables; Protocol.dfy runs them against
 each other in every order.
 */
module SessionTables {
  import opened Wrappers
  import opened Transcript

  datatype Status = ActionRequired | Running | Resolved | Stopped | Failed | Completed

  datatype GateKind = Approval | Clarification | Continue

  // What the session waits on a person for, with the results its turn already has.
  datatype Gate = Gate(callId: CallId, kind: GateKind, saved: seq<ToolResult>)

  datatype FailureKind = Transient | Permanent

  // The alerts a session covers, counted as its status reads them.
  datatype AlertFacts = AlertFacts(total: nat, open: nat)

  datatype Session = Session(
    investigation: bool,
    status: Status,
    stoppedAt: Option<int>,
    gate: Option<Gate>,
    claimedAt: Option<int>,
    failure: Option<FailureKind>,
    attempts: nat,
    createdAt: int,
    rows: seq<Row>)

  function NewSession(investigation: bool, now: int): Session {
    Session(investigation, Completed, None, None, None, None, 0, now, [])
  }

  // ---------- Status ----------

  function StatusFrom(s: Session, f: AlertFacts): Status {
    if s.gate.Some? then ActionRequired
    else if f.total > 0 && f.open == 0 then Resolved
    else if s.stoppedAt.Some? then Stopped
    else if s.rows != [] && s.rows[|s.rows| - 1].kind == Error then Failed
    else Completed
  }

  // The stored status of a session nothing is running says exactly what its row says.
  predicate Exact(s: Session, f: AlertFacts) {
    s.status != Running ==> s.status == StatusFrom(s, f)
  }

  predicate EndsOnError(rows: seq<Row>) {
    rows != [] && rows[|rows| - 1].kind == Error
  }

  // What each stored status says of the row. A gate leads; a recovery, which takes an alert to recover from, outranks
  // who ended the run.
  predicate Told(s: Session, f: AlertFacts) {
    var recovered := f.total > 0 && f.open == 0;
    && (s.status == ActionRequired <==> s.gate.Some?)
    && (s.status == Resolved <==> s.gate.None? && recovered)
    && (s.status == Stopped <==> s.gate.None? && !recovered && s.stoppedAt.Some?)
    && (s.status == Failed <==> s.gate.None? && !recovered && s.stoppedAt.None? && EndsOnError(s.rows))
    && (s.status == Completed <==> s.gate.None? && !recovered && s.stoppedAt.None? && !EndsOnError(s.rows))
  }

  /** A status is the derived one if and only if it says what it should. */
  lemma ExactMeans(s: Session, f: AlertFacts)
    ensures s.status == StatusFrom(s, f) <==> Told(s, f)
    ensures Exact(s, f) <==> s.status == Running || Told(s, f)
  {
  }

  function Refreshed(s: Session, f: AlertFacts): Session {
    if s.status == Running then s else s.(status := StatusFrom(s, f))
  }

  predicate Claimable(s: Session) {
    s.status != Running
  }

  function RunClaimed(s: Session): Session
    requires Claimable(s)
  {
    s.(status := Running, stoppedAt := None)
  }

  function RunReleased(s: Session, f: AlertFacts): Session {
    if s.status == Running then s.(status := StatusFrom(s, f)) else s
  }

  function MarkedDone(s: Session, f: AlertFacts): Session {
    s.(status := StatusFrom(s, f))
  }

  function MarkedStopped(s: Session, f: AlertFacts, now: int): Session {
    Refreshed(s.(stoppedAt := Some(now)), f)
  }

  function FailureRecorded(s: Session, kind: FailureKind): Session {
    s.(failure := Some(kind), attempts := s.attempts + 1)
  }

  function FailureCleared(s: Session): Session {
    if s.failure.Some? then s.(failure := None, attempts := 0) else s
  }

  predicate HoldsSeat(s: Session) {
    s.status == Running || s.status == ActionRequired
  }

  // ---------- Transcript writes ----------

  // The primary key (session, seq): an insert that repeats a seq, stored or its own, aborts its transaction.
  predicate Collides(rows: seq<Row>, added: seq<Row>) {
    || (exists i, j :: 0 <= i < |rows| && 0 <= j < |added| && rows[i].seqNo == added[j].seqNo)
    || (exists i, j :: 0 <= i < j < |added| && added[i].seqNo == added[j].seqNo)
  }

  function RowsAppended(s: Session, added: seq<Row>, f: AlertFacts): Session {
    if added == [] then s else Refreshed(s.(rows := s.rows + added), f)
  }

  function ErrorRow(rows: seq<Row>, text: string, now: int): Row {
    Row(NextSeq(rows), Error, text, [], now)
  }

  function ErrorAppended(s: Session, text: string, f: AlertFacts, now: int): Session {
    RowsAppended(s, [ErrorRow(s.rows, text, now)], f)
  }

  function Parked(s: Session, added: seq<Row>, gate: Gate): Session {
    s.(rows := s.rows + added, status := ActionRequired, gate := Some(gate), claimedAt := None)
  }

  function Ungated(s: Session): Session {
    s.(gate := None, claimedAt := None)
  }

  // The answered turn and the cleared gate, in one transaction.
  function Answered(s: Session, added: seq<Row>, f: AlertFacts): Session {
    Refreshed(Ungated(s).(rows := s.rows + added), f)
  }

  // ---------- The gate ----------

  predicate GateClaimable(s: Session) {
    s.gate.Some? && s.claimedAt.None?
  }

  function GateClaimed(s: Session, now: int): Session
    requires GateClaimable(s)
  {
    s.(claimedAt := Some(now))
  }

  // ---------- Boot recovery ----------

  datatype Effect = Read | Write

  datatype Policy = Auto | Approve

  datatype ToolInfo = ToolInfo(effect: Effect, policy: Policy, idempotent: bool, citable: bool)

  type Registry = map<string, ToolInfo>

  predicate IsCitable(registry: Registry, name: string) {
    name in registry && registry[name].citable
  }

  predicate CanReplay(registry: Registry, name: string) {
    name in registry && (registry[name].effect == Read || registry[name].idempotent)
  }

  function CitableIn(registry: Registry, rows: seq<Row>): set<CallId> {
    set i, p | 0 <= i < |rows| && p in rows[i].parts && p.CallPart? && IsCitable(registry, p.name) :: p.callId
  }

  // answeredTurn: the stamped results and the decision in one row, numbered from the transcript as it stands.
  function AnswerRow(rows: seq<Row>, results: seq<ToolResult>, citable: set<CallId>, decision: Part, now: int): Row {
    Row(NextSeq(rows), User, "", Stamp(results, citable, Highest(rows) + 1) + [decision], now)
  }

  function CallsNotIn(rows: seq<Row>, answered: set<CallId>): seq<Part> {
    if rows == [] then []
    else CallsNotIn(rows[..|rows| - 1], answered) + PartsNotIn(rows[|rows| - 1].parts, answered)
  }

  function PartsNotIn(parts: seq<Part>, answered: set<CallId>): seq<Part> {
    if parts == [] then []
    else
      var last := parts[|parts| - 1];
      PartsNotIn(parts[..|parts| - 1], answered)
      + (if last.CallPart? && last.callId !in answered then [last] else [])
  }

  function AnsweredIds(rows: seq<Row>): (ids: set<CallId>)
    ensures forall id :: id in ids <==> exists i :: 0 <= i < |rows| && id in Results(rows[i])
  {
    set i, id | 0 <= i < |rows| && id in Results(rows[i]) :: id
  }

  // The calls the transcript never answered, in the order they were made.
  function Unanswered(rows: seq<Row>): seq<Part> {
    CallsNotIn(rows, AnsweredIds(rows))
  }

  function CallIds(calls: seq<Part>): set<CallId>
  {
    set c | c in calls && c.CallPart? :: c.callId
  }

  lemma {:induction false} PartsNotInIds(parts: seq<Part>, answered: set<CallId>)
    ensures forall c :: c in PartsNotIn(parts, answered) <==> c in parts && c.CallPart? && c.callId !in answered
    decreases |parts|
  {
    if parts != [] {
      PartsNotInIds(parts[..|parts| - 1], answered);
      assert parts == parts[..|parts| - 1] + [parts[|parts| - 1]];
    }
  }

  lemma {:induction false} CallsNotInIds(rows: seq<Row>, answered: set<CallId>)
    ensures forall c :: c in CallsNotIn(rows, answered)
              <==> c.CallPart? && c.callId !in answered && exists i :: 0 <= i < |rows| && c in rows[i].parts
    decreases |rows|
  {
    if rows != [] {
      var n := |rows| - 1;
      CallsNotInIds(rows[..n], answered);
      PartsNotInIds(rows[n].parts, answered);
      assert CallsNotIn(rows, answered) == CallsNotIn(rows[..n], answered) + PartsNotIn(rows[n].parts, answered);
      forall c: Part | c.CallPart? && c.callId !in answered && exists i :: 0 <= i < |rows| && c in rows[i].parts
        ensures c in CallsNotIn(rows, answered)
      {
        var i :| 0 <= i < |rows| && c in rows[i].parts;
        if i < n {
          assert c in rows[..n][i].parts;
        }
      }
    }
  }

  /** unansweredCalls finds exactly the calls with no result anywhere. */
  lemma UnansweredIds(rows: seq<Row>)
    ensures forall id :: id in CallIds(Unanswered(rows)) <==> Asked(rows, id) && !Transcript.Answered(rows, id)
    ensures forall c :: c in Unanswered(rows) ==> c.CallPart?
  {
    var answered := AnsweredIds(rows);
    CallsNotInIds(rows, answered);
    forall id | Asked(rows, id) && !Transcript.Answered(rows, id)
      ensures id in CallIds(Unanswered(rows))
    {
      var i :| 0 <= i < |rows| && id in Calls(rows[i]);
      var p :| p in rows[i].parts && p.CallPart? && p.callId == id;
      assert p in Unanswered(rows);
    }
    forall id | id in CallIds(Unanswered(rows))
      ensures Asked(rows, id)
    {
      var c :| c in Unanswered(rows) && c.CallPart? && c.callId == id;
      var i :| 0 <= i < |rows| && c in rows[i].parts;
      assert id in Calls(rows[i]);
    }
  }

  const RESUME_WINDOW_MS := 15 * 60_000

  function LastActivity(s: Session): int {
    if s.rows == [] then s.createdAt else s.rows[|s.rows| - 1].at
  }

  predicate WorthResuming(s: Session, f: AlertFacts, now: int) {
    f.open > 0 && now - LastActivity(s) <= RESUME_WINDOW_MS
  }

  predicate Stranded(s: Session) {
    s.status == Running || (s.status == ActionRequired && s.gate.None?)
  }

  // What re-running the pending calls brought back, one result a call in call order.
  predicate Replays(calls: seq<Part>, results: seq<ToolResult>) {
    && |results| == |calls|
    && forall i :: 0 <= i < |calls| ==> calls[i].CallPart? && results[i].callId == calls[i].callId
  }

  function CitableCalls(registry: Registry, calls: seq<Part>): set<CallId> {
    set c | c in calls && c.CallPart? && IsCitable(registry, c.name) :: c.callId
  }

  predicate AllReplayable(registry: Registry, calls: seq<Part>) {
    forall c :: c in calls ==> c.CallPart? && CanReplay(registry, c.name)
  }

  function ReplayRow(registry: Registry, rows: seq<Row>, results: seq<ToolResult>, now: int): Row {
    Row(NextSeq(rows), User, "", Stamp(results, CitableCalls(registry, Unanswered(rows)), Highest(rows) + 1), now)
  }

  // The transcript after answerPendingCalls, which leaves the exchange open when one call cannot be replayed.
  function PendingAnswered(registry: Registry, s: Session, f: AlertFacts, results: seq<ToolResult>, now: int): Session {
    if Unanswered(s.rows) == [] || !AllReplayable(registry, Unanswered(s.rows)) then s
    else RowsAppended(s, [ReplayRow(registry, s.rows, results, now)], f)
  }

  const INTERRUPTED := "This investigation was interrupted: NightWarden stopped while it was running."
  const ABANDONED := "This investigation was interrupted: NightWarden stopped just after the approved call ran, so its result was lost."

  // Where the recovery of one session throws, if it does: with its calls unanswered, or with its outcome to be stored.
  datatype Trouble = NoTrouble | Unanswerable | Unsettled

  // One pass of recoverDeadRuns over one session: resumed, failed, or left where it threw.
  function Recovered(registry: Registry, s: Session, f: AlertFacts, results: seq<ToolResult>, trouble: Trouble, now: int)
    : Session
  {
    if !Stranded(s) then s
    else if s.status == ActionRequired || trouble == Unanswerable then
      (if trouble == NoTrouble then ErrorAppended(MarkedDone(s, f), ABANDONED, f, now) else MarkedDone(s, f))
    else
      var answered := PendingAnswered(registry, MarkedDone(s, f), f, results, now);
      if trouble == Unsettled then answered
      else if WorthResuming(answered, f, now) then RunClaimed(answered)
      else ErrorAppended(answered, INTERRUPTED, f, now)
  }

  predicate Resumed(registry: Registry, s: Session, f: AlertFacts, results: seq<ToolResult>, trouble: Trouble, now: int) {
    && s.status == Running && trouble == NoTrouble
    && WorthResuming(PendingAnswered(registry, MarkedDone(s, f), f, results, now), f, now)
  }

  lemma PendingAnsweredKeeps(registry: Registry, s: Session, f: AlertFacts, results: seq<ToolResult>, now: int)
    requires s.status == StatusFrom(s, f)
    ensures var r := PendingAnswered(registry, s, f, results, now);
      r.gate == s.gate && r.claimedAt == s.claimedAt && s.rows <= r.rows && r.status == StatusFrom(r, f)
  {
  }

  lemma ErrorAppendedKeeps(s: Session, text: string, f: AlertFacts, now: int)
    requires s.status == StatusFrom(s, f)
    ensures var r := ErrorAppended(s, text, f, now);
      && r.gate == s.gate && r.claimedAt == s.claimedAt && s.rows <= r.rows
      && r.status == StatusFrom(r, f) && r.rows != [] && r.rows[|r.rows| - 1].kind == Error
  {
  }

  /** Whatever the crash left, and wherever recovery throws, it ends each stranded session either resumed or told the
      truth about: none runs unless it was dispatched again, none waits on nobody, and a gate keeps its call and its
      results. A session that was not stranded stays as it was. */
  lemma RecoverySettles(registry: Registry, s: Session, f: AlertFacts, results: seq<ToolResult>, trouble: Trouble, now: int)
    ensures var r := Recovered(registry, s, f, results, trouble, now);
      var stranded := s.status == Running || (s.status == ActionRequired && s.gate.None?);
      && (!stranded ==> r == s)
      && (r.status == Running <==> Resumed(registry, s, f, results, trouble, now))
      && (r.status == ActionRequired ==> r.gate.Some?)
      && r.gate == s.gate && r.claimedAt == s.claimedAt
      && s.rows <= r.rows
      && (Exact(r, f) <==> stranded || Exact(s, f))
      && (stranded && r.status != Running && trouble == NoTrouble ==>
            EndsOnError(r.rows) && r.rows[|r.rows| - 1].content == if s.status == Running then INTERRUPTED else ABANDONED)
  {
    if Stranded(s) {
      var done := MarkedDone(s, f);
      if s.status == ActionRequired {
        ErrorAppendedKeeps(done, ABANDONED, f, now);
      } else {
        PendingAnsweredKeeps(registry, done, f, results, now);
        ErrorAppendedKeeps(PendingAnswered(registry, done, f, results, now), INTERRUPTED, f, now);
      }
    }
  }

  // ---------- Which calls boot runs again ----------

  // A call on the transcript that nothing there answers.
  ghost predicate Pending(rows: seq<Row>, p: Part) {
    p.CallPart? && !Transcript.Answered(rows, p.callId) && exists i :: 0 <= i < |rows| && p in rows[i].parts
  }

  // Running it again changes nothing more: it reads, or its tool says why.
  predicate RunsAgain(registry: Registry, name: string) {
    name in registry && (registry[name].effect == Read || registry[name].idempotent)
  }

  ghost predicate AllRunAgain(registry: Registry, rows: seq<Row>) {
    forall p :: Pending(rows, p) ==> RunsAgain(registry, p.name)
  }

  lemma PendingIsUnanswered(rows: seq<Row>, p: Part)
    ensures Pending(rows, p) <==> p in Unanswered(rows)
  {
    CallsNotInIds(rows, AnsweredIds(rows));
    if p.CallPart? {
      assert p.callId in AnsweredIds(rows) <==> Transcript.Answered(rows, p.callId);
    }
  }

  lemma ReplayableMeans(registry: Registry, rows: seq<Row>)
    ensures AllReplayable(registry, Unanswered(rows)) <==> AllRunAgain(registry, rows)
    ensures Unanswered(rows) == [] <==> forall p :: !Pending(rows, p)
  {
    forall p
      ensures Pending(rows, p) <==> p in Unanswered(rows)
    {
      PendingIsUnanswered(rows, p);
    }
    if Unanswered(rows) != [] {
      assert Unanswered(rows)[0] in Unanswered(rows);
    }
    UnansweredIds(rows);
  }

  // What replaying leaves on the transcript: one row with each result in its call's place, or no row.
  ghost predicate ReplayedOn(registry: Registry, rows: seq<Row>, results: seq<ToolResult>, more: seq<Row>) {
    && rows < more && more[|rows|].kind == User && |more[|rows|].parts| == |results|
    && forall i :: 0 <= i < |results| ==>
         var p := more[|rows|].parts[i];
         && p.ResultPart? && p == ResultPart(results[i].callId, results[i].content, p.evidence, results[i].isError)
         && (p.evidence.Some? <==>
               !results[i].isError
               && exists q :: Pending(rows, q) && q.callId == results[i].callId && q.name in registry && registry[q.name].citable)
  }

  lemma ReplayRowTells(registry: Registry, rows: seq<Row>, results: seq<ToolResult>, now: int)
    ensures ReplayedOn(registry, rows, results, rows + [ReplayRow(registry, rows, results, now)])
  {
    var citable := CitableCalls(registry, Unanswered(rows));
    StampTells(results, citable, Highest(rows) + 1);
    forall i | 0 <= i < |results|
      ensures results[i].callId in citable <==>
        exists q :: Pending(rows, q) && q.callId == results[i].callId && q.name in registry && registry[q.name].citable
    {
      if results[i].callId in citable {
        var q :| q in Unanswered(rows) && q.CallPart? && IsCitable(registry, q.name) && q.callId == results[i].callId;
        PendingIsUnanswered(rows, q);
      }
      if q :| Pending(rows, q) && q.callId == results[i].callId && q.name in registry && registry[q.name].citable {
        PendingIsUnanswered(rows, q);
      }
    }
  }

  lemma ReplayAnswersPending(registry: Registry, rows: seq<Row>, results: seq<ToolResult>, now: int)
    requires Replays(Unanswered(rows), results)
    ensures forall id :: id in Results(ReplayRow(registry, rows, results, now)) <==> exists p :: Pending(rows, p) && p.callId == id
  {
    var row, calls := ReplayRow(registry, rows, results, now), Unanswered(rows);
    StampIds(results, CitableCalls(registry, calls), Highest(rows) + 1, row);
    forall id
      ensures id in ResultIds(results) <==> exists p :: Pending(rows, p) && p.callId == id
    {
      if id in ResultIds(results) {
        var i :| 0 <= i < |results| && results[i].callId == id;
        PendingIsUnanswered(rows, calls[i]);
      }
      if p :| Pending(rows, p) && p.callId == id {
        PendingIsUnanswered(rows, p);
        var i :| 0 <= i < |calls| && calls[i] == p;
        assert results[i] in results;
      }
    }
  }

  lemma NothingReplayed(registry: Registry, s: Session, f: AlertFacts, results: seq<ToolResult>, now: int)
    requires s.status == Running && !(AllRunAgain(registry, s.rows) && exists p :: Pending(s.rows, p))
    ensures var r := Recovered(registry, s, f, results, NoTrouble, now);
      && s.rows <= r.rows && forall i :: |s.rows| <= i < |r.rows| ==> Results(r.rows[i]) == {}
  {
    ReplayableMeans(registry, s.rows);
    assert PendingAnswered(registry, MarkedDone(s, f), f, results, now) == MarkedDone(s, f);
  }

  lemma ReplayedFirst(registry: Registry, s: Session, f: AlertFacts, results: seq<ToolResult>, now: int)
    requires s.status == Running && AllRunAgain(registry, s.rows) && exists p :: Pending(s.rows, p)
    ensures s.rows + [ReplayRow(registry, s.rows, results, now)] <= Recovered(registry, s, f, results, NoTrouble, now).rows
  {
    ReplayableMeans(registry, s.rows);
    var done := MarkedDone(s, f);
    assert PendingAnswered(registry, done, f, results, now) == RowsAppended(done, [ReplayRow(registry, s.rows, results, now)], f);
  }

  lemma AllReplayed(registry: Registry, s: Session, f: AlertFacts, results: seq<ToolResult>, now: int)
    requires s.status == Running && Replays(Unanswered(s.rows), results)
    requires AllRunAgain(registry, s.rows) && exists p :: Pending(s.rows, p)
    ensures var r := Recovered(registry, s, f, results, NoTrouble, now);
      && ReplayedOn(registry, s.rows, results, r.rows)
      && forall id :: id in Results(r.rows[|s.rows|]) <==> exists p :: Pending(s.rows, p) && p.callId == id
  {
    ReplayedFirst(registry, s, f, results, now);
    ReplayRowTells(registry, s.rows, results, now);
    ReplayAnswersPending(registry, s.rows, results, now);
  }

  /** Boot runs the pending calls of a killed session again if and only if every one of them reads or is idempotent.
      Then one row holds each result in its call's place, with a handle exactly where the tool is citable and the call
      did not fail; otherwise no row it writes answers anything. */
  lemma RecoveryReplaysIff(registry: Registry, s: Session, f: AlertFacts, results: seq<ToolResult>, now: int)
    requires s.status == Running && Replays(Unanswered(s.rows), results)
    ensures var r := Recovered(registry, s, f, results, NoTrouble, now);
      var pending := exists p :: Pending(s.rows, p);
      && s.rows <= r.rows
      && (AllRunAgain(registry, s.rows) <==> forall p :: Pending(s.rows, p) ==> Transcript.Answered(r.rows, p.callId))
      && (pending && AllRunAgain(registry, s.rows) ==> ReplayedOn(registry, s.rows, results, r.rows))
      && (pending && !AllRunAgain(registry, s.rows) ==>
            forall i :: |s.rows| <= i < |r.rows| ==> Results(r.rows[i]) == {})
  {
    if AllRunAgain(registry, s.rows) && exists p :: Pending(s.rows, p) {
      AllReplayed(registry, s, f, results, now);
    } else {
      NothingReplayed(registry, s, f, results, now);
      var rows := Recovered(registry, s, f, results, NoTrouble, now).rows;
      forall id | Transcript.Answered(rows, id)
        ensures Transcript.Answered(s.rows, id)
      {
        var i :| 0 <= i < |rows| && id in Results(rows[i]);
        assert i < |s.rows| && rows[i] == s.rows[i];
      }
    }
  }

  /** And the session is dispatched again if and only if an alert of it is still open and it is fresh: its calls were
      just run again, or its last row is at most fifteen minutes old. */
  lemma RecoveryResumesIff(registry: Registry, s: Session, f: AlertFacts, results: seq<ToolResult>, trouble: Trouble, now: int)
    ensures Recovered(registry, s, f, results, trouble, now).status == Running <==>
      && s.status == Running && trouble == NoTrouble && f.open > 0
      && ((AllRunAgain(registry, s.rows) && exists p :: Pending(s.rows, p))
          || now - (if s.rows == [] then s.createdAt else s.rows[|s.rows| - 1].at) <= 900_000)
  {
    ReplayableMeans(registry, s.rows);
    RecoverySettles(registry, s, f, results, trouble, now);
  }
}
