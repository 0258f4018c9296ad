/**
 One session under every interleaving of its run, the people answering its gate,
 alert deliveries, crashes and boot recovery.

 One exported store operation is one step, with four exceptions. The two statements
 of deletePendingHumanInput are two steps, because recovery exists for the gap between
 them. A suspending run's park and its finalizer are one step, and so are a route's
 "no gate pending" check and the claim behind it. Boot recovery reads the transcript and
 answers it in one step, because nothing else may touch the session before it is done.
 So a run claims its session, reads the transcript for the handles and reads the next seq
 in three steps, and a person's answeredTurn reads the one and then the other in two.
 */
module Protocol {
  import opened Wrappers
  import opened Transcript
  import opened Seed
  import opened SessionTables
  import opened TranscriptWrites

  // Where a run stands between two of its steps. `Reading` holds the next handle, off the transcript as it was
  // read, with how many handles it held; `Calling` holds the assistant row being answered.
  datatype Phase = Claimed | Reading(next: nat, seen: nat) | Turning | Calling(row: Row) | Ending

  // A live run's memory: the counters RunState carries. `crossed` is history: handles were committed between
  // the two reads the counters come from.
  datatype Run = Run(nextSeq: nat, nextEvidence: nat, phase: Phase, crossed: bool)

  // One request to answer a gate, by how far it has come. History: `read`, the epoch it read its gate in; `seen`,
  // how many handles the transcript it stamped from held; `crossed`, whether more came before it read its seq.
  datatype Person =
    | Looking(gate: Gate, read: nat, claimedAt: Option<int>)
    | Held(gate: Gate, read: nat, epoch: nat)
    | Stale(gate: Gate, read: nat)
    | Executed(gate: Gate, read: nat, epoch: nat)
    | Stamped(gate: Gate, read: nat, parts: seq<Part>, next: nat, seen: nat)
    | Built(gate: Gate, read: nat, row: Row, next: nat, crossed: bool)
    | Deleting
    | Cleared
    | Gone

  datatype Boot = Up | Booting | Marked(killed: bool) | Repaired

  // A claim, a start or a clear: in which gate epoch, by whom, for which call, and the epoch whose gate was read.
  datatype Mark = Mark(epoch: nat, who: nat, callId: CallId, read: nat)

  // `routed` alerts are in the router's hands, past its look. `gates`, `claims`, `starts`, `clears` and `slipped`
  // are history: they only record what happened. `slipped`: a crossed author committed a row with handles.
  datatype System = System(
    registry: Registry,
    ceilingMs: int,
    s: Session,
    f: AlertFacts,
    run: Option<Run>,
    people: seq<Person>,
    boot: Boot,
    now: int,
    routed: nat,
    gates: seq<Gate>,
    claims: seq<Mark>,
    starts: seq<Mark>,
    clears: seq<Mark>,
    slipped: bool)

  // The row as createSession or openSessionForGroup leaves it, with any number of alerts waiting on it.
  function Initial(registry: Registry, ceilingMs: int, investigation: bool, alerts: nat, now: int): System {
    System(registry, ceilingMs, NewSession(investigation, now), AlertFacts(alerts, alerts),
           None, [], Up, now, 0, [], [], [], [], false)
  }

  // The gate epoch: how many times the session has been parked.
  function Epoch(a: System): nat {
    |a.gates|
  }

  datatype Event =
    // a run
    | Start
    | Retry
    | ReadRows
    | ReadSeq
    | Say(added: seq<Row>)
    | Ask(asked: Row)
    | Answer(results: seq<ToolResult>, notes: seq<Row>)
    | Park(gate: Gate)
    | Fail(kind: FailureKind)
    | ReportError(text: string)
    | Succeed
    | Stop
    | Release
    // a person
    | Arrive
    | Claim(who: nat)
    | Execute(who: nat)
    | Build(who: nat, answer: ToolResult, decision: Part)
    | Number(who: nat)
    | Resolve(who: nat)
    | Delete(who: nat)
    | Refresh(who: nat)
    | Dispatch(who: nat)
    // the world
    | Tick(later: int)
    | AlertRouted
    | AlertJoins
    | AlertsClear(left: nat)
    | Crash
    // boot recovery
    | BootMark
    | BootReplay(replayed: seq<ToolResult>)
    | BootDecide
    | BootThrows
    | BootDone

  // ---------- Steps of a run ----------

  predicate Quiet(row: Row) {
    row.kind != Error && forall p :: p in row.parts ==> p.TextPart?
  }

  predicate QuietRows(rows: seq<Row>) {
    forall r :: r in rows ==> Quiet(r)
  }

  predicate Numbered(rows: seq<Row>, from: nat) {
    forall j :: 0 <= j < |rows| ==> rows[j].seqNo == from + j
  }

  // A turn's calls carry ids of their own.
  predicate DistinctCalls(parts: seq<Part>) {
    forall i, j :: 0 <= i < j < |parts| && parts[i].CallPart? && parts[j].CallPart? ==>
      parts[i].callId != parts[j].callId
  }

  // One result a call.
  predicate DistinctResults(results: seq<ToolResult>) {
    forall i, j :: 0 <= i < j < |results| ==> results[i].callId != results[j].callId
  }

  // What an assistant turn says and asks for.
  predicate Asks(row: Row) {
    && row.kind == Assistant && Calls(row) != {} && DistinctCalls(row.parts)
    && forall p :: p in row.parts ==> p.TextPart? || p.CallPart?
  }

  function Started(a: System): System
    requires Claimable(a.s)
  {
    a.(s := RunClaimed(a.s), run := Some(Run(0, 0, Claimed, false)))
  }

  // A flush. One that collides throws, and all that is left of the run is its ending.
  function Flushed(a: System, added: seq<Row>, phase: Phase): System
    requires a.run.Some?
  {
    var run := a.run.value;
    if Collides(a.s.rows, added) then a.(run := Some(run.(phase := Ending)))
    else a.(s := RowsAppended(a.s, added, a.f),
            run := Some(Run(run.nextSeq + |added|, run.nextEvidence + |Handles(added)|, phase, run.crossed)),
            slipped := a.slipped || (run.crossed && Handles(added) != []))
  }

  predicate InPhase(a: System, phase: Phase) {
    a.run.Some? && a.run.value.phase == phase
  }

  predicate IsCalling(a: System) {
    a.run.Some? && a.run.value.phase.Calling?
  }

  // The row stageResults builds for the calls of the turn in hand.
  function ResultsRow(a: System, results: seq<ToolResult>): Row
    requires IsCalling(a)
  {
    var run := a.run.value;
    Row(run.nextSeq, User, "", Stamp(results, CitableCalls(a.registry, run.phase.row.parts), run.nextEvidence), a.now)
  }

  predicate RunEnabled(a: System, e: Event) {
    match e
    case Start => a.boot == Up && Claimable(a.s) && a.s.gate.None?
    case Retry => a.boot == Up && Claimable(a.s) && a.s.failure == Some(Transient) && a.s.attempts < 3
    case ReadRows => InPhase(a, Claimed)
    case ReadSeq => a.run.Some? && a.run.value.phase.Reading?
    case Say(added) => InPhase(a, Turning) && QuietRows(added) && Numbered(added, a.run.value.nextSeq)
    case Ask(row) =>
      && InPhase(a, Turning) && row.seqNo == a.run.value.nextSeq
      && Asks(row) && Calls(row) !! AskedIds(a.s.rows)
    case Answer(results, notes) =>
      && IsCalling(a) && ResultIds(results) == Calls(a.run.value.phase.row) && DistinctResults(results)
      && QuietRows(notes) && Numbered(notes, a.run.value.nextSeq + 1)
    case Park(gate) =>
      && a.run.Some? && DistinctResults(gate.saved)
      && (if gate.kind == Continue then a.run.value.phase == Turning && gate.saved == []
          else IsCalling(a) && gate.callId !in ResultIds(gate.saved)
               && ResultIds(gate.saved) + {gate.callId} == Calls(a.run.value.phase.row))
    case Fail(_) => a.run.Some?
    case ReportError(_) => a.run.Some?
    case Succeed => a.run.Some?
    case Stop => a.run.Some?
    case Release => a.run.Some?
    case _ => false
  }

  // Provider tool-call ids are unique, so a new turn repeats none of these.
  function AskedIds(rows: seq<Row>): (ids: set<CallId>)
    ensures forall id :: id in ids <==> Asked(rows, id)
  {
    set i, id | 0 <= i < |rows| && id in Calls(rows[i]) :: id
  }

  function RunStep(a: System, e: Event): System
    requires RunEnabled(a, e)
  {
    match e
    case Start => Started(a)
    case Retry => Started(a)
    case ReadRows =>
      a.(run := Some(a.run.value.(phase := Reading(Highest(a.s.rows) + 1, |Handles(a.s.rows)|))))
    case ReadSeq =>
      var phase := a.run.value.phase;
      a.(run := Some(Run(NextSeq(a.s.rows), phase.next, Turning, |Handles(a.s.rows)| != phase.seen)))
    case Say(added) => Flushed(a, added, Turning)
    case Ask(row) => Flushed(a, [row], Calling(row))
    case Answer(results, notes) => Flushed(a, [ResultsRow(a, results)] + notes, Turning)
    case Park(gate) =>
      a.(s := RunReleased(FailureCleared(Parked(a.s, [], gate)), a.f), run := None, gates := a.gates + [gate])
    case Fail(kind) =>
      a.(s := FailureRecorded(a.s, kind), run := Some(a.run.value.(phase := Ending)))
    case ReportError(text) =>
      a.(s := ErrorAppended(a.s, text, a.f, a.now), run := Some(a.run.value.(phase := Ending)))
    case Succeed => a.(s := FailureCleared(a.s), run := Some(a.run.value.(phase := Ending)))
    case Stop => a.(s := MarkedStopped(a.s, a.f, a.now), run := Some(a.run.value.(phase := Ending)))
    case Release => a.(s := RunReleased(a.s, a.f), run := None)
  }

  // ---------- Steps of a person ----------

  predicate At(a: System, who: nat) {
    a.boot == Up && who < |a.people|
  }

  // answeredTurn's parts: the stamped results and the decision, numbered from the transcript as it stands.
  function AnsweredTurn(a: System, results: seq<ToolResult>, citable: set<CallId>, decision: Part): seq<Part> {
    AnswerRow(a.s.rows, results, citable, decision, a.now).parts
  }

  // The decision recorded beside an answer: a stale claim counts as approved and answers as unknown, what ran
  // was approved, a reply is an elicitation, and an approval held and not run was rejected.
  predicate Decides(p: Person, answer: ToolResult, decision: Part) {
    match p
    case Stale(gate, _) => answer.isError && decision == ApprovalPart(gate.callId, true)
    case Executed(gate, _, _) => decision == ApprovalPart(gate.callId, true)
    case Held(gate, _, _) =>
      if gate.kind == Clarification then
        !answer.isError && decision.ElicitationPart? && decision.callId == gate.callId
      else answer.isError && decision == ApprovalPart(gate.callId, false)
    case _ => false
  }

  predicate HumanEnabled(a: System, e: Event) {
    match e
    case Arrive => a.boot == Up && a.s.gate.Some?
    case Claim(who) => At(a, who) && a.people[who].Looking? && a.people[who].gate.kind != Continue
    case Execute(who) => At(a, who) && a.people[who].Held? && a.people[who].gate.kind == Approval
    case Build(who, answer, decision) =>
      && At(a, who) && (a.people[who].Held? || a.people[who].Executed? || a.people[who].Stale?)
      && answer.callId == a.people[who].gate.callId && Decides(a.people[who], answer, decision)
    case Number(who) => At(a, who) && a.people[who].Stamped?
    case Resolve(who) => At(a, who) && a.people[who].Built?
    case Delete(who) => At(a, who) && a.people[who].Looking? && a.people[who].gate.kind == Continue
    case Refresh(who) => At(a, who) && a.people[who].Deleting?
    case Dispatch(who) => At(a, who) && a.people[who].Cleared?
    case _ => false
  }

  function Moved(a: System, who: nat, p: Person): System
    requires who < |a.people|
  {
    a.(people := a.people[who := p])
  }

  predicate HasGate(p: Person) {
    !p.Deleting? && !p.Cleared? && !p.Gone?
  }

  // What this request does now, for the record.
  function MarkNow(a: System, who: nat): Mark
    requires who < |a.people| && HasGate(a.people[who])
  {
    Mark(Epoch(a), who, a.people[who].gate.callId, a.people[who].read)
  }

  // Compare-and-swap, then the claim's age tells a live holder from a dead one.
  function ClaimStep(a: System, who: nat): System
    requires HumanEnabled(a, Claim(who))
  {
    var p := a.people[who];
    if GateClaimable(a.s) then
      Moved(a.(s := GateClaimed(a.s, a.now), claims := a.claims + [MarkNow(a, who)]), who, Held(p.gate, p.read, Epoch(a)))
    else
      var heldForMs := if p.claimedAt.Some? then a.now - p.claimedAt.value else 0;
      Moved(a, who, if heldForMs <= a.ceilingMs then Gone else Stale(p.gate, p.read))
  }

  function BuildStep(a: System, who: nat, answer: ToolResult, decision: Part): System
    requires HumanEnabled(a, Build(who, answer, decision))
  {
    var p := a.people[who];
    var results := p.gate.saved + [answer];
    Moved(a, who, Stamped(p.gate, p.read,
                          AnsweredTurn(a, results, CitableIn(a.registry, a.s.rows) * ResultIds(results), decision),
                          Highest(a.s.rows) + 1, |Handles(a.s.rows)|))
  }

  function NumberStep(a: System, who: nat): System
    requires HumanEnabled(a, Number(who))
  {
    var p := a.people[who];
    Moved(a, who, Built(p.gate, p.read, Row(NextSeq(a.s.rows), User, "", p.parts, a.now), p.next,
                        |Handles(a.s.rows)| != p.seen))
  }

  // appendRowsAndResolve: nothing changes when no gate is set or the insert collides.
  function ResolveStep(a: System, who: nat): System
    requires HumanEnabled(a, Resolve(who))
  {
    var p := a.people[who];
    if a.s.gate.None? || Collides(a.s.rows, [p.row]) then Moved(a, who, Gone)
    else Moved(a.(s := SessionTables.Answered(a.s, [p.row], a.f),
                  clears := a.clears + [MarkNow(a, who)],
                  slipped := a.slipped || (p.crossed && Handles([p.row]) != [])), who, Cleared)
  }

  function HumanStep(a: System, e: Event): System
    requires HumanEnabled(a, e)
  {
    match e
    case Arrive => a.(people := a.people + [Looking(a.s.gate.value, Epoch(a), a.s.claimedAt)])
    case Claim(who) => ClaimStep(a, who)
    case Execute(who) =>
      var p := a.people[who];
      Moved(a.(starts := a.starts + [Mark(p.epoch, who, p.gate.callId, p.read)]), who, Executed(p.gate, p.read, p.epoch))
    case Build(who, answer, decision) => BuildStep(a, who, answer, decision)
    case Number(who) => NumberStep(a, who)
    case Resolve(who) => ResolveStep(a, who)
    case Delete(who) =>
      if a.s.gate.None? then Moved(a, who, Gone)
      else Moved(a.(s := Ungated(a.s), clears := a.clears + [MarkNow(a, who)]), who, Deleting)
    case Refresh(who) => Moved(a.(s := Refreshed(a.s, a.f)), who, Cleared)
    case Dispatch(who) => Moved(if Claimable(a.s) then Started(a) else a, who, Gone)
  }

  // ---------- Steps of the world and of boot ----------

  // The router sends an alert to a session it saw holding a seat; it joins whatever the session is by then.
  predicate WorldEnabled(a: System, e: Event) {
    match e
    case Tick(later) => a.now <= later
    case AlertRouted => a.boot == Up && HoldsSeat(a.s)
    case AlertJoins => a.boot == Up && a.routed > 0
    case AlertsClear(left) => a.boot == Up && left < a.f.open
    case Crash => true
    case BootMark => a.boot == Booting && Stranded(a.s)
    case BootReplay(replayed) =>
      a.boot == Marked(true) && Replays(Unanswered(a.s.rows), replayed)
    case BootDecide => a.boot == Repaired || a.boot == Marked(false)
    case BootThrows => a.boot == Repaired || a.boot.Marked?
    case BootDone => a.boot == Booting && !Stranded(a.s)
    case _ => false
  }

  function WorldStep(a: System, e: Event): System
    requires WorldEnabled(a, e)
  {
    match e
    case Tick(later) => a.(now := later)
    case AlertRouted => a.(routed := a.routed + 1)
    case AlertJoins => a.(f := AlertFacts(a.f.total + 1, a.f.open + 1), routed := a.routed - 1)
    case AlertsClear(left) =>
      var f := AlertFacts(a.f.total, left);
      a.(f := f, s := Refreshed(a.s, f))
    case Crash => a.(run := None, people := seq(|a.people|, i => Gone), boot := Booting, routed := 0)
    case BootMark => a.(s := MarkedDone(a.s, a.f), boot := Marked(a.s.status == Running))
    case BootReplay(replayed) =>
      a.(s := PendingAnswered(a.registry, a.s, a.f, replayed, a.now), boot := Repaired)
    case BootDecide =>
      if a.boot == Repaired && WorthResuming(a.s, a.f, a.now) then
        (if Claimable(a.s) then Started(a) else a).(boot := Up)
      else a.(s := ErrorAppended(a.s, if a.boot == Repaired then INTERRUPTED else ABANDONED, a.f, a.now), boot := Up)
    case BootThrows => a.(boot := Up)
    case BootDone => a.(boot := Up)
  }

  // ---------- Runs of the whole system ----------

  predicate Enabled(a: System, e: Event) {
    RunEnabled(a, e) || HumanEnabled(a, e) || WorldEnabled(a, e)
  }

  function Step(a: System, e: Event): System
    requires Enabled(a, e)
  {
    if RunEnabled(a, e) then RunStep(a, e)
    else if HumanEnabled(a, e) then HumanStep(a, e)
    else WorldStep(a, e)
  }

  // Every event of the history was enabled where it happened.
  predicate Runs(a: System, history: seq<Event>)
    decreases |history|
  {
    history == [] || (Enabled(a, history[0]) && Runs(Step(a, history[0]), history[1..]))
  }

  function After(a: System, history: seq<Event>): System
    requires Runs(a, history)
    decreases |history|
  {
    if history == [] then a else After(Step(a, history[0]), history[1..])
  }

  ghost predicate Reachable(a: System, b: System) {
    exists history :: Runs(a, history) && After(a, history) == b
  }

  lemma {:induction false} RunsOneMore(a: System, history: seq<Event>, e: Event)
    requires Runs(a, history) && Enabled(After(a, history), e)
    ensures Runs(a, history + [e]) && After(a, history + [e]) == Step(After(a, history), e)
    decreases |history|
  {
    if history == [] {
      assert [] + [e] == [e] && [e][1..] == [];
      assert Runs(Step(a, e), []);
    } else {
      RunsOneMore(Step(a, history[0]), history[1..], e);
      assert (history + [e])[1..] == history[1..] + [e];
    }
  }

  lemma Reach(a: System, b: System, e: Event)
    requires Reachable(a, b) && Enabled(b, e)
    ensures Reachable(a, Step(b, e))
  {
    var history :| Runs(a, history) && After(a, history) == b;
    RunsOneMore(a, history, e);
  }
}
