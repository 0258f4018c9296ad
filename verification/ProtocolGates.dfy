/**
 Which call a gate is about, over the whole life of a session: no call is parked
 twice, so who read which gate decides whether a call is started again.
 */
module ProtocolGates {
  import opened Wrappers
  import opened Transcript
  import opened SessionTables
  import opened Protocol
  import opened ProtocolStatus

  // Every call of the turn the gate stopped.
  function GateCalls(gate: Gate): set<CallId> {
    ResultIds(gate.saved) + {gate.callId}
  }

  // The calls a gate holds back; a continue gate holds none.
  function Parks(gate: Gate): set<CallId> {
    if gate.kind == Continue then {} else GateCalls(gate)
  }

  ghost predicate DisjointParks(gates: seq<Gate>) {
    forall i, j :: 0 <= i < j < |gates| ==> Parks(gates[i]) !! Parks(gates[j])
  }

  // A gate's turn saved one result a call, and none for the call it asks about.
  predicate WellParked(gate: Gate) {
    DistinctResults(gate.saved) && (gate.kind != Continue ==> gate.callId !in ResultIds(gate.saved))
  }

  predicate IsDecision(part: Part) {
    part.ApprovalPart? || part.ElicitationPart?
  }

  // A decision is the last part of the row it is on.
  function DecisionOf(row: Row): Option<CallId> {
    if row.parts != [] && IsDecision(row.parts[|row.parts| - 1]) then Some(row.parts[|row.parts| - 1].callId) else None
  }

  // The row a person built for the gate they read.
  ghost predicate AnswersGate(row: Row, gate: Gate) {
    Results(row) == GateCalls(gate) && Calls(row) == {} && row.kind == User && DecisionOf(row) == Some(gate.callId)
  }

  // The parts as a row of their own.
  function Bare(parts: seq<Part>): Row {
    Row(0, User, "", parts, 0)
  }

  ghost predicate PersonKept(p: Person) {
    && (p.Held? || p.Stale? || p.Executed? || p.Stamped? || p.Built? ==> p.gate.kind != Continue)
    && (p.Stamped? ==> AnswersGate(Bare(p.parts), p.gate))
    && (p.Built? ==> AnswersGate(p.row, p.gate))
  }

  // The gate this person read is the one of the epoch they read it in.
  ghost predicate ReadThere(gates: seq<Gate>, p: Person) {
    HasGate(p) ==> 0 < p.read <= |gates| && gates[p.read - 1] == p.gate
  }

  ghost predicate Parkings(a: System) {
    && DisjointParks(a.gates)
    && (forall i :: 0 <= i < |a.gates| ==> Parks(a.gates[i]) <= AskedIds(a.s.rows) && WellParked(a.gates[i]))
    && (IsCalling(a) ==> Calls(a.run.value.phase.row) <= AskedIds(a.s.rows)
                         && forall i :: 0 <= i < |a.gates| ==> Parks(a.gates[i]) !! Calls(a.run.value.phase.row))
    && (a.s.gate.Some? ==> a.gates != [] && a.gates[|a.gates| - 1] == a.s.gate.value)
    && (forall i :: 0 <= i < |a.people| ==> PersonKept(a.people[i]) && ReadThere(a.gates, a.people[i]))
  }

  lemma AskedGrows(rows: seq<Row>, more: seq<Row>)
    requires rows <= more
    ensures AskedIds(rows) <= AskedIds(more)
  {
    forall id | id in AskedIds(rows)
      ensures id in AskedIds(more)
    {
      var i :| 0 <= i < |rows| && id in Calls(rows[i]);
      assert id in Calls(more[i]);
    }
  }

  // Rows only grew, and no new turn is being answered.
  lemma ParkingsGrow(a: System, b: System)
    requires Parkings(a) && a.s.rows <= b.s.rows && b.gates == a.gates
    requires b.s.gate == a.s.gate || b.s.gate.None?
    requires IsCalling(b) ==> b.run == a.run
    requires forall i :: 0 <= i < |b.people| && (i >= |a.people| || b.people[i] != a.people[i]) ==>
               PersonKept(b.people[i]) && ReadThere(a.gates, b.people[i])
    ensures Parkings(b)
  {
    AskedGrows(a.s.rows, b.s.rows);
  }

  lemma AskKeepsParkings(a: System, row: Row)
    requires Parkings(a) && RunEnabled(a, Ask(row))
    ensures Parkings(RunStep(a, Ask(row)))
  {
    var b := RunStep(a, Ask(row));
    if Collides(a.s.rows, [row]) {
      ParkingsGrow(a, b);
    } else {
      AskedGrows(a.s.rows, b.s.rows);
      assert b.s.rows[|a.s.rows|] == row;
    }
  }

  lemma ParkedApart(a: System, gate: Gate)
    requires Parkings(a) && RunEnabled(a, Park(gate))
    ensures DisjointParks(a.gates + [gate]) && Parks(gate) <= AskedIds(a.s.rows) && WellParked(gate)
  {
    assert IsCalling(a) ==> Parks(gate) <= Calls(a.run.value.phase.row);
  }

  lemma ParkKeepsParkings(a: System, gate: Gate)
    requires Parkings(a) && RunEnabled(a, Park(gate))
    ensures Parkings(RunStep(a, Park(gate)))
  {
    ParkedApart(a, gate);
    assert a.s.rows + [] == a.s.rows;
    assert forall i :: 0 <= i < |a.people| ==> PersonKept(a.people[i]) && ReadThere(a.gates + [gate], a.people[i]);
  }

  lemma RunKeepsParkings(a: System, e: Event)
    requires Parkings(a) && RunEnabled(a, e)
    ensures Parkings(RunStep(a, e))
  {
    if e.Park? {
      ParkKeepsParkings(a, e.gate);
    } else if e.Ask? {
      AskKeepsParkings(a, e.asked);
    } else {
      ParkingsGrow(a, RunStep(a, e));
    }
  }

  lemma AnsweredTurnShape(a: System, gate: Gate, answer: ToolResult, citable: set<CallId>, decision: Part)
    requires answer.callId == gate.callId && IsDecision(decision) && decision.callId == gate.callId
    ensures AnswersGate(Bare(AnsweredTurn(a, gate.saved + [answer], citable, decision)), gate)
  {
    var results := gate.saved + [answer];
    var row := Bare(AnsweredTurn(a, results, citable, decision));
    var bare := row.(parts := Stamp(results, citable, Highest(a.s.rows) + 1));
    StampIds(results, citable, Highest(a.s.rows) + 1, bare);
    assert row.parts == bare.parts + [decision];
    assert Results(row) == Results(bare) && Calls(row) == Calls(bare);
    assert ResultIds(results) == ResultIds(gate.saved) + {answer.callId};
  }

  lemma BuildKeepsParkings(a: System, who: nat, answer: ToolResult, decision: Part)
    requires Parkings(a) && HumanEnabled(a, Build(who, answer, decision))
    ensures Parkings(BuildStep(a, who, answer, decision))
  {
    var gate := a.people[who].gate;
    assert PersonKept(a.people[who]) && ReadThere(a.gates, a.people[who]);
    AnsweredTurnShape(a, gate, answer, CitableIn(a.registry, a.s.rows) * ResultIds(gate.saved + [answer]), decision);
    ParkingsGrow(a, BuildStep(a, who, answer, decision));
  }

  // A row answers what its parts answer.
  lemma PartsMakeTheAnswer(row: Row, gate: Gate)
    requires AnswersGate(Bare(row.parts), gate) && row.kind == User
    ensures AnswersGate(row, gate)
  {
    assert Results(row) == Results(Bare(row.parts)) && Calls(row) == Calls(Bare(row.parts));
  }

  lemma NumberKeepsParkings(a: System, who: nat)
    requires Parkings(a) && HumanEnabled(a, Number(who))
    ensures Parkings(NumberStep(a, who))
  {
    var b := NumberStep(a, who);
    assert PersonKept(a.people[who]) && ReadThere(a.gates, a.people[who]);
    PartsMakeTheAnswer(b.people[who].row, a.people[who].gate);
    ParkingsGrow(a, b);
  }

  lemma ResolveKeepsParkings(a: System, who: nat)
    requires Parkings(a) && HumanEnabled(a, Resolve(who))
    ensures Parkings(ResolveStep(a, who))
  {
    ParkingsGrow(a, ResolveStep(a, who));
  }

  lemma ArriveKeepsParkings(a: System)
    requires Parkings(a) && HumanEnabled(a, Arrive)
    ensures Parkings(HumanStep(a, Arrive))
  {
    ParkingsGrow(a, HumanStep(a, Arrive));
  }

  lemma HoldKeepsParkings(a: System, e: Event)
    requires Parkings(a) && HumanEnabled(a, e) && (e.Claim? || e.Execute?)
    ensures Parkings(HumanStep(a, e))
  {
    assert PersonKept(a.people[e.who]) && ReadThere(a.gates, a.people[e.who]);
    ParkingsGrow(a, HumanStep(a, e));
  }

  lemma MoveKeepsParkings(a: System, e: Event)
    requires Parkings(a) && HumanEnabled(a, e) && (e.Delete? || e.Refresh? || e.Dispatch?)
    ensures Parkings(HumanStep(a, e))
  {
    assert PersonKept(a.people[e.who]) && ReadThere(a.gates, a.people[e.who]);
    ParkingsGrow(a, HumanStep(a, e));
  }

  lemma HumanKeepsParkings(a: System, e: Event)
    requires Parkings(a) && HumanEnabled(a, e)
    ensures Parkings(HumanStep(a, e))
  {
    if e.Build? {
      BuildKeepsParkings(a, e.who, e.answer, e.decision);
    } else if e.Number? {
      NumberKeepsParkings(a, e.who);
    } else if e.Resolve? {
      ResolveKeepsParkings(a, e.who);
    } else if e.Arrive? {
      ArriveKeepsParkings(a);
    } else if e.Claim? || e.Execute? {
      HoldKeepsParkings(a, e);
    } else {
      MoveKeepsParkings(a, e);
    }
  }

  lemma WorldKeepsParkings(a: System, e: Event)
    requires Parkings(a) && WorldEnabled(a, e)
    ensures Parkings(WorldStep(a, e))
  {
    var b := WorldStep(a, e);
    assert a.s.rows <= b.s.rows;
    ParkingsGrow(a, b);
  }

  lemma StepKeepsParkings(a: System, e: Event)
    requires Parkings(a) && Enabled(a, e)
    ensures Parkings(Step(a, e))
  {
    if RunEnabled(a, e) {
      RunKeepsParkings(a, e);
    } else if HumanEnabled(a, e) {
      HumanKeepsParkings(a, e);
    } else {
      WorldKeepsParkings(a, e);
    }
  }

  // Two gates that hold back the same call are one gate, of one epoch.
  lemma SameCallSameEpoch(gates: seq<Gate>, i: nat, j: nat, id: CallId)
    requires DisjointParks(gates) && i < |gates| && j < |gates| && id in Parks(gates[i]) && id in Parks(gates[j])
    ensures i == j
  {
  }

  // ---------- Which call a claim starts ----------

  // The epoch's gate asks about this call.
  ghost predicate AboutGate(gates: seq<Gate>, epoch: nat, callId: CallId) {
    0 < epoch <= |gates| && gates[epoch - 1].kind != Continue && gates[epoch - 1].callId == callId
  }

  /** A claim takes the call of the gate it lands on exactly when that gate is the one its author read, and
      exactly when it was read in this very epoch. */
  lemma ClaimTakesItsCallIffGateWasRead(a: System, who: nat)
    requires Parkings(a) && HumanEnabled(a, Claim(who)) && GateClaimable(a.s)
    ensures var held := ClaimStep(a, who).people[who];
      && held.Held? && held.epoch == Epoch(a)
      && (AboutGate(a.gates, held.epoch, held.gate.callId) <==> a.s.gate == Some(held.gate))
      && (AboutGate(a.gates, held.epoch, held.gate.callId) <==> held.read == held.epoch)
  {
    var p := a.people[who];
    assert ReadThere(a.gates, p) && p.gate.callId in Parks(p.gate);
    if AboutGate(a.gates, Epoch(a), p.gate.callId) {
      SameCallSameEpoch(a.gates, p.read - 1, Epoch(a) - 1, p.gate.callId);
    }
  }

  // A start is of the call asked about in the epoch its author read, and came under a claim of its own epoch.
  ghost predicate StartTold(gates: seq<Gate>, m: Mark) {
    AboutGate(gates, m.read, m.callId) && 0 < m.epoch <= |gates|
  }

  ghost predicate Matched(a: System) {
    && Parkings(a) && Epochs(a)
    && (forall i :: 0 <= i < |a.people| && a.people[i].Held? ==> 0 < a.people[i].epoch <= |a.gates|)
    && (forall m :: m in a.starts ==> StartTold(a.gates, m))
  }

  // Nobody started anything, and a new holder holds a claim of this epoch.
  lemma MatchedGrows(a: System, b: System)
    requires Matched(a) && Parkings(b) && Epochs(b) && a.gates <= b.gates && b.starts == a.starts
    requires forall i :: 0 <= i < |b.people| && b.people[i].Held? ==>
               (i < |a.people| && b.people[i] == a.people[i]) || 0 < b.people[i].epoch <= |b.gates|
    ensures Matched(b)
  {
  }

  lemma ExecuteKeepsMatched(a: System, who: nat)
    requires Matched(a) && HumanEnabled(a, Execute(who))
    ensures Matched(HumanStep(a, Execute(who)))
  {
    var b := HumanStep(a, Execute(who));
    HumanKeepsParkings(a, Execute(who));
    HumanKeepsEpochs(a, Execute(who));
    var p := a.people[who];
    assert PersonKept(p) && ReadThere(a.gates, p);
    assert StartTold(b.gates, Mark(p.epoch, who, p.gate.callId, p.read));
  }

  lemma HumanKeepsMatched(a: System, e: Event)
    requires Matched(a) && HumanEnabled(a, e)
    ensures Matched(HumanStep(a, e))
  {
    if e.Execute? {
      ExecuteKeepsMatched(a, e.who);
    } else {
      HumanKeepsParkings(a, e);
      HumanKeepsEpochs(a, e);
      MatchedGrows(a, HumanStep(a, e));
    }
  }

  lemma RunKeepsMatched(a: System, e: Event)
    requires Matched(a) && RunEnabled(a, e)
    ensures Matched(RunStep(a, e))
  {
    RunKeepsParkings(a, e);
    RunKeepsEpochs(a, e);
    MatchedGrows(a, RunStep(a, e));
  }

  lemma WorldKeepsMatched(a: System, e: Event)
    requires Matched(a) && WorldEnabled(a, e)
    ensures Matched(WorldStep(a, e))
  {
    WorldKeepsParkings(a, e);
    WorldKeepsEpochs(a, e);
    MatchedGrows(a, WorldStep(a, e));
  }

  lemma StepKeepsMatched(a: System, e: Event)
    requires Matched(a) && Enabled(a, e)
    ensures Matched(Step(a, e))
  {
    if RunEnabled(a, e) {
      RunKeepsMatched(a, e);
    } else if HumanEnabled(a, e) {
      HumanKeepsMatched(a, e);
    } else {
      WorldKeepsMatched(a, e);
    }
  }

  lemma {:induction false} HistoryKeepsMatched(a: System, history: seq<Event>)
    requires Matched(a) && Runs(a, history)
    ensures Matched(After(a, history))
    decreases |history|
  {
    if history != [] {
      StepKeepsMatched(a, history[0]);
      HistoryKeepsMatched(Step(a, history[0]), history[1..]);
    }
  }

  /** On every history, two starts are of one call exactly when both their authors read that call's gate; a
      start is of the call its epoch's gate asks about exactly when its author read that gate; so where every
      claim lands on the gate that was read, a call is started once at most, however often the process died. */
  lemma CallsStartOncePerReading(a: System, history: seq<Event>)
    requires Matched(a) && Runs(a, history)
    ensures var b := After(a, history);
      && (forall i, j :: 0 <= i < j < |b.starts| ==>
            (b.starts[i].callId == b.starts[j].callId <==> b.starts[i].read == b.starts[j].read))
      && (forall m :: m in b.starts ==> (AboutGate(b.gates, m.epoch, m.callId) <==> m.read == m.epoch))
      && ((forall m :: m in b.starts ==> m.read == m.epoch) ==>
            forall i, j :: 0 <= i < j < |b.starts| ==> b.starts[i].callId != b.starts[j].callId)
  {
    HistoryKeepsMatched(a, history);
    var b := After(a, history);
    forall i, j | 0 <= i < j < |b.starts|
      ensures b.starts[i].callId == b.starts[j].callId <==> b.starts[i].read == b.starts[j].read
    {
      assert b.starts[i] in b.starts && b.starts[j] in b.starts;
      StartsShare(b, b.starts[i], b.starts[j]);
    }
    forall m | m in b.starts
      ensures AboutGate(b.gates, m.epoch, m.callId) <==> m.read == m.epoch
    {
      if AboutGate(b.gates, m.epoch, m.callId) {
        SameCallSameEpoch(b.gates, m.read - 1, m.epoch - 1, m.callId);
      }
    }
    assert forall i :: 0 <= i < |b.starts| ==> b.starts[i] in b.starts;
  }

  lemma StartsShare(a: System, x: Mark, y: Mark)
    requires Matched(a) && x in a.starts && y in a.starts
    ensures x.callId == y.callId <==> x.read == y.read
  {
    assert StartTold(a.gates, x) && StartTold(a.gates, y);
    if x.callId == y.callId {
      SameCallSameEpoch(a.gates, x.read - 1, y.read - 1, x.callId);
    }
  }

  /** What a request could check before it runs its call: the call was started already exactly when somebody
      who read the same gate started it. */
  lemma StartRepeatsIff(a: System, who: nat)
    requires Matched(a) && HumanEnabled(a, Execute(who))
    ensures (exists m :: m in a.starts && m.callId == a.people[who].gate.callId)
       <==> (exists m :: m in a.starts && m.read == a.people[who].read)
  {
    var b := Step(a, Execute(who));
    StepKeepsMatched(a, Execute(who));
    var mine := b.starts[|a.starts|];
    assert mine in b.starts;
    forall m | m in a.starts
      ensures m.callId == mine.callId <==> m.read == mine.read
    {
      assert m in b.starts;
      StartsShare(b, m, mine);
    }
  }
}
