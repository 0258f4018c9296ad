/**
 What no interleaving can break in the session row: the stored status, who is
 running, and how often one gate is claimed, executed and cleared.
 */
module ProtocolStatus {
  import opened Wrappers
  import opened Transcript
  import opened SessionTables
  import opened Protocol

  // ---------- The status and the seat ----------

  // A gate cleared by the first statement of a delete whose second has not run.
  ghost predicate InDeleteGap(a: System) {
    && a.s.status == ActionRequired && a.s.gate.None?
    && exists i :: 0 <= i < |a.people| && a.people[i].Deleting?
  }

  // Stored as resolved, and an alert is open.
  predicate Overtaken(a: System) {
    a.s.status == Resolved && a.s.gate.None? && a.f.open > 0
  }

  ghost predicate StatusTold(a: System) {
    match a.boot
    case Up => Exact(a.s, a.f) || InDeleteGap(a) || Overtaken(a)
    case Booting => Exact(a.s, a.f) || Stranded(a.s) || Overtaken(a)
    case _ => Exact(a.s, a.f) && a.s.status != Running
  }

  ghost predicate Seats(a: System) {
    && StatusTold(a)
    && (a.run.Some? <==> a.boot == Up && a.s.status == Running)
  }

  lemma FlushKeepsSeats(a: System, added: seq<Row>, phase: Phase)
    requires Seats(a) && a.run.Some?
    ensures Seats(Flushed(a, added, phase))
  {
  }

  lemma RunKeepsSeats(a: System, e: Event)
    requires Seats(a) && RunEnabled(a, e)
    ensures Seats(RunStep(a, e))
  {
    match e
    case Say(added) => FlushKeepsSeats(a, added, Turning);
    case Ask(row) => FlushKeepsSeats(a, [row], Calling(row));
    case Answer(results, notes) => FlushKeepsSeats(a, [ResultsRow(a, results)] + notes, Turning);
    case _ =>
  }

  // A delete in progress stays in progress while somebody else moves.
  lemma GapSurvives(a: System, b: System, who: nat)
    requires InDeleteGap(a) && who < |a.people| && !a.people[who].Deleting?
    requires |b.people| == |a.people| && b.s.status == ActionRequired && b.s.gate.None?
    requires forall i :: 0 <= i < |a.people| && i != who ==> b.people[i] == a.people[i]
    ensures InDeleteGap(b)
  {
    var i :| 0 <= i < |a.people| && a.people[i].Deleting?;
    assert b.people[i].Deleting?;
  }

  lemma HumanKeepsSeats(a: System, e: Event)
    requires Seats(a) && HumanEnabled(a, e)
    ensures Seats(HumanStep(a, e))
  {
    var b := HumanStep(a, e);
    match e
    case Arrive =>
    case Claim(who) => if InDeleteGap(a) { GapSurvives(a, b, who); }
    case Execute(who) => if InDeleteGap(a) { GapSurvives(a, b, who); }
    case Build(who, _, _) => if InDeleteGap(a) { GapSurvives(a, b, who); }
    case Number(who) => if InDeleteGap(a) { GapSurvives(a, b, who); }
    case Resolve(who) => if InDeleteGap(a) { GapSurvives(a, b, who); }
    case Delete(who) =>
      if a.s.gate.None? {
        if InDeleteGap(a) { GapSurvives(a, b, who); }
      } else {
        assert b.people[who].Deleting?;
      }
    case Refresh(who) =>
    case Dispatch(who) =>
  }

  lemma WorldKeepsSeats(a: System, e: Event)
    requires Seats(a) && WorldEnabled(a, e)
    ensures Seats(WorldStep(a, e))
  {
    match e
    case Tick(_) =>
    case AlertRouted =>
    case AlertJoins =>
    case AlertsClear(_) =>
    case Crash =>
    case BootMark =>
    case BootReplay(replayed) => PendingAnsweredKeeps(a.registry, a.s, a.f, replayed, a.now);
    case BootDecide => ErrorAppendedKeeps(a.s, if a.boot == Repaired then INTERRUPTED else ABANDONED, a.f, a.now);
    case BootThrows =>
    case BootDone =>
  }

  lemma StepKeepsSeats(a: System, e: Event)
    requires Seats(a) && Enabled(a, e)
    ensures Seats(Step(a, e))
  {
    if RunEnabled(a, e) {
      RunKeepsSeats(a, e);
    } else if HumanEnabled(a, e) {
      HumanKeepsSeats(a, e);
    } else {
      WorldKeepsSeats(a, e);
    }
  }

  // The step writes the status column.
  predicate WritesStatus(a: System, e: Event)
    requires Enabled(a, e)
  {
    match e
    case Start => true
    case Retry => true
    case Park(_) => true
    case Release => true
    case Resolve(who) => HumanEnabled(a, e) && a.s.gate.Some? && !Collides(a.s.rows, [a.people[who].row])
    case Refresh(_) => true
    case Dispatch(_) => Claimable(a.s)
    case AlertsClear(_) => true
    case BootMark => true
    case BootDecide => true
    case _ => false
  }

  // Whether an alert joined the session while it was stored as resolved, since its status was last written.
  predicate Late(a: System, history: seq<Event>, late: bool)
    requires Runs(a, history)
    decreases |history|
  {
    if history == [] then late
    else
      var e := history[0];
      Late(Step(a, e), history[1..],
           if e.AlertJoins? then late || a.s.status == Resolved else late && !WritesStatus(a, e))
  }

  lemma RunKeepsLate(a: System, e: Event)
    requires Seats(a) && RunEnabled(a, e)
    ensures Overtaken(RunStep(a, e)) <==> Overtaken(a) && !WritesStatus(a, e)
  {
  }

  lemma HumanKeepsLate(a: System, e: Event)
    requires Seats(a) && HumanEnabled(a, e)
    ensures Overtaken(HumanStep(a, e)) <==> Overtaken(a) && !WritesStatus(a, e)
  {
  }

  lemma WorldKeepsLate(a: System, e: Event)
    requires Seats(a) && WorldEnabled(a, e)
    ensures Overtaken(WorldStep(a, e)) <==>
              if e.AlertJoins? then Overtaken(a) || a.s.status == Resolved else Overtaken(a) && !WritesStatus(a, e)
  {
  }

  lemma StepKeepsLate(a: System, e: Event)
    requires Seats(a) && Enabled(a, e)
    ensures Overtaken(Step(a, e)) <==>
              if e.AlertJoins? then Overtaken(a) || a.s.status == Resolved else Overtaken(a) && !WritesStatus(a, e)
  {
    if RunEnabled(a, e) {
      RunKeepsLate(a, e);
    } else if HumanEnabled(a, e) {
      HumanKeepsLate(a, e);
    } else {
      WorldKeepsLate(a, e);
    }
  }

  /** On every history, a session nothing is running stores exactly what its gate, alerts, stop stamp and last
      row say if and only if it does not wait on a gate that is gone and no alert joined it while it was stored
      as resolved since its status was last written. With the process up, the first is a continue gate's delete
      in progress; and exactly the running session has a live run. */
  lemma {:induction false} StatusStaysTold(a: System, history: seq<Event>, late: bool)
    requires Seats(a) && Runs(a, history) && (late <==> Overtaken(a))
    ensures var b := After(a, history);
      && Seats(b) && (Late(a, history, late) <==> Overtaken(b))
      && (b.s.status != Running ==>
            (Exact(b.s, b.f) <==> !(b.s.status == ActionRequired && b.s.gate.None?) && !Late(a, history, late)))
      && (b.boot == Up && b.s.status == ActionRequired && b.s.gate.None? ==> InDeleteGap(b))
    decreases |history|
  {
    if history != [] {
      var e := history[0];
      StepKeepsSeats(a, e);
      StepKeepsLate(a, e);
      StatusStaysTold(Step(a, e), history[1..],
                      if e.AlertJoins? then late || a.s.status == Resolved else late && !WritesStatus(a, e));
    }
  }

  // Up and running, with nobody at the gate, one alert in all and this many of it open and routed.
  ghost predicate RunsAlone(a: System, open: nat, routed: nat) {
    && a.boot == Up && a.people == [] && a.s.status == Running && a.s.gate.None? && a.run.Some?
    && a.s.rows == [] && a.s.stoppedAt.None? && a.f == AlertFacts(1, open) && a.routed == routed
  }

  lemma RoutedThenCleared(init: System) returns (a: System)
    requires init == Initial(map[], 0, true, 1, 0)
    ensures Reachable(init, a) && RunsAlone(a, 0, 1)
  {
    assert Runs(init, []) && After(init, []) == init;
    Reach(init, init, Start);
    a := Step(init, Start);
    assert RunsAlone(a, 1, 0);
    Reach(init, a, AlertRouted);
    a := Step(a, AlertRouted);
    assert RunsAlone(a, 1, 1);
    Reach(init, a, AlertsClear(0));
    a := Step(a, AlertsClear(0));
  }

  lemma EndsResolved(init: System) returns (a: System)
    requires init == Initial(map[], 0, true, 1, 0)
    ensures Reachable(init, a)
    ensures a.boot == Up && a.run.None? && a.people == [] && a.routed == 1 && a.s.status == Resolved && a.s.gate.None?
    ensures a.s.rows == [] && a.s.stoppedAt.None? && a.f == AlertFacts(1, 0)
  {
    var b := RoutedThenCleared(init);
    Reach(init, b, Release);
    a := Step(b, Release);
  }

  ghost predicate StoredWrong(a: System) {
    && a.boot == Up && a.run.None? && a.people == [] && a.routed == 0
    && a.s.status == Resolved && StatusFrom(a.s, a.f) == Completed
  }

  /** The status can be stored wrong with nothing in progress: an alert is routed to a running session, the
      alert it had clears, the run ends as resolved, and the routed alert joins it. */
  lemma LateAlertMisleads()
    ensures exists a :: Reachable(Initial(map[], 0, true, 1, 0), a) && StoredWrong(a)
  {
    var init := Initial(map[], 0, true, 1, 0);
    var a := EndsResolved(init);
    Reach(init, a, AlertJoins);
    assert StoredWrong(Step(a, AlertJoins));
  }

  /** The boot steps of a killed session compose to one pass of recoverDeadRuns. */
  lemma BootIsRecovery(a: System, replayed: seq<ToolResult>)
    requires a.boot == Booting && a.s.status == Running
    requires Replays(Unanswered(a.s.rows), replayed)
    ensures var b := WorldStep(a, BootMark);
      && WorldEnabled(b, BootReplay(replayed))
      && var c := WorldStep(b, BootReplay(replayed));
      && WorldEnabled(c, BootDecide)
      && WorldStep(c, BootDecide).s == Recovered(a.registry, a.s, a.f, replayed, NoTrouble, a.now)
  {
    var done := MarkedDone(a.s, a.f);
    PendingAnsweredKeeps(a.registry, done, a.f, replayed, a.now);
    assert PendingAnswered(a.registry, done, a.f, replayed, a.now).status != Running;
  }

  /** And so they do where it throws. */
  lemma ThrowIsRecovery(a: System, replayed: seq<ToolResult>)
    requires a.boot == Booting && Stranded(a.s)
    ensures var b := WorldStep(a, BootMark);
      && WorldEnabled(b, BootThrows)
      && WorldStep(b, BootThrows).s == Recovered(a.registry, a.s, a.f, replayed, Unanswerable, a.now)
      && (a.s.status == Running && Replays(Unanswered(a.s.rows), replayed) ==>
            && WorldEnabled(b, BootReplay(replayed))
            && var c := WorldStep(b, BootReplay(replayed));
            && WorldEnabled(c, BootThrows)
            && WorldStep(c, BootThrows).s == Recovered(a.registry, a.s, a.f, replayed, Unsettled, a.now))
  {
    assert MarkedDone(a.s, a.f).rows == a.s.rows;
  }

  // ---------- Gate epochs ----------

  ghost predicate Rising(marks: seq<Mark>) {
    forall i, j :: 0 <= i < j < |marks| ==> marks[i].epoch < marks[j].epoch
  }

  ghost predicate Below(marks: seq<Mark>, epoch: nat) {
    forall m :: m in marks ==> m.epoch < epoch
  }

  ghost predicate StartOk(a: System, m: Mark) {
    m in a.claims && m.who < |a.people| && !a.people[m.who].Looking? && !a.people[m.who].Held?
  }

  ghost predicate Epochs(a: System) {
    && Rising(a.claims) && Below(a.claims, Epoch(a) + 1)
    && Rising(a.clears) && Below(a.clears, Epoch(a) + 1)
    && (a.s.gate.Some? ==> Below(a.clears, Epoch(a)))
    && (a.s.gate.Some? && a.s.claimedAt.None? ==> Below(a.claims, Epoch(a)))
    && (a.s.gate.Some? ==> a.gates != [] && a.gates[|a.gates| - 1] == a.s.gate.value)
    && (forall i :: 0 <= i < |a.people| && a.people[i].Held? ==>
          Mark(a.people[i].epoch, i, a.people[i].gate.callId, a.people[i].read) in a.claims)
    && (forall m :: m in a.starts ==> StartOk(a, m))
    && (forall i, j :: 0 <= i < j < |a.starts| ==> a.starts[i].epoch != a.starts[j].epoch)
  }

  // Nothing about the epochs moved but, at most, somebody giving up what they held.
  lemma EpochsUntouched(a: System, b: System)
    requires Epochs(a)
    requires b.gates == a.gates && b.claims == a.claims && b.starts == a.starts && b.clears == a.clears
    requires b.s.gate.None? || (b.s.gate == a.s.gate && b.s.claimedAt == a.s.claimedAt)
    requires |b.people| >= |a.people|
    requires forall i :: 0 <= i < |b.people| && b.people[i].Held? ==> i < |a.people| && b.people[i] == a.people[i]
    requires forall i :: 0 <= i < |a.people| && b.people[i].Looking? ==> a.people[i].Looking?
    ensures Epochs(b)
  {
    forall m | m in b.starts
      ensures StartOk(b, m)
    {
      assert StartOk(a, m);
    }
  }

  lemma RunKeepsEpochs(a: System, e: Event)
    requires Epochs(a) && RunEnabled(a, e)
    ensures Epochs(RunStep(a, e))
  {
    var b := RunStep(a, e);
    if e.Park? {
      forall m | m in b.starts
        ensures StartOk(b, m)
      {
        assert StartOk(a, m);
      }
    } else {
      EpochsUntouched(a, b);
    }
  }

  lemma ClaimKeepsEpochs(a: System, who: nat)
    requires Epochs(a) && HumanEnabled(a, Claim(who))
    ensures Epochs(ClaimStep(a, who))
  {
    var b := ClaimStep(a, who);
    if GateClaimable(a.s) {
      forall m | m in b.starts
        ensures StartOk(b, m)
      {
        assert StartOk(a, m);
      }
    } else {
      EpochsUntouched(a, b);
    }
  }

  lemma ExecuteKeepsEpochs(a: System, who: nat)
    requires Epochs(a) && HumanEnabled(a, Execute(who))
    ensures Epochs(HumanStep(a, Execute(who)))
  {
    var b := HumanStep(a, Execute(who));
    var p := a.people[who];
    var mine := Mark(p.epoch, who, p.gate.callId, p.read);
    forall m | m in a.starts
      ensures m.epoch != p.epoch && StartOk(b, m)
    {
      assert StartOk(a, m) && mine in a.claims;
    }
    assert StartOk(b, mine);
  }

  lemma ClearKeepsEpochs(a: System, b: System, mark: Mark)
    requires Epochs(a) && a.s.gate.Some? && mark.epoch == Epoch(a)
    requires b.s.gate.None? && b.clears == a.clears + [mark]
    requires b.gates == a.gates && b.claims == a.claims && b.starts == a.starts
    requires |b.people| == |a.people|
    requires forall i :: 0 <= i < |b.people| ==> b.people[i] == a.people[i] || b.people[i].Cleared? || b.people[i].Deleting?
    ensures Epochs(b)
  {
    EpochsUntouched(a, b.(clears := a.clears));
    forall m | m in b.starts
      ensures StartOk(b, m)
    {
      assert StartOk(a, m);
    }
  }

  lemma ResolveKeepsEpochs(a: System, who: nat)
    requires Epochs(a) && HumanEnabled(a, Resolve(who))
    ensures Epochs(ResolveStep(a, who))
  {
    var b := ResolveStep(a, who);
    if b.people[who].Cleared? {
      ClearKeepsEpochs(a, b, MarkNow(a, who));
    } else {
      EpochsUntouched(a, b);
    }
  }

  lemma DeleteKeepsEpochs(a: System, who: nat)
    requires Epochs(a) && HumanEnabled(a, Delete(who))
    ensures Epochs(HumanStep(a, Delete(who)))
  {
    var b := HumanStep(a, Delete(who));
    if a.s.gate.Some? {
      ClearKeepsEpochs(a, b, MarkNow(a, who));
    } else {
      EpochsUntouched(a, b);
    }
  }

  lemma MoveKeepsEpochs(a: System, e: Event)
    requires Epochs(a) && HumanEnabled(a, e) && !e.Claim? && !e.Execute? && !e.Resolve? && !e.Delete?
    ensures Epochs(HumanStep(a, e))
  {
    EpochsUntouched(a, HumanStep(a, e));
  }

  lemma HumanKeepsEpochs(a: System, e: Event)
    requires Epochs(a) && HumanEnabled(a, e)
    ensures Epochs(HumanStep(a, e))
  {
    if e.Claim? {
      ClaimKeepsEpochs(a, e.who);
    } else if e.Execute? {
      ExecuteKeepsEpochs(a, e.who);
    } else if e.Resolve? {
      ResolveKeepsEpochs(a, e.who);
    } else if e.Delete? {
      DeleteKeepsEpochs(a, e.who);
    } else {
      MoveKeepsEpochs(a, e);
    }
  }

  lemma WorldKeepsEpochs(a: System, e: Event)
    requires Epochs(a) && WorldEnabled(a, e)
    ensures Epochs(WorldStep(a, e))
  {
    EpochsUntouched(a, WorldStep(a, e));
  }

  // No two marks of the history fall in one gate epoch.
  ghost predicate OncePerEpoch(marks: seq<Mark>) {
    forall i, j :: 0 <= i < j < |marks| ==> marks[i].epoch != marks[j].epoch
  }

  /** On every history, each gate epoch is claimed at most once, has its call started at most once and
      only by the holder of that claim, and is cleared at most once. */
  lemma {:induction false} EachGateOnce(a: System, history: seq<Event>)
    requires Epochs(a) && Runs(a, history)
    ensures Epochs(After(a, history))
    ensures var b := After(a, history);
      && OncePerEpoch(b.claims) && OncePerEpoch(b.starts) && OncePerEpoch(b.clears)
      && (forall m :: m in b.starts ==> m in b.claims)
    decreases |history|
  {
    if history != [] {
      StepKeepsEpochs(a, history[0]);
      EachGateOnce(Step(a, history[0]), history[1..]);
    } else {
      forall m | m in a.starts
        ensures m in a.claims
      {
        assert StartOk(a, m);
      }
    }
  }

  lemma StepKeepsEpochs(a: System, e: Event)
    requires Epochs(a) && Enabled(a, e)
    ensures Epochs(Step(a, e))
  {
    if RunEnabled(a, e) {
      RunKeepsEpochs(a, e);
    } else if HumanEnabled(a, e) {
      HumanKeepsEpochs(a, e);
    } else {
      WorldKeepsEpochs(a, e);
    }
  }

  // Somebody past the claim without holding it, whose call was never started.
  ghost predicate Refused(a: System, who: nat) {
    && who < |a.people| && !a.people[who].Looking? && !a.people[who].Held? && !a.people[who].Executed?
    && forall m :: m in a.starts ==> m.who != who
  }

  lemma HumanKeepsRefused(a: System, who: nat, e: Event)
    requires Refused(a, who) && HumanEnabled(a, e)
    ensures Refused(HumanStep(a, e), who)
  {
  }

  lemma StepKeepsRefused(a: System, who: nat, e: Event)
    requires Refused(a, who) && Enabled(a, e)
    ensures Refused(Step(a, e), who)
  {
    if RunEnabled(a, e) {
      assert RunStep(a, e).people == a.people && RunStep(a, e).starts == a.starts;
    } else if HumanEnabled(a, e) {
      HumanKeepsRefused(a, who, e);
    } else {
      assert WorldStep(a, e).starts == a.starts;
    }
  }

  /** A claim found held starts nothing, then or ever: whatever its age, and whatever happens afterwards, no call
      is started on behalf of the request it was refused to. */
  lemma RefusedClaimNeverExecutes(a: System, who: nat, history: seq<Event>)
    requires Epochs(a) && HumanEnabled(a, Claim(who)) && !GateClaimable(a.s) && Runs(Step(a, Claim(who)), history)
    ensures forall m :: m in After(Step(a, Claim(who)), history).starts ==> m.who != who
  {
    forall m | m in a.starts
      ensures m.who != who
    {
      assert StartOk(a, m);
    }
    StaysRefused(Step(a, Claim(who)), who, history);
  }

  lemma {:induction false} StaysRefused(a: System, who: nat, history: seq<Event>)
    requires Refused(a, who) && Runs(a, history)
    ensures Refused(After(a, history), who)
    decreases |history|
  {
    if history != [] {
      StepKeepsRefused(a, who, history[0]);
      StaysRefused(Step(a, history[0]), who, history[1..]);
    }
  }
}
