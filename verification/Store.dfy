/**
 The store itself: the sessions and alerts tables, with one method per exported
 operation. Each method's new state is a function of the old tables, so what is
 proved about those functions is proved about the store.
 */
module Store {
  import opened Wrappers
  import opened Transcript
  import opened SessionTables
  import opened AlertTable
  import opened Promotion

  // ---------- What every operation owes the status column ----------

  ghost predicate AllExact(t: Tables) {
    forall id :: id in t.sessions ==> Exact(t.sessions[id], FactsOf(t.alerts, id))
  }

  // What the stored status says of the tables. A gate leads; then a recovery, when the session owns an alert and none it
  // owns is open, whoever ended the run and however; then a stop, then an error row at the end.
  ghost predicate StatusSays(t: Tables, id: SessionId)
    requires id in t.sessions
  {
    var s := t.sessions[id];
    var recovered := Owns(t.alerts, id) && !OwnsOpen(t.alerts, id);
    && (s.status == ActionRequired <==> s.gate.Some?)
    && (s.status == Resolved <==> s.gate.None? && recovered)
    && (s.status == Stopped <==> s.gate.None? && !recovered && s.stoppedAt.Some?)
    && (s.status == Failed <==> s.gate.None? && !recovered && s.stoppedAt.None? && EndsOnError(s.rows))
    && (s.status == Completed <==> s.gate.None? && !recovered && s.stoppedAt.None? && !EndsOnError(s.rows))
  }

  /** Every status is exact if and only if each session nothing runs says what its rows say. */
  lemma ExactSays(t: Tables)
    ensures AllExact(t) <==> forall id :: id in t.sessions && t.sessions[id].status != Running ==> StatusSays(t, id)
    ensures forall id :: id in t.sessions ==>
              (t.sessions[id].status == StatusFrom(t.sessions[id], FactsOf(t.alerts, id)) <==> StatusSays(t, id))
  {
    forall id | id in t.sessions
      ensures t.sessions[id].status == StatusFrom(t.sessions[id], FactsOf(t.alerts, id)) <==> StatusSays(t, id)
    {
      FactsMean(t.alerts, id);
      ExactMeans(t.sessions[id], FactsOf(t.alerts, id));
    }
  }

  // The status was just derived, unless a run has the session.
  ghost predicate SaysUnlessRunning(t: Tables, id: SessionId) {
    id in t.sessions && t.sessions[id].status != Running ==> StatusSays(t, id)
  }

  // No session changed but this one, and of it only the status column.
  ghost predicate OnlyStatus(before: map<SessionId, Session>, later: map<SessionId, Session>, id: SessionId) {
    && later.Keys == before.Keys
    && forall x :: x in before ==> later[x] == if x == id then before[x].(status := later[x].status) else before[x]
  }

  // An UPDATE of one session's row, which touches no row where there is none.
  function RowUpdated(t: Tables, id: SessionId, effect: (Session, AlertFacts) -> Session): Tables {
    if id in t.sessions then t.(sessions := t.sessions[id := effect(t.sessions[id], FactsOf(t.alerts, id))]) else t
  }

  // refreshSessionStatus on each of these sessions.
  function AllRefreshed(t: Tables, ids: set<SessionId>): Tables {
    t.(sessions := map id | id in t.sessions ::
         if id in ids then Refreshed(t.sessions[id], FactsOf(t.alerts, id)) else t.sessions[id])
  }

  lemma RefreshedSays(t: Tables, ids: set<SessionId>)
    ensures forall id :: id in ids ==> SaysUnlessRunning(AllRefreshed(t, ids), id)
  {
    ExactSays(AllRefreshed(t, ids));
  }

  function OwnersCleared(rows: seq<AlertRow>, firing: Firing): set<SessionId> {
    set i | 0 <= i < |rows| && rows[i].firing == firing && rows[i].clearedAt.None? && rows[i].owner.Some? ::
      rows[i].owner.value
  }

  lemma {:induction false} FactsConcat(rows: seq<AlertRow>, added: seq<AlertRow>, id: SessionId)
    requires forall i :: 0 <= i < |added| ==> added[i].owner != Some(id)
    ensures FactsOf(rows + added, id) == FactsOf(rows, id)
    decreases |added|
  {
    if added == [] {
      assert rows + added == rows;
    } else {
      var n := |added| - 1;
      FactsConcat(rows, added[..n], id);
      assert (rows + added)[..|rows + added| - 1] == rows + added[..n];
    }
  }

  /** Clearing an alert and refreshing exactly the sessions that owned a cleared row leaves every status exact. */
  lemma ClearingKeepsExact(t: Tables, firing: Firing, now: int)
    requires AllExact(t)
    ensures AllExact(AllRefreshed(t.(alerts := Cleared(t.alerts, firing, now)), OwnersCleared(t.alerts, firing)))
  {
    var later := Cleared(t.alerts, firing, now);
    forall id | id in t.sessions && id !in OwnersCleared(t.alerts, firing)
      ensures FactsOf(later, id) == FactsOf(t.alerts, id)
    {
      FactsDepend(t.alerts, later, id);
    }
  }

  lemma PromotionKeepsExact(t: Tables, id: SessionId, now: int)
    requires AllExact(t) && id !in t.sessions && OwnersExist(t) && OldestWaiting(t.alerts) < |t.alerts|
    ensures AllExact(Promoted(t, id, now))
  {
    var b := Promoted(t, id, now);
    forall other | other in t.sessions
      ensures FactsOf(b.alerts, other) == FactsOf(t.alerts, other)
    {
      FactsDepend(t.alerts, b.alerts, other);
    }
  }

  /** A promotion pass rewrites no firing and no clear stamp, and leaves every status exact. */
  lemma {:induction false} PassKeepsExact(t: Tables, limit: nat, uuid: nat -> SessionId, k: nat, now: int)
    requires OwnersExist(t) && (forall n :: n >= k ==> uuid(n) !in t.sessions)
    requires forall m: nat, n: nat :: uuid(m) == uuid(n) ==> m == n
    ensures var b := PromotedAll(t, limit, uuid, k, now);
      && OwnersExist(b) && |b.alerts| == |t.alerts|
      && (forall i :: 0 <= i < |t.alerts| ==>
            b.alerts[i].firing == t.alerts[i].firing && b.alerts[i].clearedAt == t.alerts[i].clearedAt)
      && (AllExact(t) ==> AllExact(b))
    decreases CountWaiting(t.alerts)
  {
    if CanPromote(t, limit) {
      PromotionShrinksTheQueue(t, uuid(k), now);
      PromotionTakesItsGroup(t, uuid(k), now, OldestWaiting(t.alerts));
      if AllExact(t) {
        PromotionKeepsExact(t, uuid(k), now);
      }
      PassKeepsExact(Promoted(t, uuid(k), now), limit, uuid, k + 1, now);
    }
  }

  // ---------- Replaying ----------

  // What executing a call came back with is not the store's to say.
  type Outcomes = Part -> (string, bool)

  function ReplayOf(calls: seq<Part>, outcomes: Outcomes): (results: seq<ToolResult>)
    requires forall c :: c in calls ==> c.CallPart?
    ensures Replays(calls, results)
    ensures forall i :: 0 <= i < |calls| ==> (results[i].content, results[i].isError) == outcomes(calls[i])
  {
    seq(|calls|, i requires 0 <= i < |calls| => ToolResult(calls[i].callId, outcomes(calls[i]).0, outcomes(calls[i]).1))
  }

  function ReplayAll(rows: seq<Row>, outcomes: Outcomes): seq<ToolResult> {
    UnansweredIds(rows);
    ReplayOf(Unanswered(rows), outcomes)
  }

  method EveryReplayable(registry: Registry, calls: seq<Part>) returns (all: bool)
    requires forall c :: c in calls ==> c.CallPart?
    ensures all <==> forall i :: 0 <= i < |calls| ==>
              calls[i].name in registry && (registry[calls[i].name].effect == Read || registry[calls[i].name].idempotent)
  {
    for i := 0 to |calls|
      invariant forall k :: 0 <= k < i ==> CanReplay(registry, calls[k].name)
    {
      if !CanReplay(registry, calls[i].name) {
        return false;
      }
    }
    return true;
  }

  lemma PendingRunAgain(registry: Registry, rows: seq<Row>)
    ensures var calls := Unanswered(rows);
      && (forall c :: c in calls ==> c.CallPart?)
      && (AllReplayable(registry, calls) <==> forall i :: 0 <= i < |calls| ==>
            calls[i].name in registry && (registry[calls[i].name].effect == Read || registry[calls[i].name].idempotent))
      && (AllReplayable(registry, calls) <==> AllRunAgain(registry, rows))
  {
    var calls := Unanswered(rows);
    UnansweredIds(rows);
    ReplayableMeans(registry, rows);
    forall i | 0 <= i < |calls|
      ensures calls[i] in calls && calls[i].CallPart?
    {
    }
  }

  method Replay(registry: Registry, calls: seq<Part>, outcomes: Outcomes)
    returns (results: seq<ToolResult>, citable: set<CallId>)
    requires forall c :: c in calls ==> c.CallPart?
    ensures results == ReplayOf(calls, outcomes) && citable == CitableCalls(registry, calls)
  {
    results, citable := [], {};
    for i := 0 to |calls|
      invariant results == ReplayOf(calls, outcomes)[..i]
      invariant citable == CitableCalls(registry, calls[..i])
    {
      assert calls[..i + 1] == calls[..i] + [calls[i]];
      if IsCitable(registry, calls[i].name) {
        citable := citable + {calls[i].callId};
      }
      var (content, isError) := outcomes(calls[i]);
      results := results + [ToolResult(calls[i].callId, content, isError)];
    }
    assert calls[..|calls|] == calls;
  }

  method BuildReplayRow(registry: Registry, rows: seq<Row>, calls: seq<Part>, outcomes: Outcomes, now: int)
    returns (row: Row)
    requires calls == Unanswered(rows)
    ensures row == ReplayRow(registry, rows, ReplayAll(rows, outcomes), now)
  {
    UnansweredIds(rows);
    var results, citable := Replay(registry, calls, outcomes);
    var highest := HighestEvidenceNumber(rows);
    var parts, _ := ResultParts(results, citable, highest + 1);
    row := Row(NextSeq(rows), User, "", parts, now);
  }

  function SettledBy(registry: Registry, s: Session, f: AlertFacts, outcomes: Outcomes, now: int): Session {
    PendingAnswered(registry, MarkedDone(s, f), f, ReplayAll(s.rows, outcomes), now)
  }

  function RecoveredBy(registry: Registry, s: Session, f: AlertFacts, outcomes: Outcomes, trouble: Trouble, now: int): Session {
    Recovered(registry, s, f, ReplayAll(s.rows, outcomes), trouble, now)
  }

  // What goes wrong while each session is recovered is not the store's to say either.
  type Troubles = SessionId -> Trouble

  // Each of these sessions recovered, and every other left as it was.
  function AllRecovered(registry: Registry, t: Tables, ids: set<SessionId>, outcomes: Outcomes, troubles: Troubles, now: int)
    : Tables
  {
    t.(sessions := map id | id in t.sessions ::
         if id in ids then RecoveredBy(registry, t.sessions[id], FactsOf(t.alerts, id), outcomes, troubles(id), now)
         else t.sessions[id])
  }

  function StrandedIds(t: Tables): set<SessionId> {
    set id | id in t.sessions && Stranded(t.sessions[id])
  }

  /** After recovery, whatever it threw on the way, every status is exact if and only if that of each session it passed
      over was; a seat is held only by a session that was resumed or by one waiting at a gate, and every gate still
      holds its call and its saved results. */
  lemma RecoverySettlesAll(registry: Registry, t: Tables, outcomes: Outcomes, troubles: Troubles, now: int)
    ensures var b := AllRecovered(registry, t, StrandedIds(t), outcomes, troubles, now);
      && (AllExact(b) <==>
          forall id :: id in t.sessions && !Stranded(t.sessions[id]) ==> Exact(t.sessions[id], FactsOf(t.alerts, id)))
      && (forall id :: id in b.sessions ==> b.sessions[id].gate == t.sessions[id].gate)
      && (forall id :: id in b.sessions && HoldsSeat(b.sessions[id]) ==>
            b.sessions[id].gate.Some? || (b.sessions[id].status == Running && t.sessions[id].status == Running
                                         && FactsOf(t.alerts, id).open > 0))
  {
    var b := AllRecovered(registry, t, StrandedIds(t), outcomes, troubles, now);
    forall id | id in t.sessions
      ensures Exact(b.sessions[id], FactsOf(t.alerts, id))
         <==> Stranded(t.sessions[id]) || Exact(t.sessions[id], FactsOf(t.alerts, id))
      ensures b.sessions[id].gate == t.sessions[id].gate
      ensures HoldsSeat(b.sessions[id]) ==>
                b.sessions[id].gate.Some? || (b.sessions[id].status == Running && t.sessions[id].status == Running
                                             && FactsOf(t.alerts, id).open > 0)
    {
      RecoverySettles(registry, t.sessions[id], FactsOf(t.alerts, id), ReplayAll(t.sessions[id].rows, outcomes), troubles(id), now);
    }
  }

  /** After recovery, a killed session that did not throw holds answers to its pending calls if and only if each of them
      reads or is idempotent, and runs if and only if it has an open alert and is fresh. */
  lemma BootRunsAgainIff(registry: Registry, t: Tables, outcomes: Outcomes, troubles: Troubles, now: int, id: SessionId)
    requires id in t.sessions && t.sessions[id].status == Running && troubles(id) == NoTrouble
    ensures var s, r := t.sessions[id], AllRecovered(registry, t, StrandedIds(t), outcomes, troubles, now).sessions[id];
      && s.rows <= r.rows
      && (AllRunAgain(registry, s.rows) <==> forall p :: Pending(s.rows, p) ==> Transcript.Answered(r.rows, p.callId))
      && (r.status == Running <==>
            && OwnsOpen(t.alerts, id)
            && ((AllRunAgain(registry, s.rows) && exists p :: Pending(s.rows, p))
                || now - (if s.rows == [] then s.createdAt else s.rows[|s.rows| - 1].at) <= 900_000))
  {
    var s, f := t.sessions[id], FactsOf(t.alerts, id);
    FactsMean(t.alerts, id);
    RecoveryReplaysIff(registry, s, f, ReplayAll(s.rows, outcomes), now);
    RecoveryResumesIff(registry, s, f, ReplayAll(s.rows, outcomes), NoTrouble, now);
  }

  function RunningAmong(sessions: map<SessionId, Session>, ids: set<SessionId>): set<SessionId> {
    set id | id in ids && id in sessions && sessions[id].status == Running
  }

  lemma RunningWithout(sessions: map<SessionId, Session>, ids: set<SessionId>, id: SessionId)
    requires id in ids && id in sessions
    ensures |RunningAmong(sessions, ids)|
         == |RunningAmong(sessions, ids - {id})| + (if sessions[id].status == Running then 1 else 0)
    ensures |ids - {id}| == |ids| - 1
  {
    if sessions[id].status == Running {
      assert RunningAmong(sessions, ids) == RunningAmong(sessions, ids - {id}) + {id};
    } else {
      assert RunningAmong(sessions, ids) == RunningAmong(sessions, ids - {id});
    }
  }

  function TroubledAmong(troubles: Troubles, ids: set<SessionId>): set<SessionId> {
    set id | id in ids && troubles(id) != NoTrouble
  }

  lemma TroubledWithout(troubles: Troubles, ids: set<SessionId>, id: SessionId)
    requires id in ids
    ensures |TroubledAmong(troubles, ids)|
         == |TroubledAmong(troubles, ids - {id})| + (if troubles(id) != NoTrouble then 1 else 0)
  {
    if troubles(id) != NoTrouble {
      assert TroubledAmong(troubles, ids) == TroubledAmong(troubles, ids - {id}) + {id};
    } else {
      assert TroubledAmong(troubles, ids) == TroubledAmong(troubles, ids - {id});
    }
  }

  // Recovery has yet to reach the sessions left; the others are as it leaves them.
  ghost predicate Midway(was: map<SessionId, Session>, goal: map<SessionId, Session>, at: map<SessionId, Session>,
                   left: set<SessionId>)
  {
    && was.Keys == goal.Keys == at.Keys
    && forall id :: id in at ==> at[id] == if id in left then was[id] else goal[id]
  }

  lemma MidwayStep(was: map<SessionId, Session>, goal: map<SessionId, Session>, at: map<SessionId, Session>,
                   left: set<SessionId>, id: SessionId)
    requires Midway(was, goal, at, left) && id in goal
    ensures Midway(was, goal, at[id := goal[id]], left - {id})
  {
  }

  datatype Settled = Won | Lost | Aborted

  class Database {
    var sessions: map<SessionId, Session>
    var alerts: seq<AlertRow>

    constructor ()
      ensures sessions == map[] && alerts == []
    {
      sessions, alerts := map[], [];
    }

    function State(): Tables
      reads this
    {
      Tables(sessions, alerts)
    }

    // ---------- Status ----------

    method CreateSession(id: SessionId, investigation: bool, now: int)
      modifies this`sessions
      ensures sessions == if id in old(sessions) then old(sessions)
                          else old(sessions)[id := NewSession(investigation, now)]
    {
      if id !in sessions {
        sessions := sessions[id := NewSession(investigation, now)];
      }
    }

    method RefreshSessionStatus(id: SessionId)
      modifies this`sessions
      ensures State() == RowUpdated(old(State()), id, Refreshed)
      ensures SaysUnlessRunning(State(), id) && OnlyStatus(old(sessions), sessions, id)
      ensures id in old(sessions) && old(sessions)[id].status == Running ==> sessions == old(sessions)
    {
      if id in sessions && sessions[id].status != Running {
        sessions := sessions[id := sessions[id].(status := StatusFrom(sessions[id], FactsOf(alerts, id)))];
      }
      ExactSays(State());
    }

    /** The conditional UPDATE that is the dispatch mutex. */
    method ClaimRun(id: SessionId) returns (claimed: bool)
      modifies this`sessions
      ensures claimed <==> id in old(sessions) && old(sessions)[id].status != Running
      ensures claimed ==> State() == RowUpdated(old(State()), id, (s: Session, f: AlertFacts) => s.(status := Running, stoppedAt := None))
      ensures !claimed ==> State() == old(State())
    {
      claimed := id in sessions && sessions[id].status != Running;
      if claimed {
        sessions := sessions[id := RunClaimed(sessions[id])];
      }
    }

    method ReleaseRun(id: SessionId)
      modifies this`sessions
      ensures State() == RowUpdated(old(State()), id, RunReleased)
      ensures OnlyStatus(old(sessions), sessions, id)
      ensures id in old(sessions) && old(sessions)[id].status == Running ==> id in sessions && StatusSays(State(), id)
      ensures id in old(sessions) && old(sessions)[id].status != Running ==> sessions == old(sessions)
    {
      if id in sessions && sessions[id].status == Running {
        sessions := sessions[id := sessions[id].(status := StatusFrom(sessions[id], FactsOf(alerts, id)))];
      }
      ExactSays(State());
    }

    method MarkDone(id: SessionId)
      modifies this`sessions
      ensures State() == RowUpdated(old(State()), id, MarkedDone)
      ensures OnlyStatus(old(sessions), sessions, id)
      ensures id in sessions ==> StatusSays(State(), id)
    {
      if id in sessions {
        sessions := sessions[id := sessions[id].(status := StatusFrom(sessions[id], FactsOf(alerts, id)))];
      }
      ExactSays(State());
    }

    method MarkStopped(id: SessionId, now: int)
      modifies this`sessions
      ensures State() == RowUpdated(old(State()), id, (s: Session, f: AlertFacts) => MarkedStopped(s, f, now))
      ensures SaysUnlessRunning(State(), id)
      ensures id in old(sessions) ==> id in sessions && sessions[id].stoppedAt == Some(now)
      ensures id in old(sessions) && old(sessions)[id].status == Running ==> sessions[id].status == Running
    {
      if id in sessions {
        sessions := sessions[id := sessions[id].(stoppedAt := Some(now))];
      }
      RefreshSessionStatus(id);
    }

    method RecordRunFailure(id: SessionId, kind: FailureKind)
      modifies this`sessions
      ensures State() == RowUpdated(old(State()), id, (s: Session, f: AlertFacts) => FailureRecorded(s, kind))
    {
      if id in sessions {
        sessions := sessions[id := FailureRecorded(sessions[id], kind)];
      }
    }

    method ClearRunFailure(id: SessionId)
      modifies this`sessions
      ensures State() == RowUpdated(old(State()), id, (s: Session, f: AlertFacts) => FailureCleared(s))
    {
      if id in sessions {
        sessions := sessions[id := FailureCleared(sessions[id])];
      }
    }

    // ---------- Transcript ----------

    // The insert aborts on a repeated seq, and on a session that does not exist.
    predicate Insertable(id: SessionId, added: seq<Row>)
      reads this
    {
      added == [] || (id in sessions && !Collides(sessions[id].rows, added))
    }

    method AppendTranscriptRows(id: SessionId, added: seq<Row>) returns (committed: bool)
      modifies this`sessions
      ensures committed == old(Insertable(id, added))
      ensures State() == if committed then RowUpdated(old(State()), id, (s: Session, f: AlertFacts) => RowsAppended(s, added, f))
                         else old(State())
      ensures committed && added != [] ==> SaysUnlessRunning(State(), id)
    {
      committed := Insertable(id, added);
      if committed && added != [] {
        sessions := sessions[id := sessions[id].(rows := sessions[id].rows + added)];
        RefreshSessionStatus(id);
      }
    }

    method AppendErrorMessage(id: SessionId, text: string, now: int) returns (committed: bool)
      modifies this`sessions
      ensures committed == (id in old(sessions))
      ensures State() == RowUpdated(old(State()), id, (s: Session, f: AlertFacts) => ErrorAppended(s, text, f, now))
      ensures SaysUnlessRunning(State(), id)
    {
      committed := id in sessions;
      if committed {
        var rows := sessions[id].rows;
        sessions := sessions[id := sessions[id].(rows := rows + [ErrorRow(rows, text, now)])];
        RefreshSessionStatus(id);
      }
    }

    method AppendRowsAndPark(id: SessionId, added: seq<Row>, gate: Gate) returns (committed: bool)
      modifies this`sessions
      ensures committed == old(Insertable(id, added))
      ensures State() == if committed then RowUpdated(old(State()), id, (s: Session, f: AlertFacts) => Parked(s, added, gate))
                         else old(State())
      ensures committed && id in old(sessions) ==>
                && id in sessions
                && sessions[id] == old(sessions)[id].(rows := old(sessions)[id].rows + added, status := ActionRequired,
                                                      gate := Some(gate), claimedAt := None)
    {
      committed := Insertable(id, added);
      if committed && id in sessions {
        sessions := sessions[id := Parked(sessions[id], added, gate)];
      }
    }

    /** The answered turn and the cleared gate in one transaction: both happen, or neither. */
    method AppendRowsAndResolve(id: SessionId, added: seq<Row>) returns (settled: Settled)
      modifies this`sessions
      ensures settled == Lost <==> !(id in old(sessions) && old(sessions)[id].gate.Some?)
      ensures settled == Won <==> id in old(sessions) && old(sessions)[id].gate.Some? && old(Insertable(id, added))
      ensures State() == if settled == Won then RowUpdated(old(State()), id, (s: Session, f: AlertFacts) => SessionTables.Answered(s, added, f))
                         else old(State())
      ensures settled == Won ==>
                && SaysUnlessRunning(State(), id) && id in sessions && sessions[id].gate.None? && sessions[id].claimedAt.None?
                && sessions[id].rows == old(sessions)[id].rows + added
    {
      if id !in sessions || sessions[id].gate.None? {
        return Lost;
      }
      if !Insertable(id, added) {
        return Aborted;
      }
      var s := Ungated(sessions[id]);
      sessions := sessions[id := s.(rows := s.rows + added)];
      RefreshSessionStatus(id);
      return Won;
    }

    // ---------- The gate ----------

    method ClaimPendingHumanInput(id: SessionId, now: int) returns (claimed: bool)
      modifies this`sessions
      ensures claimed <==> id in old(sessions) && GateClaimable(old(sessions)[id])
      ensures State() == if claimed then RowUpdated(old(State()), id, (s: Session, f: AlertFacts) => s.(claimedAt := Some(now)))
                         else old(State())
    {
      claimed := id in sessions && GateClaimable(sessions[id]);
      if claimed {
        sessions := sessions[id := GateClaimed(sessions[id], now)];
      }
    }

    method DeletePendingHumanInput(id: SessionId) returns (deleted: bool)
      modifies this`sessions
      ensures deleted <==> id in old(sessions) && old(sessions)[id].gate.Some?
      ensures State() == if deleted then RowUpdated(old(State()), id, (s: Session, f: AlertFacts) => Refreshed(Ungated(s), f))
                         else old(State())
      ensures deleted ==>
                && SaysUnlessRunning(State(), id) && id in sessions && sessions[id].gate.None? && sessions[id].claimedAt.None?
                && sessions[id].rows == old(sessions)[id].rows
    {
      deleted := id in sessions && sessions[id].gate.Some?;
      if deleted {
        sessions := sessions[id := Ungated(sessions[id])];
        RefreshSessionStatus(id);
      }
    }

    // ---------- Alerts ----------

    method EnqueueAlerts(group: string, firings: seq<Firing>, now: int)
      modifies this`alerts
      ensures alerts == Enqueued(old(alerts), group, firings, now)
    {
      alerts := alerts + seq(|firings|, i requires 0 <= i < |firings| => NewRow(None, group, firings[i], now));
    }

    method AppendSessionAlert(id: SessionId, group: string, firing: Firing, now: int)
      modifies this`alerts
      ensures alerts == old(alerts) + [NewRow(Some(id), group, firing, now)]
    {
      alerts := alerts + [NewRow(Some(id), group, firing, now)];
    }

    /** markAlertCleared: stamps the firing's open rows, then refreshes each session that owned one. */
    method MarkAlertCleared(firing: Firing, now: int) returns (affected: set<SessionId>)
      requires OwnersExist(State())
      modifies this
      ensures |alerts| == |old(alerts)| && forall i :: 0 <= i < |alerts| ==>
                alerts[i] == if old(alerts)[i].firing == firing && old(alerts)[i].clearedAt.None?
                             then old(alerts)[i].(clearedAt := Some(now)) else old(alerts)[i]
      ensures forall id :: id in affected <==>
                exists row :: row in old(alerts) && row.firing == firing && row.clearedAt.None? && row.owner == Some(id)
      ensures affected == OwnersCleared(old(alerts), firing)
      ensures State() == AllRefreshed(Tables(old(sessions), Cleared(old(alerts), firing, now)), affected)
      ensures forall id :: id in affected ==> SaysUnlessRunning(State(), id)
      ensures old(AllExact(State())) ==> AllExact(State())
      ensures OwnersExist(State())
    {
      affected := OwnersCleared(alerts, firing);
      alerts := Cleared(alerts, firing, now);
      ghost var before := State();
      var left := affected;
      while left != {}
        invariant left <= affected
        invariant alerts == before.alerts
        invariant sessions == AllRefreshed(before, affected - left).sessions
        decreases left
      {
        var id :| id in left;
        RefreshSessionStatus(id);
        left := left - {id};
      }
      RefreshedSays(before, affected);
      if old(AllExact(State())) {
        ClearingKeepsExact(old(State()), firing, now);
      }
    }

    // ---------- Boot recovery ----------

    /** answerPendingCalls: every open call replayed in one row, or none when one of them cannot be. */
    method AnswerPendingCalls(registry: Registry, id: SessionId, calls: seq<Part>, outcomes: Outcomes, now: int)
      returns (answered: bool)
      requires id in sessions && calls == Unanswered(sessions[id].rows) && calls != []
      modifies this`sessions
      ensures answered <==> AllRunAgain(registry, old(sessions)[id].rows)
      ensures sessions == old(sessions)[id := PendingAnswered(registry, old(sessions)[id], FactsOf(alerts, id),
                                               ReplayAll(old(sessions)[id].rows, outcomes), now)]
    {
      var rows := sessions[id].rows;
      PendingRunAgain(registry, rows);
      answered := EveryReplayable(registry, calls);
      if answered {
        var row := BuildReplayRow(registry, rows, calls, outcomes, now);
        NextSeqIsPast(rows);
        var _ := AppendTranscriptRows(id, [row]);
      }
    }

    // A killed run whose exchange is settled: resumed while its alert is fresh, failed otherwise.
    method Conclude(id: SessionId, now: int) returns (resumed: bool)
      requires id in sessions && sessions[id].status != Running
      modifies this`sessions
      ensures sessions == old(sessions)[id := if resumed then RunClaimed(old(sessions)[id])
                                              else ErrorAppended(old(sessions)[id], INTERRUPTED, FactsOf(alerts, id), now)]
      ensures resumed == WorthResuming(old(sessions)[id], FactsOf(alerts, id), now)
      ensures resumed <==> sessions[id].status == Running
    {
      if WorthResuming(sessions[id], FactsOf(alerts, id), now) {
        resumed := ClaimRun(id);
      } else {
        var _ := AppendErrorMessage(id, INTERRUPTED, now);
        resumed := false;
      }
    }

    // A session at rest, with its open calls replayed where they can be.
    method AnswerWhatPends(registry: Registry, id: SessionId, outcomes: Outcomes, now: int)
      requires id in sessions && sessions[id].status == StatusFrom(sessions[id], FactsOf(alerts, id))
      modifies this`sessions
      ensures sessions == old(sessions)[id := PendingAnswered(registry, old(sessions)[id], FactsOf(alerts, id),
                                               ReplayAll(old(sessions)[id].rows, outcomes), now)]
      ensures sessions[id].status != Running
    {
      ghost var s := sessions[id];
      var pending := Unanswered(sessions[id].rows);
      if pending != [] {
        var _ := AnswerPendingCalls(registry, id, pending, outcomes, now);
      }
      PendingAnsweredKeeps(registry, s, FactsOf(alerts, id), ReplayAll(s.rows, outcomes), now);
    }

    // A killed run put down, with its open calls replayed where they can be.
    method PutDown(registry: Registry, id: SessionId, outcomes: Outcomes, trouble: Trouble, now: int)
      requires id in sessions
      modifies this`sessions
      ensures sessions == old(sessions)[id :=
                if trouble == Unanswerable then MarkedDone(old(sessions)[id], FactsOf(alerts, id))
                else SettledBy(registry, old(sessions)[id], FactsOf(alerts, id), outcomes, now)]
      ensures sessions[id].status != Running
    {
      MarkDone(id);
      if trouble != Unanswerable {
        AnswerWhatPends(registry, id, outcomes, now);
      }
    }

    method Revive(registry: Registry, id: SessionId, outcomes: Outcomes, trouble: Trouble, now: int) returns (resumed: bool)
      requires id in sessions && sessions[id].status == Running
      modifies this`sessions
      ensures sessions == old(sessions)[id := RecoveredBy(registry, old(sessions)[id], FactsOf(alerts, id), outcomes, trouble, now)]
      ensures resumed <==> sessions[id].status == Running
    {
      PutDown(registry, id, outcomes, trouble, now);
      resumed := false;
      if trouble == NoTrouble {
        resumed := Conclude(id, now);
      }
    }

    // A session parked on no gate: whether its approved call took effect is unknown, so it fails.
    method Abandon(registry: Registry, id: SessionId, outcomes: Outcomes, trouble: Trouble, now: int)
      requires id in sessions && sessions[id].status == ActionRequired && sessions[id].gate.None?
      modifies this`sessions
      ensures sessions == old(sessions)[id := RecoveredBy(registry, old(sessions)[id], FactsOf(alerts, id), outcomes, trouble, now)]
      ensures sessions[id].status != Running
    {
      MarkDone(id);
      if trouble == NoTrouble {
        var _ := AppendErrorMessage(id, ABANDONED, now);
      }
    }

    // One pass of recoverDeadRuns over one session, which ends as `goal`.
    method RecoverOne(registry: Registry, id: SessionId, outcomes: Outcomes, trouble: Trouble, now: int, ghost goal: Session)
      returns (resumed: bool)
      requires id in sessions && Stranded(sessions[id])
      requires goal == RecoveredBy(registry, sessions[id], FactsOf(alerts, id), outcomes, trouble, now)
      modifies this`sessions
      ensures sessions == old(sessions)[id := goal]
      ensures resumed <==> goal.status == Running
      ensures trouble != NoTrouble ==> !resumed
    {
      if sessions[id].status == Running {
        resumed := Revive(registry, id, outcomes, trouble, now);
      } else {
        Abandon(registry, id, outcomes, trouble, now);
        resumed := false;
      }
    }

    /** recoverDeadRuns: the stranded sessions, one after another, each throw costing its own session only. */
    method RecoverDeadRuns(registry: Registry, outcomes: Outcomes, troubles: Troubles, now: int)
      returns (failed: nat, resumed: nat)
      modifies this`sessions
      ensures State() == AllRecovered(registry, old(State()), StrandedIds(old(State())), outcomes, troubles, now)
      ensures failed + resumed + |TroubledAmong(troubles, StrandedIds(old(State())))| == |StrandedIds(old(State()))|
      ensures resumed == |RunningAmong(sessions, StrandedIds(old(State())))|
    {
      ghost var was, all := sessions, StrandedIds(State());
      ghost var goal := AllRecovered(registry, State(), all, outcomes, troubles, now).sessions;
      var left := StrandedIds(State());
      failed, resumed := 0, 0;
      while left != {}
        invariant left <= all && Midway(was, goal, sessions, left)
        invariant failed + resumed + |left| + |TroubledAmong(troubles, all)| == |all| + |TroubledAmong(troubles, left)|
        invariant resumed + |RunningAmong(goal, left)| == |RunningAmong(goal, all)|
        decreases left
      {
        var id :| id in left;
        RunningWithout(goal, left, id);
        TroubledWithout(troubles, left, id);
        MidwayStep(was, goal, sessions, left, id);
        var again := RecoverOne(registry, id, outcomes, troubles(id), now, goal[id]);
        if again {
          resumed := resumed + 1;
        } else if troubles(id) == NoTrouble {
          failed := failed + 1;
        }
        left := left - {id};
      }
      assert sessions == goal;
    }
  }
}
