/**
 Starting runs, ending them, and routing a delivery of alerts to a run or to the queue
 (apps/api/src/dispatcher.ts, apps/api/src/alerts/route-alert.ts).

 Each method is one call run alone. Protocol.dfy has the interleavings.
 */
module Dispatcher {
  import opened Wrappers
  import opened Transcript
  import opened SessionTables
  import opened AlertTable
  import opened Promotion
  import opened Store

  datatype Ending = Concluded | Suspended | StoppedByUser | FailedWith(kind: FailureKind, text: string)

  // recordFailure or onRunEnded, and then the finalizer's releaseRun.
  function Ended(s: Session, f: AlertFacts, ending: Ending, now: int): Session {
    var noted :=
      match ending
      case FailedWith(kind, text) => ErrorAppended(FailureRecorded(s, kind), text, f, now)
      case StoppedByUser => MarkedStopped(FailureCleared(s), f, now)
      case _ => FailureCleared(s);
    RunReleased(noted, f)
  }

  /** An ended run leaves a session that says exactly what it is: waiting at its gate and keeping its seat, or holding
      none; a recovery reads as resolved however the run ended, and otherwise a stop as stopped and a failure as failed. */
  lemma EndingSettles(s: Session, f: AlertFacts, ending: Ending, now: int)
    requires s.status == Running || (s.status == ActionRequired && s.gate.Some?)
    ensures var r := Ended(s, f, ending, now);
      && r.status != Running && Exact(r, f)
      && (HoldsSeat(r) <==> s.gate.Some?)
      && (ending.FailedWith? ==>
            && r.failure == Some(ending.kind) && r.attempts == s.attempts + 1
            && r.rows == s.rows + [Row(NextSeq(s.rows), Error, ending.text, [], now)])
      && (!ending.FailedWith? ==>
            r.failure.None? && r.rows == s.rows && r.attempts == if s.failure.Some? then 0 else s.attempts)
      && (s.gate.Some? ==> r.status == ActionRequired)
      && (s.gate.None? ==>
            var recovered := f.total > 0 && f.open == 0;
            && (recovered <==> r.status == Resolved)
            && (r.status == Stopped <==> !recovered && (s.stoppedAt.Some? || ending.StoppedByUser?))
            && (r.status == Failed <==> !recovered && s.stoppedAt.None? && !ending.StoppedByUser?
                                        && (ending.FailedWith? || EndsOnError(s.rows))))
  {
    if ending.FailedWith? {
      var failed := FailureRecorded(s, ending.kind);
      assert ErrorAppended(failed, ending.text, f, now).rows[|s.rows|].kind == Error;
    }
  }

  lemma EndedStops(s: Session, f: AlertFacts, ending: Ending, now: int)
    requires s.status == Running || (s.status == ActionRequired && s.gate.Some?)
    ensures Ended(s, f, ending, now).status != Running
  {
    EndingSettles(s, f, ending, now);
  }

  // ---------- Routing ----------

  // The firings no open row covers, in the order they came.
  function Uncovered(rows: seq<AlertRow>, firings: seq<Firing>): seq<Firing> {
    if firings == [] then []
    else
      var last := firings[|firings| - 1];
      Uncovered(rows, firings[..|firings| - 1]) + (if IsCovered(rows, last) then [] else [last])
  }

  // Some row of this firing is open.
  ghost predicate OpenOn(rows: seq<AlertRow>, firing: Firing) {
    exists row :: row in rows && row.firing == firing && row.clearedAt.None?
  }

  lemma CoveredIsOpen(rows: seq<AlertRow>, firing: Firing)
    ensures IsCovered(rows, firing) <==> OpenOn(rows, firing)
  {
  }

  // Where the kept firings stood: in order, at every place whose firing no open row has and at no other.
  ghost predicate KeptAt(rows: seq<AlertRow>, firings: seq<Firing>, kept: seq<Firing>, at: seq<nat>) {
    && |at| == |kept|
    && (forall k :: 0 <= k < |at| ==> at[k] < |firings| && firings[at[k]] == kept[k])
    && (forall j, k :: 0 <= j < k < |at| ==> at[j] < at[k])
    && (forall i :: 0 <= i < |firings| ==> (i in at <==> !OpenOn(rows, firings[i])))
  }

  function UncoveredAt(rows: seq<AlertRow>, firings: seq<Firing>): seq<nat> {
    if firings == [] then []
    else
      var n := |firings| - 1;
      UncoveredAt(rows, firings[..n]) + (if IsCovered(rows, firings[n]) then [] else [n])
  }

  /** Dedup keeps the firings no open row covers, each in its place. */
  lemma {:induction false} UncoveredInOrder(rows: seq<AlertRow>, firings: seq<Firing>)
    ensures KeptAt(rows, firings, Uncovered(rows, firings), UncoveredAt(rows, firings))
    decreases |firings|
  {
    if firings != [] {
      var n := |firings| - 1;
      UncoveredInOrder(rows, firings[..n]);
      var at, before := UncoveredAt(rows, firings), UncoveredAt(rows, firings[..n]);
      assert forall k :: 0 <= k < |before| ==> at[k] == before[k];
      assert at == before + (if IsCovered(rows, firings[n]) then [] else [n]);
      forall i | 0 <= i < |firings|
        ensures i in at <==> !OpenOn(rows, firings[i])
      {
        CoveredIsOpen(rows, firings[i]);
        assert i < n ==> (i in before <==> !OpenOn(rows, firings[..n][i]));
        assert i == n ==> i !in before;
      }
    }
  }

  lemma {:induction false} UncoveredAreNew(rows: seq<AlertRow>, firings: seq<Firing>)
    ensures forall i :: 0 <= i < |Uncovered(rows, firings)| ==> !IsCovered(rows, Uncovered(rows, firings)[i])
    ensures |Uncovered(rows, firings)| <= |firings|
    ensures forall x :: x in Uncovered(rows, firings) <==> x in firings && !IsCovered(rows, x)
    ensures Distinct(firings) ==> Distinct(Uncovered(rows, firings))
    decreases |firings|
  {
    if firings != [] {
      var front, last := firings[..|firings| - 1], firings[|firings| - 1];
      UncoveredAreNew(rows, front);
      assert firings == front + [last];
      if Distinct(firings) {
        assert Distinct(front);
        assert last !in front;
        assert last !in Uncovered(rows, front);
      }
    }
  }

  // A live or waiting session that already owns an alert of this group.
  predicate CoversGroup(t: Tables, i: nat, group: string)
    requires i < |t.alerts|
  {
    var row := t.alerts[i];
    row.group == group && row.owner.Some? && row.owner.value in t.sessions && HoldsSeat(t.sessions[row.owner.value])
  }

  // The first alert of this group owned by a session that runs or waits on a person.
  ghost predicate FirstCover(t: Tables, i: nat, group: string) {
    && i < |t.alerts| && OwnedLive(t, t.alerts[i], group)
    && forall j :: 0 <= j < i ==> !OwnedLive(t, t.alerts[j], group)
  }

  ghost predicate OwnedLive(t: Tables, row: AlertRow, group: string) {
    && row.group == group && row.owner.Some? && row.owner.value in t.sessions
    && t.sessions[row.owner.value].status in {Running, ActionRequired}
  }

  // sessionCoveringGroup: the owner of the first such row.
  function Covering(t: Tables, group: string): (id: Option<SessionId>)
    ensures id.Some? ==> exists i: nat :: FirstCover(t, i, group) && t.alerts[i].owner == id
    ensures id.None? ==> forall i :: 0 <= i < |t.alerts| ==> !CoversGroup(t, i, group)
  {
    CoveringFrom(t, group, 0)
  }

  function CoveringFrom(t: Tables, group: string, n: nat): (id: Option<SessionId>)
    requires n <= |t.alerts| && forall j :: 0 <= j < n ==> !CoversGroup(t, j, group)
    ensures id.Some? ==> exists i: nat :: FirstCover(t, i, group) && t.alerts[i].owner == id
    ensures id.None? ==> forall i :: n <= i < |t.alerts| ==> !CoversGroup(t, i, group)
    decreases |t.alerts| - n
  {
    if n == |t.alerts| then None
    else if CoversGroup(t, n, group) then
      assert FirstCover(t, n, group) by {
        assert forall j :: 0 <= j < n ==> (OwnedLive(t, t.alerts[j], group) <==> CoversGroup(t, j, group));
      }
      t.alerts[n].owner
    else CoveringFrom(t, group, n + 1)
  }

  // Where one delivery goes: dropped, into the run that covers its group, or to the queue.
  function Routed(t: Tables, group: string, unseen: seq<Firing>, limit: nat, uuid: nat -> SessionId, now: int): Tables {
    if unseen == [] then t
    else match Covering(t, group)
      case Some(id) => t.(alerts := Injected(t.alerts, id, group, unseen, now))
      case None => PromotedAll(t.(alerts := Enqueued(t.alerts, group, unseen, now)), limit, uuid, 0, now)
  }

  // What a delivery hands the run that covers its group, behind what is waiting there; no other inbox gains anything.
  function InboxRouted(t: Tables, inbox: map<SessionId, seq<Firing>>, group: string, unseen: seq<Firing>)
    : map<SessionId, seq<Firing>>
  {
    if unseen == [] then inbox
    else match Covering(t, group)
      case Some(id) => inbox[id := (if id in inbox then inbox[id] else []) + unseen]
      case None => inbox
  }

  // These firings as alerts of this group, open, owned by this session or waiting for one.
  ghost predicate RowsOf(rows: seq<AlertRow>, owner: Option<SessionId>, group: string, firings: seq<Firing>, now: int) {
    && |rows| == |firings|
    && forall k :: 0 <= k < |rows| ==> rows[k] == AlertRow(owner, group, firings[k], now, None, owner.Some?)
  }

  /** A delivery with firings left joins the session that owns the first live alert of its group: it gains their rows,
      behind every other, and its run their news, and nothing else moves. */
  lemma JoinsTheCover(t: Tables, inbox: map<SessionId, seq<Firing>>, group: string, unseen: seq<Firing>, limit: nat,
                      uuid: nat -> SessionId, now: int, i: nat)
    requires unseen != [] && FirstCover(t, i, group)
    ensures var (told, id) := (InboxRouted(t, inbox, group, unseen), t.alerts[i].owner.value);
      id in told && told - {id} == inbox - {id} && told[id] == (if id in inbox then inbox[id] else []) + unseen
    ensures exists rows :: RowsOf(rows, t.alerts[i].owner, group, unseen, now)
              && Routed(t, group, unseen, limit, uuid, now) == t.(alerts := t.alerts + rows)
  {
    OneCover(t, group, i);
    var id := t.alerts[i].owner.value;
    var rows := Injected([], id, group, unseen, now);
    assert Injected(t.alerts, id, group, unseen, now) == t.alerts + rows && RowsOf(rows, Some(id), group, unseen, now);
    assert InboxRouted(t, inbox, group, unseen) - {id} == inbox - {id};
  }

  /** Where no session does, it queues behind every alert there is, and one promotion pass follows. */
  lemma QueuesBehind(t: Tables, inbox: map<SessionId, seq<Firing>>, group: string, unseen: seq<Firing>, limit: nat,
                     uuid: nat -> SessionId, now: int)
    requires unseen != [] && forall i: nat :: !FirstCover(t, i, group)
    ensures InboxRouted(t, inbox, group, unseen) == inbox
    ensures exists rows :: RowsOf(rows, None, group, unseen, now)
              && Routed(t, group, unseen, limit, uuid, now) == PromotedAll(t.(alerts := t.alerts + rows), limit, uuid, 0, now)
  {
    assert Covering(t, group).None?;
    var rows := Enqueued([], group, unseen, now);
    assert Enqueued(t.alerts, group, unseen, now) == t.alerts + rows && RowsOf(rows, None, group, unseen, now);
  }

  lemma OneIsFirst(t: Tables, group: string, i: nat, k: nat)
    requires FirstCover(t, i, group) && FirstCover(t, k, group)
    ensures i == k
  {
  }

  lemma OneCover(t: Tables, group: string, i: nat)
    requires FirstCover(t, i, group)
    ensures Covering(t, group) == t.alerts[i].owner
  {
    assert CoversGroup(t, i, group);
    var k: nat :| FirstCover(t, k, group) && t.alerts[k].owner == Covering(t, group);
    OneIsFirst(t, group, i, k);
  }

  lemma SameBut(a: map<SessionId, seq<Firing>>, b: map<SessionId, seq<Firing>>, id: SessionId)
    requires id in a && id in b && a[id] == b[id] && a - {id} == b - {id}
    ensures a == b
  {
    forall k | k in a || k in b
      ensures k in a && k in b && a[k] == b[k]
    {
      if k != id {
        assert k in a - {id} <==> k in a;
        assert k in b - {id} <==> k in b;
        assert (a - {id})[k] == a[k] && (b - {id})[k] == b[k];
      }
    }
  }

  lemma SameOpenFirings(a: seq<AlertRow>, b: seq<AlertRow>)
    requires |a| == |b|
    requires forall i :: 0 <= i < |a| ==> a[i].firing == b[i].firing && a[i].clearedAt == b[i].clearedAt
    ensures OneOpenEach(a) <==> OneOpenEach(b)
  {
  }

  lemma PassKeepsOneOpen(t: Tables, limit: nat, uuid: nat -> SessionId, now: int)
    requires OwnersExist(t) && FreshIds(uuid, t.sessions)
    ensures OneOpenEach(PromotedAll(t, limit, uuid, 0, now).alerts) <==> OneOpenEach(t.alerts)
  {
    PassKeepsExact(t, limit, uuid, 0, now);
    SameOpenFirings(t.alerts, PromotedAll(t, limit, uuid, 0, now).alerts);
  }

  // Queueing opens the delivery's firings and no other, and promoting opens none.
  lemma QueueingKeepsOneOpen(t: Tables, group: string, unseen: seq<Firing>, limit: nat, uuid: nat -> SessionId, now: int)
    requires OneOpenEach(t.alerts) && OwnersExist(t) && FreshIds(uuid, t.sessions)
    requires forall i :: 0 <= i < |unseen| ==> !IsCovered(t.alerts, unseen[i])
    ensures OneOpenEach(PromotedAll(t.(alerts := Enqueued(t.alerts, group, unseen, now)), limit, uuid, 0, now).alerts)
       <==> Distinct(unseen)
  {
    var added := Enqueued([], group, unseen, now);
    var queued := t.(alerts := Enqueued(t.alerts, group, unseen, now));
    assert queued.alerts == t.alerts + added;
    AppendingFirings(t.alerts, added, unseen);
    PassKeepsOneOpen(queued, limit, uuid, now);
  }

  lemma InjectingKeepsOneOpen(rows: seq<AlertRow>, id: SessionId, group: string, unseen: seq<Firing>, now: int)
    requires OneOpenEach(rows)
    requires forall i :: 0 <= i < |unseen| ==> !IsCovered(rows, unseen[i])
    ensures OneOpenEach(Injected(rows, id, group, unseen, now)) <==> Distinct(unseen)
  {
    var added := Injected([], id, group, unseen, now);
    assert Injected(rows, id, group, unseen, now) == rows + added;
    AppendingFirings(rows, added, unseen);
  }

  /** Deliveries handled one at a time leave no firing open twice, exactly when the firings of one
      delivery that got through are distinct: dedup reads the table, which holds none of them yet. */
  lemma RoutingKeepsOneOpen(t: Tables, group: string, firings: seq<Firing>, limit: nat, uuid: nat -> SessionId, now: int)
    requires OneOpenEach(t.alerts) && OwnersExist(t) && FreshIds(uuid, t.sessions)
    ensures OneOpenEach(Routed(t, group, Uncovered(t.alerts, firings), limit, uuid, now).alerts)
       <==> Distinct(Uncovered(t.alerts, firings))
  {
    var unseen := Uncovered(t.alerts, firings);
    UncoveredAreNew(t.alerts, firings);
    match Covering(t, group)
    case Some(id) => InjectingKeepsOneOpen(t.alerts, id, group, unseen, now);
    case None => QueueingKeepsOneOpen(t, group, unseen, limit, uuid, now);
  }

  // An alert that joins a session holding a seat leaves its status exact: it runs, or it waits at a gate.
  lemma InjectingKeepsExact(t: Tables, id: SessionId, group: string, firings: seq<Firing>, now: int)
    requires AllExact(t) && id in t.sessions && HoldsSeat(t.sessions[id])
    ensures AllExact(t.(alerts := Injected(t.alerts, id, group, firings, now)))
  {
    var later := Injected(t.alerts, id, group, firings, now);
    var added := Injected([], id, group, firings, now);
    assert later == t.alerts + added;
    forall other | other in t.sessions && other != id
      ensures FactsOf(later, other) == FactsOf(t.alerts, other)
    {
      FactsConcat(t.alerts, added, other);
    }
  }

  /** Routing one delivery leaves every status exact and every alert's owner a stored session. */
  lemma RoutingKeepsExact(t: Tables, group: string, unseen: seq<Firing>, limit: nat, uuid: nat -> SessionId, now: int)
    requires AllExact(t) && OwnersExist(t) && FreshIds(uuid, t.sessions)
    ensures AllExact(Routed(t, group, unseen, limit, uuid, now)) && OwnersExist(Routed(t, group, unseen, limit, uuid, now))
  {
    if unseen != [] {
      if Covering(t, group).Some? {
        InjectingKeepsExact(t, Covering(t, group).value, group, unseen, now);
      } else {
        var queued := t.(alerts := Enqueued(t.alerts, group, unseen, now));
        var added := Enqueued([], group, unseen, now);
        assert queued.alerts == t.alerts + added;
        forall id | id in t.sessions
          ensures FactsOf(queued.alerts, id) == FactsOf(t.alerts, id)
        {
          FactsConcat(t.alerts, added, id);
        }
        PassKeepsExact(queued, limit, uuid, 0, now);
      }
    }
  }

  // ---------- The dispatcher ----------

  class Dispatcher {
    const db: Database
    // The abort handle of each run alive in this process, and what arrived for it since its last turn.
    var controllers: set<SessionId>
    var inbox: map<SessionId, seq<Firing>>

    constructor (db: Database)
      ensures this.db == db && controllers == {} && inbox == map[]
    {
      this.db := db;
      controllers, inbox := {}, map[];
    }

    // The runs alive in memory are the sessions stored as running.
    ghost predicate Live()
      reads this, db
    {
      forall id :: id in controllers <==> id in db.sessions && db.sessions[id].status == Running
    }

    // A run that parked has given up its status before its handle.
    ghost predicate LiveBut(id: SessionId)
      reads this, db
    {
      forall other :: other != id ==>
        (other in controllers <==> (other in db.sessions && db.sessions[other].status == Running))
    }

    /** dispatch: refused when there is no such session, or when a run already holds it. */
    method Start(id: SessionId) returns (started: bool)
      modifies this`controllers, db`sessions
      ensures started <==> id in old(db.sessions) && old(db.sessions)[id].status != Running
      ensures db.State() == if started then RowUpdated(old(db.State()), id, (s: Session, f: AlertFacts) =>
                                               s.(status := Running, stoppedAt := None)) else old(db.State())
      ensures controllers == if started then old(controllers) + {id} else old(controllers)
      ensures old(Live()) ==> Live()
    {
      if id !in db.sessions {
        return false;
      }
      started := db.ClaimRun(id);
      if started {
        controllers := controllers + {id};
      }
    }

    // openSessionForGroup: the row and its alerts, in one transaction.
    method OpenSessionForGroup(id: SessionId, group: string, now: int)
      modifies db
      ensures db.sessions == if id in old(db.sessions) then old(db.sessions)
                             else old(db.sessions)[id := NewSession(true, now)]
      ensures db.alerts == Assigned(old(db.alerts), group, id)
    {
      db.CreateSession(id, true, now);
      db.alerts := Assigned(db.alerts, group, id);
    }

    // One turn of the loop: the oldest group becomes a session whose run is started.
    method PromoteOldest(id: SessionId, head: nat, now: int) returns (started: bool)
      requires id !in db.sessions && head == OldestWaiting(db.alerts) && head < |db.alerts|
      modifies this`controllers, db
      ensures started && db.State() == Promoted(old(db.State()), id, now)
      ensures old(Live()) ==> Live()
    {
      OpenSessionForGroup(id, db.alerts[head].group, now);
      started := Start(id);
    }

    /** promoteQueued, run alone. */
    method PromoteQueued(limit: nat, uuid: nat -> SessionId, now: int)
      requires OwnersExist(db.State()) && FreshIds(uuid, db.sessions)
      modifies this`controllers, db
      ensures db.State() == PromotedAll(old(db.State()), limit, uuid, 0, now)
      ensures old(Live()) ==> Live()
    {
      var k: nat := 0;
      while SeatsTaken(db.State()) < limit
        invariant OwnersExist(db.State())
        invariant forall n :: n >= k ==> uuid(n) !in db.sessions
        invariant PromotedAll(db.State(), limit, uuid, k, now) == PromotedAll(old(db.State()), limit, uuid, 0, now)
        invariant old(Live()) ==> Live()
        decreases CountWaiting(db.alerts)
      {
        var head := OldestWaiting(db.alerts);
        if head == |db.alerts| {
          return;
        }
        PromotionShrinksTheQueue(db.State(), uuid(k), now);
        PromotionTakesItsGroup(db.State(), uuid(k), now, head);
        var started := PromoteOldest(uuid(k), head, now);
        k := k + 1;
        if !started {
          return;
        }
      }
    }

    // recordFailure or onRunEnded, then releaseRun.
    method EndRun(id: SessionId, ending: Ending, now: int)
      requires id in db.sessions
      modifies db`sessions
      ensures db.sessions == old(db.sessions)[id := Ended(old(db.sessions)[id], FactsOf(db.alerts, id), ending, now)]
    {
      match ending {
        case FailedWith(kind, text) =>
          db.RecordRunFailure(id, kind);
          var _ := db.AppendErrorMessage(id, text, now);
        case StoppedByUser =>
          db.ClearRunFailure(id);
          db.MarkStopped(id, now);
        case _ =>
          db.ClearRunFailure(id);
      }
      db.ReleaseRun(id);
    }

    /** A run's ending: what its outcome records, its seat given back, and the queue served. */
    method FinishRun(id: SessionId, ending: Ending, limit: nat, uuid: nat -> SessionId, now: int)
      requires id in db.sessions && OwnersExist(db.State()) && FreshIds(uuid, db.sessions)
      requires db.sessions[id].status == Running || (db.sessions[id].status == ActionRequired && db.sessions[id].gate.Some?)
      modifies this, db
      ensures db.State() == PromotedAll(RowUpdated(old(db.State()), id, (s: Session, f: AlertFacts) => Ended(s, f, ending, now)),
                                        limit, uuid, 0, now)
      ensures inbox == old(inbox) - {id}
      ensures old(LiveBut(id)) ==> Live()
    {
      EndedStops(db.sessions[id], FactsOf(db.alerts, id), ending, now);
      EndRun(id, ending, now);
      controllers := controllers - {id};
      inbox := inbox - {id};
      PromoteQueued(limit, uuid, now);
    }

    function InboxOf(id: SessionId): seq<Firing>
      reads this
    {
      if id in inbox then inbox[id] else []
    }

    /** injectAlert: durable first, then handed to the run. */
    method InjectAlert(id: SessionId, group: string, firing: Firing, now: int)
      modifies this`inbox, db`alerts
      ensures db.alerts == old(db.alerts) + [NewRow(Some(id), group, firing, now)]
      ensures inbox == old(inbox)[id := old(InboxOf(id)) + [firing]]
    {
      db.AppendSessionAlert(id, group, firing, now);
      inbox := inbox[id := InboxOf(id) + [firing]];
    }

    // drainInbox: everything that arrived, once.
    method DrainInbox(id: SessionId) returns (drained: seq<Firing>)
      modifies this`inbox
      ensures drained == old(InboxOf(id)) && InboxOf(id) == [] && inbox == old(inbox) - {id}
    {
      drained := InboxOf(id);
      inbox := inbox - {id};
    }

    // Dedup: the firings that are not already open, and how many were.
    method DropDuplicates(firings: seq<Firing>) returns (unseen: seq<Firing>, skipped: nat)
      ensures unseen == Uncovered(db.alerts, firings) && |unseen| + skipped == |firings|
    {
      unseen, skipped := [], 0;
      for i := 0 to |firings|
        invariant unseen == Uncovered(db.alerts, firings[..i]) && |unseen| + skipped == i
      {
        assert firings[..i + 1][..i] == firings[..i];
        if IsCovered(db.alerts, firings[i]) {
          skipped := skipped + 1;
        } else {
          unseen := unseen + [firings[i]];
        }
      }
      assert firings[..|firings|] == firings;
    }

    method InjectEach(id: SessionId, group: string, firings: seq<Firing>, now: int)
      modifies this`inbox, db`alerts
      ensures db.alerts == Injected(old(db.alerts), id, group, firings, now)
      ensures inbox - {id} == old(inbox) - {id}
      ensures InboxOf(id) == old(InboxOf(id)) + firings && (firings != [] ==> id in inbox)
    {
      for i := 0 to |firings|
        invariant db.alerts == Injected(old(db.alerts), id, group, firings[..i], now)
        invariant inbox - {id} == old(inbox) - {id}
        invariant InboxOf(id) == old(InboxOf(id)) + firings[..i] && (i > 0 ==> id in inbox)
      {
        InjectAlert(id, group, firings[i], now);
        assert firings[..i + 1] == firings[..i] + [firings[i]];
      }
      assert firings[..|firings|] == firings;
    }

    /** routeDelivery. */
    method RouteDelivery(group: string, firings: seq<Firing>, limit: nat, uuid: nat -> SessionId, now: int)
      returns (enqueued: nat, skipped: nat)
      requires OwnersExist(db.State()) && FreshIds(uuid, db.sessions)
      modifies this`controllers, this`inbox, db
      ensures enqueued == |Uncovered(old(db.alerts), firings)| && enqueued + skipped == |firings|
      ensures db.State() == Routed(old(db.State()), group, Uncovered(old(db.alerts), firings), limit, uuid, now)
      ensures inbox == InboxRouted(old(db.State()), old(inbox), group, Uncovered(old(db.alerts), firings))
      ensures old(Live()) ==> Live()
    {
      var unseen;
      unseen, skipped := DropDuplicates(firings);
      enqueued := |unseen|;
      if unseen != [] {
        match Covering(db.State(), group) {
          case Some(id) =>
            InjectEach(id, group, unseen, now);
            SameBut(inbox, InboxRouted(old(db.State()), old(inbox), group, unseen), id);
          case None =>
            db.EnqueueAlerts(group, unseen, now);
            PromoteQueued(limit, uuid, now);
        }
      }
    }
  }
}
