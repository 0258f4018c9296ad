/**
 Turning waiting alert groups into investigations, as many as there are free seats
 (apps/api/src/dispatcher.ts, promoteQueued).
 */
module Promotion {
  import opened Wrappers
  import opened SessionTables
  import opened AlertTable

  datatype Tables = Tables(sessions: map<SessionId, Session>, alerts: seq<AlertRow>)

  function SeatHolders(sessions: map<SessionId, Session>, investigation: bool): set<SessionId> {
    set id | id in sessions && sessions[id].investigation == investigation && HoldsSeat(sessions[id])
  }

  function SeatsTaken(t: Tables): nat {
    |SeatHolders(t.sessions, true)|
  }

  // The seats are held by the investigations that run or wait on a person.
  lemma SeatsMean(t: Tables)
    ensures SeatsTaken(t)
         == |set id | id in t.sessions && t.sessions[id].investigation && t.sessions[id].status in {Running, ActionRequired}|
  {
    assert SeatHolders(t.sessions, true)
        == set id | id in t.sessions && t.sessions[id].investigation && t.sessions[id].status in {Running, ActionRequired};
  }

  // A session id nothing has used, for every promotion to come.
  ghost predicate FreshIds(uuid: nat -> SessionId, sessions: map<SessionId, Session>) {
    && (forall n: nat :: uuid(n) !in sessions)
    && (forall m: nat, n: nat :: uuid(m) == uuid(n) ==> m == n)
  }

  // The foreign key from an alert to its session.
  ghost predicate OwnersExist(t: Tables) {
    forall i :: 0 <= i < |t.alerts| && t.alerts[i].owner.Some? ==> t.alerts[i].owner.value in t.sessions
  }

  predicate CanPromote(t: Tables, limit: nat) {
    SeatsTaken(t) < limit && OldestWaiting(t.alerts) < |t.alerts|
  }

  // openSessionForGroup on the oldest group, and the claim that starts its run.
  function Promoted(t: Tables, id: SessionId, now: int): Tables
    requires OldestWaiting(t.alerts) < |t.alerts|
  {
    var group := t.alerts[OldestWaiting(t.alerts)].group;
    Tables(t.sessions[id := RunClaimed(NewSession(true, now))], Assigned(t.alerts, group, id))
  }

  lemma PromotionShrinksTheQueue(t: Tables, id: SessionId, now: int)
    requires OldestWaiting(t.alerts) < |t.alerts|
    ensures CountWaiting(Promoted(t, id, now).alerts) < CountWaiting(t.alerts)
  {
    var head := OldestWaiting(t.alerts);
    assert WaitsIn(t.alerts[head], t.alerts[head].group);
    AssigningEmptiesTheQueue(t.alerts, t.alerts[head].group, id);
  }

  // The loop of promoteQueued from its k-th promotion on.
  function PromotedAll(t: Tables, limit: nat, uuid: nat -> SessionId, k: nat, now: int): Tables
    decreases CountWaiting(t.alerts)
  {
    if !CanPromote(t, limit) then t
    else
      PromotionShrinksTheQueue(t, uuid(k), now);
      PromotedAll(Promoted(t, uuid(k), now), limit, uuid, k + 1, now)
  }

  // ---------- One promotion ----------

  // The new session owns exactly the rows of the oldest waiting row's group that were waiting.
  lemma PromotionTakesItsGroup(t: Tables, id: SessionId, now: int, i: nat)
    requires OwnersExist(t) && id !in t.sessions
    requires OldestWaiting(t.alerts) < |t.alerts| && i < |t.alerts|
    ensures var group := t.alerts[OldestWaiting(t.alerts)].group;
      Promoted(t, id, now).alerts[i].owner == Some(id) <==> WaitsIn(t.alerts[i], group)
    ensures OwnersExist(Promoted(t, id, now))
    ensures RowEvolves(t.alerts[i], Promoted(t, id, now).alerts[i])
  {
  }

  lemma PromotionTakesOneSeat(t: Tables, id: SessionId, now: int)
    requires id !in t.sessions && OldestWaiting(t.alerts) < |t.alerts|
    ensures SeatsTaken(Promoted(t, id, now)) == SeatsTaken(t) + 1
  {
    var b := Promoted(t, id, now);
    assert SeatHolders(b.sessions, true) == SeatHolders(t.sessions, true) + {id};
  }

  // ---------- The whole loop ----------

  // (arrivedAt, id) order, which is the order the queue is served in.
  predicate Before(rows: seq<AlertRow>, h: nat, i: nat)
    requires h < |rows| && i < |rows|
  {
    rows[h].arrivedAt < rows[i].arrivedAt || (rows[h].arrivedAt == rows[i].arrivedAt && h <= i)
  }

  // A group is taken whole into one session, or left whole.
  ghost predicate TakenWhole(before: seq<AlertRow>, later: seq<AlertRow>)
    requires |later| == |before|
  {
    forall i, j :: 0 <= i < |before| && 0 <= j < |before| && Waiting(before[i]) && WaitsIn(before[j], before[i].group) ==>
      later[i].owner == later[j].owner
  }

  // No session is given two groups.
  ghost predicate OneGroupEach(before: seq<AlertRow>, later: seq<AlertRow>)
    requires |later| == |before|
  {
    forall i, j :: (0 <= i < |before| && 0 <= j < |before| && Waiting(before[i]) && Waiting(before[j])
                    && later[i].owner.Some? && later[i].owner == later[j].owner) ==>
      before[i].group == before[j].group
  }

  // A taken group's oldest row stood before every row still waiting.
  ghost predicate OldestFirst(before: seq<AlertRow>, later: seq<AlertRow>)
    requires |later| == |before|
  {
    forall j, i :: (0 <= i < |before| && 0 <= j < |before| && Waiting(before[j])
                    && later[j].owner.Some? && Waiting(later[i])) ==>
      exists h :: 0 <= h < |before| && WaitsIn(before[h], before[j].group) && Before(before, h, i)
  }

  lemma {:induction false} PassEvolves(t: Tables, limit: nat, uuid: nat -> SessionId, k: nat, now: int)
    requires OwnersExist(t) && (forall n :: n >= k ==> uuid(n) !in t.sessions)
    requires forall m: nat, n: nat :: uuid(m) == uuid(n) ==> m == n
    ensures var b := PromotedAll(t, limit, uuid, k, now);
      && Evolves(t.alerts, b.alerts) && |b.alerts| == |t.alerts| && OwnersExist(b)
      && (forall i :: 0 <= i < |t.alerts| && !Waiting(t.alerts[i]) ==> b.alerts[i] == t.alerts[i])
      && (forall i :: 0 <= i < |t.alerts| && b.alerts[i].owner.Some? && Waiting(t.alerts[i]) ==>
            b.alerts[i].owner.value !in t.sessions)
      && (forall id :: id in t.sessions ==> id in b.sessions && b.sessions[id] == t.sessions[id])
      && (forall id :: id in b.sessions && id !in t.sessions ==> exists n :: n >= k && id == uuid(n))
    decreases CountWaiting(t.alerts)
  {
    if CanPromote(t, limit) {
      PromotionShrinksTheQueue(t, uuid(k), now);
      var c := Promoted(t, uuid(k), now);
      forall i | 0 <= i < |t.alerts|
        ensures RowEvolves(t.alerts[i], c.alerts[i]) && OwnersExist(c)
      {
        PromotionTakesItsGroup(t, uuid(k), now, i);
      }
      PassEvolves(c, limit, uuid, k + 1, now);
      EvolvesIsTransitive(t.alerts, c.alerts, PromotedAll(c, limit, uuid, k + 1, now).alerts);
    }
  }

  // The pass and its first promotion, with what the rest of it keeps.
  ghost predicate Split(t: Tables, c: Tables, b: Tables, id: SessionId, now: int) {
    && OldestWaiting(t.alerts) < |t.alerts| && c == Promoted(t, id, now)
    && Evolves(c.alerts, b.alerts) && |b.alerts| == |t.alerts|
    && (forall i :: 0 <= i < |c.alerts| && !Waiting(c.alerts[i]) ==> b.alerts[i] == c.alerts[i])
    && (forall i :: 0 <= i < |c.alerts| && b.alerts[i].owner.Some? && Waiting(c.alerts[i]) ==>
          b.alerts[i].owner.value !in c.sessions)
  }

  lemma WholeStep(t: Tables, c: Tables, b: Tables, id: SessionId, now: int)
    requires Split(t, c, b, id, now) && TakenWhole(c.alerts, b.alerts)
    ensures TakenWhole(t.alerts, b.alerts)
  {
    var group := t.alerts[OldestWaiting(t.alerts)].group;
    forall i, j | 0 <= i < |t.alerts| && 0 <= j < |t.alerts| && Waiting(t.alerts[i]) && WaitsIn(t.alerts[j], t.alerts[i].group)
      ensures b.alerts[i].owner == b.alerts[j].owner
    {
      if t.alerts[i].group == group {
        assert b.alerts[i] == c.alerts[i] && b.alerts[j] == c.alerts[j];
      } else {
        assert WaitsIn(c.alerts[j], c.alerts[i].group);
      }
    }
  }

  lemma OneGroupStep(t: Tables, c: Tables, b: Tables, id: SessionId, now: int)
    requires Split(t, c, b, id, now) && OneGroupEach(c.alerts, b.alerts)
    ensures OneGroupEach(t.alerts, b.alerts)
  {
    var group := t.alerts[OldestWaiting(t.alerts)].group;
    assert forall i :: 0 <= i < |t.alerts| && WaitsIn(t.alerts[i], group) ==> b.alerts[i] == c.alerts[i];
    assert forall i :: 0 <= i < |t.alerts| && !WaitsIn(t.alerts[i], group) ==> c.alerts[i] == t.alerts[i];
  }

  lemma OldestStep(t: Tables, c: Tables, b: Tables, id: SessionId, now: int)
    requires Split(t, c, b, id, now) && OldestFirst(c.alerts, b.alerts)
    ensures OldestFirst(t.alerts, b.alerts)
  {
    var head := OldestWaiting(t.alerts);
    var group := t.alerts[head].group;
    forall j, i | 0 <= i < |t.alerts| && 0 <= j < |t.alerts| && Waiting(t.alerts[j])
                  && b.alerts[j].owner.Some? && Waiting(b.alerts[i])
      ensures exists h :: 0 <= h < |t.alerts| && WaitsIn(t.alerts[h], t.alerts[j].group) && Before(t.alerts, h, i)
    {
      assert RowEvolves(c.alerts[i], b.alerts[i]);
      assert Waiting(t.alerts[i]);
      if t.alerts[j].group == group {
        assert WaitsIn(t.alerts[head], group) && Before(t.alerts, head, i);
      } else {
        var h :| 0 <= h < |c.alerts| && WaitsIn(c.alerts[h], c.alerts[j].group) && Before(c.alerts, h, i);
        assert WaitsIn(t.alerts[h], t.alerts[j].group) && Before(t.alerts, h, i);
      }
    }
  }

  // What PassEvolves says of the promotions after the first.
  lemma PassSplits(t: Tables, limit: nat, uuid: nat -> SessionId, k: nat, now: int)
    requires OwnersExist(t) && (forall n :: n >= k ==> uuid(n) !in t.sessions)
    requires forall m: nat, n: nat :: uuid(m) == uuid(n) ==> m == n
    requires CanPromote(t, limit)
    ensures var c := Promoted(t, uuid(k), now);
      OwnersExist(c) && Split(t, c, PromotedAll(t, limit, uuid, k, now), uuid(k), now)
  {
    PromotionShrinksTheQueue(t, uuid(k), now);
    PromotionTakesItsGroup(t, uuid(k), now, OldestWaiting(t.alerts));
    PassEvolves(Promoted(t, uuid(k), now), limit, uuid, k + 1, now);
  }

  /** One pass never takes a seat too many, and it stops only when the seats are full or nothing waits. */
  lemma {:induction false} PassFillsTheSeats(t: Tables, limit: nat, uuid: nat -> SessionId, k: nat, now: int)
    requires OwnersExist(t) && (forall n :: n >= k ==> uuid(n) !in t.sessions)
    requires forall m: nat, n: nat :: uuid(m) == uuid(n) ==> m == n
    ensures var b := PromotedAll(t, limit, uuid, k, now);
      && (SeatsTaken(t) <= limit ==> SeatsTaken(b) <= limit)
      && (SeatsTaken(b) >= limit || forall i :: 0 <= i < |b.alerts| ==> !Waiting(b.alerts[i]))
    decreases CountWaiting(t.alerts)
  {
    if CanPromote(t, limit) {
      PromotionShrinksTheQueue(t, uuid(k), now);
      PromotionTakesOneSeat(t, uuid(k), now);
      PromotionTakesItsGroup(t, uuid(k), now, OldestWaiting(t.alerts));
      PassFillsTheSeats(Promoted(t, uuid(k), now), limit, uuid, k + 1, now);
    }
  }

  /** One pass conserves the rows, takes groups whole, one a session, and oldest first. */
  lemma {:induction false} PassServesTheQueue(t: Tables, limit: nat, uuid: nat -> SessionId, k: nat, now: int)
    requires OwnersExist(t) && (forall n :: n >= k ==> uuid(n) !in t.sessions)
    requires forall m: nat, n: nat :: uuid(m) == uuid(n) ==> m == n
    ensures var b := PromotedAll(t, limit, uuid, k, now);
      && Evolves(t.alerts, b.alerts) && |b.alerts| == |t.alerts|
      && TakenWhole(t.alerts, b.alerts) && OneGroupEach(t.alerts, b.alerts) && OldestFirst(t.alerts, b.alerts)
    decreases CountWaiting(t.alerts)
  {
    PassEvolves(t, limit, uuid, k, now);
    if CanPromote(t, limit) {
      PromotionShrinksTheQueue(t, uuid(k), now);
      PassSplits(t, limit, uuid, k, now);
      var c, b := Promoted(t, uuid(k), now), PromotedAll(t, limit, uuid, k, now);
      PassServesTheQueue(c, limit, uuid, k + 1, now);
      WholeStep(t, c, b, uuid(k), now);
      OneGroupStep(t, c, b, uuid(k), now);
      OldestStep(t, c, b, uuid(k), now);
    }
  }
}
