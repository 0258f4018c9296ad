/**
 Asking whether an open condition has recovered, less and less often, and retrying a run
 that died on a transient failure (apps/api/src/verification/reconciler.ts).
 */
module Reconciler {
  import opened Wrappers
  import opened SessionTables
  import opened AlertTable
  import opened Promotion
  import opened Store
  import opened Dispatcher

  const MINUTE := 60_000
  const DAY := 24 * 60 * MINUTE
  const MAX_RUN_RETRIES := 3

  datatype ScheduleStep = ScheduleStep(withinMs: int, everyMs: int)

  const SCHEDULE: seq<ScheduleStep> :=
    [ScheduleStep(15 * MINUTE, MINUTE), ScheduleStep(75 * MINUTE, 5 * MINUTE), ScheduleStep(DAY, 30 * MINUTE)]

  function StepFor(schedule: seq<ScheduleStep>, ageMs: int): Option<ScheduleStep> {
    if schedule == [] then None
    else if ageMs < schedule[0].withinMs then Some(schedule[0])
    else StepFor(schedule[1..], ageMs)
  }

  predicate Due(last: Option<int>, ageMs: int, now: int) {
    match StepFor(SCHEDULE, ageMs)
    case None => false
    case Some(step) => last.None? || now - last.value >= step.everyMs
  }

  // When this session was last asked about, after a sweep at `now`.
  function AskedNext(last: Option<int>, since: int, now: int): Option<int> {
    if Due(last, now - since, now) then Some(now) else last
  }

  // ---------- How often one session is asked about ----------

  // Sweep times in one process, none before the session began and none before the last.
  ghost predicate Clock(since: int, nows: seq<int>) {
    && (forall i :: 0 <= i < |nows| ==> since <= nows[i])
    && (forall i, j :: 0 <= i < j < |nows| ==> nows[i] <= nows[j])
  }

  function LastAsked(since: int, nows: seq<int>): Option<int> {
    if nows == [] then None
    else AskedNext(LastAsked(since, nows[..|nows| - 1]), since, nows[|nows| - 1])
  }

  function Asks(since: int, nows: seq<int>): nat {
    if nows == [] then 0
    else
      var before, now := nows[..|nows| - 1], nows[|nows| - 1];
      Asks(since, before) + (if Due(LastAsked(since, before), now - since, now) then 1 else 0)
  }

  lemma Spacing(age: int)
    ensures StepFor(SCHEDULE, age) ==
      if age < 15 * MINUTE then Some(SCHEDULE[0])
      else if age < 75 * MINUTE then Some(SCHEDULE[1])
      else if age < DAY then Some(SCHEDULE[2])
      else None
  {
    var later := SCHEDULE[1..];
    var last := later[1..];
    assert StepFor(last[1..], age) == None;
    assert StepFor(last, age) == if age < DAY then Some(SCHEDULE[2]) else None;
    assert StepFor(later, age) == if age < 75 * MINUTE then Some(SCHEDULE[1]) else StepFor(last, age);
  }

  // How many questions may still come once one was asked at this age.
  function Left(age: int): int {
    if age < 15 * MINUTE then (15 * MINUTE - 1 - age) / MINUTE + 12 + 45
    else if age < 75 * MINUTE then (75 * MINUTE - 1 - age) / (5 * MINUTE) + 45
    else if age < DAY then (DAY - 1 - age) / (30 * MINUTE)
    else 0
  }

  // The next question costs at least one of them.
  lemma QuestionsRunOut(last: Option<int>, since: int, now: int)
    requires since <= now && (last.Some? ==> since <= last.value <= now)
    requires Due(last, now - since, now)
    ensures now - since < DAY
    ensures last.None? ==> 1 + Left(now - since) <= 72
    ensures last.Some? ==> 1 + Left(now - since) <= Left(last.value - since)
    ensures Left(now - since) >= 0
  {
    Spacing(now - since);
  }

  /** While its alert stays open, one process asks about a session at most 72 times, and never once it is
      a day old. */
  lemma {:induction false} AtMost72Questions(since: int, nows: seq<int>)
    requires Clock(since, nows)
    ensures Asks(since, nows) <= 72
    ensures LastAsked(since, nows).None? ==> Asks(since, nows) == 0
    ensures LastAsked(since, nows).Some? ==>
      var age := LastAsked(since, nows).value - since;
      0 <= age < DAY && Asks(since, nows) + Left(age) <= 72 && LastAsked(since, nows).value <= nows[|nows| - 1]
    decreases |nows|
  {
    if nows != [] {
      var before, now := nows[..|nows| - 1], nows[|nows| - 1];
      AtMost72Questions(since, before);
      var last := LastAsked(since, before);
      if Due(last, now - since, now) {
        QuestionsRunOut(last, since, now);
      } else if last.Some? {
        assert before[|before| - 1] <= now;
      }
      LeftIsNatural(since, nows);
    }
  }

  lemma LeftIsNatural(since: int, nows: seq<int>)
    ensures LastAsked(since, nows).Some? && LastAsked(since, nows).value - since < DAY ==>
              Left(LastAsked(since, nows).value - since) >= 0
  {
  }

  // The age at the k-th question of a process that asks as soon as each is due.
  function Eager(k: nat): int {
    if k < 15 then k * MINUTE
    else if k < 27 then (19 + 5 * (k - 15)) * MINUTE
    else (104 + 30 * (k - 27)) * MINUTE
  }

  function EagerSweeps(n: nat): seq<int> {
    seq(n, k requires 0 <= k < n => Eager(k))
  }

  /** The bound is exact: a session swept every minute is asked about 72 times. */
  lemma {:induction false} EagerAsks72(n: nat)
    requires n <= 72
    ensures Clock(0, EagerSweeps(n)) && Asks(0, EagerSweeps(n)) == n
    ensures LastAsked(0, EagerSweeps(n)) == if n == 0 then None else Some(Eager(n - 1))
    decreases n
  {
    if n > 0 {
      EagerAsks72(n - 1);
      assert EagerSweeps(n)[..n - 1] == EagerSweeps(n - 1);
      Spacing(Eager(n - 1));
    }
  }

  // ---------- The sweep ----------

  // A failed run worth another try, and a seat for it.
  predicate Retriable(t: Tables, id: SessionId, limit: nat) {
    && id in t.sessions && t.sessions[id].failure == Some(Transient) && t.sessions[id].attempts < MAX_RUN_RETRIES
    && SeatsTaken(t) < limit && t.sessions[id].status != Running
  }

  function Retried(t: Tables, id: SessionId): Tables
    requires id in t.sessions
  {
    t.(sessions := t.sessions[id := t.sessions[id].(status := Running, stoppedAt := None)])
  }

  datatype Sweep = Sweep(t: Tables, asked: nat, cleared: nat, retried: nat)

  function LastOf(last: map<SessionId, int>, id: SessionId): Option<int> {
    if id in last then Some(last[id]) else None
  }

  predicate AsksNow(last: map<SessionId, int>, since: SessionId -> int, now: int, id: SessionId) {
    Due(LastOf(last, id), now - since(id), now)
  }

  // One sweep: each open session that is due is asked about, and one still firing is retried when it can be.
  function Swept(t: Tables, last: map<SessionId, int>, open: seq<SessionId>, since: SessionId -> int,
                 verdict: SessionId -> Verdict, limit: nat, now: int): Sweep
  {
    if open == [] then Sweep(t, 0, 0, 0)
    else
      var s, id := Swept(t, last, open[..|open| - 1], since, verdict, limit, now), open[|open| - 1];
      if AsksNow(last, since, now, id) then Heeded(s, id, verdict(id), limit) else s
  }

  // One session asked about.
  function Heeded(s: Sweep, id: SessionId, verdict: Verdict, limit: nat): Sweep {
    if verdict == Confirmed then s.(asked := s.asked + 1, cleared := s.cleared + 1)
    else if verdict == StillFiring && Retriable(s.t, id, limit) then
      s.(t := Retried(s.t, id), asked := s.asked + 1, retried := s.retried + 1)
    else s.(asked := s.asked + 1)
  }

  lemma SweptNext(t: Tables, last: map<SessionId, int>, open: seq<SessionId>, since: SessionId -> int,
                  verdict: SessionId -> Verdict, limit: nat, now: int, i: nat)
    requires i < |open|
    ensures var s := Swept(t, last, open[..i], since, verdict, limit, now);
      Swept(t, last, open[..i + 1], since, verdict, limit, now)
        == if AsksNow(last, since, now, open[i]) then Heeded(s, open[i], verdict(open[i]), limit) else s
  {
    assert open[..i + 1][..i] == open[..i];
  }

  ghost predicate SweepTold(t: Tables, open: seq<SessionId>, verdict: SessionId -> Verdict, limit: nat, s: Sweep) {
    && s.cleared + s.retried <= s.asked <= |open|
    && (SeatsTaken(t) <= limit ==> SeatsTaken(s.t) <= limit)
    && s.t.sessions.Keys == t.sessions.Keys
    && s.retried == |StartedBetween(t, s.t)|
    && forall id :: id in t.sessions && s.t.sessions[id] != t.sessions[id] ==>
         && id in open && verdict(id) == StillFiring
         && t.sessions[id].failure == Some(Transient) && t.sessions[id].attempts < MAX_RUN_RETRIES
         && t.sessions[id].status != SessionTables.Running && s.t.sessions[id].status == SessionTables.Running
  }

  lemma RetryIsTold(t: Tables, open: seq<SessionId>, verdict: SessionId -> Verdict, limit: nat, s: Sweep, id: SessionId)
    requires SweepTold(t, open, verdict, limit, s) && id !in open
    requires verdict(id) == StillFiring && Retriable(s.t, id, limit)
    ensures SweepTold(t, open + [id], verdict, limit, s.(t := Retried(s.t, id), asked := s.asked + 1, retried := s.retried + 1))
  {
    RetryTakesOneSeat(s.t, id);
    assert s.t.sessions[id] == t.sessions[id];
    StartedGrows(t, s.t, id);
    assert id in open + [id];
  }

  lemma StartedGrows(t: Tables, u: Tables, id: SessionId)
    requires u.sessions.Keys == t.sessions.Keys && id in t.sessions && u.sessions[id] == t.sessions[id]
    requires t.sessions[id].status != SessionTables.Running
    ensures |StartedBetween(t, Retried(u, id))| == |StartedBetween(t, u)| + 1
  {
    assert StartedBetween(t, Retried(u, id)) == StartedBetween(t, u) + {id};
  }

  lemma PassedIsTold(t: Tables, open: seq<SessionId>, verdict: SessionId -> Verdict, limit: nat, s: Sweep, id: SessionId,
                     asked: nat, cleared: nat)
    requires SweepTold(t, open, verdict, limit, s) && cleared <= asked <= 1
    ensures SweepTold(t, open + [id], verdict, limit, s.(asked := s.asked + asked, cleared := s.cleared + cleared))
  {
  }

  /** A sweep that began within the seat limit ends within it, starts exactly as many runs as it reports, and starts
      each on a session that was open, failed on a transient error fewer than three times, and not running. */
  lemma {:induction false} SweepKeepsSeats(t: Tables, last: map<SessionId, int>, open: seq<SessionId>,
                                           since: SessionId -> int, verdict: SessionId -> Verdict, limit: nat, now: int)
    requires forall i, j :: 0 <= i < j < |open| ==> open[i] != open[j]
    ensures SweepTold(t, open, verdict, limit, Swept(t, last, open, since, verdict, limit, now))
    decreases |open|
  {
    if open == [] {
      assert StartedBetween(t, t) == {};
    } else {
      var front, id := open[..|open| - 1], open[|open| - 1];
      SweepKeepsSeats(t, last, front, since, verdict, limit, now);
      var s := Swept(t, last, front, since, verdict, limit, now);
      assert open == front + [id] && id !in front;
      if !AsksNow(last, since, now, id) {
        PassedIsTold(t, front, verdict, limit, s, id, 0, 0);
      } else if verdict(id) == Confirmed {
        PassedIsTold(t, front, verdict, limit, s, id, 1, 1);
      } else if verdict(id) == StillFiring && Retriable(s.t, id, limit) {
        RetryIsTold(t, front, verdict, limit, s, id);
      } else {
        PassedIsTold(t, front, verdict, limit, s, id, 1, 0);
      }
    }
  }

  // Where the sweep asks, and where it is told the condition is gone.
  function AskedAt(last: map<SessionId, int>, open: seq<SessionId>, since: SessionId -> int, now: int): set<nat> {
    set i: nat | i < |open| && AsksNow(last, since, now, open[i])
  }

  function ConfirmedAt(last: map<SessionId, int>, open: seq<SessionId>, since: SessionId -> int,
                       verdict: SessionId -> Verdict, now: int): set<nat>
  {
    set i: nat | i < |open| && AsksNow(last, since, now, open[i]) && verdict(open[i]) == Confirmed
  }

  // The sweep finds the i-th open session due and still firing, its run failed on a transient error fewer than three
  // times and not running, and a seat free once those before it are served.
  ghost predicate StartsAt(t: Tables, last: map<SessionId, int>, open: seq<SessionId>, since: SessionId -> int,
                           verdict: SessionId -> Verdict, limit: nat, now: int, i: nat)
    requires i < |open|
  {
    var id := open[i];
    && AsksNow(last, since, now, id) && verdict(id) == StillFiring
    && id in t.sessions && t.sessions[id].status != SessionTables.Running
    && t.sessions[id].failure == Some(Transient) && t.sessions[id].attempts < 3
    && SeatsTaken(Swept(t, last, open[..i], since, verdict, limit, now).t) < limit
  }

  lemma OneMore(before: set<nat>, later: set<nat>, n: nat, more: bool)
    requires n !in before && later == before + (if more then {n} else {})
    ensures |later| == |before| + (if more then 1 else 0)
  {
  }

  lemma AskedSnoc(last: map<SessionId, int>, open: seq<SessionId>, since: SessionId -> int, now: int)
    requires open != []
    ensures |AskedAt(last, open, since, now)|
         == |AskedAt(last, open[..|open| - 1], since, now)| + (if AsksNow(last, since, now, open[|open| - 1]) then 1 else 0)
  {
    var n := |open| - 1;
    var before, later := AskedAt(last, open[..n], since, now), AskedAt(last, open, since, now);
    forall i: nat
      ensures i in later <==> i in before || (i == n && AsksNow(last, since, now, open[n]))
    {
      assert i < n ==> open[..n][i] == open[i];
    }
    OneMore(before, later, n, AsksNow(last, since, now, open[n]));
  }

  lemma ConfirmedSnoc(last: map<SessionId, int>, open: seq<SessionId>, since: SessionId -> int,
                      verdict: SessionId -> Verdict, now: int)
    requires open != []
    ensures var id := open[|open| - 1];
      |ConfirmedAt(last, open, since, verdict, now)|
        == |ConfirmedAt(last, open[..|open| - 1], since, verdict, now)|
           + (if AsksNow(last, since, now, id) && verdict(id) == Confirmed then 1 else 0)
  {
    var n := |open| - 1;
    var before, later := ConfirmedAt(last, open[..n], since, verdict, now), ConfirmedAt(last, open, since, verdict, now);
    var more := AsksNow(last, since, now, open[n]) && verdict(open[n]) == Confirmed;
    forall i: nat
      ensures i in later <==> i in before || (i == n && more)
    {
      assert i < n ==> open[..n][i] == open[i];
    }
    OneMore(before, later, n, more);
  }

  /** A sweep counts as asked exactly the sessions that are due, and as cleared exactly those of them whose condition is
      confirmed gone. */
  lemma {:induction false} SweepCounts(t: Tables, last: map<SessionId, int>, open: seq<SessionId>,
                                       since: SessionId -> int, verdict: SessionId -> Verdict, limit: nat, now: int)
    ensures var s := Swept(t, last, open, since, verdict, limit, now);
      s.asked == |AskedAt(last, open, since, now)| && s.cleared == |ConfirmedAt(last, open, since, verdict, now)|
    decreases |open|
  {
    if open == [] {
      assert AskedAt(last, open, since, now) == {} && ConfirmedAt(last, open, since, verdict, now) == {};
    } else {
      SweepCounts(t, last, open[..|open| - 1], since, verdict, limit, now);
      AskedSnoc(last, open, since, now);
      ConfirmedSnoc(last, open, since, verdict, now);
    }
  }

  // What one more session of the sweep does to the tables.
  lemma HeedStarts(s: Sweep, id: SessionId, verdict: Verdict, limit: nat)
    ensures var (later, starts) := (Heeded(s, id, verdict, limit).t, verdict == StillFiring && Retriable(s.t, id, limit));
      && later.alerts == s.t.alerts && later.sessions.Keys == s.t.sessions.Keys
      && (forall x :: x in s.t.sessions && !(starts && x == id) ==> later.sessions[x] == s.t.sessions[x])
      && (starts ==> later.sessions[id] == s.t.sessions[id].(status := SessionTables.Running, stoppedAt := None))
  {
  }

  /** A sweep starts a run on an open session if and only if it finds it due and still firing, its run failed on a
      transient error fewer than three times and is not running, and a seat is left; every other session stays as it was. */
  lemma {:induction false} SweepStarts(t: Tables, last: map<SessionId, int>, open: seq<SessionId>,
                                       since: SessionId -> int, verdict: SessionId -> Verdict, limit: nat, now: int)
    requires forall i, j :: 0 <= i < j < |open| ==> open[i] != open[j]
    ensures var later := Swept(t, last, open, since, verdict, limit, now).t;
      && later.alerts == t.alerts && later.sessions.Keys == t.sessions.Keys
      && (forall i: nat :: i < |open| && open[i] in t.sessions ==>
            later.sessions[open[i]] ==
              if StartsAt(t, last, open, since, verdict, limit, now, i)
              then t.sessions[open[i]].(status := SessionTables.Running, stoppedAt := None) else t.sessions[open[i]])
      && (forall id :: id in t.sessions && id !in open ==> later.sessions[id] == t.sessions[id])
    decreases |open|
  {
    if open != [] {
      var n := |open| - 1;
      var front, id := open[..n], open[n];
      SweepStarts(t, last, front, since, verdict, limit, now);
      var s := Swept(t, last, front, since, verdict, limit, now);
      assert id !in front && open == front + [id];
      HeedStarts(s, id, verdict(id), limit);
      forall i: nat | i < n
        ensures front[i] == open[i]
        ensures StartsAt(t, last, open, since, verdict, limit, now, i) <==> StartsAt(t, last, front, since, verdict, limit, now, i)
      {
        assert open[..i] == front[..i];
      }
    }
  }

  // The sessions running after and not before.
  function StartedBetween(t: Tables, later: Tables): set<SessionId> {
    set id | id in later.sessions && id in t.sessions
             && later.sessions[id].status == SessionTables.Running && t.sessions[id].status != SessionTables.Running
  }

  lemma RetryTakesOneSeat(t: Tables, id: SessionId)
    requires id in t.sessions
    ensures SeatsTaken(Retried(t, id)) <= SeatsTaken(t) + 1
  {
    assert SeatHolders(Retried(t, id).sessions, true) <= SeatHolders(t.sessions, true) + {id};
    SetGrowsByOne(SeatHolders(Retried(t, id).sessions, true), SeatHolders(t.sessions, true), id);
  }

  lemma SetGrowsByOne(a: set<SessionId>, b: set<SessionId>, id: SessionId)
    requires a <= b + {id}
    ensures |a| <= |b| + 1
  {
    assert a - {id} <= b;
    SubsetIsSmaller(a - {id}, b);
    if id in a {
      assert a == (a - {id}) + {id};
    } else {
      assert a == a - {id};
    }
  }

  lemma {:induction false} SubsetIsSmaller(a: set<SessionId>, b: set<SessionId>)
    requires a <= b
    ensures |a| <= |b|
  {
    assert b == a + (b - a);
  }

  datatype Verdict = Confirmed | StillFiring | Unreachable

  // When each session was last asked about, once these of the open ones were visited.
  function LastAfter(last: map<SessionId, int>, visited: seq<SessionId>, open: seq<SessionId>, since: SessionId -> int,
                     now: int, id: SessionId): Option<int>
  {
    if id in visited then AskedNext(LastOf(last, id), since(id), now)
    else if id in open then LastOf(last, id)
    else None
  }

  lemma OneMoreVisited(open: seq<SessionId>, i: nat)
    requires i < |open| && forall j, k :: 0 <= j < k < |open| ==> open[j] != open[k]
    ensures open[i] !in open[..i] && open[i] in open
    ensures forall id :: id in open[..i + 1] <==> id in open[..i] || id == open[i]
  {
    assert open[..i + 1] == open[..i] + [open[i]];
  }

  class Reconciler {
    const dispatcher: Dispatcher
    var lastAsked: map<SessionId, int>

    constructor (dispatcher: Dispatcher)
      ensures this.dispatcher == dispatcher && lastAsked == map[]
    {
      this.dispatcher := dispatcher;
      lastAsked := map[];
    }

    function Last(id: SessionId): Option<int>
      reads this
    {
      if id in lastAsked then Some(lastAsked[id]) else None
    }

    method ForgetSettled(open: set<SessionId>)
      modifies this`lastAsked
      ensures forall id :: Last(id) == if id in open then old(Last(id)) else None
    {
      lastAsked := map id | id in lastAsked && id in open :: lastAsked[id];
    }

    /** retryFailedRun: only a transient failure, fewer than three of them, and with a seat to take. */
    method RetryFailedRun(id: SessionId, limit: nat) returns (started: bool)
      modifies dispatcher`controllers, dispatcher.db`sessions
      ensures started <==> Retriable(old(dispatcher.db.State()), id, limit)
      ensures dispatcher.db.State() == if started then Retried(old(dispatcher.db.State()), id) else old(dispatcher.db.State())
    {
      if id !in dispatcher.db.sessions || dispatcher.db.sessions[id].failure != Some(Transient)
         || dispatcher.db.sessions[id].attempts >= MAX_RUN_RETRIES {
        return false;
      }
      if SeatsTaken(dispatcher.db.State()) >= limit {
        return false;
      }
      started := dispatcher.Start(id);
    }

    // What asking about one session adds to the sweep.
    method Heed(id: SessionId, verdict: Verdict, limit: nat, asked: nat, cleared: nat, retried: nat)
      returns (cleared': nat, retried': nat)
      modifies dispatcher`controllers, dispatcher.db`sessions
      ensures Sweep(dispatcher.db.State(), asked + 1, cleared', retried')
           == Heeded(Sweep(old(dispatcher.db.State()), asked, cleared, retried), id, verdict, limit)
    {
      cleared', retried' := cleared, retried;
      match verdict {
        case Confirmed => cleared' := cleared + 1;
        case StillFiring =>
          var started := RetryFailedRun(id, limit);
          if started { retried' := retried + 1; }
        case Unreachable =>
      }
    }

    // One open session of the sweep: passed over, or stamped and asked about.
    method Visit(id: SessionId, since: SessionId -> int, verdict: SessionId -> Verdict, limit: nat, now: int,
                 asked: nat, cleared: nat, retried: nat)
      returns (asked': nat, cleared': nat, retried': nat)
      modifies this`lastAsked, dispatcher`controllers, dispatcher.db`sessions
      ensures forall other :: Last(other) == if other == id then AskedNext(old(Last(id)), since(id), now) else old(Last(other))
      ensures var s := Sweep(old(dispatcher.db.State()), asked, cleared, retried);
        Sweep(dispatcher.db.State(), asked', cleared', retried')
          == if Due(old(Last(id)), now - since(id), now) then Heeded(s, id, verdict(id), limit) else s
    {
      asked', cleared', retried' := asked, cleared, retried;
      if Due(Last(id), now - since(id), now) {
        lastAsked := lastAsked[id := now];
        cleared', retried' := Heed(id, verdict(id), limit, asked, cleared, retried);
        asked' := asked + 1;
      }
    }

    /** reconcileRecovery: each open session that is due is asked about, once, and nothing else is remembered. */
    method ReconcileRecovery(open: seq<SessionId>, since: SessionId -> int, verdict: SessionId -> Verdict,
                             limit: nat, now: int)
      returns (asked: nat, cleared: nat, retried: nat)
      requires forall i, j :: 0 <= i < j < |open| ==> open[i] != open[j]
      modifies this`lastAsked, dispatcher`controllers, dispatcher.db`sessions
      ensures forall id :: Last(id) == if id in open then AskedNext(old(Last(id)), since(id), now) else None
      ensures Sweep(dispatcher.db.State(), asked, cleared, retried)
           == Swept(old(dispatcher.db.State()), old(lastAsked), open, since, verdict, limit, now)
    {
      asked, cleared, retried := 0, 0, 0;
      ghost var t, last := dispatcher.db.State(), lastAsked;
      ForgetSettled(set id | id in open);
      for i := 0 to |open|
        invariant forall id :: Last(id) == LastAfter(last, open[..i], open, since, now, id)
        invariant Sweep(dispatcher.db.State(), asked, cleared, retried) == Swept(t, last, open[..i], since, verdict, limit, now)
      {
        var id := open[i];
        OneMoreVisited(open, i);
        SweptNext(t, last, open, since, verdict, limit, now, i);
        asked, cleared, retried := Visit(id, since, verdict, limit, now, asked, cleared, retried);
      }
      assert open[..|open|] == open;
    }
  }
}
