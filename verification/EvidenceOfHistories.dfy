/**
 The evidence trail over whole histories: what each handle names, and for how long.
 */
module EvidenceOfHistories {
  import opened Wrappers
  import opened Transcript
  import opened Seed
  import opened SessionTables
  import opened TranscriptWrites
  import opened Protocol
  import opened ProtocolStatus
  import opened ProtocolWrites
  import opened ProtocolGates
  import opened ProtocolSeed
  import opened ProtocolTrail
  import opened Evidence

  // What every history keeps of a session, calm or not.
  ghost predicate Sturdy(a: System) {
    Writes(a) && Trailed(a)
  }

  lemma InitialIsSturdy(registry: Registry, ceilingMs: int, investigation: bool, alerts: nat, now: int)
    ensures var a := Initial(registry, ceilingMs, investigation, alerts, now);
      Sturdy(a) && Kept(a) && Matched(a) && !Overtaken(a)
  {
    assert Handles([]) == Range(1, 0);
    assert AnswerRows([]) == [] && Trail([]) == [];
  }

  lemma HistoryKeepsSturdy(a: System, history: seq<Event>)
    requires Sturdy(a) && Runs(a, history)
    ensures Sturdy(After(a, history))
  {
    TranscriptStaysSound(a, history);
    HistoryKeepsTrailed(a, history);
  }

  lemma RunGrows(a: System, e: Event)
    requires RunEnabled(a, e)
    ensures a.s.rows <= RunStep(a, e).s.rows
  {
    assert a.s.rows + [] == a.s.rows;
  }

  lemma StepGrows(a: System, e: Event)
    requires Enabled(a, e)
    ensures a.s.rows <= Step(a, e).s.rows
  {
    if RunEnabled(a, e) {
      RunGrows(a, e);
    } else if HumanEnabled(a, e) {
      assert a.s.rows <= HumanStep(a, e).s.rows;
    } else {
      assert a.s.rows <= WorldStep(a, e).s.rows;
    }
  }

  lemma {:induction false} HistoryGrows(a: System, history: seq<Event>)
    requires Runs(a, history)
    ensures a.s.rows <= After(a, history).s.rows
    decreases |history|
  {
    if history != [] {
      StepGrows(a, history[0]);
      HistoryGrows(Step(a, history[0]), history[1..]);
    }
  }

  // ---------- Every history ----------

  lemma NamedRise(a: System, history: seq<Event>)
    requires Sturdy(a) && Runs(a, history)
    ensures var rows := After(a, history).s.rows;
      && a.s.rows <= rows && rows == a.s.rows + rows[|a.s.rows|..]
      && Named(Trail(rows)) && Named(Trail(a.s.rows))
  {
    HistoryKeepsSturdy(a, history);
    HistoryGrows(a, history);
  }

  /** On every history, a citation that names a call goes on naming it if and only if the rows written since gave that
      call no handle, or last the same one. */
  lemma CitationsNameIff(a: System, history: seq<Event>, n: nat, i: nat)
    requires Sturdy(a) && Runs(a, history) && Resolves(Entries(Trail(a.s.rows)), n, i)
    ensures a.s.rows <= After(a, history).s.rows
    ensures var (was, rows) := (Entries(Trail(a.s.rows))[i], After(a, history).s.rows);
      var since := LastHandle(Trail(rows[|a.s.rows|..]), was.callId);
      (exists k: nat :: Resolves(Entries(Trail(rows)), n, k) && Entries(Trail(rows))[k].callId == was.callId)
        <==> since == None || since == Some(n)
  {
    NamedRise(a, history);
    CitationNamesIff(a.s.rows, After(a, history).s.rows[|a.s.rows|..], n, i);
  }

  /** On every history on which no crossed author committed a handle, a citation that names a call goes on naming it if
      and only if no row written since answers that call again under a handle; while none answers it again at all, what
      it quotes stands. */
  lemma CitationsStandIff(a: System, history: seq<Event>, n: nat, i: nat)
    requires Sturdy(a) && Runs(a, history) && Resolves(Entries(Trail(a.s.rows)), n, i) && !After(a, history).slipped
    ensures a.s.rows <= After(a, history).s.rows
    ensures var (was, rows) := (Entries(Trail(a.s.rows))[i], After(a, history).s.rows);
      && ((exists k: nat :: Resolves(Entries(Trail(rows)), n, k)) <==> !HandledIn(Trail(rows[|a.s.rows|..]), was.callId))
      && (forall k: nat :: Resolves(Entries(Trail(rows)), n, k) ==>
            && Entries(Trail(rows))[k].callId == was.callId
            && (LastOutput(Trail(rows[|a.s.rows|..]), was.callId).None? ==> Entries(Trail(rows))[k].result == was.result))
  {
    NamedRise(a, history);
    HistoryKeepsSturdy(a, history);
    CitationStandsIff(a.s.rows, After(a, history).s.rows[|a.s.rows|..], n, i);
  }

  // ---------- Calm histories ----------

  lemma BracketedIsOrderly(rows: seq<Row>)
    requires Bracketed(rows) && NamedRows(rows)
    ensures Orderly(Trail(rows))
  {
    AnsweredOnceOnTrail(rows);
  }

  lemma {:induction false} AnsweredOnceOnTrail(rows: seq<Row>)
    requires AnsweredOnce(rows) && forall i :: 0 <= i < |rows| ==> WellMade(rows[i])
    ensures AnsweredOnceOn(Trail(rows))
    decreases |rows|
  {
    if rows != [] {
      var n := |rows| - 1;
      var front, parts, trail := rows[..n], rows[n].parts, Trail(rows);
      AnsweredOnceOnTrail(front);
      forall i, j | 0 <= i < j < |trail| && trail[i].ResultPart? && trail[j].ResultPart?
        ensures trail[i].callId != trail[j].callId
      {
        if i < |Trail(front)| <= j {
          assert trail[i] == Trail(front)[i] && trail[j] in parts;
          var r := FromRow(front, trail[i]);
          assert trail[i].callId in Results(rows[r]) && trail[j].callId in Results(rows[n]);
        }
      }
    }
  }

  // What calm histories keep besides.
  ghost predicate Calmly(a: System) {
    Kept(a) && Trailed(a)
  }

  lemma CalmHistoryStaysOrderly(a: System, history: seq<Event>)
    requires Calmly(a) && CalmRuns(a, history)
    ensures Runs(a, history) && Calmly(After(a, history))
    ensures Consecutive(After(a, history).s.rows) && Orderly(Trail(After(a, history).s.rows))
  {
    CalmHistoriesKeep(a, history);
    HistoryKeepsTrailed(a, history);
    BracketedIsOrderly(After(a, history).s.rows);
  }

  /** On every calm history, a handle from e1 to eN names exactly one call that has answered, and one outside
      that range names none. */
  lemma EveryHandleResolves(registry: Registry, ceilingMs: int, investigation: bool, alerts: nat, now: int,
                            history: seq<Event>, n: nat)
    requires CalmRuns(Initial(registry, ceilingMs, investigation, alerts, now), history)
    ensures var a := Initial(registry, ceilingMs, investigation, alerts, now);
      && Runs(a, history)
      && var rows := After(a, history).s.rows;
      && (1 <= n <= |Handles(rows)| <==> exists k: nat :: Resolves(Entries(Trail(rows)), n, k))
      && (forall i: nat, k: nat :: Resolves(Entries(Trail(rows)), n, i) && Resolves(Entries(Trail(rows)), n, k) ==> i == k)
  {
    var a := Initial(registry, ceilingMs, investigation, alerts, now);
    InitialIsSturdy(registry, ceilingMs, investigation, alerts, now);
    CalmHistoryStaysOrderly(a, history);
    HandleNamesOneCall(After(a, history).s.rows, n);
  }

  ghost predicate IsCarried(trail: seq<Part>, n: nat) {
    exists j :: 0 <= j < |trail| && Carries(trail[j], n)
  }

  ghost predicate CarriedOnce(trail: seq<Part>, n: nat) {
    forall i, j :: 0 <= i < |trail| && 0 <= j < |trail| && Carries(trail[i], n) && Carries(trail[j], n) ==> i == j
  }

  // The trail carries e1 to eN, each on one result.
  ghost predicate SoundHandles(rows: seq<Row>) {
    forall n: nat :: (IsCarried(Trail(rows), n) <==> 1 <= n <= |Handles(rows)|) && CarriedOnce(Trail(rows), n)
  }

  lemma ConsecutiveIsSound(rows: seq<Row>)
    requires Consecutive(rows)
    ensures SoundHandles(rows)
  {
    forall n: nat
      ensures (IsCarried(Trail(rows), n) <==> 1 <= n <= |Handles(rows)|) && CarriedOnce(Trail(rows), n)
    {
      CarriedIsInRange(rows, n);
      forall i, j | 0 <= i < |Trail(rows)| && 0 <= j < |Trail(rows)|
        ensures Carries(Trail(rows)[i], n) && Carries(Trail(rows)[j], n) ==> i == j
      {
        if Carries(Trail(rows)[i], n) && Carries(Trail(rows)[j], n) {
          OneSource(rows, n, i, j);
        }
      }
    }
  }

  ghost predicate ResolvesOn(entries: seq<ToolCall>, n: nat, id: CallId) {
    exists k: nat :: Resolves(entries, n, k) && entries[k].callId == id
  }

  // The handle resolves to exactly the calls whose last handle it is.
  ghost predicate NamesItsEnds(rows: seq<Row>, n: nat) {
    forall id :: ResolvesOn(Entries(Trail(rows)), n, id) <==> EndsOnCall(Trail(rows), n, id)
  }

  ghost predicate IsResolved(entries: seq<ToolCall>, n: nat) {
    exists k: nat :: Resolves(entries, n, k)
  }

  // One result carries it at most; it resolves, to one call, exactly when no later result of that call carries a handle.
  ghost predicate NamesOne(rows: seq<Row>, n: nat) {
    && CarriedOnce(Trail(rows), n)
    && (forall i: nat, k: nat :: Resolves(Entries(Trail(rows)), n, i) && Resolves(Entries(Trail(rows)), n, k) ==> i == k)
    && (forall j :: 0 <= j < |Trail(rows)| && Carries(Trail(rows)[j], n) ==>
          (IsResolved(Entries(Trail(rows)), n) <==> !Reissued(Trail(rows), j)))
  }

  lemma NamedNamesItsEnds(rows: seq<Row>, n: nat)
    requires Named(Trail(rows))
    ensures NamesItsEnds(rows, n)
  {
    forall id
      ensures ResolvesOn(Entries(Trail(rows)), n, id) <==> EndsOnCall(Trail(rows), n, id)
    {
      if ResolvesOn(Entries(Trail(rows)), n, id) {
        var k: nat :| Resolves(Entries(Trail(rows)), n, k) && Entries(Trail(rows))[k].callId == id;
        var j := EntrySource(rows, k, n);
      }
      if EndsOnCall(Trail(rows), n, id) {
        var j: nat :| Ends(Trail(rows), n, j) && Trail(rows)[j].callId == id;
        var k := CarrierResolves(rows, j, n);
      }
    }
  }

  lemma SoundNamesOne(rows: seq<Row>, n: nat)
    requires Consecutive(rows) && Named(Trail(rows))
    ensures NamesOne(rows, n)
  {
    ConsecutiveIsSound(rows);
    forall j | 0 <= j < |Trail(rows)| && Carries(Trail(rows)[j], n)
      ensures IsResolved(Entries(Trail(rows)), n) <==> !Reissued(Trail(rows), j)
    {
      HandleResolvesIff(rows, j, n);
    }
    forall i: nat, k: nat | Resolves(Entries(Trail(rows)), n, i) && Resolves(Entries(Trail(rows)), n, k)
      ensures i == k
    {
      var j := EntrySource(rows, i, n);
      HandleResolvesIff(rows, j, n);
    }
  }

  /** On every history, calm or not, a handle resolves to exactly the calls whose last handle it is; and as long as no
      crossed author committed a handle, the trail carries e1 to eN, each on one result, so that each names the call it
      was issued for, or none if and only if that call was given another since. */
  lemma HandlesResolveIff(registry: Registry, ceilingMs: int, investigation: bool, alerts: nat, now: int,
                          history: seq<Event>, n: nat)
    requires Runs(Initial(registry, ceilingMs, investigation, alerts, now), history)
    ensures var b := After(Initial(registry, ceilingMs, investigation, alerts, now), history);
      && NamesItsEnds(b.s.rows, n)
      && (!b.slipped ==> SoundHandles(b.s.rows) && NamesOne(b.s.rows, n))
  {
    var a := Initial(registry, ceilingMs, investigation, alerts, now);
    InitialIsSturdy(registry, ceilingMs, investigation, alerts, now);
    HistoryKeepsSturdy(a, history);
    var rows := After(a, history).s.rows;
    NamedNamesItsEnds(rows, n);
    if !After(a, history).slipped {
      ConsecutiveIsSound(rows);
      SoundNamesOne(rows, n);
    }
  }
}
