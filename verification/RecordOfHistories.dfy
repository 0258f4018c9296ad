/**
 The record beside the transcript it cites, over whole histories: runs, people, crashes and
 recoveries move the session while findings are recorded and reports composed
 (apps/api/src/agent/report.ts).

 A write to the record is one step. The transcript its author read first is any prefix of
 the one that stands by then.
 */
module RecordOfHistories {
  import opened Wrappers
  import opened Transcript
  import opened Seed
  import opened SessionTables
  import opened TranscriptWrites
  import opened Protocol
  import opened ProtocolSeed
  import opened ProtocolTrail
  import opened Evidence
  import opened EvidenceOfHistories
  import opened Record

  // `read` and `recorded` are history: the rows the last report counted approved writes over, and how many
  // findings were recorded since.
  datatype Desk = Desk(a: System, r: Record, read: seq<Row>, recorded: nat)

  datatype Deed = Moves(e: Event) | Files(act: Act, at: nat)

  function EntriesAt(d: Desk, at: nat): seq<ToolCall>
    requires at <= |d.a.s.rows|
  {
    Entries(Trail(d.a.s.rows[..at]))
  }

  predicate Allowed(d: Desk, deed: Deed) {
    match deed
    case Moves(e) => Enabled(d.a, e)
    case Files(act, at) =>
      at <= |d.a.s.rows| &&
      match act
      case RecordThis(input) => input.evidence != [] && forall id :: id in input.evidence ==> id in Issued(EntriesAt(d, at))
      case ComposeReport(_, approvedWrites) => approvedWrites == ApprovedWrites(EntriesAt(d, at))
      case _ => true
  }

  function DeskStep(d: Desk, deed: Deed): Desk
    requires Allowed(d, deed)
  {
    match deed
    case Moves(e) => d.(a := Step(d.a, e))
    case Files(act, at) =>
      d.(r := Did(d.r, act),
         read := if act.ComposeReport? then d.a.s.rows[..at] else d.read,
         recorded := if act.ComposeReport? then 0 else if act.RecordThis? then d.recorded + 1 else d.recorded)
  }

  predicate Does(d: Desk, deeds: seq<Deed>)
    decreases |deeds|
  {
    deeds == [] || (Allowed(d, deeds[0]) && Does(DeskStep(d, deeds[0]), deeds[1..]))
  }

  function Done(d: Desk, deeds: seq<Deed>): Desk
    requires Does(d, deeds)
    decreases |deeds|
  {
    if deeds == [] then d else Done(DeskStep(d, deeds[0]), deeds[1..])
  }

  // Every answer lands on the gate its author read, and every resume finds no gate.
  predicate DoesCalmly(d: Desk, deeds: seq<Deed>)
    decreases |deeds|
  {
    deeds == []
    || (Allowed(d, deeds[0]) && (deeds[0].Moves? ==> Calm(d.a, deeds[0].e)) && DoesCalmly(DeskStep(d, deeds[0]), deeds[1..]))
  }

  lemma {:induction false} CalmDeedsAreDone(d: Desk, deeds: seq<Deed>)
    requires DoesCalmly(d, deeds)
    ensures Does(d, deeds)
    decreases |deeds|
  {
    if deeds != [] {
      CalmDeedsAreDone(DeskStep(d, deeds[0]), deeds[1..]);
    }
  }

  // ---------- What every history keeps ----------

  // Every id on a finding was issued on some result of the transcript.
  ghost predicate WellCited(r: Record, rows: seq<Row>) {
    forall f, id :: f in r.findings && id in f.evidence ==> IsCarried(Trail(rows), id)
  }

  // What the report was stamped with.
  ghost predicate Stamped(d: Desk) {
    d.r.report.Some? ==>
      && LastId(d.r.findings) == d.r.report.value.findingsCoveredUpTo + d.recorded
      && d.r.report.value.writesCoveredUpTo == ApprovedWrites(Entries(Trail(d.read)))
  }

  ghost predicate DeskKept(d: Desk) {
    && Sturdy(d.a) && WellLinked(d.r)
    && WellCited(d.r, d.a.s.rows) && d.read <= d.a.s.rows && Stamped(d)
  }

  lemma NewDeskIsKept(a: System)
    requires Sturdy(a)
    ensures DeskKept(Desk(a, EMPTY, [], 0))
  {
  }

  lemma OneStep(a: System, e: Event)
    requires Enabled(a, e)
    ensures Runs(a, [e]) && After(a, [e]) == Step(a, e)
  {
    assert [e][1..] == [];
  }

  lemma PrefixTrail(rows: seq<Row>, at: nat)
    requires at <= |rows|
    ensures Trail(rows[..at]) <= Trail(rows) && Trail(rows[..at]) == Trail(rows)[..|Trail(rows[..at])|]
  {
    assert rows == rows[..at] + rows[at..];
    TrailConcat(rows[..at], rows[at..]);
  }

  lemma PrefixStands(rows: seq<Row>, at: nat)
    requires NamedRows(rows) && at <= |rows|
    ensures NamedRows(rows[..at]) && Trail(rows[..at]) <= Trail(rows)
  {
    PrefixTrail(rows, at);
    NamedFront(Trail(rows), |Trail(rows[..at])|);
  }

  lemma CarriedStays(trail: seq<Part>, more: seq<Part>, n: nat)
    requires trail <= more && IsCarried(trail, n)
    ensures IsCarried(more, n)
  {
    var j :| 0 <= j < |trail| && Carries(trail[j], n);
    assert more[j] == trail[j];
  }

  lemma MoveKeepsDesk(d: Desk, e: Event)
    requires DeskKept(d) && Enabled(d.a, e)
    ensures DeskKept(DeskStep(d, Moves(e)))
  {
    OneStep(d.a, e);
    HistoryKeepsSturdy(d.a, [e]);
    StepGrows(d.a, e);
    var rows, later := d.a.s.rows, Step(d.a, e).s.rows;
    assert later == rows + later[|rows|..];
    TrailConcat(rows, later[|rows|..]);
    forall f, id | f in d.r.findings && id in f.evidence
      ensures IsCarried(Trail(later), id)
    {
      CarriedStays(Trail(rows), Trail(later), id);
    }
  }

  lemma IssuedIsCarried(rows: seq<Row>, id: nat)
    requires Named(Trail(rows)) && id in Issued(Entries(Trail(rows)))
    ensures IsCarried(Trail(rows), id)
  {
    IssuedIsResolved(rows, id);
    var k: nat :| Resolves(Entries(Trail(rows)), id, k);
    var j := EntrySource(rows, k, id);
  }

  lemma RecordKeepsDesk(d: Desk, input: FindingInput, at: nat)
    requires DeskKept(d) && Allowed(d, Files(RecordThis(input), at))
    ensures DeskKept(DeskStep(d, Files(RecordThis(input), at)))
  {
    var rows, next := d.a.s.rows, Recorded(d.r, input);
    FindingLinks(d.r, input);
    PrefixStands(rows, at);
    forall f, id | f in next.findings && id in f.evidence
      ensures IsCarried(Trail(rows), id)
    {
      if f !in d.r.findings {
        assert id in Issued(EntriesAt(d, at));
        IssuedIsCarried(rows[..at], id);
        CarriedStays(Trail(rows[..at]), Trail(rows), id);
      }
    }
  }

  lemma DeedKeepsDesk(d: Desk, deed: Deed)
    requires DeskKept(d) && Allowed(d, deed)
    ensures DeskKept(DeskStep(d, deed))
    ensures d.r.findings <= DeskStep(d, deed).r.findings
  {
    match deed
    case Moves(e) => MoveKeepsDesk(d, e);
    case Files(act, at) =>
      if act.RecordThis? {
        RecordKeepsDesk(d, act.input, at);
      } else {
        ActLinks(d.r, act);
      }
  }

  lemma {:induction false} DeedsKeepDesk(d: Desk, deeds: seq<Deed>)
    requires DeskKept(d) && Does(d, deeds)
    ensures DeskKept(Done(d, deeds)) && d.r.findings <= Done(d, deeds).r.findings
    decreases |deeds|
  {
    if deeds != [] {
      DeedKeepsDesk(d, deeds[0]);
      DeedsKeepDesk(DeskStep(d, deeds[0]), deeds[1..]);
    }
  }

  lemma {:induction false} CalmDeedsStayCalm(d: Desk, deeds: seq<Deed>)
    requires Calmly(d.a) && DoesCalmly(d, deeds)
    ensures Does(d, deeds) && Calmly(Done(d, deeds).a)
    decreases |deeds|
  {
    CalmDeedsAreDone(d, deeds);
    if deeds != [] {
      if deeds[0].Moves? {
        assert [deeds[0].e][1..] == [];
        OneStep(d.a, deeds[0].e);
        CalmHistoryStaysOrderly(d.a, [deeds[0].e]);
      }
      CalmDeedsStayCalm(DeskStep(d, deeds[0]), deeds[1..]);
    }
  }

  // ---------- What a finding cites ----------

  /** On every history, each id stored on a finding was issued on a result of the transcript, and it resolves to exactly
      the calls whose last handle it is. As long as no crossed author committed a handle, that result is the only one, and
      the id names its call and no other if and only if no later result of that call carries a handle. */
  lemma FindingsResolveIff(d: Desk, deeds: seq<Deed>, f: Finding, id: nat)
    requires DeskKept(d) && Does(d, deeds) && f in Done(d, deeds).r.findings && id in f.evidence
    ensures var l := Done(d, deeds);
      && IsCarried(Trail(l.a.s.rows), id)
      && NamesItsEnds(l.a.s.rows, id)
      && (!l.a.slipped ==> NamesOne(l.a.s.rows, id))
  {
    DeedsKeepDesk(d, deeds);
    var rows := Done(d, deeds).a.s.rows;
    NamedNamesItsEnds(rows, id);
    if !Done(d, deeds).a.slipped {
      SoundNamesOne(rows, id);
    }
  }

  /** On calm histories a finding stays on the record, and each id it stores names exactly one answered call,
      whenever it was recorded and however much follows. */
  lemma FindingsResolveForever(d: Desk, deeds: seq<Deed>, f: Finding, id: nat)
    requires DeskKept(d) && Calmly(d.a) && DoesCalmly(d, deeds) && f in d.r.findings && id in f.evidence
    ensures Does(d, deeds)
    ensures var (later, entries) := (Done(d, deeds), Entries(Trail(Done(d, deeds).a.s.rows)));
      && f in later.r.findings
      && (exists k: nat :: Resolves(entries, id, k))
      && (forall i: nat, k: nat :: Resolves(entries, id, i) && Resolves(entries, id, k) ==> i == k)
  {
    CalmDeedsStayCalm(d, deeds);
    DeedsKeepDesk(d, deeds);
    var later := Done(d, deeds);
    BracketedIsOrderly(later.a.s.rows);
    assert f in later.r.findings && IsCarried(Trail(later.a.s.rows), id);
    CarriedIsInRange(later.a.s.rows, id);
    HandleNamesOneCall(later.a.s.rows, id);
  }

  // ---------- When the report is behind ----------

  // The writes released since the report was composed, and those released no more.
  function NewlyReleased(d: Desk): set<CallId> {
    ReleasedIn(d.a.s.rows) - ReleasedIn(d.read)
  }

  function Unreleased(d: Desk): set<CallId> {
    ReleasedIn(d.read) - ReleasedIn(d.a.s.rows)
  }

  predicate Behind(d: Desk) {
    ReportIsBehind(d.r, ApprovedWrites(Entries(Trail(d.a.s.rows))))
  }

  lemma BehindCounts(d: Desk)
    requires DeskKept(d)
    ensures Behind(d) <==> d.r.report.None? || d.recorded > 0 || |NewlyReleased(d)| != |Unreleased(d)|
  {
    var rows := d.a.s.rows;
    assert rows == d.read + rows[|d.read|..] && d.read == rows[..|d.read|];
    PrefixStands(rows, |d.read|);
    CountMoves(d.read, rows[|d.read|..]);
  }

  /** On every history, the report is behind if and only if there is none, or a finding was recorded since it was
      composed, or the writes released since are not as many as those released no more. So it tells whether
      something is new if and only if nothing was un-released, or the counts differ and something was released,
      or there is no report, or a finding is new. */
  lemma BehindIff(d: Desk, deeds: seq<Deed>)
    requires DeskKept(d) && Does(d, deeds)
    ensures var l := Done(d, deeds);
      && (Behind(l) <==> l.r.report.None? || l.recorded > 0 || |NewlyReleased(l)| != |Unreleased(l)|)
      && ((Behind(l) <==> l.r.report.None? || l.recorded > 0 || NewlyReleased(l) != {})
            <==> (|| l.r.report.None? || l.recorded > 0 || Unreleased(l) == {}
                  || (NewlyReleased(l) != {} && |NewlyReleased(l)| != |Unreleased(l)|)))
  {
    DeedsKeepDesk(d, deeds);
    BehindCounts(Done(d, deeds));
  }

  lemma {:induction false} LastsOnTrail(trail: seq<Part>, id: CallId)
    ensures LastOutput(trail, id).Some? ==> exists p :: p in trail && p.ResultPart? && p.callId == id
    ensures LastDecision(trail, id).Some? ==> exists p :: p in trail && p.ApprovalPart? && p.callId == id
    decreases |trail|
  {
    if trail != [] {
      LastsOnTrail(trail[..|trail| - 1], id);
      assert trail == trail[..|trail| - 1] + [trail[|trail| - 1]];
    }
  }

  // Where no call is answered twice, no write that was released is rejected later: the decision rides on the answer.
  lemma NothingUnreleased(rows: seq<Row>, at: nat)
    requires NamedRows(rows) && AnsweredOnce(rows) && at <= |rows|
    ensures ReleasedIn(rows[..at]) <= ReleasedIn(rows)
  {
    var front, more := rows[..at], rows[at..];
    assert front + more == rows;
    PrefixStands(rows, at);
    forall id | id in ReleasedIn(front)
      ensures id in ReleasedIn(rows)
    {
      UnreleasedIff(front, more, id);
      ReleasedMeans(front, id);
      if LastDecision(Trail(more), id).Some? {
        DecidedLater(rows, at, id);
      }
    }
  }

  lemma DecidedLater(rows: seq<Row>, at: nat, id: CallId)
    requires NamedRows(rows) && AnsweredOnce(rows) && at <= |rows| && LastDecision(Trail(rows[at..]), id).Some?
    ensures LastOutput(Trail(rows[..at]), id).None?
  {
    var front, more := rows[..at], rows[at..];
    LastsOnTrail(Trail(more), id);
    LastsOnTrail(Trail(front), id);
    var p :| p in Trail(more) && p.ApprovalPart? && p.callId == id;
    var i := FromRow(more, p);
    assert WellMade(rows[at + i]) && p in rows[at + i].parts;
    assert id in Results(rows[at + i]) by {
      var k :| 0 <= k < |rows[at + i].parts| && rows[at + i].parts[k] == p;
    }
    forall q | q in Trail(front) && q.ResultPart?
      ensures q.callId != id
    {
      var j := FromRow(front, q);
      assert q.callId in Results(rows[j]);
    }
  }

  /** On calm histories the report is behind exactly when there is none, or a finding was recorded or a write
      released since it was composed: no write that was released is ever released no more. */
  lemma BehindMeansSomethingNew(d: Desk, deeds: seq<Deed>)
    requires DeskKept(d) && Calmly(d.a) && DoesCalmly(d, deeds)
    ensures Does(d, deeds)
    ensures var l := Done(d, deeds);
      && Unreleased(l) == {}
      && (Behind(l) <==> l.r.report.None? || l.recorded > 0 || NewlyReleased(l) != {})
  {
    CalmDeedsStayCalm(d, deeds);
    DeedsKeepDesk(d, deeds);
    var l := Done(d, deeds);
    assert l.read == l.a.s.rows[..|l.read|];
    NothingUnreleased(l.a.s.rows, |l.read|);
    BehindCounts(l);
  }
}
