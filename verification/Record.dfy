/**
 The append-only record: candidates, the findings that settle them, and the views read
 off it (apps/api/src/agent/report.ts, apps/api/src/session/transcript.ts,
 apps/api/src/agent/prompts/report.ts, packages/shared/src/reports.ts).

 "f<n>" and "c<n>" are modelled by n. A report's "" for no finding is 0.
 */
module Record {
  import opened Wrappers

  datatype Verdict = RootCause | Trigger | ContributingFactor | Symptom | Disproven | Untestable

  datatype Candidate = Candidate(id: nat, statement: string, parent: Option<nat>)

  datatype Finding = Finding(
    id: nat,
    statement: string,
    verdict: Verdict,
    settles: Option<nat>,
    supersedes: Option<nat>,
    evidence: seq<nat>)

  datatype Report = Report(headline: string, findingsCoveredUpTo: nat, writesCoveredUpTo: nat)

  datatype Record = Record(candidates: seq<Candidate>, findings: seq<Finding>, stated: seq<nat>, report: Option<Report>)

  const EMPTY := Record([], [], [], None)

  // ---------- What is read off it ----------

  function SupersededIds(findings: seq<Finding>): (ids: set<nat>)
    ensures forall id :: id in ids <==> exists f :: f in findings && f.supersedes == Some(id)
  {
    set f | f in findings && f.supersedes.Some? :: f.supersedes.value
  }

  predicate Stands(findings: seq<Finding>, f: Finding) {
    f.id !in SupersededIds(findings)
  }

  function SettledIds(findings: seq<Finding>): set<nat> {
    set f | f in findings && f.settles.Some? && Stands(findings, f) :: f.settles.value
  }

  function OpenIds(candidates: seq<Candidate>, settled: set<nat>): seq<nat> {
    if candidates == [] then []
    else
      var last := candidates[|candidates| - 1];
      OpenIds(candidates[..|candidates| - 1], settled) + (if last.id in settled then [] else [last.id])
  }

  // openCandidateIds
  function OpenCandidateIds(r: Record): seq<nat> {
    OpenIds(r.candidates, SettledIds(r.findings))
  }

  // The first standing finding that settles this candidate.
  function Settling(all: seq<Finding>, findings: seq<Finding>, id: nat): Option<Finding> {
    if findings == [] then None
    else if findings[0].settles == Some(id) && Stands(all, findings[0]) then Some(findings[0])
    else Settling(all, findings[1..], id)
  }

  datatype CandidateState = Settled(verdict: Verdict) | Reopened | Open

  // candidateRows
  function CandidateRow(r: Record, c: Candidate): CandidateState {
    match Settling(r.findings, r.findings, c.id)
    case Some(f) => Settled(f.verdict)
    case None => if exists f :: f in r.findings && f.settles == Some(c.id) then Reopened else Open
  }

  // falsificationMessage's verdictOf, None for "open": it searches for itself, past the ids that were replaced.
  function VerdictOf(r: Record, id: nat): Option<Verdict> {
    FirstVerdict(r.findings, SupersededIds(r.findings), id)
  }

  function FirstVerdict(findings: seq<Finding>, replaced: set<nat>, id: nat): Option<Verdict> {
    if findings == [] then None
    else if findings[0].settles == Some(id) && findings[0].id !in replaced then Some(findings[0].verdict)
    else FirstVerdict(findings[1..], replaced, id)
  }

  lemma {:induction false} SearchesAgree(all: seq<Finding>, findings: seq<Finding>, id: nat)
    ensures FirstVerdict(findings, SupersededIds(all), id)
         == if Settling(all, findings, id).Some? then Some(Settling(all, findings, id).value.verdict) else None
    decreases |findings|
  {
    if findings != [] {
      SearchesAgree(all, findings[1..], id);
    }
  }

  lemma {:induction false} SettlingMeans(all: seq<Finding>, findings: seq<Finding>, id: nat)
    ensures Settling(all, findings, id).Some? <==> exists f :: f in findings && f.settles == Some(id) && Stands(all, f)
    decreases |findings|
  {
    if findings != [] {
      SettlingMeans(all, findings[1..], id);
      assert findings == [findings[0]] + findings[1..];
    }
  }

  lemma {:induction false} OpenIdsMeans(candidates: seq<Candidate>, settled: set<nat>, id: nat)
    ensures id in OpenIds(candidates, settled) <==> id !in settled && exists c :: c in candidates && c.id == id
    decreases |candidates|
  {
    if candidates != [] {
      var front, last := candidates[..|candidates| - 1], candidates[|candidates| - 1];
      OpenIdsMeans(front, settled, id);
      assert candidates == front + [last];
    }
  }

  /** The three views agree on every candidate of every record: it is listed as open exactly when its row is open or
      reopened, which is exactly when the falsification turn calls it open; and its row is reopened exactly when a finding
      that settled it is on the record still. */
  lemma ViewsAgree(r: Record, c: Candidate)
    requires c in r.candidates
    ensures c.id in OpenCandidateIds(r) <==> !CandidateRow(r, c).Settled?
    ensures c.id in OpenCandidateIds(r) <==> VerdictOf(r, c.id).None?
    ensures forall v :: VerdictOf(r, c.id) == Some(v) <==> CandidateRow(r, c) == Settled(v)
    ensures CandidateRow(r, c) == Reopened <==>
      c.id in OpenCandidateIds(r) && exists f :: f in r.findings && f.settles == Some(c.id)
  {
    OpenIdsMeans(r.candidates, SettledIds(r.findings), c.id);
    SettlingMeans(r.findings, r.findings, c.id);
    SearchesAgree(r.findings, r.findings, c.id);
    assert c.id in SettledIds(r.findings) <==> Settling(r.findings, r.findings, c.id).Some?;
  }

  // ---------- Writing it ----------

  datatype CandidateInput = CandidateInput(statement: string, parent: Option<nat>)

  function CandidateIds(candidates: seq<Candidate>): set<nat> {
    set c | c in candidates :: c.id
  }

  // One candidate opened after these: its own id is known before its parent is looked up.
  function Added(front: seq<Candidate>, input: CandidateInput): Candidate {
    var known := CandidateIds(front) + {|front| + 1};
    Candidate(|front| + 1, input.statement, if input.parent.Some? && input.parent.value in known then input.parent else None)
  }

  // openCandidates.
  function Opened(candidates: seq<Candidate>, inputs: seq<CandidateInput>): seq<Candidate> {
    if inputs == [] then candidates
    else
      var before := Opened(candidates, inputs[..|inputs| - 1]);
      before + [Added(before, inputs[|inputs| - 1])]
  }

  lemma IdsSnoc(candidates: seq<Candidate>, last: Candidate)
    ensures CandidateIds(candidates + [last]) == CandidateIds(candidates) + {last.id}
  {
    assert last in candidates + [last];
  }

  method OpenCandidates(r: Record, inputs: seq<CandidateInput>) returns (next: Record)
    ensures next == r.(candidates := Opened(r.candidates, inputs))
  {
    var known: set<nat> := set c | c in r.candidates :: c.id;
    var added: seq<Candidate> := [];
    var n := |r.candidates|;
    assert r.candidates + added == r.candidates;
    for i := 0 to |inputs|
      invariant r.candidates + added == Opened(r.candidates, inputs[..i])
      invariant n == |r.candidates| + |added| && known == CandidateIds(r.candidates + added)
    {
      assert inputs[..i + 1][..i] == inputs[..i];
      n := n + 1;
      known := known + {n};
      var parent := if inputs[i].parent.Some? && inputs[i].parent.value in known then inputs[i].parent else None;
      var latest := Candidate(n, inputs[i].statement, parent);
      IdsSnoc(r.candidates + added, latest);
      assert r.candidates + (added + [latest]) == (r.candidates + added) + [latest];
      added := added + [latest];
    }
    assert inputs[..|inputs|] == inputs;
    next := r.(candidates := r.candidates + added);
  }

  function Existing(ids: set<nat>, named: Option<nat>): Option<nat> {
    if named.Some? && named.value in ids then named else None
  }

  datatype FindingInput = FindingInput(
    statement: string, verdict: Verdict, evidence: seq<nat>, settles: Option<nat>, supersedes: Option<nat>)

  function FindingIds(findings: seq<Finding>): set<nat> {
    set f | f in findings :: f.id
  }

  // recordFinding, once its citations are known.
  function Recorded(r: Record, input: FindingInput): Record {
    r.(findings := r.findings + [Finding(
      |r.findings| + 1, input.statement, input.verdict,
      Existing(CandidateIds(r.candidates), input.settles),
      Existing(FindingIds(r.findings), input.supersedes),
      input.evidence)])
  }

  function LastId(findings: seq<Finding>): nat {
    if findings == [] then 0 else findings[|findings| - 1].id
  }

  // composeReport: stamped from the record it is written against.
  function Composed(r: Record, headline: string, approvedWrites: nat): Record {
    r.(report := Some(Report(headline, LastId(r.findings), approvedWrites)))
  }

  predicate ReportIsBehind(r: Record, approvedWrites: nat) {
    match r.report
    case None => true
    case Some(report) => LastId(r.findings) != report.findingsCoveredUpTo || approvedWrites != report.writesCoveredUpTo
  }

  // ---------- Every record the writers reach ----------

  // One write to the record; a report carries the count of approved writes its author read.
  datatype Act =
    | OpenThese(inputs: seq<CandidateInput>)
    | RecordThis(input: FindingInput)
    | StateFrontier(ids: seq<nat>)
    | ComposeReport(headline: string, approvedWrites: nat)

  function Did(r: Record, a: Act): Record {
    match a
    case OpenThese(inputs) => r.(candidates := Opened(r.candidates, inputs))
    case RecordThis(input) => Recorded(r, input)
    case StateFrontier(ids) => r.(stated := ids)
    case ComposeReport(headline, approvedWrites) => Composed(r, headline, approvedWrites)
  }

  function DidAll(r: Record, acts: seq<Act>): Record
    decreases |acts|
  {
    if acts == [] then r else Did(DidAll(r, acts[..|acts| - 1]), acts[|acts| - 1])
  }

  // Ids are positions, parents never later than their child, and replacements strictly earlier.
  ghost predicate WellLinked(r: Record) {
    && (forall i :: 0 <= i < |r.candidates| ==>
          r.candidates[i].id == i + 1
          && (r.candidates[i].parent.Some? ==> 1 <= r.candidates[i].parent.value <= i + 1))
    && (forall i :: 0 <= i < |r.findings| ==>
          r.findings[i].id == i + 1
          && (r.findings[i].supersedes.Some? ==> 1 <= r.findings[i].supersedes.value <= i)
          && (r.findings[i].settles.Some? ==> 1 <= r.findings[i].settles.value <= |r.candidates|))
  }

  lemma {:induction false} OpeningLinks(candidates: seq<Candidate>, inputs: seq<CandidateInput>)
    requires WellLinked(EMPTY.(candidates := candidates))
    ensures WellLinked(EMPTY.(candidates := Opened(candidates, inputs)))
    ensures |candidates| <= |Opened(candidates, inputs)|
    decreases |inputs|
  {
    if inputs != [] {
      OpeningLinks(candidates, inputs[..|inputs| - 1]);
      var before := Opened(candidates, inputs[..|inputs| - 1]);
      assert forall id :: id in CandidateIds(before) ==> 1 <= id <= |before|;
    }
  }

  lemma FindingLinks(r: Record, input: FindingInput)
    requires WellLinked(r)
    ensures WellLinked(Recorded(r, input)) && LastId(Recorded(r, input).findings) == LastId(r.findings) + 1
  {
    assert forall id :: id in CandidateIds(r.candidates) ==> 1 <= id <= |r.candidates|;
    assert forall id :: id in FindingIds(r.findings) ==> 1 <= id <= |r.findings|;
  }

  // The candidate opened under this id for this input: its parent is kept exactly where that names one there by then.
  ghost predicate OpenedAs(c: Candidate, id: nat, input: CandidateInput) {
    && c.id == id && c.statement == input.statement
    && forall p :: c.parent == Some(p) <==> input.parent == Some(p) && 1 <= p <= id
  }

  lemma AddedIsOpened(front: seq<Candidate>, input: CandidateInput)
    requires WellLinked(EMPTY.(candidates := front))
    ensures OpenedAs(Added(front, input), |front| + 1, input)
  {
    CandidateIdsAre(front);
  }

  /** OpenCandidates numbers its candidates on, in order, and drops a parent if and only if that names none that was there
      before, none of its own earlier ones, and not itself. */
  lemma {:induction false} OpenedMeans(before: seq<Candidate>, inputs: seq<CandidateInput>)
    requires WellLinked(EMPTY.(candidates := before))
    ensures var later := Opened(before, inputs);
      && before <= later && |later| == |before| + |inputs|
      && forall k :: 0 <= k < |inputs| ==> OpenedAs(later[|before| + k], |before| + k + 1, inputs[k])
    decreases |inputs|
  {
    if inputs != [] {
      var n := |inputs| - 1;
      OpenedMeans(before, inputs[..n]);
      OpeningLinks(before, inputs[..n]);
      AddedIsOpened(Opened(before, inputs[..n]), inputs[n]);
      var front, later := Opened(before, inputs[..n]), Opened(before, inputs);
      forall k | 0 <= k < |inputs|
        ensures OpenedAs(later[|before| + k], |before| + k + 1, inputs[k])
      {
        if k < n {
          assert OpenedAs(front[|before| + k], |before| + k + 1, inputs[..n][k]);
          assert later[|before| + k] == front[|before| + k];
        }
      }
    }
  }

  lemma CandidateIdsAre(candidates: seq<Candidate>)
    requires WellLinked(EMPTY.(candidates := candidates))
    ensures forall id :: id in CandidateIds(candidates) <==> 1 <= id <= |candidates|
  {
    forall id | 1 <= id <= |candidates|
      ensures id in CandidateIds(candidates)
    {
      assert candidates[id - 1] in candidates;
    }
  }

  /** A finding is kept as it was given, under the next id; it settles what it names if and only if that is a candidate on
      the record, and replaces what it names if and only if that is a finding there. Nothing else changes. */
  lemma RecordedMeans(r: Record, input: FindingInput)
    requires WellLinked(r)
    ensures var (later, n) := (Recorded(r, input), |r.findings|);
      && later == r.(findings := later.findings) && later.findings[..n] == r.findings && |later.findings| == n + 1
      && var f := later.findings[n];
      && f.id == n + 1 && f.statement == input.statement && f.verdict == input.verdict && f.evidence == input.evidence
      && (forall c :: f.settles == Some(c) <==> input.settles == Some(c) && 1 <= c <= |r.candidates|)
      && (forall g :: f.supersedes == Some(g) <==> input.supersedes == Some(g) && 1 <= g <= n)
  {
    CandidateIdsAre(r.candidates);
    forall id | 1 <= id <= |r.findings|
      ensures id in FindingIds(r.findings)
    {
      assert r.findings[id - 1] in r.findings;
    }
  }

  lemma ActLinks(r: Record, a: Act)
    requires WellLinked(r)
    ensures WellLinked(Did(r, a))
  {
    match a
    case OpenThese(inputs) => OpeningLinks(r.candidates, inputs);
    case RecordThis(input) => FindingLinks(r, input);
    case _ =>
  }

  lemma {:induction false} ActsLink(acts: seq<Act>)
    ensures WellLinked(DidAll(EMPTY, acts))
    decreases |acts|
  {
    if acts != [] {
      ActsLink(acts[..|acts| - 1]);
      ActLinks(DidAll(EMPTY, acts[..|acts| - 1]), acts[|acts| - 1]);
    }
  }

  // Following replacements from one finding to the one it replaced, `steps` times.
  ghost predicate Replaces(findings: seq<Finding>, newer: nat, older: nat, steps: nat)
    decreases steps
  {
    if steps == 0 then newer == older
    else 1 <= newer <= |findings| && findings[newer - 1].supersedes.Some?
         && Replaces(findings, findings[newer - 1].supersedes.value, older, steps - 1)
  }

  lemma {:induction false} ReplacementsGoBack(r: Record, newer: nat, older: nat, steps: nat)
    requires WellLinked(r) && Replaces(r.findings, newer, older, steps)
    ensures older + steps <= newer
    decreases steps
  {
    if steps > 0 {
      ReplacementsGoBack(r, r.findings[newer - 1].supersedes.value, older, steps - 1);
    }
  }

  /** In every reachable record, replacement is acyclic, the newest finding stands, and no candidate's parent
      was opened after it. */
  lemma RecordIsAcyclic(acts: seq<Act>)
    ensures var r := DidAll(EMPTY, acts);
      && (forall id, steps :: Replaces(r.findings, id, id, steps) ==> steps == 0)
      && (r.findings != [] ==> Stands(r.findings, r.findings[|r.findings| - 1]))
      && (forall i :: 0 <= i < |r.candidates| && r.candidates[i].parent.Some? ==>
            1 <= r.candidates[i].parent.value <= r.candidates[i].id)
  {
    ActsLink(acts);
    var r := DidAll(EMPTY, acts);
    forall id, steps | Replaces(r.findings, id, id, steps)
      ensures steps == 0
    {
      ReplacementsGoBack(r, id, id, steps);
    }
  }

  /** A candidate naming itself is accepted as its own parent: its id is known before the look-up. */
  lemma SelfParentIsAccepted(statement: string)
    ensures DidAll(EMPTY, [OpenThese([CandidateInput(statement, Some(1))])]).candidates == [Candidate(1, statement, Some(1))]
  {
    var input := CandidateInput(statement, Some(1));
    assert [input][..0] == [];
    assert Opened([], []) == [];
    assert Opened([], [input]) == [Candidate(1, statement, Some(1))];
    var a := OpenThese([input]);
    assert [a][..0] == [];
    assert DidAll(EMPTY, []) == EMPTY;
  }

  // ---------- Ranking ----------

  const VERDICT_ORDER: seq<Verdict> := [RootCause, Trigger, ContributingFactor, Symptom, Disproven, Untestable]

  // VERDICT_ORDER.indexOf
  function Rank(v: Verdict): nat {
    match v
    case RootCause => 0
    case Trigger => 1
    case ContributingFactor => 2
    case Symptom => 3
    case Disproven => 4
    case Untestable => 5
  }

  lemma RankIsIndex(v: Verdict)
    ensures Rank(v) < |VERDICT_ORDER| && VERDICT_ORDER[Rank(v)] == v
  {
  }

  // rankFindings' order on positions: the better verdict first, and the newer of equals.
  predicate Leads(findings: seq<Finding>, i: nat, j: nat)
    requires i < |findings| && j < |findings|
  {
    Rank(findings[i].verdict) < Rank(findings[j].verdict)
    || (Rank(findings[i].verdict) == Rank(findings[j].verdict) && i >= j)
  }

  ghost predicate Positions(findings: seq<Finding>, order: seq<nat>) {
    forall k :: 0 <= k < |order| ==> order[k] < |findings|
  }

  // One way to rank the positions of `findings`: each later finding takes its place ahead of those it leads.
  function Ranked(findings: seq<Finding>): (order: seq<nat>)
    ensures |order| == |findings| && Positions(findings, order)
  {
    if findings == [] then []
    else
      var n := |findings| - 1;
      var before := Ranked(findings[..n]);
      assert forall k :: 0 <= k < n ==> before[k] < n;
      Placed(findings, before, n)
  }

  function Placed(findings: seq<Finding>, order: seq<nat>, i: nat): (r: seq<nat>)
    requires i < |findings| && Positions(findings, order)
    ensures |r| == |order| + 1 && Positions(findings, r)
    decreases |order|
  {
    if order == [] then [i]
    else if Rank(findings[i].verdict) <= Rank(findings[order[0]].verdict) then [i] + order
    else [order[0]] + Placed(findings, order[1..], i)
  }

  ghost predicate InOrder(findings: seq<Finding>, order: seq<nat>)
    requires Positions(findings, order)
  {
    forall a, b :: 0 <= a < b < |order| ==> Leads(findings, order[a], order[b])
  }

  lemma HeadLeads(findings: seq<Finding>, order: seq<nat>)
    requires Positions(findings, order) && InOrder(findings, order) && order != []
    ensures Positions(findings, order[1..]) && InOrder(findings, order[1..])
    ensures forall i :: i in order[1..] ==> i < |findings| && Leads(findings, order[0], i)
  {
    assert forall k :: 0 <= k < |order[1..]| ==> order[1..][k] == order[k + 1];
  }

  lemma ConsInOrder(findings: seq<Finding>, x: nat, rest: seq<nat>)
    requires x < |findings| && Positions(findings, rest) && InOrder(findings, rest)
    requires forall i :: i in rest ==> i < |findings| && Leads(findings, x, i)
    ensures Positions(findings, [x] + rest) && InOrder(findings, [x] + rest)
  {
  }

  lemma {:induction false} PlacedAdds(findings: seq<Finding>, order: seq<nat>, i: nat)
    requires i < |findings| && Positions(findings, order)
    ensures multiset(Placed(findings, order, i)) == multiset(order) + multiset{i}
    ensures forall k :: k in Placed(findings, order, i) ==> k == i || k in order
    decreases |order|
  {
    if order != [] {
      assert order == [order[0]] + order[1..];
      if Rank(findings[i].verdict) > Rank(findings[order[0]].verdict) {
        PlacedAdds(findings, order[1..], i);
      }
    }
  }

  lemma {:induction false} PlacedInOrder(findings: seq<Finding>, order: seq<nat>, i: nat)
    requires i < |findings| && Positions(findings, order) && InOrder(findings, order)
    requires forall k :: k in order ==> k < i
    ensures InOrder(findings, Placed(findings, order, i))
    decreases |order|
  {
    if order != [] {
      HeadLeads(findings, order);
      if Rank(findings[i].verdict) <= Rank(findings[order[0]].verdict) {
        assert order == [order[0]] + order[1..];
        ConsInOrder(findings, i, order);
      } else {
        assert forall k :: k in order[1..] ==> k in order;
        PlacedInOrder(findings, order[1..], i);
        PlacedAdds(findings, order[1..], i);
        ConsInOrder(findings, order[0], Placed(findings, order[1..], i));
      }
    }
  }

  function Upto(n: nat): seq<nat> {
    seq(n, i requires 0 <= i < n => i)
  }

  // What a sort by that comparator owes: every position once, each before those it leads.
  ghost predicate Sorts(findings: seq<Finding>, order: seq<nat>) {
    Positions(findings, order) && InOrder(findings, order) && multiset(order) == multiset(Upto(|findings|))
  }

  lemma {:induction false} RankedSorts(findings: seq<Finding>)
    ensures Sorts(findings, Ranked(findings))
    decreases |findings|
  {
    if findings != [] {
      var n := |findings| - 1;
      RankedSorts(findings[..n]);
      var before := Ranked(findings[..n]);
      forall a, b | 0 <= a < b < n
        ensures Leads(findings, before[a], before[b])
      {
        assert Leads(findings[..n], before[a], before[b]);
      }
      PlacedInOrder(findings, before, n);
      PlacedAdds(findings, before, n);
      assert Upto(n + 1) == Upto(n) + [n];
    }
  }

  lemma SameHead(findings: seq<Finding>, p: seq<nat>, q: seq<nat>)
    requires Positions(findings, p) && InOrder(findings, p) && Positions(findings, q) && InOrder(findings, q)
    requires p != [] && q != [] && q[0] in p && p[0] in q
    ensures p[0] == q[0]
  {
    var i, j :| 0 <= i < |p| && p[i] == q[0] && 0 <= j < |q| && q[j] == p[0];
    if i > 0 && j > 0 {
      assert Leads(findings, p[0], p[i]) && Leads(findings, q[0], q[j]);
    }
  }

  lemma SameTails(p: seq<nat>, q: seq<nat>)
    requires p != [] && q != [] && p[0] == q[0] && multiset(p) == multiset(q)
    ensures multiset(p[1..]) == multiset(q[1..])
  {
    assert p == [p[0]] + p[1..] && q == [q[0]] + q[1..];
    assert multiset(p[1..]) == multiset(p) - multiset{p[0]};
  }

  lemma {:induction false} OneOrder(findings: seq<Finding>, p: seq<nat>, q: seq<nat>)
    requires Positions(findings, p) && InOrder(findings, p) && Positions(findings, q) && InOrder(findings, q)
    requires multiset(p) == multiset(q)
    ensures p == q
    decreases |p|
  {
    assert |multiset(p)| == |p| && |multiset(q)| == |q|;
    if p != [] {
      assert p[0] in multiset(q) && q[0] in multiset(p);
      SameHead(findings, p, q);
      SameTails(p, q);
      HeadLeads(findings, p);
      HeadLeads(findings, q);
      OneOrder(findings, p[1..], q[1..]);
    }
  }

  /** rankFindings' comparator leaves a sort no choice: one order of the findings has every one of them once, the better
      verdict first and the newer of equals. */
  lemma RankingSorts(findings: seq<Finding>, order: seq<nat>)
    ensures Sorts(findings, order) <==> order == Ranked(findings)
  {
    RankedSorts(findings);
    if Sorts(findings, order) {
      OneOrder(findings, order, Ranked(findings));
    }
  }

  predicate Affirms(v: Verdict) {
    v != Disproven && v != Untestable
  }

  function Standing(findings: seq<Finding>, order: seq<nat>): (kept: seq<nat>)
    requires Positions(findings, order)
    ensures Positions(findings, kept)
  {
    if order == [] then []
    else
      var f := findings[order[0]];
      (if Affirms(f.verdict) && Stands(findings, f) then [order[0]] else []) + Standing(findings, order[1..])
  }

  function OfRank(findings: seq<Finding>, order: seq<nat>, rank: nat): (kept: seq<nat>)
    requires Positions(findings, order)
    ensures Positions(findings, kept)
  {
    if order == [] then []
    else (if Rank(findings[order[0]].verdict) == rank then [order[0]] else []) + OfRank(findings, order[1..], rank)
  }

  // principalFindings, as positions, out of the order the sort brought.
  function Principal(findings: seq<Finding>, order: seq<nat>): seq<nat>
    requires Positions(findings, order)
  {
    var standing := Standing(findings, order);
    if standing == [] then [] else OfRank(findings, standing, Rank(findings[standing[0]].verdict))
  }

  predicate Candidacy(findings: seq<Finding>, i: nat)
    requires i < |findings|
  {
    Affirms(findings[i].verdict) && Stands(findings, findings[i])
  }

  lemma {:induction false} StandingKeeps(findings: seq<Finding>, order: seq<nat>)
    requires Positions(findings, order) && InOrder(findings, order)
    ensures InOrder(findings, Standing(findings, order))
    ensures forall i :: i in Standing(findings, order) <==> i in order && Candidacy(findings, i)
    decreases |order|
  {
    if order != [] {
      HeadLeads(findings, order);
      assert order == [order[0]] + order[1..];
      StandingKeeps(findings, order[1..]);
      if Candidacy(findings, order[0]) {
        ConsInOrder(findings, order[0], Standing(findings, order[1..]));
      }
    }
  }

  lemma {:induction false} OfRankKeeps(findings: seq<Finding>, order: seq<nat>, rank: nat)
    requires Positions(findings, order) && InOrder(findings, order)
    ensures InOrder(findings, OfRank(findings, order, rank))
    ensures forall i :: i in OfRank(findings, order, rank) <==> i in order && Rank(findings[i].verdict) == rank
    decreases |order|
  {
    if order != [] {
      HeadLeads(findings, order);
      assert order == [order[0]] + order[1..];
      OfRankKeeps(findings, order[1..], rank);
      if Rank(findings[order[0]].verdict) == rank {
        ConsInOrder(findings, order[0], OfRank(findings, order[1..], rank));
      }
    }
  }

  // Neither ruled out nor out of reach, and replaced by no finding.
  ghost predicate MayLead(findings: seq<Finding>, i: nat)
    requires i < |findings|
  {
    && findings[i].verdict in {RootCause, Trigger, ContributingFactor, Symptom}
    && forall g :: g in findings ==> g.supersedes != Some(findings[i].id)
  }

  // No finding that may lead has a better verdict.
  ghost predicate Principals(findings: seq<Finding>, i: nat) {
    && i < |findings| && MayLead(findings, i)
    && forall j, a, b :: (0 <= j < |findings| && MayLead(findings, j) && 0 <= a < |VERDICT_ORDER| && 0 <= b < |VERDICT_ORDER|
                          && VERDICT_ORDER[a] == findings[i].verdict && VERDICT_ORDER[b] == findings[j].verdict) ==> a <= b
  }

  lemma PrincipalsByRank(findings: seq<Finding>, i: nat)
    requires i < |findings|
    ensures forall j :: 0 <= j < |findings| ==> (MayLead(findings, j) <==> Candidacy(findings, j))
    ensures Principals(findings, i) <==>
      && Candidacy(findings, i)
      && forall j :: 0 <= j < |findings| && Candidacy(findings, j) ==> Rank(findings[i].verdict) <= Rank(findings[j].verdict)
  {
    forall j | 0 <= j < |findings|
      ensures MayLead(findings, j) <==> Candidacy(findings, j)
    {
      RankIsIndex(findings[j].verdict);
    }
    forall j, a, b | (0 <= j < |findings| && 0 <= a < |VERDICT_ORDER| && 0 <= b < |VERDICT_ORDER|
                      && VERDICT_ORDER[a] == findings[i].verdict && VERDICT_ORDER[b] == findings[j].verdict)
      ensures a == Rank(findings[i].verdict) && b == Rank(findings[j].verdict)
    {
      RankIsIndex(findings[i].verdict);
      RankIsIndex(findings[j].verdict);
    }
    forall j | 0 <= j < |findings|
      ensures VERDICT_ORDER[Rank(findings[j].verdict)] == findings[j].verdict
    {
      RankIsIndex(findings[j].verdict);
    }
  }

  lemma SortedIsEveryone(findings: seq<Finding>, order: seq<nat>, i: nat)
    requires Sorts(findings, order)
    ensures i in order <==> i < |findings|
  {
    assert i in multiset(order) <==> i in multiset(Upto(|findings|));
    assert i < |findings| ==> Upto(|findings|)[i] == i;
  }

  lemma FirstIsBest(findings: seq<Finding>, order: seq<nat>, i: nat)
    requires Positions(findings, order) && InOrder(findings, order) && i in order
    ensures Rank(findings[order[0]].verdict) <= Rank(findings[i].verdict)
  {
    var k :| 0 <= k < |order| && order[k] == i;
    assert k > 0 ==> Leads(findings, order[0], order[k]);
  }

  lemma PrincipalAre(findings: seq<Finding>, standing: seq<nat>, best: nat)
    requires Positions(findings, standing) && standing != [] && best == Rank(findings[standing[0]].verdict)
    requires forall i :: 0 <= i < |findings| ==> (i in standing <==> Candidacy(findings, i))
    requires forall i :: i in standing ==> i < |findings| && best <= Rank(findings[i].verdict)
    ensures forall i :: 0 <= i < |findings| ==>
              (Principals(findings, i) <==> i in standing && Rank(findings[i].verdict) == best)
  {
    var first := standing[0];
    assert first in standing && Candidacy(findings, first);
    forall i | 0 <= i < |findings|
      ensures Principals(findings, i) <==> i in standing && Rank(findings[i].verdict) == best
    {
      PrincipalsByRank(findings, i);
    }
  }

  /** Whatever sorts by the comparator, the principal findings are exactly the standing ones of the best affirmative
      verdict, newest first, and none only when nothing affirmative stands. */
  lemma PrincipalMeans(findings: seq<Finding>, order: seq<nat>)
    requires Sorts(findings, order)
    ensures var p := Principal(findings, order);
      && Positions(findings, p) && InOrder(findings, p)
      && (forall a, b :: 0 <= a < b < |p| ==> p[a] >= p[b])
      && (forall i :: i in p <==> Principals(findings, i))
  {
    StandingKeeps(findings, order);
    var standing := Standing(findings, order);
    forall i | 0 <= i < |findings|
      ensures i in standing <==> Candidacy(findings, i)
    {
      SortedIsEveryone(findings, order, i);
    }
    if standing == [] {
      forall i | 0 <= i < |findings|
        ensures !Principals(findings, i)
      {
        PrincipalsByRank(findings, i);
      }
    } else {
      var best := Rank(findings[standing[0]].verdict);
      OfRankKeeps(findings, standing, best);
      forall i | i in standing
        ensures best <= Rank(findings[i].verdict)
      {
        FirstIsBest(findings, standing, i);
      }
      assert standing[0] in standing;
      PrincipalAre(findings, standing, best);
      SameRankNewestFirst(findings, OfRank(findings, standing, best), best);
    }
  }

  lemma SameRankNewestFirst(findings: seq<Finding>, p: seq<nat>, rank: nat)
    requires Positions(findings, p) && InOrder(findings, p)
    requires forall i :: i in p ==> i < |findings| && Rank(findings[i].verdict) == rank
    ensures forall a, b :: 0 <= a < b < |p| ==> p[a] >= p[b]
  {
    forall a, b | 0 <= a < b < |p|
      ensures p[a] >= p[b]
    {
      assert Leads(findings, p[a], p[b]) && p[a] in p && p[b] in p;
    }
  }
}
