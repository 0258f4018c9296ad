/**
 When the order a read batch is scheduled in shows (apps/api/src/agent/loop/turn.ts,
 apps/api/src/agent/report.ts).

 RecordFinding and OpenCandidates are declared reads. Each writes to the record once, in a
 transaction, and its reply says what that came to: the ids it was given, and whether the
 candidate and the finding it names were there. A batch of quiet calls and of these comes
 out the same under every schedule exactly when at most one records a finding, at most one
 opens candidates, and the finding does not settle one that is opened beside it.
 */
module ReadBatches {
  import opened Wrappers
  import opened Transcript
  import opened SessionTables
  import opened TurnPipeline
  import opened Record

  // ---------- Schedules ----------

  function Locals<W(!new), L(!new)>(m: Machine<W, L>, batch: seq<Call>): seq<L> {
    seq(|batch|, k requires 0 <= k < |batch| => m.start(batch[k].tool, batch[k].use))
  }

  // The scheduler's picks, in order; picking a call that ended, or none, does nothing.
  ghost function Scheduled<W(!new), L(!new)>(m: Machine<W, L>, w: W, batch: seq<Call>, locals: seq<L>, schedule: seq<nat>)
    : (r: (W, seq<L>))
    requires |locals| == |batch|
    ensures |r.1| == |batch|
    decreases |schedule|
  {
    if schedule == [] then (w, locals)
    else
      var k := schedule[0];
      if k >= |batch| || m.left(locals[k]) == 0 then Scheduled(m, w, batch, locals, schedule[1..])
      else
        var next := m.step(w, batch[k].tool, locals[k]);
        Scheduled(m, next.0, batch, locals[k := next.1], schedule[1..])
  }

  // The schedule runs every call of the batch to its end.
  ghost predicate Completes<W(!new), L(!new)>(m: Machine<W, L>, w: W, batch: seq<Call>, schedule: seq<nat>) {
    StepsLeft(m, Scheduled(m, w, batch, Locals(m, batch), schedule).1) == 0
  }

  ghost function Answers<W(!new), L(!new)>(m: Machine<W, L>, w: W, batch: seq<Call>, schedule: seq<nat>): (r: seq<ToolResult>)
    ensures |r| == |batch|
  {
    var locals := Scheduled(m, w, batch, Locals(m, batch), schedule).1;
    seq(|batch|, k requires 0 <= k < |batch| => Said(m, batch[k].use, locals[k]))
  }

  ghost function WorldAfter<W(!new), L(!new)>(m: Machine<W, L>, w: W, batch: seq<Call>, schedule: seq<nat>): W {
    Scheduled(m, w, batch, Locals(m, batch), schedule).0
  }

  // Every schedule that runs the batch to its end brings the same answers and leaves the same world.
  ghost predicate OrderIsUnseen<W(!new), L(!new)>(m: Machine<W, L>, w: W, batch: seq<Call>) {
    forall s, t :: Completes(m, w, batch, s) && Completes(m, w, batch, t) ==>
      Answers(m, w, batch, s) == Answers(m, w, batch, t) && WorldAfter(m, w, batch, s) == WorldAfter(m, w, batch, t)
  }

  lemma {:induction false} ScheduledThen<W(!new), L(!new)>(m: Machine<W, L>, w: W, batch: seq<Call>, locals: seq<L>,
                                                          s: seq<nat>, t: seq<nat>)
    requires |locals| == |batch|
    ensures var r := Scheduled(m, w, batch, locals, s);
      Scheduled(m, w, batch, locals, s + t) == Scheduled(m, r.0, batch, r.1, t)
    decreases |s|
  {
    if s == [] {
      assert [] + t == t;
    } else {
      var all, k := s + t, s[0];
      assert all[0] == k && all[1..] == s[1..] + t;
      if k >= |batch| || m.left(locals[k]) == 0 {
        ScheduledThen(m, w, batch, locals, s[1..], t);
      } else {
        var next := m.step(w, batch[k].tool, locals[k]);
        ScheduledThen(m, next.0, batch, locals[k := next.1], s[1..], t);
      }
    }
  }

  // A call that ended stays as it ended.
  lemma {:induction false} EndedStays<W(!new), L(!new)>(m: Machine<W, L>, w: W, batch: seq<Call>, locals: seq<L>,
                                                       schedule: seq<nat>, k: nat)
    requires |locals| == |batch| && k < |batch| && m.left(locals[k]) == 0
    ensures Scheduled(m, w, batch, locals, schedule).1[k] == locals[k]
    decreases |schedule|
  {
    if schedule != [] {
      var i := schedule[0];
      if i >= |batch| || m.left(locals[i]) == 0 {
        EndedStays(m, w, batch, locals, schedule[1..], k);
      } else {
        var next := m.step(w, batch[i].tool, locals[i]);
        EndedStays(m, next.0, batch, locals[i := next.1], schedule[1..], k);
      }
    }
  }

  // One call picked until it ends.
  lemma {:induction false} RunAlone<W(!new), L(!new)>(m: Machine<W, L>, w: W, batch: seq<Call>, locals: seq<L>, k: nat)
    returns (schedule: seq<nat>)
    requires CallsEnd(m) && |locals| == |batch| && k < |batch|
    ensures var done := Complete(m, w, batch[k].tool, locals[k]);
      && Scheduled(m, w, batch, locals, schedule) == (done.0, locals[k := done.1])
      && m.left(done.1) == 0
    decreases m.left(locals[k])
  {
    if m.left(locals[k]) == 0 {
      schedule := [];
      assert locals[k := locals[k]] == locals;
    } else {
      var next := m.step(w, batch[k].tool, locals[k]);
      var rest := RunAlone(m, next.0, batch, locals[k := next.1], k);
      schedule := [k] + rest;
      assert schedule[0] == k && schedule[1..] == rest;
      var done := Complete(m, w, batch[k].tool, locals[k]);
      assert locals[k := next.1][k := done.1] == locals[k := done.1];
    }
  }

  // Whatever has run, the rest can be run to its end.
  lemma {:induction false} RunTheRest<W(!new), L(!new)>(m: Machine<W, L>, w: W, batch: seq<Call>, locals: seq<L>)
    returns (schedule: seq<nat>)
    requires CallsEnd(m) && |locals| == |batch|
    ensures StepsLeft(m, Scheduled(m, w, batch, locals, schedule).1) == 0
    decreases StepsLeft(m, locals)
  {
    NoStepsLeft(m, locals);
    if StepsLeft(m, locals) == 0 {
      schedule := [];
    } else {
      var k :| 0 <= k < |locals| && m.left(locals[k]) > 0;
      var next := m.step(w, batch[k].tool, locals[k]);
      StepsLeftUpdate(m, locals, k, next.1);
      var rest := RunTheRest(m, next.0, batch, locals[k := next.1]);
      schedule := [k] + rest;
      assert schedule[0] == k && schedule[1..] == rest;
    }
  }

  // ---------- Quiet calls, and calls that write to the record ----------

  // What the calls of a batch share: the systems they read, and the record.
  datatype World<E> = World(env: E, record: Record)

  // What one act on the record comes to, as its reply tells it.
  datatype Outcome =
    | Found(id: nat, settled: bool, replaced: bool)
    | OpenedFrom(first: nat)
    | OpenedNone
    | NoReply

  function OutcomeOf(act: Act, r: Record): Outcome {
    match act
    case RecordThis(input) =>
      Found(|r.findings| + 1, Existing(CandidateIds(r.candidates), input.settles).Some?,
            Existing(FindingIds(r.findings), input.supersedes).Some?)
    case OpenThese(inputs) => if inputs == [] then OpenedNone else OpenedFrom(|r.candidates| + 1)
    case _ => NoReply
  }

  // A step that changes nothing and does not look at the record.
  ghost predicate QuietStep<E(!new), L(!new)>(m: Machine<World<E>, L>, e: E, tool: Tool, l: L) {
    forall r :: m.step(World(e, r), tool, l) == (World(e, r), m.step(World(e, EMPTY), tool, l).1)
  }

  // The step that does this act, in one transaction, and learns what it came to.
  ghost predicate ActStep<E(!new), L(!new)>(m: Machine<World<E>, L>, e: E, tool: Tool, l: L, act: Act) {
    && (forall r :: m.step(World(e, r), tool, l).0 == World(e, Did(r, act)))
    && (forall r, q :: OutcomeOf(act, r) == OutcomeOf(act, q) ==>
          m.step(World(e, r), tool, l).1 == m.step(World(e, q), tool, l).1)
  }

  // From here on the call does the act that is pending once, and is quiet otherwise.
  ghost predicate Plays<E(!new), L(!new)>(m: Machine<World<E>, L>, e: E, tool: Tool, l: L, pending: Option<Act>)
    requires CallsEnd(m)
    decreases m.left(l)
  {
    if m.left(l) == 0 then pending.None?
    else
      || (QuietStep(m, e, tool, l) && Plays(m, e, tool, m.step(World(e, EMPTY), tool, l).1, pending))
      || (pending.Some? && ActStep(m, e, tool, l, pending.value)
          && forall r :: Plays(m, e, tool, m.step(World(e, r), tool, l).1, None))
  }

  // The call's reply tells what its act came to.
  ghost predicate Tells<E(!new), L(!new)>(m: Machine<World<E>, L>, e: E, call: Call, act: Act)
    requires CallsEnd(m)
  {
    forall r, q :: OutcomeOf(act, r) != OutcomeOf(act, q) ==> Ran(m, World(e, r), call).1 != Ran(m, World(e, q), call).1
  }

  // What each call of the batch does to the record: nothing, or one finding or one list of candidates.
  ghost predicate PlayedBy<E(!new), L(!new)>(m: Machine<World<E>, L>, e: E, batch: seq<Call>, acts: seq<Option<Act>>)
    requires CallsEnd(m)
  {
    && |acts| == |batch|
    && forall k :: 0 <= k < |batch| ==>
         && Plays(m, e, batch[k].tool, m.start(batch[k].tool, batch[k].use), acts[k])
         && (acts[k].Some? ==> (acts[k].value.RecordThis? || acts[k].value.OpenThese?) && Tells(m, e, batch[k], acts[k].value))
  }

  lemma {:induction false} PlayedOut<E(!new), L(!new)>(m: Machine<World<E>, L>, e: E, tool: Tool, l: L, pending: Option<Act>,
                                                      r: Record, q: Record)
    requires CallsEnd(m) && Plays(m, e, tool, l, pending)
    requires pending.Some? ==> OutcomeOf(pending.value, r) == OutcomeOf(pending.value, q)
    ensures Complete(m, World(e, r), tool, l).1 == Complete(m, World(e, q), tool, l).1
    ensures Complete(m, World(e, r), tool, l).0 == World(e, if pending.Some? then Did(r, pending.value) else r)
    decreases m.left(l)
  {
    if m.left(l) > 0 {
      var next, other := m.step(World(e, r), tool, l), m.step(World(e, q), tool, l);
      if QuietStep(m, e, tool, l) && Plays(m, e, tool, m.step(World(e, EMPTY), tool, l).1, pending) {
        PlayedOut(m, e, tool, next.1, pending, r, q);
      } else {
        PlayedOut(m, e, tool, next.1, None, Did(r, pending.value), Did(q, pending.value));
      }
    }
  }

  // ---------- Acts that do not meet ----------

  predicate Records(act: Option<Act>) {
    act.Some? && act.value.RecordThis?
  }

  predicate Opens(act: Option<Act>) {
    act.Some? && act.value.OpenThese? && act.value.inputs != []
  }

  // The finding settles a candidate that the other call opens.
  predicate SettlesOpened(r: Record, finding: Act, opening: Act)
    requires finding.RecordThis? && opening.OpenThese?
  {
    finding.input.settles.Some?
    && |r.candidates| < finding.input.settles.value <= |r.candidates| + |opening.inputs|
  }

  // What a caller can tell from the record's length and the inputs.
  ghost predicate Untangled(r: Record, acts: seq<Option<Act>>) {
    && (forall i, j :: 0 <= i < j < |acts| ==> !(Records(acts[i]) && Records(acts[j])) && !(Opens(acts[i]) && Opens(acts[j])))
    && (forall i, j :: 0 <= i < |acts| && 0 <= j < |acts| && Records(acts[i]) && Opens(acts[j]) ==>
          !SettlesOpened(r, acts[i].value, acts[j].value))
  }

  lemma CandidatesAre(r: Record, id: nat)
    requires WellLinked(r)
    ensures id in CandidateIds(r.candidates) <==> 1 <= id <= |r.candidates|
  {
    if 1 <= id <= |r.candidates| {
      assert r.candidates[id - 1] in r.candidates;
    }
  }

  lemma {:induction false} OpenedCount(candidates: seq<Candidate>, inputs: seq<CandidateInput>)
    ensures |Opened(candidates, inputs)| == |candidates| + |inputs|
    decreases |inputs|
  {
    if inputs != [] {
      OpenedCount(candidates, inputs[..|inputs| - 1]);
    }
  }

  // Opening candidates shows in a finding exactly when it settles one of them.
  lemma OpeningShows(r: Record, finding: Act, opening: Act)
    requires WellLinked(r) && finding.RecordThis? && opening.OpenThese?
    ensures OutcomeOf(finding, Did(r, opening)) != OutcomeOf(finding, r) <==> SettlesOpened(r, finding, opening)
    ensures !SettlesOpened(r, finding, opening) ==> Did(Did(r, opening), finding) == Did(Did(r, finding), opening)
  {
    ActLinks(r, opening);
    OpenedCount(r.candidates, opening.inputs);
    if finding.input.settles.Some? {
      CandidatesAre(r, finding.input.settles.value);
      CandidatesAre(Did(r, opening), finding.input.settles.value);
    }
  }

  // ---------- Untangled: no schedule shows ----------

  // How the call comes out from here, given the world as it stands.
  ghost predicate OnTrack<E(!new), L(!new)>(m: Machine<World<E>, L>, w0: World<E>, w: World<E>, call: Call, l: L)
    requires CallsEnd(m)
  {
    Complete(m, w, call.tool, l).1 == Complete(m, w0, call.tool, m.start(call.tool, call.use)).1
  }

  // The one call that records, and the one that opens; |acts| for none.
  ghost predicate Sole(acts: seq<Option<Act>>, f: nat, c: nat) {
    forall k :: 0 <= k < |acts| ==> (Records(acts[k]) <==> k == f) && (Opens(acts[k]) <==> k == c)
  }

  // The act, once it is done.
  function Acted(acts: seq<Option<Act>>, pending: seq<Option<Act>>, i: nat): Option<Act>
    requires |pending| == |acts|
  {
    if i < |acts| && pending[i].None? then acts[i] else None
  }

  function DidSome(r: Record, act: Option<Act>): Record {
    if act.Some? then Did(r, act.value) else r
  }

  ghost predicate AllOnTrack<E(!new), L(!new)>(m: Machine<World<E>, L>, w0: World<E>, w: World<E>, batch: seq<Call>,
                                               locals: seq<L>, acts: seq<Option<Act>>, pending: seq<Option<Act>>, f: nat, c: nat)
    requires CallsEnd(m)
  {
    && |locals| == |batch| == |acts| == |pending| && w.env == w0.env
    && w.record == DidSome(DidSome(w0.record, Acted(acts, pending, f)), Acted(acts, pending, c))
    && forall k :: 0 <= k < |batch| ==>
         && (pending[k] == acts[k] || pending[k].None?)
         && Plays(m, w0.env, batch[k].tool, locals[k], pending[k])
         && OnTrack(m, w0, w, batch[k], locals[k])
  }

  // An act leaves what another pending one comes to as it was.
  ghost predicate Undisturbed(r: Record, act: Act, pending: Option<Act>) {
    pending.Some? ==> OutcomeOf(pending.value, Did(r, act)) == OutcomeOf(pending.value, r)
  }

  // Somebody else's act, done now.
  lemma OthersStayOnTrack<E(!new), L(!new)>(m: Machine<World<E>, L>, w0: World<E>, w: World<E>, call: Call, l: L,
                                            act: Act, pending: Option<Act>)
    requires CallsEnd(m) && w.env == w0.env && Plays(m, w0.env, call.tool, l, pending) && OnTrack(m, w0, w, call, l)
    requires Undisturbed(w.record, act, pending)
    ensures OnTrack(m, w0, World(w.env, Did(w.record, act)), call, l)
  {
    assert w == World(w0.env, w.record);
    PlayedOut(m, w0.env, call.tool, l, pending, w.record, Did(w.record, act));
  }

  // One step of a call: quiet, or its act.
  lemma OwnStep<E(!new), L(!new)>(m: Machine<World<E>, L>, w0: World<E>, w: World<E>, call: Call, l: L, pending: Option<Act>)
    requires CallsEnd(m) && w.env == w0.env && Plays(m, w0.env, call.tool, l, pending) && m.left(l) > 0 && OnTrack(m, w0, w, call, l)
    ensures var next := m.step(w, call.tool, l);
      && OnTrack(m, w0, next.0, call, next.1)
      && ((next.0 == w && Plays(m, w0.env, call.tool, next.1, pending))
          || (pending.Some? && next.0 == World(w.env, Did(w.record, pending.value)) && Plays(m, w0.env, call.tool, next.1, None)))
  {
    assert w == World(w0.env, w.record);
  }

  lemma ActsApart(r: Record, acts: seq<Option<Act>>, pending: seq<Option<Act>>, f: nat, c: nat, k: nat, w: Record)
    requires WellLinked(r) && Untangled(r, acts) && Sole(acts, f, c) && |pending| == |acts| && k < |acts|
    requires forall i :: 0 <= i < |acts| ==> pending[i] == acts[i] || pending[i].None?
    requires forall i :: 0 <= i < |acts| && acts[i].Some? ==> acts[i].value.RecordThis? || acts[i].value.OpenThese?
    requires w == DidSome(DidSome(r, Acted(acts, pending, f)), Acted(acts, pending, c)) && pending[k].Some?
    ensures forall i :: 0 <= i < |acts| && i != k ==> Undisturbed(w, pending[k].value, pending[i])
    ensures var after := pending[k := None];
      Did(w, pending[k].value) == DidSome(DidSome(r, Acted(acts, after, f)), Acted(acts, after, c))
  {
    var act := pending[k].value;
    if f < |acts| && c < |acts| {
      OpeningShows(r, acts[f].value, acts[c].value);
    }
    assert act.OpenThese? && act.inputs == [] ==> Did(w, act) == w;
  }

  // The calls beside the one that acts.
  lemma OthersAllStay<E(!new), L(!new)>(m: Machine<World<E>, L>, w0: World<E>, w: World<E>, batch: seq<Call>, locals: seq<L>,
                                        acts: seq<Option<Act>>, pending: seq<Option<Act>>, f: nat, c: nat, k: nat)
    requires CallsEnd(m) && AllOnTrack(m, w0, w, batch, locals, acts, pending, f, c) && k < |batch| && pending[k].Some?
    requires forall i :: 0 <= i < |acts| && i != k ==> Undisturbed(w.record, pending[k].value, pending[i])
    ensures forall i :: 0 <= i < |batch| && i != k ==>
              OnTrack(m, w0, World(w.env, Did(w.record, pending[k].value)), batch[i], locals[i])
  {
    forall i | 0 <= i < |batch| && i != k
      ensures OnTrack(m, w0, World(w.env, Did(w.record, pending[k].value)), batch[i], locals[i])
    {
      OthersStayOnTrack(m, w0, w, batch[i], locals[i], pending[k].value, pending[i]);
    }
  }

  lemma DoneStaysOnTrack<E(!new), L(!new)>(m: Machine<World<E>, L>, w0: World<E>, w: World<E>, batch: seq<Call>, locals: seq<L>,
                                           acts: seq<Option<Act>>, pending: seq<Option<Act>>, f: nat, c: nat, k: nat,
                                           next: Record, l: L)
    requires CallsEnd(m) && AllOnTrack(m, w0, w, batch, locals, acts, pending, f, c) && k < |batch|
    requires Plays(m, w0.env, batch[k].tool, l, None) && OnTrack(m, w0, World(w.env, next), batch[k], l)
    requires forall i :: 0 <= i < |batch| && i != k ==> OnTrack(m, w0, World(w.env, next), batch[i], locals[i])
    requires next == DidSome(DidSome(w0.record, Acted(acts, pending[k := None], f)), Acted(acts, pending[k := None], c))
    ensures AllOnTrack(m, w0, World(w.env, next), batch, locals[k := l], acts, pending[k := None], f, c)
  {
  }

  lemma ActStaysOnTrack<E(!new), L(!new)>(m: Machine<World<E>, L>, w0: World<E>, w: World<E>, batch: seq<Call>, locals: seq<L>,
                                          acts: seq<Option<Act>>, pending: seq<Option<Act>>, f: nat, c: nat, k: nat, l: L)
    requires CallsEnd(m) && PlayedBy(m, w0.env, batch, acts) && WellLinked(w0.record) && Untangled(w0.record, acts) && Sole(acts, f, c)
    requires AllOnTrack(m, w0, w, batch, locals, acts, pending, f, c) && k < |batch| && pending[k].Some?
    requires Plays(m, w0.env, batch[k].tool, l, None)
    requires OnTrack(m, w0, World(w.env, Did(w.record, pending[k].value)), batch[k], l)
    ensures AllOnTrack(m, w0, World(w.env, Did(w.record, pending[k].value)), batch, locals[k := l], acts, pending[k := None], f, c)
  {
    ActsApart(w0.record, acts, pending, f, c, k, w.record);
    OthersAllStay(m, w0, w, batch, locals, acts, pending, f, c, k);
    DoneStaysOnTrack(m, w0, w, batch, locals, acts, pending, f, c, k, Did(w.record, pending[k].value), l);
  }

  lemma QuietStaysOnTrack<E(!new), L(!new)>(m: Machine<World<E>, L>, w0: World<E>, w: World<E>, batch: seq<Call>, locals: seq<L>,
                                            acts: seq<Option<Act>>, pending: seq<Option<Act>>, f: nat, c: nat, k: nat, l: L)
    requires CallsEnd(m) && AllOnTrack(m, w0, w, batch, locals, acts, pending, f, c) && k < |batch|
    requires Plays(m, w0.env, batch[k].tool, l, pending[k]) && OnTrack(m, w0, w, batch[k], l)
    ensures AllOnTrack(m, w0, w, batch, locals[k := l], acts, pending, f, c)
  {
  }

  lemma StepStaysOnTrack<E(!new), L(!new)>(m: Machine<World<E>, L>, w0: World<E>, w: World<E>, batch: seq<Call>, locals: seq<L>,
                                           acts: seq<Option<Act>>, pending: seq<Option<Act>>, f: nat, c: nat, k: nat)
    returns (after: seq<Option<Act>>)
    requires CallsEnd(m) && PlayedBy(m, w0.env, batch, acts) && WellLinked(w0.record) && Untangled(w0.record, acts) && Sole(acts, f, c)
    requires AllOnTrack(m, w0, w, batch, locals, acts, pending, f, c) && k < |batch| && m.left(locals[k]) > 0
    ensures var next := m.step(w, batch[k].tool, locals[k]);
      AllOnTrack(m, w0, next.0, batch, locals[k := next.1], acts, after, f, c)
  {
    var next := m.step(w, batch[k].tool, locals[k]);
    OwnStep(m, w0, w, batch[k], locals[k], pending[k]);
    if next.0 == w && Plays(m, w0.env, batch[k].tool, next.1, pending[k]) {
      after := pending;
      QuietStaysOnTrack(m, w0, w, batch, locals, acts, pending, f, c, k, next.1);
    } else {
      after := pending[k := None];
      ActStaysOnTrack(m, w0, w, batch, locals, acts, pending, f, c, k, next.1);
    }
  }

  lemma {:induction false} ScheduleStaysOnTrack<E(!new), L(!new)>(
      m: Machine<World<E>, L>, w0: World<E>, w: World<E>, batch: seq<Call>, locals: seq<L>,
      acts: seq<Option<Act>>, pending: seq<Option<Act>>, f: nat, c: nat, schedule: seq<nat>) returns (after: seq<Option<Act>>)
    requires CallsEnd(m) && PlayedBy(m, w0.env, batch, acts) && WellLinked(w0.record) && Untangled(w0.record, acts) && Sole(acts, f, c)
    requires AllOnTrack(m, w0, w, batch, locals, acts, pending, f, c)
    ensures var r := Scheduled(m, w, batch, locals, schedule);
      AllOnTrack(m, w0, r.0, batch, r.1, acts, after, f, c)
    decreases |schedule|
  {
    if schedule == [] {
      after := pending;
    } else {
      var k := schedule[0];
      if k >= |batch| || m.left(locals[k]) == 0 {
        after := ScheduleStaysOnTrack(m, w0, w, batch, locals, acts, pending, f, c, schedule[1..]);
      } else {
        var next := m.step(w, batch[k].tool, locals[k]);
        var now := StepStaysOnTrack(m, w0, w, batch, locals, acts, pending, f, c, k);
        after := ScheduleStaysOnTrack(m, w0, next.0, batch, locals[k := next.1], acts, now, f, c, schedule[1..]);
      }
    }
  }

  lemma UntangledHasSole(r: Record, acts: seq<Option<Act>>) returns (f: nat, c: nat)
    requires Untangled(r, acts)
    ensures Sole(acts, f, c)
  {
    f := if i :| 0 <= i < |acts| && Records(acts[i]) then i else |acts|;
    c := if i :| 0 <= i < |acts| && Opens(acts[i]) then i else |acts|;
  }

  // The record with every act of the batch done.
  ghost function AllDone(r: Record, acts: seq<Option<Act>>, f: nat, c: nat): Record {
    DidSome(DidSome(r, if f < |acts| then acts[f] else None), if c < |acts| then acts[c] else None)
  }

  /** Where the acts of a batch are untangled, each call says what it would have said alone, under every schedule, and
      the record ends the same. */
  lemma EachSaysItsOwn<E(!new), L(!new)>(m: Machine<World<E>, L>, w: World<E>, batch: seq<Call>, acts: seq<Option<Act>>,
                                         f: nat, c: nat, schedule: seq<nat>)
    requires CallsEnd(m) && PlayedBy(m, w.env, batch, acts) && WellLinked(w.record) && Untangled(w.record, acts) && Sole(acts, f, c)
    requires Completes(m, w, batch, schedule)
    ensures forall k :: 0 <= k < |batch| ==> Answers(m, w, batch, schedule)[k] == Ran(m, w, batch[k]).1
    ensures WorldAfter(m, w, batch, schedule) == World(w.env, AllDone(w.record, acts, f, c))
  {
    var locals := Locals(m, batch);
    assert AllOnTrack(m, w, w, batch, locals, acts, acts, f, c);
    var after := ScheduleStaysOnTrack(m, w, w, batch, locals, acts, acts, f, c, schedule);
    var r := Scheduled(m, w, batch, locals, schedule);
    NoStepsLeft(m, r.1);
    forall k | 0 <= k < |batch|
      ensures Answers(m, w, batch, schedule)[k] == Ran(m, w, batch[k]).1 && after[k].None?
    {
      assert OnTrack(m, w, r.0, batch[k], r.1[k]) && Plays(m, w.env, batch[k].tool, r.1[k], after[k]);
    }
    assert r.0 == World(w.env, r.0.record);
  }

  // ---------- Two append: two schedules differ ----------

  // The schedule that runs call k first says what k says alone.
  lemma FirstSaysItsOwn<W(!new), L(!new)>(m: Machine<W, L>, w: W, batch: seq<Call>, k: nat) returns (schedule: seq<nat>)
    requires CallsEnd(m) && k < |batch|
    ensures Completes(m, w, batch, schedule) && Answers(m, w, batch, schedule)[k] == Ran(m, w, batch[k]).1
  {
    var locals := Locals(m, batch);
    var first := RunAlone(m, w, batch, locals, k);
    var r := Scheduled(m, w, batch, locals, first);
    var rest := RunTheRest(m, r.0, batch, r.1);
    schedule := first + rest;
    ScheduledThen(m, w, batch, locals, first, rest);
    EndedStays(m, r.0, batch, r.1, rest, k);
  }

  // The schedule that runs call j before it, what k says once j is done.
  lemma SecondSaysAfter<W(!new), L(!new)>(m: Machine<W, L>, w: W, batch: seq<Call>, j: nat, k: nat) returns (schedule: seq<nat>)
    requires CallsEnd(m) && j < |batch| && k < |batch| && j != k
    ensures Completes(m, w, batch, schedule)
    ensures Answers(m, w, batch, schedule)[k] == Ran(m, Ran(m, w, batch[j]).0, batch[k]).1
  {
    var locals := Locals(m, batch);
    var first := RunAlone(m, w, batch, locals, j);
    var r := Scheduled(m, w, batch, locals, first);
    var second := RunAlone(m, r.0, batch, r.1, k);
    var q := Scheduled(m, r.0, batch, r.1, second);
    var rest := RunTheRest(m, q.0, batch, q.1);
    schedule := first + (second + rest);
    ScheduledThen(m, w, batch, locals, first, second + rest);
    ScheduledThen(m, r.0, batch, r.1, second, rest);
    EndedStays(m, q.0, batch, q.1, rest, k);
  }

  lemma RanDid<E(!new), L(!new)>(m: Machine<World<E>, L>, w: World<E>, call: Call, act: Act)
    requires CallsEnd(m) && Plays(m, w.env, call.tool, m.start(call.tool, call.use), Some(act))
    ensures Ran(m, w, call).0 == World(w.env, Did(w.record, act))
  {
    assert w == World(w.env, w.record);
    PlayedOut(m, w.env, call.tool, m.start(call.tool, call.use), Some(act), w.record, w.record);
  }

  lemma AnswersDiffer<W(!new), L(!new)>(m: Machine<W, L>, w: W, batch: seq<Call>, s: seq<nat>, t: seq<nat>, k: nat)
    requires Completes(m, w, batch, s) && Completes(m, w, batch, t) && k < |batch|
    requires Answers(m, w, batch, s)[k] != Answers(m, w, batch, t)[k]
    ensures !OrderIsUnseen(m, w, batch)
  {
  }

  lemma PlayerTells<E(!new), L(!new)>(m: Machine<World<E>, L>, e: E, batch: seq<Call>, acts: seq<Option<Act>>, k: nat,
                                      r: Record, q: Record)
    requires CallsEnd(m) && PlayedBy(m, e, batch, acts) && k < |batch| && acts[k].Some?
    requires OutcomeOf(acts[k].value, r) != OutcomeOf(acts[k].value, q)
    ensures Ran(m, World(e, r), batch[k]).1 != Ran(m, World(e, q), batch[k]).1
  {
    assert Tells(m, e, batch[k], acts[k].value);
  }

  // A call whose act comes to something else once another call has done its own.
  lemma MeetingActsShow<E(!new), L(!new)>(m: Machine<World<E>, L>, w: World<E>, batch: seq<Call>, acts: seq<Option<Act>>,
                                          j: nat, k: nat)
    requires CallsEnd(m) && PlayedBy(m, w.env, batch, acts) && j < |batch| && k < |batch| && j != k
    requires acts[j].Some? && acts[k].Some?
    requires OutcomeOf(acts[k].value, Did(w.record, acts[j].value)) != OutcomeOf(acts[k].value, w.record)
    ensures !OrderIsUnseen(m, w, batch)
  {
    var s := FirstSaysItsOwn(m, w, batch, k);
    var t := SecondSaysAfter(m, w, batch, j, k);
    RanDid(m, w, batch[j], acts[j].value);
    assert w == World(w.env, w.record);
    PlayerTells(m, w.env, batch, acts, k, w.record, Did(w.record, acts[j].value));
    AnswersDiffer(m, w, batch, s, t, k);
  }

  lemma TangledActsMeet(r: Record, acts: seq<Option<Act>>) returns (j: nat, k: nat)
    requires WellLinked(r) && !Untangled(r, acts)
    ensures j < |acts| && k < |acts| && j != k && acts[j].Some? && acts[k].Some?
    ensures OutcomeOf(acts[k].value, Did(r, acts[j].value)) != OutcomeOf(acts[k].value, r)
  {
    if a, b :| 0 <= a < b < |acts| && Records(acts[a]) && Records(acts[b]) {
      j, k := a, b;
    } else if a, b :| 0 <= a < b < |acts| && Opens(acts[a]) && Opens(acts[b]) {
      j, k := a, b;
      OpenedCount(r.candidates, acts[a].value.inputs);
    } else {
      var a, b :| 0 <= a < |acts| && 0 <= b < |acts| && Records(acts[a]) && Opens(acts[b])
        && SettlesOpened(r, acts[a].value, acts[b].value);
      j, k := b, a;
      OpeningShows(r, acts[a].value, acts[b].value);
    }
  }

  /** A batch of quiet calls and of calls that record a finding or open candidates comes out the same under every
      schedule, replies and record, if and only if at most one call records, at most one opens any, and the finding
      does not settle a candidate opened in the batch. */
  lemma OrderIsUnseenIff<E(!new), L(!new)>(m: Machine<World<E>, L>, w: World<E>, batch: seq<Call>, acts: seq<Option<Act>>)
    requires CallsEnd(m) && PlayedBy(m, w.env, batch, acts) && WellLinked(w.record)
    ensures OrderIsUnseen(m, w, batch) <==> Untangled(w.record, acts)
  {
    if Untangled(w.record, acts) {
      var f, c := UntangledHasSole(w.record, acts);
      forall s, t | Completes(m, w, batch, s) && Completes(m, w, batch, t)
        ensures Answers(m, w, batch, s) == Answers(m, w, batch, t) && WorldAfter(m, w, batch, s) == WorldAfter(m, w, batch, t)
      {
        EachSaysItsOwn(m, w, batch, acts, f, c, s);
        EachSaysItsOwn(m, w, batch, acts, f, c, t);
      }
    } else {
      var j, k := TangledActsMeet(w.record, acts);
      MeetingActsShow(m, w, batch, acts, j, k);
    }
  }

  // ---------- RecordFinding and OpenCandidates themselves ----------

  // A recording call reads the transcript, then writes, and has its reply.
  datatype Recording = Idle | Reading(act: Act) | Writing(act: Act) | Replied(outcome: Outcome)

  // What tells the outcomes of one act apart, as that many strokes.
  function Strokes(outcome: Outcome): nat {
    match outcome
    case Found(id, settled, replaced) => 4 * id + (if settled then 2 else 0) + (if replaced then 1 else 0)
    case OpenedFrom(first) => first
    case _ => 0
  }

  function RecordingStep(w: World<()>, l: Recording): (World<()>, Recording) {
    match l
    case Reading(act) => (w, Writing(act))
    case Writing(act) => (World(w.env, Did(w.record, act)), Replied(OutcomeOf(act, w.record)))
    case _ => (w, l)
  }

  function StepsOf(l: Recording): nat {
    if l.Reading? then 2 else if l.Writing? then 1 else 0
  }

  // The recording tools, by what each call of the turn asks of them; any other call is answered at once.
  function RecordTools(acts: map<CallId, Act>): Machine<World<()>, Recording> {
    Machine((_, use: ToolUse) => if use.callId in acts then Reading(acts[use.callId]) else Idle,
            (w: World<()>, _, l: Recording) => RecordingStep(w, l),
            (l: Recording) => StepsOf(l),
            (l: Recording) => (if l.Replied? then seq(Strokes(l.outcome), _ => '|') else "", false))
  }

  lemma RecordToolsEnd(acts: map<CallId, Act>)
    ensures CallsEnd(RecordTools(acts))
  {
  }

  lemma RepliedPlays(acts: map<CallId, Act>, tool: Tool, l: Recording)
    requires StepsOf(l) == 0
    ensures CallsEnd(RecordTools(acts)) && Plays(RecordTools(acts), (), tool, l, None)
  {
    RecordToolsEnd(acts);
  }

  lemma WritingPlays(acts: map<CallId, Act>, tool: Tool, act: Act)
    ensures CallsEnd(RecordTools(acts)) && Plays(RecordTools(acts), (), tool, Writing(act), Some(act))
  {
    RecordToolsEnd(acts);
    var m := RecordTools(acts);
    forall r
      ensures Plays(m, (), tool, m.step(World((), r), tool, Writing(act)).1, None)
    {
      RepliedPlays(acts, tool, Replied(OutcomeOf(act, r)));
    }
    assert ActStep(m, (), tool, Writing(act), act);
  }

  lemma RecordToolsPlay(acts: map<CallId, Act>, call: Call)
    ensures CallsEnd(RecordTools(acts))
    ensures var act := if call.use.callId in acts then Some(acts[call.use.callId]) else None;
      Plays(RecordTools(acts), (), call.tool, RecordTools(acts).start(call.tool, call.use), act)
  {
    RecordToolsEnd(acts);
    if call.use.callId in acts {
      var m, act := RecordTools(acts), acts[call.use.callId];
      WritingPlays(acts, call.tool, act);
      assert QuietStep(m, (), call.tool, Reading(act));
      assert m.step(World((), EMPTY), call.tool, Reading(act)).1 == Writing(act);
    }
  }

  lemma RecordToolsReply(acts: map<CallId, Act>, call: Call, r: Record)
    requires call.use.callId in acts
    ensures CallsEnd(RecordTools(acts))
    ensures |Ran(RecordTools(acts), World((), r), call).1.content| == Strokes(OutcomeOf(acts[call.use.callId], r))
  {
    var m, act, w := RecordTools(acts), acts[call.use.callId], World((), r);
    var done := (World((), Did(r, act)), Replied(OutcomeOf(act, r)));
    assert Complete(m, done.0, call.tool, done.1) == done;
    assert Complete(m, w, call.tool, Writing(act)) == done;
    assert Complete(m, w, call.tool, Reading(act)) == done;
  }

  lemma StrokesTell(act: Act, r: Record, q: Record)
    requires OutcomeOf(act, r) != OutcomeOf(act, q)
    ensures Strokes(OutcomeOf(act, r)) != Strokes(OutcomeOf(act, q))
  {
  }

  lemma RecordToolsTell(acts: map<CallId, Act>, call: Call)
    requires call.use.callId in acts
    ensures CallsEnd(RecordTools(acts)) && Tells(RecordTools(acts), (), call, acts[call.use.callId])
  {
    RecordToolsEnd(acts);
    var m, act := RecordTools(acts), acts[call.use.callId];
    forall r, q | OutcomeOf(act, r) != OutcomeOf(act, q)
      ensures Ran(m, World((), r), call).1 != Ran(m, World((), q), call).1
    {
      RecordToolsReply(acts, call, r);
      RecordToolsReply(acts, call, q);
      StrokesTell(act, r, q);
    }
  }

  function ActsOf(acts: map<CallId, Act>, batch: seq<Call>): seq<Option<Act>> {
    seq(|batch|, k requires 0 <= k < |batch| => if batch[k].use.callId in acts then Some(acts[batch[k].use.callId]) else None)
  }

  /** The recording tools as they are: whatever findings and candidates the calls of a batch bring, and whatever they
      name, its schedule shows if and only if two record, two open, or one settles what another opens. */
  lemma RecordingBatchIff(acts: map<CallId, Act>, r: Record, batch: seq<Call>)
    requires WellLinked(r) && forall id :: id in acts ==> acts[id].RecordThis? || acts[id].OpenThese?
    ensures CallsEnd(RecordTools(acts))
    ensures OrderIsUnseen(RecordTools(acts), World((), r), batch) <==> Untangled(r, ActsOf(acts, batch))
  {
    var m := RecordTools(acts);
    assert CallsEnd(m);
    forall k | 0 <= k < |batch|
      ensures Plays(m, (), batch[k].tool, m.start(batch[k].tool, batch[k].use), ActsOf(acts, batch)[k])
      ensures ActsOf(acts, batch)[k].Some? ==> Tells(m, (), batch[k], ActsOf(acts, batch)[k].value)
    {
      RecordToolsPlay(acts, batch[k]);
      if batch[k].use.callId in acts {
        RecordToolsTell(acts, batch[k]);
      }
    }
    OrderIsUnseenIff(m, World((), r), batch, ActsOf(acts, batch));
  }

  /** A finding and the candidate it settles, in one batch: the schedule decides whether the finding is linked. */
  lemma SettlingBesideOpeningShows(r: Record, first: Call, second: Call, finding: FindingInput, added: CandidateInput)
    requires WellLinked(r) && first.use.callId != second.use.callId && finding.settles == Some(|r.candidates| + 1)
    ensures var acts := map[first.use.callId := RecordThis(finding), second.use.callId := OpenThese([added])];
      CallsEnd(RecordTools(acts)) && !OrderIsUnseen(RecordTools(acts), World((), r), [first, second])
  {
    var acts := map[first.use.callId := RecordThis(finding), second.use.callId := OpenThese([added])];
    var these := ActsOf(acts, [first, second]);
    RecordingBatchIff(acts, r, [first, second]);
    assert Records(these[0]) && Opens(these[1]) && SettlesOpened(r, these[0].value, these[1].value);
  }

  /** Two findings recorded in one batch: which id each call is told is the scheduler's choice. */
  lemma RecordingReadsCanCross(r: Record, first: Call, second: Call, finding: FindingInput, other: FindingInput)
    requires WellLinked(r) && first.use.callId != second.use.callId
    ensures var acts := map[first.use.callId := RecordThis(finding), second.use.callId := RecordThis(other)];
      CallsEnd(RecordTools(acts)) && !OrderIsUnseen(RecordTools(acts), World((), r), [first, second])
  {
    var acts := map[first.use.callId := RecordThis(finding), second.use.callId := RecordThis(other)];
    var these := ActsOf(acts, [first, second]);
    RecordingBatchIff(acts, r, [first, second]);
    assert Records(these[0]) && Records(these[1]);
  }
}
