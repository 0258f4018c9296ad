/**
 How often an investigation may be sent back to work, over one run and over every run of
 its session (apps/api/src/agent/loop/guardrails.ts, run-turn.ts, run-session.ts,
 report-turn.ts).

 A reminder is the set of openings its text contains. What a run was already sent is
 counted by reading those off the transcript.
 */
module Guardrails {
  import opened Wrappers

  const MAX_FINISH_PUSHBACKS := 3
  const MAX_BARREN_TURNS := 3
  const CALLS_BEFORE_RECORD_CHECK := 8
  const MAX_RECORD_CHECKS := 3
  const MAX_REPORT_ATTEMPTS := 5

  datatype Gap = EmptyRecord | UntestedCandidates

  // What a reminder may open with; its opening is what counts it later.
  datatype Opening = EmptyRecordOpening | UntestedOpening | FalsificationOpening | RecordCheckOpening

  // A count for each opening.
  datatype Tally = Tally(empty: nat, untested: nat, falsification: nat, checks: nat)
  {
    function Of(o: Opening): nat {
      match o
      case EmptyRecordOpening => empty
      case UntestedOpening => untested
      case FalsificationOpening => falsification
      case RecordCheckOpening => checks
    }

    function Plus(o: Opening): (t: Tally)
      ensures forall x :: t.Of(x) == Of(x) + (if x == o then 1 else 0)
    {
      match o
      case EmptyRecordOpening => this.(empty := empty + 1)
      case UntestedOpening => this.(untested := untested + 1)
      case FalsificationOpening => this.(falsification := falsification + 1)
      case RecordCheckOpening => this.(checks := checks + 1)
    }
  }

  function OpeningOf(gap: Gap): Opening {
    match gap
    case EmptyRecord => EmptyRecordOpening
    case UntestedCandidates => UntestedOpening
  }

  // ---------- The policies of one run ----------

  predicate Allowed(spent: Tally, gap: Gap) {
    spent.Of(OpeningOf(gap)) < MAX_FINISH_PUSHBACKS
  }

  // Fewer than three pushbacks went to this gap.
  ghost predicate HasRoom(spent: Tally, gap: Gap) {
    match gap
    case EmptyRecord => spent.empty < 3
    case UntestedCandidates => spent.untested < 3
  }

  ghost predicate IsFirstRoom(spent: Tally, gaps: seq<Gap>, i: int) {
    0 <= i < |gaps| && HasRoom(spent, gaps[i]) && forall j :: 0 <= j < i ==> !HasRoom(spent, gaps[j])
  }

  // One more pushback for this gap.
  ghost function Pushed(spent: Tally, gap: Gap): Tally {
    match gap
    case EmptyRecord => spent.(empty := spent.empty + 1)
    case UntestedCandidates => spent.(untested := spent.untested + 1)
  }

  // The first gap whose allowance is not spent.
  function FirstAllowed(spent: Tally, gaps: seq<Gap>): (g: Option<Gap>)
    ensures g.Some? ==> exists i :: IsFirstRoom(spent, gaps, i) && gaps[i] == g.value
    ensures g.None? <==> forall gap :: gap in gaps ==> !Allowed(spent, gap)
  {
    if gaps == [] then None
    else if Allowed(spent, gaps[0]) then
      assert IsFirstRoom(spent, gaps, 0);
      Some(gaps[0])
    else
      var later := FirstAllowed(spent, gaps[1..]);
      assert later.Some? ==> exists i :: IsFirstRoom(spent, gaps, i) && gaps[i] == later.value by {
        if later.Some? {
          var i :| IsFirstRoom(spent, gaps[1..], i) && gaps[1..][i] == later.value;
          assert IsFirstRoom(spent, gaps, i + 1);
        }
      }
      later
  }

  lemma OneFirstRoom(spent: Tally, gaps: seq<Gap>, i: int, k: int)
    requires IsFirstRoom(spent, gaps, i) && IsFirstRoom(spent, gaps, k)
    ensures i == k
  {
  }

  /** finishGatePolicy's closure. */
  class FinishGate {
    var counts: Tally

    constructor (spent: Tally)
      ensures counts == spent
    {
      counts := spent;
    }

    method Ask(gaps: seq<Gap>) returns (pushback: Option<Gap>)
      modifies this
      ensures pushback == FirstAllowed(old(counts), gaps)
      ensures pushback.Some? ==>
        && (exists i :: IsFirstRoom(old(counts), gaps, i) && pushback == Some(gaps[i]))
        && counts == Pushed(old(counts), pushback.value)
      ensures pushback.None? <==> forall gap :: gap in gaps ==> !HasRoom(old(counts), gap)
      ensures pushback.None? ==> counts == old(counts)
    {
      for i := 0 to |gaps|
        invariant counts == old(counts)
        invariant FirstAllowed(counts, gaps) == FirstAllowed(counts, gaps[i..])
      {
        assert gaps[i..][1..] == gaps[i + 1..];
        if counts.Of(OpeningOf(gaps[i])) >= MAX_FINISH_PUSHBACKS { continue; }
        counts := counts.Plus(OpeningOf(gaps[i]));
        return Some(gaps[i]);
      }
      return None;
    }
  }

  // How many of the latest turns asked only for refused tools.
  function BarrenTail(turns: seq<(nat, nat)>): nat {
    if turns == [] || turns[|turns| - 1].0 != turns[|turns| - 1].1 then 0
    else 1 + BarrenTail(turns[..|turns| - 1])
  }

  /** barrenTurnPolicy's closure; `turns` is the history of (asked, refused). */
  class BarrenTurns {
    var barren: nat
    ghost var turns: seq<(nat, nat)>

    ghost predicate Valid()
      reads this
    {
      barren == BarrenTail(turns)
    }

    constructor ()
      ensures Valid() && turns == []
    {
      barren, turns := 0, [];
    }

    method Turn(asked: nat, refused: nat) returns (ends: bool)
      requires Valid()
      modifies this
      ensures Valid() && turns == old(turns) + [(asked, refused)]
      ensures ends <==> BarrenTail(turns) >= MAX_BARREN_TURNS
    {
      barren := if refused == asked then barren + 1 else 0;
      turns := turns + [(asked, refused)];
      assert turns[..|turns| - 1] == old(turns);
      ends := barren >= MAX_BARREN_TURNS;
    }
  }

  /** The verdict falls exactly when the last three tool-calling turns were each refused whole. */
  lemma {:induction false} ThirdBarrenTurnEnds(turns: seq<(nat, nat)>)
    ensures BarrenTail(turns) >= MAX_BARREN_TURNS <==>
      |turns| >= 3 && turns[|turns| - 1].0 == turns[|turns| - 1].1
      && turns[|turns| - 2].0 == turns[|turns| - 2].1 && turns[|turns| - 3].0 == turns[|turns| - 3].1
  {
    BarrenStep(turns);
    if turns != [] {
      BarrenStep(turns[..|turns| - 1]);
      if |turns| >= 2 {
        assert turns[..|turns| - 1][..|turns| - 2] == turns[..|turns| - 2];
        BarrenStep(turns[..|turns| - 2]);
      }
    }
  }

  lemma BarrenStep(turns: seq<(nat, nat)>)
    ensures BarrenTail(turns) ==
      if turns != [] && turns[|turns| - 1].0 == turns[|turns| - 1].1 then 1 + BarrenTail(turns[..|turns| - 1]) else 0
  {
  }

  /** recordDebtPolicy's closure. */
  class RecordDebt {
    const investigation: bool
    var sinceClaim: nat
    var claimsSeen: nat
    var checkedAt: nat
    var checks: nat

    constructor (investigation: bool, spent: nat)
      ensures this.investigation == investigation && checks == spent && sinceClaim == claimsSeen == checkedAt == 0
    {
      this.investigation := investigation;
      sinceClaim, claimsSeen, checkedAt, checks := 0, 0, 0, spent;
    }

    ghost predicate Valid()
      reads this
    {
      checkedAt <= sinceClaim
    }

    method Check(claims: nat, answered: nat) returns (says: bool)
      requires Valid()
      modifies this
      ensures Valid()
      ensures says <==>
        var settled := claims > old(claimsSeen);
        investigation && old(checks) < 3
        && (if settled then answered else old(sinceClaim) + answered - old(checkedAt)) >= 8
      ensures checks == old(checks) + (if says then 1 else 0)
      ensures checkedAt == if says then sinceClaim else if claims > old(claimsSeen) then 0 else old(checkedAt)
      ensures claimsSeen == if claims > old(claimsSeen) then claims else old(claimsSeen)
      ensures sinceClaim == (if claims > old(claimsSeen) then 0 else old(sinceClaim)) + answered
    {
      if claims > claimsSeen {
        claimsSeen, sinceClaim, checkedAt := claims, 0, 0;
      }
      sinceClaim := sinceClaim + answered;
      if !investigation || checks >= MAX_RECORD_CHECKS {
        return false;
      }
      if sinceClaim - checkedAt < CALLS_BEFORE_RECORD_CHECK {
        return false;
      }
      checks := checks + 1;
      checkedAt := sinceClaim;
      return true;
    }
  }

  // ---------- Every run of one session ----------

  // The openings one reminder's text contains.
  type Reminder = set<Opening>

  // spentOn
  function SpentOn(rows: seq<Reminder>, opening: Opening): nat {
    if rows == [] then 0
    else SpentOn(rows[..|rows| - 1], opening) + (if opening in rows[|rows| - 1] then 1 else 0)
  }

  // A run's own counts are `run`. `sent` and `looped` are history: what each policy sent, and how many
  // tool-free turns looped again.
  datatype Session = Session(rows: seq<Reminder>, run: Option<Tally>, sent: Tally, looped: nat)

  datatype Event =
    | Begin
    | End
    | OtherReminder(text: Reminder)
    | ToolFreeTurn(gaps: seq<Gap>, anyCandidates: bool, text: Reminder)
    | RecordCheck(text: Reminder)

  const FRESH := Session([], None, Tally(0, 0, 0, 0), 0)

  // What a new run starts its counts from.
  function ReadBack(rows: seq<Reminder>): (t: Tally)
    ensures forall o :: t.Of(o) == SpentOn(rows, o)
  {
    Tally(SpentOn(rows, EmptyRecordOpening), SpentOn(rows, UntestedOpening),
          SpentOn(rows, FalsificationOpening), SpentOn(rows, RecordCheckOpening))
  }

  function Sent(s: Session, o: Opening, text: Reminder, loops: nat): Session
    requires s.run.Some?
  {
    Session(s.rows + [text + {o}], Some(s.run.value.Plus(o)), s.sent.Plus(o), s.looped + loops)
  }

  // What a tool-free turn is sent back with: a gap's pushback, the one falsification turn, or nothing.
  function SentBackWith(run: Tally, gaps: seq<Gap>, anyCandidates: bool): Option<Opening> {
    match FirstAllowed(run, gaps)
    case Some(gap) => Some(OpeningOf(gap))
    case None => if run.falsification == 0 && anyCandidates then Some(FalsificationOpening) else None
  }

  function AfterToolFree(s: Session, gaps: seq<Gap>, anyCandidates: bool, text: Reminder): Session
    requires s.run.Some?
  {
    match SentBackWith(s.run.value, gaps, anyCandidates)
    case Some(o) => Sent(s, o, text, 1)
    case None => s.(run := None)
  }

  function After(s: Session, e: Event): Session {
    match e
    case Begin => if s.run.None? then s.(run := Some(ReadBack(s.rows))) else s
    case End => s.(run := None)
    case OtherReminder(text) => s.(rows := s.rows + [text])
    case ToolFreeTurn(gaps, anyCandidates, text) =>
      if s.run.Some? then AfterToolFree(s, gaps, anyCandidates, text) else s
    case RecordCheck(text) =>
      if s.run.Some? && s.run.value.checks < MAX_RECORD_CHECKS then Sent(s, RecordCheckOpening, text, 0) else s
  }

  function AfterAll(s: Session, events: seq<Event>): Session
    decreases |events|
  {
    if events == [] then s else After(AfterAll(s, events[..|events| - 1]), events[|events| - 1])
  }

  // ---------- The allowances ----------

  function Limit(o: Opening): nat {
    match o
    case EmptyRecordOpening => MAX_FINISH_PUSHBACKS
    case UntestedOpening => MAX_FINISH_PUSHBACKS
    case FalsificationOpening => 1
    case RecordCheckOpening => MAX_RECORD_CHECKS
  }

  // Neither the transcript nor a run's own count ever falls below what was sent.
  ghost predicate HonestOf(s: Session, o: Opening) {
    && s.sent.Of(o) <= SpentOn(s.rows, o) && s.sent.Of(o) <= Limit(o)
    && (s.run.Some? ==> s.sent.Of(o) <= s.run.value.Of(o) <= SpentOn(s.rows, o))
  }

  ghost predicate Honest(s: Session) {
    && (forall o :: HonestOf(s, o))
    && s.looped == s.sent.empty + s.sent.untested + s.sent.falsification
  }

  lemma SpentSnoc(rows: seq<Reminder>, row: Reminder, o: Opening)
    ensures SpentOn(rows + [row], o) == SpentOn(rows, o) + (if o in row then 1 else 0)
  {
    assert (rows + [row])[..|rows|] == rows;
  }

  lemma SendingStaysHonest(s: Session, o: Opening, text: Reminder)
    requires Honest(s) && s.run.Some? && s.run.value.Of(o) < Limit(o)
    ensures Honest(Sent(s, o, text, if o == RecordCheckOpening then 0 else 1))
  {
    var later := Sent(s, o, text, if o == RecordCheckOpening then 0 else 1);
    forall x
      ensures HonestOf(later, x)
    {
      assert HonestOf(s, x) && HonestOf(s, o);
      SpentSnoc(s.rows, text + {o}, x);
    }
  }

  lemma StepStaysHonest(s: Session, e: Event)
    requires Honest(s)
    ensures Honest(After(s, e))
  {
    match e
    case OtherReminder(text) =>
      forall o
        ensures HonestOf(After(s, e), o)
      {
        assert HonestOf(s, o);
        SpentSnoc(s.rows, text, o);
      }
    case ToolFreeTurn(gaps, anyCandidates, text) =>
      if s.run.Some? && SentBackWith(s.run.value, gaps, anyCandidates).Some? {
        SendingStaysHonest(s, SentBackWith(s.run.value, gaps, anyCandidates).value, text);
      } else {
        assert forall o :: HonestOf(s, o) ==> HonestOf(After(s, e), o);
      }
    case RecordCheck(text) =>
      if s.run.Some? && s.run.value.checks < MAX_RECORD_CHECKS {
        SendingStaysHonest(s, RecordCheckOpening, text);
      }
    case _ =>
      assert forall o :: HonestOf(s, o) ==> HonestOf(After(s, e), o);
  }

  lemma {:induction false} HistoryStaysHonest(events: seq<Event>)
    ensures Honest(AfterAll(FRESH, events))
    decreases |events|
  {
    if events != [] {
      HistoryStaysHonest(events[..|events| - 1]);
      StepStaysHonest(AfterAll(FRESH, events[..|events| - 1]), events[|events| - 1]);
    }
  }

  /** Over every run of a session there are at most three pushbacks a gap, one falsification turn and three
      record checks, so at most seven tool-free turns ever loop again. */
  lemma PushbacksAreBounded(events: seq<Event>)
    ensures var s := AfterAll(FRESH, events);
      s.sent.empty <= 3 && s.sent.untested <= 3 && s.sent.falsification <= 1 && s.sent.checks <= 3 && s.looped <= 7
  {
    HistoryStaysHonest(events);
    var s := AfterAll(FRESH, events);
    assert HonestOf(s, EmptyRecordOpening) && HonestOf(s, UntestedOpening);
    assert HonestOf(s, FalsificationOpening) && HonestOf(s, RecordCheckOpening);
  }

  /** What a tool-free turn is sent back with: the first gap with room, counted as one more for it; with no room for any
      gap, the falsification turn, once and only when there are candidates; and otherwise the run ends. */
  lemma ToolFreeTurnSends(s: Session, gaps: seq<Gap>, anyCandidates: bool, text: Reminder)
    requires s.run.Some?
    ensures var (run, later) := (s.run.value, AfterToolFree(s, gaps, anyCandidates, text));
      && (forall i :: IsFirstRoom(run, gaps, i) ==>
            later.run == Some(Pushed(run, gaps[i])) && later.sent == Pushed(s.sent, gaps[i]))
      && ((forall gap :: gap in gaps ==> !HasRoom(run, gap)) ==>
            if run.falsification == 0 && anyCandidates then
              && later.run == Some(run.(falsification := 1))
              && later.sent == s.sent.(falsification := s.sent.falsification + 1)
            else later == s.(run := None))
      && (later.run.Some? ==>
            |later.rows| == |s.rows| + 1 && later.rows[..|s.rows|] == s.rows && text <= later.rows[|s.rows|]
            && later.looped == s.looped + 1)
  {
    forall i | IsFirstRoom(s.run.value, gaps, i)
      ensures FirstAllowed(s.run.value, gaps) == Some(gaps[i])
    {
      assert gaps[i] in gaps && Allowed(s.run.value, gaps[i]);
      var k :| IsFirstRoom(s.run.value, gaps, k) && gaps[k] == FirstAllowed(s.run.value, gaps).value;
      OneFirstRoom(s.run.value, gaps, i, k);
    }
  }

  // What a run may still be sent back for: the measure its tool-free turns spend.
  function Allowance(run: Tally): nat {
    Left(run.empty, MAX_FINISH_PUSHBACKS) + Left(run.untested, MAX_FINISH_PUSHBACKS) + Left(run.falsification, 1)
  }

  function Left(spent: nat, limit: nat): nat {
    if spent < limit then limit - spent else 0
  }

  /** The termination measure: a tool-free turn either ends the run or spends one of its allowance, reading the
      counts back never restores any, and only a run with nothing left to be asked may finish. */
  lemma ToolFreeTurnsRunOut(s: Session, gaps: seq<Gap>, anyCandidates: bool, text: Reminder)
    requires Honest(s) && s.run.Some?
    ensures var later := AfterToolFree(s, gaps, anyCandidates, text);
      && (later.run.Some? ==> Allowance(later.run.value) < Allowance(s.run.value))
      && Allowance(ReadBack(s.rows)) <= Allowance(s.run.value)
      && (later.run.None? <==>
            (forall g :: g in gaps ==> !Allowed(s.run.value, g)) && (s.run.value.falsification > 0 || !anyCandidates))
  {
    assert HonestOf(s, EmptyRecordOpening) && HonestOf(s, UntestedOpening) && HonestOf(s, FalsificationOpening);
  }

  // ---------- The report turn ----------

  datatype Attempt = Wrote | Refused | CutOff | Stopped | OutOfTime | Threw

  datatype Ending = ReportWritten | NotWritten | RunStopped | RunFailed

  function EndingOf(a: Attempt): Ending {
    match a
    case Wrote => ReportWritten
    case Stopped => RunStopped
    case Threw => RunFailed
    case _ => NotWritten
  }

  /** composeReportTurn: asked again only after a refusal, at most five times, and ending as its last attempt did. */
  method ComposeReportTurn(attempts: nat -> Attempt) returns (ending: Ending, asked: nat)
    ensures 1 <= asked <= 5
    ensures forall i :: 1 <= i < asked ==> attempts(i) == Refused
    ensures ending == EndingOf(attempts(asked))
    ensures ending == ReportWritten <==> attempts(asked) == Wrote
    ensures ending == RunStopped <==> attempts(asked) == Stopped
    ensures ending == RunFailed <==> attempts(asked) == Threw
    ensures attempts(asked) == Refused ==> asked == 5
    ensures ending == ReportWritten <==>
      exists k :: 1 <= k <= 5 && attempts(k) == Wrote && forall i :: 1 <= i < k ==> attempts(i) == Refused
  {
    asked, ending := 0, NotWritten;
    while asked < MAX_REPORT_ATTEMPTS
      invariant asked <= MAX_REPORT_ATTEMPTS
      invariant forall i :: 1 <= i <= asked ==> attempts(i) == Refused
      invariant asked == MAX_REPORT_ATTEMPTS ==> ending == NotWritten
    {
      asked := asked + 1;
      ending := EndingOf(attempts(asked));
      if attempts(asked) != Refused {
        return;
      }
    }
  }
}
