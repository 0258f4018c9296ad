/**
 The transcript a run is building: rows in memory, and the tail past `flushed`
 that has yet to reach the tables (apps/api/src/agent/loop/run-state.ts).
 */
module RunStates {
  import opened Wrappers
  import opened Transcript
  import opened Seed
  import opened SessionTables
  import opened TranscriptWrites
  import opened Promotion
  import opened Store

  lemma RangeTail(next: nat, a: seq<nat>, b: seq<nat>)
    requires a + b == Range(next, |a + b|)
    ensures b == Range(next + |a|, |b|)
  {
    assert forall i :: 0 <= i < |b| ==> b[i] == (a + b)[|a| + i];
  }

  // The tail of a well-numbered list, numbered from where the rest ends.
  lemma TailIsBuilt(rows: seq<Row>, k: nat, base: nat, next: nat)
    requires k <= |rows| && BuiltFrom(rows, base, next)
    ensures BuiltFrom(rows[k..], base + k, next + |Handles(rows[..k])|)
    ensures |Handles(rows)| == |Handles(rows[..k])| + |Handles(rows[k..])|
  {
    assert rows == rows[..k] + rows[k..];
    HandlesConcat(rows[..k], rows[k..]);
    RangeTail(next, Handles(rows[..k]), Handles(rows[k..]));
  }

  class RunState {
    const sessionId: nat
    const seeded: seq<ProviderMessage>
    ghost const firstSeq: nat
    ghost const firstEvidence: nat
    var rows: seq<Row>
    var flushed: nat
    var nextSeq: nat
    var nextEvidence: nat

    constructor (sessionId: nat, nextSeq: nat, nextEvidence: nat, seeded: seq<ProviderMessage>)
      ensures Valid() && rows == [] && flushed == 0
      ensures this.sessionId == sessionId && this.seeded == seeded
      ensures this.nextSeq == firstSeq == nextSeq && this.nextEvidence == firstEvidence == nextEvidence
    {
      this.sessionId, this.seeded := sessionId, seeded;
      firstSeq, firstEvidence := nextSeq, nextEvidence;
      rows, flushed := [], 0;
      this.nextSeq, this.nextEvidence := nextSeq, nextEvidence;
    }

    // The rows are numbered on from the run's first seq, and their handles on from its first handle.
    ghost predicate Valid()
      reads this
    {
      && flushed <= |rows|
      && nextSeq == firstSeq + |rows| && nextEvidence == firstEvidence + |Handles(rows)|
      && BuiltFrom(rows, firstSeq, firstEvidence)
    }

    // What the next flush writes, and the counters it was built from.
    function Unwritten(): seq<Row>
      reads this
      requires flushed <= |rows|
    {
      rows[flushed..]
    }

    ghost predicate InStep(stored: seq<Row>)
      reads this
      requires Valid()
    {
      Snapshot(stored, firstSeq + flushed, firstEvidence + |Handles(rows[..flushed])|)
    }

    function Conversation(): seq<ProviderMessage>
      reads this
    {
      seeded + ToMessages(rows)
    }

    method Push(kind: Kind, content: string, parts: seq<Part>, now: int)
      modifies this`rows, this`nextSeq
      ensures rows == old(rows) + [Row(old(nextSeq), kind, content, parts, now)]
      ensures nextSeq == old(nextSeq) + 1
    {
      rows := rows + [Row(nextSeq, kind, content, parts, now)];
      nextSeq := nextSeq + 1;
    }

    /** stage: a row that holds no evidence. */
    method Stage(kind: Kind, content: string, parts: seq<Part>, now: int)
      requires Valid() && PartHandles(parts) == []
      modifies this`rows, this`nextSeq
      ensures Valid() && rows == old(rows) + [Row(old(nextSeq), kind, content, parts, now)]
      ensures Conversation() == old(Conversation())
                                + [ToProviderMessage(Row(old(nextSeq), kind, content, parts, now))]
    {
      HandlesSnoc(rows, Row(nextSeq, kind, content, parts, now));
      Push(kind, content, parts, now);
    }

    /** stageResults: the answers as one row, each citable one taking the run's next handle. */
    method StageResults(results: seq<ToolResult>, citable: set<CallId>, now: int) returns (anyCitable: bool)
      requires Valid()
      modifies this`rows, this`nextSeq, this`nextEvidence
      ensures Valid()
      ensures rows == old(rows) + [Row(old(nextSeq), User, "", Stamp(results, citable, old(nextEvidence)), now)]
      ensures anyCitable <==> nextEvidence > old(nextEvidence)
    {
      var parts, next := ResultParts(results, citable, nextEvidence);
      StampHandles(results, citable, nextEvidence);
      ghost var row := Row(nextSeq, User, "", parts, now);
      HandlesSnoc(rows, row);
      assert Range(firstEvidence, |Handles(rows)|) + Range(nextEvidence, CitedCount(results, citable))
          == Range(firstEvidence, |Handles(rows)| + CitedCount(results, citable));
      anyCitable := next > nextEvidence;
      nextEvidence := next;
      Push(User, "", parts, now);
    }

    /** flush: the unwritten tail in one transaction, with the gate when the run suspends. The tail counts as
        written before the transaction answers, so one that aborts is never tried again. */
    method Flush(db: Database, interrupt: Option<Gate>) returns (committed: bool)
      requires Valid()
      modifies this`flushed, db`sessions
      ensures Valid() && rows == old(rows) && Unwritten() == []
      ensures committed == old(db.Insertable(sessionId, Unwritten()))
      ensures !committed ==> db.State() == old(db.State())
      ensures committed ==> var tail := old(Unwritten());
        db.State() == RowUpdated(old(db.State()), sessionId, (s: Session, f: AlertFacts) =>
          if interrupt.Some? then Parked(s, tail, interrupt.value) else RowsAppended(s, tail, f))
      ensures sessionId in old(db.sessions) ==> (
        && sessionId in db.sessions
        && (!committed ==> db.sessions[sessionId].rows == old(db.sessions)[sessionId].rows)
        && (committed ==> db.sessions[sessionId].rows == old(db.sessions)[sessionId].rows + old(Unwritten())))
    {
      var tail := Unwritten();
      flushed := |rows|;
      match interrupt {
        case Some(gate) => committed := db.AppendRowsAndPark(sessionId, tail, gate);
        case None => committed := db.AppendTranscriptRows(sessionId, tail);
      }
      assert sessionId in db.sessions && tail == [] ==> db.sessions[sessionId].rows + tail == db.sessions[sessionId].rows;
    }
  }

  lemma FlushExtends(stored: seq<Row>, tail: seq<Row>, base: nat, next: nat)
    requires Sound(stored) && BuiltFrom(tail, base, next) && Snapshot(stored, base, next) && !Collides(stored, tail)
    ensures Sound(stored + tail) && Snapshot(stored + tail, base + |tail|, next + |Handles(tail)|)
    ensures tail == [] || base == |stored|
  {
    StaleWriteCollides(stored, tail, base, next);
    FreshWriteExtends(stored, tail, base, next);
    HandlesConcat(stored, tail);
    if tail == [] {
      assert stored + tail == stored;
    }
  }

  /** A run that read its counters from a sound transcript writes only what extends it: each flush either
      aborts, because somebody wrote first, or leaves seqs 0..n-1 and handles e1..eN and the run in step. */
  method FlushSoundly(run: RunState, db: Database, interrupt: Option<Gate>) returns (committed: bool)
    requires run.Valid() && run.sessionId in db.sessions
    requires Sound(db.sessions[run.sessionId].rows) && run.InStep(db.sessions[run.sessionId].rows)
    modifies run`flushed, db`sessions
    ensures run.Valid() && run.sessionId in db.sessions && Sound(db.sessions[run.sessionId].rows)
    ensures committed ==> run.InStep(db.sessions[run.sessionId].rows)
    ensures committed <==> old(run.Unwritten()) == [] || |old(db.sessions)[run.sessionId].rows| == run.firstSeq + old(run.flushed)
    ensures db.sessions[run.sessionId].rows
         == if committed then old(db.sessions)[run.sessionId].rows + old(run.Unwritten())
            else old(db.sessions)[run.sessionId].rows
  {
    ghost var stored, tail := db.sessions[run.sessionId].rows, run.Unwritten();
    ghost var base, next := run.firstSeq + run.flushed, run.firstEvidence + |Handles(run.rows[..run.flushed])|;
    TailIsBuilt(run.rows, run.flushed, run.firstSeq, run.firstEvidence);
    StaleWriteCollides(stored, tail, base, next);
    committed := run.Flush(db, interrupt);
    if committed {
      FlushExtends(stored, tail, base, next);
      assert run.rows[..run.flushed] == run.rows;
    }
  }
}
