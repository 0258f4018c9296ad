/**
 What one committed append does to a transcript: a write computed from a snapshot
 either extends exactly that snapshot or collides with the primary key, and each
 shape of append keeps the bracket that replaying needs.
 */
module TranscriptWrites {
  import opened Wrappers
  import opened Transcript
  import opened Seed
  import opened SessionTables

  ghost predicate Sound(rows: seq<Row>) {
    Dense(rows) && Consecutive(rows)
  }

  // Rows a writer built from a transcript of `base` rows whose next free handle was `next`.
  ghost predicate BuiltFrom(added: seq<Row>, base: nat, next: nat) {
    && (forall j :: 0 <= j < |added| ==> added[j].seqNo == base + j)
    && Handles(added) == Range(next, |Handles(added)|)
  }

  // A snapshot never runs ahead of the transcript, and is right while nothing was appended since.
  ghost predicate Snapshot(rows: seq<Row>, base: nat, next: nat) {
    && base <= |rows|
    && (base == |rows| ==> next == |Handles(rows)| + 1)
  }

  /** A write under a seq read before somebody appended repeats a stored one, so its transaction aborts. */
  lemma StaleWriteCollides(rows: seq<Row>, added: seq<Row>, base: nat, next: nat)
    requires Dense(rows) && BuiltFrom(added, base, next) && base <= |rows|
    ensures Collides(rows, added) <==> added != [] && base < |rows|
  {
    if added != [] && base < |rows| {
      assert rows[base].seqNo == added[0].seqNo;
    }
  }

  /** A write that does not collide keeps the seqs 0..n-1 and the handles e1..eN. */
  lemma FreshWriteExtends(rows: seq<Row>, added: seq<Row>, base: nat, next: nat)
    requires Sound(rows) && BuiltFrom(added, base, next) && Snapshot(rows, base, next)
    requires !Collides(rows, added)
    ensures Sound(rows + added)
  {
    StaleWriteCollides(rows, added, base, next);
    HandlesConcat(rows, added);
    if added == [] {
      assert rows + added == rows;
    } else {
      var n := |Handles(rows)|;
      assert Handles(rows + added) == Range(1, n) + Range(n + 1, |Handles(added)|);
    }
  }

  // Any other writer's snapshot survives an append.
  lemma SnapshotSurvives(rows: seq<Row>, added: seq<Row>, base: nat, next: nat)
    requires Snapshot(rows, base, next)
    ensures Snapshot(rows + added, base, next)
  {
    if added == [] {
      assert rows + added == rows;
    }
  }

  lemma TakeSnapshot(rows: seq<Row>)
    requires Sound(rows)
    ensures NextSeq(rows) == |rows| && Highest(rows) == |Handles(rows)|
    ensures Snapshot(rows, NextSeq(rows), Highest(rows) + 1)
  {
    NextSeqIsLength(rows);
    HighestIsCount(rows);
  }

  // ---------- The bracket, append by append ----------

  lemma AnsweredMore(rows: seq<Row>, row: Row, id: CallId)
    ensures Transcript.Answered(rows + [row], id) <==> Transcript.Answered(rows, id) || id in Results(row)
    ensures Asked(rows + [row], id) <==> Asked(rows, id) || id in Calls(row)
  {
    var more := rows + [row];
    assert more[|rows|] == row;
    if Transcript.Answered(rows, id) {
      var i :| 0 <= i < |rows| && id in Results(rows[i]);
      assert id in Results(more[i]);
    }
    if Asked(rows, id) {
      var i :| 0 <= i < |rows| && id in Calls(rows[i]);
      assert id in Calls(more[i]);
    }
  }

  // The facts about earlier rows that no append disturbs.
  lemma EarlierRowsStand(rows: seq<Row>, row: Row)
    requires Bracketed(rows)
    ensures forall r, id :: 0 <= r < |rows| && id in Results(rows[r]) ==> Asked((rows + [row])[..r], id)
    ensures forall r :: 0 <= r < |rows| && Results(rows[r]) != {} ==>
              AnswersAdjacent(rows + [row], r) || AnswersAll(rows + [row], r)
  {
    var more := rows + [row];
    forall r, id | 0 <= r < |rows| && id in Results(rows[r])
      ensures Asked(more[..r], id)
    {
      assert more[..r] == rows[..r];
    }
    forall r | 0 <= r < |rows| && Results(rows[r]) != {}
      ensures AnswersAdjacent(more, r) || AnswersAll(more, r)
    {
      assert more[..r + 1] == rows[..r + 1];
      if AnswersAll(rows, r) {
        assert AnswersAll(more, r);
      }
    }
  }

  // Everything Bracketed asks of the row being appended.
  ghost predicate BracketsNext(rows: seq<Row>, row: Row) {
    && row.seqNo == |rows|
    && RowShape(row)
    && (forall id :: id in Calls(row) ==> !Asked(rows, id))
    && (forall id :: id in Results(row) ==> Asked(rows, id) && !Transcript.Answered(rows, id))
    && (Results(row) != {} ==>
          || (rows != [] && Calls(rows[|rows| - 1]) != {} && Results(row) == Calls(rows[|rows| - 1]))
          || (forall id :: Asked(rows, id) ==> Transcript.Answered(rows + [row], id)))
  }

  lemma IdsStayUnique(rows: seq<Row>, row: Row)
    requires UniqueCalls(rows) && AnsweredOnce(rows)
    requires forall id :: id in Calls(row) ==> !Asked(rows, id)
    requires forall id :: id in Results(row) ==> !Transcript.Answered(rows, id)
    ensures UniqueCalls(rows + [row]) && AnsweredOnce(rows + [row])
  {
    var more, n := rows + [row], |rows|;
    forall i, j, id | 0 <= i <= n && 0 <= j <= n && id in Calls(more[i]) && id in Calls(more[j])
      ensures i == j
    {
      if i < n && j == n { assert Asked(rows, id); }
      if j < n && i == n { assert Asked(rows, id); }
    }
    forall i, j, id | 0 <= i <= n && 0 <= j <= n && id in Results(more[i]) && id in Results(more[j])
      ensures i == j
    {
      if i < n && j == n { assert Transcript.Answered(rows, id); }
      if j < n && i == n { assert Transcript.Answered(rows, id); }
    }
  }

  lemma NewRowBrackets(rows: seq<Row>, row: Row)
    requires BracketsNext(rows, row) && Results(row) != {}
    ensures AnswersAdjacent(rows + [row], |rows|) || AnswersAll(rows + [row], |rows|)
  {
    var more, n := rows + [row], |rows|;
    if !(rows != [] && Calls(rows[n - 1]) != {} && Results(row) == Calls(rows[n - 1])) {
      assert more[..n + 1] == more;
      forall j, id | 0 <= j < n && id in Calls(more[j])
        ensures Transcript.Answered(more[..n + 1], id)
      {
        assert id in Calls(rows[j]);
        assert Asked(rows, id);
      }
    }
  }

  lemma BracketGrows(rows: seq<Row>, row: Row)
    requires Bracketed(rows) && BracketsNext(rows, row)
    ensures Bracketed(rows + [row])
  {
    var more, n := rows + [row], |rows|;
    EarlierRowsStand(rows, row);
    IdsStayUnique(rows, row);
    assert more[..n] == rows;
    if Results(row) != {} {
      NewRowBrackets(rows, row);
    }
  }

  /** A replay row answers every open call at once, which is what lets it stand away from its question. */
  lemma ReplayBrackets(registry: Registry, rows: seq<Row>, results: seq<ToolResult>, now: int)
    requires Bracketed(rows) && Sound(rows)
    requires Replays(Unanswered(rows), results)
    ensures BracketsNext(rows, ReplayRow(registry, rows, results, now))
  {
    var row := ReplayRow(registry, rows, results, now);
    TakeSnapshot(rows);
    UnansweredIds(rows);
    StampIds(results, CitableCalls(registry, Unanswered(rows)), Highest(rows) + 1, row);
    var calls := Unanswered(rows);
    assert ResultIds(results) == CallIds(calls) by {
      forall id | id in CallIds(calls)
        ensures id in ResultIds(results)
      {
        var i :| 0 <= i < |calls| && calls[i].callId == id;
        assert results[i] in results;
      }
      forall id | id in ResultIds(results)
        ensures id in CallIds(calls)
      {
        var i :| 0 <= i < |results| && results[i].callId == id;
        assert calls[i] in calls;
      }
    }
    forall id | Asked(rows, id)
      ensures Transcript.Answered(rows + [row], id)
    {
      AnsweredMore(rows, row, id);
    }
  }
}
