/**
 Cutting a damaged transcript back to a conversation a provider will accept
 (apps/api/src/session/seed.ts).
 */
module Seed {
  import opened Transcript

  datatype Role = UserRole | AssistantRole

  datatype ProviderMessage = ProviderMessage(role: Role, content: string, parts: seq<Part>)

  function ToProviderMessage(row: Row): ProviderMessage {
    ProviderMessage(if row.kind == Assistant then AssistantRole else UserRole, row.content, row.parts)
  }

  function ToMessages(rows: seq<Row>): seq<ProviderMessage> {
    seq(|rows|, i requires 0 <= i < |rows| => ToProviderMessage(rows[i]))
  }

  // An assistant turn that asked for nothing, which an unwound transcript may end on.
  predicate Clean(row: Row) {
    row.kind == Assistant && Calls(row) == {}
  }

  function PopToClean(rows: seq<Row>): (kept: seq<Row>)
    ensures kept <= rows
    ensures kept == [] || Clean(kept[|kept| - 1])
  {
    if rows == [] || Clean(rows[|rows| - 1]) then rows else PopToClean(rows[..|rows| - 1])
  }

  // The rows left once every error has taken its dead exchange with it.
  function Unwind(rows: seq<Row>): seq<Row> {
    if rows == [] then []
    else
      var kept, last := Unwind(rows[..|rows| - 1]), rows[|rows| - 1];
      if last.kind != Error then kept + [last] else PopToClean(kept)
  }

  // ---------- What an error drops ----------

  // No error drops the row: from it up to every later error there is an assistant turn that asked for nothing.
  ghost predicate Survives(rows: seq<Row>, i: nat)
    requires i < |rows|
  {
    && rows[i].kind != Error
    && forall e :: i < e < |rows| && rows[e].kind == Error ==>
         exists c :: i <= c < e && rows[c].kind == Assistant && Calls(rows[c]) == {}
  }

  // The surviving rows among the first n.
  ghost function Survivors(rows: seq<Row>, n: nat): seq<Row>
    requires n <= |rows|
  {
    if n == 0 then []
    else
      var before := Survivors(rows, n - 1);
      if Survives(rows, n - 1) then before + [rows[n - 1]] else before
  }

  // A row of the front that a longer transcript drops stood after every clean turn.
  lemma {:induction false} SurvivorsSnoc(rows: seq<Row>, row: Row, n: nat)
    requires n <= |rows| && row.kind != Error
    ensures Survivors(rows + [row], n) == Survivors(rows, n)
    decreases n
  {
    if n > 0 {
      SurvivorsSnoc(rows, row, n - 1);
      var more := rows + [row];
      assert Survives(more, n - 1) <==> Survives(rows, n - 1) by {
        assert forall e :: n - 1 < e < |more| && more[e].kind == Error ==> e < |rows| && rows[e] == more[e];
        assert forall e :: n - 1 < e < |rows| ==> rows[e] == more[e];
        assert forall c :: 0 <= c < |rows| ==> rows[c] == more[c];
      }
    }
  }

  // A clean turn survives whatever follows it.
  lemma CleanSurvives(rows: seq<Row>, i: nat)
    requires i < |rows| && Clean(rows[i])
    ensures Survives(rows, i)
  {
  }

  lemma PopSnoc(rows: seq<Row>, row: Row)
    ensures PopToClean(rows + [row]) == if Clean(row) then rows + [row] else PopToClean(rows)
  {
    assert (rows + [row])[..|rows|] == rows;
  }

  // Whether the first n rows hold a clean turn at or after i.
  ghost predicate CleanFrom(rows: seq<Row>, i: nat, n: nat)
    requires n <= |rows|
  {
    exists c :: i <= c < n && Clean(rows[c])
  }

  lemma ErrorDrops(rows: seq<Row>, error: Row, i: nat)
    requires i < |rows| && error.kind == Error
    ensures Survives(rows + [error], i) <==> Survives(rows, i) && CleanFrom(rows, i, |rows|)
  {
    var more, n := rows + [error], |rows|;
    assert forall e :: 0 <= e < n ==> more[e] == rows[e];
    if Survives(more, i) {
      assert more[n].kind == Error;
      var c :| i <= c < n && more[c].kind == Assistant && Calls(more[c]) == {};
      assert Clean(rows[c]);
      forall e | i < e < n && rows[e].kind == Error
        ensures exists c :: i <= c < e && rows[c].kind == Assistant && Calls(rows[c]) == {}
      {
        assert more[e].kind == Error;
        var k :| i <= k < e && more[k].kind == Assistant && Calls(more[k]) == {};
        assert rows[k] == more[k];
      }
    }
    if Survives(rows, i) && CleanFrom(rows, i, n) {
      var c :| i <= c < n && Clean(rows[c]);
      forall e | i < e < n + 1 && more[e].kind == Error
        ensures exists k :: i <= k < e && more[k].kind == Assistant && Calls(more[k]) == {}
      {
        if e == n {
          assert more[c] == rows[c];
        } else {
          assert rows[e].kind == Error;
          var k :| i <= k < e && rows[k].kind == Assistant && Calls(rows[k]) == {};
          assert more[k] == rows[k];
        }
      }
    }
  }

  lemma CleanReaches(rows: seq<Row>, i: nat)
    requires i < |rows|
    ensures CleanFrom(rows, i, |rows|) <==> Clean(rows[i]) || CleanFrom(rows, i + 1, |rows|)
  {
  }

  // Popping to the last clean turn keeps of the first n survivors those with a clean turn at or after them.
  lemma {:induction false} ErrorPops(rows: seq<Row>, error: Row, n: nat)
    requires n <= |rows| && error.kind == Error
    ensures Survivors(rows + [error], n)
         == if CleanFrom(rows, n, |rows|) then Survivors(rows, n) else PopToClean(Survivors(rows, n))
    decreases n
  {
    if n > 0 {
      var i := n - 1;
      ErrorPops(rows, error, i);
      CleanReaches(rows, i);
      ErrorPopsNext(rows, error, i);
    }
  }

  lemma ErrorPopsNext(rows: seq<Row>, error: Row, i: nat)
    requires i < |rows| && error.kind == Error
    requires Survivors(rows + [error], i)
          == if CleanFrom(rows, i, |rows|) then Survivors(rows, i) else PopToClean(Survivors(rows, i))
    requires CleanFrom(rows, i, |rows|) <==> Clean(rows[i]) || CleanFrom(rows, i + 1, |rows|)
    ensures Survivors(rows + [error], i + 1)
         == if CleanFrom(rows, i + 1, |rows|) then Survivors(rows, i + 1) else PopToClean(Survivors(rows, i + 1))
  {
    ErrorDrops(rows, error, i);
    PopSnoc(Survivors(rows, i), rows[i]);
    if Clean(rows[i]) {
      CleanSurvives(rows, i);
    }
  }

  /** What unwinding leaves is exactly the rows no error drops, in order. */
  lemma {:induction false} UnwindIsSurvivors(rows: seq<Row>)
    ensures Unwind(rows) == Survivors(rows, |rows|)
    decreases |rows|
  {
    if rows != [] {
      var n := |rows| - 1;
      var front := rows[..n];
      assert rows == front + [rows[n]];
      UnwindIsSurvivors(front);
      if rows[n].kind == Error {
        ErrorPops(front, rows[n], n);
        assert !CleanFrom(front, n, n);
      } else {
        SurvivorsSnoc(front, rows[n], n);
      }
    }
  }

  // The front of a transcript that ends on a clean turn; empty when none is there.
  ghost predicate ToLastClean(rows: seq<Row>, p: nat) {
    && p <= |rows| && (p > 0 ==> Clean(rows[p - 1]))
    && forall q :: p <= q < |rows| ==> !Clean(rows[q])
  }

  lemma {:induction false} PopsToLastClean(rows: seq<Row>, p: nat)
    requires ToLastClean(rows, p)
    ensures PopToClean(rows) == rows[..p]
    decreases |rows|
  {
    if p < |rows| {
      PopsToLastClean(rows[..|rows| - 1], p);
      assert rows[..|rows| - 1][..p] == rows[..p];
    } else {
      assert rows[..p] == rows;
    }
  }

  /** Where the one error of a transcript is its last row, what stands before the cut is the longest front that ends on
      an assistant turn without calls, or nothing. */
  lemma OneErrorDropsItsExchange(rows: seq<Row>, error: Row, p: nat)
    requires error.kind == Error && forall row :: row in rows ==> row.kind != Error
    requires ToLastClean(rows, p)
    ensures Survivors(rows + [error], |rows| + 1) == rows[..p]
  {
    UnwindIsSurvivors(rows + [error]);
    UnwindNoErrors(rows);
    assert (rows + [error])[..|rows|] == rows;
    PopsToLastClean(rows, p);
  }

  // ---------- The cut ----------

  function AllResults(rows: seq<Row>): (ids: set<CallId>)
    ensures forall id :: id in ids <==> exists i :: 0 <= i < |rows| && id in Results(rows[i])
  {
    set i, id | 0 <= i < |rows| && id in Results(rows[i]) :: id
  }

  function FirstUnanswered(rows: seq<Row>, answered: set<CallId>): (cut: nat)
    ensures cut <= |rows|
    ensures forall j :: 0 <= j < cut ==> Calls(rows[j]) <= answered
    ensures cut < |rows| ==> !(Calls(rows[cut]) <= answered)
  {
    if rows == [] then 0
    else
      var cut := FirstUnanswered(rows[..|rows| - 1], answered);
      if cut < |rows| - 1 then cut
      else if Calls(rows[|rows| - 1]) <= answered then |rows| else |rows| - 1
  }

  function ThroughLastAnswered(rows: seq<Row>): seq<Row> {
    rows[..FirstUnanswered(rows, AllResults(rows))]
  }

  function SeedRows(rows: seq<Row>): seq<Row> {
    ThroughLastAnswered(Unwind(rows))
  }

  // The cut falls on the first row that asks a call no row answers.
  lemma CutMeans(rows: seq<Row>)
    ensures var kept := ThroughLastAnswered(rows);
      && kept <= rows
      && (forall k :: 0 <= k < |kept| ==> forall id :: id in Calls(rows[k]) ==> Answered(rows, id))
      && (|kept| < |rows| ==> exists id :: id in Calls(rows[|kept|]) && !Answered(rows, id))
  {
  }

  method ThroughLastAnsweredExchange(rows: seq<Row>) returns (kept: seq<Row>)
    ensures kept == ThroughLastAnswered(rows)
  {
    var answered: set<CallId> := {};
    for i := 0 to |rows|
      invariant answered == AllResults(rows[..i])
    {
      var parts := rows[i].parts;
      for j := 0 to |parts|
        invariant answered == AllResults(rows[..i])
                              + set p | p in parts[..j] && p.ResultPart? :: p.callId
      {
        if parts[j].ResultPart? {
          answered := answered + {parts[j].callId};
        }
      }
      assert rows[..i + 1] == rows[..i] + [rows[i]];
    }
    assert rows[..|rows|] == rows;
    for i := 0 to |rows|
      invariant forall k :: 0 <= k < i ==> Calls(rows[k]) <= answered
    {
      var parts := rows[i].parts;
      for j := 0 to |parts|
        invariant forall k :: 0 <= k < j && parts[k].CallPart? ==> parts[k].callId in answered
      {
        if parts[j].CallPart? && parts[j].callId !in answered {
          assert parts[j].callId in Calls(rows[i]);
          return rows[..i];
        }
      }
    }
    return rows;
  }

  /** buildSeed: what no error drops, in order, up to the first row that asks a call nothing of it answers; an
      assistant row speaks for the assistant, and every other for the user. */
  method BuildSeed(transcript: seq<Row>) returns (seed: seq<ProviderMessage>)
    ensures seed == ToMessages(SeedRows(transcript))
    ensures var kept := Survivors(transcript, |transcript|);
      && |seed| <= |kept|
      && (forall k :: 0 <= k < |seed| ==>
            && seed[k].content == kept[k].content && seed[k].parts == kept[k].parts
            && (seed[k].role == AssistantRole <==> kept[k].kind == Assistant)
            && forall id :: id in Calls(kept[k]) ==> Answered(kept, id))
      && (|seed| < |kept| ==> exists id :: id in Calls(kept[|seed|]) && !Answered(kept, id))
  {
    var rows: seq<Row> := [];
    for i := 0 to |transcript|
      invariant rows == Unwind(transcript[..i])
    {
      assert transcript[..i + 1][..i] == transcript[..i];
      if transcript[i].kind != Error {
        rows := rows + [transcript[i]];
      } else {
        ghost var before := rows;
        while |rows| > 0
          invariant PopToClean(rows) == PopToClean(before)
        {
          var last := rows[|rows| - 1];
          if last.kind == Assistant && !(exists p :: p in last.parts && p.CallPart?) {
            assert Clean(last);
            break;
          }
          assert !Clean(last) by {
            if last.kind == Assistant {
              var p :| p in last.parts && p.CallPart?;
              assert p.callId in Calls(last);
            }
          }
          rows := rows[..|rows| - 1];
        }
      }
    }
    assert transcript[..|transcript|] == transcript;
    var kept := ThroughLastAnsweredExchange(rows);
    seed := ToMessages(kept);
    UnwindIsSurvivors(transcript);
    CutMeans(rows);
  }

  // ---------- What every writer keeps ----------

  // A result row either answers the row directly before it in full, or leaves no
  // call before it unanswered. `seen` counts the row itself.
  ghost predicate AnswersAdjacent(rows: seq<Row>, r: nat)
    requires r < |rows|
  {
    r > 0 && Calls(rows[r - 1]) != {} && Results(rows[r]) == Calls(rows[r - 1])
  }

  ghost predicate AnswersAll(rows: seq<Row>, r: nat)
    requires r < |rows|
  {
    forall j, id :: 0 <= j < r && id in Calls(rows[j]) ==> Answered(rows[..r + 1], id)
  }

  ghost predicate UniqueCalls(rows: seq<Row>) {
    forall i, j, id :: 0 <= i < |rows| && 0 <= j < |rows| && id in Calls(rows[i]) && id in Calls(rows[j]) ==> i == j
  }

  ghost predicate AnsweredOnce(rows: seq<Row>) {
    forall i, j, id :: 0 <= i < |rows| && 0 <= j < |rows| && id in Results(rows[i]) && id in Results(rows[j]) ==> i == j
  }

  ghost predicate ResultsFollowCalls(rows: seq<Row>) {
    forall r, id :: 0 <= r < |rows| && id in Results(rows[r]) ==> Asked(rows[..r], id)
  }

  ghost predicate RowShape(row: Row) {
    && (row.kind == Error ==> Calls(row) == {} && Results(row) == {})
    && (Calls(row) == {} || Results(row) == {})
    && (Calls(row) != {} ==> row.kind == Assistant)
    && (Results(row) != {} ==> row.kind == User)
  }

  ghost predicate Bracketed(rows: seq<Row>) {
    && Dense(rows)
    && UniqueCalls(rows)
    && AnsweredOnce(rows)
    && ResultsFollowCalls(rows)
    && (forall i :: 0 <= i < |rows| ==> RowShape(rows[i]))
    && (forall r :: 0 <= r < |rows| && Results(rows[r]) != {} ==> AnswersAdjacent(rows, r) || AnswersAll(rows, r))
  }

  // ---------- Unwinding ----------

  ghost predicate Ascending(rows: seq<Row>, kept: seq<Row>) {
    && (forall a :: 0 <= a < |kept| ==> kept[a].seqNo < |rows| && rows[kept[a].seqNo] == kept[a])
    && (forall a, b :: 0 <= a < b < |kept| ==> kept[a].seqNo < kept[b].seqNo)
  }

  lemma {:induction false} UnwindAscends(rows: seq<Row>)
    requires Dense(rows)
    ensures Ascending(rows, Unwind(rows))
    ensures forall a :: 0 <= a < |Unwind(rows)| ==> Unwind(rows)[a].kind != Error
    decreases |rows|
  {
    if rows != [] {
      var n := |rows| - 1;
      var front, kept := rows[..n], Unwind(rows[..n]);
      UnwindAscends(front);
      if rows[n].kind != Error {
        assert Ascending(rows, kept);
      } else {
        var left := PopToClean(kept);
        assert forall a :: 0 <= a < |left| ==> left[a] == kept[a];
      }
    }
  }

  // Rows are dropped only behind a clean turn: what follows any other kept row is the row after it.
  ghost predicate GapsFollowClean(rows: seq<Row>, kept: seq<Row>) {
    forall a :: 0 <= a < |kept| && !Clean(kept[a]) ==>
      (if a + 1 < |kept| then kept[a + 1].seqNo else |rows|) == kept[a].seqNo + 1
  }

  lemma {:induction false} UnwindGaps(rows: seq<Row>)
    requires Dense(rows)
    ensures GapsFollowClean(rows, Unwind(rows))
    decreases |rows|
  {
    if rows != [] {
      var n := |rows| - 1;
      var front, kept := rows[..n], Unwind(rows[..n]);
      UnwindGaps(front);
      if rows[n].kind == Error {
        var left := PopToClean(kept);
        assert forall a :: 0 <= a < |left| ==> left[a] == kept[a];
      } else {
        var more := kept + [rows[n]];
        assert more[|kept|].seqNo == n;
        assert forall a :: 0 <= a < |kept| ==> more[a] == kept[a];
      }
    }
  }

  // A row between two kept ones is kept, or a clean turn stands before it.
  lemma {:induction false} KeptOrBehindClean(rows: seq<Row>, kept: seq<Row>, lo: nat, hi: nat, k: nat) returns (c: nat)
    requires Ascending(rows, kept) && GapsFollowClean(rows, kept)
    requires lo < hi < |kept| && kept[lo].seqNo < k <= kept[hi].seqNo
    ensures lo <= c <= hi
    ensures kept[c].seqNo == k || (kept[c].seqNo < k && Clean(kept[c]))
    decreases hi - lo
  {
    if kept[hi].seqNo == k || lo + 1 == hi {
      c := if kept[hi].seqNo == k then hi else lo;
    } else if kept[hi - 1].seqNo < k {
      c := hi - 1;
    } else {
      c := KeptOrBehindClean(rows, kept, lo, hi - 1, k);
    }
  }

  lemma {:induction false} UnwindNoErrors(rows: seq<Row>)
    requires forall row :: row in rows ==> row.kind != Error
    ensures Unwind(rows) == rows
    decreases |rows|
  {
    if rows != [] {
      UnwindNoErrors(rows[..|rows| - 1]);
    }
  }

  lemma {:induction false} UnwindShrinks(rows: seq<Row>)
    ensures |Unwind(rows)| <= |rows|
    ensures (exists row :: row in rows && row.kind == Error) ==> |Unwind(rows)| < |rows|
    decreases |rows|
  {
    if rows != [] {
      UnwindShrinks(rows[..|rows| - 1]);
      assert rows == rows[..|rows| - 1] + [rows[|rows| - 1]];
    }
  }

  // ---------- Main results ----------

  // Every call in the seed is answered by a later row of the seed.
  ghost predicate Replayable(seed: seq<Row>) {
    && (forall row :: row in seed ==> row.kind != Error)
    && (forall q, id :: 0 <= q < |seed| && id in Calls(seed[q]) ==>
          exists r :: q < r < |seed| && id in Results(seed[r]))
  }

  // An answer that skips over an open call answers that call too, by then.
  lemma SkippedCallIsAnswered(rows: seq<Row>, q: nat, i: nat, r: nat, id: CallId, d: CallId) returns (k: nat)
    requires Bracketed(rows) && q < i < r < |rows|
    requires id in Calls(rows[q]) && id in Results(rows[r]) && d in Calls(rows[i])
    ensures i < k <= r && d in Results(rows[k])
  {
    assert RowShape(rows[r]);
    assert AnswersAll(rows, r);
    k :| 0 <= k < r + 1 && d in Results(rows[..r + 1][k]);
    assert d in Results(rows[k]);
    assert Asked(rows[..k], d);
    var i' :| 0 <= i' < k && d in Calls(rows[..k][i']);
    assert d in Calls(rows[i']);
  }

  // Two answers that cross leave no clean turn between the skipped call and its own answer.
  lemma NoCleanTurnBetween(rows: seq<Row>, q: nat, i: nat, k: nat, r: nat, id: CallId, d: CallId)
    requires Bracketed(rows) && q < i < k < r < |rows|
    requires id in Calls(rows[q]) && id in Results(rows[r])
    requires d in Calls(rows[i]) && d in Results(rows[k])
    ensures forall m :: i <= m < k ==> !Clean(rows[m])
  {
    forall m | i <= m < k
      ensures !Clean(rows[m])
    {
      if Clean(rows[m]) {
        // The clean turn parts d's answer from its question, so that answer settled id as well.
        assert false;
      }
    }
  }

  // With no clean turn between two rows, unwinding that keeps a later row keeps the second.
  lemma KeptWithoutCleanTurn(rows: seq<Row>, kept: seq<Row>, a: nat, b: nat, k: nat, d: CallId)
    requires Ascending(rows, kept) && GapsFollowClean(rows, kept)
    requires a < b < |kept| && kept[a].seqNo < k <= kept[b].seqNo && k < |rows|
    requires forall m :: kept[a].seqNo <= m < k ==> !Clean(rows[m])
    requires d in Results(rows[k])
    ensures d in AllResults(kept)
  {
    var c := KeptOrBehindClean(rows, kept, a, b, k);
    assert rows[kept[c].seqNo] == kept[c];
    assert kept[c].seqNo == k;
  }

  // The cut never separates a kept question from its kept answer.
  lemma AnswerInsideCut(rows: seq<Row>, kept: seq<Row>, a: nat, b: nat, cut: nat, id: CallId, d: CallId)
    requires Bracketed(rows)
    requires Ascending(rows, kept) && GapsFollowClean(rows, kept)
    requires a < cut <= b < |kept|
    requires id in Calls(kept[a]) && id in Results(kept[b]) && d in Calls(kept[cut])
    ensures d in AllResults(kept)
  {
    var q, i, r := kept[a].seqNo, kept[cut].seqNo, kept[b].seqNo;
    assert RowShape(rows[r]) && Calls(rows[r]) == {};
    assert q < i < r;
    var k := SkippedCallIsAnswered(rows, q, i, r, id, d);
    if k < r {
      NoCleanTurnBetween(rows, q, i, k, r, id, d);
      KeptWithoutCleanTurn(rows, kept, cut, b, k, d);
    } else {
      assert d in Results(kept[b]);
    }
  }

  lemma QuestionFirst(rows: seq<Row>, q: nat, r: nat, id: CallId)
    requires Bracketed(rows) && q < |rows| && r < |rows|
    requires id in Calls(rows[q]) && id in Results(rows[r])
    ensures q < r
  {
    assert Asked(rows[..r], id);
    var q' :| 0 <= q' < r && id in Calls(rows[..r][q']);
    assert id in Calls(rows[q']);
  }

  /** A seed holds no error row, and each of its calls is answered later inside it. */
  lemma SeedIsReplayable(rows: seq<Row>)
    requires Bracketed(rows)
    ensures Replayable(SeedRows(rows))
  {
    var kept, seed := Unwind(rows), SeedRows(rows);
    var cut := |seed|;
    UnwindAscends(rows);
    UnwindGaps(rows);
    forall q, id | 0 <= q < cut && id in Calls(seed[q])
      ensures exists r :: q < r < cut && id in Results(seed[r])
    {
      assert id in Calls(kept[q]) && id in AllResults(kept);
      var b :| 0 <= b < |kept| && id in Results(kept[b]);
      QuestionFirst(rows, kept[q].seqNo, kept[b].seqNo, id);
      if b >= cut {
        var d :| d in Calls(kept[cut]) && d !in AllResults(kept);
        AnswerInsideCut(rows, kept, q, b, cut, id, d);
        assert false;
      }
      assert id in Results(seed[b]);
    }
  }

  /** The seed is the whole transcript exactly when nothing died and nothing went unanswered. */
  lemma SeedIsWhole(rows: seq<Row>)
    ensures SeedRows(rows) == rows
       <==> (forall row :: row in rows ==> row.kind != Error && Calls(row) <= AllResults(rows))
  {
    UnwindShrinks(rows);
    if forall row :: row in rows ==> row.kind != Error {
      UnwindNoErrors(rows);
      if SeedRows(rows) == rows {
        assert FirstUnanswered(rows, AllResults(rows)) == |rows|;
      }
    }
  }

  /** Seeding again from a seed changes nothing. */
  lemma ReseedingIsIdempotent(rows: seq<Row>)
    requires Bracketed(rows)
    ensures SeedRows(SeedRows(rows)) == SeedRows(rows)
  {
    SeedIsReplayable(rows);
    SeedIsWhole(SeedRows(rows));
  }
}
