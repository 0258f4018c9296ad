/**
 The durable transcript of one session: its rows, their parts, and the evidence
 handles stamped on results (apps/api/src/agent/evidence-id.ts).

 A handle "e<n>" is modelled by its number n, and a provider's tool-call id by a
 number that is unique to the call.
 */
module Transcript {
  import opened Wrappers

  type CallId = nat

  datatype Kind = User | Assistant | Error | SystemReminder

  datatype Part =
    | TextPart(text: string)
    | CallPart(callId: CallId, name: string)
    | ResultPart(callId: CallId, output: string, evidence: Option<nat>, isError: bool)
    | ApprovalPart(callId: CallId, approved: bool)
    | ElicitationPart(callId: CallId, text: string)

  datatype Row = Row(seqNo: nat, kind: Kind, content: string, parts: seq<Part>, at: int)

  // What a tool call came back with, before it is stamped for the transcript.
  datatype ToolResult = ToolResult(callId: CallId, content: string, isError: bool)

  // ---------- Calls and the results that answer them ----------

  function Calls(row: Row): set<CallId> {
    set p | p in row.parts && p.CallPart? :: p.callId
  }

  function Results(row: Row): set<CallId> {
    set p | p in row.parts && p.ResultPart? :: p.callId
  }

  function ResultIds(results: seq<ToolResult>): set<CallId> {
    set r | r in results :: r.callId
  }

  ghost predicate Asked(rows: seq<Row>, id: CallId) {
    exists i :: 0 <= i < |rows| && id in Calls(rows[i])
  }

  ghost predicate Answered(rows: seq<Row>, id: CallId) {
    exists i :: 0 <= i < |rows| && id in Results(rows[i])
  }

  // ---------- Evidence handles ----------

  function PartHandles(parts: seq<Part>): seq<nat> {
    if parts == [] then []
    else
      var last := parts[|parts| - 1];
      PartHandles(parts[..|parts| - 1])
      + (if last.ResultPart? && last.evidence.Some? then [last.evidence.value] else [])
  }

  // Every handle the rows hold, in row order and in part order within a row.
  function Handles(rows: seq<Row>): seq<nat> {
    if rows == [] then []
    else Handles(rows[..|rows| - 1]) + PartHandles(rows[|rows| - 1].parts)
  }

  function Range(from: nat, count: nat): (r: seq<nat>)
    ensures |r| == count && forall i :: 0 <= i < count ==> r[i] == from + i
  {
    seq(count, i => from + i)
  }

  lemma PartHandlesSnoc(parts: seq<Part>, part: Part)
    ensures PartHandles(parts + [part])
         == PartHandles(parts)
            + (if part.ResultPart? && part.evidence.Some? then [part.evidence.value] else [])
  {
    assert (parts + [part])[..|parts|] == parts;
  }

  lemma {:induction false} PartHandlesConcat(a: seq<Part>, b: seq<Part>)
    ensures PartHandles(a + b) == PartHandles(a) + PartHandles(b)
    decreases |b|
  {
    if b == [] {
      assert a + b == a;
    } else {
      var front, last := b[..|b| - 1], b[|b| - 1];
      assert a + b == (a + front) + [last] && b == front + [last];
      PartHandlesConcat(a, front);
      PartHandlesSnoc(a + front, last);
    }
  }

  lemma HandlesSnoc(rows: seq<Row>, row: Row)
    ensures Handles(rows + [row]) == Handles(rows) + PartHandles(row.parts)
  {
    assert (rows + [row])[..|rows|] == rows;
  }

  lemma {:induction false} HandlesConcat(a: seq<Row>, b: seq<Row>)
    ensures Handles(a + b) == Handles(a) + Handles(b)
    decreases |b|
  {
    if b == [] {
      assert a + b == a;
    } else {
      var front, last := b[..|b| - 1], b[|b| - 1];
      assert a + b == (a + front) + [last] && b == front + [last];
      HandlesConcat(a, front);
      HandlesSnoc(a + front, last);
    }
  }

  function Max(s: seq<nat>): (m: nat)
    ensures forall x :: x in s ==> x <= m
    ensures m == 0 || m in s
  {
    if s == [] then 0
    else
      var rest := Max(s[..|s| - 1]);
      assert s == s[..|s| - 1] + [s[|s| - 1]];
      if s[|s| - 1] > rest then s[|s| - 1] else rest
  }

  lemma {:induction false} MaxConcat(a: seq<nat>, b: seq<nat>)
    ensures Max(a + b) == if Max(a) > Max(b) then Max(a) else Max(b)
    decreases |b|
  {
    if b == [] {
      assert a + b == a;
    } else {
      MaxConcat(a, b[..|b| - 1]);
      assert (a + b)[..|a + b| - 1] == a + b[..|b| - 1];
    }
  }

  function Highest(rows: seq<Row>): nat {
    Max(Handles(rows))
  }

  lemma MaxNextPart(before: seq<nat>, parts: seq<Part>, j: nat)
    requires j < |parts|
    ensures Max(before + PartHandles(parts[..j + 1]))
         == if parts[j].ResultPart? && parts[j].evidence.Some?
               && parts[j].evidence.value > Max(before + PartHandles(parts[..j]))
            then parts[j].evidence.value else Max(before + PartHandles(parts[..j]))
  {
    assert parts[..j + 1] == parts[..j] + [parts[j]];
    PartHandlesSnoc(parts[..j], parts[j]);
    if parts[j].ResultPart? && parts[j].evidence.Some? {
      var n := parts[j].evidence.value;
      MaxConcat(before + PartHandles(parts[..j]), [n]);
      assert before + PartHandles(parts[..j + 1]) == (before + PartHandles(parts[..j])) + [n];
    } else {
      assert PartHandles(parts[..j + 1]) == PartHandles(parts[..j]);
    }
  }

  lemma HandlesNextRow(rows: seq<Row>, i: nat)
    requires i < |rows|
    ensures Handles(rows[..i + 1]) == Handles(rows[..i]) + PartHandles(rows[i].parts)
  {
    assert rows[..i + 1] == rows[..i] + [rows[i]];
    HandlesSnoc(rows[..i], rows[i]);
  }

  /** highestEvidenceNumber: the fold over every part of every row. */
  method HighestEvidenceNumber(rows: seq<Row>) returns (highest: nat)
    ensures highest == Highest(rows)
  {
    highest := 0;
    for i := 0 to |rows|
      invariant highest == Highest(rows[..i])
    {
      var parts := rows[i].parts;
      ghost var before := Handles(rows[..i]);
      assert before + PartHandles(parts[..0]) == before;
      for j := 0 to |parts|
        invariant highest == Max(before + PartHandles(parts[..j]))
      {
        MaxNextPart(before, parts, j);
        if parts[j].ResultPart? && parts[j].evidence.Some? && parts[j].evidence.value > highest {
          highest := parts[j].evidence.value;
        }
      }
      assert parts[..|parts|] == parts;
      HandlesNextRow(rows, i);
    }
    assert rows[..|rows|] == rows;
  }

  // ---------- Stamping results ----------

  predicate IsCited(result: ToolResult, citable: set<CallId>) {
    result.callId in citable && !result.isError
  }

  function CitedCount(results: seq<ToolResult>, citable: set<CallId>): nat {
    if results == [] then 0
    else CitedCount(results[..|results| - 1], citable)
         + (if IsCited(results[|results| - 1], citable) then 1 else 0)
  }

  // The parts resultParts builds when the next free handle is `from`.
  function Stamp(results: seq<ToolResult>, citable: set<CallId>, from: nat): (parts: seq<Part>)
    ensures |parts| == |results|
  {
    if results == [] then []
    else
      var front, last := results[..|results| - 1], results[|results| - 1];
      var evidence := if IsCited(last, citable)
                      then Some(from + CitedCount(front, citable)) else None;
      Stamp(front, citable, from) + [ResultPart(last.callId, last.content, evidence, last.isError)]
  }

  /** resultParts: answers become parts, each citable answer taking the next handle. */
  method ResultParts(results: seq<ToolResult>, citable: set<CallId>, from: nat)
    returns (parts: seq<Part>, next: nat)
    ensures parts == Stamp(results, citable, from)
    ensures next == from + CitedCount(results, citable)
  {
    parts, next := [], from;
    for i := 0 to |results|
      invariant parts == Stamp(results[..i], citable, from)
      invariant next == from + CitedCount(results[..i], citable)
    {
      assert results[..i + 1][..i] == results[..i];
      var evidence := None;
      if IsCited(results[i], citable) {
        evidence := Some(next);
        next := next + 1;
      }
      parts := parts + [ResultPart(results[i].callId, results[i].content, evidence, results[i].isError)];
    }
    assert results[..|results|] == results;
  }

  /** A stamped answer carries exactly the handles from, from+1, ..., in order. */
  lemma {:induction false} StampHandles(results: seq<ToolResult>, citable: set<CallId>, from: nat)
    ensures PartHandles(Stamp(results, citable, from)) == Range(from, CitedCount(results, citable))
    decreases |results|
  {
    if results != [] {
      StampHandles(results[..|results| - 1], citable, from);
      var parts := Stamp(results, citable, from);
      assert parts[..|parts| - 1] == Stamp(results[..|results| - 1], citable, from);
    }
  }

  /** Each answer keeps its call, its text and its flag in its own place, and takes a handle if and only if its call is
      citable and it did not fail. */
  lemma {:induction false} StampTells(results: seq<ToolResult>, citable: set<CallId>, from: nat)
    ensures forall i :: 0 <= i < |results| ==>
      var p := Stamp(results, citable, from)[i];
      && p.ResultPart? && p == ResultPart(results[i].callId, results[i].content, p.evidence, results[i].isError)
      && (p.evidence.Some? <==> results[i].callId in citable && !results[i].isError)
    decreases |results|
  {
    if results != [] {
      StampTells(results[..|results| - 1], citable, from);
    }
  }

  /** Stamping answers exactly the calls it was handed, and asks nothing. */
  lemma {:induction false} StampIds(results: seq<ToolResult>, citable: set<CallId>, from: nat, row: Row)
    requires row.parts == Stamp(results, citable, from)
    ensures Results(row) == ResultIds(results) && Calls(row) == {}
    decreases |results|
  {
    if results == [] {
    } else {
      var front, last := results[..|results| - 1], results[|results| - 1];
      var rest := row.(parts := Stamp(front, citable, from));
      StampIds(front, citable, from, rest);
      assert row.parts[..|row.parts| - 1] == rest.parts;
      assert row.parts == rest.parts + [row.parts[|row.parts| - 1]];
      assert results == front + [last];
      assert Results(row) == Results(rest) + {last.callId};
      assert ResultIds(results) == ResultIds(front) + {last.callId};
    }
  }

  // ---------- Row sequence numbers ----------

  // max(seq) + 1 over the stored rows, and 0 where there are none.
  function NextSeq(rows: seq<Row>): nat {
    if rows == [] then 0
    else
      var rest := NextSeq(rows[..|rows| - 1]);
      if rows[|rows| - 1].seqNo + 1 > rest then rows[|rows| - 1].seqNo + 1 else rest
  }

  // The next seq repeats none that is stored.
  lemma {:induction false} NextSeqIsPast(rows: seq<Row>)
    ensures forall i :: 0 <= i < |rows| ==> rows[i].seqNo < NextSeq(rows)
    decreases |rows|
  {
    if rows != [] {
      NextSeqIsPast(rows[..|rows| - 1]);
    }
  }

  ghost predicate Dense(rows: seq<Row>) {
    forall i :: 0 <= i < |rows| ==> rows[i].seqNo == i
  }

  lemma {:induction false} NextSeqIsLength(rows: seq<Row>)
    requires Dense(rows)
    ensures NextSeq(rows) == |rows|
    decreases |rows|
  {
    if rows != [] {
      NextSeqIsLength(rows[..|rows| - 1]);
    }
  }

  // The handles are e1..eN, each once and in order.
  ghost predicate Consecutive(rows: seq<Row>) {
    Handles(rows) == Range(1, |Handles(rows)|)
  }

  lemma HighestIsCount(rows: seq<Row>)
    requires Consecutive(rows)
    ensures Highest(rows) == |Handles(rows)|
  {
    var h := Handles(rows);
    if h != [] {
      assert h[|h| - 1] == |h|;
      assert forall x :: x in h ==> x <= |h|;
    }
  }
}
