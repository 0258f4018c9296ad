/**
 The evidence trail read off the transcript: which call each handle names, what is
 quoted for it, and which writes were released (apps/api/src/agent/report.ts).
 */
module Evidence {
  import opened Wrappers
  import opened Transcript
  import opened TranscriptWrites

  datatype ToolCall = ToolCall(
    callId: CallId, name: string, evidence: Option<nat>, result: Option<string>, isError: bool, approved: Option<bool>)

  // Every part of every row, in order.
  function Trail(rows: seq<Row>): seq<Part> {
    if rows == [] then [] else Trail(rows[..|rows| - 1]) + rows[|rows| - 1].parts
  }

  // Where the latest entry for this call stands; |entries| when it has none.
  function EntryOf(entries: seq<ToolCall>, id: CallId): (k: nat)
    ensures k <= |entries|
    ensures k < |entries| ==> entries[k].callId == id
    ensures k == |entries| ==> forall i :: 0 <= i < |entries| ==> entries[i].callId != id
  {
    if entries == [] then 0
    else
      var n := |entries| - 1;
      if entries[n].callId == id then n
      else
        var k := EntryOf(entries[..n], id);
        assert k == n ==> forall i :: 0 <= i < n ==> entries[..n][i] == entries[i];
        if k == n then |entries| else k
  }

  function Answer(e: ToolCall, part: Part): ToolCall {
    match part
    case ResultPart(_, output, evidence, isError) =>
      e.(result := Some(output),
         evidence := if evidence.Some? then evidence else e.evidence,
         isError := if isError then true else e.isError)
    case ApprovalPart(_, approved) => e.(approved := Some(approved))
    case _ => e
  }

  function NextEntries(entries: seq<ToolCall>, part: Part): seq<ToolCall> {
    match part
    case CallPart(id, name) => entries + [ToolCall(id, name, None, None, false, None)]
    case ResultPart(id, _, _, _) =>
      var k := EntryOf(entries, id);
      if k < |entries| then entries[k := Answer(entries[k], part)] else entries
    case ApprovalPart(id, _) =>
      var k := EntryOf(entries, id);
      if k < |entries| then entries[k := Answer(entries[k], part)] else entries
    case _ => entries
  }

  function Entries(trail: seq<Part>): seq<ToolCall> {
    if trail == [] then [] else NextEntries(Entries(trail[..|trail| - 1]), trail[|trail| - 1])
  }

  lemma EntriesSnoc(trail: seq<Part>, part: Part)
    ensures Entries(trail + [part]) == NextEntries(Entries(trail), part)
  {
    assert (trail + [part])[..|trail|] == trail;
  }

  // The parts of one row, each call's entry found again by its id.
  method WalkParts(entries0: seq<ToolCall>, parts: seq<Part>, ghost before: seq<Part>) returns (entries: seq<ToolCall>)
    requires entries0 == Entries(before)
    ensures entries == Entries(before + parts)
  {
    entries := entries0;
    assert before + parts[..0] == before;
    for j := 0 to |parts|
      invariant entries == Entries(before + parts[..j])
    {
      EntriesSnoc(before + parts[..j], parts[j]);
      assert before + parts[..j + 1] == (before + parts[..j]) + [parts[j]];
      match parts[j] {
        case CallPart(id, name) =>
          entries := entries + [ToolCall(id, name, None, None, false, None)];
        case ResultPart(id, _, _, _) =>
          var k := EntryOf(entries, id);
          if k < |entries| { entries := entries[k := Answer(entries[k], parts[j])]; }
        case ApprovalPart(id, _) =>
          var k := EntryOf(entries, id);
          if k < |entries| { entries := entries[k := Answer(entries[k], parts[j])]; }
        case _ =>
      }
    }
    assert parts[..|parts|] == parts;
  }

  /** toolCallsFrom: one walk over the whole trail. */
  method ToolCallsFrom(rows: seq<Row>) returns (entries: seq<ToolCall>)
    ensures entries == Entries(Trail(rows))
  {
    entries := [];
    for i := 0 to |rows|
      invariant entries == Entries(Trail(rows[..i]))
    {
      assert rows[..i + 1][..i] == rows[..i];
      entries := WalkParts(entries, rows[i].parts, Trail(rows[..i]));
    }
    assert rows[..|rows|] == rows;
  }

  // ---------- Trails the writers leave ----------

  ghost predicate HasCall(trail: seq<Part>, id: CallId) {
    exists i :: 0 <= i < |trail| && trail[i].CallPart? && trail[i].callId == id
  }

  predicate NamesCall(part: Part) {
    part.ResultPart? || part.ApprovalPart?
  }

  // Call ids are the provider's and unique, and what a call came to stands after the call.
  ghost predicate Named(trail: seq<Part>) {
    && (forall i, j :: 0 <= i < j < |trail| && trail[i].CallPart? && trail[j].CallPart? ==>
          trail[i].callId != trail[j].callId)
    && (forall j :: 0 <= j < |trail| && NamesCall(trail[j]) ==> HasCall(trail[..j], trail[j].callId))
  }

  ghost predicate AnsweredOnceOn(trail: seq<Part>) {
    forall i, j :: 0 <= i < j < |trail| && trail[i].ResultPart? && trail[j].ResultPart? ==>
      trail[i].callId != trail[j].callId
  }

  // And no call is answered twice.
  ghost predicate Orderly(trail: seq<Part>) {
    Named(trail) && AnsweredOnceOn(trail)
  }

  lemma HasCallSnoc(trail: seq<Part>, part: Part, id: CallId)
    ensures HasCall(trail + [part], id) <==> HasCall(trail, id) || (part.CallPart? && part.callId == id)
  {
    var more := trail + [part];
    assert more[|trail|] == part;
    if HasCall(trail, id) {
      var i :| 0 <= i < |trail| && trail[i].CallPart? && trail[i].callId == id;
      assert more[i] == trail[i];
    }
  }

  lemma NamedFront(trail: seq<Part>, n: nat)
    requires Named(trail) && n <= |trail|
    ensures Named(trail[..n])
  {
    forall j | 0 <= j < n && NamesCall(trail[j])
      ensures HasCall(trail[..n][..j], trail[j].callId)
    {
      assert trail[..n][..j] == trail[..j];
    }
  }

  // The last handle given for this call, the last result, and the last decision.
  function LastHandle(trail: seq<Part>, id: CallId): Option<nat> {
    if trail == [] then None
    else
      var last := trail[|trail| - 1];
      if last.ResultPart? && last.callId == id && last.evidence.Some? then last.evidence
      else LastHandle(trail[..|trail| - 1], id)
  }

  function LastOutput(trail: seq<Part>, id: CallId): Option<string> {
    if trail == [] then None
    else
      var last := trail[|trail| - 1];
      if last.ResultPart? && last.callId == id then Some(last.output) else LastOutput(trail[..|trail| - 1], id)
  }

  function LastDecision(trail: seq<Part>, id: CallId): Option<bool> {
    if trail == [] then None
    else
      var last := trail[|trail| - 1];
      if last.ApprovalPart? && last.callId == id then Some(last.approved) else LastDecision(trail[..|trail| - 1], id)
  }

  // Some result of this call is an error.
  function EverFailed(trail: seq<Part>, id: CallId): bool {
    trail != []
    && var last := trail[|trail| - 1];
    (last.ResultPart? && last.callId == id && last.isError) || EverFailed(trail[..|trail| - 1], id)
  }

  // The name this call was made under.
  function NameOf(trail: seq<Part>, id: CallId): Option<string> {
    if trail == [] then None
    else
      var last := trail[|trail| - 1];
      if last.CallPart? && last.callId == id then Some(last.name) else NameOf(trail[..|trail| - 1], id)
  }

  lemma {:induction false} NothingBeforeTheCall(trail: seq<Part>, id: CallId)
    requires Named(trail) && !HasCall(trail, id)
    ensures LastHandle(trail, id) == None && LastOutput(trail, id) == None && LastDecision(trail, id) == None
    ensures !EverFailed(trail, id)
    decreases |trail|
  {
    if trail != [] {
      var n := |trail| - 1;
      NamedFront(trail, n);
      HasCallSnoc(trail[..n], trail[n], id);
      assert trail[..n] + [trail[n]] == trail;
      NothingBeforeTheCall(trail[..n], id);
    }
  }

  // One entry a call, telling its name, the last that was said of it, and whether any of it failed.
  ghost predicate TellsLast(trail: seq<Part>, e: ToolCall) {
    && e.evidence == LastHandle(trail, e.callId)
    && e.result == LastOutput(trail, e.callId)
    && e.approved == LastDecision(trail, e.callId)
    && e.isError == EverFailed(trail, e.callId)
    && NameOf(trail, e.callId) == Some(e.name)
  }

  ghost predicate Told(trail: seq<Part>, entries: seq<ToolCall>) {
    && (forall i, j :: 0 <= i < j < |entries| ==> entries[i].callId != entries[j].callId)
    && (forall id :: HasCall(trail, id) <==> EntryOf(entries, id) < |entries|)
    && (forall k :: 0 <= k < |entries| ==> TellsLast(trail, entries[k]))
  }

  // An answer or a decision changes the one entry of its call.
  lemma {:induction false} SameEntries(entries: seq<ToolCall>, k: nat, e: ToolCall, id: CallId)
    requires k < |entries| && e.callId == entries[k].callId
    ensures EntryOf(entries[k := e], id) == EntryOf(entries, id)
    decreases |entries|
  {
    var n := |entries| - 1;
    if k < n {
      SameEntries(entries[..n], k, e, id);
      assert entries[k := e][..n] == entries[..n][k := e];
    } else {
      assert entries[k := e][..n] == entries[..n];
    }
  }

  lemma LastsSnoc(trail: seq<Part>, part: Part, id: CallId)
    ensures LastHandle(trail + [part], id)
         == if part.ResultPart? && part.callId == id && part.evidence.Some? then part.evidence else LastHandle(trail, id)
    ensures LastOutput(trail + [part], id)
         == if part.ResultPart? && part.callId == id then Some(part.output) else LastOutput(trail, id)
    ensures LastDecision(trail + [part], id)
         == if part.ApprovalPart? && part.callId == id then Some(part.approved) else LastDecision(trail, id)
    ensures EverFailed(trail + [part], id)
         == ((part.ResultPart? && part.callId == id && part.isError) || EverFailed(trail, id))
    ensures NameOf(trail + [part], id)
         == if part.CallPart? && part.callId == id then Some(part.name) else NameOf(trail, id)
  {
    assert (trail + [part])[..|trail|] == trail;
  }

  lemma CallIsTold(trail: seq<Part>, part: Part, entries: seq<ToolCall>)
    requires Told(trail, entries) && Named(trail) && part.CallPart? && !HasCall(trail, part.callId)
    ensures Told(trail + [part], NextEntries(entries, part))
  {
    var next := NextEntries(entries, part);
    assert next[..|entries|] == entries;
    NothingBeforeTheCall(trail, part.callId);
    forall id
      ensures HasCall(trail + [part], id) <==> EntryOf(next, id) < |next|
    {
      HasCallSnoc(trail, part, id);
    }
    forall k | 0 <= k < |next|
      ensures TellsLast(trail + [part], next[k])
    {
      LastsSnoc(trail, part, next[k].callId);
      if k < |entries| {
        assert TellsLast(trail, entries[k]) && next[k].callId != part.callId;
      }
    }
  }

  lemma UpdateIsTold(trail: seq<Part>, part: Part, entries: seq<ToolCall>, k: nat)
    requires Told(trail, entries) && NamesCall(part) && k < |entries| && entries[k].callId == part.callId
    ensures Told(trail + [part], entries[k := Answer(entries[k], part)])
  {
    var next := entries[k := Answer(entries[k], part)];
    forall id
      ensures HasCall(trail + [part], id) <==> EntryOf(next, id) < |next|
    {
      HasCallSnoc(trail, part, id);
      SameEntries(entries, k, next[k], id);
    }
    forall i | 0 <= i < |next|
      ensures TellsLast(trail + [part], next[i])
    {
      LastsSnoc(trail, part, next[i].callId);
      assert TellsLast(trail, entries[i]);
    }
  }

  lemma PassingPartIsTold(trail: seq<Part>, part: Part, entries: seq<ToolCall>)
    requires Told(trail, entries) && !part.CallPart? && !NamesCall(part)
    ensures Told(trail + [part], entries)
  {
    forall id
      ensures HasCall(trail + [part], id) <==> HasCall(trail, id)
    {
      HasCallSnoc(trail, part, id);
    }
    forall k | 0 <= k < |entries|
      ensures TellsLast(trail + [part], entries[k])
    {
      LastsSnoc(trail, part, entries[k].callId);
    }
  }

  /** However often a call was answered, the walk makes one entry of it, which tells the name it was made under, the last
      handle given for it, its last result, its last decision, and whether any result of it was an error. */
  lemma {:induction false} EntriesTellTheLast(trail: seq<Part>)
    requires Named(trail)
    ensures Told(trail, Entries(trail))
    decreases |trail|
  {
    if trail != [] {
      var n := |trail| - 1;
      var front, part := trail[..n], trail[n];
      NamedFront(trail, n);
      EntriesTellTheLast(front);
      assert trail == front + [part];
      if part.CallPart? {
        assert !HasCall(front, part.callId);
        CallIsTold(front, part, Entries(front));
      } else if NamesCall(part) {
        assert HasCall(trail[..n], part.callId);
        UpdateIsTold(front, part, Entries(front), EntryOf(Entries(front), part.callId));
      } else {
        PassingPartIsTold(front, part, Entries(front));
      }
    }
  }

  // ---------- Citations ----------

  lemma {:induction false} TrailHandles(rows: seq<Row>)
    ensures PartHandles(Trail(rows)) == Handles(rows)
    decreases |rows|
  {
    if rows != [] {
      TrailHandles(rows[..|rows| - 1]);
      PartHandlesConcat(Trail(rows[..|rows| - 1]), rows[|rows| - 1].parts);
    }
  }

  predicate Carries(part: Part, n: nat) {
    part.ResultPart? && part.evidence == Some(n)
  }

  function OwnHandle(part: Part): seq<nat> {
    if part.ResultPart? && part.evidence.Some? then [part.evidence.value] else []
  }

  lemma {:induction false} CarriedMeans(trail: seq<Part>, n: nat)
    ensures n in PartHandles(trail) <==> exists j :: 0 <= j < |trail| && Carries(trail[j], n)
    decreases |trail|
  {
    if trail != [] {
      var k := |trail| - 1;
      CarriedMeans(trail[..k], n);
      assert PartHandles(trail) == PartHandles(trail[..k]) + OwnHandle(trail[k]);
      assert n in OwnHandle(trail[k]) <==> Carries(trail[k], n);
    }
  }

  // A handle that occurs once is carried by one result.
  lemma {:induction false} OneCarrier(trail: seq<Part>, n: nat, i: nat, j: nat)
    requires i < j < |trail| && Carries(trail[i], n) && Carries(trail[j], n)
    ensures multiset(PartHandles(trail))[n] >= 2
    decreases |trail|
  {
    var k := |trail| - 1;
    assert PartHandles(trail) == PartHandles(trail[..k]) + OwnHandle(trail[k]);
    if j < k {
      OneCarrier(trail[..k], n, i, j);
    } else {
      assert Carries(trail[..k][i], n);
      CarriedMeans(trail[..k], n);
      assert OwnHandle(trail[k]) == [n];
    }
  }

  lemma {:induction false} RangeHoldsOnce(count: nat, n: nat)
    ensures multiset(Range(1, count))[n] == if 1 <= n <= count then 1 else 0
    decreases count
  {
    if count > 0 {
      RangeHoldsOnce(count - 1, n);
      assert Range(1, count) == Range(1, count - 1) + [count];
    }
  }

  ghost predicate Resolves(entries: seq<ToolCall>, n: nat, k: nat) {
    k < |entries| && entries[k].evidence == Some(n) && entries[k].result.Some?
  }

  // The call of this result was answered again later, under another handle.
  ghost predicate Reissued(trail: seq<Part>, j: nat)
    requires j < |trail| && trail[j].ResultPart?
  {
    exists i :: j < i < |trail| && HandledFor(trail[i], trail[j].callId)
  }

  predicate HandledFor(part: Part, id: CallId) {
    part.ResultPart? && part.callId == id && part.evidence.Some?
  }

  // This result carries the handle, and no later result of its call carries any.
  ghost predicate Ends(trail: seq<Part>, n: nat, j: nat) {
    j < |trail| && Carries(trail[j], n) && !Reissued(trail, j)
  }

  lemma {:induction false} LastHandleSource(trail: seq<Part>, id: CallId) returns (j: nat)
    requires LastHandle(trail, id).Some?
    ensures j < |trail| && HandledFor(trail[j], id) && trail[j].evidence == LastHandle(trail, id) && !Reissued(trail, j)
    decreases |trail|
  {
    var n := |trail| - 1;
    if HandledFor(trail[n], id) {
      j := n;
    } else {
      j := LastHandleSource(trail[..n], id);
      forall i | j < i < |trail|
        ensures !HandledFor(trail[i], id)
      {
        assert i < n ==> trail[..n][i] == trail[i];
      }
    }
  }

  lemma {:induction false} HandledHasLast(trail: seq<Part>, j: nat)
    requires j < |trail| && trail[j].ResultPart? && trail[j].evidence.Some?
    ensures LastHandle(trail, trail[j].callId).Some? && LastOutput(trail, trail[j].callId).Some?
    decreases |trail|
  {
    var n := |trail| - 1;
    if j < n {
      HandledHasLast(trail[..n], j);
    }
  }

  lemma {:induction false} LastHandleIsAnswered(trail: seq<Part>, id: CallId)
    ensures LastHandle(trail, id).Some? ==> LastOutput(trail, id).Some?
    decreases |trail|
  {
    if trail != [] {
      LastHandleIsAnswered(trail[..|trail| - 1], id);
    }
  }

  // The entry that resolves a handle is its carrier's call's, and the carrier is that call's last.
  lemma EntrySource(rows: seq<Row>, k: nat, n: nat) returns (j: nat)
    requires Named(Trail(rows)) && k < |Entries(Trail(rows))| && Entries(Trail(rows))[k].evidence == Some(n)
    ensures Ends(Trail(rows), n, j)
    ensures Trail(rows)[j].callId == Entries(Trail(rows))[k].callId && Entries(Trail(rows))[k].result.Some?
  {
    var trail := Trail(rows);
    EntriesTellTheLast(trail);
    var e := Entries(trail)[k];
    assert TellsLast(trail, e);
    LastHandleIsAnswered(trail, e.callId);
    j := LastHandleSource(trail, e.callId);
  }

  lemma OneSource(rows: seq<Row>, n: nat, a: nat, b: nat)
    requires Consecutive(rows)
    requires a < |Trail(rows)| && Carries(Trail(rows)[a], n) && b < |Trail(rows)| && Carries(Trail(rows)[b], n)
    ensures a == b
  {
    TrailHandles(rows);
    RangeHoldsOnce(|Handles(rows)|, n);
    if a < b {
      OneCarrier(Trail(rows), n, a, b);
    } else if b < a {
      OneCarrier(Trail(rows), n, b, a);
    }
  }

  lemma CarrierResolves(rows: seq<Row>, j: nat, n: nat) returns (k: nat)
    requires Named(Trail(rows)) && Ends(Trail(rows), n, j)
    ensures Resolves(Entries(Trail(rows)), n, k) && Entries(Trail(rows))[k].callId == Trail(rows)[j].callId
  {
    var trail := Trail(rows);
    var id := trail[j].callId;
    EntriesTellTheLast(trail);
    HandledHasLast(trail, j);
    var i := LastHandleSource(trail, id);
    assert i < j ==> HandledFor(trail[j], id);
    assert i == j;
    assert HasCall(trail[..j], id);
    var c :| 0 <= c < j && trail[..j][c].CallPart? && trail[..j][c].callId == id;
    assert trail[c].CallPart? && trail[c].callId == id && HasCall(trail, id);
    k := EntryOf(Entries(trail), id);
    assert TellsLast(trail, Entries(trail)[k]);
  }

  // Two results that end on one handle are of two calls.
  lemma EndsDiffer(trail: seq<Part>, n: nat, i: nat, j: nat)
    requires Ends(trail, n, i) && Ends(trail, n, j) && trail[i].callId == trail[j].callId
    ensures i == j
  {
    if i < j {
      assert HandledFor(trail[j], trail[i].callId);
    } else if j < i {
      assert HandledFor(trail[i], trail[j].callId);
    }
  }

  /** However handles were issued, one resolves to exactly the calls whose last handle it is: to one if and only if
      one result ends on it, and to none if and only if none does. */
  lemma ResolvesToItsEnds(rows: seq<Row>, n: nat)
    requires Named(Trail(rows))
    ensures var (trail, entries) := (Trail(rows), Entries(Trail(rows)));
      && (forall k: nat :: Resolves(entries, n, k) ==>
            exists j: nat :: Ends(trail, n, j) && trail[j].callId == entries[k].callId)
      && (forall j: nat :: Ends(trail, n, j) ==>
            exists k: nat :: Resolves(entries, n, k) && entries[k].callId == trail[j].callId)
      && ((forall i: nat, k: nat :: Resolves(entries, n, i) && Resolves(entries, n, k) ==> i == k)
            <==> forall i: nat, j: nat :: Ends(trail, n, i) && Ends(trail, n, j) ==> i == j)
  {
    var trail, entries := Trail(rows), Entries(Trail(rows));
    EntriesTellTheLast(trail);
    forall k: nat | Resolves(entries, n, k)
      ensures exists j: nat :: Ends(trail, n, j) && trail[j].callId == entries[k].callId
    {
      var j := EntrySource(rows, k, n);
    }
    forall j: nat | Ends(trail, n, j)
      ensures exists k: nat :: Resolves(entries, n, k) && entries[k].callId == trail[j].callId
    {
      var k := CarrierResolves(rows, j, n);
    }
    forall i: nat, j: nat | Ends(trail, n, i) && Ends(trail, n, j) && trail[i].callId == trail[j].callId
      ensures i == j
    {
      EndsDiffer(trail, n, i, j);
    }
  }

  /** Where handles are numbered soundly, one on the trail resolves if and only if no later result of its call carries
      a handle, whatever was answered twice; then it names exactly one call, the one it was issued for, and quotes
      that call's last result. */
  lemma HandleResolvesIff(rows: seq<Row>, j: nat, n: nat)
    requires Consecutive(rows) && Named(Trail(rows)) && j < |Trail(rows)| && Carries(Trail(rows)[j], n)
    ensures var (trail, entries) := (Trail(rows), Entries(Trail(rows)));
      && ((exists k: nat :: Resolves(entries, n, k)) <==> !Reissued(trail, j))
      && (forall k: nat :: Resolves(entries, n, k) ==>
            entries[k].callId == trail[j].callId && entries[k].result == LastOutput(trail, trail[j].callId))
      && (forall i: nat, k: nat :: Resolves(entries, n, i) && Resolves(entries, n, k) ==> i == k)
  {
    var trail, entries := Trail(rows), Entries(Trail(rows));
    EntriesTellTheLast(trail);
    forall k: nat | Resolves(entries, n, k)
      ensures !Reissued(trail, j) && entries[k].callId == trail[j].callId
      ensures entries[k].result == LastOutput(trail, trail[j].callId)
    {
      var i := EntrySource(rows, k, n);
      OneSource(rows, n, i, j);
      assert TellsLast(trail, entries[k]);
    }
    if !Reissued(trail, j) {
      var k := CarrierResolves(rows, j, n);
    }
  }

  // The handles carried are e1 to eN.
  lemma CarriedIsInRange(rows: seq<Row>, n: nat)
    requires Consecutive(rows)
    ensures (exists j :: 0 <= j < |Trail(rows)| && Carries(Trail(rows)[j], n)) <==> 1 <= n <= |Handles(rows)|
  {
    TrailHandles(rows);
    CarriedMeans(Trail(rows), n);
    RangeHoldsOnce(|Handles(rows)|, n);
    assert n in PartHandles(Trail(rows)) <==> multiset(PartHandles(Trail(rows)))[n] > 0;
  }

  /** On an orderly trail a handle from e1 to eN names exactly one call, and that call has answered; any other
      names none. */
  lemma HandleNamesOneCall(rows: seq<Row>, n: nat)
    requires Consecutive(rows) && Orderly(Trail(rows))
    ensures var entries := Entries(Trail(rows));
      && (1 <= n <= |Handles(rows)| <==> exists k: nat :: Resolves(entries, n, k))
      && (forall i: nat, k: nat :: Resolves(entries, n, i) && Resolves(entries, n, k) ==> i == k)
  {
    var trail := Trail(rows);
    CarriedIsInRange(rows, n);
    if j: nat :| j < |trail| && Carries(trail[j], n) {
      HandleResolvesIff(rows, j, n);
      assert !Reissued(trail, j);
    }
    forall k: nat | Resolves(Entries(trail), n, k)
      ensures 1 <= n <= |Handles(rows)|
    {
      var j := EntrySource(rows, k, n);
    }
  }

  // ---------- A trail that grows ----------

  lemma {:induction false} TrailConcat(rows: seq<Row>, more: seq<Row>)
    ensures Trail(rows + more) == Trail(rows) + Trail(more)
    decreases |more|
  {
    if more == [] {
      assert rows + more == rows && Trail(rows) + [] == Trail(rows);
    } else {
      var n := |more| - 1;
      TrailConcat(rows, more[..n]);
      var all := rows + more;
      assert all[..|all| - 1] == rows + more[..n] && all[|all| - 1] == more[n];
      assert (Trail(rows) + Trail(more[..n])) + more[n].parts == Trail(rows) + (Trail(more[..n]) + more[n].parts);
    }
  }

  lemma {:induction false} LastsConcat(trail: seq<Part>, more: seq<Part>, id: CallId)
    ensures LastHandle(trail + more, id) == if LastHandle(more, id).Some? then LastHandle(more, id) else LastHandle(trail, id)
    ensures LastOutput(trail + more, id) == if LastOutput(more, id).Some? then LastOutput(more, id) else LastOutput(trail, id)
    ensures LastDecision(trail + more, id)
         == if LastDecision(more, id).Some? then LastDecision(more, id) else LastDecision(trail, id)
    decreases |more|
  {
    if more == [] {
      assert trail + more == trail;
    } else {
      var n := |more| - 1;
      LastsConcat(trail, more[..n], id);
      assert more[..n] + [more[n]] == more && trail + more == (trail + more[..n]) + [more[n]];
      LastsSnoc(more[..n], more[n], id);
      LastsSnoc(trail + more[..n], more[n], id);
    }
  }

  lemma HandleOfEntry(rows: seq<Row>, i: nat)
    requires Named(Trail(rows)) && i < |Entries(Trail(rows))|
    ensures TellsLast(Trail(rows), Entries(Trail(rows))[i])
  {
    EntriesTellTheLast(Trail(rows));
  }

  ghost predicate HandledIn(trail: seq<Part>, id: CallId) {
    exists j :: 0 <= j < |trail| && HandledFor(trail[j], id)
  }

  // Of what was reissued, which of it only since the trail had these parts.
  lemma ReissuedSince(trail: seq<Part>, more: seq<Part>, j: nat)
    requires j < |trail| && trail[j].ResultPart? && !Reissued(trail, j)
    ensures Reissued(trail + more, j) <==> HandledIn(more, trail[j].callId)
  {
    var all, id := trail + more, trail[j].callId;
    if HandledIn(more, id) {
      var m :| 0 <= m < |more| && HandledFor(more[m], id);
      assert all[|trail| + m] == more[m];
    }
    if Reissued(all, j) {
      var m :| j < m < |all| && HandledFor(all[m], id);
      if m < |trail| {
        assert HandledFor(trail[m], id);
      } else {
        assert more[m - |trail|] == all[m];
      }
    }
  }

  /** However the transcript grows, a citation that named a call goes on naming that call if and only if the call was
      given no handle since, or last the same one. */
  lemma CitationNamesIff(rows: seq<Row>, more: seq<Row>, n: nat, i: nat)
    requires Named(Trail(rows)) && Named(Trail(rows + more)) && Resolves(Entries(Trail(rows)), n, i)
    ensures var (was, later) := (Entries(Trail(rows))[i], Entries(Trail(rows + more)));
      var since := LastHandle(Trail(more), was.callId);
      (exists k: nat :: Resolves(later, n, k) && later[k].callId == was.callId) <==> since == None || since == Some(n)
  {
    var was, later := Entries(Trail(rows))[i], Entries(Trail(rows + more));
    TrailConcat(rows, more);
    HandleOfEntry(rows, i);
    LastsConcat(Trail(rows), Trail(more), was.callId);
    LastHandleIsAnswered(Trail(rows + more), was.callId);
    EntriesTellTheLast(Trail(rows + more));
    NamedHasEntry(rows + more, was.callId);
    var k := EntryOf(later, was.callId);
    assert TellsLast(Trail(rows + more), later[k]);
  }

  lemma NamedHasEntry(rows: seq<Row>, id: CallId)
    requires Named(Trail(rows)) && LastHandle(Trail(rows), id).Some?
    ensures EntryOf(Entries(Trail(rows)), id) < |Entries(Trail(rows))|
  {
    EntriesTellTheLast(Trail(rows));
    if !HasCall(Trail(rows), id) {
      NothingBeforeTheCall(Trail(rows), id);
    }
  }

  /** Where handles are numbered soundly, a citation that named a call goes on naming that call if and only if the call
      is not answered again under a handle; and while it is not answered again at all, it quotes what it quoted. */
  lemma CitationStandsIff(rows: seq<Row>, more: seq<Row>, n: nat, i: nat)
    requires Consecutive(rows + more) && Named(Trail(rows)) && Named(Trail(rows + more))
    requires Resolves(Entries(Trail(rows)), n, i)
    ensures var (was, later) := (Entries(Trail(rows))[i], Entries(Trail(rows + more)));
      && ((exists k: nat :: Resolves(later, n, k)) <==> !HandledIn(Trail(more), was.callId))
      && (forall k: nat :: Resolves(later, n, k) ==>
            && later[k].callId == was.callId
            && (LastOutput(Trail(more), was.callId).None? ==> later[k].result == was.result))
  {
    var was := Entries(Trail(rows))[i];
    TrailConcat(rows, more);
    var j := EntrySource(rows, i, n);
    ReissuedSince(Trail(rows), Trail(more), j);
    HandleResolvesIff(rows + more, j, n);
    assert was.result == LastOutput(Trail(rows), was.callId) by {
      HandleOfEntry(rows, i);
    }
    LastsConcat(Trail(rows), Trail(more), was.callId);
  }

  // ---------- Naming citations ----------

  function Issued(entries: seq<ToolCall>): set<nat> {
    set e | e in entries && e.evidence.Some? :: e.evidence.value
  }

  /** knownCitations: each id once, split by whether a handle was issued under it. */
  method KnownCitations(entries: seq<ToolCall>, ids: seq<nat>) returns (kept: seq<nat>, unknown: seq<nat>)
    ensures forall id :: id in kept <==> id in ids && id in Issued(entries)
    ensures forall id :: id in unknown <==> id in ids && id !in Issued(entries)
    ensures forall i, j :: 0 <= i < j < |kept| ==> kept[i] != kept[j]
  {
    kept, unknown := [], [];
    var seen: set<nat> := {};
    for i := 0 to |ids|
      invariant forall id :: id in seen <==> id in ids[..i]
      invariant forall id :: id in kept <==> id in seen && id in Issued(entries)
      invariant forall id :: id in unknown <==> id in seen && id !in Issued(entries)
      invariant forall a, b :: 0 <= a < b < |kept| ==> kept[a] != kept[b]
    {
      var id := ids[i];
      assert ids[..i + 1] == ids[..i] + [id];
      if id !in seen {
        if id in Issued(entries) { kept := kept + [id]; } else { unknown := unknown + [id]; }
      }
      seen := seen + {id};
    }
    assert ids[..|ids|] == ids;
  }

  lemma IssuedIsResolved(rows: seq<Row>, id: nat)
    requires Named(Trail(rows))
    ensures id in Issued(Entries(Trail(rows))) <==> exists k: nat :: Resolves(Entries(Trail(rows)), id, k)
  {
    var entries := Entries(Trail(rows));
    if id in Issued(entries) {
      var e :| e in entries && e.evidence == Some(id);
      var k :| 0 <= k < |entries| && entries[k] == e;
      var j := EntrySource(rows, k, id);
      assert Resolves(entries, id, k);
    }
    if k: nat :| Resolves(entries, id, k) {
      assert entries[k] in entries;
    }
  }

  // The newest handle of all is its call's last.
  lemma NewestResolves(rows: seq<Row>)
    requires Consecutive(rows) && Named(Trail(rows)) && Handles(rows) != []
    ensures |Handles(rows)| in Issued(Entries(Trail(rows)))
  {
    var trail, n := Trail(rows), |Handles(rows)|;
    CarriedIsInRange(rows, n);
    var j :| 0 <= j < |trail| && Carries(trail[j], n);
    TrailHandles(rows);
    forall i | j < i < |trail|
      ensures !HandledFor(trail[i], trail[j].callId)
    {
      if trail[i].ResultPart? && trail[i].evidence.Some? {
        var m := trail[i].evidence.value;
        assert Carries(trail[i], m);
        CarriedIsInRange(rows, m);
        LaterIsHigher(trail, j, i, n, m);
      }
    }
    HandleResolvesIff(rows, j, n);
    IssuedIsResolved(rows, n);
  }

  lemma HandlesBefore(trail: seq<Part>)
    requires trail != [] && PartHandles(trail) == Range(1, |PartHandles(trail)|)
    ensures var k := |trail| - 1;
      var front := PartHandles(trail[..k]);
      && front == Range(1, |front|)
      && (forall n :: Carries(trail[k], n) ==> n == |front| + 1)
  {
    var k := |trail| - 1;
    var front := PartHandles(trail[..k]);
    assert PartHandles(trail) == front + OwnHandle(trail[k]);
    assert front == PartHandles(trail)[..|front|];
    forall n | Carries(trail[k], n)
      ensures n == |front| + 1
    {
      assert n == PartHandles(trail)[|front|];
    }
  }

  // Handles rise along the trail.
  lemma {:induction false} LaterIsHigher(trail: seq<Part>, j: nat, i: nat, n: nat, m: nat)
    requires j < i < |trail| && Carries(trail[j], n) && Carries(trail[i], m)
    requires PartHandles(trail) == Range(1, |PartHandles(trail)|)
    ensures n < m
    decreases |trail|
  {
    var k := |trail| - 1;
    HandlesBefore(trail);
    if i < k {
      LaterIsHigher(trail[..k], j, i, n, m);
    } else {
      assert Carries(trail[..k][j], n);
      CarriedMeans(trail[..k], n);
    }
  }

  /** The range a refusal states runs to the newest handle, and every id known lies in it; it is exact if and only
      if no call was answered again under another handle. */
  lemma RefusalRangeIsExactIff(rows: seq<Row>)
    requires Consecutive(rows) && Named(Trail(rows))
    ensures var (trail, issued, n) := (Trail(rows), Issued(Entries(Trail(rows))), |Handles(rows)|);
      && (forall id :: id in issued ==> 1 <= id <= n)
      && (n > 0 ==> n in issued)
      && ((forall id: nat :: 1 <= id <= n ==> id in issued)
            <==> forall j :: 0 <= j < |trail| && trail[j].ResultPart? && trail[j].evidence.Some? ==> !Reissued(trail, j))
  {
    var (trail, issued, n) := (Trail(rows), Issued(Entries(Trail(rows))), |Handles(rows)|);
    if n > 0 {
      NewestResolves(rows);
    }
    forall j | 0 <= j < |trail| && trail[j].ResultPart? && trail[j].evidence.Some?
      ensures var id := trail[j].evidence.value; 1 <= id <= n && (id in issued <==> !Reissued(trail, j))
    {
      var id := trail[j].evidence.value;
      assert Carries(trail[j], id);
      CarriedIsInRange(rows, id);
      HandleResolvesIff(rows, j, id);
      IssuedIsResolved(rows, id);
    }
    forall id: nat
      ensures id in issued ==> exists j :: 0 <= j < |trail| && Carries(trail[j], id)
      ensures 1 <= id <= n <==> exists j :: 0 <= j < |trail| && Carries(trail[j], id)
    {
      CarriedIsInRange(rows, id);
      IssuedIsResolved(rows, id);
      if id in issued {
        var k: nat :| Resolves(Entries(trail), id, k);
        var j := EntrySource(rows, k, id);
      }
    }
  }

  datatype Quoted = Quoted(evidence: nat, callId: CallId, result: string)

  predicate Quotable(e: ToolCall, cited: set<nat>) {
    e.evidence.Some? && e.evidence.value in cited && e.result.Some?
  }

  function QuoteOf(e: ToolCall): Quoted
    requires e.evidence.Some? && e.result.Some?
  {
    Quoted(e.evidence.value, e.callId, e.result.value)
  }

  function Quotations(entries: seq<ToolCall>, cited: set<nat>): seq<Quoted> {
    if entries == [] then []
    else
      var last := entries[|entries| - 1];
      Quotations(entries[..|entries| - 1], cited) + (if Quotable(last, cited) then [QuoteOf(last)] else [])
  }

  method ResolveEvidence(entries: seq<ToolCall>, cited: set<nat>) returns (quoted: seq<Quoted>)
    ensures quoted == Quotations(entries, cited)
  {
    quoted := [];
    for i := 0 to |entries|
      invariant quoted == Quotations(entries[..i], cited)
    {
      assert entries[..i + 1][..i] == entries[..i];
      if Quotable(entries[i], cited) {
        quoted := quoted + [QuoteOf(entries[i])];
      }
    }
    assert entries[..|entries|] == entries;
  }

  lemma {:induction false} QuotationsMean(entries: seq<ToolCall>, cited: set<nat>)
    ensures forall q :: q in Quotations(entries, cited) <==>
              exists k :: 0 <= k < |entries| && Quotable(entries[k], cited) && QuoteOf(entries[k]) == q
    decreases |entries|
  {
    if entries != [] {
      QuotationsMean(entries[..|entries| - 1], cited);
    }
  }

  ghost predicate HandlesDiffer(entries: seq<ToolCall>) {
    forall i, k :: 0 <= i < k < |entries| && entries[i].evidence.Some? ==> entries[i].evidence != entries[k].evidence
  }

  lemma {:induction false} QuotationsDiffer(entries: seq<ToolCall>, cited: set<nat>, all: seq<Quoted>)
    requires HandlesDiffer(entries) && all == Quotations(entries, cited)
    ensures forall a, b :: 0 <= a < b < |all| ==> all[a].evidence != all[b].evidence
    decreases |entries|
  {
    if entries != [] {
      var front, last := entries[..|entries| - 1], entries[|entries| - 1];
      var quoted := Quotations(front, cited);
      QuotationsDiffer(front, cited, quoted);
      QuotationsMean(front, cited);
      assert all == quoted + (if Quotable(last, cited) then [QuoteOf(last)] else []);
      forall a, b | 0 <= a < b < |all|
        ensures all[a].evidence != all[b].evidence
      {
        assert all[a] == quoted[a] && quoted[a] in quoted;
        if b < |quoted| {
          assert all[b] == quoted[b] && quoted[a].evidence != quoted[b].evidence;
        } else {
          var k :| 0 <= k < |front| && Quotable(front[k], cited) && QuoteOf(front[k]) == quoted[a];
          assert entries[k] == front[k] && all[b] == QuoteOf(last);
          assert entries[k].evidence != entries[|entries| - 1].evidence;
        }
      }
    }
  }

  ghost predicate QuotesHandle(quoted: seq<Quoted>, n: nat, a: nat) {
    a < |quoted| && quoted[a].evidence == n
  }

  // What a report quotes for these citations, over this transcript.
  ghost predicate QuotedFrom(rows: seq<Row>, cited: set<nat>, quoted: seq<Quoted>) {
    Named(Trail(rows)) && quoted == Quotations(Entries(Trail(rows)), cited)
  }

  lemma QuotedEnds(rows: seq<Row>, cited: set<nat>, quoted: seq<Quoted>, n: nat, a: nat) returns (j: nat)
    requires QuotedFrom(rows, cited, quoted) && QuotesHandle(quoted, n, a)
    ensures n in cited && Ends(Trail(rows), n, j) && Trail(rows)[j].callId == quoted[a].callId
  {
    var entries := Entries(Trail(rows));
    QuotationsMean(entries, cited);
    assert quoted[a] in quoted;
    var k :| 0 <= k < |entries| && Quotable(entries[k], cited) && QuoteOf(entries[k]) == quoted[a];
    j := EntrySource(rows, k, n);
  }

  lemma EndIsQuoted(rows: seq<Row>, cited: set<nat>, quoted: seq<Quoted>, n: nat, j: nat) returns (a: nat)
    requires QuotedFrom(rows, cited, quoted) && n in cited && Ends(Trail(rows), n, j)
    ensures QuotesHandle(quoted, n, a) && quoted[a].callId == Trail(rows)[j].callId
  {
    var entries := Entries(Trail(rows));
    QuotationsMean(entries, cited);
    var k := CarrierResolves(rows, j, n);
    assert Quotable(entries[k], cited) && QuoteOf(entries[k]) in quoted;
    a :| 0 <= a < |quoted| && quoted[a] == QuoteOf(entries[k]);
  }

  ghost predicate QuotesCall(quoted: seq<Quoted>, n: nat, id: CallId) {
    exists a: nat :: QuotesHandle(quoted, n, a) && quoted[a].callId == id
  }

  // The handle is the last this call was given.
  ghost predicate EndsOnCall(trail: seq<Part>, n: nat, id: CallId) {
    exists j: nat :: Ends(trail, n, j) && trail[j].callId == id
  }

  lemma QuotesTheLast(rows: seq<Row>, cited: set<nat>, quoted: seq<Quoted>)
    requires QuotedFrom(rows, cited, quoted)
    ensures forall q :: q in quoted ==> LastOutput(Trail(rows), q.callId) == Some(q.result)
  {
    var entries := Entries(Trail(rows));
    EntriesTellTheLast(Trail(rows));
    QuotationsMean(entries, cited);
    forall q | q in quoted
      ensures LastOutput(Trail(rows), q.callId) == Some(q.result)
    {
      var k :| 0 <= k < |entries| && Quotable(entries[k], cited) && QuoteOf(entries[k]) == q;
      assert TellsLast(Trail(rows), entries[k]);
    }
  }

  /** On any trail a cited handle is quoted for exactly the calls whose last handle it is, and each quotation is its call's
      last result. */
  lemma QuotedForItsCalls(rows: seq<Row>, cited: set<nat>, quoted: seq<Quoted>, n: nat, id: CallId)
    requires QuotedFrom(rows, cited, quoted)
    ensures QuotesCall(quoted, n, id) <==> n in cited && EndsOnCall(Trail(rows), n, id)
    ensures forall q :: q in quoted ==> LastOutput(Trail(rows), q.callId) == Some(q.result)
  {
    QuotesTheLast(rows, cited, quoted);
    if QuotesCall(quoted, n, id) {
      var a: nat :| QuotesHandle(quoted, n, a) && quoted[a].callId == id;
      var j := QuotedEnds(rows, cited, quoted, n, a);
    }
    if n in cited && EndsOnCall(Trail(rows), n, id) {
      var j: nat :| Ends(Trail(rows), n, j) && Trail(rows)[j].callId == id;
      var a := EndIsQuoted(rows, cited, quoted, n, j);
    }
  }

  /** Where handles are numbered soundly, each is quoted once at most: if and only if it is cited and no later result
      of its call carries a handle. */
  lemma EachCitationQuotedOnce(rows: seq<Row>, cited: set<nat>, quoted: seq<Quoted>, n: nat)
    requires QuotedFrom(rows, cited, quoted) && Consecutive(rows)
    ensures forall a: nat, b: nat :: QuotesHandle(quoted, n, a) && QuotesHandle(quoted, n, b) ==> a == b
    ensures forall j :: 0 <= j < |Trail(rows)| && Carries(Trail(rows)[j], n) ==>
              ((exists a: nat :: QuotesHandle(quoted, n, a)) <==> n in cited && !Reissued(Trail(rows), j))
  {
    DistinctHandles(rows);
    QuotationsDiffer(Entries(Trail(rows)), cited, quoted);
    forall j: nat | j < |Trail(rows)| && Carries(Trail(rows)[j], n)
      ensures (exists a: nat :: QuotesHandle(quoted, n, a)) <==> n in cited && !Reissued(Trail(rows), j)
    {
      if n in cited && !Reissued(Trail(rows), j) {
        var a := EndIsQuoted(rows, cited, quoted, n, j);
      }
      if a: nat :| QuotesHandle(quoted, n, a) {
        var i := QuotedEnds(rows, cited, quoted, n, a);
        OneSource(rows, n, i, j);
      }
    }
  }

  lemma DistinctHandles(rows: seq<Row>)
    requires Consecutive(rows) && Named(Trail(rows))
    ensures HandlesDiffer(Entries(Trail(rows)))
  {
    var entries := Entries(Trail(rows));
    forall i, k | 0 <= i < k < |entries| && entries[i].evidence.Some?
      ensures entries[i].evidence != entries[k].evidence
    {
      if entries[i].evidence == entries[k].evidence {
        var n := entries[i].evidence.value;
        var a := EntrySource(rows, i, n);
        var b := EntrySource(rows, k, n);
        HandleResolvesIff(rows, a, n);
        assert Resolves(entries, n, i) && Resolves(entries, n, k);
      }
    }
  }

  // ---------- Released writes ----------

  predicate Released(e: ToolCall) {
    e.result.Some? && e.approved == Some(true)
  }

  // approvedWriteCount over gatedCalls
  function ApprovedWrites(entries: seq<ToolCall>): nat {
    if entries == [] then 0
    else ApprovedWrites(entries[..|entries| - 1]) + (if Released(entries[|entries| - 1]) then 1 else 0)
  }

  function ReleasedIds(entries: seq<ToolCall>): set<CallId> {
    set e | e in entries && Released(e) :: e.callId
  }

  // The calls that were approved and answered, by what the transcript says last of each.
  function ReleasedIn(rows: seq<Row>): set<CallId> {
    ReleasedIds(Entries(Trail(rows)))
  }

  lemma {:induction false} CountIsOfCalls(entries: seq<ToolCall>)
    requires forall i, j :: 0 <= i < j < |entries| ==> entries[i].callId != entries[j].callId
    ensures ApprovedWrites(entries) == |ReleasedIds(entries)|
    decreases |entries|
  {
    if entries != [] {
      var n := |entries| - 1;
      CountIsOfCalls(entries[..n]);
      assert entries == entries[..n] + [entries[n]];
      assert ReleasedIds(entries) == ReleasedIds(entries[..n]) + (if Released(entries[n]) then {entries[n].callId} else {});
      forall e | e in entries[..n]
        ensures e.callId != entries[n].callId
      {
        var i :| 0 <= i < n && entries[i] == e;
      }
    }
  }

  /** approvedWriteCount counts the calls whose last decision is an approval and which have a result. */
  lemma ReleasedMeans(rows: seq<Row>, id: CallId)
    requires Named(Trail(rows))
    ensures ApprovedWrites(Entries(Trail(rows))) == |ReleasedIn(rows)|
    ensures id in ReleasedIn(rows) <==> LastOutput(Trail(rows), id).Some? && LastDecision(Trail(rows), id) == Some(true)
  {
    var trail, entries := Trail(rows), Entries(Trail(rows));
    EntriesTellTheLast(trail);
    CountIsOfCalls(entries);
    if LastOutput(trail, id).Some? {
      if !HasCall(trail, id) {
        NothingBeforeTheCall(trail, id);
      }
      assert entries[EntryOf(entries, id)] in entries && TellsLast(trail, entries[EntryOf(entries, id)]);
    }
    forall e | e in entries && e.callId == id
      ensures TellsLast(trail, e)
    {
      var k :| 0 <= k < |entries| && entries[k] == e;
    }
  }

  lemma SizesDiffer<T>(a: set<T>, b: set<T>)
    ensures |b| - |a| == |b - a| - |a - b|
  {
    assert a == (a - b) + (a * b) && b == (b - a) + (a * b);
    assert |a| == |a - b| + |a * b| && |b| == |b - a| + |a * b|;
  }

  /** A write is released no more if and only if it was and its last decision since is a rejection. */
  lemma UnreleasedIff(rows: seq<Row>, more: seq<Row>, id: CallId)
    requires Named(Trail(rows)) && Named(Trail(rows + more))
    ensures id in ReleasedIn(rows) && id !in ReleasedIn(rows + more)
       <==> id in ReleasedIn(rows) && LastDecision(Trail(more), id) == Some(false)
  {
    var (trail, later) := (Trail(rows), Trail(more));
    TrailConcat(rows, more);
    LastsConcat(trail, later, id);
    ReleasedMeans(rows, id);
    ReleasedMeans(rows + more, id);
    match LastDecision(later, id)
    case Some(approved) => assert approved == true || approved == false;
    case None =>
  }

  /** The count of approved writes moves by the writes released since less those released no more. */
  lemma CountMoves(rows: seq<Row>, more: seq<Row>)
    requires Named(Trail(rows)) && Named(Trail(rows + more))
    ensures ApprovedWrites(Entries(Trail(rows + more))) - ApprovedWrites(Entries(Trail(rows)))
         == |ReleasedIn(rows + more) - ReleasedIn(rows)| - |ReleasedIn(rows) - ReleasedIn(rows + more)|
  {
    ReleasedMeans(rows, 0);
    ReleasedMeans(rows + more, 0);
    SizesDiffer(ReleasedIn(rows), ReleasedIn(rows + more));
  }
}
