/**
 The alerts table: the queue before a session owns a row, and the coverage that
 decides which investigation an arriving alert joins
 (apps/api/src/session/alerts-store.ts, apps/api/src/session/store.ts).

 Rows stand in id order. A row's id is its position.
 */
module AlertTable {
  import opened Wrappers
  import opened SessionTables

  type SessionId = nat

  // What dedup keys on: the sender's fingerprint and when this firing began.
  datatype Firing = Firing(source: string, firedAt: string)

  datatype AlertRow = AlertRow(
    owner: Option<SessionId>,
    group: string,
    firing: Firing,
    arrivedAt: int,
    clearedAt: Option<int>,
    injected: bool)

  function NewRow(owner: Option<SessionId>, group: string, firing: Firing, now: int): AlertRow {
    AlertRow(owner, group, firing, now, None, owner.Some?)
  }

  predicate Waiting(row: AlertRow) {
    row.owner.None? && row.clearedAt.None?
  }

  predicate WaitsIn(row: AlertRow, group: string) {
    Waiting(row) && row.group == group
  }

  // ---------- The statements ----------

  function Enqueued(rows: seq<AlertRow>, group: string, firings: seq<Firing>, now: int): seq<AlertRow> {
    rows + seq(|firings|, i requires 0 <= i < |firings| => NewRow(None, group, firings[i], now))
  }

  function Injected(rows: seq<AlertRow>, id: SessionId, group: string, firings: seq<Firing>, now: int): seq<AlertRow> {
    rows + seq(|firings|, i requires 0 <= i < |firings| => NewRow(Some(id), group, firings[i], now))
  }

  function ClearRow(row: AlertRow, firing: Firing, now: int): AlertRow {
    if row.firing == firing && row.clearedAt.None? then row.(clearedAt := Some(now)) else row
  }

  function Cleared(rows: seq<AlertRow>, firing: Firing, now: int): (r: seq<AlertRow>)
    ensures |r| == |rows| && forall i :: 0 <= i < |rows| ==> r[i] == ClearRow(rows[i], firing, now)
  {
    seq(|rows|, i requires 0 <= i < |rows| => ClearRow(rows[i], firing, now))
  }

  function AssignRow(row: AlertRow, group: string, id: SessionId): AlertRow {
    if WaitsIn(row, group) then row.(owner := Some(id)) else row
  }

  function Assigned(rows: seq<AlertRow>, group: string, id: SessionId): (r: seq<AlertRow>)
    ensures |r| == |rows| && forall i :: 0 <= i < |rows| ==> r[i] == AssignRow(rows[i], group, id)
  {
    seq(|rows|, i requires 0 <= i < |rows| => AssignRow(rows[i], group, id))
  }

  // ---------- Reading it ----------

  predicate IsCovered(rows: seq<AlertRow>, firing: Firing) {
    exists i :: 0 <= i < |rows| && rows[i].firing == firing && rows[i].clearedAt.None?
  }

  function CountOwned(rows: seq<AlertRow>, id: SessionId): nat {
    if rows == [] then 0
    else CountOwned(rows[..|rows| - 1], id) + (if rows[|rows| - 1].owner == Some(id) then 1 else 0)
  }

  function CountOpen(rows: seq<AlertRow>, id: SessionId): nat {
    if rows == [] then 0
    else CountOpen(rows[..|rows| - 1], id)
         + (if rows[|rows| - 1].owner == Some(id) && rows[|rows| - 1].clearedAt.None? then 1 else 0)
  }

  function FactsOf(rows: seq<AlertRow>, id: SessionId): AlertFacts {
    AlertFacts(CountOwned(rows, id), CountOpen(rows, id))
  }

  function CountWaiting(rows: seq<AlertRow>): nat {
    if rows == [] then 0
    else CountWaiting(rows[..|rows| - 1]) + (if Waiting(rows[|rows| - 1]) then 1 else 0)
  }

  // The waiting row that arrived first, the lowest id among ties; |rows| when nothing waits.
  function OldestWaiting(rows: seq<AlertRow>): (head: nat)
    ensures head <= |rows|
    ensures head < |rows| ==> Waiting(rows[head])
    ensures head < |rows| ==> forall i :: 0 <= i < |rows| && Waiting(rows[i]) ==>
              rows[head].arrivedAt < rows[i].arrivedAt || (rows[head].arrivedAt == rows[i].arrivedAt && head <= i)
    ensures head == |rows| ==> forall i :: 0 <= i < |rows| ==> !Waiting(rows[i])
  {
    if rows == [] then 0
    else
      var n := |rows| - 1;
      var front := rows[..n];
      var head := OldestWaiting(front);
      assert forall i :: 0 <= i < n ==> front[i] == rows[i];
      if Waiting(rows[n]) && (head == n || rows[n].arrivedAt < rows[head].arrivedAt) then n
      else if head == n then |rows|
      else head
  }

  // ---------- Conservation ----------

  // No row is lost, moved or rewritten; it gains an owner at most once and a clear stamp at most once,
  // and a row cleared while it waited is never given to anybody.
  ghost predicate RowEvolves(before: AlertRow, later: AlertRow) {
    && later.group == before.group && later.firing == before.firing
    && later.arrivedAt == before.arrivedAt && later.injected == before.injected
    && (before.owner.Some? ==> later.owner == before.owner)
    && (before.clearedAt.Some? ==> later.clearedAt == before.clearedAt)
    && (before.owner.None? && before.clearedAt.Some? ==> later.owner.None?)
  }

  ghost predicate Evolves(before: seq<AlertRow>, later: seq<AlertRow>) {
    && |before| <= |later|
    && forall i :: 0 <= i < |before| ==> RowEvolves(before[i], later[i])
  }

  lemma EvolvesIsTransitive(a: seq<AlertRow>, b: seq<AlertRow>, c: seq<AlertRow>)
    requires Evolves(a, b) && Evolves(b, c)
    ensures Evolves(a, c)
  {
    forall i | 0 <= i < |a|
      ensures RowEvolves(a[i], c[i])
    {
      assert RowEvolves(a[i], b[i]) && RowEvolves(b[i], c[i]);
    }
  }

  // One statement on the table, whoever issues it.
  datatype Statement =
    | Enqueue(group: string, firings: seq<Firing>, now: int)
    | Inject(id: SessionId, group: string, firings: seq<Firing>, now: int)
    | Clear(firing: Firing, now: int)
    | Assign(group: string, id: SessionId)

  function Executed(rows: seq<AlertRow>, s: Statement): seq<AlertRow> {
    match s
    case Enqueue(group, firings, now) => Enqueued(rows, group, firings, now)
    case Inject(id, group, firings, now) => Injected(rows, id, group, firings, now)
    case Clear(firing, now) => Cleared(rows, firing, now)
    case Assign(group, id) => Assigned(rows, group, id)
  }

  function ExecutedAll(rows: seq<AlertRow>, statements: seq<Statement>): seq<AlertRow>
    decreases |statements|
  {
    if statements == [] then rows else ExecutedAll(Executed(rows, statements[0]), statements[1..])
  }

  /** Alert rows are conserved under every interleaving of the statements: each stays where it is, is never
      rewritten, and gains an owner and a clear stamp at most once each. */
  lemma {:induction false} RowsAreConserved(rows: seq<AlertRow>, statements: seq<Statement>)
    ensures Evolves(rows, ExecutedAll(rows, statements))
    decreases |statements|
  {
    if statements == [] {
      assert forall i :: 0 <= i < |rows| ==> RowEvolves(rows[i], rows[i]);
    } else {
      var next := Executed(rows, statements[0]);
      assert forall i :: 0 <= i < |rows| ==> RowEvolves(rows[i], next[i]);
      RowsAreConserved(next, statements[1..]);
      EvolvesIsTransitive(rows, next, ExecutedAll(next, statements[1..]));
    }
  }

  // ---------- No firing is open twice ----------

  ghost predicate OneOpenEach(rows: seq<AlertRow>) {
    forall i, j :: 0 <= i < j < |rows| && rows[i].clearedAt.None? && rows[j].clearedAt.None? ==>
      rows[i].firing != rows[j].firing
  }

  ghost predicate Distinct(firings: seq<Firing>) {
    forall i, j :: 0 <= i < j < |firings| ==> firings[i] != firings[j]
  }

  // Rows of uncovered firings, appended in one delivery.
  lemma AppendingFirings(rows: seq<AlertRow>, added: seq<AlertRow>, firings: seq<Firing>)
    requires OneOpenEach(rows) && |added| == |firings|
    requires forall i :: 0 <= i < |added| ==> added[i].firing == firings[i] && added[i].clearedAt.None?
    requires forall i :: 0 <= i < |firings| ==> !IsCovered(rows, firings[i])
    ensures OneOpenEach(rows + added) <==> Distinct(firings)
  {
    var all, n := rows + added, |rows|;
    if OneOpenEach(all) {
      forall i, j | 0 <= i < j < |firings|
        ensures firings[i] != firings[j]
      {
        assert all[n + i] == added[i] && all[n + j] == added[j];
      }
    }
    if Distinct(firings) {
      forall i, j | 0 <= i < j < |all| && all[i].clearedAt.None? && all[j].clearedAt.None?
        ensures all[i].firing != all[j].firing
      {
        if i < n <= j {
          assert !IsCovered(rows, firings[j - n]);
        }
      }
    }
  }

  // ---------- Counting ----------

  lemma {:induction false} AssigningEmptiesTheQueue(rows: seq<AlertRow>, group: string, id: SessionId)
    ensures CountWaiting(Assigned(rows, group, id)) <= CountWaiting(rows)
    ensures (exists i :: 0 <= i < |rows| && WaitsIn(rows[i], group)) ==>
              CountWaiting(Assigned(rows, group, id)) < CountWaiting(rows)
    decreases |rows|
  {
    if rows != [] {
      var n := |rows| - 1;
      AssigningEmptiesTheQueue(rows[..n], group, id);
      assert Assigned(rows, group, id)[..n] == Assigned(rows[..n], group, id);
      if exists i :: 0 <= i < |rows| && WaitsIn(rows[i], group) {
        var i :| 0 <= i < |rows| && WaitsIn(rows[i], group);
        if i < n {
          assert WaitsIn(rows[..n][i], group);
        }
      }
    }
  }

  ghost predicate Owns(rows: seq<AlertRow>, id: SessionId) {
    exists i :: 0 <= i < |rows| && rows[i].owner == Some(id)
  }

  ghost predicate OwnsOpen(rows: seq<AlertRow>, id: SessionId) {
    exists i :: 0 <= i < |rows| && rows[i].owner == Some(id) && rows[i].clearedAt.None?
  }

  /** The counts a status reads: whether the session owns an alert, and whether one it owns is open. */
  lemma {:induction false} FactsMean(rows: seq<AlertRow>, id: SessionId)
    ensures FactsOf(rows, id).total > 0 <==> Owns(rows, id)
    ensures FactsOf(rows, id).open > 0 <==> OwnsOpen(rows, id)
    decreases |rows|
  {
    if rows != [] {
      var n := |rows| - 1;
      FactsMean(rows[..n], id);
      if Owns(rows, id) && rows[n].owner != Some(id) {
        var i :| 0 <= i < |rows| && rows[i].owner == Some(id);
        assert rows[..n][i] == rows[i];
      }
      if OwnsOpen(rows, id) && !(rows[n].owner == Some(id) && rows[n].clearedAt.None?) {
        var i :| 0 <= i < |rows| && rows[i].owner == Some(id) && rows[i].clearedAt.None?;
        assert rows[..n][i] == rows[i];
      }
    }
  }

  // Rows nobody gave to this session leave its facts as they were.
  lemma {:induction false} FactsDepend(before: seq<AlertRow>, later: seq<AlertRow>, id: SessionId)
    requires |before| == |later|
    requires forall i :: 0 <= i < |before| ==>
      (before[i].owner == Some(id) <==> later[i].owner == Some(id))
      && (before[i].owner == Some(id) ==> before[i].clearedAt == later[i].clearedAt)
    ensures FactsOf(before, id) == FactsOf(later, id)
    decreases |before|
  {
    if before != [] {
      FactsDepend(before[..|before| - 1], later[..|later| - 1], id);
    }
  }
}
