/**
 Runner connections and the commands waiting on them, under every interleaving of
 replies, timeouts, closes and reconnects (apps/api/src/fleet/transport.ts,
 connections.ts, and the close handler of server.ts).

 A connection is the number of the socket it came on, so two sockets of one runner differ.
 Sending never throws: a socket that is going away drops the message.
 */
module Fleet {
  import opened Wrappers

  datatype Connection = Connection(runnerId: string, serverName: string, manifested: bool)

  datatype Command = Command(conn: nat, name: string)

  // How a command's promise ended.
  datatype Outcome = Fulfilled(result: string) | Rejected(error: string)

  // `closed` and `settled` are what has happened: the closes handled, and the promises that ended.
  datatype Net = Net(
    conns: seq<Connection>,
    registry: map<string, nat>,
    closed: set<nat>,
    pending: map<nat, Command>,
    settled: map<nat, Outcome>)

  const EMPTY := Net([], map[], {}, map[], map[])

  datatype Event =
    | Register(runnerId: string, serverName: string)
    | Manifest(runnerId: string)
    | Send(conn: nat, id: nat, name: string)
    | Reply(id: nat, outcome: Outcome)
    | Expire(id: nat)
    | Close(conn: nat)

  const DISCONNECTED := Rejected("runner disconnected before responding")
  const TIMED_OUT := Rejected("timed out")

  // ---------- Steps ----------

  predicate Issued(n: Net, id: nat) {
    id in n.pending || id in n.settled
  }

  // Only a registered connection whose manifest arrived is routable.
  predicate Routable(n: Net, conn: nat) {
    conn < |n.conns| && n.conns[conn].manifested
    && n.conns[conn].runnerId in n.registry && n.registry[n.conns[conn].runnerId] == conn
  }

  predicate Enabled(n: Net, e: Event) {
    match e
    case Send(conn, id, _) => Routable(n, conn) && !Issued(n, id)
    case Expire(id) => id in n.pending
    case Close(conn) => conn < |n.conns| && conn !in n.closed
    case _ => true
  }

  function Settle(n: Net, id: nat, outcome: Outcome): Net {
    if id in n.pending then n.(pending := n.pending - {id}, settled := n.settled[id := outcome]) else n
  }

  function OnConnection(pending: map<nat, Command>, conn: nat): set<nat> {
    set id | id in pending && pending[id].conn == conn
  }

  function PendingRejected(n: Net, ids: set<nat>): Net {
    n.(pending := n.pending - ids, settled := n.settled + map id | id in ids :: DISCONNECTED)
  }

  function Unregistered(n: Net, conn: nat): Net
    requires conn < |n.conns|
  {
    var id := n.conns[conn].runnerId;
    if id in n.registry && n.registry[id] == conn then n.(registry := n.registry - {id}) else n
  }

  function Step(n: Net, e: Event): Net
    requires Enabled(n, e)
  {
    match e
    case Register(runnerId, serverName) =>
      n.(conns := n.conns + [Connection(runnerId, serverName, false)], registry := n.registry[runnerId := |n.conns|])
    case Manifest(runnerId) =>
      if runnerId in n.registry && n.registry[runnerId] < |n.conns| then
        var c := n.registry[runnerId];
        n.(conns := n.conns[c := n.conns[c].(manifested := true)])
      else n
    case Send(conn, id, name) => n.(pending := n.pending[id := Command(conn, name)])
    case Reply(id, outcome) => Settle(n, id, outcome)
    case Expire(id) => Settle(n, id, TIMED_OUT)
    case Close(conn) =>
      Unregistered(PendingRejected(n, OnConnection(n.pending, conn)), conn).(closed := n.closed + {conn})
  }

  predicate Runs(n: Net, history: seq<Event>)
    decreases |history|
  {
    history == [] || (Enabled(n, history[0]) && Runs(Step(n, history[0]), history[1..]))
  }

  function After(n: Net, history: seq<Event>): Net
    requires Runs(n, history)
    decreases |history|
  {
    if history == [] then n else After(Step(n, history[0]), history[1..])
  }

  // ---------- What every history keeps ----------

  ghost predicate Sound(n: Net) {
    && n.pending.Keys !! n.settled.Keys
    && (forall id :: id in n.pending ==>
          n.pending[id].conn < |n.conns| && n.pending[id].conn !in n.closed && n.conns[n.pending[id].conn].manifested)
    && (forall r :: r in n.registry ==>
          n.registry[r] < |n.conns| && n.conns[n.registry[r]].runnerId == r && n.registry[r] !in n.closed)
    && (forall c :: c in n.closed ==> c < |n.conns|)
  }

  // A promise ends once: what has settled stays settled the same way, and no id is forgotten.
  ghost predicate Settles(before: Net, later: Net) {
    && (forall id :: id in before.settled ==> id in later.settled && later.settled[id] == before.settled[id])
    && (forall id :: Issued(before, id) ==> Issued(later, id))
  }

  lemma StepIsSound(n: Net, e: Event)
    requires Sound(n) && Enabled(n, e)
    ensures Sound(Step(n, e))
  {
  }

  lemma StepKeeps(n: Net, e: Event)
    requires Sound(n) && Enabled(n, e)
    ensures Sound(Step(n, e)) && Settles(n, Step(n, e))
    ensures forall id :: Issued(Step(n, e), id) ==> Issued(n, id) || (e.Send? && e.id == id)
  {
    StepIsSound(n, e);
  }

  // The event that ends a pending command's promise, and how it ends it: a reply with what it brought, the time running
  // out, or its own connection closing.
  ghost predicate EndsWith(e: Event, id: nat, command: Command, outcome: Outcome) {
    || e == Reply(id, outcome)
    || (e == Expire(id) && outcome == TIMED_OUT)
    || (e == Close(command.conn) && outcome == DISCONNECTED)
  }

  // A pending command stays as it is until its event comes, and then settles as that event has it.
  lemma StepEnds(n: Net, e: Event, id: nat)
    requires Sound(n) && Enabled(n, e)
    ensures id in n.pending ==> forall outcome ::
              id in Step(n, e).settled && Step(n, e).settled[id] == outcome <==> EndsWith(e, id, n.pending[id], outcome)
    ensures id in n.pending && id !in Step(n, e).settled ==> id in Step(n, e).pending && Step(n, e).pending[id] == n.pending[id]
    ensures id in Step(n, e).settled ==> id in n.settled || id in n.pending
  {
  }

  // Some event of the history ended this promise so, while it was pending.
  ghost predicate EndedIn(n: Net, history: seq<Event>, id: nat, outcome: Outcome)
    requires Runs(n, history)
    decreases |history|
  {
    history != [] && (|| (id in n.pending && EndsWith(history[0], id, n.pending[id], outcome))
                      || EndedIn(Step(n, history[0]), history[1..], id, outcome))
  }

  lemma {:induction false} SettledByItsEvent(n: Net, history: seq<Event>, id: nat)
    requires Sound(n) && Runs(n, history)
    ensures id !in n.settled && id in After(n, history).settled ==> EndedIn(n, history, id, After(n, history).settled[id])
    decreases |history|
  {
    if history != [] {
      var e, rest := history[0], history[1..];
      StepKeeps(n, e);
      StepEnds(n, e, id);
      HistoriesKeep(Step(n, e), rest);
      SettledByItsEvent(Step(n, e), rest, id);
    }
  }

  /** In every history a promise settles as its own event has it: a reply that came while it was pending with what that
      reply brought, its time running out, or the close of the connection it was sent on. */
  lemma EachSettlesAsToldBy(history: seq<Event>, id: nat)
    requires Runs(EMPTY, history)
    ensures id in After(EMPTY, history).settled ==> EndedIn(EMPTY, history, id, After(EMPTY, history).settled[id])
  {
    SettledByItsEvent(EMPTY, history, id);
  }

  predicate SentIn(history: seq<Event>, id: nat) {
    exists i :: 0 <= i < |history| && history[i].Send? && history[i].id == id
  }

  lemma {:induction false} HistoriesKeep(n: Net, history: seq<Event>)
    requires Sound(n) && Runs(n, history)
    ensures Sound(After(n, history)) && Settles(n, After(n, history))
    ensures forall id :: Issued(After(n, history), id) <==> Issued(n, id) || SentIn(history, id)
    decreases |history|
  {
    if history != [] {
      var e, rest := history[0], history[1..];
      StepKeeps(n, e);
      HistoriesKeep(Step(n, e), rest);
      forall id
        ensures SentIn(history, id) <==> (e.Send? && e.id == id) || SentIn(rest, id)
      {
        if SentIn(rest, id) {
          var i :| 0 <= i < |rest| && rest[i].Send? && rest[i].id == id;
          assert history[i + 1] == rest[i];
        }
      }
    }
  }

  /** In every history each id ever sent is either pending or settled, never both, no command waits on a connection whose
      manifest has yet to come or whose close was handled, and what settled before stays as it was. */
  lemma EachCommandSettlesOnce(history: seq<Event>, more: seq<Event>)
    requires Runs(EMPTY, history) && Runs(After(EMPTY, history), more)
    ensures var n, later := After(EMPTY, history), After(After(EMPTY, history), more);
      && (forall id :: SentIn(history, id) <==> id in n.pending || id in n.settled)
      && (forall id :: !(id in n.pending && id in n.settled))
      && (forall id :: id in n.pending ==>
            n.pending[id].conn !in n.closed && n.pending[id].conn < |n.conns| && n.conns[n.pending[id].conn].manifested)
      && (forall id :: id in n.settled ==> id in later.settled && later.settled[id] == n.settled[id])
  {
    HistoriesKeep(EMPTY, history);
    HistoriesKeep(After(EMPTY, history), more);
  }

  /** A displaced socket's late close, whatever happens in between, leaves its replacement registered
      unless the replacement itself closed or was displaced. */
  lemma {:induction false} LateCloseSparesReplacement(n: Net, r: string, s: string, more: seq<Event>, stale: nat)
    requires Sound(n) && stale < |n.conns| && n.conns[stale].runnerId == r && stale !in n.closed
    requires Runs(Step(n, Register(r, s)), more)
    requires forall i :: 0 <= i < |more| ==> more[i] != Close(|n.conns|) && !(more[i].Register? && more[i].runnerId == r)
    ensures var later := After(Step(n, Register(r, s)), more);
      && r in later.registry && later.registry[r] == |n.conns|
      && (stale !in later.closed ==>
            Enabled(later, Close(stale)) && r in Step(later, Close(stale)).registry
            && Step(later, Close(stale)).registry[r] == |n.conns|)
  {
    StepKeeps(n, Register(r, s));
    StaysRegistered(Step(n, Register(r, s)), r, |n.conns|, more);
  }

  lemma {:induction false} StaysRegistered(n: Net, r: string, c: nat, more: seq<Event>)
    requires Sound(n) && Runs(n, more) && r in n.registry && n.registry[r] == c
    requires forall i :: 0 <= i < |more| ==> more[i] != Close(c) && !(more[i].Register? && more[i].runnerId == r)
    ensures var later := After(n, more);
      Sound(later) && r in later.registry && later.registry[r] == c && |n.conns| <= |later.conns|
      && forall k :: 0 <= k < |n.conns| ==> later.conns[k].runnerId == n.conns[k].runnerId
    decreases |more|
  {
    if more != [] {
      StepKeeps(n, more[0]);
      assert forall i :: 0 <= i < |more[1..]| ==> more[1..][i] == more[i + 1];
      StaysRegistered(Step(n, more[0]), r, c, more[1..]);
    }
  }

  // ---------- The tables themselves ----------

  datatype Answer = Answer(server: string, result: string)

  function Said(outcome: Outcome): string {
    match outcome
    case Fulfilled(result) => result
    case Rejected(error) => "Error: " + error
  }

  function CountFulfilled(outcomes: seq<Outcome>): nat {
    if outcomes == [] then 0
    else CountFulfilled(outcomes[..|outcomes| - 1]) + (if outcomes[|outcomes| - 1].Fulfilled? then 1 else 0)
  }

  lemma {:induction false} CountIsOfFulfilled(outcomes: seq<Outcome>)
    ensures CountFulfilled(outcomes) == |set i | 0 <= i < |outcomes| && outcomes[i].Fulfilled?|
    decreases |outcomes|
  {
    if outcomes != [] {
      var n := |outcomes| - 1;
      CountIsOfFulfilled(outcomes[..n]);
      var front, all := set i | 0 <= i < n && outcomes[..n][i].Fulfilled?, set i | 0 <= i < |outcomes| && outcomes[i].Fulfilled?;
      assert all == front + (if outcomes[n].Fulfilled? then {n} else {});
    }
  }

  function OutcomesOf(settled: map<nat, Outcome>, ids: seq<nat>): (outcomes: seq<Outcome>)
    requires forall i :: 0 <= i < |ids| ==> ids[i] in settled
    ensures |outcomes| == |ids| && forall i :: 0 <= i < |ids| ==> outcomes[i] == settled[ids[i]]
  {
    seq(|ids|, i requires 0 <= i < |ids| => settled[ids[i]])
  }

  class Transport {
    var conns: seq<Connection>
    var registry: map<string, nat>
    var pending: map<nat, Command>
    ghost var closed: set<nat>
    var settled: map<nat, Outcome>

    constructor ()
      ensures State() == EMPTY
    {
      conns, registry, pending, closed, settled := [], map[], map[], {}, map[];
    }

    ghost function State(): Net
      reads this
    {
      Net(conns, registry, closed, pending, settled)
    }

    method RegisterRunner(runnerId: string, serverName: string) returns (conn: nat)
      modifies this
      ensures State() == Step(old(State()), Register(runnerId, serverName)) && conn == |old(conns)|
    {
      conn := |conns|;
      conns := conns + [Connection(runnerId, serverName, false)];
      registry := registry[runnerId := conn];
    }

    // A displaced socket's late close must not take its replacement with it.
    method UnregisterRunner(conn: nat) returns (removed: bool)
      requires conn < |conns|
      modifies this`registry
      ensures State() == Unregistered(old(State()), conn)
      ensures removed <==> registry != old(registry)
    {
      var id := conns[conn].runnerId;
      if id !in registry || registry[id] != conn {
        return false;
      }
      registry := registry - {id};
      return true;
    }

    method SetRunnerManifest(runnerId: string)
      modifies this`conns
      ensures State() == Step(old(State()), Manifest(runnerId))
    {
      if runnerId in registry && registry[runnerId] < |conns| {
        var c := registry[runnerId];
        conns := conns[c := conns[c].(manifested := true)];
      }
    }

    method Dispatch(conn: nat, id: nat, name: string)
      requires Enabled(State(), Send(conn, id, name))
      modifies this`pending
      ensures State() == Step(old(State()), Send(conn, id, name))
    {
      pending := pending[id := Command(conn, name)];
    }

    /** resolveCommand: a late or unknown reply goes nowhere. */
    method ResolveCommand(id: nat, outcome: Outcome)
      modifies this`pending, this`settled
      ensures State() == Step(old(State()), Reply(id, outcome))
      ensures pending == old(pending) - {id}
      ensures settled == if id in old(pending) then old(settled)[id := outcome] else old(settled)
    {
      if id in pending {
        pending, settled := pending - {id}, settled[id := outcome];
      }
    }

    /** rejectPendingForConnection: every command the socket carried, and no other. */
    method RejectPendingForConnection(conn: nat)
      modifies this`pending, this`settled
      ensures State() == PendingRejected(old(State()), OnConnection(old(pending), conn))
      ensures forall id :: id in old(pending) && old(pending)[id].conn == conn ==>
                id !in pending && id in settled && settled[id] == DISCONNECTED
      ensures forall id :: id in old(pending) && old(pending)[id].conn != conn ==> id in pending && pending[id] == old(pending)[id]
    {
      ghost var n := State();
      ghost var all := OnConnection(pending, conn);
      var left := OnConnection(pending, conn);
      while left != {}
        invariant left <= all && OnConnection(pending, conn) == left
        invariant pending == n.pending - (all - left)
        invariant settled == n.settled + map id | id in all - left :: DISCONNECTED
        decreases left
      {
        var id :| id in left;
        pending, settled := pending - {id}, settled[id := DISCONNECTED];
        left := left - {id};
      }
      assert all - left == all;
    }

    /** The socket's close handler. */
    method HandleClose(conn: nat) returns (removed: bool)
      requires Enabled(State(), Close(conn))
      modifies this
      ensures State() == Step(old(State()), Close(conn))
    {
      RejectPendingForConnection(conn);
      removed := UnregisterRunner(conn);
      closed := closed + {conn};
    }

    // The fan-out: one command to each connection, in order.
    method DispatchAll(targets: seq<nat>, ids: seq<nat>, name: string)
      requires |targets| == |ids| && forall i :: 0 <= i < |targets| ==> Routable(State(), targets[i])
      requires forall i :: 0 <= i < |ids| ==> !Issued(State(), ids[i])
      requires forall i, j :: 0 <= i < j < |ids| ==> ids[i] != ids[j]
      modifies this`pending
      ensures forall i :: 0 <= i < |ids| ==> ids[i] in pending && pending[ids[i]] == Command(targets[i], name)
      ensures forall id :: id in old(pending) ==> id in pending && pending[id] == old(pending)[id]
      ensures old(Sound(State())) ==> Sound(State())
    {
      for i := 0 to |targets|
        invariant forall k :: 0 <= k < |targets| ==> Routable(State(), targets[k])
        invariant forall k :: i <= k < |ids| ==> !Issued(State(), ids[k])
        invariant forall k :: 0 <= k < i ==> ids[k] in pending && pending[ids[k]] == Command(targets[k], name)
        invariant forall id :: id in old(pending) ==> id in pending && pending[id] == old(pending)[id]
        invariant old(Sound(State())) ==> Sound(State())
      {
        if old(Sound(State())) {
          StepKeeps(State(), Send(targets[i], ids[i], name));
        }
        Dispatch(targets[i], ids[i], name);
      }
    }

    /** The fan-out's envelope, once each command has settled: an entry a server asked, in the order they
        were asked, and counts that sum to them. */
    method Envelope(targets: seq<nat>, ids: seq<nat>) returns (byServer: seq<Answer>, succeeded: nat, failed: nat)
      requires |targets| == |ids| && forall i :: 0 <= i < |ids| ==> targets[i] < |conns| && ids[i] in settled
      ensures |byServer| == |targets| && succeeded + failed == |targets|
      ensures forall i :: 0 <= i < |targets| ==>
                && byServer[i].server == conns[targets[i]].serverName
                && byServer[i].result == match settled[ids[i]] case Fulfilled(result) => result case Rejected(error) => "Error: " + error
      ensures succeeded == |set i | 0 <= i < |ids| && settled[ids[i]].Fulfilled?|
    {
      byServer, succeeded := [], 0;
      ghost var outcomes := OutcomesOf(settled, ids);
      for i := 0 to |targets|
        invariant |byServer| == i
        invariant forall k :: 0 <= k < i ==> byServer[k] == Answer(conns[targets[k]].serverName, Said(settled[ids[k]]))
        invariant succeeded == CountFulfilled(outcomes[..i]) <= i
      {
        assert outcomes[..i + 1][..i] == outcomes[..i];
        if settled[ids[i]].Fulfilled? {
          succeeded := succeeded + 1;
        }
        byServer := byServer + [Answer(conns[targets[i]].serverName, Said(settled[ids[i]]))];
      }
      assert outcomes[..|ids|] == outcomes;
      failed := |byServer| - succeeded;
      CountIsOfFulfilled(outcomes);
      assert (set i | 0 <= i < |ids| && settled[ids[i]].Fulfilled?) == set i | 0 <= i < |outcomes| && outcomes[i].Fulfilled?;
    }
  }
}
