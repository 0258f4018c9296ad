/**
 One turn's tool calls: classified in order without running anything, then run, with
 consecutive reads in flight together (apps/api/src/agent/loop/turn.ts).

 A tool call is a machine that takes steps on the world it shares with every other
 call. The scheduler of a read batch may interleave those steps in any way.
 */
module TurnPipeline {
  import opened Wrappers
  import opened Transcript
  import opened SessionTables

  datatype ToolUse = ToolUse(callId: CallId, name: string, input: string)

  datatype Tool = Tool(name: string, effect: Effect)

  datatype Elicitation = Elicitation(name: string)

  datatype Offered = Offered(tools: seq<Tool>, elicitations: seq<Elicitation>)

  // What the turn consults: the user's policies, input parsing, and the wording of its refusals.
  datatype Rules = Rules(
    policy: (Tool, string) -> Policy,
    invalid: (Elicitation, string) -> Option<string>,
    notRun: (string, string) -> string,
    unavailable: (string, seq<string>, nat) -> string,
    alreadyRefused: map<string, nat>)

  // A running call: where it starts, its next step, how many it may still take, and what it said when done.
  datatype Machine<!W(!new), !L(!new)> = Machine(
    start: (Tool, ToolUse) -> L,
    step: (W, Tool, L) -> (W, L),
    left: L -> nat,
    said: L -> (string, bool))

  datatype Asked = Asked(use: ToolUse, kind: GateKind)

  datatype Call = Call(use: ToolUse, tool: Tool)

  datatype Step = AnswerStep(result: ToolResult) | GateStep | RunStep(call: Call)

  datatype Classified = Classified(steps: seq<Step>, gated: Option<Asked>, refused: seq<string>)

  // ---------- Looking a name up ----------

  function FindTool(tools: seq<Tool>, name: string): (t: Option<Tool>)
    ensures t.Some? ==>
      exists k :: 0 <= k < |tools| && t.value == tools[k] && tools[k].name == name && forall j :: 0 <= j < k ==> tools[j].name != name
    ensures t.None? ==> forall i :: 0 <= i < |tools| ==> tools[i].name != name
  {
    if tools == [] then None
    else if tools[0].name == name then Some(tools[0])
    else FindTool(tools[1..], name)
  }

  function FindElicitation(elicitations: seq<Elicitation>, name: string): (e: Option<Elicitation>)
    ensures e.Some? ==>
      exists k :: 0 <= k < |elicitations| && e.value == elicitations[k] && elicitations[k].name == name
        && forall j :: 0 <= j < k ==> elicitations[j].name != name
    ensures e.None? ==> forall i :: 0 <= i < |elicitations| ==> elicitations[i].name != name
  {
    if elicitations == [] then None
    else if elicitations[0].name == name then Some(elicitations[0])
    else FindElicitation(elicitations[1..], name)
  }

  function OfferedNames(offered: Offered): seq<string> {
    seq(|offered.tools|, i requires 0 <= i < |offered.tools| => offered.tools[i].name)
    + seq(|offered.elicitations|, i requires 0 <= i < |offered.elicitations| => offered.elicitations[i].name)
  }

  // ---------- What a call needs, read off what is offered ----------

  // A name means the first that is offered under it, and a tool before an elicitation.
  ghost predicate FoundTool(offered: Offered, name: string, t: nat) {
    && t < |offered.tools| && offered.tools[t].name == name
    && forall j :: 0 <= j < t ==> offered.tools[j].name != name
  }

  ghost predicate NoTool(offered: Offered, name: string) {
    forall j :: 0 <= j < |offered.tools| ==> offered.tools[j].name != name
  }

  ghost predicate FoundElicitation(offered: Offered, name: string, e: nat) {
    && NoTool(offered, name)
    && e < |offered.elicitations| && offered.elicitations[e].name == name
    && forall j :: 0 <= j < e ==> offered.elicitations[j].name != name
  }

  ghost predicate Nothing(offered: Offered, name: string) {
    NoTool(offered, name) && forall j :: 0 <= j < |offered.elicitations| ==> offered.elicitations[j].name != name
  }

  ghost predicate NeedsApproval(rules: Rules, offered: Offered, use: ToolUse) {
    exists t: nat :: FoundTool(offered, use.name, t) && rules.policy(offered.tools[t], use.input) == Approve
  }

  ghost predicate NeedsAnswer(rules: Rules, offered: Offered, use: ToolUse) {
    exists e: nat :: FoundElicitation(offered, use.name, e) && rules.invalid(offered.elicitations[e], use.input).None?
  }

  ghost predicate NeedsPerson(rules: Rules, offered: Offered, use: ToolUse) {
    NeedsApproval(rules, offered, use) || NeedsAnswer(rules, offered, use)
  }

  // The first call that needs a person stands at k; at |uses| when none does.
  ghost predicate FirstInNeed(rules: Rules, offered: Offered, uses: seq<ToolUse>, k: nat) {
    && k <= |uses|
    && (forall j :: 0 <= j < k ==> !NeedsPerson(rules, offered, uses[j]))
    && (k < |uses| ==> NeedsPerson(rules, offered, uses[k]))
  }

  // What the gate on this call asks a person for.
  ghost function GateFor(rules: Rules, offered: Offered, use: ToolUse): Asked {
    Asked(use, if NeedsApproval(rules, offered, use) then GateKind.Approval else Clarification)
  }

  // The call that may run for this use: of the tool found under its name, whose policy lets it.
  ghost predicate MayRun(rules: Rules, offered: Offered, use: ToolUse, call: Call) {
    && call.use == use && rules.policy(call.tool, use.input) == Auto
    && exists t: nat :: FoundTool(offered, use.name, t) && call.tool == offered.tools[t]
  }

  // ---------- The rule one call at a time ----------

  // Which gate this call raises, when it is the first of its turn to raise one.
  function GateOf(rules: Rules, offered: Offered, use: ToolUse): Option<GateKind> {
    match FindTool(offered.tools, use.name)
    case Some(tool) => if rules.policy(tool, use.input) == Approve then Some(GateKind.Approval) else None
    case None =>
      match FindElicitation(offered.elicitations, use.name)
      case Some(e) => if rules.invalid(e, use.input).None? then Some(Clarification) else None
      case None => None
  }

  lemma LookUp(offered: Offered, name: string)
    ensures var t := FindTool(offered.tools, name);
      && (t.None? <==> NoTool(offered, name))
      && (t.Some? ==> exists k: nat :: FoundTool(offered, name, k) && t.value == offered.tools[k])
    ensures NoTool(offered, name) ==>
      var e := FindElicitation(offered.elicitations, name);
      && (e.None? <==> Nothing(offered, name))
      && (e.Some? ==> exists k: nat :: FoundElicitation(offered, name, k) && e.value == offered.elicitations[k])
  {
  }

  lemma OneFound(offered: Offered, name: string)
    ensures forall j: nat, k: nat :: FoundTool(offered, name, j) && FoundTool(offered, name, k) ==> j == k
    ensures forall j: nat, k: nat :: FoundElicitation(offered, name, j) && FoundElicitation(offered, name, k) ==> j == k
  {
  }

  /** A call raises an approval gate if and only if the tool found under its name has policy Approve for its input, and a
      question if and only if no tool is, an elicitation is, and its input is valid. */
  lemma GateMeans(rules: Rules, offered: Offered, use: ToolUse)
    ensures GateOf(rules, offered, use) == Some(GateKind.Approval) <==> NeedsApproval(rules, offered, use)
    ensures GateOf(rules, offered, use) == Some(Clarification) <==> NeedsAnswer(rules, offered, use)
    ensures GateOf(rules, offered, use).Some? <==> NeedsPerson(rules, offered, use)
  {
    LookUp(offered, use.name);
    OneFound(offered, use.name);
  }

  predicate IsUnavailable(offered: Offered, use: ToolUse) {
    FindTool(offered.tools, use.name).None? && FindElicitation(offered.elicitations, use.name).None?
  }

  // What becomes of a call that raises no gate, while no earlier call has.
  function OpenStep(rules: Rules, offered: Offered, use: ToolUse): Step
    requires GateOf(rules, offered, use).None?
  {
    match FindTool(offered.tools, use.name)
    case Some(tool) => RunStep(Call(use, tool))
    case None =>
      match FindElicitation(offered.elicitations, use.name)
      case Some(e) => AnswerStep(ToolResult(use.callId, rules.invalid(e, use.input).value, true))
      case None =>
        var asked := if use.name in rules.alreadyRefused then rules.alreadyRefused[use.name] else 0;
        AnswerStep(ToolResult(use.callId, rules.unavailable(use.name, OfferedNames(offered), asked + 1), true))
  }

  // The call's step, once the calls before it are classified.
  function NextStep(rules: Rules, offered: Offered, gated: Option<Asked>, use: ToolUse): Step {
    if gated.Some? then AnswerStep(ToolResult(use.callId, rules.notRun(use.name, gated.value.use.name), true))
    else if GateOf(rules, offered, use).Some? then GateStep
    else OpenStep(rules, offered, use)
  }

  function NextGate(rules: Rules, offered: Offered, gated: Option<Asked>, use: ToolUse): Option<Asked> {
    if gated.None? && GateOf(rules, offered, use).Some? then Some(Asked(use, GateOf(rules, offered, use).value))
    else gated
  }

  function NextRefused(offered: Offered, gated: Option<Asked>, refused: seq<string>, use: ToolUse): seq<string> {
    if gated.None? && IsUnavailable(offered, use) then refused + [use.name] else refused
  }

  function Classify(rules: Rules, offered: Offered, uses: seq<ToolUse>): Classified {
    if uses == [] then Classified([], None, [])
    else
      var before, use := Classify(rules, offered, uses[..|uses| - 1]), uses[|uses| - 1];
      Classified(before.steps + [NextStep(rules, offered, before.gated, use)],
                 NextGate(rules, offered, before.gated, use),
                 NextRefused(offered, before.gated, before.refused, use))
  }

  /** The classification pass. */
  method ClassifyPass(rules: Rules, offered: Offered, uses: seq<ToolUse>) returns (c: Classified)
    ensures c == Classify(rules, offered, uses)
  {
    var steps: seq<Step>, refused: seq<string>, gated: Option<Asked> := [], [], None;
    for i := 0 to |uses|
      invariant Classified(steps, gated, refused) == Classify(rules, offered, uses[..i])
    {
      assert uses[..i + 1][..i] == uses[..i];
      var use := uses[i];
      if gated.Some? {
        steps := steps + [AnswerStep(ToolResult(use.callId, rules.notRun(use.name, gated.value.use.name), true))];
        continue;
      }
      var entry := FindTool(offered.tools, use.name);
      if entry.None? {
        var elicitation := FindElicitation(offered.elicitations, use.name);
        if elicitation.Some? {
          var failure := rules.invalid(elicitation.value, use.input);
          if failure.Some? {
            steps := steps + [AnswerStep(ToolResult(use.callId, failure.value, true))];
            continue;
          }
          gated := Some(Asked(use, Clarification));
          steps := steps + [GateStep];
          continue;
        }
        refused := refused + [use.name];
        var asked := if use.name in rules.alreadyRefused then rules.alreadyRefused[use.name] else 0;
        steps := steps + [AnswerStep(ToolResult(use.callId, rules.unavailable(use.name, OfferedNames(offered), asked + 1), true))];
        continue;
      }
      if rules.policy(entry.value, use.input) == Approve {
        gated := Some(Asked(use, GateKind.Approval));
        steps := steps + [GateStep];
        continue;
      }
      steps := steps + [RunStep(Call(use, entry.value))];
    }
    assert uses[..|uses|] == uses;
    c := Classified(steps, gated, refused);
  }

  // ---------- Running ----------

  // Every call ends: the ceiling on a call's time is what bounds its steps.
  ghost predicate CallsEnd<W(!new), L(!new)>(m: Machine<W, L>) {
    forall w, tool, l :: m.left(l) > 0 ==> m.left(m.step(w, tool, l).1) < m.left(l)
  }

  // A step of a read leaves the world as it found it.
  ghost predicate ReadsAreQuiet<W(!new), L(!new)>(m: Machine<W, L>) {
    forall w, tool: Tool, l :: tool.effect == Read && m.left(l) > 0 ==> m.step(w, tool, l).0 == w
  }

  // The call run alone to its end.
  ghost function Complete<W(!new), L(!new)>(m: Machine<W, L>, w: W, tool: Tool, l: L): (r: (W, L))
    requires CallsEnd(m)
    ensures ReadsAreQuiet(m) && tool.effect == Read ==> r.0 == w
    decreases m.left(l)
  {
    if m.left(l) == 0 then (w, l)
    else
      var next := m.step(w, tool, l);
      Complete(m, next.0, tool, next.1)
  }

  function Said<W(!new), L(!new)>(m: Machine<W, L>, use: ToolUse, l: L): (r: ToolResult)
    ensures r.callId == use.callId && (r.content, r.isError) == m.said(l)
  {
    ToolResult(use.callId, m.said(l).0, m.said(l).1)
  }

  // The call run alone from its start, and what it answers.
  ghost function Ran<W(!new), L(!new)>(m: Machine<W, L>, w: W, call: Call): (r: (W, ToolResult))
    requires CallsEnd(m)
    ensures ReadsAreQuiet(m) && call.tool.effect == Read ==> r.0 == w
    ensures r.1.callId == call.use.callId
  {
    var done := Complete(m, w, call.tool, m.start(call.tool, call.use));
    (done.0, Said(m, call.use, done.1))
  }

  // The specification: every step in order, each call run to its end before the next begins.
  ghost function InOrder<W(!new), L(!new)>(m: Machine<W, L>, w: W, steps: seq<Step>): (r: (W, seq<Option<ToolResult>>))
    requires CallsEnd(m)
    ensures |r.1| == |steps|
  {
    if steps == [] then (w, [])
    else
      var before := InOrder(m, w, steps[..|steps| - 1]);
      match steps[|steps| - 1]
      case AnswerStep(result) => (before.0, before.1 + [Some(result)])
      case GateStep => (before.0, before.1 + [None])
      case RunStep(call) =>
        var done := Ran(m, before.0, call);
        (done.0, before.1 + [Some(done.1)])
  }

  // From here on the call keeps this fact about the world, whatever it finds there.
  ghost predicate Keeps<W(!new), L(!new)>(m: Machine<W, L>, fact: W -> bool, tool: Tool, l: L)
    requires CallsEnd(m)
    decreases m.left(l)
  {
    m.left(l) > 0 ==>
      forall w :: fact(w) ==> fact(m.step(w, tool, l).0) && Keeps(m, fact, tool, m.step(w, tool, l).1)
  }

  ghost predicate CallKeeps<W(!new), L(!new)>(m: Machine<W, L>, fact: W -> bool, call: Call)
    requires CallsEnd(m)
  {
    Keeps(m, fact, call.tool, m.start(call.tool, call.use))
  }

  method RunOne<W(!new), L(!new)>(m: Machine<W, L>, w0: W, call: Call, ghost fact: W -> bool)
    returns (w: W, result: ToolResult)
    requires CallsEnd(m)
    ensures (w, result) == Ran(m, w0, call)
    ensures fact(w0) && CallKeeps(m, fact, call) ==> fact(w)
  {
    var l := m.start(call.tool, call.use);
    w := w0;
    while m.left(l) > 0
      invariant fact(w0) && CallKeeps(m, fact, call) ==> fact(w) && Keeps(m, fact, call.tool, l)
      invariant Complete(m, w, call.tool, l) == Complete(m, w0, call.tool, m.start(call.tool, call.use))
      decreases m.left(l)
    {
      var next := m.step(w, call.tool, l);
      w, l := next.0, next.1;
    }
    result := Said(m, call.use, l);
  }

  predicate IsRead(step: Step) {
    step.RunStep? && step.call.tool.effect == Read
  }

  function StepsLeft<W(!new), L(!new)>(m: Machine<W, L>, locals: seq<L>): nat {
    if locals == [] then 0 else StepsLeft(m, locals[..|locals| - 1]) + m.left(locals[|locals| - 1])
  }

  lemma {:induction false} StepsLeftUpdate<W(!new), L(!new)>(m: Machine<W, L>, locals: seq<L>, k: nat, l: L)
    requires k < |locals|
    ensures StepsLeft(m, locals[k := l]) == StepsLeft(m, locals) - m.left(locals[k]) + m.left(l)
    decreases |locals|
  {
    var n := |locals| - 1;
    if k < n {
      StepsLeftUpdate(m, locals[..n], k, l);
      assert locals[k := l][..n] == locals[..n][k := l];
    } else {
      assert locals[k := l][..n] == locals[..n];
    }
  }

  lemma {:induction false} NoStepsLeft<W(!new), L(!new)>(m: Machine<W, L>, locals: seq<L>)
    ensures StepsLeft(m, locals) == 0 <==> forall k :: 0 <= k < |locals| ==> m.left(locals[k]) == 0
    decreases |locals|
  {
    if locals != [] {
      NoStepsLeft(m, locals[..|locals| - 1]);
    }
  }

  ghost predicate AllKeep<W(!new), L(!new)>(m: Machine<W, L>, fact: W -> bool, calls: seq<Call>)
    requires CallsEnd(m)
  {
    forall k :: 0 <= k < |calls| ==> CallKeeps(m, fact, calls[k])
  }

  ghost predicate GoOnKeeping<W(!new), L(!new)>(m: Machine<W, L>, fact: W -> bool, batch: seq<Call>, locals: seq<L>)
    requires CallsEnd(m) && |locals| == |batch|
  {
    forall k :: 0 <= k < |batch| ==> Keeps(m, fact, batch[k].tool, locals[k])
  }

  lemma StepGoesOnKeeping<W(!new), L(!new)>(m: Machine<W, L>, fact: W -> bool, batch: seq<Call>, locals: seq<L>, k: nat, w: W)
    requires CallsEnd(m) && |locals| == |batch| && k < |batch| && m.left(locals[k]) > 0
    requires fact(w) && GoOnKeeping(m, fact, batch, locals)
    ensures var next := m.step(w, batch[k].tool, locals[k]);
      fact(next.0) && GoOnKeeping(m, fact, batch, locals[k := next.1])
  {
    assert Keeps(m, fact, batch[k].tool, locals[k]);
  }

  /** A batch of reads in flight together: the scheduler moves any unfinished call, one step at a time.
      While reads leave the world alone, each says what it would have said alone, whatever the scheduler chose. */
  method RunBatch<W(!new), L(!new)>(m: Machine<W, L>, w0: W, batch: seq<Call>, ghost fact: W -> bool)
    returns (w: W, ran: seq<ToolResult>)
    requires CallsEnd(m) && forall k :: 0 <= k < |batch| ==> batch[k].tool.effect == Read
    ensures |ran| == |batch| && forall k :: 0 <= k < |batch| ==> ran[k].callId == batch[k].use.callId
    ensures ReadsAreQuiet(m) ==> w == w0 && forall k :: 0 <= k < |batch| ==> ran[k] == Ran(m, w0, batch[k]).1
    ensures fact(w0) && AllKeep(m, fact, batch) ==> fact(w)
  {
    var locals := seq(|batch|, k requires 0 <= k < |batch| => m.start(batch[k].tool, batch[k].use));
    w := w0;
    ghost var keeps := fact(w0) && AllKeep(m, fact, batch);
    while StepsLeft(m, locals) > 0
      invariant |locals| == |batch|
      invariant keeps ==> fact(w) && GoOnKeeping(m, fact, batch, locals)
      invariant ReadsAreQuiet(m) ==> w == w0
      invariant ReadsAreQuiet(m) ==> forall k :: 0 <= k < |batch| ==>
        Complete(m, w0, batch[k].tool, locals[k]) == Complete(m, w0, batch[k].tool, m.start(batch[k].tool, batch[k].use))
      decreases StepsLeft(m, locals)
    {
      NoStepsLeft(m, locals);
      var k :| 0 <= k < |batch| && m.left(locals[k]) > 0;
      var next := m.step(w, batch[k].tool, locals[k]);
      StepsLeftUpdate(m, locals, k, next.1);
      if keeps {
        StepGoesOnKeeping(m, fact, batch, locals, k, w);
      }
      w, locals := next.0, locals[k := next.1];
    }
    NoStepsLeft(m, locals);
    ran := seq(|batch|, k requires 0 <= k < |batch| => Said(m, batch[k].use, locals[k]));
  }

  // ---------- The second pass ----------

  function Batch(steps: seq<Step>): seq<Call>
    requires forall k :: 0 <= k < |steps| ==> steps[k].RunStep?
  {
    seq(|steps|, k requires 0 <= k < |steps| => steps[k].call)
  }

  // Which answers stand where: a gate leaves a hole, and every other step its own call's answer.
  ghost predicate Fills(steps: seq<Step>, answers: seq<Option<ToolResult>>) {
    && |answers| == |steps|
    && forall k :: 0 <= k < |steps| ==>
         match steps[k]
         case AnswerStep(result) => answers[k] == Some(result)
         case GateStep => answers[k] == None
         case RunStep(call) => answers[k].Some? && answers[k].value.callId == call.use.callId
  }

  lemma InOrderNext<W(!new), L(!new)>(m: Machine<W, L>, w0: W, steps: seq<Step>, i: nat)
    requires CallsEnd(m) && i < |steps|
    ensures var before := InOrder(m, w0, steps[..i]);
      InOrder(m, w0, steps[..i + 1]) ==
        match steps[i]
        case AnswerStep(result) => (before.0, before.1 + [Some(result)])
        case GateStep => (before.0, before.1 + [None])
        case RunStep(call) => (Ran(m, before.0, call).0, before.1 + [Some(Ran(m, before.0, call).1)])
  {
    assert steps[..i + 1][..i] == steps[..i];
  }

  // The longest run of reads standing at i.
  ghost predicate ReadRun(steps: seq<Step>, i: nat, end: nat) {
    i <= end <= |steps| && forall k :: i <= k < end ==> IsRead(steps[k])
  }

  // Quiet reads, taken in order, each answer from the world the first of them started in.
  lemma {:induction false} ReadsInOrder<W(!new), L(!new)>(m: Machine<W, L>, w0: W, steps: seq<Step>, i: nat, end: nat,
                                                         ran: seq<ToolResult>)
    requires CallsEnd(m) && ReadsAreQuiet(m) && ReadRun(steps, i, end) && |ran| == end - i
    requires var w := InOrder(m, w0, steps[..i]).0;
      forall k :: i <= k < end ==> AnswersRead(m, w, steps[k], ran[k - i])
    ensures InOrder(m, w0, steps[..end])
         == (InOrder(m, w0, steps[..i]).0, InOrder(m, w0, steps[..i]).1 + Somes(ran))
    decreases end
  {
    var before := InOrder(m, w0, steps[..i]).1;
    if i == end {
      assert before + Somes(ran) == before;
    } else {
      var n := end - 1 - i;
      ReadsInOrder(m, w0, steps, i, end - 1, ran[..n]);
      InOrderNext(m, w0, steps, end - 1);
      assert AnswersRead(m, InOrder(m, w0, steps[..i]).0, steps[end - 1], ran[n]);
      assert (before + Somes(ran[..n])) + [Some(ran[n])] == before + Somes(ran);
    }
  }

  ghost predicate AnswersRead<W(!new), L(!new)>(m: Machine<W, L>, w: W, step: Step, result: ToolResult)
    requires CallsEnd(m)
  {
    IsRead(step) && result == Ran(m, w, step.call).1
  }

  function Somes(ran: seq<ToolResult>): seq<Option<ToolResult>> {
    seq(|ran|, k requires 0 <= k < |ran| => Some(ran[k]))
  }

  ghost predicate RunsKeep<W(!new), L(!new)>(m: Machine<W, L>, fact: W -> bool, steps: seq<Step>)
    requires CallsEnd(m)
  {
    forall k :: 0 <= k < |steps| && steps[k].RunStep? ==> CallKeeps(m, fact, steps[k].call)
  }

  // The reads standing at i, all in flight together.
  method ExecuteReads<W(!new), L(!new)>(m: Machine<W, L>, w0: W, steps: seq<Step>, i: nat, ghost fact: W -> bool)
    returns (w: W, ran: seq<ToolResult>, end: nat)
    requires CallsEnd(m) && i < |steps| && IsRead(steps[i])
    ensures i < end && ReadRun(steps, i, end) && |ran| == end - i
    ensures end < |steps| ==> !IsRead(steps[end])
    ensures forall k :: 0 <= k < end - i ==> ran[k].callId == Batch(steps[i..end])[k].use.callId
    ensures ReadsAreQuiet(m) ==> w == w0 && forall k :: i <= k < end ==> AnswersRead(m, w0, steps[k], ran[k - i])
    ensures fact(w0) && RunsKeep(m, fact, steps) ==> fact(w)
  {
    end := i;
    while end < |steps| && IsRead(steps[end])
      invariant ReadRun(steps, i, end)
    {
      end := end + 1;
    }
    w, ran := RunBatch(m, w0, Batch(steps[i..end]), fact);
    assert forall k :: i <= k < end ==> Batch(steps[i..end])[k - i] == steps[k].call;
  }

  lemma FillsReads(steps: seq<Step>, i: nat, end: nat, answers: seq<Option<ToolResult>>, ran: seq<ToolResult>)
    requires ReadRun(steps, i, end) && |ran| == end - i && Fills(steps[..i], answers)
    requires forall k :: 0 <= k < end - i ==> ran[k].callId == Batch(steps[i..end])[k].use.callId
    ensures Fills(steps[..end], answers + Somes(ran))
  {
    forall k | i <= k < end
      ensures (answers + Somes(ran))[k] == Some(ran[k - i]) && ran[k - i].callId == steps[k].call.use.callId
    {
      assert Batch(steps[i..end])[k - i] == steps[k].call;
    }
  }

  /** The execution pass: writes one at a time, each run of consecutive reads together. */
  method ExecutePass<W(!new), L(!new)>(m: Machine<W, L>, w0: W, steps: seq<Step>, ghost fact: W -> bool)
    returns (w: W, answers: seq<Option<ToolResult>>)
    requires CallsEnd(m)
    ensures Fills(steps, answers)
    ensures ReadsAreQuiet(m) ==> (w, answers) == InOrder(m, w0, steps)
    ensures fact(w0) && RunsKeep(m, fact, steps) ==> fact(w)
  {
    w, answers := w0, [];
    var i := 0;
    while i < |steps|
      invariant 0 <= i <= |steps|
      invariant Fills(steps[..i], answers)
      invariant ReadsAreQuiet(m) ==> (w, answers) == InOrder(m, w0, steps[..i])
      invariant fact(w0) && RunsKeep(m, fact, steps) ==> fact(w)
    {
      InOrderNext(m, w0, steps, i);
      if !steps[i].RunStep? {
        answers := answers + [if steps[i].AnswerStep? then Some(steps[i].result) else None];
        i := i + 1;
      } else if !IsRead(steps[i]) {
        var result;
        w, result := RunOne(m, w, steps[i].call, fact);
        answers := answers + [Some(result)];
        i := i + 1;
      } else {
        var ran, end;
        w, ran, end := ExecuteReads(m, w, steps, i, fact);
        if ReadsAreQuiet(m) {
          ReadsInOrder(m, w0, steps, i, end, ran);
        }
        FillsReads(steps, i, end, answers, ran);
        answers := answers + Somes(ran);
        i := end;
      }
    }
    assert steps[..|steps|] == steps;
  }

  // ---------- The sequential interpreter ----------

  datatype Turn<W> = Turn(world: W, results: seq<ToolResult>, gated: Option<Asked>, refused: seq<string>)

  // The next call decided, run to its end and answered before the one after it is looked at.
  ghost function Advance<W(!new), L(!new)>(m: Machine<W, L>, rules: Rules, offered: Offered, t: Turn<W>, use: ToolUse)
    : Turn<W>
    requires CallsEnd(m)
  {
    if t.gated.Some? then
      t.(results := t.results + [ToolResult(use.callId, rules.notRun(use.name, t.gated.value.use.name), true)])
    else if GateOf(rules, offered, use).Some? then
      t.(gated := Some(Asked(use, GateOf(rules, offered, use).value)))
    else
      match OpenStep(rules, offered, use)
      case RunStep(call) =>
        var ran := Ran(m, t.world, call);
        t.(world := ran.0, results := t.results + [ran.1])
      case AnswerStep(result) =>
        t.(results := t.results + [result],
           refused := t.refused + (if IsUnavailable(offered, use) then [use.name] else []))
  }

  ghost function Sequential<W(!new), L(!new)>(m: Machine<W, L>, rules: Rules, offered: Offered, w: W, uses: seq<ToolUse>)
    : Turn<W>
    requires CallsEnd(m)
  {
    if uses == [] then Turn(w, [], None, [])
    else Advance(m, rules, offered, Sequential(m, rules, offered, w, uses[..|uses| - 1]), uses[|uses| - 1])
  }

  // The answers without the holes, which is what goes back to the model.
  function Presents(answers: seq<Option<ToolResult>>): seq<ToolResult> {
    if answers == [] then []
    else
      var last := answers[|answers| - 1];
      Presents(answers[..|answers| - 1]) + (if last.Some? then [last.value] else [])
  }

  lemma PresentsNext(answers: seq<Option<ToolResult>>, a: Option<ToolResult>)
    ensures Presents(answers + [a]) == Presents(answers) + (if a.Some? then [a.value] else [])
  {
    assert (answers + [a])[..|answers|] == answers;
  }

  lemma InOrderSnoc<W(!new), L(!new)>(m: Machine<W, L>, w0: W, steps: seq<Step>, step: Step)
    requires CallsEnd(m)
    ensures var before := InOrder(m, w0, steps);
      InOrder(m, w0, steps + [step]) ==
        match step
        case AnswerStep(result) => (before.0, before.1 + [Some(result)])
        case GateStep => (before.0, before.1 + [None])
        case RunStep(call) => (Ran(m, before.0, call).0, before.1 + [Some(Ran(m, before.0, call).1)])
  {
    assert (steps + [step])[..|steps|] == steps;
  }

  // What running one more step does to a turn of which these steps ran.
  lemma AdvanceIsOneStep<W(!new), L(!new)>(m: Machine<W, L>, rules: Rules, offered: Offered, w0: W, c: Classified,
                                           use: ToolUse)
    requires CallsEnd(m)
    ensures var before := InOrder(m, w0, c.steps);
      var later := InOrder(m, w0, c.steps + [NextStep(rules, offered, c.gated, use)]);
      Advance(m, rules, offered, Turn(before.0, Presents(before.1), c.gated, c.refused), use)
        == Turn(later.0, Presents(later.1), NextGate(rules, offered, c.gated, use),
                NextRefused(offered, c.gated, c.refused, use))
  {
    var step := NextStep(rules, offered, c.gated, use);
    InOrderSnoc(m, w0, c.steps, step);
    var before, later := InOrder(m, w0, c.steps), InOrder(m, w0, c.steps + [step]);
    PresentsNext(before.1, later.1[|c.steps|]);
  }

  /** Deciding everything first and running it afterwards is deciding and running one call at a time. */
  lemma {:induction false} TwoPassesAreOne<W(!new), L(!new)>(m: Machine<W, L>, rules: Rules, offered: Offered, w: W,
                                                            uses: seq<ToolUse>)
    requires CallsEnd(m)
    ensures var c := Classify(rules, offered, uses);
      var done := InOrder(m, w, c.steps);
      Sequential(m, rules, offered, w, uses) == Turn(done.0, Presents(done.1), c.gated, c.refused)
    decreases |uses|
  {
    if uses != [] {
      var front := uses[..|uses| - 1];
      TwoPassesAreOne(m, rules, offered, w, front);
      AdvanceIsOneStep(m, rules, offered, w, Classify(rules, offered, front), uses[|uses| - 1]);
    }
  }

  // ---------- What a turn's outcome always says ----------

  // The first call that needs a person; |uses| when none does.
  function FirstGate(rules: Rules, offered: Offered, uses: seq<ToolUse>): (k: nat)
    ensures k <= |uses|
    ensures forall j :: 0 <= j < k ==> GateOf(rules, offered, uses[j]).None?
    ensures k < |uses| ==> GateOf(rules, offered, uses[k]).Some?
  {
    if uses == [] then 0
    else
      var k := FirstGate(rules, offered, uses[..|uses| - 1]);
      if k < |uses| - 1 then k
      else if GateOf(rules, offered, uses[|uses| - 1]).Some? then |uses| - 1 else |uses|
  }

  lemma FirstGateIsFirst(rules: Rules, offered: Offered, uses: seq<ToolUse>)
    ensures forall k: nat :: FirstInNeed(rules, offered, uses, k) <==> k == FirstGate(rules, offered, uses)
    ensures forall i :: 0 <= i < |uses| && GateOf(rules, offered, uses[i]).Some? ==>
              Asked(uses[i], GateOf(rules, offered, uses[i]).value) == GateFor(rules, offered, uses[i])
  {
    forall i | 0 <= i < |uses|
      ensures GateOf(rules, offered, uses[i]).Some? <==> NeedsPerson(rules, offered, uses[i])
      ensures GateOf(rules, offered, uses[i]).Some? ==>
                Asked(uses[i], GateOf(rules, offered, uses[i]).value) == GateFor(rules, offered, uses[i])
    {
      GateMeans(rules, offered, uses[i]);
    }
  }

  function UseIds(uses: seq<ToolUse>): seq<CallId> {
    seq(|uses|, i requires 0 <= i < |uses| => uses[i].callId)
  }

  function AnswerIds(results: seq<ToolResult>): seq<CallId> {
    seq(|results|, i requires 0 <= i < |results| => results[i].callId)
  }

  // The calls a turn answers: all but the gate's own.
  function AnsweredUses(uses: seq<ToolUse>, k: nat): seq<ToolUse>
    requires k <= |uses|
  {
    if k < |uses| then uses[..k] + uses[k + 1..] else uses
  }

  ghost predicate StepFor(rules: Rules, offered: Offered, uses: seq<ToolUse>, k: nat, i: nat, step: Step)
    requires i < |uses| && k <= |uses|
  {
    if i < k then GateOf(rules, offered, uses[i]).None? && step == OpenStep(rules, offered, uses[i])
    else if i == k then step == GateStep
    else step == AnswerStep(ToolResult(uses[i].callId, rules.notRun(uses[i].name, uses[k].name), true))
  }

  lemma {:induction false} ClassifyStands(rules: Rules, offered: Offered, uses: seq<ToolUse>)
    ensures var c, k := Classify(rules, offered, uses), FirstGate(rules, offered, uses);
      && |c.steps| == |uses|
      && (c.gated == if k < |uses| then Some(Asked(uses[k], GateOf(rules, offered, uses[k]).value)) else None)
      && (forall i :: 0 <= i < |uses| ==> StepFor(rules, offered, uses, k, i, c.steps[i]))
    decreases |uses|
  {
    if uses != [] {
      ClassifyStands(rules, offered, uses[..|uses| - 1]);
    }
  }

  // How many times this name was refused before in the run.
  function TimesRefused(rules: Rules, name: string): nat {
    if name in rules.alreadyRefused then rules.alreadyRefused[name] else 0
  }

  // What becomes of a call that needs nobody: its tool runs it, or it is answered as malformed or unavailable.
  ghost predicate DecidedAlone(rules: Rules, offered: Offered, use: ToolUse, step: Step) {
    && (forall t: nat :: FoundTool(offered, use.name, t) ==>
          rules.policy(offered.tools[t], use.input) == Auto && step == RunStep(Call(use, offered.tools[t])))
    && (forall e: nat :: FoundElicitation(offered, use.name, e) ==>
          && rules.invalid(offered.elicitations[e], use.input).Some?
          && step == AnswerStep(ToolResult(use.callId, rules.invalid(offered.elicitations[e], use.input).value, true)))
    && (Nothing(offered, use.name) ==>
          step == AnswerStep(ToolResult(use.callId,
            rules.unavailable(use.name, OfferedNames(offered), TimesRefused(rules, use.name) + 1), true)))
  }

  lemma OpenStepMeans(rules: Rules, offered: Offered, use: ToolUse)
    requires GateOf(rules, offered, use).None?
    ensures DecidedAlone(rules, offered, use, OpenStep(rules, offered, use))
    ensures forall call :: OpenStep(rules, offered, use) == RunStep(call) <==> MayRun(rules, offered, use, call)
  {
    LookUp(offered, use.name);
    OneFound(offered, use.name);
  }

  ghost predicate DecidedAt(rules: Rules, offered: Offered, uses: seq<ToolUse>, k: nat, i: nat, step: Step)
    requires i < |uses| && k <= |uses|
  {
    if i < k then DecidedAlone(rules, offered, uses[i], step)
    else if i == k then step == GateStep
    else step == AnswerStep(ToolResult(uses[i].callId, rules.notRun(uses[i].name, uses[k].name), true))
  }

  // The names nothing is offered under, of these calls, in order.
  ghost function NamesNothing(offered: Offered, uses: seq<ToolUse>): seq<string> {
    if uses == [] then []
    else
      var last := uses[|uses| - 1].name;
      NamesNothing(offered, uses[..|uses| - 1]) + (if Nothing(offered, last) then [last] else [])
  }

  lemma UnavailableMeans(offered: Offered, use: ToolUse)
    ensures IsUnavailable(offered, use) <==> Nothing(offered, use.name)
  {
    LookUp(offered, use.name);
  }

  lemma OneMoreRefused(rules: Rules, offered: Offered, uses: seq<ToolUse>)
    requires uses != []
    ensures var n := |uses| - 1;
      var front, k := Classify(rules, offered, uses[..n]), FirstGate(rules, offered, uses);
      Classify(rules, offered, uses).refused
        == front.refused + (if k == |uses| && Nothing(offered, uses[n].name) then [uses[n].name] else [])
  {
    ClassifyStands(rules, offered, uses[..|uses| - 1]);
    UnavailableMeans(offered, uses[|uses| - 1]);
  }

  lemma GateStays(rules: Rules, offered: Offered, uses: seq<ToolUse>)
    requires uses != []
    ensures var n, k := |uses| - 1, FirstGate(rules, offered, uses);
      FirstGate(rules, offered, uses[..n]) == if k < n then k else n
  {
  }

  lemma {:induction false} RefusedMeans(rules: Rules, offered: Offered, uses: seq<ToolUse>, k: nat)
    requires k == FirstGate(rules, offered, uses)
    ensures Classify(rules, offered, uses).refused == NamesNothing(offered, uses[..k])
    decreases |uses|
  {
    if uses != [] {
      var n := |uses| - 1;
      var k' := if k < n then k else n;
      GateStays(rules, offered, uses);
      RefusedMeans(rules, offered, uses[..n], k');
      OneMoreRefused(rules, offered, uses);
      assert uses[..n][..k'] == uses[..k'];
      if k == |uses| {
        assert uses[..k] == uses;
      }
    }
  }

  /** The gate is on the first call that needs a person: whose tool's policy asks for approval, or whose question is
      valid. Every call before it is run or refused on its own, and every call after it is told it did not run. */
  lemma ClassifyMeans(rules: Rules, offered: Offered, uses: seq<ToolUse>, k: nat)
    requires FirstInNeed(rules, offered, uses, k)
    ensures var c := Classify(rules, offered, uses);
      && |c.steps| == |uses|
      && (c.gated == if k < |uses| then Some(GateFor(rules, offered, uses[k])) else None)
      && (forall i :: 0 <= i < |uses| ==> DecidedAt(rules, offered, uses, k, i, c.steps[i]))
      && c.refused == NamesNothing(offered, uses[..k])
  {
    FirstGateIsFirst(rules, offered, uses);
    ClassifyStands(rules, offered, uses);
    RefusedMeans(rules, offered, uses, k);
    var c := Classify(rules, offered, uses);
    forall i | 0 <= i < |uses|
      ensures DecidedAt(rules, offered, uses, k, i, c.steps[i])
    {
      assert StepFor(rules, offered, uses, k, i, c.steps[i]);
      if i < k {
        OpenStepMeans(rules, offered, uses[i]);
      }
    }
  }

  lemma IdsSnoc(uses: seq<ToolUse>, use: ToolUse, results: seq<ToolResult>, result: ToolResult)
    ensures UseIds(uses + [use]) == UseIds(uses) + [use.callId]
    ensures AnswerIds(results + [result]) == AnswerIds(results) + [result.callId]
  {
  }

  lemma AnsweredUsesNext(uses: seq<ToolUse>, k: nat)
    requires uses != [] && k <= |uses|
    ensures var n := |uses| - 1;
      AnsweredUses(uses, k) == if k == n then AnsweredUses(uses[..n], n)
                               else AnsweredUses(uses[..n], if k < n then k else n) + [uses[n]]
  {
    var n := |uses| - 1;
    assert AnsweredUses(uses[..n], n) == uses[..n];
    if k < n {
      assert uses[k + 1..] == uses[..n][k + 1..] + [uses[n]];
    }
  }

  lemma {:induction false} HoleAtTheGate(uses: seq<ToolUse>, answers: seq<Option<ToolResult>>, k: nat)
    requires |answers| == |uses| && k <= |uses|
    requires forall i :: 0 <= i < |uses| ==>
      if i == k then answers[i].None? else answers[i].Some? && answers[i].value.callId == uses[i].callId
    ensures AnswerIds(Presents(answers)) == UseIds(AnsweredUses(uses, k))
    decreases |uses|
  {
    if uses != [] {
      var n := |uses| - 1;
      var k' := if k < n then k else n;
      HoleAtTheGate(uses[..n], answers[..n], k');
      AnsweredUsesNext(uses, k);
      if k != n {
        IdsSnoc(AnsweredUses(uses[..n], k'), uses[n], Presents(answers[..n]), answers[n].value);
      }
    }
  }

  // Every call that may run before the gate keeps this fact about the world.
  ghost predicate PermittedKeep<W(!new), L(!new)>(m: Machine<W, L>, fact: W -> bool, rules: Rules, offered: Offered,
                                                  uses: seq<ToolUse>, k: nat)
    requires CallsEnd(m) && k <= |uses|
  {
    forall i, call :: 0 <= i < k && MayRun(rules, offered, uses[i], call) ==> CallKeeps(m, fact, call)
  }

  lemma OnlyPermittedRun<W(!new), L(!new)>(m: Machine<W, L>, fact: W -> bool, rules: Rules, offered: Offered,
                                           uses: seq<ToolUse>, k: nat)
    requires CallsEnd(m) && FirstInNeed(rules, offered, uses, k) && PermittedKeep(m, fact, rules, offered, uses, k)
    ensures RunsKeep(m, fact, Classify(rules, offered, uses).steps)
  {
    FirstGateIsFirst(rules, offered, uses);
    ClassifyStands(rules, offered, uses);
    var steps := Classify(rules, offered, uses).steps;
    forall i | 0 <= i < |steps| && steps[i].RunStep?
      ensures CallKeeps(m, fact, steps[i].call)
    {
      assert StepFor(rules, offered, uses, k, i, steps[i]);
      OpenStepMeans(rules, offered, uses[i]);
    }
  }

  /** processToolUses. The turn suspends if and only if a call needs a person, on the first that does and for what it
      needs. Whatever the scheduler does, each call but that one gets one answer, in the order the calls were made, and
      nothing is done to the world but by calls before it whose own tool has policy Auto: what all of those keep, the
      turn keeps. While reads are quiet, the turn is the sequential one. */
  method ProcessToolUses<W(!new), L(!new)>(m: Machine<W, L>, rules: Rules, offered: Offered, w0: W, uses: seq<ToolUse>,
                                           ghost fact: W -> bool)
    returns (w: W, results: seq<ToolResult>, gated: Option<Asked>, refused: seq<string>)
    requires CallsEnd(m)
    ensures forall k: nat :: FirstInNeed(rules, offered, uses, k) ==>
      && gated == (if k < |uses| then Some(GateFor(rules, offered, uses[k])) else None)
      && AnswerIds(results) == UseIds(AnsweredUses(uses, k))
      && refused == NamesNothing(offered, uses[..k])
      && (fact(w0) && PermittedKeep(m, fact, rules, offered, uses, k) ==> fact(w))
    ensures ReadsAreQuiet(m) ==> Turn(w, results, gated, refused) == Sequential(m, rules, offered, w0, uses)
  {
    var c := ClassifyPass(rules, offered, uses);
    ghost var k := FirstGate(rules, offered, uses);
    FirstGateIsFirst(rules, offered, uses);
    ClassifyMeans(rules, offered, uses, k);
    TwoPassesAreOne(m, rules, offered, w0, uses);
    var answers;
    w, answers := ExecutePass(m, w0, c.steps, fact);
    if PermittedKeep(m, fact, rules, offered, uses, k) {
      OnlyPermittedRun(m, fact, rules, offered, uses, k);
    }
    FillsAllButTheGate(rules, offered, uses, answers);
    HoleAtTheGate(uses, answers, FirstGate(rules, offered, uses));
    results := FlattenAnswers(answers);
    gated, refused := c.gated, c.refused;
  }

  lemma FillsAllButTheGate(rules: Rules, offered: Offered, uses: seq<ToolUse>, answers: seq<Option<ToolResult>>)
    requires Fills(Classify(rules, offered, uses).steps, answers)
    ensures |answers| == |uses|
    ensures forall i :: 0 <= i < |uses| ==>
      if i == FirstGate(rules, offered, uses) then answers[i].None?
      else answers[i].Some? && answers[i].value.callId == uses[i].callId
  {
    ClassifyStands(rules, offered, uses);
    var c, k := Classify(rules, offered, uses), FirstGate(rules, offered, uses);
    forall i | 0 <= i < |uses|
      ensures if i == k then answers[i].None? else answers[i].Some? && answers[i].value.callId == uses[i].callId
    {
      assert StepFor(rules, offered, uses, k, i, c.steps[i]);
    }
  }

  method FlattenAnswers(answers: seq<Option<ToolResult>>) returns (results: seq<ToolResult>)
    ensures results == Presents(answers)
  {
    results := [];
    for i := 0 to |answers|
      invariant results == Presents(answers[..i])
    {
      assert answers[..i + 1][..i] == answers[..i];
      if answers[i].Some? {
        results := results + [answers[i].value];
      }
    }
    assert answers[..|answers|] == answers;
  }

  // ---------- Consequences ----------

  // A call made after the gate changes nothing but the list of answers.
  lemma AfterTheGate<W(!new), L(!new)>(m: Machine<W, L>, rules: Rules, offered: Offered, w: W, uses: seq<ToolUse>)
    requires CallsEnd(m) && FirstGate(rules, offered, uses) < |uses| - 1
    ensures var n, k := |uses| - 1, FirstGate(rules, offered, uses);
      var t, front := Sequential(m, rules, offered, w, uses), Sequential(m, rules, offered, w, uses[..n]);
      FirstGate(rules, offered, uses[..n]) == k
      && (front.gated.Some? && front.gated.value.use == uses[k] ==>
            t == front.(results := front.results
                                   + [ToolResult(uses[n].callId, rules.notRun(uses[n].name, uses[k].name), true)]))
  {
  }

  lemma {:induction false} OpenTurnAnswersAll<W(!new), L(!new)>(m: Machine<W, L>, rules: Rules, offered: Offered,
                                                               w: W, uses: seq<ToolUse>)
    requires CallsEnd(m) && FirstGate(rules, offered, uses) == |uses|
    ensures var t := Sequential(m, rules, offered, w, uses); t.gated.None? && |t.results| == |uses|
    decreases |uses|
  {
    if uses != [] {
      OpenTurnAnswersAll(m, rules, offered, w, uses[..|uses| - 1]);
    }
  }

  lemma AtTheGate<W(!new), L(!new)>(m: Machine<W, L>, rules: Rules, offered: Offered, w: W, uses: seq<ToolUse>)
    requires CallsEnd(m) && uses != [] && FirstGate(rules, offered, uses) == |uses| - 1
    ensures var n := |uses| - 1;
      var t, before := Sequential(m, rules, offered, w, uses), Sequential(m, rules, offered, w, uses[..n]);
      && before.gated.None? && |before.results| == n
      && t == before.(gated := Some(Asked(uses[n], GateOf(rules, offered, uses[n]).value)))
  {
    OpenTurnAnswersAll(m, rules, offered, w, uses[..|uses| - 1]);
  }

  // A gated turn, against the turn of the calls before its gate.
  ghost predicate StoppedAt<W(!new)>(rules: Rules, uses: seq<ToolUse>, k: nat, t: Turn<W>, before: Turn<W>)
    requires k < |uses|
  {
    && t.world == before.world && t.refused == before.refused
    && t.gated.Some? && t.gated.value.use == uses[k]
    && before.gated.None? && |before.results| == k && |t.results| == |uses| - 1 && before.results <= t.results
    && (forall i :: k <= i < |t.results| ==>
          t.results[i] == ToolResult(uses[i + 1].callId, rules.notRun(uses[i + 1].name, uses[k].name), true))
  }

  lemma StopsAlike<W(!new), L(!new)>(m: Machine<W, L>, rules: Rules, offered: Offered, w: W, uses: seq<ToolUse>, k: nat,
                                     before: Turn<W>)
    requires CallsEnd(m) && k == FirstGate(rules, offered, uses) && k < |uses| - 1
    requires StoppedAt(rules, uses[..|uses| - 1], k, Sequential(m, rules, offered, w, uses[..|uses| - 1]), before)
    ensures StoppedAt(rules, uses, k, Sequential(m, rules, offered, w, uses), before)
  {
    AfterTheGate(m, rules, offered, w, uses);
  }

  lemma {:induction false} StopsAtTheGate<W(!new), L(!new)>(m: Machine<W, L>, rules: Rules, offered: Offered,
                                                           w: W, uses: seq<ToolUse>)
    requires CallsEnd(m) && FirstGate(rules, offered, uses) < |uses|
    ensures var k := FirstGate(rules, offered, uses);
      StoppedAt(rules, uses, k, Sequential(m, rules, offered, w, uses), Sequential(m, rules, offered, w, uses[..k]))
    decreases |uses|
  {
    var n, k := |uses| - 1, FirstGate(rules, offered, uses);
    if k == n {
      AtTheGate(m, rules, offered, w, uses);
    } else {
      GateStays(rules, offered, uses);
      StopsAtTheGate(m, rules, offered, w, uses[..n]);
      assert uses[..n][..k] == uses[..k];
      StopsAlike(m, rules, offered, w, uses, k, Sequential(m, rules, offered, w, uses[..k]));
    }
  }

  // The calls of these that have a tool, each with the tool found under its name.
  ghost function WithTools(offered: Offered, uses: seq<ToolUse>): seq<Call> {
    if uses == [] then []
    else
      var front, last := WithTools(offered, uses[..|uses| - 1]), uses[|uses| - 1];
      LookUp(offered, last.name);
      if NoTool(offered, last.name) then front
      else
        var t: nat :| FoundTool(offered, last.name, t);
        front + [Call(last, offered.tools[t])]
  }

  // What running these calls, one after another, leaves.
  ghost function RanAll<W(!new), L(!new)>(m: Machine<W, L>, w: W, calls: seq<Call>): W
    requires CallsEnd(m)
  {
    if calls == [] then w else Ran(m, RanAll(m, w, calls[..|calls| - 1]), calls[|calls| - 1]).0
  }

  lemma OneMoreRuns<W(!new), L(!new)>(m: Machine<W, L>, rules: Rules, offered: Offered, w: W, uses: seq<ToolUse>)
    requires CallsEnd(m) && uses != [] && FirstGate(rules, offered, uses) == |uses|
    requires Sequential(m, rules, offered, w, uses[..|uses| - 1]).world == RanAll(m, w, WithTools(offered, uses[..|uses| - 1]))
    ensures Sequential(m, rules, offered, w, uses).world == RanAll(m, w, WithTools(offered, uses))
  {
    var n := |uses| - 1;
    OpenTurnAnswersAll(m, rules, offered, w, uses[..n]);
    OpenStepMeans(rules, offered, uses[n]);
    LookUp(offered, uses[n].name);
    var front, calls := WithTools(offered, uses[..n]), WithTools(offered, uses);
    if calls != front {
      assert calls[..|calls| - 1] == front;
    }
  }

  lemma {:induction false} OpenTurnRuns<W(!new), L(!new)>(m: Machine<W, L>, rules: Rules, offered: Offered, w: W,
                                                         uses: seq<ToolUse>)
    requires CallsEnd(m) && FirstGate(rules, offered, uses) == |uses|
    ensures Sequential(m, rules, offered, w, uses).world == RanAll(m, w, WithTools(offered, uses))
    ensures forall call :: call in WithTools(offered, uses) ==> rules.policy(call.tool, call.use.input) == Auto
    decreases |uses|
  {
    if uses != [] {
      OpenTurnRuns(m, rules, offered, w, uses[..|uses| - 1]);
      OneMoreRuns(m, rules, offered, w, uses);
      GateMeans(rules, offered, uses[|uses| - 1]);
    }
  }

  /** Nothing runs but what may: the world a turn leaves is that of the calls before its gate, each run once, in order,
      by the tool found under its name, whose policy is Auto for it. The calls behind the gate come back as errors. */
  lemma NothingRunsAfterTheGate<W(!new), L(!new)>(m: Machine<W, L>, rules: Rules, offered: Offered, w: W,
                                                  uses: seq<ToolUse>, k: nat)
    requires CallsEnd(m) && FirstInNeed(rules, offered, uses, k)
    ensures var t := Sequential(m, rules, offered, w, uses);
      && t.world == RanAll(m, w, WithTools(offered, uses[..k]))
      && (k < |uses| ==> StoppedAt(rules, uses, k, t, Sequential(m, rules, offered, w, uses[..k])))
    ensures forall call :: call in WithTools(offered, uses[..k]) ==> rules.policy(call.tool, call.use.input) == Auto
  {
    FirstGateIsFirst(rules, offered, uses);
    FirstGateIsFirst(rules, offered, uses[..k]);
    assert FirstInNeed(rules, offered, uses[..k], k);
    OpenTurnRuns(m, rules, offered, w, uses[..k]);
    if k < |uses| {
      StopsAtTheGate(m, rules, offered, w, uses);
    } else {
      assert uses[..k] == uses;
    }
  }

  ghost predicate DistinctIds(uses: seq<ToolUse>) {
    forall i, j :: 0 <= i < j < |uses| ==> uses[i].callId != uses[j].callId
  }

  function IdsOf(uses: seq<ToolUse>): set<CallId> {
    set u | u in uses :: u.callId
  }

  /** What a suspended turn saves and what it asks for are together exactly the turn's calls, and apart. */
  lemma TurnAnswersItsCalls(uses: seq<ToolUse>, results: seq<ToolResult>, k: nat)
    requires DistinctIds(uses) && k <= |uses| && AnswerIds(results) == UseIds(AnsweredUses(uses, k))
    ensures if k == |uses| then ResultIds(results) == IdsOf(uses)
      else uses[k].callId !in ResultIds(results) && ResultIds(results) + {uses[k].callId} == IdsOf(uses)
  {
    var rest := AnsweredUses(uses, k);
    assert ResultIds(results) == IdsOf(rest) by {
      forall r | r in results
        ensures r.callId in IdsOf(rest)
      {
        var i :| 0 <= i < |results| && results[i] == r;
        assert AnswerIds(results)[i] == UseIds(rest)[i];
        assert rest[i] in rest;
      }
      forall u | u in rest
        ensures u.callId in ResultIds(results)
      {
        var i :| 0 <= i < |rest| && rest[i] == u;
        assert AnswerIds(results)[i] == UseIds(rest)[i];
        assert results[i] in results;
      }
    }
    if k < |uses| {
      assert uses == uses[..k] + [uses[k]] + uses[k + 1..];
    }
  }
}
