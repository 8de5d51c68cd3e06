/**
 The keypad flow engine: a state graph whose nodes speak a prompt, gather a keypress, or end the call.

 One step function (`React`) is driven by two loops: a live session over a voice leg
 (`RunSession`) and the builder's dry run over a list of inputs (`Simulate`).
 */
module FlowEngine {
  import opened Options

  datatype Prompt = Prompt(audio: string, tts: string)

  datatype Gather = Gather(digits: int, timeoutS: int)

  datatype Node = Node(say: Option<Prompt>, gather: Option<Gather>, on: map<string, string>, result: string, end: bool)

  datatype Flow = Flow(entry: string, nodes: map<string, Node>)

  datatype Outcome = Outcome(result: string, status: string)

  datatype Kind = Say | SayGather | Hangup

  datatype Directive = Directive(kind: Kind, prompt: Option<Prompt>, gather: Option<Gather>)

  const COMPLETED := "completed"
  const NO_ANSWER := "no_answer"
  const TIMEOUT := "timeout"
  const INVALID := "invalid"

  /** What one step of the engine leaves behind: its position, the directive, and an outcome if the flow ended. */
  datatype Turn = Turn(node: string, directive: Directive, outcome: Option<Outcome>)

  // ---------------------------------------------------------------- the step function

  /** A name that is not in the graph reads as the zero node: no prompt, no keypad, no end. */
  function NodeAt(f: Flow, name: string): (node: Node)
    ensures name in f.nodes ==> node == f.nodes[name]
    ensures name !in f.nodes ==> node.say.None? && node.gather.None? && node.on == map[]
    ensures name !in f.nodes ==> node.result == "" && !node.end
  {
    if name in f.nodes then f.nodes[name] else Node(None, None, map[], "", false)
  }

  function Emit(f: Flow, name: string): Turn {
    var node := NodeAt(f, name);
    if node.end || node.result != "" then
      Turn(name, Directive(Hangup, node.say, None), Some(Outcome(node.result, COMPLETED)))
    else if node.gather.Some? then
      Turn(name, Directive(SayGather, node.say, node.gather), None)
    else
      Turn(name, Directive(Say, node.say, None), None)
  }

  function NoWayOn(name: string): Turn {
    Turn(name, Directive(Hangup, None, None), Some(Outcome(NO_ANSWER, NO_ANSWER)))
  }

  function Press(f: Flow, name: string, digit: string): Turn {
    var on := NodeAt(f, name).on;
    if digit in on then Emit(f, on[digit])
    else if INVALID in on then Emit(f, on[INVALID])
    else NoWayOn(name)
  }

  function TimeOut(f: Flow, name: string): Turn {
    var on := NodeAt(f, name).on;
    if TIMEOUT in on then Emit(f, on[TIMEOUT]) else NoWayOn(name)
  }

  /** A simulated input is a digit, or the literal "timeout". */
  function React(f: Flow, name: string, input: string): Turn {
    if input == TIMEOUT then TimeOut(f, name) else Press(f, name, input)
  }

  // ---------------------------------------------------------------- what a node says

  /** What a voice leg reports back from one gather: a key, no key in time, or a transport error. */
  datatype Reply = Key(digit: string) | Silence | Broken

  /** A node ends the call if it says so or has a result. */
  predicate EndsCall(node: Node) {
    node.end || node.result != ""
  }

  /** Where a reply leads: the branch for the key or the timeout; an unknown key takes the one for invalid keys. */
  function Branch(node: Node, r: Reply): Option<string> {
    match r
    case Key(digit) =>
      if digit in node.on then Some(node.on[digit])
      else if "invalid" in node.on then Some(node.on["invalid"]) else None
    case Silence => if "timeout" in node.on then Some(node.on["timeout"]) else None
    case Broken => None
  }

  /** A node speaks its own prompt; it gathers as it says, hangs up with its result if it ends the call, or talks. */
  predicate Speaks(node: Node, d: Directive, out: Option<Outcome>) {
    && d.prompt == node.say
    && (out.Some? <==> EndsCall(node))
    && (out.Some? ==> d.kind == Hangup && out.value.result == node.result && out.value.status == "completed")
    && (out.None? ==> d.kind == if node.gather.Some? then SayGather else Say)
    && d.gather == if out.None? then node.gather else None
  }

  /** A reply moves to the node it leads to, which speaks; or, leading nowhere, ends the call there and unanswered. */
  predicate Follows(f: Flow, from: string, branch: Option<string>, to: string, d: Directive, out: Option<Outcome>) {
    match branch
    case Some(next) => to == next && Speaks(NodeAt(f, next), d, out)
    case None => to == from && d == Directive(Hangup, None, None) && out == Some(Outcome("no_answer", "no_answer"))
  }

  lemma EmitSpeaks(f: Flow, name: string)
    ensures var t := Emit(f, name); t.node == name && Speaks(NodeAt(f, name), t.directive, t.outcome)
  {
  }

  lemma AnsweredFollows(f: Flow, name: string, r: Reply)
    requires !r.Broken?
    ensures var t := Answered(f, name, r); Follows(f, name, Branch(NodeAt(f, name), r), t.node, t.directive, t.outcome)
  {
  }

  class FlowState {
    var node: string

    constructor (node: string)
      ensures this.node == node
    {
      this.node := node;
    }
  }

  method Start(f: Flow) returns (d: Directive, st: FlowState, out: Option<Outcome>)
    ensures fresh(st) && Turn(st.node, d, out) == Emit(f, f.entry)
    ensures st.node == f.entry && Speaks(NodeAt(f, f.entry), d, out)
  {
    st := new FlowState(f.entry);
    var t := Emit(f, st.node);
    d, out := t.directive, t.outcome;
  }

  method OnDTMF(f: Flow, st: FlowState, digit: string) returns (d: Directive, out: Option<Outcome>)
    modifies st
    ensures Turn(st.node, d, out) == Press(f, old(st.node), digit)
    ensures Follows(f, old(st.node), Branch(NodeAt(f, old(st.node)), Key(digit)), st.node, d, out)
  {
    var on := NodeAt(f, st.node).on;
    var next := Lookup(on, digit);
    if next.None? {
      next := Lookup(on, INVALID);
    }
    if next.None? {
      return Directive(Hangup, None, None), Some(Outcome(NO_ANSWER, NO_ANSWER));
    }
    st.node := next.value;
    var t := Emit(f, st.node);
    d, out := t.directive, t.outcome;
  }

  method OnTimeout(f: Flow, st: FlowState) returns (d: Directive, out: Option<Outcome>)
    modifies st
    ensures Turn(st.node, d, out) == TimeOut(f, old(st.node))
    ensures Follows(f, old(st.node), Branch(NodeAt(f, old(st.node)), Silence), st.node, d, out)
  {
    var next := Lookup(NodeAt(f, st.node).on, TIMEOUT);
    if next.None? {
      return Directive(Hangup, None, None), Some(Outcome(NO_ANSWER, NO_ANSWER));
    }
    st.node := next.value;
    var t := Emit(f, st.node);
    d, out := t.directive, t.outcome;
  }

  /** The engine hangs up exactly when it has an outcome. */
  predicate Coherent(t: Turn) {
    t.directive.kind == Hangup <==> t.outcome.Some?
  }

  lemma StepsAreCoherent(f: Flow, name: string, input: string)
    ensures Coherent(Emit(f, name)) && Coherent(Press(f, name, input)) && Coherent(TimeOut(f, name))
  {
  }

  predicate IsTerminal(f: Flow, name: string) {
    Emit(f, name).outcome.Some?
  }

  predicate IsGather(f: Flow, name: string) {
    Emit(f, name).directive.kind == SayGather
  }

  /** A node that neither ends the call nor gathers a key, or that does not exist. */
  predicate IsPlain(f: Flow, name: string) {
    Emit(f, name).directive.kind == Say
  }

  /**
   Pressing the key "timeout" is not the same as timing out: it falls back to the "invalid" branch.
   The two agree exactly when the node has a timeout branch or has no invalid branch.
   */
  lemma PressedTimeoutIsTimeoutExactlyWhen(f: Flow, name: string)
    ensures Press(f, name, TIMEOUT) == TimeOut(f, name)
       <==> TIMEOUT in NodeAt(f, name).on || INVALID !in NodeAt(f, name).on
  {
    var on := NodeAt(f, name).on;
    if TIMEOUT !in on && INVALID in on {
      var t := Emit(f, on[INVALID]);
      assert COMPLETED[0] != NO_ANSWER[0];
      assert t.outcome != NoWayOn(name).outcome;
    }
  }

  // ---------------------------------------------------------------- simulation

  /** The turns taken from `t` on `inputs`: one per input, until one of them has an outcome. */
  function Turns(f: Flow, t: Turn, inputs: seq<string>): (ts: seq<Turn>)
    ensures ts != [] && ts[0] == t
    decreases |inputs|
  {
    if t.outcome.Some? || inputs == [] then [t]
    else [t] + Turns(f, React(f, t.node, inputs[0]), inputs[1..])
  }

  function Trace(f: Flow, inputs: seq<string>): seq<Turn> {
    Turns(f, Emit(f, f.entry), inputs)
  }

  function Last(ts: seq<Turn>): Turn
    requires ts != []
  {
    ts[|ts| - 1]
  }

  datatype SimStep = SimStep(node: string, kind: Kind, say: Option<Prompt>, awaits: bool)

  datatype Simulation = Simulation(steps: seq<SimStep>, ended: bool, result: string, status: string)

  function StepOf(node: string, d: Directive): SimStep {
    SimStep(node, d.kind, d.prompt, d.kind == SayGather)
  }

  function Finish(sim: Simulation, o: Outcome): Simulation {
    sim.(ended := true, result := o.result, status := o.status)
  }

  function StepsOf(ts: seq<Turn>): seq<SimStep> {
    seq(|ts|, i requires 0 <= i < |ts| => StepOf(ts[i].node, ts[i].directive))
  }

  /** What the caller sees of a trace. */
  function Shown(ts: seq<Turn>): Simulation
    requires ts != []
  {
    var sim := Simulation(StepsOf(ts), false, "", "");
    if Last(ts).outcome.Some? then Finish(sim, Last(ts).outcome.value) else sim
  }

  /** Resuming: the turns on `xs + ys` are the turns on `xs`, carried on from the last of them. */
  lemma {:induction false} TurnsConcat(f: Flow, t: Turn, xs: seq<string>, ys: seq<string>)
    ensures var ts := Turns(f, t, xs);
            Turns(f, t, xs + ys) == ts[..|ts| - 1] + Turns(f, Last(ts), ys)
    decreases |xs|
  {
    if t.outcome.Some? {
    } else if xs == [] {
      assert xs + ys == ys;
    } else {
      var next := React(f, t.node, xs[0]);
      TurnsConcat(f, next, xs[1..], ys);
      assert (xs + ys)[1..] == xs[1..] + ys;
      var ts, rest := Turns(f, t, xs), Turns(f, next, xs[1..]);
      assert ts == [t] + rest && ts[..|ts| - 1] == [t] + rest[..|rest| - 1];
    }
  }

  lemma {:induction false} TurnsLength(f: Flow, t: Turn, inputs: seq<string>)
    ensures var ts := Turns(f, t, inputs);
            && |ts| <= |inputs| + 1
            && (Last(ts).outcome.None? ==> |ts| == |inputs| + 1)
            && forall i | 0 <= i < |ts| - 1 :: ts[i].outcome.None? && ts[i + 1] == React(f, ts[i].node, inputs[i])
    decreases |inputs|
  {
    if t.outcome.None? && inputs != [] {
      TurnsLength(f, React(f, t.node, inputs[0]), inputs[1..]);
    }
  }

  /**
   Simulation is compositional: once ended it ignores further inputs; otherwise a longer input list
   extends the trace from its last turn, with one step per input consumed after the first step.
   */
  lemma SimulationComposes(f: Flow, xs: seq<string>, ys: seq<string>)
    ensures var ts, more := Trace(f, xs), Trace(f, xs + ys);
            if Last(ts).outcome.Some? then more == ts
            else |ts| == |xs| + 1 && more == ts[..|xs|] + Turns(f, Last(ts), ys)
  {
    TurnsConcat(f, Emit(f, f.entry), xs, ys);
    TurnsLength(f, Emit(f, f.entry), xs);
  }

  lemma StepsSnoc(ts: seq<Turn>, t: Turn)
    ensures StepsOf(ts + [t]) == StepsOf(ts) + [StepOf(t.node, t.directive)]
  {
  }

  /** The simulator stands at `t`, having shown the turns `done` and `t` for the first `i` inputs. */
  ghost predicate StandsAt(f: Flow, inputs: seq<string>, i: nat, done: seq<Turn>, t: Turn, sim: Simulation) {
    && i <= |inputs|
    && Trace(f, inputs) == done + Turns(f, t, inputs[i..])
    && sim == Simulation(StepsOf(done + [t]), false, "", "")
  }

  lemma StandsAtStart(f: Flow, inputs: seq<string>)
    ensures var t := Emit(f, f.entry);
            StandsAt(f, inputs, 0, [], t, Simulation([StepOf(t.node, t.directive)], false, "", ""))
  {
    assert inputs[0..] == inputs;
    StepsSnoc([], Emit(f, f.entry));
  }

  lemma StandsAtNext(f: Flow, inputs: seq<string>, i: nat, done: seq<Turn>, t: Turn, sim: Simulation)
    requires i < |inputs| && t.outcome.None? && StandsAt(f, inputs, i, done, t, sim)
    ensures var next := React(f, t.node, inputs[i]);
            var step := StepOf(next.node, next.directive);
            StandsAt(f, inputs, i + 1, done + [t], next, sim.(steps := sim.steps + [step]))
  {
    assert inputs[i..][1..] == inputs[i + 1..];
    StepsSnoc(done + [t], React(f, t.node, inputs[i]));
  }

  lemma StandsAtEnd(f: Flow, inputs: seq<string>, i: nat, done: seq<Turn>, t: Turn, sim: Simulation)
    requires StandsAt(f, inputs, i, done, t, sim) && (t.outcome.Some? || i == |inputs|)
    ensures Shown(Trace(f, inputs)) == if t.outcome.Some? then Finish(sim, t.outcome.value) else sim
  {
    assert Trace(f, inputs) == done + [t];
  }

  /** The reply that a simulated input stands for. */
  function Meant(input: string): Reply {
    if input == "timeout" then Silence else Key(input)
  }

  /** A step shows the node's prompt, whether it talks, gathers or hangs up, and whether it awaits a key. */
  predicate ShowsNode(step: SimStep, name: string, node: Node) {
    && step.node == name && step.say == node.say
    && step.kind == (if EndsCall(node) then Hangup else if node.gather.Some? then SayGather else Say)
    && (step.awaits <==> !EndsCall(node) && node.gather.Some?)
  }

  /** The inputs lead along the nodes `names`, none of which ends the call before the last. */
  ghost predicate LeadsAlong(f: Flow, names: seq<string>, inputs: seq<string>) {
    && names != [] && |names| - 1 <= |inputs|
    && forall i | 0 <= i < |names| - 1 ::
         !EndsCall(NodeAt(f, names[i])) && Branch(NodeAt(f, names[i]), Meant(inputs[i])) == Some(names[i + 1])
  }

  /**
   The simulation shows those nodes, in order; and then it has ended with the last one's result, has run out of inputs,
   or has met an input that leads nowhere and hangs up unanswered.
   */
  ghost predicate ShowsWalk(f: Flow, names: seq<string>, inputs: seq<string>, sim: Simulation) {
    LeadsAlong(f, names, inputs) &&
    var n := |names| - 1;
    var last := NodeAt(f, names[n]);
    && |names| <= |sim.steps|
    && (forall i | 0 <= i <= n :: ShowsNode(sim.steps[i], names[i], NodeAt(f, names[i])))
    && if EndsCall(last) then
         |sim.steps| == n + 1 && sim.ended && sim.result == last.result && sim.status == "completed"
       else if n == |inputs| then
         |sim.steps| == n + 1 && !sim.ended && sim.result == "" && sim.status == ""
       else
         && Branch(last, Meant(inputs[n])).None?
         && |sim.steps| == n + 2 && sim.steps[n + 1] == SimStep(names[n], Hangup, None, false)
         && sim.ended && sim.result == "no_answer" && sim.status == "no_answer"
  }

  lemma ShowsFirst(f: Flow, t: Turn, ts: seq<Turn>)
    requires ts != []
    ensures Shown([t] + ts) == Shown(ts).(steps := [StepOf(t.node, t.directive)] + Shown(ts).steps)
  {
    assert Last([t] + ts) == Last(ts);
  }

  lemma ShowsWalkLonger(f: Flow, name: string, names: seq<string>, inputs: seq<string>, sim: Simulation, step: SimStep)
    requires inputs != [] && ShowsWalk(f, names, inputs[1..], sim) && !EndsCall(NodeAt(f, name))
    requires Branch(NodeAt(f, name), Meant(inputs[0])) == Some(names[0]) && ShowsNode(step, name, NodeAt(f, name))
    ensures ShowsWalk(f, [name] + names, inputs, sim.(steps := [step] + sim.steps))
  {
    var all, steps := [name] + names, [step] + sim.steps;
    assert forall i | 0 < i < |all| :: all[i] == names[i - 1];
    assert forall i | 0 < i < |inputs| :: inputs[i] == inputs[1..][i - 1];
    assert forall i | 0 < i < |steps| :: steps[i] == sim.steps[i - 1];
    forall i | 0 <= i < |all| - 1
      ensures !EndsCall(NodeAt(f, all[i])) && Branch(NodeAt(f, all[i]), Meant(inputs[i])) == Some(all[i + 1])
    {
      if i > 0 {
        assert Branch(NodeAt(f, names[i - 1]), Meant(inputs[1..][i - 1])) == Some(names[i - 1 + 1]);
      }
    }
  }

  lemma EmitShows(f: Flow, name: string)
    ensures ShowsNode(StepOf(name, Emit(f, name).directive), name, NodeAt(f, name))
  {
    EmitSpeaks(f, name);
  }

  /** From any node on, the simulation shows the walk that the inputs make in the graph. */
  lemma {:induction false} SimulationWalksFrom(f: Flow, name: string, inputs: seq<string>) returns (names: seq<string>)
    ensures names != [] && names[0] == name
    ensures ShowsWalk(f, names, inputs, Shown(Turns(f, Emit(f, name), inputs)))
    decreases |inputs|
  {
    var t := Emit(f, name);
    EmitSpeaks(f, name);
    EmitShows(f, name);
    names := [name];
    if t.outcome.Some? || inputs == [] {
      assert Turns(f, t, inputs) == [t];
      return;
    }
    var next := React(f, name, inputs[0]);
    assert Turns(f, t, inputs) == [t] + Turns(f, next, inputs[1..]);
    ShowsFirst(f, t, Turns(f, next, inputs[1..]));
    AnsweredFollows(f, name, Meant(inputs[0]));
    var branch := Branch(NodeAt(f, name), Meant(inputs[0]));
    if branch.Some? {
      assert next == Emit(f, branch.value);
      var rest := SimulationWalksFrom(f, branch.value, inputs[1..]);
      names := [name] + rest;
      ShowsWalkLonger(f, name, rest, inputs, Shown(Turns(f, next, inputs[1..])), StepOf(name, t.directive));
    } else {
      assert Turns(f, next, inputs[1..]) == [next];
    }
  }

  method Simulate(f: Flow, inputs: seq<string>) returns (sim: Simulation, ghost names: seq<string>)
    ensures sim == Shown(Trace(f, inputs))
    ensures names != [] && names[0] == f.entry && ShowsWalk(f, names, inputs, sim)
  {
    names := SimulationWalksFrom(f, f.entry, inputs);
    var st := new FlowState(f.entry);
    sim := Simulation([], false, "", "");
    var t := Emit(f, st.node);
    var d, o := t.directive, t.outcome;
    sim := sim.(steps := sim.steps + [StepOf(st.node, d)]);
    ghost var done: seq<Turn> := [];
    StandsAtStart(f, inputs);
    if o.Some? {
      StandsAtEnd(f, inputs, 0, done, t, sim);
      sim := Finish(sim, o.value);
      return;
    }
    for i := 0 to |inputs|
      invariant o.None? && fresh(st)
      invariant StandsAt(f, inputs, i, done, Turn(st.node, d, o), sim)
    {
      StandsAtNext(f, inputs, i, done, Turn(st.node, d, o), sim);
      done := done + [Turn(st.node, d, o)];
      if inputs[i] == TIMEOUT {
        d, o := OnTimeout(f, st);
      } else {
        d, o := OnDTMF(f, st, inputs[i]);
      }
      sim := sim.(steps := sim.steps + [StepOf(st.node, d)]);
      if o.Some? {
        StandsAtEnd(f, inputs, i + 1, done, Turn(st.node, d, o), sim);
        sim := Finish(sim, o.value);
      return;
      }
    }
    StandsAtEnd(f, inputs, |inputs|, done, Turn(st.node, d, o), sim);
  }

  // ---------------------------------------------------------------- a live session

  datatype LegAction =
    | Played(prompt: Option<Prompt>)
    | Asked(prompt: Option<Prompt>, gather: Option<Gather>)
    | HungUp(prompt: Option<Prompt>)

  /**
   A voice leg that will give the replies of `script`, in order, and then none. The session is
   observed up to the gather that gets no reply, so every finite prefix of every leg is covered.
   */
  class Leg {
    var script: seq<Reply>
    var log: seq<LegAction>
    const playFails: bool
    const hangupFails: bool

    constructor (script: seq<Reply>, playFails: bool, hangupFails: bool)
      ensures this.script == script && log == []
      ensures this.playFails == playFails && this.hangupFails == hangupFails
    {
      this.script, this.log, this.playFails, this.hangupFails := script, [], playFails, hangupFails;
    }

    method Play(p: Option<Prompt>) returns (failed: bool)
      modifies this`log
      ensures log == old(log) + [Played(p)] && failed == playFails
    {
      log := log + [Played(p)];
      failed := playFails;
    }

    method SayGather(p: Option<Prompt>, g: Option<Gather>) returns (r: Option<Reply>)
      modifies this
      ensures log == old(log) + [Asked(p, g)]
      ensures old(script) == [] ==> r.None? && script == []
      ensures old(script) != [] ==> r == Some(old(script)[0]) && script == old(script)[1..]
    {
      log := log + [Asked(p, g)];
      if script == [] {
        return None;
      }
      r := Some(script[0]);
      script := script[1..];
    }

    method Hangup(p: Option<Prompt>) returns (failed: bool)
      modifies this`log
      ensures log == old(log) + [HungUp(p)] && failed == hangupFails
    {
      log := log + [HungUp(p)];
      failed := hangupFails;
    }
  }

  datatype SessionEnd = Ended(out: Option<Outcome>) | Failed | Waiting(node: string)

  datatype Session = Session(end: SessionEnd, log: seq<LegAction>, left: seq<Reply>)

  function Answered(f: Flow, name: string, r: Reply): Turn
    requires !r.Broken?
  {
    if r.Silence? then TimeOut(f, name) else Press(f, name, r.digit)
  }

  function Converse(f: Flow, t: Turn, script: seq<Reply>, playFails: bool, hangupFails: bool): Session
    decreases |script|
  {
    var d := t.directive;
    match d.kind
    case Hangup => Session(if hangupFails then Failed else Ended(t.outcome), [HungUp(d.prompt)], script)
    case Say =>
      if playFails then Session(Failed, [Played(d.prompt)], script)
      else Session(Ended(Some(Outcome("", COMPLETED))), [Played(d.prompt), HungUp(None)], script)
    case SayGather =>
      var ask := [Asked(d.prompt, d.gather)];
      if script == [] then Session(Waiting(t.node), ask, [])
      else if script[0].Broken? then Session(Failed, ask, script[1..])
      else
        var rest := Converse(f, Answered(f, t.node, script[0]), script[1..], playFails, hangupFails);
        rest.(log := ask + rest.log)
  }

  /** What remains of a session once the pending question has been answered. */
  lemma ConverseStep(f: Flow, t: Turn, script: seq<Reply>, playFails: bool, hangupFails: bool, before: seq<LegAction>)
    requires t.directive.kind == SayGather && script != [] && !script[0].Broken?
    ensures var now := Converse(f, t, script, playFails, hangupFails);
            var rest := Converse(f, Answered(f, t.node, script[0]), script[1..], playFails, hangupFails);
            && now.end == rest.end && now.left == rest.left
            && before + now.log == (before + [Asked(t.directive.prompt, t.directive.gather)]) + rest.log
  {
  }

  /** How the call goes from its last node: it hangs up, talks and hangs up, waits, breaks, or is not answered. */
  ghost predicate Closes(name: string, node: Node, replies: seq<Reply>, s: Session, playFails: bool, hangupFails: bool)
  {
    var ask := Asked(node.say, node.gather);
    if EndsCall(node) then
      && s.log == [HungUp(node.say)] && s.left == replies
      && s.end == if hangupFails then Failed else Ended(Some(Outcome(node.result, "completed")))
    else if node.gather.None? then
      && s.left == replies
      && if playFails then s.log == [Played(node.say)] && s.end == Failed
         else s.log == [Played(node.say), HungUp(None)] && s.end == Ended(Some(Outcome("", "completed")))
    else if replies == [] then s.log == [ask] && s.left == [] && s.end == Waiting(name)
    else if replies[0].Broken? then s.log == [ask] && s.left == replies[1..] && s.end == Failed
    else
      && Branch(node, replies[0]).None? && s.log == [ask, HungUp(None)] && s.left == replies[1..]
      && s.end == if hangupFails then Failed else Ended(Some(Outcome("no_answer", "no_answer")))
  }

  /** At a gather, the leg is asked with the node's prompt and keypad, and its reply leads to `next`. */
  predicate AsksAndMoves(node: Node, reply: Reply, next: string, action: LegAction) {
    && !EndsCall(node) && node.gather.Some? && action == Asked(node.say, node.gather)
    && Branch(node, reply) == Some(next)
  }

  /** The leg is asked with the prompt and keypad of each node the replies lead along, and closes from the last. */
  ghost predicate HearsWalk(f: Flow, names: seq<string>, replies: seq<Reply>, s: Session, playFails: bool,
                            hangupFails: bool)
  {
    names != [] &&
    var n := |names| - 1;
    && n <= |replies| && n <= |s.log|
    && (forall i | 0 <= i < n :: AsksAndMoves(NodeAt(f, names[i]), replies[i], names[i + 1], s.log[i]))
    && Closes(names[n], NodeAt(f, names[n]), replies[n..], s.(log := s.log[n..]), playFails, hangupFails)
  }

  lemma HearsWalkLonger(f: Flow, name: string, names: seq<string>, replies: seq<Reply>, s: Session, playFails: bool,
                        hangupFails: bool)
    requires replies != [] && HearsWalk(f, names, replies[1..], s, playFails, hangupFails)
    requires var node := NodeAt(f, name);
             !EndsCall(node) && node.gather.Some? && Branch(node, replies[0]) == Some(names[0])
    ensures var node := NodeAt(f, name);
            var longer := s.(log := [Asked(node.say, node.gather)] + s.log);
            HearsWalk(f, [name] + names, replies, longer, playFails, hangupFails)
  {
    var all, n := [name] + names, |names| - 1;
    var log := [Asked(NodeAt(f, name).say, NodeAt(f, name).gather)] + s.log;
    assert all[n + 1] == names[n] && replies[n + 1..] == replies[1..][n..] && log[n + 1..] == s.log[n..];
    forall i | 0 <= i < n + 1 ensures AsksAndMoves(NodeAt(f, all[i]), replies[i], all[i + 1], log[i]) {
      if i > 0 {
        var j := i - 1;
        assert AsksAndMoves(NodeAt(f, names[j]), replies[1..][j], names[j + 1], s.log[j]);
        assert all[i] == names[j] && all[i + 1] == names[j + 1] && log[i] == s.log[j] && replies[i] == replies[1..][j];
      }
    }
  }

  /** From any node on, a session is the walk that the replies make in the graph. */
  lemma {:induction false} SessionWalksFrom(f: Flow, name: string, replies: seq<Reply>, playFails: bool,
                                            hangupFails: bool) returns (names: seq<string>)
    ensures names != [] && names[0] == name
    ensures var s := Converse(f, Emit(f, name), replies, playFails, hangupFails);
            HearsWalk(f, names, replies, s, playFails, hangupFails)
    decreases |replies|
  {
    var t, node := Emit(f, name), NodeAt(f, name);
    EmitSpeaks(f, name);
    names := [name];
    if t.directive.kind == SayGather && replies != [] && !replies[0].Broken? && Branch(node, replies[0]).Some? {
      var next := Branch(node, replies[0]).value;
      AnsweredFollows(f, name, replies[0]);
      assert Answered(f, name, replies[0]) == Emit(f, next);
      var rest := Converse(f, Emit(f, next), replies[1..], playFails, hangupFails);
      var more := SessionWalksFrom(f, next, replies[1..], playFails, hangupFails);
      names := [name] + more;
      HearsWalkLonger(f, name, more, replies, rest, playFails, hangupFails);
    } else {
      SessionClosesAt(f, name, replies, playFails, hangupFails);
    }
  }

  /** Where no reply leads on, the session closes. */
  lemma SessionClosesAt(f: Flow, name: string, replies: seq<Reply>, playFails: bool, hangupFails: bool)
    requires var t, node := Emit(f, name), NodeAt(f, name);
             t.directive.kind == SayGather && replies != [] ==> replies[0].Broken? || Branch(node, replies[0]).None?
    ensures var s := Converse(f, Emit(f, name), replies, playFails, hangupFails);
            HearsWalk(f, [name], replies, s, playFails, hangupFails)
  {
    var s := Converse(f, Emit(f, name), replies, playFails, hangupFails);
    EmitSpeaks(f, name);
    if replies != [] && !replies[0].Broken? {
      AnsweredFollows(f, name, replies[0]);
    }
    assert replies[0..] == replies && s.log[0..] == s.log;
    assert Closes(name, NodeAt(f, name), replies, s, playFails, hangupFails);
  }

  method RunSession(f: Flow, leg: Leg) returns (end: SessionEnd)
    modifies leg
    ensures var s := Converse(f, Emit(f, f.entry), old(leg.script), leg.playFails, leg.hangupFails);
            end == s.end && leg.log == old(leg.log) + s.log && leg.script == s.left
  {
    var d, st, out := Start(f);
    while true
      invariant fresh(st)
      invariant var s := Converse(f, Emit(f, f.entry), old(leg.script), leg.playFails, leg.hangupFails);
                var now := Converse(f, Turn(st.node, d, out), leg.script, leg.playFails, leg.hangupFails);
                now.end == s.end && leg.log + now.log == old(leg.log) + s.log && now.left == s.left
      decreases |leg.script|
    {
      match d.kind
      case Hangup =>
        var failed := leg.Hangup(d.prompt);
        return if failed then Failed else Ended(out);
      case Say =>
        var failed := leg.Play(d.prompt);
        if failed {
          return Failed;
        }
        var _ := leg.Hangup(None);
        return Ended(Some(Outcome("", COMPLETED)));
      case SayGather =>
        ghost var before, script := leg.log, leg.script;
        var r := leg.SayGather(d.prompt, d.gather);
        if r.None? {
          return Waiting(st.node);
        }
        if r.value.Broken? {
          return Failed;
        }
        ConverseStep(f, Turn(st.node, d, out), script, leg.playFails, leg.hangupFails, before);
        if r.value.Silence? {
          d, out := OnTimeout(f, st);
        } else {
          d, out := OnDTMF(f, st, r.value.digit);
        }
    }
  }

  // ---------------------------------------------------------------- the session refines the simulation

  /** The leg that replays a simulation's inputs. */
  function Replay(inputs: seq<string>): seq<Reply> {
    seq(|inputs|, i requires 0 <= i < |inputs| => if inputs[i] == TIMEOUT then Silence else Key(inputs[i]))
  }

  /** How many turns gather a keypress before the first one that does not. */
  function Gathers(ts: seq<Turn>): (k: nat)
    ensures k <= |ts|
    ensures forall i | 0 <= i < k :: ts[i].directive.kind == SayGather
    ensures k < |ts| ==> ts[k].directive.kind != SayGather
  {
    if ts == [] || ts[0].directive.kind != SayGather then 0 else 1 + Gathers(ts[1..])
  }

  function Questions(ts: seq<Turn>): seq<LegAction> {
    seq(|ts|, i requires 0 <= i < |ts| => Asked(ts[i].directive.prompt, ts[i].directive.gather))
  }

  /** How the session closes on a turn that does not gather. */
  function Goodbye(t: Turn): seq<LegAction> {
    if t.directive.kind == Hangup then [HungUp(t.directive.prompt)] else [Played(t.directive.prompt), HungUp(None)]
  }

  function Verdict(t: Turn): Option<Outcome> {
    if t.directive.kind == Hangup then t.outcome else Some(Outcome("", COMPLETED))
  }

  ghost predicate Decides(ts: seq<Turn>, inputs: seq<string>, s: Session)
    requires ts != []
  {
    var k := Gathers(ts);
    if k < |ts| then
      && k <= |inputs| && s.left == Replay(inputs[k..])
      && s.end == Ended(Verdict(ts[k]))
      && s.log == Questions(ts[..k]) + Goodbye(ts[k])
    else
      && |ts| == |inputs| + 1 && s.left == []
      && s.end == Waiting(Last(ts).node)
      && s.log == Questions(ts)
  }

  lemma DecidesLater(t: Turn, ts: seq<Turn>, inputs: seq<string>, s: Session)
    requires ts != [] && inputs != [] && t.directive.kind == SayGather
    requires Decides(ts, inputs[1..], s)
    ensures Decides([t] + ts, inputs, s.(log := [Asked(t.directive.prompt, t.directive.gather)] + s.log))
  {
    var all, k := [t] + ts, Gathers(ts);
    assert all[1..] == ts && Gathers(all) == 1 + k;
    if k < |ts| {
      assert inputs[1..][k..] == inputs[1 + k..];
      QuestionsCons(t, ts[..k]);
      assert all[..1 + k] == [t] + ts[..k] && all[1 + k] == ts[k];
    } else {
      QuestionsCons(t, ts);
      assert Last(all) == Last(ts);
    }
  }

  lemma QuestionsCons(t: Turn, ts: seq<Turn>)
    ensures Questions([t] + ts) == [Asked(t.directive.prompt, t.directive.gather)] + Questions(ts)
  {
  }

  lemma DecidesNow(f: Flow, t: Turn, inputs: seq<string>)
    requires Coherent(t) && (t.directive.kind == SayGather ==> inputs == [])
    ensures Decides(Turns(f, t, inputs), inputs, Converse(f, t, Replay(inputs), false, false))
  {
    assert inputs[0..] == inputs;
    assert Turns(f, t, inputs)[..0] == [] && Questions([]) == [];
    assert t.directive.kind == SayGather ==> Turns(f, t, inputs)[1..] == [];
  }

  lemma {:induction false} SessionFollowsTurns(f: Flow, t: Turn, inputs: seq<string>)
    requires Coherent(t)
    ensures Decides(Turns(f, t, inputs), inputs, Converse(f, t, Replay(inputs), false, false))
    decreases |inputs|
  {
    if t.directive.kind != SayGather || inputs == [] {
      DecidesNow(f, t, inputs);
    } else {
      var next := React(f, t.node, inputs[0]);
      StepsAreCoherent(f, t.node, inputs[0]);
      SessionFollowsTurns(f, next, inputs[1..]);
      assert Replay(inputs)[1..] == Replay(inputs[1..]);
      var ts, s := Turns(f, next, inputs[1..]), Converse(f, next, Replay(inputs[1..]), false, false);
      DecidesLater(t, ts, inputs, s);
      assert Turns(f, t, inputs) == [t] + ts;
      assert Converse(f, t, Replay(inputs), false, false)
          == s.(log := [Asked(t.directive.prompt, t.directive.gather)] + s.log);
    }
  }

  /**
   A live session on an error-free leg is decided by the first turn of the simulation that does
   not gather: a hangup gives that outcome, a plain prompt gives "completed" with no result. It has
   then used one reply per earlier turn. If every turn gathers, all replies are used and the session
   is waiting at the simulation's last node.
   */
  lemma SessionRefinesSimulation(f: Flow, inputs: seq<string>)
    ensures Decides(Trace(f, inputs), inputs, Converse(f, Emit(f, f.entry), Replay(inputs), false, false))
  {
    SessionFollowsTurns(f, Emit(f, f.entry), inputs);
  }

  // ---------------------------------------------------------------- the flow every org starts with

  function Spoken(tts: string): Option<Prompt> {
    Some(Prompt("", tts))
  }

  function Recorded(audio: string): Option<Prompt> {
    Some(Prompt(audio, ""))
  }

  const GREET := Node(
    Spoken("Press 1 to confirm your order, 2 to cancel, 3 to reschedule."), Some(Gather(1, 6)),
    map["1" := "confirmed", "2" := "cancelled", "3" := "reschedule", "timeout" := "no_input"], "", false)

  const ORDER_CONFIRM := Flow("greet", map[
    "greet" := GREET,
    "confirmed" := Node(Recorded("confirmed.wav"), None, map[], "confirmed", true),
    "cancelled" := Node(Recorded("cancelled.wav"), None, map[], "cancelled", true),
    "reschedule" := Node(Recorded("reschedule.wav"), None, map[], "reschedule", true),
    "no_input" := Node(None, None, map[], "no_answer", true)])

  /** What a customer's first reply decides: silence completes as "no_answer", an unknown key is not answered at all. */
  function OrderOutcome(r: Reply): Outcome
    requires !r.Broken?
  {
    match r
    case Silence => Outcome("no_answer", COMPLETED)
    case Key(digit) =>
      if digit == "1" then Outcome("confirmed", COMPLETED)
      else if digit == "2" then Outcome("cancelled", COMPLETED)
      else if digit == "3" then Outcome("reschedule", COMPLETED)
      else if digit == TIMEOUT then Outcome("no_answer", COMPLETED)
      else Outcome("no_answer", NO_ANSWER)
  }

  /** The recording that closes the call, if any. */
  function OrderGoodbye(r: Reply): Option<Prompt> {
    match r
    case Key("1") => Some(Prompt("confirmed.wav", ""))
    case Key("2") => Some(Prompt("cancelled.wav", ""))
    case Key("3") => Some(Prompt("reschedule.wav", ""))
    case _ => None
  }

  lemma OrderAnswered(r: Reply)
    requires !r.Broken?
    ensures var t := Answered(ORDER_CONFIRM, "greet", r);
            && t.directive.kind == Hangup && t.directive.prompt == OrderGoodbye(r)
            && t.outcome == Some(OrderOutcome(r))
  {
    assert NodeAt(ORDER_CONFIRM, "greet") == GREET;
  }

  /** On the default flow, every error-free session asks once and is decided by the first reply. */
  lemma OrderConfirmDecidesAtOnce(script: seq<Reply>)
    requires script != [] && !script[0].Broken?
    ensures var s := Converse(ORDER_CONFIRM, Emit(ORDER_CONFIRM, "greet"), script, false, false);
            && s.end == Ended(Some(OrderOutcome(script[0]))) && s.left == script[1..]
            && s.log == [Asked(GREET.say, Some(Gather(1, 6))), HungUp(OrderGoodbye(script[0]))]
            && GREET.say == Some(Prompt("", "Press 1 to confirm your order, 2 to cancel, 3 to reschedule."))
  {
    var t := Emit(ORDER_CONFIRM, "greet");
    assert NodeAt(ORDER_CONFIRM, "greet") == GREET && t.directive.kind == SayGather;
    OrderAnswered(script[0]);
    var next := Answered(ORDER_CONFIRM, "greet", script[0]);
    assert Converse(ORDER_CONFIRM, next, script[1..], false, false)
        == Session(Ended(next.outcome), [HungUp(next.directive.prompt)], script[1..]);
  }

  // ---------------------------------------------------------------- the test call

  /** The outcome a test call records: the entry node's, or the one the single keypress reaches. */
  function TestOutcome(f: Flow, digit: string): (out: Option<Outcome>)
    ensures EndsCall(NodeAt(f, f.entry)) ==> out == Some(Outcome(NodeAt(f, f.entry).result, "completed"))
    ensures !EndsCall(NodeAt(f, f.entry)) ==>
              match Branch(NodeAt(f, f.entry), Key(digit))
              case None => out == Some(Outcome("no_answer", "no_answer"))
              case Some(next) =>
                out == if EndsCall(NodeAt(f, next)) then Some(Outcome(NodeAt(f, next).result, "completed")) else None
  {
    var t := Emit(f, f.entry);
    if t.outcome.None? then Press(f, t.node, digit).outcome else t.outcome
  }

  /** The node a keypress leads to, if it leads anywhere. */
  function PressedTo(f: Flow, name: string, digit: string): Option<string> {
    var on := NodeAt(f, name).on;
    if digit in on then Some(on[digit]) else Lookup(on, INVALID)
  }

  /** A test call has an outcome to record exactly when the entry, or the node its keypress leads to, ends the call. */
  lemma TestCallEndsExactlyWhen(f: Flow, digit: string)
    ensures TestOutcome(f, digit).Some?
       <==> || IsTerminal(f, f.entry)
            || PressedTo(f, f.entry, digit).None?
            || IsTerminal(f, PressedTo(f, f.entry, digit).value)
  {
  }

  /**
   A test call shows the outcome of the one-input simulation, and none exactly when that has none; except that the
   digit "timeout" is pressed, not awaited, so where the entry gathers it must have a timeout branch or no invalid one.
   */
  lemma TestCallIsSimulationExactlyWhen(f: Flow, digit: string)
    ensures TestOutcome(f, digit) == Last(Trace(f, [digit])).outcome
       <==> || digit != TIMEOUT
            || IsTerminal(f, f.entry)
            || TIMEOUT in NodeAt(f, f.entry).on
            || INVALID !in NodeAt(f, f.entry).on
  {
    var t := Emit(f, f.entry);
    if t.outcome.None? {
      var next := React(f, t.node, digit);
      assert [digit][1..] == [] && Turns(f, next, []) == [next];
      assert Trace(f, [digit]) == [t] + Turns(f, next, [digit][1..]);
      if digit == TIMEOUT {
        PressedTimeoutIsTimeoutExactlyWhen(f, t.node);
        assert COMPLETED[0] != NO_ANSWER[0];
      }
    }
  }
}
