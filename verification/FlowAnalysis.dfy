/**
 What a flow's graph tells before any call: whether a simulation can stop at a plain prompt, whether the simulator
 shows what a live session does, and whether every session ends.
 */
module FlowAnalysis {
  import opened Options
  import opened Graphs
  import opened FlowEngine

  // ---------------------------------------------------------------- walking the graph

  /** The transitions the simulator can take: from every node that does not end the call, along every branch. */
  function Branches(f: Flow): Graph {
    map n | n in f.nodes && !IsTerminal(f, n) :: f.nodes[n].on.Values
  }

  /** The transitions between gathers. */
  function GatherBranches(f: Flow): Graph {
    map n | n in f.nodes && IsGather(f, n) :: set m | m in f.nodes[n].on.Values && IsGather(f, m)
  }

  lemma TakeBranch(f: Flow, n: string, m: string) returns (input: string)
    requires IsEdge(Branches(f), n, m)
    ensures React(f, n, input) == Emit(f, m)
  {
    input :| input in f.nodes[n].on && f.nodes[n].on[input] == m;
  }

  /** Every path in the graph is walked by some inputs. */
  lemma {:induction false} WalkPath(f: Flow, path: seq<string>) returns (inputs: seq<string>)
    requires IsPath(Branches(f), path)
    ensures |inputs| == |path| - 1
    ensures var ts := Turns(f, Emit(f, path[0]), inputs);
            |ts| == |path| && forall i | 0 <= i < |path| :: ts[i] == Emit(f, path[i])
  {
    if |path| == 1 {
      return [];
    }
    assert IsEdge(Branches(f), path[0], path[0 + 1]);
    var input := TakeBranch(f, path[0], path[1]);
    forall i | 0 <= i < |path[1..]| - 1 ensures IsEdge(Branches(f), path[1..][i], path[1..][i + 1]) {
      assert IsEdge(Branches(f), path[i + 1], path[i + 1 + 1]);
    }
    var rest := WalkPath(f, path[1..]);
    inputs := [input] + rest;
    assert inputs[1..] == rest;
    assert Turns(f, Emit(f, path[0]), inputs) == [Emit(f, path[0])] + Turns(f, Emit(f, path[1]), rest);
  }

  /** Every turn is at a node of a closed set, or is a hangup for want of a branch at such a node. */
  ghost predicate Within(f: Flow, all: set<string>, t: Turn) {
    && t.node in all
    && (t == Emit(f, t.node)
        || (t == NoWayOn(t.node) && !IsTerminal(f, t.node)
            && (TIMEOUT !in NodeAt(f, t.node).on || INVALID !in NodeAt(f, t.node).on)))
  }

  lemma ReactStaysWithin(f: Flow, all: set<string>, name: string, input: string)
    requires Successors(Branches(f), all) <= all && name in all && !IsTerminal(f, name)
    ensures Within(f, all, React(f, name, input))
  {
    var on := NodeAt(f, name).on;
    forall key | key in on ensures on[key] in all {
      assert on[key] in Branches(f)[name];
      assert on[key] in Successors(Branches(f), all);
    }
  }

  lemma {:induction false} TurnsStayWithin(f: Flow, all: set<string>, t: Turn, inputs: seq<string>)
    requires Successors(Branches(f), all) <= all && Within(f, all, t)
    ensures forall u | u in Turns(f, t, inputs) :: Within(f, all, u)
    decreases |inputs|
  {
    if t.outcome.None? && inputs != [] {
      ReactStaysWithin(f, all, t.node, inputs[0]);
      TurnsStayWithin(f, all, React(f, t.node, inputs[0]), inputs[1..]);
    }
  }

  /** The nodes the simulator can come to from `name`. */
  function From(f: Flow, name: string): set<string> {
    Closure(Branches(f), {name})
  }

  /** Exactly those: every one of them is the last node of some simulation. */
  lemma ComesTo(f: Flow, start: string, name: string) returns (inputs: seq<string>)
    requires name in From(f, start)
    ensures Last(Turns(f, Emit(f, start), inputs)) == Emit(f, name)
  {
    var path := PathTo(Branches(f), {start}, name);
    inputs := WalkPath(f, path);
  }

  // ---------------------------------------------------------------- what the simulator promises

  /** If no simulation stops short of an outcome except to wait for a key. */
  ghost predicate AlwaysAwaits(f: Flow) {
    forall inputs: seq<string> :: var t := Last(Trace(f, inputs)); t.outcome.None? ==> t.directive.kind == SayGather
  }

  /**
   A simulation that has not ended is waiting for a key, on every input, exactly when the simulator can come to no
   plain or missing node.
   */
  lemma AwaitsExactlyWhen(f: Flow)
    ensures AlwaysAwaits(f) <==> forall n | n in From(f, f.entry) :: !IsPlain(f, n)
  {
    if n :| n in From(f, f.entry) && IsPlain(f, n) {
      var inputs := ComesTo(f, f.entry, n);
      assert Last(Trace(f, inputs)) == Emit(f, n);
    } else {
      forall inputs: seq<string> | Last(Trace(f, inputs)).outcome.None?
        ensures Last(Trace(f, inputs)).directive.kind == SayGather
      {
        TurnsStayWithin(f, From(f, f.entry), Emit(f, f.entry), inputs);
        assert Last(Trace(f, inputs)) in Trace(f, inputs);
      }
    }
  }

  const BLANK := Outcome("", COMPLETED)

  function SessionOn(f: Flow, inputs: seq<string>): Session {
    Converse(f, Emit(f, f.entry), Replay(inputs), false, false)
  }

  /** An ended simulation shows what the session gives exactly when only its last turn does not gather, or by luck. */
  lemma SameOutcomeExactlyWhen(f: Flow, inputs: seq<string>)
    requires Last(Trace(f, inputs)).outcome.Some?
    ensures var ts := Trace(f, inputs);
            SessionOn(f, inputs).end == Ended(Last(ts).outcome)
            <==> AllGather(ts[..|ts| - 1]) || Last(ts).outcome == Some(BLANK)
  {
    var ts := Trace(f, inputs);
    TurnsLength(f, Emit(f, f.entry), inputs);
    TurnsCoherent(f, Emit(f, f.entry), inputs);
    assert forall i | 0 <= i < |ts| :: ts[i] in ts;
    VerdictIsLast(ts);
    SessionRefinesSimulation(f, inputs);
    assert SessionOn(f, inputs).end == Ended(Verdict(ts[Gathers(ts)]));
  }

  /** The first turn that does not gather gives the last turn's outcome exactly when it is the last, or by luck. */
  lemma VerdictIsLast(ts: seq<Turn>)
    requires ts != [] && Last(ts).outcome.Some? && forall i | 0 <= i < |ts| :: Coherent(ts[i])
    requires forall i | 0 <= i < |ts| - 1 :: ts[i].outcome.None?
    ensures Gathers(ts) < |ts|
    ensures Verdict(ts[Gathers(ts)]) == Last(ts).outcome
       <==> AllGather(ts[..|ts| - 1]) || Last(ts).outcome == Some(BLANK)
  {
    var k := Gathers(ts);
    if k < |ts| - 1 {
      assert ts[..|ts| - 1][k] == ts[k];
    }
  }

  lemma {:induction false} TurnsCoherent(f: Flow, t: Turn, inputs: seq<string>)
    requires Coherent(t)
    ensures forall u | u in Turns(f, t, inputs) :: Coherent(u)
    decreases |inputs|
  {
    if t.outcome.None? && inputs != [] {
      StepsAreCoherent(f, t.node, inputs[0]);
      TurnsCoherent(f, React(f, t.node, inputs[0]), inputs[1..]);
    }
  }

  /** A plain prompt that leads on, which flow validation lets through. */
  const TALKS_ON := Flow("a", map[
    "a" := Node(None, None, map["1" := "b"], "", false),
    "b" := Node(None, None, map[], "confirmed", true)])

  /** The simulator shows "confirmed" where the live session ends with no result. */
  lemma SimulatorMisleads()
    ensures var ts := Trace(TALKS_ON, ["1"]);
            && Last(ts).outcome == Some(Outcome("confirmed", COMPLETED))
            && SessionOn(TALKS_ON, ["1"]).end == Ended(Some(BLANK))
            && TALKS_ON.entry in TALKS_ON.nodes
  {
    var first, second := Emit(TALKS_ON, "a"), Emit(TALKS_ON, "b");
    assert React(TALKS_ON, "a", "1") == second;
    assert ["1"][1..] == [];
    assert Turns(TALKS_ON, first, ["1"]) == [first] + Turns(TALKS_ON, second, []);
  }

  /** Coming to this node cannot bring out anything but an empty result. */
  predicate BringsOutBlank(f: Flow, name: string) {
    if IsTerminal(f, name) then NodeAt(f, name).result == ""
    else TIMEOUT in NodeAt(f, name).on && INVALID in NodeAt(f, name).on
  }

  ghost predicate AlwaysSameOutcome(f: Flow) {
    forall inputs: seq<string> | Last(Trace(f, inputs)).outcome.Some? ::
      SessionOn(f, inputs).end == Ended(Last(Trace(f, inputs)).outcome)
  }

  /** Nothing but an empty result can come out after a plain node. */
  predicate PlainNodesEndBlank(f: Flow) {
    forall n | n in From(f, f.entry) && IsPlain(f, n) :: forall m | m in From(f, n) :: BringsOutBlank(f, m)
  }

  lemma {:induction false} LongerThanAll(keys: set<string>) returns (n: nat)
    ensures forall key | key in keys :: |key| < n
  {
    if keys == {} {
      return 0;
    }
    var key :| key in keys;
    n := LongerThanAll(keys - {key});
    n := if n <= |key| then |key| + 1 else n;
  }

  lemma FreshKey(keys: set<string>) returns (key: string)
    ensures key !in keys && key != TIMEOUT
  {
    var n := LongerThanAll(keys + {TIMEOUT});
    key := seq(n, _ => '0');
  }

  /** From a node that may bring out something, some inputs do. */
  lemma BringOut(f: Flow, name: string) returns (inputs: seq<string>)
    requires !BringsOutBlank(f, name)
    ensures var t := Last(Turns(f, Emit(f, name), inputs)); t.outcome.Some? && t.outcome != Some(BLANK)
  {
    if IsTerminal(f, name) {
      return [];
    }
    var on := NodeAt(f, name).on;
    var input := TIMEOUT;
    if TIMEOUT in on {
      input := FreshKey(on.Keys);
    }
    inputs := [input];
    assert inputs[1..] == [] && React(f, name, input) == NoWayOn(name);
    assert Turns(f, Emit(f, name), inputs) == [Emit(f, name)] + Turns(f, NoWayOn(name), []);
  }

  lemma LastConcat(f: Flow, t: Turn, xs: seq<string>, ys: seq<string>)
    ensures Last(Turns(f, t, xs + ys)) == Last(Turns(f, Last(Turns(f, t, xs)), ys))
  {
    TurnsConcat(f, t, xs, ys);
  }

  /** A plain node from which something else than an empty result can come out sets simulator and session apart. */
  lemma PlainNodeMisleads(f: Flow, n: string, m: string)
    requires n in From(f, f.entry) && IsPlain(f, n) && m in From(f, n) && !BringsOutBlank(f, m)
    ensures !AlwaysSameOutcome(f)
  {
    var xs := ComesTo(f, f.entry, n);
    var ys := ComesTo(f, n, m);
    var zs := BringOut(f, m);
    LastConcat(f, Emit(f, n), ys, zs);
    PlainTurnMisleads(f, xs, ys + zs);
  }

  lemma PlainTurnMisleads(f: Flow, xs: seq<string>, ys: seq<string>)
    requires var t := Last(Trace(f, xs));
             var u := Last(Turns(f, t, ys));
             t.directive.kind == Say && t.outcome.None? && u.outcome.Some? && u.outcome != Some(BLANK)
    ensures !AlwaysSameOutcome(f)
  {
    var before, ts := Trace(f, xs), Trace(f, xs + ys);
    var after, k := Turns(f, Last(before), ys), |before| - 1;
    TurnsConcat(f, Emit(f, f.entry), xs, ys);
    assert ts == before[..k] + after && Last(ts) == Last(after);
    assert ts[..|ts| - 1][k] == Last(before);
    SameOutcomeExactlyWhen(f, xs + ys);
  }

  lemma {:induction false} TurnsSuffix(f: Flow, t: Turn, inputs: seq<string>, i: nat)
    requires i < |Turns(f, t, inputs)|
    ensures i <= |inputs| && Turns(f, t, inputs)[i..] == Turns(f, Turns(f, t, inputs)[i], inputs[i..])
    decreases |inputs|
  {
    if i == 0 {
      assert inputs[0..] == inputs && Turns(f, t, inputs)[0..] == Turns(f, t, inputs);
    } else {
      var next := React(f, t.node, inputs[0]);
      TurnsSuffix(f, next, inputs[1..], i - 1);
      assert inputs[1..][i - 1..] == inputs[i..];
      assert Turns(f, t, inputs) == [t] + Turns(f, next, inputs[1..]);
    }
  }

  /** After a plain node from which only empty results come out, that is what comes out. */
  lemma EndsBlankAfterPlain(f: Flow, inputs: seq<string>, i: nat)
    requires PlainNodesEndBlank(f)
    requires var ts := Trace(f, inputs); i < |ts| - 1 && ts[i].directive.kind != SayGather && Last(ts).outcome.Some?
    ensures Last(Trace(f, inputs)).outcome == Some(BLANK)
  {
    var ts := Trace(f, inputs);
    TurnsLength(f, Emit(f, f.entry), inputs);
    TurnsStayWithin(f, From(f, f.entry), Emit(f, f.entry), inputs);
    assert ts[i] in ts && ts[i].outcome.None?;
    var n := ts[i].node;
    assert ts[i] == Emit(f, n) && IsPlain(f, n);
    TurnsSuffix(f, Emit(f, f.entry), inputs, i);
    TurnsStayWithin(f, From(f, n), Emit(f, n), inputs[i..]);
    var last := Last(ts);
    assert last == ts[i..][|ts| - 1 - i];
    assert last in Turns(f, Emit(f, n), inputs[i..]);
    assert BringsOutBlank(f, last.node);
  }

  /**
   On every input, an ended simulation shows the outcome of the live session, exactly when nothing but an empty result
   can come out after a plain node; which the flow's graph tells before any call.
   */
  lemma AlwaysSameOutcomeExactlyWhen(f: Flow)
    ensures AlwaysSameOutcome(f) <==> PlainNodesEndBlank(f)
  {
    if !PlainNodesEndBlank(f) {
      var n :| n in From(f, f.entry) && IsPlain(f, n) && !forall m | m in From(f, n) :: BringsOutBlank(f, m);
      var m :| m in From(f, n) && !BringsOutBlank(f, m);
      PlainNodeMisleads(f, n, m);
    } else {
      forall inputs: seq<string> | Last(Trace(f, inputs)).outcome.Some?
        ensures SessionOn(f, inputs).end == Ended(Last(Trace(f, inputs)).outcome)
      {
        var ts := Trace(f, inputs);
        if i :| 0 <= i < |ts| - 1 && ts[i].directive.kind != SayGather {
          EndsBlankAfterPlain(f, inputs, i);
        }
        SameOutcomeExactlyWhen(f, inputs);
      }
    }
  }

  // ---------------------------------------------------------------- when a session ends

  /** The nodes at which the session asks for a key, in order. */
  function AskedAt(f: Flow, t: Turn, script: seq<Reply>): seq<string>
    decreases |script|
  {
    if t.directive.kind != SayGather then []
    else if script == [] || script[0].Broken? then [t.node]
    else [t.node] + AskedAt(f, Answered(f, t.node, script[0]), script[1..])
  }

  /** A turn the engine can be in: if it gathers, it is the turn its own node emits. */
  predicate Reachable(f: Flow, t: Turn) {
    Coherent(t) && (t.directive.kind == SayGather ==> t == Emit(f, t.node) && t.node in f.nodes)
  }

  lemma AnsweredIsReachable(f: Flow, name: string, r: Reply)
    requires !r.Broken?
    ensures Reachable(f, Answered(f, name, r))
  {
  }

  lemma AnsweredAlongBranch(f: Flow, name: string, r: Reply)
    requires !r.Broken? && name in f.nodes && IsGather(f, name)
    requires Answered(f, name, r).directive.kind == SayGather
    ensures IsEdge(GatherBranches(f), name, Answered(f, name, r).node)
  {
    var on := f.nodes[name].on;
    var key := if r.Silence? then TIMEOUT else if r.digit in on then r.digit else INVALID;
    assert key in on && Answered(f, name, r) == Emit(f, on[key]);
  }

  /** The nodes asked at are existing gathers along a path of the graph. */
  lemma {:induction false} AskedAlongPath(f: Flow, t: Turn, script: seq<Reply>)
    requires Reachable(f, t)
    ensures var asked := AskedAt(f, t, script);
            && (forall i | 0 <= i < |asked| :: asked[i] in f.nodes)
            && (asked != [] ==> asked[0] == t.node && IsPath(GatherBranches(f), asked))
    decreases |script|
  {
    if t.directive.kind == SayGather && script != [] && !script[0].Broken? {
      var next := Answered(f, t.node, script[0]);
      AnsweredIsReachable(f, t.node, script[0]);
      AskedAlongPath(f, next, script[1..]);
      var asked, rest := AskedAt(f, t, script), AskedAt(f, next, script[1..]);
      assert asked == [t.node] + rest;
      if rest != [] {
        AnsweredAlongBranch(f, t.node, script[0]);
        forall i | 0 <= i < |asked| - 1 ensures IsEdge(GatherBranches(f), asked[i], asked[i + 1]) {
          if i > 0 {
            assert IsEdge(GatherBranches(f), rest[i - 1], rest[i - 1 + 1]);
          }
        }
      }
    }
  }

  lemma {:induction false} DistinctFit<T>(xs: seq<T>, within: set<T>)
    requires forall i | 0 <= i < |xs| :: xs[i] in within
    requires forall i, j | 0 <= i < j < |xs| :: xs[i] != xs[j]
    ensures |xs| <= |within|
  {
    if xs != [] {
      var n := |xs| - 1;
      DistinctFit(xs[..n], within - {xs[n]});
    }
  }

  /** The leg hears one question per asked node, then at most one prompt, then the one and only hangup. */
  ghost predicate EndsInOneHangup(log: seq<LegAction>, asked: nat) {
    && |log| > asked && log[|log| - 1].HungUp?
    && (forall i | 0 <= i < asked :: log[i].Asked?)
    && (forall i | asked <= i < |log| - 1 :: log[i].Played?)
  }

  lemma {:induction false} HowItEnds(f: Flow, t: Turn, script: seq<Reply>)
    requires Reachable(f, t) && forall r | r in script :: !r.Broken?
    ensures var s, asked := Converse(f, t, script, false, false), |AskedAt(f, t, script)|;
            if s.end.Waiting? then asked == |script| + 1
            else s.end.Ended? && s.end.out.Some? && EndsInOneHangup(s.log, asked)
    decreases |script|
  {
    if t.directive.kind == SayGather && script != [] {
      var next := Answered(f, t.node, script[0]);
      AnsweredIsReachable(f, t.node, script[0]);
      HowItEnds(f, next, script[1..]);
      var s, rest := Converse(f, t, script, false, false), Converse(f, next, script[1..], false, false);
      assert s.log == [s.log[0]] + rest.log;
    }
  }

  /** Some gather that a session can come to through gathers can be come back to through gathers. */
  predicate Loops(f: Flow) {
    var g := GatherBranches(f);
    IsGather(f, f.entry) && exists n | n in Closure(g, {f.entry}) :: n in g && n in Closure(g, g[n])
  }

  /** A path of gathers from the entry that comes back to a node closes a loop. */
  lemma ReturningPathLoops(f: Flow, path: seq<string>, i: nat, j: nat)
    requires IsGather(f, f.entry) && IsPath(GatherBranches(f), path) && path[0] == f.entry
    requires i < j < |path| && path[i] == path[j]
    ensures Loops(f)
  {
    var g, n := GatherBranches(f), path[i];
    PathStaysInside(g, Closure(g, {f.entry}), path, i);
    assert IsEdge(g, path[i], path[i + 1]);
    var back := path[i + 1..];
    forall k | 0 <= k < |back| - 1 ensures IsEdge(g, back[k], back[k + 1]) {
      assert IsEdge(g, path[i + 1 + k], path[i + 1 + k + 1]);
    }
    PathStaysInside(g, Closure(g, g[n]), back, j - i - 1);
  }

  predicate Unbroken(script: seq<Reply>) {
    forall r | r in script :: !r.Broken?
  }

  /**
   Unless gathers loop, an error-free leg is asked at most once per node, and after as many replies as there are
   nodes the session has ended, with an outcome and a single final hangup.
   */
  lemma SessionTerminates(f: Flow, script: seq<Reply>)
    requires !Loops(f) && Unbroken(script)
    ensures var t := Emit(f, f.entry);
            var s, asked := Converse(f, t, script, false, false), AskedAt(f, t, script);
            && |asked| <= |f.nodes|
            && (forall i, j | 0 <= i < j < |asked| :: asked[i] != asked[j])
            && (|script| >= |f.nodes| ==>
                  s.end.Ended? && s.end.out.Some? && EndsInOneHangup(s.log, |asked|))
  {
    var t := Emit(f, f.entry);
    var asked := AskedAt(f, t, script);
    AskedAlongPath(f, t, script);
    if i, j :| 0 <= i < j < |asked| && asked[i] == asked[j] {
      ReturningPathLoops(f, asked, i, j);
    }
    DistinctFit(asked, f.nodes.Keys);
    assert |f.nodes.Keys| == |f.nodes|;
    HowItEnds(f, t, script);
  }

  /** `rank` falls along every transition from a gather to a gather. */
  ghost predicate Ranked(f: Flow, rank: string -> nat) {
    forall n, m | IsEdge(GatherBranches(f), n, m) :: rank(m) < rank(n)
  }

  lemma {:induction false} RankFalls(f: Flow, rank: string -> nat, path: seq<string>, i: nat)
    requires Ranked(f, rank) && IsPath(GatherBranches(f), path) && i < |path|
    ensures rank(path[i]) <= rank(path[0])
  {
    if i > 0 {
      RankFalls(f, rank, path, i - 1);
      assert IsEdge(GatherBranches(f), path[i - 1], path[i - 1 + 1]);
    }
  }

  /** A rank shows that gathers do not loop. */
  lemma RankRulesOutLoops(f: Flow, rank: string -> nat)
    requires Ranked(f, rank)
    ensures !Loops(f)
  {
    var g := GatherBranches(f);
    forall n | n in g ensures n !in Closure(g, g[n]) {
      if n in Closure(g, g[n]) {
        var path := PathTo(g, g[n], n);
        RankFalls(f, rank, path, |path| - 1);
        assert IsEdge(g, n, path[0]);
      }
    }
  }

  // A cycle of gathers keeps a session going for as long as its keys are pressed.

  predicate AllGather(ts: seq<Turn>) {
    forall i | 0 <= i < |ts| :: ts[i].directive.kind == SayGather
  }

  lemma AllGatherConcat(a: seq<Turn>, b: seq<Turn>)
    requires AllGather(a) && AllGather(b)
    ensures AllGather(a + b)
  {
  }

  function Repeat(xs: seq<string>, n: nat): seq<string> {
    if n == 0 then [] else xs + Repeat(xs, n - 1)
  }

  lemma OneMoreRound(f: Flow, t: Turn, loop: seq<string>, rest: seq<string>)
    requires AllGather(Turns(f, t, loop)) && Last(Turns(f, t, loop)) == t
    requires AllGather(Turns(f, t, rest)) && Last(Turns(f, t, rest)) == t
    ensures AllGather(Turns(f, t, loop + rest)) && Last(Turns(f, t, loop + rest)) == t
  {
    var round, more := Turns(f, t, loop), Turns(f, t, rest);
    TurnsConcat(f, t, loop, rest);
    AllGatherConcat(round[..|round| - 1], more);
    assert Last(round[..|round| - 1] + more) == Last(more);
  }

  lemma {:induction false} CycleKeepsGathering(f: Flow, t: Turn, loop: seq<string>, n: nat)
    requires AllGather(Turns(f, t, loop)) && Last(Turns(f, t, loop)) == t
    ensures AllGather(Turns(f, t, Repeat(loop, n))) && Last(Turns(f, t, Repeat(loop, n))) == t
  {
    if n == 0 {
      assert Turns(f, t, loop)[0] == t;
      assert Turns(f, t, []) == [t];
    } else {
      CycleKeepsGathering(f, t, loop, n - 1);
      OneMoreRound(f, t, loop, Repeat(loop, n - 1));
    }
  }

  lemma {:induction false} RepeatLength(xs: seq<string>, n: nat)
    requires xs != []
    ensures |Repeat(xs, n)| >= n
  {
    if n > 0 {
      RepeatLength(xs, n - 1);
    }
  }

  /** Having come to a cycle of gathers, an error-free session can be kept waiting for any number of replies. */
  lemma CycleNeverEnds(f: Flow, path: seq<string>, loop: seq<string>, n: nat)
    requires loop != [] && AllGather(Trace(f, path))
    requires var t := Last(Trace(f, path)); AllGather(Turns(f, t, loop)) && Last(Turns(f, t, loop)) == t
    ensures |path + Repeat(loop, n)| >= n
    ensures SessionOn(f, path + Repeat(loop, n)).end == Waiting(Last(Trace(f, path)).node)
  {
    var ts, t := Trace(f, path), Last(Trace(f, path));
    CycleKeepsGathering(f, t, loop, n);
    RepeatLength(loop, n);
    TurnsConcat(f, Emit(f, f.entry), path, Repeat(loop, n));
    var all := Trace(f, path + Repeat(loop, n));
    AllGatherConcat(ts[..|ts| - 1], Turns(f, t, Repeat(loop, n)));
    assert AllGather(all) && Last(all) == t;
    SessionRefinesSimulation(f, path + Repeat(loop, n));
    assert Gathers(all) == |all|;
  }

  lemma GatherPath(f: Flow, path: seq<string>)
    requires IsPath(GatherBranches(f), path) && IsGather(f, path[0])
    ensures IsPath(Branches(f), path) && forall i | 0 <= i < |path| :: IsGather(f, path[i])
  {
    forall i | 0 <= i < |path| - 1 ensures IsEdge(Branches(f), path[i], path[i + 1]) {
      assert IsEdge(GatherBranches(f), path[i], path[i + 1]);
    }
    forall i | 0 <= i < |path| ensures IsGather(f, path[i]) {
      if i > 0 {
        assert IsEdge(GatherBranches(f), path[i - 1], path[i - 1 + 1]);
      }
    }
  }

  /** A loop in the graph is a cycle that some inputs come to and go round. */
  lemma LoopHasInputs(f: Flow) returns (path: seq<string>, loop: seq<string>)
    requires Loops(f)
    ensures loop != [] && AllGather(Trace(f, path))
    ensures var t := Last(Trace(f, path)); AllGather(Turns(f, t, loop)) && Last(Turns(f, t, loop)) == t
  {
    var g := GatherBranches(f);
    var n :| n in Closure(g, {f.entry}) && n in g && n in Closure(g, g[n]);
    var there := PathTo(g, {f.entry}, n);
    var back := PathTo(g, g[n], n);
    GatherPath(f, there);
    path := WalkPath(f, there);
    assert Last(Trace(f, path)) == Emit(f, n);
    loop := GoRound(f, n, back);
  }

  lemma GoRound(f: Flow, n: string, back: seq<string>) returns (loop: seq<string>)
    requires var g := GatherBranches(f);
             IsGather(f, n) && IsPath(g, back) && IsEdge(g, n, back[0]) && back[|back| - 1] == n
    ensures loop != [] && AllGather(Turns(f, Emit(f, n), loop)) && Last(Turns(f, Emit(f, n), loop)) == Emit(f, n)
  {
    var g, round := GatherBranches(f), [n] + back;
    forall i | 0 <= i < |round| - 1 ensures IsEdge(g, round[i], round[i + 1]) {
      if i > 0 {
        assert IsEdge(g, back[i - 1], back[i - 1 + 1]);
      }
    }
    GatherPath(f, round);
    loop := WalkPath(f, round);
  }

  /** After as many replies as there are nodes, every error-free session is over. */
  ghost predicate AlwaysEnds(f: Flow) {
    forall script | Unbroken(script) && |script| >= |f.nodes| ::
      var end := Converse(f, Emit(f, f.entry), script, false, false).end; end.Ended? && end.out.Some?
  }

  /** There is no bound at all: sessions of every length are still waiting. */
  ghost predicate NeverBounded(f: Flow) {
    forall n: nat :: WaitsAfter(f, n)
  }

  /** Some session is still waiting after `n` replies or more. */
  ghost predicate WaitsAfter(f: Flow, n: nat) {
    exists inputs :: |inputs| >= n && SessionOn(f, inputs).end.Waiting?
  }

  lemma LoopsForever(f: Flow, n: nat) returns (inputs: seq<string>)
    requires Loops(f)
    ensures |inputs| >= n && SessionOn(f, inputs).end.Waiting?
  {
    var path, loop := LoopHasInputs(f);
    inputs := path + Repeat(loop, n);
    CycleNeverEnds(f, path, loop, n);
  }

  /**
   If no gathers loop, every error-free session ends, with an outcome and in as many replies as there are nodes; if some
   do, there is no bound on the replies a session can take.
   */
  lemma AlwaysEndsExactlyWhen(f: Flow)
    ensures AlwaysEnds(f) <==> !Loops(f)
    ensures NeverBounded(f) <==> Loops(f)
  {
    if Loops(f) {
      forall n: nat ensures WaitsAfter(f, n) {
        var inputs := LoopsForever(f, n);
      }
      var inputs := LoopsForever(f, |f.nodes|);
      assert Unbroken(Replay(inputs)) && |Replay(inputs)| >= |f.nodes|;
    } else {
      forall script | Unbroken(script) && |script| >= |f.nodes|
        ensures var end := Converse(f, Emit(f, f.entry), script, false, false).end; end.Ended? && end.out.Some?
      {
        SessionTerminates(f, script);
      }
      if WaitsAfter(f, |f.nodes|) {
        var inputs :| |inputs| >= |f.nodes| && SessionOn(f, inputs).end.Waiting?;
        SessionTerminates(f, Replay(inputs));
      }
    }
  }

  // ---------------------------------------------------------------- flows on which these promises fail

  /** A menu that repeats itself on an unknown key, which flow validation lets through. */
  const MENU := Flow("menu", map[
    "menu" := Node(None, Some(Gather(1, 6)), map["1" := "done", "invalid" := "menu"], "", false),
    "done" := Node(None, None, map[], "confirmed", true)])

  lemma MenuIsGather()
    ensures IsGather(MENU, "menu") && NodeAt(MENU, "menu").on == map["1" := "done", "invalid" := "menu"]
  {
  }

  /** Its sessions need not end. */
  lemma MenuNeedNotEnd()
    ensures MENU.entry in MENU.nodes && !AlwaysEnds(MENU) && NeverBounded(MENU)
  {
    MenuIsGather();
    var g := GatherBranches(MENU);
    assert MENU.nodes["menu"].on["invalid"] == "menu";
    assert "menu" in g && "menu" in g["menu"];
    assert "menu" in Closure(g, {"menu"}) && "menu" in Closure(g, g["menu"]);
    AlwaysEndsExactlyWhen(MENU);
  }

  /** A test call on it with an unknown key has no outcome to record, and panics. */
  lemma MenuPanicsTestCall()
    ensures TestOutcome(MENU, "9").None?
  {
    MenuIsGather();
    TestCallEndsExactlyWhen(MENU, "9");
    assert PressedTo(MENU, "menu", "9") == Some("menu");
  }

  /** On it, pressing the key "timeout" asks again, while timing out ends the call, as in the simulation. */
  lemma MenuTellsTimeoutsApart()
    ensures Press(MENU, "menu", TIMEOUT).outcome.None? && TimeOut(MENU, "menu") == NoWayOn("menu")
    ensures TestOutcome(MENU, TIMEOUT).None? && Last(Trace(MENU, [TIMEOUT])).outcome.Some?
  {
    MenuIsGather();
    var t := Emit(MENU, "menu");
    assert TIMEOUT != "1" && TIMEOUT != "invalid";
    assert [TIMEOUT][1..] == [] && React(MENU, "menu", TIMEOUT) == NoWayOn("menu");
    assert Trace(MENU, [TIMEOUT]) == [t] + Turns(MENU, NoWayOn("menu"), []);
  }

  /** Without any input, the simulation of a flow that talks on stops at a plain prompt, not at a gather. */
  lemma SimulationStopsAtPrompt()
    ensures var t := Last(Trace(TALKS_ON, [])); t.outcome.None? && t.directive.kind == Say
    ensures !AlwaysAwaits(TALKS_ON)
  {
    assert Last(Trace(TALKS_ON, [])) == Emit(TALKS_ON, "a");
  }
}
