/**
 * The stage-driven main loop of the proposal workflow
 * (backend/workflow/graph.py, `ProposalWorkflow`): a bounded loop over a
 * state dictionary that promotes a pending stage, triggers document parsing
 * once, routes to one of three agents and merges the agent's answer back.
 * The agents themselves are a parameter: given the route and the state, they
 * answer with the state as they left it, response metadata and content.
 */
module Workflow {
  import opened Values

  type State = Dict

  /** `self.max_iterations`. */
  const MaxIterations: nat := 8

  /** The stages at which `_should_continue` stops the loop without counting. */
  predicate Terminal(stage: Value)
  {
    stage == Str("final") || stage == Str("done") || stage == Str("responded")
    || stage == Str("bid_build_completed") || stage == Str("bid_build_failed")
  }

  /** `state.get("current_stage", "initial")`. */
  function Stage(state: State): Value { Get(state, "current_stage", Str("initial")) }

  /** The key of the repetition counter of a stage. */
  function CountKey(stage: Value): (k: string)
    ensures k != "current_stage" && k != "error" && k != "next_stage"
  {
    var k := "_stage_count_" + Show(stage);
    assert k[0] == '_';
    k
  }

  /** `state.get(key, 0)` for a counter; the counters are only ever written as numbers. */
  function Count(state: State, key: string): int
  {
    if key in state && state[key].Num? then state[key].n else 0
  }

  /** The run was failed for the reason `why`. */
  predicate Failed(s: State, why: string)
  {
    Holds(s, "current_stage", Str("failed")) && Holds(s, "error", Str(why))
  }

  /** The verdict of `_should_continue` and the state it leaves behind. */
  datatype Check = Check(cont: bool, state: State)

  /**
   * `_should_continue`: a terminal stage stops the loop and touches nothing;
   * any other stage has its counter raised, and the third visit of the
   * same stage fails the run as "stalled-stage".
   */
  function ShouldContinue(state: State): (c: Check)
    ensures Terminal(Stage(state)) ==> c == Check(false, state)
    ensures !Terminal(Stage(state)) ==>
      Holds(c.state, CountKey(Stage(state)), Num(Count(state, CountKey(Stage(state))) + 1))
    ensures !Terminal(Stage(state)) ==>
      (c.cont <==> Count(state, CountKey(Stage(state))) + 1 < 3)
    ensures !Terminal(Stage(state)) && !c.cont ==>
      Failed(c.state, "stalled-stage")
    ensures c.cont ==> c.state == state[CountKey(Stage(state)) := Num(Count(state, CountKey(Stage(state))) + 1)]
    ensures !Terminal(Stage(state)) && !c.cont ==>
      c.state.Keys == state.Keys + {CountKey(Stage(state)), "current_stage", "error"}
      && forall k :: k in state && k != CountKey(Stage(state)) && k != "current_stage" && k != "error" ==>
           c.state[k] == state[k]
  {
    var stage := Stage(state);
    if Terminal(stage) then Check(false, state)
    else
      var key := CountKey(stage);
      var count := Count(state, key) + 1;
      var counted := state[key := Num(count)];
      if count >= 3 then Check(false, counted["current_stage" := Str("failed")]["error" := Str("stalled-stage")])
      else Check(true, counted)
  }

  // ---------------------------------------------------------------------
  // One iteration of `run`
  // ---------------------------------------------------------------------

  /** The state after applying a pending `next_stage`, and the stage the iteration works on. */
  datatype Promoted = Promoted(state: State, current: Value)

  /**
   * Stage promotion: `next_stage` is always popped; a truthy one that
   * differs from the current stage replaces it, and the old stage's counter
   * is dropped.
   */
  function Promote(state: State): (p: Promoted)
    ensures "next_stage" !in p.state
    ensures var ns := Get(state, "next_stage", Null);
      Truthy(ns) && ns != Get(state, "current_stage", Null) ==>
        p.current == ns && Holds(p.state, "current_stage", ns)
        && CountKey(Get(state, "current_stage", Null)) !in p.state
    ensures var ns := Get(state, "next_stage", Null);
      !(Truthy(ns) && ns != Get(state, "current_stage", Null)) ==>
        p.current == Stage(state) && p.state == state - {"next_stage"}
  {
    var prev := Get(state, "current_stage", Null);
    var ns := Get(state, "next_stage", Null);
    var popped := state - {"next_stage"};
    if Truthy(ns) && ns != prev then
      Promoted(popped["current_stage" := ns] - {CountKey(prev)}, ns)
    else
      Promoted(popped, Stage(state))
  }

  /** The stages from which parsing may be started automatically. */
  predicate Startable(stage: Value)
  {
    stage == Null || stage == Str("") || stage == Str("initial") || stage == Str("general_coordination")
  }

  /** Uploaded files, not parsed yet, not triggered yet, and a startable stage. */
  predicate TriggersParsing(state: State, current: Value)
  {
    Truthy(Get(state, "uploaded_files", Null)) && !Truthy(Get(state, "files_parsed", Null))
    && !Truthy(Get(state, "parsing_auto_triggered", Null)) && Startable(current)
  }

  /** The automatic start of parsing, which marks itself as done. */
  function AutoTrigger(p: Promoted): (q: Promoted)
    ensures TriggersParsing(p.state, p.current) ==>
      q.current == Str("document_parsing") && Holds(q.state, "current_stage", Str("document_parsing"))
      && Holds(q.state, "parsing_auto_triggered", Flag(true))
    ensures !TriggersParsing(p.state, p.current) ==> q == p
  {
    if TriggersParsing(p.state, p.current) then
      Promoted(p.state["parsing_auto_triggered" := Flag(true)]["current_stage" := Str("document_parsing")],
               Str("document_parsing"))
    else p
  }

  /** Parsing is started at most once: once triggered, the trigger no longer fires. */
  lemma TriggerOnce(p: Promoted)
    requires TriggersParsing(p.state, p.current)
    ensures !TriggersParsing(AutoTrigger(p).state, AutoTrigger(p).current)
    ensures AutoTrigger(AutoTrigger(p)) == AutoTrigger(p)
  {
    assert Get(AutoTrigger(p).state, "parsing_auto_triggered", Null) == Flag(true);
  }

  /** The agent an iteration calls. */
  datatype Route = Parser | BidBuild | Coordinator

  /** Routing: parsing to the parser, the build stages to the build workflow, all else to the coordinator. */
  function RouteFor(current: Value): (r: Route)
    ensures r == Parser <==> current == Str("document_parsing")
    ensures r == BidBuild <==> current == Str("bid_build_ready") || current == Str("planning")
  {
    if current == Str("document_parsing") then Parser
    else if current == Str("bid_build_ready") || current == Str("planning") then BidBuild
    else Coordinator
  }

  /** An agent's answer: the state it leaves behind, the response metadata and the content. */
  datatype Reply = Reply(state: State, metadata: Dict, content: string)

  /**
   * `_execute_document_parser`'s epilogue: a completed parse marks the files
   * parsed and, when the parser names the tender path, moves on to the build.
   */
  function ParserEpilogue(r: Reply): (q: Reply)
    ensures q.metadata == r.metadata && q.content == r.content
    ensures Get(r.metadata, "action", Null) == Str("parsing_completed") ==>
      Holds(q.state, "files_parsed", Flag(true)) && Holds(q.state, "parsing_auto_triggered", Flag(true))
      && ("tender_path" in r.metadata ==> Holds(q.state, "current_stage", Str("bid_build_ready")))
    ensures Get(r.metadata, "action", Null) != Str("parsing_completed") ==> q == r
  {
    if r.metadata != map[] && Get(r.metadata, "action", Null) == Str("parsing_completed") then
      var marked := r.state["files_parsed" := Flag(true)]["parsing_auto_triggered" := Flag(true)];
      Reply(if "tender_path" in r.metadata then marked["current_stage" := Str("bid_build_ready")] else marked,
            r.metadata, r.content)
    else r
  }

  /** The stages a parsing iteration accepts from its response. */
  predicate ParsingExit(stage: Value)
  {
    stage == Str("parsing_completed") || stage == Str("bid_build_ready") || stage == Str("planning")
  }

  /**
   * The metadata merge: the response's stage becomes the current stage
   * (while parsing only when it is a parsing exit), and every other key is
   * copied into the state.
   */
  function MergeMetadata(state: State, current: Value, meta: Dict): (s: State)
    ensures forall k :: k in meta && k != "stage" ==> k in s && s[k] == meta[k]
    ensures forall k :: k in state && k !in meta && k != "current_stage" ==> k in s && s[k] == state[k]
    ensures ("stage" in meta && "current_stage" !in meta
      && (current != Str("document_parsing") || ParsingExit(meta["stage"]))) ==>
      Holds(s, "current_stage", meta["stage"])
    ensures (!("stage" in meta && (current != Str("document_parsing") || ParsingExit(meta["stage"])))
      && "current_stage" !in meta) ==>
      Get(s, "current_stage", Null) == Get(state, "current_stage", Null)
  {
    var staged :=
      if "stage" in meta && (current != Str("document_parsing") || ParsingExit(meta["stage"]))
      then state["current_stage" := meta["stage"]] else state;
    staged + (meta - {"stage"})
  }

  /** `state.setdefault("conversation_history", []).append(entry)`. */
  function AppendHistory(state: State, entry: Value): (s: State)
    ensures s.Keys == state.Keys + {"conversation_history"}
    ensures s["conversation_history"].Items? && |s["conversation_history"].xs| > 0
    ensures s["conversation_history"].xs[|s["conversation_history"].xs| - 1] == entry
    ensures forall k :: k in state && k != "conversation_history" ==> s[k] == state[k]
  {
    var history := if "conversation_history" in state && state["conversation_history"].Items?
      then state["conversation_history"].xs else [];
    state["conversation_history" := Items(history + [entry])]
  }

  /** The history entry of an assistant response. */
  function Entry(r: Reply, now: string): Value
  {
    Obj(map["role" := Str("assistant"), "content" := Str(r.content), "metadata" := Obj(r.metadata),
            "timestamp" := Str(now)])
  }

  /** The stage an iteration works on and the reply of the agent it is routed to. */
  function Turn(state: State, agents: (Route, State) -> Reply): (Value, Reply)
  {
    var p := AutoTrigger(Promote(state));
    var route := RouteFor(p.current);
    (p.current, if route == Parser then ParserEpilogue(agents(route, p.state)) else agents(route, p.state))
  }

  /**
   * The body of `run`'s loop, after the check of `_should_continue`: the
   * reply's state, with its metadata merged in and, when it has content, a
   * history entry appended.
   */
  function Iterate(state: State, agents: (Route, State) -> Reply, now: string): (s: State)
    ensures var r := Turn(state, agents).1;
      r.content != "" ==>
        "conversation_history" in s && s["conversation_history"].Items?
        && |s["conversation_history"].xs| > 0
        && s["conversation_history"].xs[|s["conversation_history"].xs| - 1] == Entry(r, now)
    ensures var r := Turn(state, agents).1;
      forall k :: k in r.metadata && k != "stage" && k != "conversation_history" ==> k in s && s[k] == r.metadata[k]
    ensures var r := Turn(state, agents).1;
      forall k :: k in r.state && k !in r.metadata && k != "current_stage" && k != "conversation_history" ==>
        k in s && s[k] == r.state[k]
    ensures var r := Turn(state, agents).1;
      r.metadata == map[] && r.content == "" ==> s == r.state
  {
    var (current, reply) := Turn(state, agents);
    var merged := if reply.metadata != map[] then MergeMetadata(reply.state, current, reply.metadata) else reply.state;
    if reply.content != "" then AppendHistory(merged, Entry(reply, now)) else merged
  }

  /** `Iterate` with the agents and the clock fixed. */
  function StepWith(agents: (Route, State) -> Reply, now: string): State -> State
  {
    s => Iterate(s, agents, now)
  }

  // ---------------------------------------------------------------------
  // The loop of `run`
  // ---------------------------------------------------------------------

  /** Where the loop stops: the state and the number of iterations done. */
  datatype Exit = Exit(state: State, iterations: nat)

  /** The loop of `run` from iteration `it` on, with `step` as the loop body. */
  function Loop(state: State, it: nat, step: State -> State): (e: Exit)
    requires it <= MaxIterations
    ensures it <= e.iterations <= MaxIterations
  {
    LoopWith(state, it, ShouldContinue, step)
  }

  /** The same loop with the stall check `check` in place of `_should_continue`. */
  function LoopWith(state: State, it: nat, check: State -> Check, step: State -> State): (e: Exit)
    requires it <= MaxIterations
    decreases MaxIterations - it
    ensures it <= e.iterations <= MaxIterations
  {
    if it == MaxIterations then Exit(state, it)
    else
      var c := check(state);
      if !c.cont then Exit(c.state, it)
      else LoopWith(step(c.state), it + 1, check, step)
  }

  /** After the loop: a run that used all iterations is failed as "max-iterations". */
  function Finish(e: Exit): State
  {
    if e.iterations >= MaxIterations then e.state["current_stage" := Str("failed")]["error" := Str("max-iterations")]
    else e.state
  }

  /** `run`: the loop from the initial state, then `Finish`. */
  function RunSpec(init: State, step: State -> State): State
  {
    Finish(Loop(init, 0, step))
  }

  /** `ProposalWorkflow.run`, with the agents and the clock as parameters. */
  method Run(init: State, agents: (Route, State) -> Reply, now: string) returns (state: State)
    ensures state == RunSpec(init, StepWith(agents, now))
  {
    state := RunLoop(init, StepWith(agents, now));
  }

  /** The loop of `run` and the final check, for any loop body. */
  method RunLoop(init: State, step: State -> State) returns (state: State)
    ensures state == RunSpec(init, step)
  {
    state := RunLoopWith(init, ShouldContinue, step);
  }

  /** The loop of `run` and the final check, for any stall check and loop body. */
  method RunLoopWith(init: State, check: State -> Check, step: State -> State) returns (state: State)
    ensures state == Finish(LoopWith(init, 0, check, step))
  {
    state := init;
    var iteration: nat := 0;
    while iteration < MaxIterations
      invariant iteration <= MaxIterations
      invariant LoopWith(state, iteration, check, step) == LoopWith(init, 0, check, step)
      decreases MaxIterations - iteration
    {
      var c := check(state);
      if !c.cont {
        return Finish(Exit(c.state, iteration));
      }
      iteration := iteration + 1;
      state := step(c.state);
    }
    if iteration >= MaxIterations {
      state := state["current_stage" := Str("failed")]["error" := Str("max-iterations")];
    }
  }

  /** One turn of the loop below the limit. */
  lemma LoopUnfold(state: State, it: nat, step: State -> State)
    requires it < MaxIterations
    ensures !ShouldContinue(state).cont ==> Loop(state, it, step) == Exit(ShouldContinue(state).state, it)
    ensures ShouldContinue(state).cont ==>
      Loop(state, it, step) == Loop(step(ShouldContinue(state).state), it + 1, step)
  {
  }

  // ---------------------------------------------------------------------
  // What a run ends with
  // ---------------------------------------------------------------------

  /** An exit before the limit is a terminal stage or a stalled one. */
  lemma {:induction false} EarlyExit(state: State, it: nat, step: State -> State)
    requires it <= MaxIterations
    requires Loop(state, it, step).iterations < MaxIterations
    ensures Terminal(Stage(Loop(state, it, step).state)) || Failed(Loop(state, it, step).state, "stalled-stage")
    decreases MaxIterations - it
  {
    var c := ShouldContinue(state);
    if c.cont {
      EarlyExit(step(c.state), it + 1, step);
    }
  }

  /**
   * Every run ends in a terminal stage, stalled, or failed as
   * "max-iterations".  The last case covers every run that used all eight
   * iterations, even when the eighth one reached a terminal stage.
   */
  lemma RunOutcome(init: State, step: State -> State)
    ensures Terminal(Stage(RunSpec(init, step))) || Failed(RunSpec(init, step), "stalled-stage")
      || Failed(RunSpec(init, step), "max-iterations")
    ensures Loop(init, 0, step).iterations == MaxIterations ==> Failed(RunSpec(init, step), "max-iterations")
  {
    var e := Loop(init, 0, step);
    if e.iterations < MaxIterations {
      EarlyExit(init, 0, step);
    }
    FinishOutcome(e);
  }

  /** `Finish` fails a run that used every iteration and passes any other exit through. */
  lemma FinishOutcome(e: Exit)
    ensures e.iterations >= MaxIterations ==> Failed(Finish(e), "max-iterations")
    ensures e.iterations < MaxIterations ==> Finish(e) == e.state
  {
  }

  /** A run that starts in a terminal stage does nothing. */
  lemma TerminalStart(init: State, step: State -> State)
    requires Terminal(Stage(init))
    ensures RunSpec(init, step) == init
  {
    assert Loop(init, 0, step) == Exit(init, 0);
  }

  /** A stand-in for the agents that starts each state afresh and reports "done" in the eighth round. */
  function Rounds(s: State): State
  {
    var r := Count(s, "round") + 1;
    map["round" := Num(r), "current_stage" := if r == 8 then Str("done") else Str("work")]
  }

  /** The state at the start of round `k`. */
  function RoundState(k: nat): State
  {
    map["round" := Num(k), "current_stage" := if k == 8 then Str("done") else Str("work")]
  }

  /** A round below the limit is counted once and continued. */
  lemma RoundTurn(k: nat)
    requires k < MaxIterations
    ensures Loop(RoundState(k), k, Rounds) == Loop(RoundState(k + 1), k + 1, Rounds)
  {
    var s := RoundState(k);
    var key := CountKey(Str("work"));
    assert key[0] == '_' && key != "round";
    var c := ShouldContinue(s);
    assert Stage(s) == Str("work") && Count(s, key) == 0;
    assert c.cont && c.state == s[key := Num(1)];
    assert Count(c.state, "round") == k;
    assert Rounds(c.state) == RoundState(k + 1);
    LoopUnfold(s, k, Rounds);
  }

  /**
   * The eighth iteration can end in "done" and the run is still failed as
   * "max-iterations": the limit check does not look at the stage reached.
   */
  lemma MaxIterationsHidesDone()
    ensures Terminal(Stage(Loop(RoundState(0), 0, Rounds).state))
    ensures Failed(RunSpec(RoundState(0), Rounds), "max-iterations")
  {
    var k := 0;
    while k < 8
      invariant 0 <= k <= 8
      invariant Loop(RoundState(k), k, Rounds) == Loop(RoundState(0), 0, Rounds)
    {
      RoundTurn(k);
      k := k + 1;
    }
    assert Loop(RoundState(8), 8, Rounds) == Exit(RoundState(8), 8);
  }
}
