/**
 * The decisions of the coordinator agent (backend/agents/coordinator.py):
 * what a user request asks for, which handler a stage is dispatched to,
 * whether the bid build must parse the uploads first, and which stage a
 * plain conversation reports.  The parser and the build it hands over to
 * are other agents; here they are the outcomes `ParseDocuments` and
 * `RunBuild`.
 */
module Coordinator {
  import opened Wrappers
  import opened Text
  import opened Values

  /** `_analyze_user_request`'s answer. */
  datatype Analysis = Analysis(action: string, nextStage: string)

  const BiddingKeywords: seq<string> := ["招标", "投标", "标书", "技术规格", "投标文件", "第四章", "第五章", "技术方案"]

  /** The words that make a conversation start the build. */
  const TriggerKeywords: seq<string> := ["继续", "继续执行", "开始", "执行", "生成模板"]

  /** The request mentions bidding. */
  predicate BiddingIntent(userInput: string) { ContainsAny(Lower(userInput), BiddingKeywords) }

  /**
   * `_analyze_user_request`: uploads send the session to parsing, anything
   * else to "general"; the action tells the four combinations of uploads
   * and bidding intent apart.
   */
  function AnalyzeUserRequest(userInput: string, hasFiles: bool): (a: Analysis)
    ensures a.nextStage == (if hasFiles then "document_parsing" else "general")
    ensures a.action == "process_bidding_documents" <==> hasFiles && BiddingIntent(userInput)
    ensures a.action == "process_documents" <==> hasFiles && !BiddingIntent(userInput)
    ensures a.action == "discuss_bidding" <==> !hasFiles && BiddingIntent(userInput)
    ensures a.action == "general_conversation" <==> !hasFiles && !BiddingIntent(userInput)
  {
    var intent := BiddingIntent(userInput);
    if hasFiles && intent then Analysis("process_bidding_documents", "document_parsing")
    else if hasFiles then Analysis("process_documents", "document_parsing")
    else if intent then Analysis("discuss_bidding", "general")
    else Analysis("general_conversation", "general")
  }

  /** What the coordinator ends up doing. */
  datatype Step =
    | ParseDocuments      // run the document parser and report "parsing_completed"
    | RunBuild            // run the build workflow on the tender file
    | Chat(stage: Value)  // answer in conversation, reporting `stage`
    | Crash               // an exception, reported as an error response

  /** The state names a tender file already converted into the wiki; `None` when the check raises. */
  function WikiParsed(state: Dict): (r: Option<bool>)
    ensures "tender_path" !in state ==> r == Some(false)
    ensures "tender_path" in state && state["tender_path"].Str? ==> r == Some(StartsWith(state["tender_path"].s, "wiki/"))
    ensures r.None? <==> "tender_path" in state && !state["tender_path"].Str?
  {
    if "tender_path" !in state then Some(false)
    else match state["tender_path"]
      case Str(s) => Some(StartsWith(s, "wiki/"))
      case _ => None
  }

  /** The parse-first decision of `_coordinate_bid_build`: uploads not yet in the wiki are parsed first. */
  function CoordinateBidBuild(state: Dict, hasFiles: bool): (s: Step)
    ensures s == ParseDocuments <==> hasFiles && WikiParsed(state) == Some(false)
    ensures s == RunBuild <==> WikiParsed(state).Some? && !(hasFiles && WikiParsed(state) == Some(false))
    ensures s == Crash <==> WikiParsed(state).None?
  {
    match WikiParsed(state)
    case None => Crash
    case Some(parsed) => if hasFiles && !parsed then ParseDocuments else RunBuild
  }

  /** The stages a conversation may replace by "general_coordination". */
  predicate Generic(stage: Value)
  {
    stage == Null || stage == Str("") || stage == Str("initial") || stage == Str("general_coordination")
  }

  /**
   * `_handle_general_coordination`: a trigger word starts the build;
   * otherwise the answer reports "general_coordination" from a generic
   * stage and leaves any other stage as it is.
   */
  function HandleGeneralCoordination(userInput: string, state: Dict, hasFiles: bool): (s: Step)
    ensures ContainsAny(Strip(userInput), TriggerKeywords) ==> s == CoordinateBidBuild(state, hasFiles)
    ensures !ContainsAny(Strip(userInput), TriggerKeywords) ==>
      s.Chat? && (Generic(Get(state, "current_stage", Str("initial"))) ==> s.stage == Str("general_coordination"))
      && (!Generic(Get(state, "current_stage", Str("initial"))) ==> s.stage == Get(state, "current_stage", Str("initial")))
  {
    if ContainsAny(Strip(userInput), TriggerKeywords) then CoordinateBidBuild(state, hasFiles)
    else
      var current := Get(state, "current_stage", Str("initial"));
      Chat(if Generic(current) then Str("general_coordination") else current)
  }

  /** `_handle_initial_request`: the two processing actions go to the build, the rest to conversation. */
  function HandleInitialRequest(userInput: string, state: Dict, hasFiles: bool): (s: Step)
    ensures hasFiles ==> s == CoordinateBidBuild(state, hasFiles)
    ensures !hasFiles ==> s == HandleGeneralCoordination(userInput, state, hasFiles)
  {
    var a := AnalyzeUserRequest(userInput, hasFiles);
    if a.action == "process_bidding_documents" || a.action == "process_documents" then CoordinateBidBuild(state, hasFiles)
    else HandleGeneralCoordination(userInput, state, hasFiles)
  }

  /** The outcome of `execute` and the project state it leaves behind. */
  datatype Answer = Answer(step: Step, state: Dict)

  /**
   * `execute`'s dispatch on the current stage: "initial" to the initial
   * handler, the two parsing stages to the build (a requested parse becomes
   * "document_parsing" first), every other stage to conversation.
   */
  function Execute(userInput: string, state: Dict, hasFiles: bool): (r: Answer)
    ensures Get(state, "current_stage", Str("initial")) == Str("parsing_requested") ==>
      r == Answer(CoordinateBidBuild(state, hasFiles), state["current_stage" := Str("document_parsing")])
    ensures Get(state, "current_stage", Str("initial")) == Str("parsing_completed") ==>
      r == Answer(CoordinateBidBuild(state, hasFiles), state["current_stage" := Str("parsing_completed")])
    ensures (Get(state, "current_stage", Str("initial")) != Str("parsing_requested")
      && Get(state, "current_stage", Str("initial")) != Str("parsing_completed")) ==> r.state == state
    ensures Get(state, "current_stage", Str("initial")) == Str("initial") ==>
      r.step == HandleInitialRequest(userInput, state, hasFiles)
    ensures Get(state, "current_stage", Str("initial")) !in {Str("initial"), Str("parsing_requested"), Str("parsing_completed")} ==>
      r.step == HandleGeneralCoordination(userInput, state, hasFiles)
  {
    var current := Get(state, "current_stage", Str("initial"));
    if current == Str("initial") then Answer(HandleInitialRequest(userInput, state, hasFiles), state)
    else if current == Str("parsing_requested") || current == Str("parsing_completed") then
      var staged := state["current_stage" := if current == Str("parsing_requested") then Str("document_parsing") else current];
      Answer(CoordinateBidBuild(staged, hasFiles), staged)
    else Answer(HandleGeneralCoordination(userInput, state, hasFiles), state)
  }

  /** The stage write does not touch the tender path, so the parse-first decision is the same before and after it. */
  lemma StageWriteKeepsDecision(state: Dict, v: Value, hasFiles: bool)
    ensures CoordinateBidBuild(state["current_stage" := v], hasFiles) == CoordinateBidBuild(state, hasFiles)
  {
    assert WikiParsed(state["current_stage" := v]) == WikiParsed(state);
  }

  /** From "initial", uploads never lead to a conversation; without them no parse is started. */
  lemma InitialDispatch(userInput: string, state: Dict, hasFiles: bool)
    requires Get(state, "current_stage", Str("initial")) == Str("initial")
    ensures hasFiles ==> !Execute(userInput, state, hasFiles).step.Chat?
    ensures !hasFiles ==> Execute(userInput, state, hasFiles).step != ParseDocuments
  {
  }
}
