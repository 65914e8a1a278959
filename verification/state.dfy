/**
  The persisted state of one chat: its language, labels and metadata, plus the
  cursor the engine keeps — the current flow with its data bag and the current
  step with its lifecycle state.
 */
module ChatModel {
  import opened Wrappers
  import opened Constants
  import opened FlowData

  datatype FlowState = FlowActive | FlowCompleted | FlowTerminated

  datatype StepState = StepStarted | StepSuspended | StepCompleted | StepTerminated | StepFailed

  datatype FlowInfo = FlowInfo(flowName: string, flowState: FlowState, flowData: Bag)

  datatype StepInfo = StepInfo(stepName: string, stepState: StepState, errorMessage: Option<string>)

  datatype ChatState = ChatState(
    chatId: int,
    language: string,
    labels: seq<string>,
    metadata: map<string, string>,
    flowInfo: Option<FlowInfo>,
    stepInfo: Option<StepInfo>)

  /** `ChatState(chatId, metadata = metadata)` with every other field at its default. */
  function NewState(chatId: int, metadata: map<string, string>): (r: ChatState)
    ensures r.chatId == chatId && r.metadata == metadata
    ensures r.language == "en" && r.labels == []
    ensures r.flowInfo.None? && r.stepInfo.None?
  {
    ChatState(chatId, "en", [], metadata, None, None)
  }

  /** The runner that owns this state, read from its metadata. */
  function RunnerName(s: ChatState): (r: Option<string>)
    ensures r.Some? <==> RunnerNameKey in s.metadata
    ensures r.Some? ==> r.value == s.metadata[RunnerNameKey]
  {
    if RunnerNameKey in s.metadata then Some(s.metadata[RunnerNameKey]) else None
  }

  /** The flow data bag, null when no flow is recorded. */
  function DataBag(s: ChatState): Option<Bag> {
    match s.flowInfo
    case None => None
    case Some(fi) => Some(fi.flowData)
  }

  /** Writes a bag back; a state without flow info has nowhere to keep it. */
  function WithDataBag(s: ChatState, bag: Option<Bag>): (r: ChatState)
    ensures r.(flowInfo := s.flowInfo) == s
    ensures s.flowInfo.None? || bag.None? ==> r == s
    ensures s.flowInfo.Some? && bag.Some? ==>
              && r.flowInfo.Some? && DataBag(r) == bag
              && r.flowInfo.value.(flowData := s.flowInfo.value.flowData) == s.flowInfo.value
  {
    match (s.flowInfo, bag)
    case (Some(fi), Some(b)) => s.(flowInfo := Some(fi.(flowData := b)))
    case _ => s
  }
}
