/**
  What the engine works on: the inbound context that arrives from the bot,
  and the step context a step runs in. A step context carries a copy of the
  inbound state plus the cursor (the flow id and the step name it was built
  for). Bot handles, raw updates and Telegram payload objects are reduced to
  the identifiers the engine looks at.
 */
module Contexts {
  import opened Wrappers
  import opened ChatModel
  import CallbackQuery

  /** The inbound contexts. `EventContext` carries the event's type name in place of the event. */
  datatype ChatContext =
    | CommandContext(state: ChatState, command: string, args: seq<string>)
    | CallbackContext(state: ChatState, data: string)
    | PreCheckoutContext(state: ChatState, queryId: string)
    | PaymentContext(state: ChatState, payment: string)
    | TextContext(state: ChatState, text: string)
    | EventContext(state: ChatState, eventType: string)

  /** A command context with the default, empty argument list. */
  function Command(state: ChatState, command: string): (r: ChatContext)
    ensures r.CommandContext? && r.state == state && r.command == command && r.args == []
  {
    CommandContext(state, command, [])
  }

  /** Every inbound context but the command one may resume a suspended step. */
  predicate IsSuspendableInbound(c: ChatContext) {
    !c.CommandContext?
  }

  /** A step by position: the key of its flow in the executor's map and its index in that flow. */
  datatype StepRef = StepRef(flowId: string, index: nat)

  /** The kind of step context, with what each kind keeps from its inbound context. */
  datatype StepKind =
    | CommandStep(command: string, args: seq<string>)
    | ContinuationStep
    | CallbackStep(data: string, value: string)
    | PreCheckoutStep(queryId: string)
    | PaymentStep(payment: string)
    | TextStep(text: string)
    | EventStep(eventType: string)

  /**
    A step context: its kind, the state it works on, the step it runs, and the
    cursor written into the state copy when it was built.
   */
  datatype StepContext = StepContext(kind: StepKind, state: ChatState, step: StepRef, flowName: string, stepName: string)

  /** Command and continuation contexts are the ones a suspendable step cannot run in. */
  predicate IsSuspendableContext(c: StepContext) {
    !(c.kind.CommandStep? || c.kind.ContinuationStep?)
  }

  /**
    `toStepContext`: the step context of the matching kind for step `ref`
    (flow `flowId`, name `stepName`), over the inbound state with the cursor set.
   */
  function ToStepContext(c: ChatContext, ref: StepRef, flowId: string, stepName: string): (r: StepContext)
    ensures r.state == c.state && r.step == ref && r.flowName == flowId && r.stepName == stepName
    ensures IsSuspendableContext(r) <==> IsSuspendableInbound(c)
    ensures c.CommandContext? ==> r.kind == CommandStep(c.command, c.args)
    ensures c.TextContext? ==> r.kind == TextStep(c.text)
    ensures c.CallbackContext? ==> r.kind.CallbackStep? && r.kind.data == c.data && r.kind.value == CallbackQuery.Value(c.data)
  {
    var kind := match c
      case CommandContext(_, command, args) => CommandStep(command, args)
      case CallbackContext(_, data) => CallbackStep(data, CallbackQuery.Value(data))
      case PreCheckoutContext(_, q) => PreCheckoutStep(q)
      case PaymentContext(_, p) => PaymentStep(p)
      case TextContext(_, text) => TextStep(text)
      case EventContext(_, e) => EventStep(e);
    StepContext(kind, c.state, ref, flowId, stepName)
  }

  /**
    `ContinuationChatStepContext(context, nextStep)`: the context the chain
    hands to the next step, over the state the previous step left.
   */
  function Continuation(c: StepContext, ref: StepRef, flowId: string, stepName: string): (r: StepContext)
    ensures r.state == c.state && r.step == ref && r.flowName == flowId && r.stepName == stepName
    ensures !IsSuspendableContext(r)
  {
    StepContext(ContinuationStep, c.state, ref, flowId, stepName)
  }
}
