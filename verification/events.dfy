/**
  The outcome of invoking one step and the lifecycle events the engine
  publishes. Publishing is modelled as appending to a trace; each event that
  carries a step context carries it as it was at the moment of publishing.
 */
module Events {
  import opened Wrappers
  import opened Jumps
  import opened Graph
  import opened Contexts

  /** The six results of invoking a step. `FlowStopped` is the stop-flow result. */
  datatype ExecResult =
    | Completed(termination: bool)
    | Suspended
    | StepJump(target: StepRef)
    | FlowJump(flowName: string)
    | FlowStopped
    | Failed(throwable: Throwable)

  /** One entry of the execution history: the step, the context it ran in, its result. */
  datatype Snapshot = Snapshot(step: StepRef, context: StepContext, result: ExecResult)

  datatype ChatEvent =
    | ChatFlowNotFound(flowName: string, context: ChatContext)
    | ChatStepNotFound(flow: Flow, stepName: string, context: ChatContext)
    | ChatFlowStarted(stepContext: StepContext)
    | ChatFlowCompleted(stepContext: StepContext)
    | ChatFlowTerminated(stepContext: StepContext)
    | ChatStepStarted(stepContext: StepContext)
    | ChatStepCompleted(stepContext: StepContext)
    | ChatStepSuspended(stepContext: StepContext)
    | ChatStepTerminated(stepContext: StepContext)
    | ChatStepFailed(stepContext: StepContext, throwable: Option<Throwable>)
    | ChatExecutionStarted(stepContext: StepContext)
    | ChatExecutionCompleted(context: ChatContext, history: seq<Snapshot>)

  /** The events raised inside one step invocation (flow and step lifecycle). */
  predicate IsLifecycle(e: ChatEvent) {
    e.ChatFlowStarted? || e.ChatFlowCompleted? || e.ChatFlowTerminated? ||
    e.ChatStepStarted? || e.ChatStepCompleted? || e.ChatStepSuspended? ||
    e.ChatStepTerminated? || e.ChatStepFailed?
  }

  predicate AllLifecycle(es: seq<ChatEvent>) {
    forall k :: 0 <= k < |es| ==> IsLifecycle(es[k])
  }

  /** A trace of lifecycle events stays one when another is appended. */
  lemma ConcatLifecycle(a: seq<ChatEvent>, b: seq<ChatEvent>)
    ensures AllLifecycle(a) && AllLifecycle(b) ==> AllLifecycle(a + b)
  {
    forall k | AllLifecycle(a) && AllLifecycle(b) && 0 <= k < |a + b|
      ensures IsLifecycle((a + b)[k])
    {
      if k < |a| {
        assert (a + b)[k] == a[k];
      } else {
        assert (a + b)[k] == b[k - |a|];
      }
    }
  }
}
