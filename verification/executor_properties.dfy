/**
  What the engine promises: how a context is dispatched, which step accepts
  which context, what one invocation does to the chat's state and trace, and
  how the chain strings invocations together.
 */
module ExecutorProperties {
  import opened Wrappers
  import opened Strings
  import opened Constants
  import opened Jumps
  import opened ChatModel
  import opened Graph
  import opened Contexts
  import opened Events
  import opened Executor
  import StepDsl
  import Options

  // ---------------------------------------------------------------------------
  // Dispatch.
  // ---------------------------------------------------------------------------

  /** A command for a flow that is not registered publishes only `ChatFlowNotFound` and runs nothing. */
  lemma UnknownCommand(flows: Flows, run: UserCode, c: ChatContext, fuel: nat)
    requires WellFormed(flows) && c.CommandContext? && c.command !in flows
    ensures Dispatch(flows, run, c, fuel) == Run(Idle, [], [ChatFlowNotFound(c.command, c)])
  {
  }

  /** A command for a registered flow runs the chain from that flow's first step. */
  lemma KnownCommandStartsAtFirstStep(flows: Flows, run: UserCode, c: ChatContext, fuel: nat)
    requires WellFormed(flows) && c.CommandContext? && c.command in flows
    requires |flows[c.command].steps| > 0
    ensures var r := Dispatch(flows, run, c, fuel);
            && r == Execute(flows, run, c, StepRef(c.command, FirstStep(flows[c.command]).value), fuel)
            && r.end != Idle
            && r.events[0] == ChatExecutionStarted(ToStepContext(c, StepRef(c.command, 0), c.command, flows[c.command].steps[0].name))
            && (|r.history| > 0 ==> r.history[0].step == StepRef(c.command, 0))
  {
  }

  /** An inbound context is resumable when it is neither a command nor an event. */
  predicate Resumable(c: ChatContext) {
    !c.CommandContext? && !c.EventContext?
  }

  /** Without a current flow or step in the state, a resumable context does nothing. */
  lemma ResumeWithoutCursor(flows: Flows, run: UserCode, c: ChatContext, fuel: nat)
    requires WellFormed(flows) && Resumable(c)
    requires c.state.flowInfo.None? || c.state.stepInfo.None?
    ensures Dispatch(flows, run, c, fuel) == Run(Idle, [], [])
  {
  }

  /** A state naming a flow that is not registered publishes only `ChatFlowNotFound`. */
  lemma ResumeUnknownFlow(flows: Flows, run: UserCode, c: ChatContext, fuel: nat)
    requires WellFormed(flows) && Resumable(c)
    requires c.state.flowInfo.Some? && c.state.stepInfo.Some?
    requires c.state.flowInfo.value.flowName !in flows
    ensures Dispatch(flows, run, c, fuel) == Run(Idle, [], [ChatFlowNotFound(c.state.flowInfo.value.flowName, c)])
  {
  }

  /** A state naming a step its flow does not have publishes only `ChatStepNotFound`. */
  lemma ResumeUnknownStep(flows: Flows, run: UserCode, c: ChatContext, fuel: nat)
    requires WellFormed(flows) && Resumable(c)
    requires c.state.flowInfo.Some? && c.state.stepInfo.Some?
    requires c.state.flowInfo.value.flowName in flows
    requires forall i :: 0 <= i < |flows[c.state.flowInfo.value.flowName].steps| ==>
               flows[c.state.flowInfo.value.flowName].steps[i].name != c.state.stepInfo.value.stepName
    ensures var f := flows[c.state.flowInfo.value.flowName];
            Dispatch(flows, run, c, fuel) == Run(Idle, [], [ChatStepNotFound(f, c.state.stepInfo.value.stepName, c)])
  {
  }

  /**
    A known current step is resumed exactly when it accepts the context; the
    step resumed is the last one of its flow bearing the recorded name.
   */
  lemma ResumeIffAcceptable(flows: Flows, run: UserCode, c: ChatContext, fuel: nat, i: nat)
    requires WellFormed(flows) && Resumable(c)
    requires c.state.flowInfo.Some? && c.state.stepInfo.Some?
    requires c.state.flowInfo.value.flowName in flows
    requires var f := flows[c.state.flowInfo.value.flowName];
             && i < |f.steps| && f.steps[i].name == c.state.stepInfo.value.stepName
             && forall k :: i < k < |f.steps| ==> f.steps[k].name != f.steps[i].name
    ensures var r := Dispatch(flows, run, c, fuel);
            var ref := StepRef(c.state.flowInfo.value.flowName, i);
            && (r.end != Idle <==> Acceptable(StepAt(flows, ref), c))
            && (r.end != Idle ==> r == Execute(flows, run, c, ref, fuel))
            && (r.end == Idle ==> r == Run(Idle, [], []))
  {
    var f := flows[c.state.flowInfo.value.flowName];
    var m := StepMap(f.steps);
    assert m[f.steps[i].name] == i;
  }

  /** An event context is never handed to a step. */
  lemma EventIgnored(flows: Flows, run: UserCode, c: ChatContext, fuel: nat)
    requires WellFormed(flows) && c.EventContext?
    ensures Dispatch(flows, run, c, fuel).end == Idle
    ensures Dispatch(flows, run, c, fuel).events == []
  {
  }

  // ---------------------------------------------------------------------------
  // Acceptability.
  // ---------------------------------------------------------------------------

  /** The marker a resumable context needs in the name of the step it resumes. */
  function MarkerFor(c: ChatContext): (r: nat)
    requires Resumable(c)
    ensures r < |ResumeMarkers|
  {
    match c
    case CallbackContext(_, _) => 0
    case PreCheckoutContext(_, _) => 1
    case TextContext(_, _) => 2
    case PaymentContext(_, _) => 3
  }

  /** A step that accepts a resumable context is suspendable and ends with that context's marker. */
  lemma AcceptedCarriesMarker(s: Step, c: ChatContext)
    requires Resumable(c) && Acceptable(s, c)
    ensures s.suspendable && EndsWith(s.name, ResumeMarkers[MarkerFor(c)])
  {
  }

  /**
    A step accepts either commands or resumable contexts, never both, and
    resumable contexts of at most one kind.
   */
  lemma AcceptsOneKind(s: Step, c1: ChatContext, c2: ChatContext)
    requires Acceptable(s, c1) && Acceptable(s, c2)
    ensures c1.CommandContext? <==> c2.CommandContext?
    ensures Resumable(c1) && Resumable(c2) ==> MarkerFor(c1) == MarkerFor(c2)
  {
    if Resumable(c1) && Resumable(c2) {
      AcceptedCarriesMarker(s, c1);
      AcceptedCarriesMarker(s, c2);
      AtMostOneMarker(s.name, MarkerFor(c1), MarkerFor(c2));
    }
  }

  /**
    The options keyboard of a non-suspendable step `S` is answered by the
    callback step `S/suspended/callback` of the same flow: every button's data
    is accepted there and decodes to the option's value.
   */
  lemma OptionsReachAwaitingStep(f: Flow, i: nat, j: nat, items: seq<seq<Options.ChatOption>>, a: nat, b: nat, state: ChatState)
    requires Linked(f) && i < |f.steps| && j < |f.steps|
    requires !f.steps[i].suspendable && f.steps[j].suspendable
    requires f.steps[j].name == f.steps[i].name + CallbackMarker
    requires DelimiterChar !in f.id && DelimiterChar !in f.steps[i].name
    requires a < |items| && b < |items[a]|
    ensures var data := StepDsl.OptionsKeyboard(f.steps[i], CallbackDataDelimiter, items)[a][b].callbackData;
            && Acceptable(f.steps[j], CallbackContext(state, data))
            && ToStepContext(CallbackContext(state, data), StepRef(f.id, j), f.id, f.steps[j].name).kind.value == items[a][b].value
  {
    var s := f.steps[i];
    var data := StepDsl.OptionsKeyboard(s, CallbackDataDelimiter, items)[a][b].callbackData;
    assert FullName(s) == f.id + PathDelimiter + s.name;
    assert FullName(f.steps[j]) == f.id + PathDelimiter + (s.name + CallbackMarker);
    assert data == Options.CallbackPrefix(FullName(s), false, CallbackDataDelimiter) + items[a][b].value;
    Options.CallbackDataTargetsAwaitingStep(f.id, s.name, CallbackDataDelimiter, items[a][b].value);
    MarkerValues();
    EndsWithConcat(s.name, CallbackMarker);
    assert DelimiterChar !in FullName(s) by {
      forall k | 0 <= k < |FullName(s)|
        ensures FullName(s)[k] != DelimiterChar
      {
        if k < |f.id| {
          assert FullName(s)[k] == f.id[k];
        } else if k > |f.id| {
          assert FullName(s)[k] == s.name[k - |f.id| - 1];
        }
      }
    }
    Options.CallbackRoundTrip(FullName(s), false, items[a][b].value);
  }

  // ---------------------------------------------------------------------------
  // One invocation.
  // ---------------------------------------------------------------------------

  /**
    A waiting step reached by a context that cannot resume it (a command or a
    continuation) suspends: its action is not run, so the outcome does not
    depend on the user code; the step is recorded as suspended and
    `ChatStepSuspended` is the last event, after `ChatFlowStarted` for a first step.
   */
  lemma SuspendsWithoutRunning(flows: Flows, run1: UserCode, run2: UserCode, ref: StepRef, ctx: StepContext)
    requires WellFormed(flows) && ValidRef(flows, ref)
    requires StepAt(flows, ref).suspendable && !IsSuspendableContext(ctx)
    ensures var r := Invoke(flows, run1, ref, ctx);
            && r == Invoke(flows, run2, ref, ctx)
            && r.outcome == Returned(Suspended)
            && r.ctx.state.stepInfo == Some(StepInfo(StepAt(flows, ref).name, StepSuspended, None))
            && |r.events| == (if ref.index == 0 then 2 else 1)
            && (ref.index == 0 ==> r.events[0].ChatFlowStarted?)
            && r.events[|r.events| - 1] == ChatStepSuspended(r.ctx)
  {
  }

  /** The chain hands a continuation context to every step after the first, so a waiting step reached that way suspends. */
  lemma ContinuationSuspends(flows: Flows, run: UserCode, ref: StepRef, prev: StepContext)
    requires WellFormed(flows) && ValidRef(flows, ref) && StepAt(flows, ref).suspendable
    ensures Invoke(flows, run, ref, ContinueAt(flows, prev, ref)).outcome == Returned(Suspended)
  {
  }

  /** The flow info of `fi` moved to state `st`, if there is one. */
  function WithFlowState(fi: Option<FlowInfo>, st: FlowState): (r: Option<FlowInfo>)
    ensures r.Some? <==> fi.Some?
    ensures r.Some? ==> r.value.flowState == st && r.value.flowName == fi.value.flowName && r.value.flowData == fi.value.flowData
  {
    match fi
    case None => None
    case Some(x) => Some(x.(flowState := st))
  }

  /**
    The normal path of a step whose action throws nothing: a first step starts
    the flow (active, with an empty data bag, no current step); then the step
    starts, its action runs, and it completes; a last step then completes the
    flow and clears the current step. The result is `Completed` without
    termination.
   */
  lemma NormalPath(flows: Flows, run: UserCode, ref: StepRef, ctx: StepContext)
    requires WellFormed(flows) && ValidRef(flows, ref)
    requires !StepAt(flows, ref).suspendable || IsSuspendableContext(ctx)
    requires forall c :: RunAction(run, StepAt(flows, ref).action, c).thrown.None?
    ensures var r := Invoke(flows, run, ref, ctx);
            var s := StepAt(flows, ref);
            var first := ref.index == 0;
            var last := ref.index + 1 == |flows[ref.flowId].steps|;
            var n := if first then 1 else 0;
            && r.outcome == Returned(Completed(false))
            && |r.events| == n + 2 + (if last then 1 else 0)
            && (first ==> r.events[0].ChatFlowStarted?
                          && r.events[0].stepContext.state.flowInfo == Some(FlowInfo(ref.flowId, FlowActive, FlowData.EmptyBag))
                          && r.events[0].stepContext.state.stepInfo.None?)
            && r.events[n].ChatStepStarted?
            && r.events[n].stepContext.state.stepInfo == Some(StepInfo(s.name, StepStarted, None))
            && r.events[n + 1].ChatStepCompleted?
            && r.events[n + 1].stepContext.state.stepInfo == Some(StepInfo(s.name, StepCompleted, None))
            && (last ==> && r.events[n + 2] == ChatFlowCompleted(r.ctx)
                         && r.ctx.state.stepInfo.None?
                         && r.ctx.state.flowInfo == WithFlowState(r.events[n + 1].stepContext.state.flowInfo, FlowCompleted))
            && (!last ==> r.ctx.state.stepInfo == Some(StepInfo(s.name, StepCompleted, None)))
  {
  }

  /** `invoke` never asks the chain to stop: a completed step always continues. */
  lemma NeverTerminationRequested(flows: Flows, run: UserCode, ref: StepRef, ctx: StepContext)
    requires WellFormed(flows) && ValidRef(flows, ref)
    ensures Invoke(flows, run, ref, ctx).outcome != Returned(Completed(true))
  {
  }

  /**
    `Goto(n)`: the step is terminated before the target is looked up; the
    result jumps to the step named `n` in the same flow, or — when there is
    none — an `IllegalArgumentException` escapes, the termination already done.
   */
  lemma GotoTerminatesThenLooksUp(flows: Flows, ref: StepRef, n: string, t: Track)
    requires WellFormed(flows) && ValidRef(flows, ref) && AllLifecycle(t.events)
    ensures var r := ProcessThrowable(flows, ref, Goto(n), t);
            var f := flows[ref.flowId];
            && r.ctx.state.stepInfo == Some(StepInfo(StepAt(flows, ref).name, StepTerminated, None))
            && r.ctx.state.flowInfo == t.ctx.state.flowInfo
            && r.events == t.events + [ChatStepTerminated(r.ctx)]
            && ((exists k :: 0 <= k < |f.steps| && f.steps[k].name == n) ==>
                  && r.outcome.Returned? && r.outcome.result.StepJump?
                  && r.outcome.result.target.flowId == ref.flowId
                  && StepAt(flows, r.outcome.result.target).name == n)
            && ((forall k :: 0 <= k < |f.steps| ==> f.steps[k].name != n) ==>
                  r.outcome == Crashed(Error(IllegalArgument, Some("Step [" + n + "] does not exist!"))))
  {
  }

  /**
    `GoNext`: the result jumps to the nearest later step that does not wait
    for input, terminating this step; when every later step waits, an
    `IllegalArgumentException` escapes and nothing was changed or published.
   */
  lemma GoNextSkipsWaitingSteps(flows: Flows, ref: StepRef, t: Track)
    requires WellFormed(flows) && ValidRef(flows, ref) && AllLifecycle(t.events)
    ensures var r := ProcessThrowable(flows, ref, GoNext, t);
            var f := flows[ref.flowId];
            var i := ref.index;
            var name := StepAt(flows, ref).name;
            && (r.outcome.Returned? <==> exists k :: i < k < |f.steps| && !f.steps[k].suspendable)
            && (r.outcome.Returned? ==>
                  && r.outcome.result.StepJump? && r.outcome.result.target.flowId == ref.flowId
                  && i < r.outcome.result.target.index
                  && !StepAt(flows, r.outcome.result.target).suspendable
                  && (forall k :: i < k < r.outcome.result.target.index ==> f.steps[k].suspendable)
                  && r.ctx.state.stepInfo == Some(StepInfo(name, StepTerminated, None))
                  && r.events == t.events + [ChatStepTerminated(r.ctx)])
            && (r.outcome.Crashed? ==>
                  && r.outcome.error == Error(IllegalArgument, Some("No next step found for step [" + name + "]."))
                  && r.ctx == t.ctx && r.events == t.events)
  {
    var f := flows[ref.flowId];
    var i := ref.index;
    if i + 1 < |f.steps| {
      assert f.steps[i].next == Some(i + 1);
    }
  }

  /** `GoPrevious`: the same search towards the start of the flow. */
  lemma GoPreviousSkipsWaitingSteps(flows: Flows, ref: StepRef, t: Track)
    requires WellFormed(flows) && ValidRef(flows, ref) && AllLifecycle(t.events)
    ensures var r := ProcessThrowable(flows, ref, GoPrevious, t);
            var f := flows[ref.flowId];
            var i := ref.index;
            var name := StepAt(flows, ref).name;
            && (r.outcome.Returned? <==> exists k :: 0 <= k < i && !f.steps[k].suspendable)
            && (r.outcome.Returned? ==>
                  && r.outcome.result.StepJump? && r.outcome.result.target.flowId == ref.flowId
                  && r.outcome.result.target.index < i
                  && !StepAt(flows, r.outcome.result.target).suspendable
                  && (forall k :: r.outcome.result.target.index < k < i ==> f.steps[k].suspendable)
                  && r.ctx.state.stepInfo == Some(StepInfo(name, StepTerminated, None))
                  && r.events == t.events + [ChatStepTerminated(r.ctx)])
            && (r.outcome.Crashed? ==>
                  && r.outcome.error == Error(IllegalArgument, Some("No previous step found for step [" + name + "]."))
                  && r.ctx == t.ctx && r.events == t.events)
  {
    var f := flows[ref.flowId];
    var i := ref.index;
    if i > 0 {
      assert f.steps[i].previous == Some(i - 1);
    }
  }

  /**
    `StartFlow(n)`: the step is terminated, then the flow is completed when the
    step is the last one and terminated otherwise; the result jumps to flow `n`.
   */
  lemma StartFlowLeavesFlow(flows: Flows, ref: StepRef, n: string, t: Track)
    requires WellFormed(flows) && ValidRef(flows, ref) && AllLifecycle(t.events)
    ensures var r := ProcessThrowable(flows, ref, StartFlow(n), t);
            var last := ref.index + 1 == |flows[ref.flowId].steps|;
            var terminated := Some(StepInfo(StepAt(flows, ref).name, StepTerminated, None));
            && r.outcome == Returned(FlowJump(n))
            && |r.events| == |t.events| + 2 && r.events[..|t.events|] == t.events
            && r.events[|t.events|].ChatStepTerminated?
            && r.events[|t.events|].stepContext.state.stepInfo == terminated
            && r.ctx.state.flowInfo == WithFlowState(t.ctx.state.flowInfo, if last then FlowCompleted else FlowTerminated)
            && r.ctx.state.stepInfo == (if last then None else terminated)
            && r.events[|t.events| + 1] == (if last then ChatFlowCompleted(r.ctx) else ChatFlowTerminated(r.ctx))
  {
  }

  /** `StopFlow`: both the step and the flow are terminated and the chain stops. */
  lemma StopFlowTerminatesBoth(flows: Flows, ref: StepRef, t: Track)
    requires WellFormed(flows) && ValidRef(flows, ref) && AllLifecycle(t.events)
    ensures var r := ProcessThrowable(flows, ref, StopFlow, t);
            && r.outcome == Returned(FlowStopped)
            && r.ctx.state.stepInfo == Some(StepInfo(StepAt(flows, ref).name, StepTerminated, None))
            && r.ctx.state.flowInfo == WithFlowState(t.ctx.state.flowInfo, FlowTerminated)
            && |r.events| == |t.events| + 2 && r.events[..|t.events|] == t.events
            && r.events[|t.events|].ChatStepTerminated?
            && r.events[|t.events| + 1] == ChatFlowTerminated(r.ctx)
  {
  }

  /**
    Anything else — an error, or an ignored event, which this engine does not
    treat specially — fails the step with the throwable's message and ends the chain.
   */
  lemma OtherThrowableFails(flows: Flows, ref: StepRef, e: Throwable, t: Track)
    requires WellFormed(flows) && ValidRef(flows, ref) && AllLifecycle(t.events)
    requires e.Error? || e.IgnoreEvent?
    ensures var r := ProcessThrowable(flows, ref, e, t);
            && r.outcome == Returned(Failed(e))
            && r.ctx.state.stepInfo == Some(StepInfo(StepAt(flows, ref).name, StepFailed, Message(e)))
            && r.ctx.state.flowInfo == t.ctx.state.flowInfo
            && r.events == t.events + [ChatStepFailed(r.ctx, Some(e))]
            && NextStep(flows, ref, r.outcome.result) == End
  {
  }

  /**
    A step whose action is wrapped in a fallback fails only by an ignored
    event: every error becomes a jump, and the wrapper lets `IgnoreEvent`
    through to an engine that has no branch for it.
   */
  lemma FallbackFailsOnlyByIgnoredEvent(flows: Flows, run: UserCode, ref: StepRef, ctx: StepContext)
    requires WellFormed(flows) && ValidRef(flows, ref) && StepAt(flows, ref).action.Fallback?
    ensures var r := Invoke(flows, run, ref, ctx);
            r.outcome.Returned? && r.outcome.result.Failed? ==> r.outcome.result.throwable.IgnoreEvent?
  {
    var f := flows[ref.flowId];
    var s := f.steps[ref.index];
    var t1 := if ref.index == 0 then ToFlowStarted(Track(ctx, []), f.id) else Track(ctx, []);
    if !(s.suspendable && !IsSuspendableContext(ctx)) {
      var t2 := ToStep(t1, s.name, StepStarted, None);
      var a := RunAction(run, s.action, t2.ctx);
      if a.thrown.Some? {
        SignalsFailOnlyWhenIgnored(flows, ref, a.thrown.value, SetState(t2, a.state));
      }
    }
  }

  /** Of the control signals only `IgnoreEvent` is turned into a failure. */
  lemma SignalsFailOnlyWhenIgnored(flows: Flows, ref: StepRef, e: Throwable, t: Track)
    requires WellFormed(flows) && ValidRef(flows, ref) && AllLifecycle(t.events)
    requires StepDsl.IsSignal(e)
    ensures var r := ProcessThrowable(flows, ref, e, t);
            r.outcome.Returned? && r.outcome.result.Failed? <==> e.IgnoreEvent?
  {
  }

  // ---------------------------------------------------------------------------
  // The chain.
  // ---------------------------------------------------------------------------






  /** Every step of flow `id` is quiet: none waits for input, no action throws. */
  ghost predicate Quiet(flows: Flows, run: UserCode, id: string)
    requires id in flows
  {
    forall i :: 0 <= i < |flows[id].steps| ==> QuietStep(flows, run, StepRef(id, i))
  }

  /**
    Along a history that follows the rule from step `i` of a quiet flow, the
    `k`-th snapshot is of step `i + k`, and that step completed.
   */
  lemma {:induction false} QuietWalk(flows: Flows, run: UserCode, id: string, i: nat, h: seq<Snapshot>, k: nat)
    requires WellFormed(flows) && id in flows && Quiet(flows, run, id)
    requires FollowsRule(flows, h) && k < |h| && h[0].step == StepRef(id, i)
    requires forall j :: 0 <= j < |h| && QuietStep(flows, run, h[j].step) ==> h[j].result == Completed(false)
    ensures h[k].step == StepRef(id, i + k) && h[k].result == Completed(false)
    decreases k
  {
    if k > 0 {
      QuietWalk(flows, run, id, i, h, k - 1);
      var f := flows[id];
      assert f.steps[i + k - 1].next == (if i + k == |f.steps| then None else Some(i + k));
      assert NextStep(flows, h[k - 1].step, h[k - 1].result) == Go(h[k].step);
    } else {
      assert QuietStep(flows, run, StepRef(id, i));
    }
  }

  /**
    From step `i` of a quiet flow, given enough fuel, the chain runs every
    later step once, in declaration order, each completing, and finishes.
   */
  lemma QuietFlowRunsToEnd(flows: Flows, run: UserCode, id: string, i: nat, ctx: StepContext, fuel: nat)
    requires WellFormed(flows) && id in flows && i < |flows[id].steps| && Quiet(flows, run, id)
    requires fuel >= |flows[id].steps| - i
    ensures var r := Drive(flows, run, StepRef(id, i), ctx, fuel);
            && r.end == Finished
            && |r.history| == |flows[id].steps| - i
            && forall k :: 0 <= k < |r.history| ==> r.history[k].step == StepRef(id, i + k) && r.history[k].result == Completed(false)
  {
    var n := |flows[id].steps|;
    var r := Drive(flows, run, StepRef(id, i), ctx, fuel);
    var h := r.history;
    assert QuietStep(flows, run, StepRef(id, i));
    assert |h| > 0;
    forall k | 0 <= k < |h|
      ensures h[k].step == StepRef(id, i + k) && h[k].result == Completed(false)
    {
      QuietWalk(flows, run, id, i, h, k);
    }
    var last := h[|h| - 1];
    assert last.step == StepRef(id, i + |h| - 1) && last.result == Completed(false);
    assert NextStep(flows, last.step, last.result) == End;
  }

  /**
    A command for a quiet flow, given enough fuel, runs the whole flow: every
    step once, in declaration order; the trace opens with the execution
    starting and closes with it completing, carrying that history.
   */
  lemma QuietCommandRunsWholeFlow(flows: Flows, run: UserCode, c: ChatContext, fuel: nat)
    requires WellFormed(flows) && c.CommandContext? && c.command in flows
    requires |flows[c.command].steps| > 0 && Quiet(flows, run, c.command)
    requires fuel >= |flows[c.command].steps|
    ensures var r := Dispatch(flows, run, c, fuel);
            && r.end == Finished
            && |r.history| == |flows[c.command].steps|
            && (forall k :: 0 <= k < |r.history| ==> r.history[k].step == StepRef(c.command, k))
            && r.events[0].ChatExecutionStarted?
            && r.events[|r.events| - 1] == ChatExecutionCompleted(c, r.history)
  {
    var ref := StepRef(c.command, 0);
    var sc := ToStepContext(c, ref, flows[c.command].id, StepAt(flows, ref).name);
    QuietFlowRunsToEnd(flows, run, c.command, 0, sc, fuel);
  }
}
