/**
  The conversation-flow engine. A command starts the flow of that name at its
  first step; any other context resumes the chat's current step when that step
  accepts it. From there the chain driver invokes steps one after another,
  each invocation moving the chat's flow and step info through their
  lifecycle and publishing an event at every move, until a step ends the chain.

  The flows are those `build` produces (linked), held in a map keyed by id.
  Step actions are user code, given as `run`: what an action leaves in the
  state and what it throws.
 */
module Executor {
  import opened Wrappers
  import opened Strings
  import opened Constants
  import opened Jumps
  import opened FlowData
  import opened ChatModel
  import opened Graph
  import opened Contexts
  import opened Events
  import StepDsl

  type Flows = map<string, Flow>

  /** The executor's flows: each under its own id, each linked. */
  predicate WellFormed(flows: Flows) {
    forall n :: n in flows ==> flows[n].id == n && Linked(flows[n])
  }

  predicate ValidRef(flows: Flows, ref: StepRef) {
    ref.flowId in flows && ref.index < |flows[ref.flowId].steps|
  }

  function StepAt(flows: Flows, ref: StepRef): Step
    requires ValidRef(flows, ref)
  {
    flows[ref.flowId].steps[ref.index]
  }

  /** What an action did: the state it left and what it threw, if anything. */
  datatype ActionResult = ActionResult(state: ChatState, thrown: Option<Throwable>)

  /** The cast failure of an event-only action run outside an event context; the JVM's message is not modelled. */
  const ClassCast: Throwable := Error(Other("java.lang.ClassCastException"), None)

  /**
    An event-only action reached by any other kind of context fails its cast;
    under a fallback that becomes a jump back to the receiver.
   */
  lemma MisdeliveredEventFallsBack(run: UserCode, target: string, t: string, inner: Action, ctx: StepContext)
    requires !ctx.kind.EventStep?
    ensures RunAction(run, OnlyEvent(t, inner), ctx).thrown == Some(ClassCast)
    ensures RunAction(run, Fallback(target, OnlyEvent(t, inner)), ctx) == ActionResult(ctx.state, Some(Goto(target)))
  {
  }

  /** User code: the action with the given id, run in the given context. */
  type UserCode = (nat, StepContext) -> ActionResult

  /**
    Runs a step action. A fallback wrapper turns whatever the wrapped action
    throws into a signal. An event-only action runs only for an event context
    of its type; it reads `event` off its receiver, so any other kind of
    context makes it throw `ClassCastException`. The automatic pre-checkout
    step confirms and throws nothing.
   */
  function RunAction(run: UserCode, a: Action, ctx: StepContext): (r: ActionResult)
    ensures a.ConfirmCheckout? ==> r == ActionResult(ctx.state, None)
    ensures a.Fallback? && r.thrown.Some? ==> StepDsl.IsSignal(r.thrown.value)
    ensures a.OnlyEvent? && ctx.kind.EventStep? && ctx.kind.eventType != a.eventType ==> r == ActionResult(ctx.state, None)
    ensures a.OnlyEvent? && !ctx.kind.EventStep? ==> r == ActionResult(ctx.state, Some(ClassCast))
  {
    match a
    case UserAction(id) => run(id, ctx)
    case Fallback(target, inner) =>
      var r := RunAction(run, inner, ctx);
      if r.thrown.Some? then r.(thrown := Some(StepDsl.WithFallback(target, r.thrown.value))) else r
    case OnlyEvent(t, inner) =>
      if !ctx.kind.EventStep? then ActionResult(ctx.state, Some(ClassCast))
      else if ctx.kind.eventType == t then RunAction(run, inner, ctx)
      else ActionResult(ctx.state, None)
    case ConfirmCheckout => ActionResult(ctx.state, None)
  }

  // ---------------------------------------------------------------------------
  // Acceptability and the neighbour search.
  // ---------------------------------------------------------------------------

  /**
    `acceptable`: a command is accepted by a step that does not wait; every
    other context by a waiting step whose name ends with the marker for that
    context; a callback additionally needs its data to start with the step's
    full name. The executor is never given an event context.
   */
  predicate Acceptable(s: Step, c: ChatContext) {
    match c
    case CommandContext(_, _, _) => !s.suspendable
    case TextContext(_, _) => s.suspendable && EndsWith(s.name, TextMarker)
    case CallbackContext(_, data) => s.suspendable && EndsWith(s.name, CallbackMarker) && StartsWith(data, FullName(s))
    case PreCheckoutContext(_, _) => s.suspendable && EndsWith(s.name, PreCheckoutMarker)
    case PaymentContext(_, _) => s.suspendable && EndsWith(s.name, PaymentMarker)
    case EventContext(_, _) => false
  }

  /**
    `terminateAndFind(step.next) { it.next }`: the first step at or after
    `from` that does not wait for input, if any.
   */
  function FindForward(f: Flow, from: Option<nat>): (r: Option<nat>)
    requires Linked(f)
    requires from.Some? ==> from.value < |f.steps|
    ensures r.Some? ==> && from.Some? && from.value <= r.value < |f.steps|
                        && !f.steps[r.value].suspendable
                        && forall k :: from.value <= k < r.value ==> f.steps[k].suspendable
    ensures r.None? && from.Some? ==> forall k :: from.value <= k < |f.steps| ==> f.steps[k].suspendable
    decreases if from.Some? then |f.steps| - from.value else 0
  {
    match from
    case None => None
    case Some(i) =>
      if f.steps[i].suspendable then FindForward(f, f.steps[i].next) else Some(i)
  }

  /** `terminateAndFind(step.previous) { it.previous }`: the same search towards the start. */
  function FindBackward(f: Flow, from: Option<nat>): (r: Option<nat>)
    requires Linked(f)
    requires from.Some? ==> from.value < |f.steps|
    ensures r.Some? ==> && from.Some? && r.value <= from.value
                        && !f.steps[r.value].suspendable
                        && forall k :: r.value < k <= from.value ==> f.steps[k].suspendable
    ensures r.None? && from.Some? ==> forall k :: 0 <= k <= from.value ==> f.steps[k].suspendable
    decreases if from.Some? then from.value + 1 else 0
  {
    match from
    case None => None
    case Some(i) =>
      if f.steps[i].suspendable then FindBackward(f, f.steps[i].previous) else Some(i)
  }

  // ---------------------------------------------------------------------------
  // State transitions. Each one updates the context's state and publishes
  // the matching event carrying the updated context.
  // ---------------------------------------------------------------------------

  /** The context an invocation works in and the events published so far. */
  datatype Track = Track(ctx: StepContext, events: seq<ChatEvent>)

  function SetState(t: Track, s: ChatState): Track {
    t.(ctx := t.ctx.(state := s))
  }

  /** `toFlowStarted`: the flow becomes active with an empty data bag; no step is current. */
  function ToFlowStarted(t: Track, flowId: string): (r: Track)
    ensures r.ctx.state.flowInfo == Some(FlowInfo(flowId, FlowActive, EmptyBag)) && r.ctx.state.stepInfo.None?
    ensures r.events == t.events + [ChatFlowStarted(r.ctx)]
    ensures AllLifecycle(t.events) ==> AllLifecycle(r.events)
  {
    ConcatLifecycle(t.events, [ChatFlowStarted(t.ctx.(state := t.ctx.state.(flowInfo := Some(FlowInfo(flowId, FlowActive, EmptyBag)), stepInfo := None)))]);
    var u := SetState(t, t.ctx.state.(flowInfo := Some(FlowInfo(flowId, FlowActive, EmptyBag)), stepInfo := None));
    u.(events := t.events + [ChatFlowStarted(u.ctx)])
  }

  /** The event announcing that a step entered state `st`. */
  function StepEvent(st: StepState, c: StepContext): (e: ChatEvent)
    ensures IsLifecycle(e)
  {
    match st
    case StepStarted => ChatStepStarted(c)
    case StepSuspended => ChatStepSuspended(c)
    case StepCompleted => ChatStepCompleted(c)
    case StepTerminated => ChatStepTerminated(c)
    case StepFailed => ChatStepFailed(c, None)
  }

  /**
    `toStepStarted`, `toStepSuspended`, `toStepCompleted`, `toStepTerminated`
    share one shape: a new step info for this step, then its event.
   */
  function ToStep(t: Track, name: string, st: StepState, message: Option<string>): (r: Track)
    ensures r.ctx == t.ctx.(state := t.ctx.state.(stepInfo := Some(StepInfo(name, st, message))))
    ensures r.events == t.events + [StepEvent(st, r.ctx)]
    ensures AllLifecycle(t.events) ==> AllLifecycle(r.events)
  {
    var u := SetState(t, t.ctx.state.(stepInfo := Some(StepInfo(name, st, message))));
    ConcatLifecycle(t.events, [StepEvent(st, u.ctx)]);
    u.(events := t.events + [StepEvent(st, u.ctx)])
  }

  /** `toStepFailed(error)`: the step failed, with the error's message; the event carries the error. */
  function ToStepFailed(t: Track, name: string, error: Throwable): (r: Track)
    ensures r.ctx.state.stepInfo == Some(StepInfo(name, StepFailed, Message(error)))
    ensures r.ctx.state.flowInfo == t.ctx.state.flowInfo
    ensures r.events == t.events + [ChatStepFailed(r.ctx, Some(error))]
    ensures AllLifecycle(t.events) ==> AllLifecycle(r.events)
  {
    var u := SetState(t, t.ctx.state.(stepInfo := Some(StepInfo(name, StepFailed, Message(error)))));
    ConcatLifecycle(t.events, [ChatStepFailed(u.ctx, Some(error))]);
    u.(events := t.events + [ChatStepFailed(u.ctx, Some(error))])
  }

  /** `toFlowCompleted`: the recorded flow (if any) is completed and no step is current. */
  function ToFlowCompleted(t: Track): (r: Track)
    ensures t.ctx.state.flowInfo.None? ==> r.ctx.state.flowInfo.None?
    ensures t.ctx.state.flowInfo.Some? ==> r.ctx.state.flowInfo == Some(t.ctx.state.flowInfo.value.(flowState := FlowCompleted))
    ensures r.ctx.state.stepInfo.None?
    ensures r.events == t.events + [ChatFlowCompleted(r.ctx)]
    ensures AllLifecycle(t.events) ==> AllLifecycle(r.events)
  {
    var fi := match t.ctx.state.flowInfo
      case None => None
      case Some(x) => Some(x.(flowState := FlowCompleted));
    var u := SetState(t, t.ctx.state.(flowInfo := fi, stepInfo := None));
    ConcatLifecycle(t.events, [ChatFlowCompleted(u.ctx)]);
    u.(events := t.events + [ChatFlowCompleted(u.ctx)])
  }

  /** `toFlowTerminated`: the recorded flow (if any) is terminated; the step info stays. */
  function ToFlowTerminated(t: Track): (r: Track)
    ensures t.ctx.state.flowInfo.None? ==> r.ctx.state.flowInfo.None?
    ensures t.ctx.state.flowInfo.Some? ==> r.ctx.state.flowInfo == Some(t.ctx.state.flowInfo.value.(flowState := FlowTerminated))
    ensures r.ctx.state.stepInfo == t.ctx.state.stepInfo
    ensures r.events == t.events + [ChatFlowTerminated(r.ctx)]
    ensures AllLifecycle(t.events) ==> AllLifecycle(r.events)
  {
    var fi := match t.ctx.state.flowInfo
      case None => None
      case Some(x) => Some(x.(flowState := FlowTerminated));
    var u := SetState(t, t.ctx.state.(flowInfo := fi));
    ConcatLifecycle(t.events, [ChatFlowTerminated(u.ctx)]);
    u.(events := t.events + [ChatFlowTerminated(u.ctx)])
  }

  // ---------------------------------------------------------------------------
  // Invoking one step.
  // ---------------------------------------------------------------------------

  /**
    How an invocation ends: with a result, or with an exception that escapes
    the engine (a jump whose target does not exist).
   */
  datatype Outcome = Returned(result: ExecResult) | Crashed(error: Throwable)

  datatype Invocation = Invocation(outcome: Outcome, ctx: StepContext, events: seq<ChatEvent>)

  function Done(t: Track, o: Outcome): Invocation {
    Invocation(o, t.ctx, t.events)
  }

  /** Every step a result jumps to exists. */
  predicate TargetsValid(flows: Flows, o: Outcome) {
    o.Returned? && o.result.StepJump? ==> ValidRef(flows, o.result.target)
  }

  /** A step that does not wait for input and whose action never throws, whatever the context. */
  ghost predicate QuietStep(flows: Flows, run: UserCode, ref: StepRef) {
    && ValidRef(flows, ref)
    && !StepAt(flows, ref).suspendable
    && forall c :: RunAction(run, StepAt(flows, ref).action, c).thrown.None?
  }

  /**
    `invoke`: a first step starts the flow. A waiting step reached by a
    context that cannot resume it suspends without running its action.
    Otherwise the step starts, its action runs, and the step completes (and,
    if last, the flow completes) — or what the action threw is processed.
   */
  function Invoke(flows: Flows, run: UserCode, ref: StepRef, ctx: StepContext): (r: Invocation)
    requires WellFormed(flows) && ValidRef(flows, ref)
    ensures TargetsValid(flows, r.outcome)
    ensures AllLifecycle(r.events)
    ensures StepAt(flows, ref).suspendable && !IsSuspendableContext(ctx) ==> r.outcome == Returned(Suspended)
    ensures QuietStep(flows, run, ref) ==> r.outcome == Returned(Completed(false))
  {
    var f := flows[ref.flowId];
    var s := f.steps[ref.index];
    var t0 := Track(ctx, []);
    var t1 := if ref.index == 0 then ToFlowStarted(t0, f.id) else t0;
    if s.suspendable && !IsSuspendableContext(ctx) then
      Done(ToStep(t1, s.name, StepSuspended, None), Returned(Suspended))
    else
      Perform(flows, run, ref, t1)
  }

  /** The part of `invoke` after the suspension check: start, run the action, complete or process what it threw. */
  function Perform(flows: Flows, run: UserCode, ref: StepRef, t: Track): (r: Invocation)
    requires WellFormed(flows) && ValidRef(flows, ref)
    requires AllLifecycle(t.events)
    ensures TargetsValid(flows, r.outcome)
    ensures AllLifecycle(r.events)
  {
    var f := flows[ref.flowId];
    var s := f.steps[ref.index];
    var t2 := ToStep(t, s.name, StepStarted, None);
    var a := RunAction(run, s.action, t2.ctx);
    var t3 := SetState(t2, a.state);
    match a.thrown
    case Some(e) => ProcessThrowable(flows, ref, e, t3)
    case None =>
      var t4 := ToStep(t3, s.name, StepCompleted, None);
      var t5 := if ref.index + 1 == |f.steps| then ToFlowCompleted(t4) else t4;
      Done(t5, Returned(Completed(false)))
  }

  /**
    `processThrowable`: turns what an action threw into a result. The jumps
    terminate the step; a jump to a missing step, or past either end of the
    flow, escapes as an `IllegalArgumentException`.
   */
  function ProcessThrowable(flows: Flows, ref: StepRef, e: Throwable, t: Track): (r: Invocation)
    requires WellFormed(flows) && ValidRef(flows, ref)
    requires AllLifecycle(t.events)
    ensures TargetsValid(flows, r.outcome)
    ensures AllLifecycle(r.events)
  {
    var f := flows[ref.flowId];
    var s := f.steps[ref.index];
    match e
    case Goto(n) =>
      var t1 := ToStep(t, s.name, StepTerminated, None);
      var m := StepMap(f.steps);
      if n in m then Done(t1, Returned(StepJump(StepRef(ref.flowId, m[n]))))
      else Done(t1, Crashed(Error(IllegalArgument, Some("Step [" + n + "] does not exist!"))))
    case GoNext =>
      (match FindForward(f, s.next)
       case None => Done(t, Crashed(Error(IllegalArgument, Some("No next step found for step [" + s.name + "]."))))
       case Some(j) => Done(ToStep(t, s.name, StepTerminated, None), Returned(StepJump(StepRef(ref.flowId, j)))))
    case GoPrevious =>
      (match FindBackward(f, s.previous)
       case None => Done(t, Crashed(Error(IllegalArgument, Some("No previous step found for step [" + s.name + "]."))))
       case Some(j) => Done(ToStep(t, s.name, StepTerminated, None), Returned(StepJump(StepRef(ref.flowId, j)))))
    case StartFlow(n) =>
      var t1 := ToStep(t, s.name, StepTerminated, None);
      var t2 := if ref.index + 1 == |f.steps| then ToFlowCompleted(t1) else ToFlowTerminated(t1);
      Done(t2, Returned(FlowJump(n)))
    case StopFlow =>
      Done(ToFlowTerminated(ToStep(t, s.name, StepTerminated, None)), Returned(FlowStopped))
    case _ =>
      Done(ToStepFailed(t, s.name, e), Returned(Failed(e)))
  }

  // ---------------------------------------------------------------------------
  // The chain.
  // ---------------------------------------------------------------------------

  /** What follows a step: another step, the end of the chain, or an exception. */
  datatype Next = Go(ref: StepRef) | End | Fail(error: Throwable)

  /**
    The next-step rule: a completed step continues with its successor unless
    it asked to terminate; a step jump goes to its target; a flow jump goes to
    the first step of that flow (an unknown flow ends the chain, an empty one
    has no first step); every other result ends the chain.
   */
  function NextStep(flows: Flows, ref: StepRef, result: ExecResult): (r: Next)
    requires WellFormed(flows) && ValidRef(flows, ref)
    requires result.StepJump? ==> ValidRef(flows, result.target)
    ensures r.Go? ==> ValidRef(flows, r.ref)
    ensures result == Completed(false) ==>
              if ref.index + 1 < |flows[ref.flowId].steps| then r == Go(StepRef(ref.flowId, ref.index + 1)) else r == End
    ensures result.StepJump? ==> r == Go(result.target)
    ensures result.FlowJump? ==> (r == End <==> result.flowName !in flows)
    ensures result.FlowJump? && r.Go? ==> r.ref == StepRef(result.flowName, 0)
    ensures r.Fail? ==> result.FlowJump? && |flows[result.flowName].steps| == 0 && r.error == Error(NoSuchElement, Some("List is empty."))
    ensures result == Completed(true) || result.Suspended? || result.FlowStopped? || result.Failed? ==> r == End
  {
    match result
    case Completed(termination) =>
      if termination then End
      else (match StepAt(flows, ref).next
        case None => End
        case Some(j) => Go(StepRef(ref.flowId, j)))
    case StepJump(target) => Go(target)
    case FlowJump(n) =>
      if n !in flows then End
      else if |flows[n].steps| == 0 then Fail(Error(NoSuchElement, Some("List is empty.")))
      else Go(StepRef(n, 0))
    case _ => End
  }

  /**
    How a run ended. `Idle`: no step was run. `OutOfFuel` belongs to the
    model only: the driver gave up after the bound on the number of steps.
   */
  datatype RunEnd = Idle | Finished | CrashedWith(error: Throwable) | OutOfFuel

  datatype Run = Run(end: RunEnd, history: seq<Snapshot>, events: seq<ChatEvent>)

  /** The context the chain hands to the step `next`. */
  function ContinueAt(flows: Flows, ctx: StepContext, next: StepRef): StepContext
    requires ValidRef(flows, next)
  {
    Continuation(ctx, next, flows[next.flowId].id, StepAt(flows, next).name)
  }

  /**
    A history as the chain keeps it: one snapshot per invoked step, in
    invocation order, each step followed by the one the next-step rule picks
    from its result.
   */
  predicate FollowsRule(flows: Flows, h: seq<Snapshot>)
    requires WellFormed(flows)
  {
    && (forall k :: 0 <= k < |h| ==> ValidRef(flows, h[k].step) && TargetsValid(flows, Returned(h[k].result)))
    && (forall k :: 0 <= k < |h| - 1 ==> NextStep(flows, h[k].step, h[k].result) == Go(h[k + 1].step))
  }

  /**
    A waiting step in the history suspended the chain and is its last step;
    the first step is exempt when it ran in a context able to resume it.
   */
  predicate WaitingEnds(flows: Flows, h: seq<Snapshot>, firstResumes: bool) {
    forall k :: 0 <= k < |h| && (k > 0 || !firstResumes) && ValidRef(flows, h[k].step) && StepAt(flows, h[k].step).suspendable ==>
      h[k].result == Suspended && k == |h| - 1
  }

  /**
    How quiet steps show in a chain: each one completes, and a chain that
    crashed did so at a step that is not quiet (or on an empty flow); a chain
    that ran out of fuel was about to run another step.
   */
  ghost predicate QuietShape(flows: Flows, run: UserCode, ref: StepRef, r: Run)
    requires WellFormed(flows) && FollowsRule(flows, r.history)
  {
    var h := r.history;
    && (forall k :: 0 <= k < |h| && QuietStep(flows, run, h[k].step) ==> h[k].result == Completed(false))
    && (r.end.CrashedWith? && |h| == 0 ==> !QuietStep(flows, run, ref))
    && (r.end.CrashedWith? && |h| > 0 ==>
          var n := NextStep(flows, h[|h| - 1].step, h[|h| - 1].result);
          n.Fail? || (n.Go? && !QuietStep(flows, run, n.ref)))
    && (r.end == OutOfFuel && |h| > 0 ==> NextStep(flows, h[|h| - 1].step, h[|h| - 1].result).Go?)
  }

  /** Prepending the snapshot of a step whose result leads to the head of a chain's history keeps its shape. */
  lemma Prepend(flows: Flows, run: UserCode, snap: Snapshot, h: seq<Snapshot>, firstResumes: bool)
    requires WellFormed(flows) && |h| > 0 && FollowsRule(flows, h) && WaitingEnds(flows, h, false)
    requires forall k :: 0 <= k < |h| && QuietStep(flows, run, h[k].step) ==> h[k].result == Completed(false)
    requires ValidRef(flows, snap.step) && TargetsValid(flows, Returned(snap.result))
    requires NextStep(flows, snap.step, snap.result) == Go(h[0].step)
    requires StepAt(flows, snap.step).suspendable && !firstResumes ==> snap.result == Suspended
    requires QuietStep(flows, run, snap.step) ==> snap.result == Completed(false)
    ensures FollowsRule(flows, [snap] + h) && WaitingEnds(flows, [snap] + h, firstResumes)
    ensures forall k :: 0 <= k < |h| + 1 && QuietStep(flows, run, ([snap] + h)[k].step) ==> ([snap] + h)[k].result == Completed(false)
    ensures ([snap] + h)[|h|] == h[|h| - 1]
  {
    var g := [snap] + h;
    forall k | 0 < k < |g|
      ensures g[k] == h[k - 1]
    {
    }
  }

  /**
    What the chain promises of a run from step `ref` in context `ctx` with
    `fuel` invocations at most: it ran something; its history starts at `ref`,
    follows the next-step rule and stops at a waiting step; a finished run
    stopped because the last result leads nowhere; only a run that used all
    its fuel is out of it; its trace holds lifecycle events only.
   */
  ghost predicate ChainShape(flows: Flows, run: UserCode, ref: StepRef, ctx: StepContext, fuel: nat, r: Run)
    requires WellFormed(flows)
  {
    var h := r.history;
    && r.end != Idle
    && |h| <= fuel
    && (r.end == OutOfFuel ==> |h| == fuel)
    && (|h| > 0 ==> h[0].step == ref)
    && FollowsRule(flows, h)
    && (r.end == Finished ==> |h| > 0 && NextStep(flows, h[|h| - 1].step, h[|h| - 1].result) == End)
    && WaitingEnds(flows, h, IsSuspendableContext(ctx))
    && QuietShape(flows, run, ref, r)
    && AllLifecycle(r.events)
  }

  /** The facts about one invocation of `ref` in `ctx` the chain relies on (all of them hold of `Invoke`). */
  ghost predicate Invoked(flows: Flows, run: UserCode, ref: StepRef, ctx: StepContext, inv: Invocation)
    requires WellFormed(flows) && ValidRef(flows, ref)
  {
    && TargetsValid(flows, inv.outcome)
    && AllLifecycle(inv.events)
    && (StepAt(flows, ref).suspendable && !IsSuspendableContext(ctx) ==> inv.outcome == Returned(Suspended))
    && (QuietStep(flows, run, ref) ==> inv.outcome == Returned(Completed(false)))
  }

  /**
    The chain loop, with at most `fuel` invocations: each invocation adds a
    snapshot of the step, the context it ended with and its result; the next
    step runs in a continuation context over the state the last one left.
   */
  function Drive(flows: Flows, run: UserCode, ref: StepRef, ctx: StepContext, fuel: nat): (r: Run)
    requires WellFormed(flows) && ValidRef(flows, ref)
    ensures ChainShape(flows, run, ref, ctx, fuel, r)
    decreases fuel, 1
  {
    if fuel == 0 then Run(OutOfFuel, [], [])
    else Proceed(flows, run, ref, ctx, fuel, Invoke(flows, run, ref, ctx))
  }

  /** One turn of the loop, once step `ref` has been invoked: record it and go on where the rule says. */
  function Proceed(flows: Flows, run: UserCode, ref: StepRef, ctx: StepContext, fuel: nat, inv: Invocation): (r: Run)
    requires WellFormed(flows) && ValidRef(flows, ref) && fuel > 0
    requires Invoked(flows, run, ref, ctx, inv)
    ensures ChainShape(flows, run, ref, ctx, fuel, r)
    decreases fuel, 0
  {
    match inv.outcome
    case Crashed(e) => Run(CrashedWith(e), [], inv.events)
    case Returned(res) =>
      var snap := Snapshot(ref, inv.ctx, res);
      match NextStep(flows, ref, res)
      case End => Run(Finished, [snap], inv.events)
      case Fail(e) => Run(CrashedWith(e), [snap], inv.events)
      case Go(next) =>
        var rest := Drive(flows, run, next, ContinueAt(flows, inv.ctx, next), fuel - 1);
        Extend(flows, run, ref, ctx, fuel, inv, next, rest);
        Run(rest.end, [snap] + rest.history, inv.events + rest.events)
  }

  /** The run of the rest of the chain, behind the snapshot of the step that led to it, keeps the chain's shape. */
  lemma Extend(flows: Flows, run: UserCode, ref: StepRef, ctx: StepContext, fuel: nat, inv: Invocation, next: StepRef, rest: Run)
    requires WellFormed(flows) && ValidRef(flows, ref) && fuel > 0
    requires Invoked(flows, run, ref, ctx, inv) && inv.outcome.Returned?
    requires NextStep(flows, ref, inv.outcome.result) == Go(next)
    requires ChainShape(flows, run, next, ContinueAt(flows, inv.ctx, next), fuel - 1, rest)
    ensures ChainShape(flows, run, ref, ctx, fuel,
                       Run(rest.end, [Snapshot(ref, inv.ctx, inv.outcome.result)] + rest.history, inv.events + rest.events))
  {
    var snap := Snapshot(ref, inv.ctx, inv.outcome.result);
    ConcatLifecycle(inv.events, rest.events);
    if rest.history != [] {
      Prepend(flows, run, snap, rest.history, IsSuspendableContext(ctx));
    } else {
      assert [snap] + rest.history == [snap];
    }
  }

  /**
    The chain `execute`: publishes the start of the execution, drives the
    chain from `ref`, and publishes its completion with the history — unless
    an exception escaped the chain.
   */
  function Execute(flows: Flows, run: UserCode, c: ChatContext, ref: StepRef, fuel: nat): (r: Run)
    requires WellFormed(flows) && ValidRef(flows, ref)
    ensures r.end != Idle
    ensures |r.events| > 0 && r.events[0] == ChatExecutionStarted(ToStepContext(c, ref, ref.flowId, StepAt(flows, ref).name))
    ensures forall k :: 0 < k < |r.events| ==> !r.events[k].ChatExecutionStarted?
    ensures forall k :: 0 <= k < |r.events| - 1 ==> !r.events[k].ChatExecutionCompleted?
    ensures r.end == Finished <==> r.events[|r.events| - 1].ChatExecutionCompleted?
    ensures r.end == Finished ==> r.events[|r.events| - 1] == ChatExecutionCompleted(c, r.history)
  {
    var sc := ToStepContext(c, ref, flows[ref.flowId].id, StepAt(flows, ref).name);
    Publish(sc, c, Drive(flows, run, ref, sc, fuel))
  }

  /**
    A chain's run as `execute` publishes it: `ChatExecutionStarted` first, the
    chain's events, then `ChatExecutionCompleted` with the history when the
    chain finished.
   */
  function Publish(sc: StepContext, c: ChatContext, chain: Run): (r: Run)
    requires AllLifecycle(chain.events)
    ensures r.end == chain.end && r.history == chain.history
    ensures |r.events| > 0 && r.events[0] == ChatExecutionStarted(sc)
    ensures forall k :: 0 < k < |r.events| ==> !r.events[k].ChatExecutionStarted?
    ensures forall k :: 0 <= k < |r.events| - 1 ==> !r.events[k].ChatExecutionCompleted?
    ensures r.end == Finished <==> r.events[|r.events| - 1].ChatExecutionCompleted?
    ensures r.end == Finished ==> r.events[|r.events| - 1] == ChatExecutionCompleted(c, r.history)
  {
    var tail := if chain.end == Finished then [ChatExecutionCompleted(c, chain.history)] else [];
    var es := [ChatExecutionStarted(sc)] + chain.events + tail;
    assert forall k :: 0 < k < |es| - |tail| ==> es[k] == chain.events[k - 1];
    Run(chain.end, chain.history, es)
  }

  /**
    `execute(context)`: dispatch on the kind of context. When no step runs,
    the trace holds at most one "not found" notice; an event context is
    ignored.
   */
  function Dispatch(flows: Flows, run: UserCode, c: ChatContext, fuel: nat): (r: Run)
    requires WellFormed(flows)
    ensures c.EventContext? ==> r == Run(Idle, [], [])
    ensures c.CommandContext? ==> (r.end == Idle <==> c.command !in flows)
    ensures r.end == Idle ==> r.history == [] && |r.events| <= 1
    ensures r.end == Idle && |r.events| == 1 ==> r.events[0].ChatFlowNotFound? || r.events[0].ChatStepNotFound?
  {
    match c
    case CommandContext(_, command, _) => StartFlowFor(flows, run, c, fuel)
    case EventContext(_, _) => Run(Idle, [], [])
    case _ => ExecuteForStep(flows, run, c, fuel)
  }

  /** `startFlow`: the flow named by the command, from its first step. */
  function StartFlowFor(flows: Flows, run: UserCode, c: ChatContext, fuel: nat): (r: Run)
    requires WellFormed(flows) && c.CommandContext?
    ensures c.command !in flows ==> r == Run(Idle, [], [ChatFlowNotFound(c.command, c)])
    ensures c.command in flows && |flows[c.command].steps| == 0 ==>
              r == Run(CrashedWith(Error(NoSuchElement, Some("List is empty."))), [], [])
    ensures c.command in flows && |flows[c.command].steps| > 0 ==>
              && r.end != Idle && |r.events| > 0
              && r.events[0] == ChatExecutionStarted(ToStepContext(c, StepRef(c.command, 0), c.command, flows[c.command].steps[0].name))
  {
    if c.command !in flows then Run(Idle, [], [ChatFlowNotFound(c.command, c)])
    else if |flows[c.command].steps| == 0 then Run(CrashedWith(Error(NoSuchElement, Some("List is empty."))), [], [])
    else Execute(flows, run, c, StepRef(c.command, 0), fuel)
  }

  /**
    `executeForStep`: resumes the step recorded in the state, when there is
    one, its flow and step exist, and it accepts the context.
   */
  function ExecuteForStep(flows: Flows, run: UserCode, c: ChatContext, fuel: nat): (r: Run)
    requires WellFormed(flows)
    ensures c.state.flowInfo.None? || c.state.stepInfo.None? ==> r == Run(Idle, [], [])
    ensures c.state.flowInfo.Some? && c.state.stepInfo.Some? && c.state.flowInfo.value.flowName !in flows ==>
              r == Run(Idle, [], [ChatFlowNotFound(c.state.flowInfo.value.flowName, c)])
    ensures r.end != Idle ==>
              && c.state.flowInfo.Some? && c.state.stepInfo.Some? && c.state.flowInfo.value.flowName in flows
              && var f := flows[c.state.flowInfo.value.flowName];
                 exists i :: 0 <= i < |f.steps| && f.steps[i].name == c.state.stepInfo.value.stepName && Acceptable(f.steps[i], c)
    ensures r.end == Idle ==> r.history == [] && |r.events| <= 1
    ensures r.end == Idle && |r.events| == 1 ==> r.events[0].ChatFlowNotFound? || r.events[0].ChatStepNotFound?
  {
    if c.state.flowInfo.None? || c.state.stepInfo.None? then Run(Idle, [], [])
    else
      var flowName := c.state.flowInfo.value.flowName;
      var stepName := c.state.stepInfo.value.stepName;
      if flowName !in flows then Run(Idle, [], [ChatFlowNotFound(flowName, c)])
      else
        var m := StepMap(flows[flowName].steps);
        if stepName !in m then Run(Idle, [], [ChatStepNotFound(flows[flowName], stepName, c)])
        else if Acceptable(flows[flowName].steps[m[stepName]], c) then Execute(flows, run, c, StepRef(flowName, m[stepName]), fuel)
        else Run(Idle, [], [])
  }
}
