/**
  The flow builder. Steps are declared in order; each `await…` call adds a
  suspendable step named after the step it waits on plus a marker saying what
  it waits for, wrapped (by default) so that a failure falls back to the step
  it waits on. `build` attaches every step to the new flow.
 */
module Builder {
  import opened Wrappers
  import opened Strings
  import opened Constants
  import opened Jumps
  import opened Graph

  datatype FlowBuilder = FlowBuilder(id: string, menu: Option<Menu>, steps: seq<Step>)

  /** The updated builder and the step handed back to the caller (the receiver of later `await…` calls). */
  datatype Added = Added(builder: FlowBuilder, step: Step)

  function NewBuilder(id: string, menu: Option<Menu>): FlowBuilder {
    FlowBuilder(id, menu, [])
  }

  /** The shape a builder keeps: steps not yet attached, chained in declaration order. */
  predicate Chained(steps: seq<Step>) {
    forall i :: 0 <= i < |steps| ==>
      && steps[i].owner.None?
      && steps[i].previous == (if i == 0 then None else Some(i - 1))
      && steps[i].next == (if i + 1 == |steps| then None else Some(i + 1))
  }

  /**
    `addStep`: the current last step now points forward to the new one, the new
    one back to it, and the new one is appended. Whatever `previous` the caller
    set is overwritten whenever there is a last step.
   */
  function AddStep(b: FlowBuilder, s: Step): (r: FlowBuilder)
    ensures r.id == b.id && r.menu == b.menu
    ensures |r.steps| == |b.steps| + 1 && r.steps[|b.steps|].name == s.name
    ensures forall i :: 0 <= i < |b.steps| ==> SameDeclaration(r.steps[i], b.steps[i])
    ensures Chained(b.steps) && s.owner.None? && s.previous.None? && s.next.None? ==> Chained(r.steps)
  {
    var n := |b.steps|;
    if n == 0 then b.(steps := [s])
    else b.(steps := b.steps[..n - 1] + [b.steps[n - 1].(next := Some(n))] + [s.(previous := Some(n - 1))])
  }

  /** Two versions of a step that differ at most in their links and owner. */
  predicate SameDeclaration(a: Step, c: Step) {
    a.name == c.name && a.suspendable == c.suspendable && a.action == c.action
  }

  /** The step just added is the last one and can be found by its name. */
  lemma AddedIsLast(b: FlowBuilder)
    requires |b.steps| > 0
    ensures b.steps[|b.steps| - 1].name in StepMap(b.steps)
  {
    var i := |b.steps| - 1;
    assert 0 <= i < |b.steps| && b.steps[i].name == b.steps[|b.steps| - 1].name;
  }

  /**
    `step(name) { … }`: a non-suspendable step appended to the flow. The
    source's `previous = lastStep` is the same link `addStep` makes.
   */
  function DeclareStep(b: FlowBuilder, name: string, action: Action): (r: Result<Added, Throwable>)
    ensures r.Ok? <==> !IsBlank(name)
    ensures r.Err? ==> r.error == Error(IllegalArgument, Some("Chat Step name cannot be blank."))
    ensures r.Ok? ==> var nb := r.value.builder;
              && nb.id == b.id && nb.menu == b.menu
              && |nb.steps| == |b.steps| + 1 && nb.steps[|b.steps|] == r.value.step
              && r.value.step.name == name && !r.value.step.suspendable && r.value.step.action == action
              && (Chained(b.steps) ==> Chained(nb.steps))
  {
    var s :- NewStep(name, false, action);
    var nb := AddStep(b, s);
    Ok(Added(nb, nb.steps[|b.steps|]))
  }

  /**
    `await(marker, fallback, action)` on `receiver`: the receiver must already
    have been added. The new step is named after the receiver with any
    suspension suffix cut off, plus `marker`; it is suspendable; with
    `fallback` its action is wrapped so that failures go back to the receiver.
   */
  function Await(b: FlowBuilder, receiver: Step, marker: string, fallback: bool, action: Action): (r: Result<Added, Throwable>)
    ensures receiver.name !in StepMap(b.steps) ==>
              r == Err(Error(IllegalArgument, Some("No previous step has been added to the await processing.")))
    ensures receiver.name in StepMap(b.steps) && !IsBlank(marker) ==> r.Ok?
    ensures r.Ok? ==> var nb := r.value.builder; var s := r.value.step;
              && nb.id == b.id && nb.menu == b.menu
              && |nb.steps| == |b.steps| + 1 && nb.steps[|b.steps|] == s
              && s.name == SubstringBefore(receiver.name, SuspendedMarker) + marker
              && EndsWith(s.name, marker)
              && s.suspendable
              && s.action == (if fallback then Fallback(receiver.name, action) else action)
              && s.name in StepMap(nb.steps)
              && (forall i :: 0 <= i < |b.steps| ==> SameDeclaration(nb.steps[i], b.steps[i]))
              && (Chained(b.steps) ==> Chained(nb.steps))
  {
    if receiver.name !in StepMap(b.steps) then
      Err(Error(IllegalArgument, Some("No previous step has been added to the await processing.")))
    else
      var name := SubstringBefore(receiver.name, SuspendedMarker) + marker;
      EndsWithConcat(SubstringBefore(receiver.name, SuspendedMarker), marker);
      assert IsBlank(name) ==> IsBlank(marker) by {
        if IsBlank(name) { BlankTail(SubstringBefore(receiver.name, SuspendedMarker), marker); }
      }
      var s :- NewStep(name, true, if fallback then Fallback(receiver.name, action) else action);
      var nb := AddStep(b, s);
      AddedIsLast(nb);
      Ok(Added(nb, nb.steps[|b.steps|]))
  }

  /** None of the markers is blank: each starts with the path delimiter. */
  lemma MarkersNotBlank()
    ensures !IsBlank(TextMarker) && !IsBlank(CallbackMarker) && !IsBlank(PreCheckoutMarker) && !IsBlank(PaymentMarker)
  {
    MarkerValues();
    assert TextMarker[0] == CallbackMarker[0] == PreCheckoutMarker[0] == PaymentMarker[0] == '/';
  }

  /** `awaitText`: waits for a text message. */
  function AwaitText(b: FlowBuilder, receiver: Step, fallback: bool, action: Action): (r: Result<Added, Throwable>)
    ensures r.Ok? <==> receiver.name in StepMap(b.steps)
    ensures r.Ok? ==> EndsWith(r.value.step.name, TextMarker) && r.value.step.suspendable
  {
    MarkersNotBlank();
    Await(b, receiver, TextMarker, fallback, action)
  }

  /** `awaitCallback`: waits for a press on one of the step's options. */
  function AwaitCallback(b: FlowBuilder, receiver: Step, fallback: bool, action: Action): (r: Result<Added, Throwable>)
    ensures r.Ok? <==> receiver.name in StepMap(b.steps)
    ensures r.Ok? ==> EndsWith(r.value.step.name, CallbackMarker) && r.value.step.suspendable
  {
    MarkersNotBlank();
    Await(b, receiver, CallbackMarker, fallback, action)
  }

  /** `awaitPreCheckout`: waits for a pre-checkout query. */
  function AwaitPreCheckout(b: FlowBuilder, receiver: Step, fallback: bool, action: Action): (r: Result<Added, Throwable>)
    ensures r.Ok? <==> receiver.name in StepMap(b.steps)
    ensures r.Ok? ==> EndsWith(r.value.step.name, PreCheckoutMarker) && r.value.step.suspendable
  {
    MarkersNotBlank();
    Await(b, receiver, PreCheckoutMarker, fallback, action)
  }

  /**
    `awaitPayment`: waits for a successful payment. Unless the receiver is
    itself a pre-checkout step, a pre-checkout step that only confirms the
    checkout is inserted first and the payment step waits on that.
   */
  function AwaitPayment(b: FlowBuilder, receiver: Step, fallback: bool, action: Action): (r: Result<Added, Throwable>)
    ensures r.Ok? <==> receiver.name in StepMap(b.steps)
    ensures r.Ok? ==> EndsWith(r.value.step.name, PaymentMarker) && r.value.step.suspendable
    ensures r.Ok? ==> |r.value.builder.steps| > |b.steps| && r.value.builder.steps[|r.value.builder.steps| - 1] == r.value.step
    ensures r.Ok? ==> Chained(b.steps) ==> Chained(r.value.builder.steps)
    ensures r.Ok? && EndsWith(receiver.name, PreCheckoutMarker) ==> |r.value.builder.steps| == |b.steps| + 1
    ensures r.Ok? && !EndsWith(receiver.name, PreCheckoutMarker) ==>
              && |r.value.builder.steps| == |b.steps| + 2
              && var pre := r.value.builder.steps[|b.steps|];
              && pre.suspendable && EndsWith(pre.name, PreCheckoutMarker)
              && pre.action == (if fallback then Fallback(receiver.name, ConfirmCheckout) else ConfirmCheckout)
    decreases if EndsWith(receiver.name, PreCheckoutMarker) then 0 else 1
  {
    MarkersNotBlank();
    if !EndsWith(receiver.name, PreCheckoutMarker) then
      var pre :- Await(b, receiver, PreCheckoutMarker, fallback, ConfirmCheckout);
      AwaitPayment(pre.builder, pre.step, fallback, action)
    else
      Await(b, receiver, PaymentMarker, fallback, action)
  }

  /**
    `awaitEventForType`: waits for an application event; the action only runs
    when the event is of the awaited type. The event marker and the data
    delimiter are parameters.
   */
  function AwaitEventForType(b: FlowBuilder, receiver: Step, eventMarker: string, dataDelimiter: string,
                             typeName: string, fallback: bool, action: Action): (r: Result<Added, Throwable>)
    ensures r.Ok? ==> receiver.name in StepMap(b.steps)
    ensures receiver.name in StepMap(b.steps) && !IsBlank(typeName) ==> r.Ok?
    ensures r.Ok? ==> EndsWith(r.value.step.name, eventMarker + dataDelimiter + typeName) && r.value.step.suspendable
    ensures r.Ok? ==>
              r.value.step.action == (if fallback then Fallback(receiver.name, OnlyEvent(typeName, action)) else OnlyEvent(typeName, action))
  {
    assert IsBlank(eventMarker + dataDelimiter + typeName) ==> IsBlank(typeName) by {
      if IsBlank(eventMarker + dataDelimiter + typeName) { BlankTail(eventMarker + dataDelimiter, typeName); }
    }
    Await(b, receiver, eventMarker + dataDelimiter + typeName, fallback, OnlyEvent(typeName, action))
  }

  /** Attaches each step to the flow in order; a step that already has one stops it. */
  function AttachAll(steps: seq<Step>, flowId: string): (r: Result<seq<Step>, Throwable>)
    ensures r.Ok? <==> forall i :: 0 <= i < |steps| ==> steps[i].owner.None?
    ensures r.Err? ==> r.error == Error(IllegalState, Some("Step already has a flow."))
    ensures r.Ok? ==> |r.value| == |steps| && forall i :: 0 <= i < |steps| ==> r.value[i] == steps[i].(owner := Some(flowId))
  {
    if steps == [] then Ok([])
    else
      var head :- SetFlow(steps[0], flowId);
      var tail :- AttachAll(steps[1..], flowId);
      assert forall i :: 1 <= i < |steps| ==> steps[i] == steps[1..][i - 1];
      Ok([head] + tail)
  }

  /** `build()`: the flow with the builder's id, menu and steps, each step now attached to it. */
  function Build(b: FlowBuilder): (r: Result<Flow, Throwable>)
    ensures NewFlow(b.id, b.menu, b.steps).Err? ==> r == NewFlow(b.id, b.menu, b.steps).PropagateFailure()
    ensures Chained(b.steps) ==> (r.Ok? <==> NewFlow(b.id, b.menu, b.steps).Ok?)
    ensures r.Ok? ==> r.value.id == b.id && r.value.menu == b.menu && |r.value.steps| == |b.steps|
    ensures r.Ok? ==> forall i :: 0 <= i < |b.steps| ==> r.value.steps[i] == b.steps[i].(owner := Some(b.id))
  {
    var f :- NewFlow(b.id, b.menu, b.steps);
    if f.steps == [] then Ok(f)
    else
      var attached :- AttachAll(f.steps, f.id);
      Ok(f.(steps := attached))
  }

  // ---------------------------------------------------------------------------
  // Properties.
  // ---------------------------------------------------------------------------

  /** A flow built from a well-formed builder is linked: owned by it, neighbours in declaration order. */
  lemma BuildLinked(b: FlowBuilder)
    requires Chained(b.steps) && Build(b).Ok?
    ensures Linked(Build(b).value)
    ensures StepMap(Build(b).value.steps) == StepMap(b.steps)
  {
    var f := Build(b).value;
    StepMapNamesOnly(b.steps, f.steps);
  }

  /** The name index depends on the names alone. */
  lemma {:induction false} StepMapNamesOnly(a: seq<Step>, c: seq<Step>)
    requires |a| == |c| && forall i :: 0 <= i < |a| ==> a[i].name == c[i].name
    ensures StepMap(a) == StepMap(c)
  {
    if a != [] {
      StepMapNamesOnly(a[..|a| - 1], c[..|c| - 1]);
    }
  }

  /**
    Awaiting on an awaiting step reuses the base name: `ask/suspended/text`
    awaited again for a callback gives `ask/suspended/callback`, as long as the
    base name holds no path delimiter.
   */
  lemma AwaitNameCollapses(base: string, tail: string, marker: string)
    requires '/' !in base
    ensures SubstringBefore(base, SuspendedMarker) + marker == base + marker
    ensures SubstringBefore(base + SuspendedMarker + tail, SuspendedMarker) + marker == base + marker
  {
    MarkerValues();
    LeadAbsentNoOccurrence(base, SuspendedMarker);
    IndexAfterLeadFreePrefix(base, SuspendedMarker, tail);
  }

  /** Every builder operation keeps the chained shape, starting from the empty builder. */
  lemma NewBuilderChained(id: string, menu: Option<Menu>)
    ensures Chained(NewBuilder(id, menu).steps)
    ensures Build(NewBuilder(id, menu)).Ok? ==> Build(NewBuilder(id, menu)).value.steps == []
  {
  }
}
