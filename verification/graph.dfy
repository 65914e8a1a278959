/**
  The step graph. A flow owns an ordered list of steps; each step knows its
  owning flow (set once), its neighbours and whether it waits for user input.
  Steps live in the flow's sequence and are identified by their index there,
  which plays the part of object identity.
 */
module Graph {
  import opened Wrappers
  import opened Strings
  import opened Constants
  import opened Jumps

  /**
    What a step does when it runs. `UserAction(id)` is user code, supplied to
    the engine as a function of the id; the other variants are the wrappers the
    flow builder puts around user code.
   */
  datatype Action =
    | UserAction(id: nat)
    | Fallback(target: string, inner: Action)
    | OnlyEvent(eventType: string, inner: Action)
    | ConfirmCheckout

  datatype Menu = Menu(command: string, description: string, order: int)

  datatype Step = Step(
    name: string,
    suspendable: bool,
    action: Action,
    owner: Option<string>,
    previous: Option<nat>,
    next: Option<nat>)

  datatype Flow = Flow(id: string, menu: Option<Menu>, steps: seq<Step>)

  /** `ChatStep(name, suspendable, action)`: a blank name is rejected. */
  function NewStep(name: string, suspendable: bool, action: Action): (r: Result<Step, Throwable>)
    ensures r.Ok? <==> !IsBlank(name)
    ensures r.Err? ==> r.error == Error(IllegalArgument, Some("Chat Step name cannot be blank."))
    ensures r.Ok? ==> r.value.name == name && r.value.suspendable == suspendable && r.value.action == action
    ensures r.Ok? ==> r.value.owner.None? && r.value.previous.None? && r.value.next.None?
  {
    if IsBlank(name) then Err(Error(IllegalArgument, Some("Chat Step name cannot be blank.")))
    else Ok(Step(name, suspendable, action, None, None, None))
  }

  /** Reading `flow`: fails until the step has been attached. */
  function GetFlow(s: Step): (r: Result<string, Throwable>)
    ensures r.Ok? <==> s.owner.Some?
    ensures r.Ok? ==> r.value == s.owner.value
    ensures r.Err? ==> r.error == Error(IllegalState, Some("Step has no flow defined yet."))
  {
    match s.owner
    case None => Err(Error(IllegalState, Some("Step has no flow defined yet.")))
    case Some(id) => Ok(id)
  }

  /** Assigning `flow`: allowed once; a second assignment fails. */
  function SetFlow(s: Step, flowId: string): (r: Result<Step, Throwable>)
    ensures r.Ok? <==> s.owner.None?
    ensures r.Ok? ==> r.value == s.(owner := Some(flowId))
    ensures r.Err? ==> r.error == Error(IllegalState, Some("Step already has a flow."))
  {
    if s.owner.Some? then Err(Error(IllegalState, Some("Step already has a flow.")))
    else Ok(s.(owner := Some(flowId)))
  }

  /** `fullName`: the flow id and the step name joined by the path delimiter, or the bare name. */
  function FullName(s: Step): (r: string)
    ensures EndsWith(r, s.name)
    ensures s.owner.None? ==> r == s.name
    ensures s.owner.Some? ==> StartsWith(r, s.owner.value + PathDelimiter) && |r| == |s.owner.value| + 1 + |s.name|
  {
    match s.owner
    case None =>
      assert s.name[|s.name| - |s.name|..] == s.name;
      s.name
    case Some(id) =>
      EndsWithConcat(id + PathDelimiter, s.name);
      StartsWithConcat(id + PathDelimiter, s.name);
      id + PathDelimiter + s.name
  }

  /** `isFirst`: fails without an owning flow, otherwise whether this is the flow's first step. */
  function IsFirst(f: Flow, i: nat): (r: Result<bool, Throwable>)
    requires i < |f.steps|
    ensures r.Err? <==> f.steps[i].owner.None?
    ensures r.Err? ==> r.error == Error(IllegalState, Some("Step has no flow defined."))
    ensures r.Ok? ==> (r.value <==> i == 0)
  {
    if f.steps[i].owner.None? then Err(Error(IllegalState, Some("Step has no flow defined.")))
    else Ok(i == 0)
  }

  /** `isLast`: fails without an owning flow, otherwise whether this is the flow's last step. */
  function IsLast(f: Flow, i: nat): (r: Result<bool, Throwable>)
    requires i < |f.steps|
    ensures r.Err? <==> f.steps[i].owner.None?
    ensures r.Err? ==> r.error == Error(IllegalState, Some("Step has no flow defined."))
    ensures r.Ok? ==> (r.value <==> i + 1 == |f.steps|)
  {
    if f.steps[i].owner.None? then Err(Error(IllegalState, Some("Step has no flow defined.")))
    else Ok(i + 1 == |f.steps|)
  }

  /** `ChatFlow(id, menu, steps)`: the id must be non-blank and free of whitespace. */
  function NewFlow(id: string, menu: Option<Menu>, steps: seq<Step>): (r: Result<Flow, Throwable>)
    ensures r.Ok? <==> !IsBlank(id) && !HasWhitespaces(id)
    ensures IsBlank(id) ==> r.error == Error(IllegalArgument, Some("Chat Flow ID cannot be blank."))
    ensures !IsBlank(id) && HasWhitespaces(id) ==> r.error == Error(IllegalArgument, Some("Chat Flow ID cannot have whitespaces."))
    ensures r.Ok? ==> r.value == Flow(id, menu, steps)
  {
    if IsBlank(id) then Err(Error(IllegalArgument, Some("Chat Flow ID cannot be blank.")))
    else if HasWhitespaces(id) then Err(Error(IllegalArgument, Some("Chat Flow ID cannot have whitespaces.")))
    else Ok(Flow(id, menu, steps))
  }

  /** `stepMap`: every step name, mapped to the index of the last step carrying it. */
  function StepMap(steps: seq<Step>): (r: map<string, nat>)
    ensures forall n :: n in r <==> exists i :: 0 <= i < |steps| && steps[i].name == n
    ensures forall n :: n in r ==> r[n] < |steps| && steps[r[n]].name == n
    ensures forall n, j :: n in r && r[n] < j < |steps| ==> steps[j].name != n
  {
    if steps == [] then map[]
    else
      var init := steps[..|steps| - 1];
      var m := StepMap(init);
      assert forall i :: 0 <= i < |init| ==> init[i] == steps[i];
      m[steps[|steps| - 1].name := |steps| - 1]
  }

  /** No step after step `i` carries its name. */
  predicate NameNotRepeated(steps: seq<Step>, i: nat)
    requires i < |steps|
  {
    forall k :: i < k < |steps| ==> steps[k].name != steps[i].name
  }

  /** A step's name is a key of `stepMap`; when no later step repeats it, it maps to that step. */
  lemma StepMapAt(steps: seq<Step>, i: nat)
    requires i < |steps|
    ensures steps[i].name in StepMap(steps) && StepMap(steps)[steps[i].name] < |steps|
    ensures NameNotRepeated(steps, i) ==> StepMap(steps)[steps[i].name] == i
  {
    var m := StepMap(steps);
    assert steps[i].name in m;
    if forall k :: i < k < |steps| ==> steps[k].name != steps[i].name {
      assert !(m[steps[i].name] < i);
    }
  }

  /**
    `stepMap[step.name]?.previous`: the step before the one the name index
    gives for step `i`, which is step `i`'s own predecessor unless a later step
    repeats its name.
   */
  function PreviousByName(f: Flow, i: nat): (r: Option<nat>)
    requires Linked(f) && i < |f.steps|
    ensures r.Some? ==> r.value < |f.steps|
    ensures NameNotRepeated(f.steps, i) ==>
              r == (if i == 0 then None else Some(i - 1))
  {
    var j := IndexByName(f.steps, i);
    var r := f.steps[j].previous;
    assert r == (if j == 0 then None else Some(j - 1));
    assert NameNotRepeated(f.steps, i) ==> j == i;
    r
  }

  /** `stepMap[step.name]` for step `i`: the last step carrying its name. */
  function IndexByName(steps: seq<Step>, i: nat): (j: nat)
    requires i < |steps|
    ensures i <= j < |steps| && steps[j].name == steps[i].name
    ensures NameNotRepeated(steps, i) ==> j == i
  {
    StepMapAt(steps, i);
    StepMap(steps)[steps[i].name]
  }

  /** `firstStep`: the first step; an empty flow has none. */
  function FirstStep(f: Flow): (r: Result<nat, Throwable>)
    ensures r.Err? <==> |f.steps| == 0
    ensures r.Err? ==> r.error == Error(NoSuchElement, Some("List is empty."))
    ensures r.Ok? ==> r.value == 0
  {
    if |f.steps| == 0 then Err(Error(NoSuchElement, Some("List is empty."))) else Ok(0)
  }

  /** `lastStep`: the last step; an empty flow has none. */
  function LastStep(f: Flow): (r: Result<nat, Throwable>)
    ensures r.Err? <==> |f.steps| == 0
    ensures r.Err? ==> r.error == Error(NoSuchElement, Some("List is empty."))
    ensures r.Ok? ==> r.value + 1 == |f.steps|
  {
    if |f.steps| == 0 then Err(Error(NoSuchElement, Some("List is empty."))) else Ok(|f.steps| - 1)
  }

  /**
    The shape `build` gives a flow: every step owned by it, each linked to its
    neighbours in declaration order.
   */
  predicate Linked(f: Flow) {
    forall i :: 0 <= i < |f.steps| ==>
      && f.steps[i].owner == Some(f.id)
      && f.steps[i].previous == (if i == 0 then None else Some(i - 1))
      && f.steps[i].next == (if i + 1 == |f.steps| then None else Some(i + 1))
  }

  // ---------------------------------------------------------------------------
  // Properties.
  // ---------------------------------------------------------------------------

  /** Once attached, a step keeps its owner: a second attachment fails and reading gives the first. */
  lemma FlowWriteOnce(s: Step, a: string, b: string)
    requires s.owner.None?
    ensures SetFlow(s, a).Ok?
    ensures SetFlow(SetFlow(s, a).value, b).Err?
    ensures GetFlow(SetFlow(s, a).value) == Ok(a)
  {
  }

  /** A full name splits back into the flow id and the step name when the id has no delimiter. */
  lemma FullNameSplits(s: Step)
    requires s.owner.Some? && '/' !in s.owner.value
    ensures SubstringBefore(FullName(s), PathDelimiter) == s.owner.value
    ensures FullName(s)[|s.owner.value| + 1..] == s.name
  {
    var id := s.owner.value;
    IndexAfterFreePrefix(id, '/', s.name);
    assert FullName(s) == id + ['/'] + s.name;
  }

  /** In a non-empty linked flow the first step has no predecessor and the last no successor. */
  lemma LinkedEnds(f: Flow)
    requires Linked(f) && |f.steps| > 0
    ensures IsFirst(f, FirstStep(f).value) == Ok(true) && f.steps[FirstStep(f).value].previous.None?
    ensures IsLast(f, LastStep(f).value) == Ok(true) && f.steps[LastStep(f).value].next.None?
  {
  }
}
