/**
  The helpers a step's action calls: the fallback wrapper, recording and
  clearing message ids in the flow data bag, reading the bag, and the
  keyboard a step's options are sent with. The bot calls themselves are left
  out; what reaches the engine is their effect on the state and what they throw.
 */
module StepDsl {
  import opened Wrappers
  import opened Strings
  import opened Constants
  import opened Jumps
  import opened FlowData
  import opened ChatModel
  import opened Graph
  import Options

  /** The throwables `withFallback` lets through unchanged: every control signal. */
  predicate IsSignal(t: Throwable) {
    !t.Error?
  }

  /**
    `withFallback(stepName) { … }` applied to what the block threw: control
    signals (`Goto`, `GoPrevious`, `GoNext`, `StopFlow`, `IgnoreEvent`,
    `StartFlow`) are rethrown, anything else becomes `Goto(stepName)`.
   */
  function WithFallback(stepName: string, t: Throwable): (r: Throwable)
    ensures IsSignal(r)
    ensures IsSignal(t) ==> r == t
    ensures !IsSignal(t) ==> r.Goto? && r.stepName == stepName
  {
    match t
    case Goto(_) => t
    case GoPrevious => t
    case GoNext => t
    case StopFlow => t
    case IgnoreEvent(_) => t
    case StartFlow(_) => t
    case Error(_, _) => Goto(stepName)
  }

  /** Nested fallbacks: the innermost one decides, the outer ones see only its signal. */
  lemma FallbackInnermostWins(outer: string, inner: string, t: Throwable)
    ensures WithFallback(outer, WithFallback(inner, t)) == WithFallback(inner, t)
  {
  }

  /** The default fallback target: the step name up to the suspended-step marker. */
  function DefaultFallbackTarget(s: Step): (r: string)
    ensures StartsWith(s.name, r)
    ensures !Contains(s.name, SuspendedMarker) ==> r == s.name
  {
    var r := SubstringBefore(s.name, SuspendedMarker);
    assert StartsWith(s.name, r) by {
      if IndexOf(s.name, SuspendedMarker).Some? {
        assert s.name[..|r|] == r;
      } else {
        assert s.name[..|s.name|] == s.name;
      }
    }
    assert !Contains(s.name, SuspendedMarker) ==> r == s.name by {
      if IndexOf(s.name, SuspendedMarker).Some? {
        assert OccursAt(s.name, SuspendedMarker, IndexOf(s.name, SuspendedMarker).value);
      }
    }
    r
  }

  /**
    For a step the builder named `base + marker` (marker starting with the
    suspended-step marker, base free of the path delimiter) the default target
    is `base`, the step that declared the suspension.
   */
  lemma DefaultTargetIsDeclaringStep(s: Step, base: string, tail: string)
    requires s.name == base + SuspendedMarker + tail && '/' !in base
    ensures DefaultFallbackTarget(s) == base
  {
    MarkerValues();
    IndexAfterLeadFreePrefix(base, SuspendedMarker, tail);
  }

  // ---------------------------------------------------------------------------
  // The flow data bag, as seen from a step.
  // ---------------------------------------------------------------------------

  /** `data()`: the flow's bag; there is none without flow info. */
  function Data(state: ChatState): (r: Result<Bag, Throwable>)
    ensures r.Ok? <==> state.flowInfo.Some?
    ensures r.Ok? ==> r.value == state.flowInfo.value.flowData
    ensures r.Err? ==> r.error == Error(IllegalState, Some("No flow data exist in current chat state."))
  {
    match state.flowInfo
    case None => Err(Error(IllegalState, Some("No flow data exist in current chat state.")))
    case Some(fi) => Ok(fi.flowData)
  }

  /** `state.flowInfo?.data += (stepName to id)`: records `id` for the step; without flow info nothing changes. */
  function Record(state: ChatState, stepName: string, id: MessageId): (r: ChatState)
    ensures state.flowInfo.None? ==> r == state
    ensures state.flowInfo.Some? ==> r.flowInfo.Some? && r.flowInfo.value.flowName == state.flowInfo.value.flowName
    ensures state.flowInfo.Some? ==>
              && Ids(Data(r).value, stepName) == Ids(Data(state).value, stepName) + [id]
              && forall k :: k != stepName ==> Ids(Data(r).value, k) == Ids(Data(state).value, k)
    ensures r.stepInfo == state.stepInfo
  {
    WithDataBag(state, Append(DataBag(state), stepName, id))
  }

  /** The outcome of a bot call as the library reports it. */
  datatype BotResult = BotSuccess(messageId: int) | BotError(description: string)

  /** A sending helper's effect: the state afterwards and the message id returned, or what it threw. */
  datatype Sent = Sent(state: ChatState, message: Result<int, Throwable>)

  /**
    `storeSuccessful(saveResponseId)`: on success the message id is returned
    and, when asked, recorded as a server message of the current step; an error
    is thrown as a Telegram exception and records nothing.
   */
  function StoreSuccessful(state: ChatState, stepName: string, res: BotResult, save: bool): (r: Sent)
    ensures res.BotError? ==> r == Sent(state, Err(Error(Telegram, Some("Telegram Error: " + res.description))))
    ensures res.BotSuccess? ==> r.message == Ok(res.messageId)
    ensures res.BotSuccess? && save ==> r.state == Record(state, stepName, ServerMessageId(res.messageId))
    ensures res.BotSuccess? && !save ==> r.state == state
  {
    match res
    case BotError(d) => Sent(state, Err(Error(Telegram, Some("Telegram Error: " + d))))
    case BotSuccess(id) =>
      if save then Sent(Record(state, stepName, ServerMessageId(id)), Ok(id))
      else Sent(state, Ok(id))
  }

  /** What a clearing helper deleted in the chat and the state it leaves. */
  datatype Clearing = Clearing(deleted: seq<MessageId>, state: ChatState)

  /**
    `clearStepMessages<T>(stepName)`: the step's ids of the given kind are
    deleted, then the step's whole list is emptied.
   */
  function ClearStepMessages(state: ChatState, stepName: string, kind: MessageKind): (r: Clearing)
    ensures state.flowInfo.None? || stepName !in state.flowInfo.value.flowData ==> r == Clearing([], state)
    ensures state.flowInfo.Some? && stepName in state.flowInfo.value.flowData ==>
              var before := state.flowInfo.value.flowData;
              && (forall id :: id in r.deleted <==> id in before[stepName] && OfKind(id, kind))
              && r.state.flowInfo.Some?
              && r.state.flowInfo.value.flowData == before[stepName := []]
    ensures r.state.stepInfo == state.stepInfo
  {
    var c := ClearStep(DataBag(state), stepName, kind);
    Clearing(c.deleted, WithDataBag(state, c.bag))
  }

  /**
    `clearPreviousStepMessages<T>()`: clears the step before the one the name
    index gives for the current step's name; a first step has none.
   */
  function ClearPreviousStepMessages(f: Flow, i: nat, state: ChatState, kind: MessageKind): (r: Clearing)
    requires Linked(f) && i < |f.steps|
    ensures NameNotRepeated(f.steps, i) ==>
              r == (if i == 0 then Clearing([], state) else ClearStepMessages(state, f.steps[i - 1].name, kind))
  {
    var prev := PreviousByName(f, i);
    assert NameNotRepeated(f.steps, i) ==>
             prev == (if i == 0 then None else Some(i - 1));
    match prev
    case None => Clearing([], state)
    case Some(p) => ClearStepMessages(state, f.steps[p].name, kind)
  }

  /**
    What `clearPreviousStepMessages` is documented to do: clear the step
    linked before the current one, whatever names later steps carry.
   */
  function ClearLinkedPreviousStepMessages(f: Flow, i: nat, state: ChatState, kind: MessageKind): (r: Clearing)
    requires Linked(f) && i < |f.steps|
    ensures i == 0 ==> r == Clearing([], state)
    ensures i > 0 ==> r == ClearStepMessages(state, f.steps[i - 1].name, kind)
  {
    assert f.steps[i].previous == (if i == 0 then None else Some(i - 1));
    match f.steps[i].previous
    case None => Clearing([], state)
    case Some(p) => ClearStepMessages(state, f.steps[p].name, kind)
  }

  /** The name lookup and the link agree whenever no later step repeats the current name. */
  lemma ClearPreviousAgreesWhenNamesDiffer(f: Flow, i: nat, state: ChatState, kind: MessageKind)
    requires Linked(f) && i < |f.steps| && NameNotRepeated(f.steps, i)
    ensures ClearPreviousStepMessages(f, i, state, kind) == ClearLinkedPreviousStepMessages(f, i, state, kind)
  {
  }

  /**
    Two steps both named `a`: from the first one, the name lookup lands on the
    second, whose predecessor is the first, so the first step clears its own
    messages where it has no previous step to clear.
   */
  lemma ClearPreviousRepeatedNameCounterexample(f: Flow, state: ChatState, kind: MessageKind)
    requires Linked(f) && |f.steps| == 2 && f.steps[0].name == f.steps[1].name
    requires state.flowInfo.Some? && f.steps[0].name in state.flowInfo.value.flowData
    requires state.flowInfo.value.flowData[f.steps[0].name] != []
    ensures ClearPreviousStepMessages(f, 0, state, kind) == ClearStepMessages(state, f.steps[0].name, kind)
    ensures ClearLinkedPreviousStepMessages(f, 0, state, kind) == Clearing([], state)
    ensures ClearPreviousStepMessages(f, 0, state, kind) != ClearLinkedPreviousStepMessages(f, 0, state, kind)
  {
    StepMapAt(f.steps, 1);
    assert IndexByName(f.steps, 0) == 1;
    var before := state.flowInfo.value.flowData;
    var n := f.steps[0].name;
    assert before[n := []][n] != before[n];
  }

  /** `clearFlowMessages()`: every recorded id is deleted and the bag emptied. */
  function ClearFlowMessages(state: ChatState): (r: (set<MessageId>, ChatState))
    ensures state.flowInfo.None? ==> r == ({}, state)
    ensures state.flowInfo.Some? ==>
              && r.1 == WithDataBag(state, Some(EmptyBag))
              && (forall k, id :: k in state.flowInfo.value.flowData && id in state.flowInfo.value.flowData[k] ==> id in r.0)
              && (forall id :: id in r.0 ==> exists k :: k in state.flowInfo.value.flowData && id in state.flowInfo.value.flowData[k])
  {
    match state.flowInfo
    case None => ({}, state)
    case Some(fi) =>
      var c := ClearAll(fi.flowData);
      (c.0, WithDataBag(state, Some(c.1)))
  }

  /** Clearing a step's messages and then recording one leaves exactly that one. */
  lemma ClearThenRecord(state: ChatState, stepName: string, kind: MessageKind, id: MessageId)
    requires state.flowInfo.Some?
    ensures Ids(Data(Record(ClearStepMessages(state, stepName, kind).state, stepName, id)).value, stepName) == [id]
  {
  }

  // ---------------------------------------------------------------------------
  // Options.
  // ---------------------------------------------------------------------------

  /**
    `options(question) { … }`: the keyboard sent for the step, each option's
    callback data being the step's prefix followed by the option's value.
   */
  function OptionsKeyboard(s: Step, delimiter: string, items: seq<seq<Options.ChatOption>>): (r: seq<seq<Options.Button>>)
    ensures |r| == |items|
    ensures forall i, j :: 0 <= i < |items| && 0 <= j < |items[i]| ==>
              |r[i]| == |items[i]| &&
              r[i][j].callbackData == FullName(s) + (if s.suspendable then "" else CallbackMarker) + delimiter + items[i][j].value
  {
    Options.Keyboard(Options.CallbackPrefix(FullName(s), s.suspendable, delimiter), items)
  }
}
