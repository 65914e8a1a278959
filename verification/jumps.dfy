/**
  What a step action can throw: the control signals the engine interprets
  (`Goto`, `GoNext`, `GoPrevious`, `StartFlow`, `StopFlow`, `IgnoreEvent`) and
  ordinary errors, each with the message the source gives it.
 */
module Jumps {
  import opened Wrappers
  import opened Strings

  datatype ErrorKind =
    | IllegalArgument
    | IllegalState
    | NoSuchElement
    | Telegram
    | Other(className: string)

  datatype Throwable =
    | Goto(stepName: string)
    | GoNext
    | GoPrevious
    | StartFlow(flowName: string)
    | StopFlow
    | IgnoreEvent(event: string)
    | Error(kind: ErrorKind, message: Option<string>)

  /** The exception message: the signals' fixed texts, `StopFlow` has none. */
  function Message(t: Throwable): Option<string> {
    match t
    case Goto(n) => Some(GotoPrefix + n + "]")
    case GoPrevious => Some("Go Previous")
    case GoNext => Some("Go Next")
    case StartFlow(n) => Some("Start Flow: [" + n + "]")
    case StopFlow => None
    case IgnoreEvent(e) => Some("Ignore event: [" + e + "]")
    case Error(_, m) => m
  }

  const GotoPrefix: string := "Go to step: ["

  /** Reads the target back out of a `Goto` message. */
  function ParseGotoMessage(m: string): (r: Option<string>)
    ensures r.Some? ==> m == GotoPrefix + r.value + "]"
  {
    if StartsWith(m, GotoPrefix) && |m| > |GotoPrefix| && m[|m| - 1] == ']' then
      var n := m[|GotoPrefix|..|m| - 1];
      assert m == m[..|GotoPrefix|] + n + [m[|m| - 1]];
      Some(n)
    else None
  }

  /** A `Goto` message names its target: parsing it back gives the step name. */
  lemma GotoMessageRoundTrip(n: string)
    ensures ParseGotoMessage(Message(Goto(n)).value) == Some(n)
  {
    var m := GotoPrefix + n + "]";
    assert StartsWith(m, GotoPrefix) by {
      assert m[..|GotoPrefix|] == GotoPrefix;
    }
    assert m[|GotoPrefix|..|m| - 1] == n;
  }

  /** Different targets give different messages. */
  lemma GotoMessageInjective(a: string, b: string)
    requires Message(Goto(a)) == Message(Goto(b))
    ensures a == b
  {
    GotoMessageRoundTrip(a);
    GotoMessageRoundTrip(b);
  }

  /** `goto(stepName)`: a blank name is rejected, otherwise the `Goto` signal is thrown. */
  function RaiseGoto(stepName: string): (r: Throwable)
    ensures r.Goto? <==> !IsBlank(stepName)
    ensures r.Goto? ==> r.stepName == stepName
    ensures !r.Goto? ==> r == Error(IllegalArgument, Some("Step name cannot be blank."))
  {
    if IsBlank(stepName) then Error(IllegalArgument, Some("Step name cannot be blank."))
    else Goto(stepName)
  }

  /** The three singleton signals, the ones that are deserialised through `readResolve`. */
  predicate IsSingleton(t: Throwable) {
    t.GoPrevious? || t.GoNext? || t.StopFlow?
  }

  /** `readResolve` of the singleton signals: each resolves to itself. */
  function ReadResolve(t: Throwable): (r: Throwable)
    requires IsSingleton(t)
    ensures r == t
  {
    match t
    case GoPrevious => GoPrevious
    case GoNext => GoNext
    case StopFlow => StopFlow
  }
}
