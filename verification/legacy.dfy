/**
  The older DSL package that still sits beside the current one: its
  `chatFlow` entry points, its `withFallback` (no `IgnoreEvent` branch and a
  default target computed with `removeSuffix`), the `readResolve` of its
  singleton signals, and the prefix its `options` put on callback data. The
  helpers it shares word for word with the current package (`goto`,
  `storeSuccessful`, the clearing helpers, the options builder, the data-bag
  append) are the ones in `StepDsl`, `Jumps`, `Options` and `FlowData`.
 */
module LegacyDsl {
  import opened Wrappers
  import opened Strings
  import opened Constants
  import opened Jumps
  import opened Graph
  import opened Builder
  import StepDsl
  import Options
  import CallbackQuery

  // ---------------------------------------------------------------------------
  // chatFlow.
  // ---------------------------------------------------------------------------

  /** The menu entry `chatFlow(name, description, order)` builds: the command is the flow name. */
  function ChatFlowMenu(name: string, description: Option<string>, order: Option<int>): (r: Menu)
    ensures r.command == name
    ensures description.None? ==> r.description == name
    ensures description.Some? ==> r.description == description.value
    ensures order.None? ==> r.order == 0
    ensures order.Some? ==> r.order == order.value
  {
    Menu(name, description.GetOr(name), order.GetOr(0))
  }

  /**
    `chatFlow(name, menu, block)`: a builder for `name` and `menu`, the block
    applied to it, then `build()`. What the block throws is what the call throws.
   */
  function ChatFlow(name: string, menu: Option<Menu>, block: FlowBuilder -> Result<FlowBuilder, Throwable>): (r: Result<Flow, Throwable>)
    ensures block(NewBuilder(name, menu)).Err? ==> r == Err(block(NewBuilder(name, menu)).error)
    ensures block(NewBuilder(name, menu)).Ok? ==> r == Build(block(NewBuilder(name, menu)).value)
  {
    var b :- block(NewBuilder(name, menu));
    Build(b)
  }

  /**
    A flow declared with `chatFlow(name, description, order) { … }` whose block
    only adds steps is the flow `name` listed in the menu under the command
    `name`, described by `description` (or `name`) at position `order` (or 0).
   */
  lemma ChatFlowWithMenu(name: string, description: Option<string>, order: Option<int>,
                         block: FlowBuilder -> Result<FlowBuilder, Throwable>)
    requires var b := NewBuilder(name, Some(ChatFlowMenu(name, description, order)));
             block(b).Ok? ==> block(b).value.id == b.id && block(b).value.menu == b.menu
    ensures var r := ChatFlow(name, Some(ChatFlowMenu(name, description, order)), block);
            r.Ok? ==> && r.value.id == name
                      && r.value.menu == Some(Menu(name, description.GetOr(name), order.GetOr(0)))
  {
  }

  // ---------------------------------------------------------------------------
  // withFallback.
  // ---------------------------------------------------------------------------

  /**
    The older `withFallback`: `Goto`, `GoPrevious`, `GoNext`, `StopFlow` and
    `StartFlow` are rethrown; everything else, `IgnoreEvent` included, becomes
    `Goto(stepName)`.
   */
  function LegacyWithFallback(stepName: string, t: Throwable): (r: Throwable)
    ensures r.Goto? || r.GoPrevious? || r.GoNext? || r.StopFlow? || r.StartFlow?
    ensures t.IgnoreEvent? || t.Error? ==> r == Goto(stepName)
    ensures !(t.IgnoreEvent? || t.Error?) ==> r == t
  {
    match t
    case Goto(_) => t
    case GoPrevious => t
    case GoNext => t
    case StopFlow => t
    case StartFlow(_) => t
    case IgnoreEvent(_) => Goto(stepName)
    case Error(_, _) => Goto(stepName)
  }

  /** The two wrappers agree on every throwable except `IgnoreEvent`, which only the current one passes through. */
  lemma FallbacksAgreeExceptIgnore(stepName: string, t: Throwable)
    ensures LegacyWithFallback(stepName, t) == StepDsl.WithFallback(stepName, t) <==> !t.IgnoreEvent?
  {
  }

  /** The older default target: the step name with a trailing suspended-step marker removed. */
  function LegacyDefaultFallbackTarget(s: Step): (r: string)
    ensures EndsWith(s.name, SuspendedMarker) ==> s.name == r + SuspendedMarker
    ensures !EndsWith(s.name, SuspendedMarker) ==> r == s.name
  {
    var r := RemoveSuffix(s.name, SuspendedMarker);
    assert EndsWith(s.name, SuspendedMarker) ==> s.name == r + SuspendedMarker by {
      if EndsWith(s.name, SuspendedMarker) {
        assert s.name == s.name[..|s.name| - |SuspendedMarker|] + s.name[|s.name| - |SuspendedMarker|..];
      }
    }
    r
  }

  /**
    Every step the builder names `base + marker` ends in a word, never in the
    bare suspended-step marker, so the older default target is the awaiting
    step's own name, while the current one is `base`, the step it waits on.
   */
  lemma LegacyDefaultKeepsMarker(s: Step, base: string, i: nat)
    requires i < |ResumeMarkers| && s.name == base + ResumeMarkers[i] && '/' !in base
    ensures LegacyDefaultFallbackTarget(s) == s.name
    ensures StepDsl.DefaultFallbackTarget(s) == base != s.name
  {
    MarkerValues();
    var m := ResumeMarkers[i];
    assert s.name[|s.name| - 1] == m[|m| - 1];
    assert !EndsWith(s.name, SuspendedMarker);
    MarkersShape(i);
    assert m == SuspendedMarker + m[|SuspendedMarker|..];
    StepDsl.DefaultTargetIsDeclaringStep(s, base, m[|SuspendedMarker|..]);
  }

  /** The concrete case: a text step awaiting `ask` falls back to itself in the older package, to `ask` in the current one. */
  lemma LegacyDefaultCounterexample(s: Step)
    requires s.name == "ask/suspended/text"
    ensures LegacyDefaultFallbackTarget(s) == "ask/suspended/text"
    ensures StepDsl.DefaultFallbackTarget(s) == "ask"
  {
    MarkerValues();
    assert s.name == "ask" + ResumeMarkers[2];
    LegacyDefaultKeepsMarker(s, "ask", 2);
  }

  // ---------------------------------------------------------------------------
  // readResolve.
  // ---------------------------------------------------------------------------

  /** The older `readResolve` of the singleton signals: every one of them resolves to `GoNext`. */
  function LegacyReadResolve(t: Throwable): (r: Throwable)
    requires IsSingleton(t)
    ensures IsSingleton(r)
  {
    match t
    case GoPrevious => GoNext
    case GoNext => GoNext
    case StopFlow => GoNext
  }

  /** A deserialised older signal is the one serialised exactly when it was `GoNext`; the current one always is. */
  lemma LegacyReadResolveLoses(t: Throwable)
    requires IsSingleton(t)
    ensures LegacyReadResolve(t) == t <==> t.GoNext?
    ensures ReadResolve(t) == t
  {
  }

  /** The concrete case: a deserialised `StopFlow` comes back as `GoNext`, so the flow moves on instead of stopping. */
  lemma LegacyStopFlowCounterexample()
    ensures LegacyReadResolve(StopFlow) == GoNext != ReadResolve(StopFlow)
  {
  }

  // ---------------------------------------------------------------------------
  // options.
  // ---------------------------------------------------------------------------

  /**
    The older `options`: the same keyboard as the current one, with the
    callback delimiter `|` after the prefix; the decoder reads each option's
    value back out of its button.
   */
  function LegacyOptionsKeyboard(s: Step, items: seq<seq<Options.ChatOption>>): (r: seq<seq<Options.Button>>)
    ensures r == StepDsl.OptionsKeyboard(s, CallbackDataDelimiter, items)
    ensures DelimiterChar !in FullName(s) ==>
              forall i, j :: 0 <= i < |items| && 0 <= j < |items[i]| ==>
                CallbackQuery.Value(r[i][j].callbackData) == items[i][j].value
  {
    var r := Options.Keyboard(Options.CallbackPrefix(FullName(s), s.suspendable, CallbackDataDelimiter), items);
    assert DelimiterChar !in FullName(s) ==>
             forall i, j :: 0 <= i < |items| && 0 <= j < |items[i]| ==>
               CallbackQuery.Value(r[i][j].callbackData) == items[i][j].value by {
      if DelimiterChar !in FullName(s) {
        forall i, j | 0 <= i < |items| && 0 <= j < |items[i]|
          ensures CallbackQuery.Value(r[i][j].callbackData) == items[i][j].value
        {
          Options.KeyboardDecodes(FullName(s), s.suspendable, items, i, j);
        }
      }
    }
    r
  }
}
