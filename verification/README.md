# kotlin-telegram-flow in Dafny

A model of the conversation-flow engine of kotlin-telegram-flow, a Kotlin
library for Telegram chat bots. A bot is a set of named *flows*. Each flow
is an ordered list of *steps*. A step whose name ends in a suspension
marker (`/suspended/text`, `/suspended/callback`, `/suspended/pre_checkout`,
`/suspended/successful_payment`) waits for the user's next input.

The model covers:

- **The executor.**
  - Dispatch: a command starts a flow; any other input resumes the chat's current step.
  - Acceptability matching.
  - The single-step state machine: suspend, or start → action → complete, or handle what the action threw.
  - The neighbour search behind `GoNext`/`GoPrevious`.
  - The chain loop, with its execution history.
- **The step graph and the flow builder.**
- **The control signals** and the `withFallback` wrapper.
- **The naming constants** and the callback payload encoder and decoder.
- **The flow data bag**, a map from step name to message ids.
- **The options builder.**
- **The MarkdownV2 escaper.**
- **The localised text templates.**
- **The in-memory chat-state store.**
- **The older `chat` package's DSL**, where it differs from the current one.

Modelling choices:

- **Steps are an arena.** Steps live in a `seq` inside their flow. A step is referred to by `StepRef(flowId, index)`, and its `previous`/`next` links are indices.
- **State changes are values.** Every state change the source makes in place is a new value. Publishing an event appends to a trace.
- **Step actions are a parameter.** They are the `UserCode` function type, which returns the new state and what the action threw, if anything.
- **Exceptions are data.** They are the `Throwable` datatype: the six signals plus `Error(kind, message)`. An `IllegalArgumentException` raised by the engine itself escapes the chain as `CrashedWith`.
- **The chain loop has fuel.** It need not terminate (a `Goto` cycle runs forever), so `Executor.Drive` takes a fuel bound. `OutOfFuel` is an outcome of the model only.

Files:

| file | module | content |
|---|---|---|
| `wrappers.dfy` | `Wrappers` | `Option`, `Result` |
| `strings.dfy` | `Strings` | Kotlin string functions used by the source |
| `constants.dfy` | `Constants` | markers and delimiters |
| `jumps.dfy` | `Jumps` | signals and errors |
| `callback_query.dfy` | `CallbackQuery` | the payload decoder |
| `markdown.dfy` | `Markdown` | `escapeMarkdown` |
| `texts.dfy` | `Texts` | `Text`, `Texts` |
| `flow_data.dfy` | `FlowData` | the data bag |
| `state.dfy` | `ChatModel` | chat, flow and step info |
| `store.dfy` | `StateStore` | the chat-state store |
| `options.dfy` | `Options` | the options builder and keyboard |
| `graph.dfy` | `Graph` | `ChatStep`, `ChatFlow` |
| `builder.dfy` | `Builder` | `ChatFlowBuilder` |
| `step_dsl.dfy` | `StepDsl` | step helpers |
| `contexts.dfy` | `Contexts` | inbound and step contexts |
| `events.dfy` | `Events` | results, snapshots, events |
| `executor.dfy` | `Executor` | the engine |
| `executor_properties.dfy` | `ExecutorProperties` | the engine's properties |
| `legacy.dfy` | `LegacyDsl` | the older package |

## Model

| member | source | states |
|---|---|---|
| Constants.MarkerValues | src/main/kotlin/io/justdevit/telegram/flow/Constants.kt:14-46 | The path delimiter is `/`. The suspended marker is `/suspended/`. The four resume markers are the suspended marker followed by `callback`, `pre_checkout`, `text` or `successful_payment`. The callback delimiter is `\|`. |
| Constants.MarkersNotSuffixes | src/main/kotlin/io/justdevit/telegram/flow/Constants.kt:24-41 | No resume marker is a suffix of another. |
| Constants.AtMostOneMarker | src/main/kotlin/io/justdevit/telegram/flow/Constants.kt:24-41 | A step name ends with at most one resume marker. |
| Constants.MarkersShape | src/main/kotlin/io/justdevit/telegram/flow/Constants.kt:19-46 | Every resume marker starts with the suspended marker and contains no callback delimiter. |
| CallbackQuery.Value | src/main/kotlin/io/justdevit/telegram/flow/extension/CallbackQuery.kt:9-12 | The value is what follows the first `\|`. Data with no `\|` is returned unchanged. The value is never longer than the data. |
| CallbackQuery.RoundTrip | src/main/kotlin/io/justdevit/telegram/flow/chat/Extensions.kt:24-27 | For a prefix without `\|`, the value of `prefix + "\|" + v` is `v`, even when `v` contains `\|`. The older package's decoder is the same expression, so one definition serves both. |
| Jumps.RaiseGoto | src/main/kotlin/io/justdevit/telegram/flow/dsl/ChatStepDSL.kt:364-369 | `goto` rejects a blank name with `IllegalArgumentException`; otherwise it throws `Goto` with that name. The older `goto` (chat/ChatFlowDSL.kt:286-292) is the same. |
| Jumps.GotoMessageRoundTrip | src/main/kotlin/io/justdevit/telegram/flow/dsl/Jumps.kt:11 | A `Goto` message `Go to step: [name]` parses back to its step name. |
| Jumps.GotoMessageInjective | src/main/kotlin/io/justdevit/telegram/flow/dsl/Jumps.kt:11 | Different targets give different `Goto` messages. |
| Jumps.ReadResolve | src/main/kotlin/io/justdevit/telegram/flow/dsl/Jumps.kt:16-39 | Deserialising `GoPrevious`, `GoNext` or `StopFlow` gives back the same singleton. |
| Strings.IndexOf | src/main/kotlin/io/justdevit/telegram/flow/dsl/ChatFlowBuilder.kt:227 | The search behind `substringBefore`: it returns the first occurrence, or proves there is none. |
| Strings.SubstringBefore | src/main/kotlin/io/justdevit/telegram/flow/dsl/ChatFlowBuilder.kt:227 | `substringBefore` returns the part before the first occurrence, or the whole string when there is none. |
| Strings.Lowercase | src/main/kotlin/io/justdevit/telegram/flow/i18n/Text.kt:66 | Upper-case ASCII letters are lowered; every other character is kept. |
| Markdown.SpecialsDistinct | src/main/kotlin/io/justdevit/telegram/flow/i18n/String.kt:17-34 | There are 18 escaped characters, all different, and the backslash comes first. |
| Markdown.ChainIsEscapeUpTo | src/main/kotlin/io/justdevit/telegram/flow/i18n/String.kt:17-34 | The chain of 18 `replace` calls equals escaping each character on its own. Because the backslash goes first, inserted backslashes are never escaped again. |
| Markdown.EscapeMarkdownIsPerCharacter | src/main/kotlin/io/justdevit/telegram/flow/i18n/String.kt:13-34 | `escapeMarkdown` of a string prefixes every special character with one backslash and keeps every other character. |
| Markdown.EscapeMarkdownNull | src/main/kotlin/io/justdevit/telegram/flow/i18n/String.kt:14-15 | A null string escapes to `""`. |
| Markdown.EscapeLength | src/main/kotlin/io/justdevit/telegram/flow/i18n/String.kt:17-34 | The output length is the input length plus the number of special characters. |
| Markdown.EscapePlain | src/main/kotlin/io/justdevit/telegram/flow/i18n/String.kt:17-34 | A string without special characters is returned unchanged. |
| Markdown.UnescapeEscape | src/main/kotlin/io/justdevit/telegram/flow/i18n/String.kt:17-34 | Dropping the backslash before each escaped character recovers the original. |
| Markdown.ReplaceChar | src/main/kotlin/io/justdevit/telegram/flow/i18n/String.kt:17-34 | One `replace(c, "\\" + c)` grows the string by the number of occurrences of `c`. |
| FlowData.Append | src/main/kotlin/io/justdevit/telegram/flow/dsl/ChatFlowDataDSL.kt:12-18 | Appending to a null bag does nothing. Otherwise the id goes at the end of the key's list, an absent key gets a new list, and every other key is unchanged. The older operator (chat/ChatFlowData.kt:30-36) is the same. |
| FlowData.AppendGrowsByOne | src/main/kotlin/io/justdevit/telegram/flow/dsl/ChatFlowDataDSL.kt:14-16 | After an append, the key's list is one longer and ends with the id; other keys' lists are unchanged. |
| FlowData.AppendAllInOrder | src/main/kotlin/io/justdevit/telegram/flow/dsl/ChatFlowDataDSL.kt:14-16 | Repeated appends keep their order under the key and touch no other key. |
| FlowData.AppendAllToNull | src/main/kotlin/io/justdevit/telegram/flow/chat/ChatFlowData.kt:31 | Any number of appends to a null bag leave it null. |
| FlowData.Filter | src/main/kotlin/io/justdevit/telegram/flow/dsl/ChatStepDSL.kt:483-496 | `filterIsInstance<T>` keeps exactly the ids of kind T. |
| FlowData.FilterPartition | src/main/kotlin/io/justdevit/telegram/flow/dsl/ChatStepDSL.kt:483-496 | Every id is of exactly one kind, server or user. |
| FlowData.ClearStep | src/main/kotlin/io/justdevit/telegram/flow/dsl/ChatStepDSL.kt:483-496 | The step's T-typed ids are deleted, and then the step's whole list is emptied. With no list, nothing happens. |
| FlowData.ClearAll | src/main/kotlin/io/justdevit/telegram/flow/dsl/ChatStepDSL.kt:532-540 | `clearMessages` deletes exactly the recorded ids, no others, and leaves the map empty. The older version (chat/ChatFlowDSL.kt:449-455) is the same. |
| FlowData.ClearThenAppend | src/main/kotlin/io/justdevit/telegram/flow/dsl/ChatStepDSL.kt:483-496 | Clearing a step's list and then appending one id leaves exactly that id. |
| ChatModel.NewState | src/main/kotlin/io/justdevit/telegram/flow/model/ChatState.kt:17-26 | A new chat state has language `en`, no labels, and no flow or step info. |
| ChatModel.RunnerName | src/main/kotlin/io/justdevit/telegram/flow/model/ChatState.kt:38-39 | The runner name is the metadata entry under the runner-name key, when there is one. |
| ChatModel.WithDataBag | src/main/kotlin/io/justdevit/telegram/flow/model/ChatState.kt:23-24 | Replacing the data bag changes only the bag: chat id, language, labels, metadata, step info, flow name and flow state are kept. Without flow info, or with a null bag, the state is unchanged. |
| StateStore.FreshState | src/main/kotlin/io/justdevit/telegram/flow/ChatStateStore.kt:52-57 | A missing state is created for the chat, with the runner name in its metadata. |
| StateStore.Extract | src/main/kotlin/io/justdevit/telegram/flow/ChatStateStore.kt:50-58 | `extract` returns the stored state for (chatId, runner). If there is none, it inserts a fresh one and returns it. It never returns null. |
| StateStore.Put | src/main/kotlin/io/justdevit/telegram/flow/ChatStateStore.kt:60-62 | `store` upserts under (chatId, runnerName) and leaves every other key unchanged. |
| StateStore.ConsistencyPreserved | src/main/kotlin/io/justdevit/telegram/flow/ChatStateStore.kt:50-62 | `extract` and `store` keep every state under its own key. |
| StateStore.ExtractIdempotent | src/main/kotlin/io/justdevit/telegram/flow/ChatStateStore.kt:52-57 | A repeated `extract` with the same key returns the same state and leaves the store as it was. |
| StateStore.StoreThenExtract | src/main/kotlin/io/justdevit/telegram/flow/ChatStateStore.kt:50-62 | After `store(s)`, `extract` for s's chat and runner returns `s`. |
| StateStore.ExtractThenStore | src/main/kotlin/io/justdevit/telegram/flow/ChatStateStore.kt:50-62 | Storing what `extract` returned changes nothing. |
| StateStore.NamelessStateUnreachable | src/main/kotlin/io/justdevit/telegram/flow/ChatStateStore.kt:51-64 | A state without a runner name is stored under (chatId, null), a key `extract` never reads. |
| Options.AddOption | src/main/kotlin/io/justdevit/telegram/flow/dsl/ChatOptionsBuilder.kt:21-23 | `option(value, label)` appends one row with one option; the label defaults to the value. The older builder (chat/ChatOptions.kt:26-28) is the same. |
| Options.AddRow | src/main/kotlin/io/justdevit/telegram/flow/dsl/ChatOptionsBuilder.kt:31-35 | A list of pairs becomes one row, in order; a null label becomes the value. An empty list changes nothing. The older builder (chat/ChatOptions.kt:36-40) is the same. |
| Options.SingleOptionIsOnePairRow | src/main/kotlin/io/justdevit/telegram/flow/dsl/ChatOptionsBuilder.kt:21-43 | A single option is the one-pair list form. The vararg form is the list form by definition. |
| Options.Build | src/main/kotlin/io/justdevit/telegram/flow/dsl/ChatOptionsBuilder.kt:50-54 | `build` returns the question and the rows in insertion order. |
| Options.Keyboard | src/main/kotlin/io/justdevit/telegram/flow/dsl/ChatStepDSL.kt:243-252 | The keyboard keeps the row structure. Each button's data is the prefix followed by the option's value, and its text is the label. |
| Options.Row | src/main/kotlin/io/justdevit/telegram/flow/dsl/ChatStepDSL.kt:246-251 | A row of buttons, one per option, in order. |
| Options.CallbackRoundTrip | src/main/kotlin/io/justdevit/telegram/flow/chat/ChatFlowDSL.kt:178-184 | With the `\|` delimiter, decoding a button's data gives back the option's value, provided the step's full name has no `\|`. |
| Options.KeyboardDecodes | src/main/kotlin/io/justdevit/telegram/flow/chat/ChatFlowDSL.kt:178-184 | Every button of the keyboard decodes to the value of its option. |
| Options.CallbackDataTargetsAwaitingStep | src/main/kotlin/io/justdevit/telegram/flow/dsl/ChatStepDSL.kt:243-252 | The options of a non-suspendable step `S` carry data that starts with the full name of `S/suspended/callback`. |
| Options.CallbackDataTargetsSelf | src/main/kotlin/io/justdevit/telegram/flow/dsl/ChatStepDSL.kt:243-252 | The options of a suspendable step carry its own full name. |
| Graph.NewStep | src/main/kotlin/io/justdevit/telegram/flow/model/ChatStep.kt:17-27 | A blank step name fails with `IllegalArgumentException`. A new step has no flow and no links. The older class (chat/ChatStep.kt:30-34) is the same. |
| Graph.GetFlow | src/main/kotlin/io/justdevit/telegram/flow/model/ChatStep.kt:35 | Reading `flow` before it is set throws `IllegalStateException`. |
| Graph.SetFlow | src/main/kotlin/io/justdevit/telegram/flow/model/ChatStep.kt:36-40 | The first assignment of `flow` succeeds; a second one throws `IllegalStateException`. |
| Graph.FlowWriteOnce | src/main/kotlin/io/justdevit/telegram/flow/chat/ChatStep.kt:38-43 | After `flow` is set once, it reads back as that flow, and setting it again fails. |
| Graph.FullName | src/main/kotlin/io/justdevit/telegram/flow/model/ChatStep.kt:56-57 | `fullName` is `flowId/name` once the flow is set, and `name` before. |
| Graph.FullNameSplits | src/main/kotlin/io/justdevit/telegram/flow/chat/ChatStep.kt:48-49 | The full name splits back, at its first `/`, into the flow id and the step name. |
| Graph.IsFirst | src/main/kotlin/io/justdevit/telegram/flow/model/ChatStep.kt:62-68 | `isFirst` throws without a flow; otherwise it holds exactly for the step at index 0. |
| Graph.IsLast | src/main/kotlin/io/justdevit/telegram/flow/model/ChatStep.kt:73-79 | `isLast` throws without a flow; otherwise it holds exactly for the last index. |
| Graph.NewFlow | src/main/kotlin/io/justdevit/telegram/flow/model/ChatFlow.kt:15-27 | A blank flow id, or one containing whitespace, fails with the matching message. |
| Graph.StepMap | src/main/kotlin/io/justdevit/telegram/flow/model/ChatFlow.kt:30-31 | The keys of `stepMap` are exactly the step names. A duplicated name maps to its last step. |
| Graph.IndexByName | src/main/kotlin/io/justdevit/telegram/flow/model/ChatFlow.kt:30-31 | Looking a step up by its name in `stepMap` finds a step with that name at the same position or later. When no later step repeats the name, it finds the step itself. |
| Graph.PreviousByName | src/main/kotlin/io/justdevit/telegram/flow/dsl/ChatStepDSL.kt:508-511 | `stepMap[step.name]?.previous` is a valid index. When no later step repeats the name, it is the step's own predecessor, or none for the first step. |
| Graph.FirstStep | src/main/kotlin/io/justdevit/telegram/flow/model/ChatFlow.kt:33-34 | `firstStep` is the first step; an empty flow throws `NoSuchElementException`. |
| Graph.LastStep | src/main/kotlin/io/justdevit/telegram/flow/model/ChatFlow.kt:36-37 | `lastStep` is the last step; an empty flow throws `NoSuchElementException`. |
| Graph.LinkedEnds | src/main/kotlin/io/justdevit/telegram/flow/chat/ChatStep.kt:51-65 | In a linked flow, the first step is `isFirst` and has no previous step; the last step is `isLast` and has no next step. |
| Builder.AddStep | src/main/kotlin/io/justdevit/telegram/flow/dsl/ChatFlowBuilder.kt:245-252 | `addStep` makes the old last step point forward to the new step and the new step point back to it. Earlier declarations are kept. The chain stays linked. |
| Builder.AddedIsLast | src/main/kotlin/io/justdevit/telegram/flow/dsl/ChatFlowBuilder.kt:250 | The step just added can be found by its name. |
| Builder.DeclareStep | src/main/kotlin/io/justdevit/telegram/flow/dsl/ChatFlowBuilder.kt:70-78 | `step(name)` appends a non-suspendable step with the action, or fails for a blank name. |
| Builder.Await | src/main/kotlin/io/justdevit/telegram/flow/dsl/ChatFlowBuilder.kt:217-243 | `await` fails unless the receiver is registered. Otherwise it adds a suspendable step named `substringBefore(receiver.name, "/suspended/") + marker`. The action is wrapped in a fallback to the receiver exactly when `fallback` is set. |
| Builder.MarkersNotBlank | src/main/kotlin/io/justdevit/telegram/flow/Constants.kt:24-41 | No resume marker is blank, so no awaiting step name is blank. |
| Builder.AwaitText | src/main/kotlin/io/justdevit/telegram/flow/dsl/ChatFlowBuilder.kt:120-125 | `awaitText` succeeds exactly for a registered receiver and adds a suspendable step ending in the text marker. |
| Builder.AwaitCallback | src/main/kotlin/io/justdevit/telegram/flow/dsl/ChatFlowBuilder.kt:135-140 | `awaitCallback` is the same, with the callback marker. |
| Builder.AwaitPreCheckout | src/main/kotlin/io/justdevit/telegram/flow/dsl/ChatFlowBuilder.kt:150-155 | `awaitPreCheckout` is the same, with the pre-checkout marker. |
| Builder.AwaitPayment | src/main/kotlin/io/justdevit/telegram/flow/dsl/ChatFlowBuilder.kt:167-174 | On a receiver that does not end in the pre-checkout marker, `awaitPayment` first adds an auto-confirming pre-checkout step, then the payment step. Otherwise it adds only the payment step. |
| Builder.AwaitEventForType | src/main/kotlin/io/justdevit/telegram/flow/dsl/ChatFlowBuilder.kt:187-198 | The marker is `eventMarker + dataDelimiter + typeName`. The action runs only for an event of that type. |
| Builder.AttachAll | src/main/kotlin/io/justdevit/telegram/flow/dsl/ChatFlowBuilder.kt:52 | Every step is attached to the flow. This fails if any step already has one. |
| Builder.Build | src/main/kotlin/io/justdevit/telegram/flow/dsl/ChatFlowBuilder.kt:47-54 | `build` gives the flow with the builder's id, menu and steps, each step attached. An invalid id fails. An empty list attaches nothing. |
| Builder.BuildLinked | src/main/kotlin/io/justdevit/telegram/flow/dsl/ChatFlowBuilder.kt:47-54 | A built flow is linked: every step is owned by it, neighbours follow declaration order, and the step map is the builder's. |
| Builder.StepMapNamesOnly | src/main/kotlin/io/justdevit/telegram/flow/model/ChatFlow.kt:30-31 | `stepMap` depends only on the step names. |
| Builder.AwaitNameCollapses | src/main/kotlin/io/justdevit/telegram/flow/dsl/ChatFlowBuilder.kt:227 | Awaiting on an awaiting step names the new step after the original step, not after the awaiting one. |
| Builder.NewBuilderChained | src/main/kotlin/io/justdevit/telegram/flow/dsl/ChatFlowBuilder.kt:47-51 | A new builder is trivially linked, and builds to a flow with no steps. |
| StepDsl.WithFallback | src/main/kotlin/io/justdevit/telegram/flow/dsl/ChatStepDSL.kt:423-445 | `withFallback` rethrows every signal unchanged and turns every other throwable into `Goto(stepName)`. |
| StepDsl.FallbackInnermostWins | src/main/kotlin/io/justdevit/telegram/flow/dsl/ChatStepDSL.kt:423-445 | When fallbacks are nested, the innermost one decides. |
| StepDsl.DefaultFallbackTarget | src/main/kotlin/io/justdevit/telegram/flow/dsl/ChatStepDSL.kt:423 | The default target is a prefix of the step name. A name without the suspended marker is its own target. |
| StepDsl.DefaultTargetIsDeclaringStep | src/main/kotlin/io/justdevit/telegram/flow/dsl/ChatStepDSL.kt:423 | For a name `base/suspended/...`, the default target is `base`, the step that declared the suspension. |
| StepDsl.Data | src/main/kotlin/io/justdevit/telegram/flow/dsl/ChatStepDSL.kt:205 | `data()` is the flow's bag, and throws `IllegalStateException` without flow info. |
| StepDsl.Record | src/main/kotlin/io/justdevit/telegram/flow/dsl/ChatFlowDataDSL.kt:26-33 | The context append records the id under the current step's name and no other. |
| StepDsl.StoreSuccessful | src/main/kotlin/io/justdevit/telegram/flow/dsl/ChatStepDSL.kt:455-475 | `storeSuccessful` records a server message id only on success with `saveResponseId`. An error throws a Telegram exception and records nothing. The older version (chat/ChatFlowDSL.kt:374-392) is the same. |
| StepDsl.ClearStepMessages | src/main/kotlin/io/justdevit/telegram/flow/dsl/ChatStepDSL.kt:483-496 | It deletes exactly the T-typed ids of the step, then empties the step's whole list. With no list it does nothing. The older version (chat/ChatFlowDSL.kt:400-413) is the same. |
| StepDsl.ClearPreviousStepMessages | src/main/kotlin/io/justdevit/telegram/flow/dsl/ChatStepDSL.kt:507-512 | Clears the step before the current one, when its name is not repeated later in the flow. A first step has none. |
| StepDsl.ClearLinkedPreviousStepMessages | src/main/kotlin/io/justdevit/telegram/flow/dsl/ChatStepDSL.kt:498-512 | The documented behaviour: the step linked before the current one is cleared, and a first step clears nothing, whatever names later steps carry. |
| StepDsl.ClearPreviousAgreesWhenNamesDiffer | src/main/kotlin/io/justdevit/telegram/flow/dsl/ChatStepDSL.kt:507-512 | The name lookup and the link give the same clearing whenever no later step repeats the current step's name. |
| StepDsl.ClearPreviousRepeatedNameCounterexample | src/main/kotlin/io/justdevit/telegram/flow/dsl/ChatStepDSL.kt:508-511 | In a flow of two steps both named `a`, the first step's call clears the messages under `a`, while the documented behaviour clears nothing. |
| StepDsl.ClearFlowMessages | src/main/kotlin/io/justdevit/telegram/flow/dsl/ChatStepDSL.kt:522-540 | Exactly the recorded ids are deleted, and the bag is emptied. The rest of the state, including the step info and the flow name and state, is kept. With no flow info, nothing happens. |
| StepDsl.ClearThenRecord | src/main/kotlin/io/justdevit/telegram/flow/dsl/ChatStepDSL.kt:455-496 | Clearing a step and then recording a message leaves exactly that message. |
| StepDsl.OptionsKeyboard | src/main/kotlin/io/justdevit/telegram/flow/dsl/ChatStepDSL.kt:243-252 | Each option's payload is `fullName + (callback marker iff the step is not suspendable) + delimiter + value`. Rows are preserved. |
| Contexts.Command | src/main/kotlin/io/justdevit/telegram/flow/model/ChatContext.kt:35-41 | A command context's args default to the empty list. |
| Contexts.ToStepContext | src/main/kotlin/io/justdevit/telegram/flow/ChatFlowExecutor.kt:218-225 | A step context copies the state and sets the cursor to the step's flow and name. It is suspendable exactly when the inbound context is not a command. It keeps the command and args, the text, and the callback data together with its decoded value. |
| Contexts.Continuation | src/main/kotlin/io/justdevit/telegram/flow/chat/ChatStepContext.kt:97-107 | A continuation context copies the state, sets the cursor, and is not suspendable. |
| Events.ConcatLifecycle | src/main/kotlin/io/justdevit/telegram/flow/chat/Events.kt:53-137 | Concatenating two traces of flow and step events gives a trace of flow and step events. |
| Executor.RunAction | src/main/kotlin/io/justdevit/telegram/flow/dsl/ChatFlowBuilder.kt:195-237 | A fallback-wrapped action can throw only signals. An event-only action given an event context of another type does nothing. Given a non-event context, it fails its cast with `ClassCastException`. The automatic pre-checkout step throws nothing. |
| Executor.MisdeliveredEventFallsBack | src/main/kotlin/io/justdevit/telegram/flow/dsl/ChatFlowBuilder.kt:191-197 | An event-only action reached by a non-event context throws `ClassCastException`, and under `fallback = true` this becomes `Goto` to the receiver step (ChatFlowBuilder.kt:230-236). |
| Executor.FindForward | src/main/kotlin/io/justdevit/telegram/flow/ChatFlowExecutor.kt:323-329 | `terminateAndFind(next) { it.next }` returns the first non-suspendable step at or after the start, skipping only suspendable steps. It returns null exactly when every step from there on is suspendable. |
| Executor.FindBackward | src/main/kotlin/io/justdevit/telegram/flow/ChatFlowExecutor.kt:323-329 | The same search towards the start of the flow. |
| Executor.ToFlowStarted | src/main/kotlin/io/justdevit/telegram/flow/ChatFlowExecutor.kt:332-342 | The flow becomes ACTIVE with an empty bag, no step is current, and `ChatFlowStarted` is published. |
| Executor.StepEvent | src/main/kotlin/io/justdevit/telegram/flow/ChatFlowExecutor.kt:345-379 | Each step transition publishes a step event. |
| Executor.ToStep | src/main/kotlin/io/justdevit/telegram/flow/ChatFlowExecutor.kt:345-379 | STARTED, SUSPENDED, COMPLETED and TERMINATED set only the step info, then publish the matching event with the updated context. |
| Executor.ToStepFailed | src/main/kotlin/io/justdevit/telegram/flow/ChatFlowExecutor.kt:382-389 | FAILED records the error's message and publishes `ChatStepFailed` with the throwable. |
| Executor.ToFlowCompleted | src/main/kotlin/io/justdevit/telegram/flow/ChatFlowExecutor.kt:392-400 | The flow becomes COMPLETED, no step is current, and `ChatFlowCompleted` is published. |
| Executor.ToFlowTerminated | src/main/kotlin/io/justdevit/telegram/flow/ChatFlowExecutor.kt:403-408 | The flow becomes TERMINATED, the step info is kept, and `ChatFlowTerminated` is published. |
| Executor.Invoke | src/main/kotlin/io/justdevit/telegram/flow/ChatFlowExecutor.kt:244-269 | A suspendable step given a non-suspendable context returns Suspended. A step that cannot throw returns Completed without termination. Jump targets exist, and `invoke` publishes only flow and step events. |
| Executor.Perform | src/main/kotlin/io/justdevit/telegram/flow/ChatFlowExecutor.kt:256-267 | The running branch of `invoke` produces valid jump targets and only flow and step events. |
| Executor.ProcessThrowable | src/main/kotlin/io/justdevit/telegram/flow/ChatFlowExecutor.kt:271-321 | Handling a throwable produces valid jump targets and only flow and step events. |
| Executor.NextStep | src/main/kotlin/io/justdevit/telegram/flow/ChatFlowExecutor.kt:227-242 | Completed leads to the next step, or ends after the last one. StepJump leads to its target. FlowJump leads to that flow's first step; it ends for an unknown flow and fails for an empty one. Every other result ends the chain. |
| Executor.Prepend | src/main/kotlin/io/justdevit/telegram/flow/ChatFlowExecutor.kt:227-242 | One more step in front of a history that follows the next-step rule still follows it. |
| Executor.Drive | src/main/kotlin/io/justdevit/telegram/flow/ChatFlowExecutor.kt:199-242 | The chain keeps one snapshot per invoked step, in invocation order, starting at the first step. Each snapshot's successor is the one the next-step rule picks. A finished chain's last step chose to end. A suspension can only be the last snapshot. The chain publishes only flow and step events. |
| Executor.Proceed | src/main/kotlin/io/justdevit/telegram/flow/ChatFlowExecutor.kt:204-208 | One turn of the loop, from an invocation already made, keeps the same chain properties. |
| Executor.Extend | src/main/kotlin/io/justdevit/telegram/flow/ChatFlowExecutor.kt:204-208 | A snapshot followed by the rest of the chain is a chain. |
| Executor.Execute | src/main/kotlin/io/justdevit/telegram/flow/ChatFlowExecutor.kt:199-216 | `ChatExecutionStarted` opens the trace and appears nowhere else. `ChatExecutionCompleted` closes the trace when the chain finished, carries the history, and appears nowhere else. |
| Executor.Publish | src/main/kotlin/io/justdevit/telegram/flow/ChatFlowExecutor.kt:203-215 | Wrapping a chain's events between the two execution events gives the same bracket. |
| Executor.Dispatch | src/main/kotlin/io/justdevit/telegram/flow/ChatFlowExecutor.kt:121-129 | An event context is ignored. A command runs exactly when its flow is registered. When no step runs, nothing is in the history and the trace holds at most one `ChatFlowNotFound` or `ChatStepNotFound`. The lemmas below give each case. |
| Executor.StartFlowFor | src/main/kotlin/io/justdevit/telegram/flow/ChatFlowExecutor.kt:131-139 | An unknown flow publishes only `ChatFlowNotFound`. An empty flow throws `NoSuchElementException` from `firstStep`. Otherwise the execution starts at the flow's first step. |
| Executor.ExecuteForStep | src/main/kotlin/io/justdevit/telegram/flow/ChatFlowExecutor.kt:141-164 | Without a recorded flow and step, nothing happens. An unknown flow publishes only `ChatFlowNotFound`. A step runs only if the flow has a step with the recorded name that accepts the context. When none runs, the trace holds at most one "not found" notice. |
| ExecutorProperties.UnknownCommand | src/main/kotlin/io/justdevit/telegram/flow/ChatFlowExecutor.kt:131-139 | A command for an unknown flow publishes only `ChatFlowNotFound` and runs no step. |
| ExecutorProperties.KnownCommandStartsAtFirstStep | src/main/kotlin/io/justdevit/telegram/flow/ChatFlowExecutor.kt:121-139 | A command for a known flow runs the chain from its first step. |
| ExecutorProperties.ResumeWithoutCursor | src/main/kotlin/io/justdevit/telegram/flow/ChatFlowExecutor.kt:141-144 | A resuming context does nothing when the state has no flow name or no step name. |
| ExecutorProperties.ResumeUnknownFlow | src/main/kotlin/io/justdevit/telegram/flow/ChatFlowExecutor.kt:145-147 | An unknown flow publishes only `ChatFlowNotFound`. |
| ExecutorProperties.ResumeUnknownStep | src/main/kotlin/io/justdevit/telegram/flow/ChatFlowExecutor.kt:149-158 | An unknown step publishes only `ChatStepNotFound`. |
| ExecutorProperties.ResumeIffAcceptable | src/main/kotlin/io/justdevit/telegram/flow/ChatFlowExecutor.kt:159-160 | A known step runs if and only if it is acceptable, and then the chain starts there. Otherwise nothing happens. |
| ExecutorProperties.EventIgnored | src/main/kotlin/io/justdevit/telegram/flow/ChatFlowExecutor.kt:121-129 | The executor does nothing for an event context. |
| ExecutorProperties.MarkerFor | src/main/kotlin/io/justdevit/telegram/flow/ChatFlowExecutor.kt:172-192 | Each resuming context kind has its own resume marker. |
| ExecutorProperties.AcceptedCarriesMarker | src/main/kotlin/io/justdevit/telegram/flow/ChatFlowExecutor.kt:166-192 | A step that accepts a resuming context is suspendable and ends with that context's marker. |
| ExecutorProperties.AcceptsOneKind | src/main/kotlin/io/justdevit/telegram/flow/ChatFlowExecutor.kt:166-192 | A step accepts commands or exactly one kind of resuming context, never two. |
| ExecutorProperties.OptionsReachAwaitingStep | src/main/kotlin/io/justdevit/telegram/flow/ChatFlowExecutor.kt:176-184 | A button sent by a non-suspendable step is accepted by the step waiting for its callback. That step's context carries the option's value. |
| ExecutorProperties.SuspendsWithoutRunning | src/main/kotlin/io/justdevit/telegram/flow/ChatFlowExecutor.kt:251-255 | A suspendable step given a non-suspendable context does not run its action. It marks the step SUSPENDED, publishes `ChatStepSuspended` last (after `ChatFlowStarted` for a first step), and returns Suspended. |
| ExecutorProperties.ContinuationSuspends | src/main/kotlin/io/justdevit/telegram/flow/chat/ChatStepContext.kt:87-92 | A suspendable step reached by continuation always suspends. |
| ExecutorProperties.WithFlowState | src/main/kotlin/io/justdevit/telegram/flow/ChatFlowExecutor.kt:394-406 | `flowInfo?.copy(flowState = s)` changes only the flow state, and keeps a null null. |
| ExecutorProperties.NormalPath | src/main/kotlin/io/justdevit/telegram/flow/ChatFlowExecutor.kt:247-265 | In order: a first step starts the flow (ACTIVE, empty bag, no step info). Then STARTED, the action and COMPLETED. A last step then completes the flow and clears the step info. The result is Completed without termination. |
| ExecutorProperties.NeverTerminationRequested | src/main/kotlin/io/justdevit/telegram/flow/ChatFlowExecutor.kt:265 | `invoke` never returns Completed with termination set. |
| ExecutorProperties.GotoTerminatesThenLooksUp | src/main/kotlin/io/justdevit/telegram/flow/ChatFlowExecutor.kt:273-281 | `Goto` marks the step TERMINATED before the lookup. It then jumps to the named step, or fails with `IllegalArgumentException` when there is none. |
| ExecutorProperties.GoNextSkipsWaitingSteps | src/main/kotlin/io/justdevit/telegram/flow/ChatFlowExecutor.kt:283-289 | `GoNext` jumps to the first later step that is not suspendable, after terminating the current step. With none, it throws before terminating anything. |
| ExecutorProperties.GoPreviousSkipsWaitingSteps | src/main/kotlin/io/justdevit/telegram/flow/ChatFlowExecutor.kt:291-297 | `GoPrevious` jumps to the nearest earlier step that is not suspendable, after terminating the current step. With none, it throws before terminating anything. |
| ExecutorProperties.StartFlowLeavesFlow | src/main/kotlin/io/justdevit/telegram/flow/ChatFlowExecutor.kt:299-307 | `StartFlow` terminates the step. The flow becomes COMPLETED if the step is last and TERMINATED otherwise. The result is a flow jump. |
| ExecutorProperties.StopFlowTerminatesBoth | src/main/kotlin/io/justdevit/telegram/flow/ChatFlowExecutor.kt:309-314 | `StopFlow` terminates both the step and the flow. |
| ExecutorProperties.OtherThrowableFails | src/main/kotlin/io/justdevit/telegram/flow/ChatFlowExecutor.kt:316-320 | Any other throwable, including `IgnoreEvent`, gives FAILED with the error's message, and the chain ends. |
| ExecutorProperties.FallbackFailsOnlyByIgnoredEvent | src/main/kotlin/io/justdevit/telegram/flow/dsl/ChatStepDSL.kt:423-445 | A step under `withFallback` can fail only with `IgnoreEvent`. |
| ExecutorProperties.SignalsFailOnlyWhenIgnored | src/main/kotlin/io/justdevit/telegram/flow/ChatFlowExecutor.kt:272-320 | Among the signals, exactly `IgnoreEvent` makes a step FAILED. |
| ExecutorProperties.QuietWalk | src/main/kotlin/io/justdevit/telegram/flow/ChatFlowExecutor.kt:227-242 | In a flow whose steps all complete, the k-th snapshot is the k-th step after the start. |
| ExecutorProperties.QuietFlowRunsToEnd | src/main/kotlin/io/justdevit/telegram/flow/ChatFlowExecutor.kt:199-216 | With enough fuel, a flow whose steps all complete runs every step once, in order, and finishes. |
| ExecutorProperties.QuietCommandRunsWholeFlow | src/main/kotlin/io/justdevit/telegram/flow/ChatFlowExecutor.kt:131-139 | A command for such a flow runs the whole flow. The trace opens with `ChatExecutionStarted` and closes with `ChatExecutionCompleted` carrying the history. |
| Texts.ToMap | src/main/kotlin/io/justdevit/telegram/flow/i18n/Text.kt:62-72 | The map built from the flattened pairs has exactly their keys. The last pair for a key wins. |
| Texts.FlattenKeys | src/main/kotlin/io/justdevit/telegram/flow/i18n/Text.kt:76-84 | `propagate` stores a scalar under its key, with null as `""`, and nests mappings under `key.`. |
| Texts.FlattenEntriesKeys | src/main/kotlin/io/justdevit/telegram/flow/i18n/Text.kt:77-79 | Every key flattened from a mapping starts with `key.`. |
| Texts.Placeholder | src/main/kotlin/io/justdevit/telegram/flow/i18n/Text.kt:27 | A placeholder is the name in braces. |
| Texts.Render | src/main/kotlin/io/justdevit/telegram/flow/i18n/Text.kt:23-28 | A missing key renders as the key itself, escaped. A template without `{` renders as the template with emoji expanded, whatever the parameters. |
| Texts.SubstituteOneStep | src/main/kotlin/io/justdevit/telegram/flow/i18n/Text.kt:25-27 | `replace("{k}", v)` replaces the placeholder. |
| Texts.SubstituteNoPlaceholders | src/main/kotlin/io/justdevit/telegram/flow/i18n/Text.kt:25-27 | A template without placeholders is unchanged by any parameters. |
| Texts.RenderSingle | src/main/kotlin/io/justdevit/telegram/flow/i18n/Text.kt:23-28 | A template with one placeholder `{k}`, rendered with the parameter `k = v`, becomes the template with `{k}` replaced by the escaped `v`, with emoji expanded. |
| Texts.SubstituteSingle | src/main/kotlin/io/justdevit/telegram/flow/i18n/Text.kt:25-27 | A single `{k}` becomes the escaped value of `k`. |
| Texts.ReplaceAllFree | src/main/kotlin/io/justdevit/telegram/flow/i18n/Text.kt:27 | A prefix without the placeholder's first character is left as it is. |
| Texts.EscapedCloseBrace | src/main/kotlin/io/justdevit/telegram/flow/i18n/String.kt:21-22 | Every `}` in an escaped value is preceded by a backslash. |
| Texts.EscapedValueHasNoPlaceholder | src/main/kotlin/io/justdevit/telegram/flow/i18n/Text.kt:25-27 | An escaped value contains no placeholder whose name ends in a character other than a backslash. So later parameters cannot substitute inside an earlier value. |
| Texts.ResourceName | src/main/kotlin/io/justdevit/telegram/flow/i18n/Text.kt:66 | The resource name is `/text.yaml` for the empty language, and `/text_<lowercase language>.yaml` otherwise. |
| Texts.ResourceNameIgnoresCase | src/main/kotlin/io/justdevit/telegram/flow/i18n/Text.kt:66 | Languages that differ only in case load the same resource. |
| Texts.BuildText | src/main/kotlin/io/justdevit/telegram/flow/i18n/Text.kt:58-73 | A language is loaded only when it is not cached. A missing resource is an error. Other languages keep their cached entries. |
| Texts.Translate | src/main/kotlin/io/justdevit/telegram/flow/i18n/Text.kt:45-56 | `Texts(key, language)` loads the language if needed, then renders the key from it. |
| Texts.TranslateIdempotent | src/main/kotlin/io/justdevit/telegram/flow/i18n/Text.kt:59-61 | A second lookup reuses the cache: it gives the same text whatever the resources now hold. |
| LegacyDsl.ChatFlowMenu | src/main/kotlin/io/justdevit/telegram/flow/chat/ChatFlowDSL.kt:44-53 | The menu's command is the flow name. The description defaults to the name and the order to 0. |
| LegacyDsl.ChatFlow | src/main/kotlin/io/justdevit/telegram/flow/chat/ChatFlowDSL.kt:65-69 | `chatFlow(name, menu, block)` is the builder with the block applied, then built. What the block throws propagates. |
| LegacyDsl.ChatFlowWithMenu | src/main/kotlin/io/justdevit/telegram/flow/chat/ChatFlowDSL.kt:44-69 | A flow declared with a name, description and order is that flow, listed under that menu entry. |
| LegacyDsl.LegacyWithFallback | src/main/kotlin/io/justdevit/telegram/flow/chat/ChatFlowDSL.kt:346-364 | The older `withFallback` rethrows Goto, GoPrevious, GoNext, StopFlow and StartFlow. Everything else, `IgnoreEvent` included, becomes `Goto`. |
| LegacyDsl.FallbacksAgreeExceptIgnore | src/main/kotlin/io/justdevit/telegram/flow/chat/ChatFlowDSL.kt:350-362 | The two `withFallback` versions differ exactly on `IgnoreEvent`. |
| LegacyDsl.LegacyDefaultFallbackTarget | src/main/kotlin/io/justdevit/telegram/flow/chat/ChatFlowDSL.kt:346 | The older default target strips a trailing `/suspended/` and nothing else. |
| LegacyDsl.LegacyDefaultKeepsMarker | src/main/kotlin/io/justdevit/telegram/flow/chat/ChatFlowDSL.kt:346 | For every name the builder gives an awaiting step, the older default is the awaiting step's own name, while the current default is the step it waits on. |
| LegacyDsl.LegacyDefaultCounterexample | src/main/kotlin/io/justdevit/telegram/flow/chat/ChatFlowDSL.kt:346 | For `ask/suspended/text` the older default is `ask/suspended/text`; the current one is `ask`. |
| LegacyDsl.LegacyReadResolve | src/main/kotlin/io/justdevit/telegram/flow/chat/Jumps.kt:14-37 | The older `readResolve` of each singleton signal returns a singleton signal. |
| LegacyDsl.LegacyReadResolveLoses | src/main/kotlin/io/justdevit/telegram/flow/chat/Jumps.kt:15-36 | The older `readResolve` returns its own signal only for `GoNext`. The current one always does. |
| LegacyDsl.LegacyStopFlowCounterexample | src/main/kotlin/io/justdevit/telegram/flow/chat/Jumps.kt:35-36 | A deserialised older `StopFlow` comes back as `GoNext`. |
| LegacyDsl.LegacyOptionsKeyboard | src/main/kotlin/io/justdevit/telegram/flow/chat/ChatFlowDSL.kt:178-184 | The older keyboard is the current one with the `\|` delimiter, and each of its buttons decodes to its option's value. |

## Left out

- Telegram I/O is not modelled: sending messages, links, locations, invoices and PDFs, deleting messages, and answering pre-checkout queries. These are network calls through a library outside the model. Only their effect on the flow data bag is modelled, and, for `storeSuccessful`, the success or error of the call as an input.
- The runner and bootstrap wiring (polling, the lock, dispatcher registration), coroutines and logging: these are plumbing and concurrency.
- Event-bus listeners are not modelled. Publishing is appending to a trace; what the listeners do with it is out of scope.
- Timestamps: `Instant.now()` is nondeterministic, so results and events carry none.
- Float coordinates and the `BigDecimal` invoice amount are left out; they are passed straight to the API.
- The emoji catalogue and YAML parsing are not modelled. Emoji replacement is an uninterpreted function parameter. A resource file is a parsed `Yaml` tree, or absent.
- Reflection is not modelled. The event type used by `awaitEventForType` is a string tag, and `data<T>()` is not cast.
- Strings.Lowercase: lowers only ASCII letters, where Kotlin's `lowercase()` applies the full Unicode mapping, which can also change a string's length. Language tags are ASCII, so Texts.ResourceName is exact for them.
- Texts.ResourceName: exact for ASCII language tags only; see Strings.Lowercase.
- Builder.Build: pure. The source's `build()` attaches the builder's own step objects, so a second `build()` of the same builder throws `IllegalStateException` from the `flow` setter. The model does not track that a builder's steps have been used.
- Executor.RunAction: the `ClassCastException` of an event-only action outside an event context carries no message in the model. The JVM's text is not modelled. No executor path delivers such a context: resuming contexts never accept an event step, and continuations suspend before the action runs.
- Builder.AwaitEventForType: `EVENT_SUSPENDED_STEP_MARKER` and `DATA_DELIMITER` are not defined in Constants.kt, so they are parameters.
- StepDsl.OptionsKeyboard: the current package's delimiter is `DATA_DELIMITER`, also a parameter. The older package uses `CALLBACK_DATA_DELIMITER` (`\|`), and only that case is shown to round-trip through the decoder.
- Executor.Drive: the loop is bounded by fuel. A chain that would run forever, or longer than the bound, ends `OutOfFuel`; nothing is claimed about it beyond its length and history shape.
- Executor.Invoke: the engine assumes linked flows (`WellFormed`), which is what `build` produces (`Builder.BuildLinked`). Mutating links after `build` is not modelled.
- Executor.Invoke: a step is invoked by position. The source compares steps by identity, and the two coincide in a linked flow.
- Executor.ProcessThrowable: its requirement that the events so far are flow and step events is an invariant the model keeps, not something the source checks.
- Executor.RunAction: the flow data bag is a value inside the state. The source shares one mutable object between the state and the events that captured it; the model's events capture the state as it was when they were published.
- Jumps.Message: exception class names beyond the signals are an `ErrorKind` tag.
- ExecutorProperties.QuietFlowRunsToEnd: states the history and the outcome, not the full event trace, which `ExecutorProperties.NormalPath` gives step by step.
- FlowData.ClearAll: the deleted ids are a set, because the source's deletion order (over `values.flatten()`) is not observable in the model.
- The signal raisers `goNext`, `goPrevious`, `startFlow`, `stopFlow` and `ignoreEvent` are the `Throwable` constructors themselves; each always throws its signal.
- `ChatId` and `ParseMode` wrappers, the state extractor and processor interfaces, and the exception wrapper classes are left out; they carry no behaviour the engine depends on.
- `CallbackQuery.value` of chat/Extensions.kt is textually the same expression as extension/CallbackQuery.kt, so `CallbackQuery.Value` models both. Their agreement on every input holds by construction.

## Findings

| source | as written | input that shows it | evidently intended | confidence | as-written member | corrected member |
|---|---|---|---|---|---|---|
| src/main/kotlin/io/justdevit/telegram/flow/chat/ChatFlowDSL.kt:346 | The default fallback target is `step.name.removeSuffix("/suspended/")`. | A step named `ask/suspended/text`: the name does not end in `/suspended/`, so the target is the waiting step itself, and a failure re-enters the wait instead of returning to `ask`. | `substringBefore("/suspended/")`, as the current package does (dsl/ChatStepDSL.kt:423), giving `ask`. | high; not executed | LegacyDsl.LegacyDefaultCounterexample | StepDsl.DefaultTargetIsDeclaringStep |
| src/main/kotlin/io/justdevit/telegram/flow/dsl/ChatStepDSL.kt:508-511 | `clearPreviousStepMessages` looks the current step up by name (`step.flow.stepMap[step.name]?.previous`) instead of taking `step.previous`. | A flow with two steps both named `a`, which the builder accepts. From the first step, the lookup finds the second step, whose previous step is the first. So the first step clears its own messages, though it has no previous step. | The step linked before the current one, as the doc comment at 498-506 says: `step.previous`. | medium; not executed | StepDsl.ClearPreviousRepeatedNameCounterexample | StepDsl.ClearLinkedPreviousStepMessages |
| src/main/kotlin/io/justdevit/telegram/flow/chat/Jumps.kt:15 | `GoPrevious.readResolve()` and `StopFlow.readResolve()` return `GoNext`. | A serialised `StopFlow` deserialises as `GoNext`, so the flow moves on instead of stopping. | Each singleton resolves to itself, as in dsl/Jumps.kt:16-39. | high; not executed | LegacyDsl.LegacyStopFlowCounterexample | Jumps.ReadResolve |
