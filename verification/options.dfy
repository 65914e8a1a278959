/**
  Inline-keyboard options: the builder that collects rows of (value, label)
  options under a question, and the encoding of each option as callback data
  `"<step full name>[<callback marker>]<delimiter><value>"`.
 */
module Options {
  import opened Wrappers
  import opened Strings
  import opened Constants
  import CallbackQuery

  datatype ChatOption = ChatOption(value: string, caption: string)

  datatype ChatOptions = ChatOptions(question: string, items: seq<seq<ChatOption>>)

  datatype Builder = Builder(question: string, rows: seq<seq<ChatOption>>)

  function NewBuilder(question: string): Builder {
    Builder(question, [])
  }

  /** `option(value, label)`: one more row holding one option; the caption (label) defaults to the value. */
  function AddOption(b: Builder, value: string, caption: Option<string>): (r: Builder)
    ensures r.question == b.question
    ensures r.rows == b.rows + [[ChatOption(value, caption.GetOr(value))]]
  {
    b.(rows := b.rows + [[ChatOption(value, caption.GetOr(value))]])
  }

  function ToOptions(pairs: seq<(string, Option<string>)>): (r: seq<ChatOption>)
    ensures |r| == |pairs|
    ensures forall i :: 0 <= i < |pairs| ==> r[i] == ChatOption(pairs[i].0, pairs[i].1.GetOr(pairs[i].0))
  {
    if pairs == [] then [] else [ChatOption(pairs[0].0, pairs[0].1.GetOr(pairs[0].0))] + ToOptions(pairs[1..])
  }

  /**
    `option(list)` and its vararg overload: one more row holding all pairs in
    order, a null caption becoming the value; an empty list adds no row.
   */
  function AddRow(b: Builder, pairs: seq<(string, Option<string>)>): (r: Builder)
    ensures r.question == b.question
    ensures pairs == [] ==> r == b
    ensures pairs != [] ==> |r.rows| == |b.rows| + 1 && r.rows[..|b.rows|] == b.rows
    ensures pairs != [] ==> |r.rows| == |b.rows| + 1 && |r.rows[|b.rows|]| == |pairs| && forall i :: 0 <= i < |pairs| ==>
              r.rows[|b.rows|][i].value == pairs[i].0 &&
              (pairs[i].1.Some? ==> r.rows[|b.rows|][i].caption == pairs[i].1.value) &&
              (pairs[i].1.None? ==> r.rows[|b.rows|][i].caption == pairs[i].0)
  {
    if pairs == [] then b
    else
      var r := b.(rows := b.rows + [ToOptions(pairs)]);
      assert r.rows[..|b.rows|] == b.rows;
      r
  }

  /** `build()`: the question and the rows in insertion order. */
  function Build(b: Builder): (r: ChatOptions)
    ensures r.question == b.question && r.items == b.rows
  {
    ChatOptions(b.question, b.rows)
  }

  /** A single option is the one-pair row. */
  lemma SingleOptionIsOnePairRow(b: Builder, value: string, caption: Option<string>)
    ensures AddOption(b, value, caption) == AddRow(b, [(value, caption)])
  {
    assert ToOptions([(value, caption)]) == [ChatOption(value, caption.GetOr(value))];
  }

  // ---------------------------------------------------------------------------
  // Callback data.
  // ---------------------------------------------------------------------------

  datatype Button = Button(callbackData: string, text: string)

  /**
    The prefix every option of a step carries: the step's full name, the
    callback marker when the step itself is not suspendable (the answer is
    handled by the callback step awaiting it), then the delimiter.
   */
  function CallbackPrefix(fullName: string, suspendable: bool, delimiter: string): string {
    fullName + (if suspendable then "" else CallbackMarker) + delimiter
  }

  /** The keyboard: the rows of options mapped to buttons, row structure preserved. */
  function Keyboard(prefix: string, items: seq<seq<ChatOption>>): (r: seq<seq<Button>>)
    ensures |r| == |items|
    ensures forall i :: 0 <= i < |items| ==> |r[i]| == |items[i]|
    ensures forall i, j :: 0 <= i < |items| && 0 <= j < |items[i]| ==>
              r[i][j] == Button(prefix + items[i][j].value, items[i][j].caption)
  {
    if items == [] then [] else [Row(prefix, items[0])] + Keyboard(prefix, items[1..])
  }

  function Row(prefix: string, row: seq<ChatOption>): (r: seq<Button>)
    ensures |r| == |row|
    ensures forall j :: 0 <= j < |row| ==> r[j] == Button(prefix + row[j].value, row[j].caption)
  {
    if row == [] then [] else [Button(prefix + row[0].value, row[0].caption)] + Row(prefix, row[1..])
  }

  /**
    Decoding a button's callback data gives back the option's value, whatever
    the value contains, as long as the step's full name is free of `|` and the
    delimiter is `|`.
   */
  lemma {:induction false} CallbackRoundTrip(fullName: string, suspendable: bool, value: string)
    requires DelimiterChar !in fullName
    ensures CallbackQuery.Value(CallbackPrefix(fullName, suspendable, CallbackDataDelimiter) + value) == value
  {
    MarkersShape(0);
    var mid := fullName + (if suspendable then "" else CallbackMarker);
    assert DelimiterChar !in mid by {
      forall i | 0 <= i < |mid|
        ensures mid[i] != DelimiterChar
      {
        if i >= |fullName| {
          assert mid[i] == CallbackMarker[i - |fullName|];
        } else {
          assert mid[i] == fullName[i];
        }
      }
    }
    CallbackQuery.RoundTrip(mid, value);
  }

  /** Every button of a keyboard decodes to the value of the option it was made from. */
  lemma KeyboardDecodes(fullName: string, suspendable: bool, items: seq<seq<ChatOption>>, i: nat, j: nat)
    requires DelimiterChar !in fullName
    requires i < |items| && j < |items[i]|
    ensures var kb := Keyboard(CallbackPrefix(fullName, suspendable, CallbackDataDelimiter), items);
            CallbackQuery.Value(kb[i][j].callbackData) == items[i][j].value
  {
    CallbackRoundTrip(fullName, suspendable, items[i][j].value);
  }

  /**
    The options a non-suspendable step `S` sends are routed to the callback step
    awaiting it: their data starts with the full name of `S/suspended/callback`.
   */
  lemma CallbackDataTargetsAwaitingStep(flowId: string, name: string, delimiter: string, value: string)
    ensures StartsWith(CallbackPrefix(flowId + PathDelimiter + name, false, delimiter) + value,
                       flowId + PathDelimiter + (name + CallbackMarker))
  {
    var full := flowId + PathDelimiter + (name + CallbackMarker);
    assert CallbackPrefix(flowId + PathDelimiter + name, false, delimiter) + value == full + (delimiter + value);
    StartsWithConcat(full, delimiter + value);
  }

  /** A suspendable step's options carry its own full name. */
  lemma CallbackDataTargetsSelf(fullName: string, delimiter: string, value: string)
    ensures StartsWith(CallbackPrefix(fullName, true, delimiter) + value, fullName)
  {
    assert CallbackPrefix(fullName, true, delimiter) + value == fullName + (delimiter + value);
    StartsWithConcat(fullName, delimiter + value);
  }
}
