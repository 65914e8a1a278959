/**
  Decoding the value out of a callback payload `"<prefix>|<value>"`:
  `data.replaceBefore("|", "").removePrefix("|")`.
 */
module CallbackQuery {
  import opened Wrappers
  import opened Strings
  import opened Constants

  /** The value carried by callback data: what follows the first delimiter, or all of it. */
  function Value(data: string): (r: string)
    ensures DelimiterChar !in data ==> r == data
    ensures IndexOf(data, CallbackDataDelimiter).Some? ==>
              r == data[IndexOf(data, CallbackDataDelimiter).value + 1..]
    ensures |r| <= |data|
  {
    MarkerValues();
    IndexOfSingle(data, DelimiterChar);
    RemovePrefix(ReplaceBefore(data, CallbackDataDelimiter, ""), CallbackDataDelimiter)
  }

  /** Encoding then decoding returns the value, also when the value holds delimiters. */
  lemma RoundTrip(prefix: string, v: string)
    requires DelimiterChar !in prefix
    ensures Value(prefix + CallbackDataDelimiter + v) == v
  {
    MarkerValues();
    IndexAfterFreePrefix(prefix, DelimiterChar, v);
    assert (prefix + [DelimiterChar] + v)[|prefix| + 1..] == v;
  }
}
