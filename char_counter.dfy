/**
 * The live character counter under the `#message` textarea
 * (script.js:343-367): its text is the length followed by the unit, and its
 * colour is chosen by two thresholds tested in the order written.
 */
module CharCounter {
  import opened JsText

  /** The colours the counter is given: `var(--gray)`, `var(--warning)` and `var(--danger)`. */
  datatype Color = Gray | Warning | Danger

  /** What follows the number in the counter text ("characters"). */
  const Unit := " նիշ"

  /**
   * The colour for a given length (script.js:358-364). The `> 500` test
   * comes first, so every length above 1000 already takes the warning
   * branch and the danger colour is never chosen.
   */
  function CounterColor(length: nat): (c: Color)
    ensures c == Warning <==> length > 500
    ensures c == Gray <==> length <= 500
    ensures c != Danger
  {
    if length > 500 then Warning
    else if length > 1000 then Danger
    else Gray
  }

  /** The counter text `${length} նիշ` (script.js:356): the decimal length, then the unit. */
  function CounterText(length: nat): (t: string)
    ensures |t| > |Unit| && t[|t| - |Unit|..] == Unit
    ensures AllDigits(t[..|t| - |Unit|]) && ParseDecimal(t[..|t| - |Unit|]) == length
  {
    var digits := DecimalString(length);
    ParseDecimalString(length);
    assert (digits + Unit)[..|digits|] == digits;
    digits + Unit
  }

  /** A message of 1001 characters shows `1001 նիշ` in the warning colour. */
  lemma ThousandAndOne()
    ensures CounterColor(1001) == Warning
    ensures CounterText(1001) == "1001 նիշ"
  {
  }

  /** The `div.char-count` element, created grey and empty and rewritten on every input. */
  class Counter {
    var text: string
    var color: Color

    constructor ()
      ensures text == "" && color == Gray
    {
      text := "";
      color := Gray;
    }

    /** The `input` listener (script.js:354-365), given the textarea's value. */
    method OnInput(value: string)
      modifies this
      ensures text == CounterText(|value|) && color == CounterColor(|value|)
    {
      var length := |value|;
      text := DecimalString(length) + Unit;
      var c := Gray;
      if length > 500 {
        c := Warning;
      } else if length > 1000 {
        c := Danger;
      }
      color := c;
    }
  }
}
