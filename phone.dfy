/**
 * The phone field of the booking form (script.js:89-134): on every input
 * the value is reduced to its digits, given the Armenian country code 374
 * and re-rendered as `+374 XX XXXXXXX`; on blur it is checked against
 * `/^\+374\s\d{2}\s\d{6,7}$/`.
 */
module Phone {
  import opened JsText
  import opened Dom

  const CountryCode := "374"
  const DisplayPrefix := "+374 "
  /** The message put into `#phoneError` when the check on blur fails. */
  const PhoneErrorMessage := "Խնդրում ենք մուտքագրել վավեր հեռախոսահամար (+374 XX XXXXXXX)"

  /** The digits with the country code in front, unless they already start with it. */
  function WithCountryCode(digits: string): string {
    if StartsWith(digits, CountryCode) then digits else CountryCode + digits
  }

  /** The text the input handler builds from a prefixed digit string. */
  function Render(p: string): string {
    DisplayPrefix
      + (if |p| > 3 then JsSubstring(p, 3, 5) + " " else "")
      + (if |p| > 5 then JsSubstring(p, 5, 12) else "")
  }

  /**
   * The layouts a rendered value can have: `+374 ` alone, then one area
   * digit and a space, or two area digits, a space and at most seven
   * subscriber digits.
   */
  predicate DisplayShape(s: string) {
    && |s| >= 5
    && s[..5] == DisplayPrefix
    && (|| |s| == 5
        || (|s| == 7 && IsDigit(s[5]) && s[6] == ' ')
        || (8 <= |s| <= 15 && IsDigit(s[5]) && IsDigit(s[6]) && s[7] == ' ' && AllDigits(s[8..])))
  }

  /**
   * What the input handler assigns to the field, or `None` when the raw
   * value has no digit and nothing is assigned.
   */
  function Display(raw: string): Option<string> {
    var d := DigitsOnly(raw);
    if |d| == 0 then None else Some(Render(WithCountryCode(d)))
  }

  /**
   * An assigned value exists exactly when the raw value has a digit; it
   * starts with `+374 `, has one of the layouts of `DisplayShape`, and its
   * digits are the first twelve (at most) of the prefixed digit string.
   */
  lemma DisplayFacts(raw: string)
    ensures Display(raw).None? <==> DigitsOnly(raw) == []
    ensures Display(raw).Some? ==> StartsWith(Display(raw).value, DisplayPrefix)
    ensures Display(raw).Some? ==> DisplayShape(Display(raw).value)
    ensures Display(raw).Some? ==>
      var p := WithCountryCode(DigitsOnly(raw));
      DigitsOnly(Display(raw).value) == p[..Min(12, |p|)]
  {
    var d := DigitsOnly(raw);
    if |d| > 0 {
      RenderFacts(WithCountryCode(d));
    }
  }

  /** `/^\+374\s\d{2}\s\d{6,7}$/`, read character by character. */
  predicate PhonePattern(s: string) {
    && 14 <= |s| <= 15
    && s[..4] == "+374"
    && IsSpace(s[4])
    && IsDigit(s[5]) && IsDigit(s[6])
    && IsSpace(s[7])
    && AllDigits(s[8..])
  }

  lemma DigitsOfPrefix()
    ensures DigitsOnly(DisplayPrefix) == CountryCode
  {
    assert DisplayPrefix == ['+'] + CountryCode + [' '];
    DigitsOnlyConcat(['+'] + CountryCode, [' ']);
    DigitsOnlyConcat(['+'], CountryCode);
    DigitsOnlyOfDigits(CountryCode);
    DigitsOnlyOfNonDigits(['+']);
    DigitsOnlyOfNonDigits([' ']);
  }

  /** The digits of a layout are the country code, the area group and the subscriber group. */
  lemma DigitsOfLayout(area: string, sub: string)
    requires AllDigits(area) && AllDigits(sub)
    ensures DigitsOnly(DisplayPrefix + area + " " + sub) == CountryCode + area + sub
  {
    var a := DisplayPrefix + area;
    var b := a + " ";
    DigitsOnlyConcat(b, sub);
    DigitsOnlyOfDigits(sub);
    assert DigitsOnly(b + sub) == DigitsOnly(b) + sub;
    DigitsOnlyConcat(a, " ");
    DigitsOnlyOfNonDigits(" ");
    assert DigitsOnly(b) == DigitsOnly(a);
    DigitsOnlyConcat(DisplayPrefix, area);
    DigitsOfPrefix();
    DigitsOnlyOfDigits(area);
    assert DigitsOnly(a) == CountryCode + area;
  }

  /** A prefixed digit string renders into a shaped value that keeps its first twelve digits. */
  lemma RenderFacts(p: string)
    requires AllDigits(p) && StartsWith(p, CountryCode)
    ensures DisplayShape(Render(p))
    ensures DigitsOnly(Render(p)) == p[..Min(12, |p|)]
  {
    var s := Render(p);
    if |p| == 3 {
      DigitsOfPrefix();
      assert s == DisplayPrefix;
      assert p[..3] == CountryCode;
    } else {
      var m := Min(12, |p|);
      var area := p[3..Min(5, |p|)];
      var sub := if |p| > 5 then p[5..m] else "";
      assert JsSubstring(p, 3, 5) == area;
      assert |p| > 5 ==> JsSubstring(p, 5, 12) == sub;
      assert s == DisplayPrefix + area + " " + sub;
      DigitsOfLayout(area, sub);
      PrefixSplit(p, area, sub);
      LayoutSlices(area, sub);
    }
  }

  /** The first twelve (at most) digits are the country code, the area group and the subscriber group. */
  lemma PrefixSplit(p: string, area: string, sub: string)
    requires |p| > 3 && StartsWith(p, CountryCode)
    requires area == p[3..Min(5, |p|)]
    requires sub == if |p| > 5 then p[5..Min(12, |p|)] else ""
    ensures p[..Min(12, |p|)] == CountryCode + area + sub
  {
    var m := Min(12, |p|);
    assert p[..3] == CountryCode;
    if |p| > 5 {
      assert p[..m] == p[..3] + p[3..5] + p[5..m];
    } else {
      assert p[..m] == p[..3] + p[3..m];
    }
  }

  /** Where the parts of a layout sit in it. */
  lemma LayoutSlices(area: string, sub: string)
    ensures var s := DisplayPrefix + area + " " + sub;
      && |s| == 6 + |area| + |sub|
      && s[..5] == DisplayPrefix
      && s[5..5 + |area|] == area
      && s[5 + |area|] == ' '
      && s[6 + |area|..] == sub
  {
    var a := DisplayPrefix + area;
    var b := a + " ";
    var s := b + sub;
    assert s[..|b|] == b;
    assert b[..|a|] == a;
    assert a[..5] == DisplayPrefix;
    assert a[5..] == area;
  }

  /** The digits of a rendered value with one area digit. */
  lemma ShapeDigitsShort(s: string)
    requires DisplayShape(s) && |s| == 7
    ensures DigitsOnly(s) == CountryCode + [s[5]]
  {
    var area := s[5..6];
    assert s[6..7] == " ";
    assert s == s[..5] + area + s[6..7] + "";
    DigitsOfLayout(area, "");
  }

  /** The digits of a rendered value with two area digits. */
  lemma ShapeDigitsLong(s: string)
    requires DisplayShape(s) && |s| >= 8
    ensures DigitsOnly(s) == CountryCode + s[5..7] + s[8..]
  {
    var area := s[5..7];
    var sub := s[8..];
    assert s[7..8] == " ";
    assert s == s[..5] + area + s[7..8] + sub;
    DigitsOfLayout(area, sub);
  }

  /** A rendered value is `+374 `, a group of area digits and a group of subscriber digits, split by spaces. */
  lemma ShapeParts(s: string)
    requires DisplayShape(s)
    ensures |s| == 5 ==> DigitsOnly(s) == CountryCode
    ensures |s| == 7 ==> DigitsOnly(s) == CountryCode + [s[5]]
    ensures |s| >= 8 ==> DigitsOnly(s) == CountryCode + s[5..7] + s[8..]
  {
    if |s| == 5 {
      DigitsOfPrefix();
      assert s == s[..5];
    } else if |s| == 7 {
      ShapeDigitsShort(s);
    } else {
      ShapeDigitsLong(s);
    }
  }

  /**
   * Reading the digits back out of a shaped value and rendering them again
   * gives the value itself: the layout is determined by the digits.
   */
  lemma ShapeRoundTrip(s: string)
    requires DisplayShape(s)
    ensures StartsWith(DigitsOnly(s), CountryCode) && |DigitsOnly(s)| <= 12
    ensures Render(DigitsOnly(s)) == s
  {
    ShapeParts(s);
    var p := DigitsOnly(s);
    if |s| == 5 {
      assert Render(p) == DisplayPrefix;
    } else if |s| == 7 {
      assert JsSubstring(p, 3, 5) == [s[5]];
      assert Render(p) == DisplayPrefix + [s[5]] + " ";
    } else {
      assert JsSubstring(p, 3, 5) == s[5..7];
      if |s| == 8 {
        assert Render(p) == DisplayPrefix + s[5..7] + " ";
      } else {
        assert JsSubstring(p, 5, 12) == s[8..];
        assert Render(p) == DisplayPrefix + s[5..7] + " " + s[8..];
      }
    }
  }

  /** Feeding the input handler its own output changes nothing. */
  lemma DisplayIdempotent(raw: string)
    requires Display(raw).Some?
    ensures Display(Display(raw).value) == Display(raw)
  {
    DisplayFacts(raw);
    var s := Display(raw).value;
    ShapeRoundTrip(s);
    var p := DigitsOnly(s);
    assert WithCountryCode(p) == p;
  }

  /** A shaped value passes the blur check exactly when it is fourteen or fifteen characters long. */
  lemma PatternOfShape(s: string)
    requires DisplayShape(s)
    ensures PhonePattern(Trim(s)) <==> |s| >= 14
  {
    TrimFacts(s);
    if |s| >= 9 {
      assert !IsSpace(s[0]) && !IsSpace(s[|s| - 1]);
      assert Trim(s) == s;
      assert s[..4] == s[..5][..4];
    }
  }

  /** The number of digits of a shaped value follows from its length, and conversely. */
  lemma ShapeLength(s: string)
    requires DisplayShape(s)
    ensures |DigitsOnly(s)| == if |s| == 5 then 3 else if |s| == 7 then 4 else |s| - 3
  {
    ShapeParts(s);
  }

  /**
   * A value the input handler produced passes the blur check exactly when
   * the prefixed digit string has at least eleven digits, that is six or
   * seven subscriber digits once it is cut to twelve.
   */
  lemma PhoneAcceptance(raw: string)
    requires Display(raw).Some?
    ensures PhonePattern(Trim(Display(raw).value)) <==> |WithCountryCode(DigitsOnly(raw))| >= 11
  {
    DisplayFacts(raw);
    var s := Display(raw).value;
    PatternOfShape(s);
    ShapeLength(s);
  }

  /** The subscriber group of a rendered value never has more than seven digits. */
  lemma SubscriberAtMostSeven(raw: string)
    requires Display(raw).Some?
    ensures var s := Display(raw).value; |s| <= 15 && (|s| >= 8 ==> |s[8..]| <= 7)
  {
    DisplayFacts(raw);
  }

  /** The `#phone` input, with the `#phoneError` element when the page has one. */
  class PhoneInput {
    var value: string
    var border: Border
    var errorText: string
    const hasErrorElement: bool

    constructor (initial: string, hasErrorElement: bool)
      ensures value == initial && border == Unstyled && errorText == ""
      ensures this.hasErrorElement == hasErrorElement
    {
      value := initial;
      border := Unstyled;
      errorText := "";
      this.hasErrorElement := hasErrorElement;
    }

    /** The `input` listener (script.js:94-114): builds the display with successive appends. */
    method OnInput()
      modifies this`value
      ensures value == match Display(old(value)) case Some(v) => v case None => old(value)
    {
      var digits := DigitsOnly(value);
      if |digits| > 0 {
        if !StartsWith(digits, CountryCode) {
          digits := CountryCode + digits;
        }
        var formatted := DisplayPrefix;
        if |digits| > 3 {
          formatted := formatted + JsSubstring(digits, 3, 5) + " ";
        }
        if |digits| > 5 {
          formatted := formatted + JsSubstring(digits, 5, 12);
        }
        value := formatted;
      }
    }

    /**
     * The `blur` listener (script.js:117-132): the border follows the check
     * on the trimmed value, and so does the error text when the element
     * exists.
     */
    method OnBlur()
      modifies this`border, this`errorText
      ensures border == BorderFor(PhonePattern(Trim(value)))
      ensures errorText == if !hasErrorElement then old(errorText)
                           else if PhonePattern(Trim(value)) then "" else PhoneErrorMessage
    {
      if !PhonePattern(Trim(value)) {
        if hasErrorElement {
          errorText := PhoneErrorMessage;
        }
        border := Danger;
      } else {
        if hasErrorElement {
          errorText := "";
        }
        border := Neutral;
      }
    }
  }
}
