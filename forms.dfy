/**
 * Form validation (script.js:136-292): the field-level rules of
 * `validateField`, the booking form that runs them over every control,
 * and the contact and newsletter forms with their own smaller rule sets.
 */
module Forms {
  import opened JsText
  import opened Dom
  import Email

  /** The `type` of a control, as far as `validateField` looks at it. */
  datatype InputType = EmailInput | DateInput | OtherInput

  /**
   * What `validateField` reads of a control: the `required` attribute, the
   * type, the value, and the day ordinal that `new Date(value)` denotes
   * (`None` for an invalid date, which compares false with any day).
   */
  datatype Entry = Entry(required: bool, kind: InputType, value: string, day: Option<int>)

  const RequiredMessage := "Այս դաշտը պարտադիր է"
  const EmailMessage := "Խնդրում ենք մուտքագրել վավեր էլեկտրոնային փոստի հասցե"
  const DateMessage := "Խնդրում ենք ընտրել ապագայի ամսաթիվ"
  const SuccessMessage := "Ձեր ամրագրումը հաջողությամբ ուղարկված է! Մենք կկապնվենք ձեզ հետ մոտակա ժամանակում։"
  const FeedbackClass := "form-feedback"
  const FeedbackSuccessClass := "form-feedback success"

  // ---------------------------------------------------------------------
  // The three rules of validateField, each as the condition under which it
  // assigns its message
  // ---------------------------------------------------------------------

  /** A required control whose trimmed value is empty. */
  predicate RequiredRule(e: Entry) {
    e.required && Trim(e.value) == []
  }

  /** An e-mail control with a non-blank value that the e-mail check rejects. */
  predicate EmailRule(e: Entry) {
    e.kind == EmailInput && Trim(e.value) != [] && !Email.ValidateEmail(e.value)
  }

  /** A date control with a non-empty value whose day is before `today`. */
  predicate DateRule(e: Entry, today: int) {
    e.kind == DateInput && e.value != [] && e.day.Some? && e.day.value < today
  }

  predicate PassesRules(e: Entry, today: int) {
    !RequiredRule(e) && !EmailRule(e) && !DateRule(e, today)
  }

  /** The message the rules leave behind: each rule that fires overwrites the one before it. */
  function RuleMessage(e: Entry, today: int): string {
    if DateRule(e, today) then DateMessage
    else if EmailRule(e) then EmailMessage
    else if RequiredRule(e) then RequiredMessage
    else ""
  }

  /** A control passes exactly when no message is left. */
  lemma PassesIffNoMessage(e: Entry, today: int)
    ensures PassesRules(e, today) <==> RuleMessage(e, today) == ""
  {
  }

  /**
   * A required control with a blank value fails with the required message,
   * whatever its type; only a date control whose blank (but non-empty) value
   * still denotes a day before `today` shows the date message instead.
   */
  lemma RequiredBlankFails(e: Entry, today: int)
    requires e.required && Trim(e.value) == []
    ensures !PassesRules(e, today)
    ensures RuleMessage(e, today) == if DateRule(e, today) then DateMessage else RequiredMessage
    ensures e.kind != DateInput || e.value == [] || e.day.None? ==> RuleMessage(e, today) == RequiredMessage
  {
  }

  /**
   * The rules hardly overlap: the e-mail rule needs a non-blank value, so it
   * never fires with the required rule, and it never fires with the date
   * rule; the required and date rules both fire only on a date control
   * whose value is non-empty whitespace.
   */
  lemma RulesOverlap(e: Entry, today: int)
    ensures !(RequiredRule(e) && EmailRule(e))
    ensures !(EmailRule(e) && DateRule(e, today))
    ensures RequiredRule(e) && DateRule(e, today) ==> e.value != [] && AllSpace(e.value)
  {
    TrimFacts(e.value);
  }

  /** An e-mail control passes when left blank and not required, or when its value passes the e-mail check. */
  lemma EmailControlVerdict(e: Entry, today: int)
    requires e.kind == EmailInput
    ensures PassesRules(e, today) <==> if Trim(e.value) == [] then !e.required else Email.ValidateEmail(e.value)
  {
  }

  /** A filled-in date control passes exactly when its day is not before `today` (or is not a valid date). */
  lemma DateControlVerdict(e: Entry, today: int)
    requires e.kind == DateInput && Trim(e.value) != []
    ensures PassesRules(e, today) <==> e.day.None? || e.day.value >= today
  {
    TrimFacts(e.value);
  }

  // ---------------------------------------------------------------------
  // The controls of the booking form
  // ---------------------------------------------------------------------

  /**
   * A control of the booking form together with its error element
   * (`#<id>Error`, else the `.error-message` of its parent), when it has one.
   */
  class Field {
    const hasErrorElement: bool
    var entry: Entry
    var errorText: string
    var border: Border

    constructor (entry: Entry, hasErrorElement: bool)
      ensures this.entry == entry && this.hasErrorElement == hasErrorElement
      ensures errorText == "" && border == Unstyled
    {
      this.entry := entry;
      this.hasErrorElement := hasErrorElement;
      errorText := "";
      border := Unstyled;
    }

    /** The error text and the border show the verdict of the rules for `today`. */
    ghost predicate ShowsVerdict(today: int)
      reads this
    {
      errorText == RuleMessage(entry, today) && border == BorderFor(PassesRules(entry, today))
    }

    /**
     * `validateField` (script.js:232-277): without an error element nothing
     * happens and the result is `undefined`; otherwise the rules decide, the
     * error text and the border show the verdict, and it is returned.
     */
    method Validate(today: int) returns (r: Option<bool>)
      modifies this`errorText, this`border
      ensures hasErrorElement ==> r == Some(PassesRules(entry, today)) && ShowsVerdict(today)
      ensures !hasErrorElement ==> r == None && errorText == old(errorText) && border == old(border)
    {
      if !hasErrorElement {
        return None;
      }
      var isValid := true;
      var errorMessage := "";
      if entry.required && Trim(entry.value) == [] {
        isValid := false;
        errorMessage := RequiredMessage;
      }
      if entry.kind == EmailInput && Trim(entry.value) != [] {
        if !Email.ValidateEmail(entry.value) {
          isValid := false;
          errorMessage := EmailMessage;
        }
      }
      if entry.kind == DateInput && entry.value != [] {
        if entry.day.Some? && entry.day.value < today {
          isValid := false;
          errorMessage := DateMessage;
        }
      }
      if isValid {
        errorText := "";
        border := Neutral;
      } else {
        errorText := errorMessage;
        border := Danger;
      }
      return Some(isValid);
    }
  }

  /** A control that `validateBookingForm` counts as valid: `validateField` returned `true` for it. */
  predicate Accepted(hasErrorElement: bool, e: Entry, today: int) {
    hasErrorElement && PassesRules(e, today)
  }

  /**
   * `validateBookingForm` (script.js:280-292): runs `validateField` on every
   * control, without stopping at the first failure, and reports whether
   * every call returned `true`; a control without an error element makes
   * the form invalid.
   */
  method ValidateBookingForm(fields: seq<Field>, today: int) returns (isValid: bool)
    modifies set f | f in fields
    ensures isValid <==> forall k :: 0 <= k < |fields| ==> Accepted(fields[k].hasErrorElement, fields[k].entry, today)
    ensures forall f :: f in fields ==> f.entry == old(f.entry)
    ensures forall f :: f in fields && f.hasErrorElement ==> f.ShowsVerdict(today)
    ensures forall f :: f in fields && !f.hasErrorElement ==> f.errorText == old(f.errorText) && f.border == old(f.border)
  {
    isValid := true;
    for i := 0 to |fields|
      invariant isValid <==> forall k :: 0 <= k < i ==> Accepted(fields[k].hasErrorElement, fields[k].entry, today)
      invariant forall f :: f in fields ==> f.entry == old(f.entry)
      invariant forall f :: f in fields[..i] && f.hasErrorElement ==> f.ShowsVerdict(today)
      invariant forall f :: f in fields && (f !in fields[..i] || !f.hasErrorElement) ==>
        f.errorText == old(f.errorText) && f.border == old(f.border)
    {
      var r := fields[i].Validate(today);
      if r != Some(true) {
        isValid := false;
      }
      assert fields[..i + 1] == fields[..i] + [fields[i]];
    }
    assert fields[..|fields|] == fields;
  }

  /** The booking form: its controls, the `#formFeedback` region and the resets its timer still owes. */
  class BookingForm {
    const fields: seq<Field>
    var feedbackText: string
    var feedbackClass: string
    var pendingResets: nat

    constructor (fields: seq<Field>)
      ensures this.fields == fields
      ensures feedbackText == "" && feedbackClass == FeedbackClass && pendingResets == 0
    {
      this.fields := fields;
      feedbackText := "";
      feedbackClass := FeedbackClass;
      pendingResets := 0;
    }

    /**
     * The `submit` listener (script.js:141-157): validates every control;
     * when all pass, shows the success message with the `success` class
     * and schedules one reset.
     */
    method Submit(today: int) returns (accepted: bool)
      modifies this`feedbackText, this`feedbackClass, this`pendingResets, set f | f in fields
      ensures accepted <==> forall k :: 0 <= k < |fields| ==> Accepted(fields[k].hasErrorElement, fields[k].entry, today)
      ensures forall f :: f in fields ==> f.entry == old(f.entry)
      ensures forall f :: f in fields && f.hasErrorElement ==> f.ShowsVerdict(today)
      ensures forall f :: f in fields && !f.hasErrorElement ==> f.errorText == old(f.errorText) && f.border == old(f.border)
      ensures accepted ==> feedbackText == SuccessMessage && feedbackClass == FeedbackSuccessClass
      ensures accepted ==> pendingResets == old(pendingResets) + 1
      ensures !accepted ==> feedbackText == old(feedbackText) && feedbackClass == old(feedbackClass)
      ensures !accepted ==> pendingResets == old(pendingResets)
    {
      accepted := ValidateBookingForm(fields, today);
      if accepted {
        feedbackText := SuccessMessage;
        feedbackClass := FeedbackSuccessClass;
        pendingResets := pendingResets + 1;
      }
    }

    /**
     * The body of the 3-second timer (script.js:151-155): `reset()` gives
     * every control its default (empty) value, and the feedback region is
     * cleared; error texts and borders stay as they are.
     */
    method ResetFires()
      requires pendingResets > 0
      modifies this`feedbackText, this`feedbackClass, this`pendingResets, set f | f in fields
      ensures forall f :: f in fields ==> f.entry == old(f.entry).(value := "", day := None)
      ensures forall f :: f in fields ==> f.errorText == old(f.errorText) && f.border == old(f.border)
      ensures feedbackText == "" && feedbackClass == FeedbackClass
      ensures pendingResets == old(pendingResets) - 1
    {
      for i := 0 to |fields|
        invariant forall f :: f in fields[..i] ==> f.entry == old(f.entry).(value := "", day := None)
        invariant forall f :: f in fields && f !in fields[..i] ==> f.entry == old(f.entry)
        invariant forall f :: f in fields ==> f.errorText == old(f.errorText) && f.border == old(f.border)
        invariant pendingResets == old(pendingResets)
      {
        fields[i].entry := fields[i].entry.(value := "", day := None);
        assert fields[..i + 1] == fields[..i] + [fields[i]];
      }
      assert fields[..|fields|] == fields;
      feedbackText := "";
      feedbackClass := FeedbackClass;
      pendingResets := pendingResets - 1;
    }
  }

  // ---------------------------------------------------------------------
  // The contact form and the newsletter form
  // ---------------------------------------------------------------------

  /** A control of the contact or newsletter form: its value and its border. */
  datatype Control = Control(value: string, border: Border)

  /** The contact form's test of the name and of the message: a non-blank value. */
  predicate Filled(value: string) {
    Trim(value) != []
  }

  /** The contact form's test of the e-mail field: not blank, and accepted by the e-mail check. */
  predicate ContactEmailOk(value: string) {
    !(Trim(value) == [] || !Email.ValidateEmail(value))
  }

  /** The blank test in front of the e-mail check adds nothing: the check alone decides. */
  lemma ContactEmailIsEmailCheck(value: string)
    ensures ContactEmailOk(value) <==> Email.ValidateEmail(value)
  {
    if Email.ValidateEmail(value) {
      Email.ValidEmailNotBlank(value);
    }
  }

  /** The border a contact control has after a failed submission: danger if it failed, as before if it passed. */
  function AfterFailedSubmit(c: Control, ok: bool): Control {
    if ok then c else c.(border := Danger)
  }

  /** The `#contactForm` with its text, e-mail and message controls. */
  class ContactForm {
    var name: Control
    var email: Control
    var message: Control

    constructor (name: string, email: string, message: string)
      ensures this.name == Control(name, Unstyled)
      ensures this.email == Control(email, Unstyled)
      ensures this.message == Control(message, Unstyled)
    {
      this.name := Control(name, Unstyled);
      this.email := Control(email, Unstyled);
      this.message := Control(message, Unstyled);
    }

    /**
     * The `submit` listener (script.js:175-208): every failing control gets
     * the danger border; when none fails, the alert is shown, the form is
     * reset to empty values and all three borders become `#ddd`. After a
     * failed submission a control that passed keeps the border it had.
     */
    method Submit() returns (sent: bool)
      modifies this
      ensures sent <==> Filled(old(name.value)) && Email.ValidateEmail(old(email.value)) && Filled(old(message.value))
      ensures sent ==> name == Control("", Neutral) && email == Control("", Neutral) && message == Control("", Neutral)
      ensures !sent ==> name == AfterFailedSubmit(old(name), Filled(old(name.value)))
      ensures !sent ==> email == AfterFailedSubmit(old(email), ContactEmailOk(old(email.value)))
      ensures !sent ==> message == AfterFailedSubmit(old(message), Filled(old(message.value)))
    {
      ContactEmailIsEmailCheck(email.value);
      var isValid := true;
      if Trim(name.value) == [] {
        name := name.(border := Danger);
        isValid := false;
      }
      if Trim(email.value) == [] || !Email.ValidateEmail(email.value) {
        email := email.(border := Danger);
        isValid := false;
      }
      if Trim(message.value) == [] {
        message := message.(border := Danger);
        isValid := false;
      }
      if isValid {
        name, email, message := Control("", Neutral), Control("", Neutral), Control("", Neutral);
      }
      sent := isValid;
    }
  }

  /** The `#newsletterForm` with its e-mail control and the border resets its timer still owes. */
  class NewsletterForm {
    var email: Control
    var pendingBorderResets: nat

    constructor (email: string)
      ensures this.email == Control(email, Unstyled) && pendingBorderResets == 0
    {
      this.email := Control(email, Unstyled);
      pendingBorderResets := 0;
    }

    /**
     * The `submit` listener (script.js:214-227): an address the e-mail check
     * accepts is taken and the field cleared; anything else gets the danger
     * border and schedules a reset of it.
     */
    method Submit() returns (subscribed: bool)
      modifies this
      ensures subscribed <==> Email.ValidateEmail(old(email.value))
      ensures subscribed ==> email == old(email).(value := "") && pendingBorderResets == old(pendingBorderResets)
      ensures !subscribed ==> email == old(email).(border := Danger) && pendingBorderResets == old(pendingBorderResets) + 1
    {
      if Email.ValidateEmail(email.value) {
        Email.ValidEmailNotBlank(email.value);
      }
      if email.value != [] && Email.ValidateEmail(email.value) {
        email := email.(value := "");
        subscribed := true;
      } else {
        email := email.(border := Danger);
        pendingBorderResets := pendingBorderResets + 1;
        subscribed := false;
      }
    }

    /** The body of the 2-second timer (script.js:223-225): the border goes back to `#ddd`. */
    method BorderResetFires()
      requires pendingBorderResets > 0
      modifies this
      ensures email == old(email).(border := Neutral)
      ensures pendingBorderResets == old(pendingBorderResets) - 1
    {
      email := email.(border := Neutral);
      pendingBorderResets := pendingBorderResets - 1;
    }
  }
}
