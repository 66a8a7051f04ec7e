# Client-side behaviour of the SLAWS site, in Dafny

This project models the client-side logic of the site's single script,
`script.js`, and proves what it does:

- the phone field's formatter and its check on blur;
- the e-mail check that three forms share;
- field-by-field validation of the booking form, with its submission and its
  delayed reset;
- the contact form and the newsletter form;
- the character counter under the message box;
- the mobile menu's state machine;
- the mute toggle of the music player.

The JavaScript string operations the script relies on are written out in
module `JsText`:

- `\s` and `String.prototype.trim` share one whitespace set;
- `\d` means ASCII digits only;
- `replace(/\D/g, '')` keeps only the digits;
- `substring` clamps its arguments and swaps them when they are out of order.

The regular expressions are read character by character rather than
compiled.

Modules, one per area of the script:

- `JsText`: the string primitives, their lemmas, and decimal rendering.
  Rendering has a parsing partner and a round-trip lemma.
- `Dom`: `Option` and the border colours the handlers write.
- `Phone`: the formatter is specified by the pure function `Display`.
  - The lemmas prove the layouts it produces, that its digits are the prefixed input cut to twelve, and that it is idempotent. The layout contains exactly the information in its digits (`ShapeRoundTrip`).
  - The blur check accepts a formatted value exactly when the prefixed digit string has at least 11 digits.
  - The class `PhoneInput` holds the two listeners as methods: the formatter builds its value by successive appends, as the script does.
- `Email`: `validateEmail` as the regular expression reads. It is proved equivalent to a field-by-field description: no whitespace, exactly one `@`, a non-empty local part, and a domain with an inner dot.
- `Forms`:
  - `validateField` is the method `Field.Validate`. It is specified by the rule predicates and by the message that the sequence of overwriting assignments leaves behind.
  - `validateBookingForm` is a loop over the fields. It validates every field without short-circuiting.
  - The booking form's submission and reset timer, and the contact and newsletter forms, are classes whose methods state their whole new state.
- `CharCounter`: the counter's colour and text.
  - The thresholds are tested in the order written. The `> 1000` branch comes after `> 500`, so it can never be taken, and 1001 characters still get the warning colour.
  - The counter text reads back as the length.
- `Menu`: the menu's state is the list's `active` class, the icon classes, the button label, and the links' `active` flags.
  - Toggling and clicking outside always leave the icon and label consistent with the state.
  - A link click, Escape, and a resize above 768 pixels preserve that consistency and leave the menu closed.
  - A link click marks exactly one link active.
- `Audio`: the play and pause labels, and the volume button. Every click on the volume button leaves it showing the muted flag; clicks on play and pause leave the volume button as it was.

Inputs from the browser appear as parameters: today's date (a day
ordinal), where a document click landed, the key pressed, and the window
width. The day a date field denotes is the `day` field of the control's
`Forms.Entry`.

The definitions the lemmas and methods are proved against:

- `Phone.Display` and `Phone.Render` (script.js:94-114) are what the phone
  formatter assigns.
- `Phone.PhonePattern` (script.js:118) is `/^\+374\s\d{2}\s\d{6,7}$/`.
- `Email.ValidateEmail` (script.js:295-298) is `validateEmail`'s regular expression.
- `Forms.RequiredRule`, `Forms.EmailRule` and `Forms.DateRule`
  (script.js:242-264) are the conditions under which `validateField`
  assigns each message; `Forms.RuleMessage` is the message that survives.
- `CharCounter.CounterColor` and `CharCounter.CounterText`
  (script.js:356-364) are the counter's colour and text.
- `Menu.MobileMenu.Consistent` (script.js:19-31) and
  `Audio.AudioControls.Indicated` (script.js:319-329) are the invariants
  that the icons and labels agree with the state.

## Model

| member | source | states |
|---|---|---|
| JsText.DigitsOnly | script.js:95 | `value.replace(/\D/g, '')` yields only ASCII digits and is never longer than its input |
| JsText.DigitsOnlyConcat | script.js:95 | stripping non-digits distributes over concatenation |
| JsText.DigitsOnlyOfDigits | script.js:95 | a string of digits is left unchanged |
| JsText.DigitsOnlyOfNonDigits | script.js:95 | a string without digits becomes empty |
| JsText.TrimStartFacts | script.js:121 | trimming the front drops a prefix made only of whitespace, and the result is empty or starts with a non-space |
| JsText.TrimEndFacts | script.js:121 | trimming the back drops a suffix made only of whitespace, and the result is empty or ends with a non-space |
| JsText.TrimFacts | script.js:242 | `trim()` is never longer than its input and is empty exactly when the input is all whitespace; a non-empty result has non-space ends; a value that already has non-space ends is unchanged |
| JsText.JsSubstringFacts | script.js:106-109 | `substring` gives the same result with its arguments swapped; the result is as long as the distance between the bounds clamped to the length, and is the run of the string starting at the smaller one |
| JsText.DecimalString | script.js:356 | a number renders as a non-empty digit string without a leading zero |
| JsText.ParseDecimalString | script.js:356 | reading the rendered digits back gives the number |
| Phone.DisplayFacts | script.js:94-114 | the formatter assigns a value exactly when the raw value has a digit; the value starts with `+374 `, has one of the layouts `+374 `, `+374 D `, `+374 DD D*` (at most seven trailing digits), and its digits are the first twelve of the prefixed digit string |
| Phone.DigitsOfLayout | script.js:104-110 | the digits of a layout are the country code, the area group and the subscriber group |
| Phone.RenderFacts | script.js:104-111 | a digit string with the country code renders into a valid layout that keeps its first twelve digits |
| Phone.ShapeParts | script.js:104-111 | the digits of each layout, group by group |
| Phone.ShapeRoundTrip | script.js:94-114 | rendering the digits of a layout gives the layout back, and those digits start with 374 and number at most twelve |
| Phone.DisplayIdempotent | script.js:94-114 | running the formatter on its own output changes nothing |
| Phone.PatternOfShape | script.js:118-121 | a formatted value passes `/^\+374\s\d{2}\s\d{6,7}$/` after trimming exactly when it has 14 or 15 characters |
| Phone.ShapeLength | script.js:104-111 | the number of digits of a layout is fixed by its length |
| Phone.PhoneAcceptance | script.js:94-132 | a formatted value passes the blur check exactly when the prefixed digit string has at least 11 digits |
| Phone.SubscriberAtMostSeven | script.js:108-110 | a formatted value has at most 15 characters and at most seven subscriber digits |
| Phone.PhoneInput.OnInput | script.js:94-114 | the field holds the formatter's output when the raw value has a digit, and is untouched otherwise |
| Phone.PhoneInput.OnBlur | script.js:117-132 | the border shows the check on the trimmed value; the error text is the message or empty when the element exists, and is untouched otherwise |
| Email.MatchHasShape | script.js:295-298 | an address that splits into three atoms at an `@` and a later `.` has the field-by-field shape |
| Email.ShapeMatches | script.js:295-298 | an address with the field-by-field shape matches the regular expression |
| Email.EmailCharacterization | script.js:295-298 | `validateEmail` holds exactly when there is no whitespace, one `@`, a non-empty local part and a domain with an inner dot |
| Email.ValidEmailNotBlank | script.js:218 | an accepted address is non-empty and non-blank, so the tests put in front of the check are redundant |
| Email.EmailExamples | script.js:295-298 | `a@b.co` is accepted; `a@b`, `a@.co` and `@b.co` are rejected |
| Forms.PassesIffNoMessage | script.js:239-276 | a control is valid exactly when no rule leaves a message |
| Forms.RequiredBlankFails | script.js:242-264 | a required blank control fails with the required message, unless it is a date control whose whitespace value denotes a past day, where the later date message overwrites it |
| Forms.RulesOverlap | script.js:242-264 | the e-mail rule never fires together with the required rule or with the date rule; the required and date rules fire together only on a non-empty all-whitespace value |
| Forms.EmailControlVerdict | script.js:242-253 | an e-mail control passes when blank and not required, or when non-blank and accepted by the e-mail check |
| Forms.DateControlVerdict | script.js:256-264 | a filled-in date control passes exactly when its date is invalid or not before today |
| Forms.Field.Validate | script.js:232-277 | without an error element: returns `undefined` and changes nothing; with one: returns whether the rules pass, and makes the error text the surviving message and the border the verdict |
| Forms.ValidateBookingForm | script.js:280-292 | every field is validated; the result is true exactly when each field has an error element and passes; values are unchanged and fields without an error element are untouched |
| Forms.BookingForm.Submit | script.js:141-157 | validates every field; when the form is valid, shows the success message with the success class and schedules one reset; otherwise leaves the feedback alone |
| Forms.BookingForm.ResetFires | script.js:151-155 | the reset empties every value, clears the feedback text and class, and leaves error texts and borders as they are |
| Forms.ContactEmailIsEmailCheck | script.js:189 | the contact form's "blank or invalid" test on the e-mail is exactly the e-mail check |
| Forms.ContactForm.Submit | script.js:175-208 | sent exactly when name and message are non-blank and the e-mail passes; then all three are emptied with `#ddd` borders; otherwise each failing control gets the danger border and the others keep theirs |
| Forms.NewsletterForm.Submit | script.js:214-227 | subscribed exactly when the e-mail check accepts the address; then the field is emptied; otherwise it gets the danger border and one border reset is scheduled |
| Forms.NewsletterForm.BorderResetFires | script.js:223-225 | the border goes back to `#ddd` and nothing else changes |
| CharCounter.CounterColor | script.js:358-364 | the colour is the warning colour exactly when the length exceeds 500, grey otherwise, and never the danger colour |
| CharCounter.CounterText | script.js:356 | the text is the decimal length followed by ` նիշ`, and its digits read back as the length |
| CharCounter.ThousandAndOne | script.js:355-364 | 1001 characters show `1001 նիշ` in the warning colour |
| CharCounter.Counter.OnInput | script.js:354-365 | the counter shows the text and the colour for the textarea's length |
| Menu.MobileMenu.Close | script.js:38-42 | the list is closed, `fa-times` is replaced by `fa-bars` among the icon classes, and the label offers to open; the state is consistent |
| Menu.MobileMenu.Toggle | script.js:19-31 | the open state flips, the icon and the label follow the new state, and the state is consistent whatever it was before |
| Menu.MobileMenu.ClickLink | script.js:36-47 | the menu ends closed, exactly the clicked link is active, and a consistent state stays consistent |
| Menu.MobileMenu.ClickDocument | script.js:52-59 | a click outside the button and the list closes the menu, open or not, and leaves it consistent; any other click changes nothing |
| Menu.MobileMenu.KeyDown | script.js:370-383 | Escape leaves the menu closed; other keys change nothing; a consistent state stays consistent |
| Menu.MobileMenu.Resize | script.js:397-411 | above 768 pixels the menu ends closed; at or below, nothing changes; a consistent state stays consistent |
| Audio.AudioControls.ClickPlay | script.js:308-311 | the play button is labelled "playing" |
| Audio.AudioControls.ClickPause | script.js:313-316 | the pause button is labelled "stopped" |
| Audio.AudioControls.ClickVolume | script.js:319-329 | the muted flag flips and the volume icon and label then show it |

## Left out

- Event registration, `querySelector` lookups and the DOM are not modelled. Each handler is a method on the state it reads and writes. Only pages that have the elements a handler needs are modelled.
- Timers (script.js:151, 223): `setTimeout` is not modelled. Each scheduled callback is a counter of pending runs plus a method for its body (`ResetFires`, `BorderResetFires`). No timing or interleaving is modelled.
- `alert`, the audio player's `play()`/`pause()` and `window.scrollTo` are foreign calls and are not modelled. Only the labels and flags the handlers set are kept.
- Smooth scrolling (script.js:65-87) is not modelled: layout offsets and `scrollTo` only.
- The footer year (script.js:335-340) is not modelled: it reads the clock.
- Tooltips and their delayed setup (script.js:430-467) are not modelled: floating-point positioning from `getBoundingClientRect`.
- The Tab outline (script.js:386-393) is not modelled: it writes style only.
- `simulateFormSubmission` (script.js:414-427) is not modelled: it is never called.
- Forms.Field.Validate: `new Date(value)` and the midnight of today are abstracted to a day ordinal, with `None` for an invalid date; parsing and time zones are not modelled.
- Forms.Field.Validate: each field owns its error text. When two fields share one `.error-message` element, the later validation overwrites the earlier one's text; that aliasing is not modelled.
- The booking fields' own `input` and `blur` listeners (script.js:162-168) are calls of `Field.Validate`. The order in which they run relative to the phone formatter's listeners on the same field is not modelled.
- Forms.BookingForm.ResetFires and Forms.ContactForm.Submit: `reset()` is modelled as restoring empty default values.
- Lengths count Dafny characters. JavaScript counts UTF-16 code units, which differ only for characters outside the Basic Multilingual Plane.
- Menu.MobileMenu.KeyDown: the Escape handler uses the menu button without checking that it exists. Only pages with both the button and the list are modelled, so that failure is not modelled.
- The volume listener exists only when the page has a volume button. `AudioControls` models a page that has all four elements.
