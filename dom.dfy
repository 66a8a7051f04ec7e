/**
 * The small vocabulary of page state that the handlers write: a value that
 * may be absent, and the border colours given to form controls.
 */
module Dom {

  /** A value that may be missing: an absent element, or a handler returning `undefined`. */
  datatype Option<T> = None | Some(value: T)

  /**
   * The `style.borderColor` of a form control: never written by the script
   * yet (whatever the style sheet gives), `'#ddd'`, or `'var(--danger)'`.
   */
  datatype Border = Unstyled | Neutral | Danger

  /** The border a control gets after a check that passed or failed. */
  function BorderFor(ok: bool): Border
  {
    if ok then Neutral else Danger
  }
}
