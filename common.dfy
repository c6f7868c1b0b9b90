/** Small value types shared by the page and the report. */
module Common {

  datatype Option<+T> = None | Some(value: T)

  datatype Result<+T, +E> = Success(value: T) | Failure(error: E)

  /** A value thrown or rejected in the browser: an `Error` object, recording whether it is
      a `TypeError` and its `message`, or any other value. */
  datatype Thrown = JsError(isTypeError: bool, message: string) | NonError

  /** `s.includes(part)`: `part` occurs in `s` as a contiguous slice. */
  predicate Contains(s: string, part: string)
  {
    part <= s || (|s| > 0 && Contains(s[1..], part))
  }
}

/** The label record returned by the moderation endpoint and shown by the report. */
module ModerationLabels {

  /** One moderation label: `Confidence` is a percentage, `ParentName` may be empty. */
  datatype Label = Label(confidence: real, name: string, parentName: string, taxonomyLevel: int)
}
