/** Values shared by every module of the model. */
module Common {

  /** A value that may be absent: PHP's `null`/`false` results and JavaScript's `null`. */
  datatype Option<+T> = None | Some(value: T)

  /** PHP's truthiness of a string: the empty string and "0" are false, everything else is true. */
  predicate StringTruthy(s: string) {
    s != "" && s != "0"
  }
}
