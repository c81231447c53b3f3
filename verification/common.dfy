/**
 * Small shared vocabulary: an optional value, standing in for Java's
 * nullable references throughout the front end.
 */
module Common {

  /** `None` plays the role of a `null` reference. */
  datatype Option<+T> = None | Some(value: T)
}
