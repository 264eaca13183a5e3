/** Shared vocabulary: Java references that may be null, and calendar dates. */
module Common {

  /** A Java reference that may be `null` (None) or hold a value (Some). */
  datatype Option<+T> = None | Some(value: T)

  /** A `java.time.LocalDate`, as a day number. */
  type Date = int
}
