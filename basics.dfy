/** Value types shared by every table of the library schema. */
module Basics {

  /** A nullable column or an optional argument. */
  datatype Option<+T> = None | Some(value: T)

  /** The ways a store call or a lookup can fail. */
  datatype Error =
    | NotFound                 // the row looked up, or the parent a new row points at, is absent
    | ConstraintViolation      // a unique index or a CHECK constraint refuses the write
    | ValidationError          // a value outside its field's declared choices
    | MultipleObjectsReturned  // a lookup on a non-key column matched several rows

  datatype Result<+T> = Ok(value: T) | Err(error: Error)

  /** Primary keys: auto-incremented, never reused. */
  type Id = nat

  /** A DateField value. */
  datatype Date = Date(year: int, month: int, day: int)

  /** A DateTimeField value; the clock itself is left to the caller. */
  type Timestamp = int
}
