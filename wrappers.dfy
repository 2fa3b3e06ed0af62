/** Nullable values and object keys, as the generated records use them. */
module Wrappers {

  /** A value that may be `null`. */
  datatype Option<+T> = None | Some(value: T)

  /** An object key of a JavaScript record: missing altogether, present with
      the value `null`, or present with a value. The generated records mix all
      three for their variant-specific keys (`countDays`, `countHours`,
      `sickNote`), so the model keeps them apart. */
  datatype Field<+T> = Missing | Null | Present(value: T)
}
