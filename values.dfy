/** The dynamically typed Python values that flow through lookups and constants. */
module Values {

  /** `None`, an integer or a string; floats and other objects are not modelled. */
  datatype Value = Null | Int(i: int) | Str(s: string)
}
