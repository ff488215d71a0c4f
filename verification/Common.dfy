/** Datatypes shared by the modules of this project. */
module Common {

  newtype byte = b: int | 0 <= b < 256

  datatype Option<+T> = None | Some(value: T)

  /** The value a Python function returns, or the error it raises. */
  datatype Result<+T, +E> = Ok(value: T) | Err(error: E)

  /** str.isspace on one character. */
  predicate IsSpace(c: char) {
    var k := c as int;
    || 9 <= k <= 13 || 28 <= k <= 32 || 0x2000 <= k <= 0x200A
    || k in {0x85, 0xA0, 0x1680, 0x2028, 0x2029, 0x202F, 0x205F, 0x3000}
  }
}
