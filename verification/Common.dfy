/** Types that several components share. */
module Common {
  datatype Option<T> = None | Some(value: T)

  type byte = x: int | 0 <= x < 256

  type word = x: int | 0 <= x < 65536
}
