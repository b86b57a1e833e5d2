/** What several components share. */
module Common {
  datatype Option<T> = None | Some(value: T)

  lemma ProductBounds(x: int, m: int)
    requires m >= 0
    ensures x >= 1 ==> x * m >= m
    ensures x <= -1 ==> x * m <= -m
  {
  }
}
