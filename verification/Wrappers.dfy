/** What several components use. */
module Wrappers {
  datatype Option<+T> = None | Some(value: T)

  /** lua/llimits.h:35 */
  const MAX_INT := 0x7FFF_FFFD

  /** Concatenations may be grouped in any way. */
  lemma Assoc<T>(a: seq<T>, b: seq<T>, c: seq<T>)
    ensures (a + b) + c == a + (b + c)
  {
  }
}
