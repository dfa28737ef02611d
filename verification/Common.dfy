/** What several components share. */
module Common {
  datatype Option<T> = None | Some(value: T)

  type byte = n: int | 0 <= n < 0x100

  lemma HeadTail<T>(s: seq<T>)
    requires s != []
    ensures [s[0]] + s[1..] == s
  {
  }
}
