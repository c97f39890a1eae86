/** What several parts of the system share. */
module Common {
  /** One past the largest 48-bit word, and one past the largest 24-bit half. */
  const WORDS: nat := 0x1_0000_0000_0000
  const HALF: nat := 0x100_0000

  datatype Option<+T> = None | Some(value: T)

  predicate NoDup(l: seq<nat>) {
    forall i, j :: 0 <= i < j < |l| ==> l[i] != l[j]
  }
}
