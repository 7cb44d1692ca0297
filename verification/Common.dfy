/** What several parts of the project need. */
module Common {

  /** Addresses have 32 bits. */
  const ADDRESS_SPACE: nat := 0x1_0000_0000

  datatype Option<+T> = None | Some(value: T)

  ghost predicate NoDuplicates<T(!new)>(s: seq<T>) {
    forall i, j :: 0 <= i < j < |s| ==> s[i] != s[j]
  }

  function PowerOfTwo(k: nat): (power: nat)
    ensures power >= 1
  {
    if k == 0 then 1 else 2 * PowerOfTwo(k - 1)
  }

  lemma {:induction false} PowerOfTwoGrows(k: nat, n: nat)
    requires k <= n
    ensures PowerOfTwo(k) <= PowerOfTwo(n)
    ensures k < n ==> 2 * PowerOfTwo(k) <= PowerOfTwo(n)
  {
    if n > 0 {
      if k < n {
        PowerOfTwoGrows(k, n - 1);
      } else {
        PowerOfTwoGrows(k - 1, n - 1);
      }
    }
  }
}
