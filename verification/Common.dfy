/** What several of the models use. */
module Common {

  datatype Option<+T> = None | Some(value: T)

  ghost predicate Distinct<E>(q: seq<E>) {
    forall i, j :: 0 <= i < j < |q| ==> q[i] != q[j]
  }

  function Pow2(n: nat): nat {
    if n == 0 then 1 else 2 * Pow2(n - 1)
  }

  /** The numbers from s to e, in order. */
  function UpFrom(s: nat, e: nat): (q: seq<nat>)
    requires s <= e
    ensures |q| == e - s && forall k :: 0 <= k < |q| ==> q[k] == s + k
  {
    seq(e - s, k requires 0 <= k < e - s => s + k)
  }
}
