/** Two operations every account of the active-task queue uses, whatever its entries are. */
module Search {

  /** The first position of `id`, or the length of the list. */
  function FirstIndex(ids: seq<int>, id: int): (k: nat)
    ensures k <= |ids|
    ensures forall i :: 0 <= i < k ==> ids[i] != id
    ensures k < |ids| ==> ids[k] == id
  {
    if ids == [] || ids[0] == id then 0 else 1 + FirstIndex(ids[1..], id)
  }

  /** The list without the entry at one position. */
  function CutOut<T>(q: seq<T>, k: nat): seq<T>
    requires k < |q|
  {
    q[..k] + q[k + 1..]
  }
}
