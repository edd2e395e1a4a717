/** Small shared vocabulary: optional values, instants, and ids in order. */
module Prelude {

  datatype Option<+T> = None | Some(value: T)

  /** An instant, or a duration, in the unit of the clock that produced it. */
  type Time = int

  lemma SubsetSize<T>(a: set<T>, b: set<T>)
    requires a <= b
    ensures |a| <= |b|
  {
    assert b == a + (b - a);
  }

  predicate Increasing(ids: seq<nat>) {
    forall a, b :: 0 <= a < b < |ids| ==> ids[a] < ids[b]
  }

  lemma IncreasingPush(ids: seq<nat>, id: nat)
    requires Increasing(ids) && (ids != [] ==> ids[|ids| - 1] < id)
    ensures Increasing(ids + [id])
    ensures forall other :: other in ids ==> other < id
  {
  }
}
