/** Comparing two secrets without stopping at the first difference. */
module SecretEquality {

  /** Folds every difference between `left` and `right` into `different`, one byte at a time. */
  function Fold(left: seq<bv8>, right: seq<bv8>, different: bv8): bv8
    requires |left| == |right|
  {
    if left == [] then different else Fold(left[1..], right[1..], different | (left[0] ^ right[0]))
  }

  /** `SecretValue::eq`. */
  predicate Same(left: seq<bv8>, right: seq<bv8>) {
    |left| == |right| && Fold(left, right, 0) == 0
  }

  lemma OrKeeps(x: bv8, y: bv8)
    ensures x | y == 0 <==> x == 0 && y == 0
  {
  }

  lemma XorSeparates(x: bv8, y: bv8)
    ensures x ^ y == 0 <==> x == y
  {
  }

  lemma {:induction false} FoldSeparates(left: seq<bv8>, right: seq<bv8>, different: bv8)
    requires |left| == |right|
    ensures Fold(left, right, different) == 0 <==> different == 0 && left == right
  {
    if left != [] {
      FoldSeparates(left[1..], right[1..], different | (left[0] ^ right[0]));
      OrKeeps(different, left[0] ^ right[0]);
      XorSeparates(left[0], right[0]);
      assert left == [left[0]] + left[1..] && right == [right[0]] + right[1..];
    }
  }

  /** The fold over all bytes decides exactly equality: nothing cancels out. */
  lemma SameIffEqual(left: seq<bv8>, right: seq<bv8>)
    ensures Same(left, right) <==> left == right
  {
    if |left| == |right| {
      FoldSeparates(left, right, 0);
    }
  }
}
