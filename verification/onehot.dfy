/** One-hot vectors over integers: the reference definition, the
    "entries are 0/1 and sum to exactly 1" characterisation, and the
    decoder that recovers the position of the single 1. */
module OneHots {

  /** The vector of length `n` whose only non-zero entry is a 1 at `k`. */
  function OneHot(n: nat, k: nat): (v: seq<int>)
    requires k < n
    ensures |v| == n
  {
    seq(n, i => if i == k then 1 else 0)
  }

  function Sum(v: seq<int>): int
  {
    if |v| == 0 then 0 else v[0] + Sum(v[1..])
  }

  predicate IsBinary(v: seq<int>)
  {
    forall i :: 0 <= i < |v| ==> v[i] == 0 || v[i] == 1
  }

  /** Every entry is 0 or 1, and the entries sum to exactly 1. */
  predicate IsOneHot(v: seq<int>)
  {
    IsBinary(v) && Sum(v) == 1
  }

  lemma {:induction false} SumOfZeros(v: seq<int>)
    requires forall i :: 0 <= i < |v| ==> v[i] == 0
    ensures Sum(v) == 0
  {
    if |v| > 0 {
      assert forall i :: 0 <= i < |v[1..]| ==> v[1..][i] == v[i + 1];
      SumOfZeros(v[1..]);
    }
  }

  /** A 0/1 vector sums to a count between 0 and its length. */
  lemma {:induction false} BinarySumBounds(v: seq<int>)
    requires IsBinary(v)
    ensures 0 <= Sum(v) <= |v|
  {
    if |v| > 0 {
      assert forall i :: 0 <= i < |v[1..]| ==> v[1..][i] == v[i + 1];
      BinarySumBounds(v[1..]);
    }
  }

  /** A 0/1 vector that sums to 0 has no 1 at all. */
  lemma {:induction false} BinaryZeroSum(v: seq<int>)
    requires IsBinary(v) && Sum(v) == 0
    ensures forall i :: 0 <= i < |v| ==> v[i] == 0
  {
    if |v| > 0 {
      var rest := v[1..];
      assert forall i :: 0 <= i < |rest| ==> rest[i] == v[i + 1];
      BinarySumBounds(rest);
      BinaryZeroSum(rest);
      forall i | 0 < i < |v|
        ensures v[i] == 0
      {
        assert v[i] == rest[i - 1];
      }
    }
  }

  /** The reference vector is one-hot in the "0/1 entries summing to 1" sense. */
  lemma {:induction false} OneHotIsOneHot(n: nat, k: nat)
    requires k < n
    ensures IsOneHot(OneHot(n, k))
  {
    var v := OneHot(n, k);
    if k == 0 {
      SumOfZeros(v[1..]);
    } else {
      assert v[1..] == OneHot(n - 1, k - 1);
      OneHotIsOneHot(n - 1, k - 1);
    }
  }

  /** Prepending a 0 to a one-hot vector moves its 1 one place right. */
  lemma ConsZero(v: seq<int>, k: nat)
    requires |v| > 0 && v[0] == 0 && k < |v| - 1 && v[1..] == OneHot(|v| - 1, k)
    ensures v == OneHot(|v|, k + 1)
  {
    forall i | 0 < i < |v|
      ensures v[i] == OneHot(|v|, k + 1)[i]
    {
      assert v[i] == v[1..][i - 1];
    }
  }

  /** The position of the single 1 of a one-hot vector. */
  function HotIndex(v: seq<int>): (k: nat)
    requires IsOneHot(v)
    ensures k < |v| && v == OneHot(|v|, k)
  {
    var rest := v[1..];
    assert forall i :: 0 <= i < |rest| ==> rest[i] == v[i + 1];
    if v[0] == 1 then
      BinaryZeroSum(rest);
      assert v == OneHot(|v|, 0) by {
        forall i | 0 < i < |v|
          ensures v[i] == 0
        {
          assert v[i] == rest[i - 1];
        }
      }
      0
    else
      var j := HotIndex(rest);
      ConsZero(v, j);
      j + 1
  }

  /** The two readings of "one-hot" agree, in both directions. */
  lemma OneHotCharacterization(v: seq<int>)
    ensures IsOneHot(v) <==> exists k :: 0 <= k < |v| && v == OneHot(|v|, k)
  {
    if IsOneHot(v) {
      var k := HotIndex(v);
      assert v == OneHot(|v|, k);
    }
    if exists k :: 0 <= k < |v| && v == OneHot(|v|, k) {
      var k :| 0 <= k < |v| && v == OneHot(|v|, k);
      OneHotIsOneHot(|v|, k);
    }
  }

  /** Decoding the reference vector gives back the position it was built from. */
  lemma HotIndexOfOneHot(n: nat, k: nat)
    requires k < n
    ensures IsOneHot(OneHot(n, k)) && HotIndex(OneHot(n, k)) == k
  {
    OneHotIsOneHot(n, k);
    var j := HotIndex(OneHot(n, k));
    assert OneHot(n, j)[j] == 1;
  }
}
