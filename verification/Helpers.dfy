/** Small helpers shared by the modules of this project. */
module Helpers {

  function Bit(b: bool): nat { if b then 1 else 0 }

  lemma Associative<T>(a: seq<T>, b: seq<T>, c: seq<T>)
    ensures a + b + c == a + (b + c)
  {
  }

  lemma SubsetSize<T>(a: set<T>, b: set<T>)
    requires a <= b
    ensures |a| <= |b|
  {
    assert b == a + (b - a);
  }

  lemma {:induction false} DistinctSize<T>(queue: seq<T>)
    requires forall y :: multiset(queue)[y] <= 1
    ensures |set y | y in queue| == |queue|
  {
    if queue != [] {
      var n := |queue| - 1;
      assert queue == queue[..n] + [queue[n]];
      assert multiset(queue) == multiset(queue[..n]) + multiset{queue[n]};
      forall y ensures multiset(queue[..n])[y] <= 1 {
        assert multiset(queue)[y] <= 1;
      }
      DistinctSize(queue[..n]);
      assert multiset(queue)[queue[n]] <= 1;
      assert queue[n] !in queue[..n];
      assert (set y | y in queue) == (set y | y in queue[..n]) + {queue[n]};
    }
  }
}
