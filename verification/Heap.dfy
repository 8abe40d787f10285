// The binary-heap algorithm of Go's container/heap on sequences, for any
// ordering: sift up, sift down, push, pop and fix, and what they keep.
module Heap {
  // `less` is asymmetric and "not less" is transitive.
  ghost predicate Ordered<T(!new)>(less: (T, T) -> bool) {
    && (forall a, b :: less(a, b) ==> !less(b, a))
    && (forall a, b, c :: !less(a, b) && !less(b, c) ==> !less(a, c))
  }

  function Parent(i: nat): (parent: nat)
    requires i > 0
    ensures parent < i
  {
    (i - 1) / 2
  }

  function Swap<T>(s: seq<T>, i: nat, j: nat): (s': seq<T>)
    requires i < |s| && j < |s|
    ensures |s'| == |s|
  {
    s[i := s[j]][j := s[i]]
  }

  lemma SwapPermutes<T>(s: seq<T>, i: nat, j: nat)
    requires i < |s| && j < |s|
    ensures multiset(Swap(s, i, j)) == multiset(s)
  {
  }

  function Up<T>(less: (T, T) -> bool, s: seq<T>, j: nat): (s': seq<T>)
    requires j < |s|
    ensures |s'| == |s|
    decreases j
  {
    if j == 0 || !less(s[j], s[Parent(j)]) then s
    else Up(less, Swap(s, Parent(j), j), Parent(j))
  }

  // The child of i within the first n elements that comes first, if it comes
  // before i.
  predicate Sinks<T>(less: (T, T) -> bool, s: seq<T>, i: nat, n: nat)
    requires i < n <= |s|
  {
    2 * i + 1 < n && less(s[Child(less, s, i, n)], s[i])
  }

  function Child<T>(less: (T, T) -> bool, s: seq<T>, i: nat, n: nat): (child: nat)
    requires 2 * i + 1 < n <= |s|
    ensures i < child < n && Parent(child) == i
  {
    if 2 * i + 2 < n && less(s[2 * i + 2], s[2 * i + 1]) then 2 * i + 2 else 2 * i + 1
  }

  function Down<T>(less: (T, T) -> bool, s: seq<T>, i: nat, n: nat): (s': seq<T>)
    requires i < n <= |s|
    ensures |s'| == |s|
    ensures forall k | n <= k < |s| :: s'[k] == s[k]
    decreases n - i
  {
    if !Sinks(less, s, i, n) then s
    else
      var child := Child(less, s, i, n);
      Down(less, Swap(s, i, child), child, n)
  }

  function Push<T>(less: (T, T) -> bool, s: seq<T>, x: T): (s': seq<T>) {
    Up(less, s + [x], |s|)
  }

  function Pop<T>(less: (T, T) -> bool, s: seq<T>): (s': seq<T>)
    requires s != []
  {
    var n := |s| - 1;
    if n == 0 then [] else Down(less, Swap(s, 0, n), 0, n)[..n]
  }

  function Fix<T>(less: (T, T) -> bool, s: seq<T>, i: nat): (s': seq<T>)
    requires i < |s|
    ensures |s'| == |s|
  {
    if Sinks(less, s, i, |s|) then Down(less, s, i, |s|) else Up(less, s, i)
  }

  // ------------------------------------------------------------------- order

  ghost predicate InOrder<T>(less: (T, T) -> bool, s: seq<T>, i: nat)
    requires 0 < i < |s|
  {
    !less(s[i], s[Parent(i)])
  }

  // Heap order on the first n elements.
  ghost predicate IsHeap<T>(less: (T, T) -> bool, s: seq<T>, n: nat)
    requires n <= |s|
  {
    forall i: nat | 0 < i < n :: InOrder(less, s, i)
  }

  // The children of k do not come before the parent of k.
  ghost predicate Bridged<T>(less: (T, T) -> bool, s: seq<T>, n: nat, k: nat)
    requires n <= |s|
  {
    k > 0 ==> forall c: nat | 0 < c < n && Parent(c) == k :: !less(s[c], s[Parent(k)])
  }

  lemma {:induction false} UpRestores<T(!new)>(less: (T, T) -> bool, s: seq<T>, j: nat)
    requires Ordered(less) && j < |s|
    requires forall i: nat | 0 < i < |s| && i != j :: InOrder(less, s, i)
    requires Bridged(less, s, |s|, j)
    ensures IsHeap(less, Up(less, s, j), |s|)
    ensures multiset(Up(less, s, j)) == multiset(s)
    decreases j
  {
    if j != 0 && less(s[j], s[Parent(j)]) {
      var i := Parent(j);
      var t := Swap(s, i, j);
      forall k: nat | 0 < k < |t| && k != i
        ensures InOrder(less, t, k)
      {
        assert k != j ==> InOrder(less, s, k);
        if Parent(k) == i { assert i > 0 ==> InOrder(less, s, i); }
      }
      forall c: nat | 0 < c < |t| && Parent(c) == i && i > 0
        ensures !less(t[c], t[Parent(i)])
      {
        assert InOrder(less, s, i);
        assert c != j ==> InOrder(less, s, c);
      }
      SwapPermutes(s, i, j);
      UpRestores(less, t, i);
    }
  }

  lemma {:induction false} DownRestores<T(!new)>(less: (T, T) -> bool, s: seq<T>, i: nat, n: nat)
    requires Ordered(less) && i < n <= |s|
    requires forall k: nat | 0 < k < n && Parent(k) != i :: InOrder(less, s, k)
    requires Bridged(less, s, n, i)
    ensures IsHeap(less, Down(less, s, i, n), n)
    ensures multiset(Down(less, s, i, n)) == multiset(s)
    decreases n - i
  {
    if Sinks(less, s, i, n) {
      var child := Child(less, s, i, n);
      SunkOrder(less, s, i, n);
      SwapPermutes(s, i, child);
      DownRestores(less, Swap(s, i, child), child, n);
    } else {
      forall k: nat | 0 < k < n && Parent(k) == i
        ensures InOrder(less, s, k)
      {
        assert k == 2 * i + 1 || k == 2 * i + 2;
      }
    }
  }

  // One step down moves the only place that can be out of order.
  lemma SunkOrder<T(!new)>(less: (T, T) -> bool, s: seq<T>, i: nat, n: nat)
    requires Ordered(less) && i < n <= |s| && Sinks(less, s, i, n)
    requires forall k: nat | 0 < k < n && Parent(k) != i :: InOrder(less, s, k)
    requires Bridged(less, s, n, i)
    ensures var child := Child(less, s, i, n);
            && (forall k: nat | 0 < k < n && Parent(k) != child :: InOrder(less, Swap(s, i, child), k))
            && Bridged(less, Swap(s, i, child), n, child)
  {
    var child := Child(less, s, i, n);
    var t := Swap(s, i, child);
    forall k: nat | 0 < k < n && Parent(k) != child
      ensures InOrder(less, t, k)
    {
      if Parent(k) == i {
        assert k == 2 * i + 1 || k == 2 * i + 2;
      } else {
        assert InOrder(less, s, k);
      }
    }
    forall c: nat | 0 < c < n && Parent(c) == child
      ensures !less(t[c], t[Parent(child)])
    {
      assert InOrder(less, s, c);
    }
  }

  // The root of a heap: nothing in it comes before the root.
  lemma {:induction false} RootComesFirst<T(!new)>(less: (T, T) -> bool, s: seq<T>, i: nat)
    requires Ordered(less) && IsHeap(less, s, |s|) && i < |s|
    ensures !less(s[i], s[0])
    decreases i
  {
    if i > 0 {
      assert InOrder(less, s, i);
      RootComesFirst(less, s, Parent(i));
    }
  }

  lemma PushKeeps<T(!new)>(less: (T, T) -> bool, s: seq<T>, x: T)
    requires Ordered(less) && IsHeap(less, s, |s|)
    ensures var s' := Push(less, s, x);
            && |s'| == |s| + 1 && IsHeap(less, s', |s'|)
            && multiset(s') == multiset(s) + multiset{x}
  {
    var t := s + [x];
    forall i: nat | 0 < i < |t| && i != |s|
      ensures InOrder(less, t, i)
    {
      assert InOrder(less, s, i);
    }
    UpRestores(less, t, |s|);
  }

  lemma PopKeeps<T(!new)>(less: (T, T) -> bool, s: seq<T>)
    requires Ordered(less) && s != [] && IsHeap(less, s, |s|)
    ensures var s' := Pop(less, s);
            && |s'| == |s| - 1 && IsHeap(less, s', |s'|)
            && multiset(s') == multiset(s) - multiset{s[0]}
  {
    var n := |s| - 1;
    if n > 0 {
      var t := Swap(s, 0, n);
      forall k: nat | 0 < k < n && Parent(k) != 0
        ensures InOrder(less, t, k)
      {
        assert InOrder(less, s, k);
      }
      SwapPermutes(s, 0, n);
      DownRestores(less, t, 0, n);
      var d := Down(less, t, 0, n);
      assert d == d[..n] + [s[0]];
      forall i: nat | 0 < i < n
        ensures InOrder(less, d[..n], i)
      {
        assert InOrder(less, d, i);
      }
    } else {
      assert s == [s[0]];
    }
  }

  // Replacing one element of a heap and fixing its place gives a heap again.
  lemma FixKeeps<T(!new)>(less: (T, T) -> bool, s: seq<T>, k: nat, x: T)
    requires Ordered(less) && k < |s| && IsHeap(less, s, |s|)
    ensures var s' := Fix(less, s[k := x], k);
            && IsHeap(less, s', |s'|)
            && multiset(s') == multiset(s[k := x])
  {
    var t := s[k := x];
    ReplacedOrder(less, s, k, x);
    if Sinks(less, t, k, |t|) {
      SinkRestores(less, t, k);
    } else {
      UnsunkOrder(less, t, k);
      UpRestores(less, t, k);
    }
  }

  lemma ReplacedOrder<T(!new)>(less: (T, T) -> bool, s: seq<T>, k: nat, x: T)
    requires Ordered(less) && k < |s| && IsHeap(less, s, |s|)
    ensures forall i: nat | 0 < i < |s| && i != k && Parent(i) != k :: InOrder(less, s[k := x], i)
    ensures Bridged(less, s[k := x], |s|, k)
  {
    var t := s[k := x];
    forall i: nat | 0 < i < |t| && i != k && Parent(i) != k
      ensures InOrder(less, t, i)
    {
      assert InOrder(less, s, i);
    }
    forall c: nat | 0 < c < |t| && Parent(c) == k && k > 0
      ensures !less(t[c], t[Parent(k)])
    {
      assert InOrder(less, s, c) && InOrder(less, s, k);
    }
  }

  // If the element at k does not sink, its children are in order.
  lemma UnsunkOrder<T(!new)>(less: (T, T) -> bool, t: seq<T>, k: nat)
    requires Ordered(less) && k < |t| && !Sinks(less, t, k, |t|)
    requires forall i: nat | 0 < i < |t| && i != k && Parent(i) != k :: InOrder(less, t, i)
    ensures forall i: nat | 0 < i < |t| && i != k :: InOrder(less, t, i)
  {
    forall i: nat | 0 < i < |t| && i != k
      ensures InOrder(less, t, i)
    {
      if Parent(i) == k { assert i == 2 * k + 1 || i == 2 * k + 2; }
    }
  }

  // An element that sinks is replaced by a child of its old place, which does
  // not come before the parent of that place.
  lemma SinkRestores<T(!new)>(less: (T, T) -> bool, s: seq<T>, k: nat)
    requires Ordered(less) && k < |s| && Sinks(less, s, k, |s|)
    requires forall i: nat | 0 < i < |s| && i != k && Parent(i) != k :: InOrder(less, s, i)
    requires Bridged(less, s, |s|, k)
    ensures IsHeap(less, Down(less, s, k, |s|), |s|)
    ensures multiset(Down(less, s, k, |s|)) == multiset(s)
  {
    var child := Child(less, s, k, |s|);
    var t := Swap(s, k, child);
    forall i: nat | 0 < i < |t| && Parent(i) != child
      ensures InOrder(less, t, i)
    {
      if Parent(i) == k {
        assert i == 2 * k + 1 || i == 2 * k + 2;
      } else if i != k {
        assert InOrder(less, s, i);
      }
    }
    forall c: nat | 0 < c < |t| && Parent(c) == child
      ensures !less(t[c], t[Parent(child)])
    {
      assert InOrder(less, s, c);
    }
    SwapPermutes(s, k, child);
    DownRestores(less, t, child, |t|);
  }

  // ------------------------------------------------------------------- loops

  method SiftUp<T>(less: (T, T) -> bool, s: seq<T>, j: nat) returns (s': seq<T>)
    requires j < |s|
    ensures s' == Up(less, s, j)
  {
    s' := s;
    var k: nat := j;
    while k != 0 && less(s'[k], s'[Parent(k)])
      invariant |s'| == |s| && k < |s|
      invariant Up(less, s', k) == Up(less, s, j)
      decreases k
    {
      s' := Swap(s', Parent(k), k);
      k := Parent(k);
    }
  }

  method SiftDown<T>(less: (T, T) -> bool, s: seq<T>, i: nat, n: nat) returns (s': seq<T>, moved: bool)
    requires i < n <= |s|
    ensures s' == Down(less, s, i, n)
    ensures moved == Sinks(less, s, i, n)
  {
    s' := s;
    var k: nat := i;
    while Sinks(less, s', k, n)
      invariant |s'| == |s| && i <= k < n
      invariant k == i ==> s' == s
      invariant k > i ==> Sinks(less, s, i, n)
      invariant Down(less, s', k, n) == Down(less, s, i, n)
      decreases n - k
    {
      var child := Child(less, s', k, n);
      s' := Swap(s', k, child);
      k := child;
    }
    moved := k > i;
  }
}
