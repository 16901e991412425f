/** The binary min-heap algorithm of Go's container/heap, on a sequence of keys. */
module HeapSpec {
  function Parent(k: nat): nat
    requires k > 0
  {
    (k - 1) / 2
  }

  function SwapAt<T>(s: seq<T>, i: nat, j: nat): seq<T>
    requires i < |s| && j < |s|
  {
    s[i := s[j]][j := s[i]]
  }

  /** Moves key j towards the root while it is smaller than its parent. */
  function Up(ks: seq<int>, j: nat): seq<int>
    requires j < |ks|
    decreases j
  {
    if j == 0 || ks[j] >= ks[Parent(j)] then ks else Up(SwapAt(ks, Parent(j), j), Parent(j))
  }

  function SmallerChild(ks: seq<int>, i: nat, n: nat): nat
    requires 2 * i + 1 < n <= |ks|
  {
    if 2 * i + 2 < n && ks[2 * i + 2] < ks[2 * i + 1] then 2 * i + 2 else 2 * i + 1
  }

  /** Where key i goes next: to its smaller child if that is smaller, else nowhere. */
  function SinkTarget(ks: seq<int>, i: nat, n: nat): (j: nat)
    requires i < |ks| && n <= |ks|
    ensures j == i || i < j < n
  {
    if 2 * i + 1 >= n || ks[SmallerChild(ks, i, n)] >= ks[i] then i else SmallerChild(ks, i, n)
  }

  datatype Sunk = Sunk(keys: seq<int>, at: nat)

  /** Moves key i away from the root, among the first n keys, while a child is smaller. */
  function Down(ks: seq<int>, i: nat, n: nat): (r: Sunk)
    requires i < |ks| && n <= |ks|
    ensures i <= r.at
    decreases n - i
  {
    var j := SinkTarget(ks, i, n);
    if j == i then Sunk(ks, i) else Down(SwapAt(ks, i, j), j, n)
  }

  /** Among the first n keys, every key is at least its parent. */
  ghost predicate IsHeap(ks: seq<int>, n: nat) {
    n <= |ks| && forall k | 0 < k < n :: ks[Parent(k)] <= ks[k]
  }

  /** A heap but for the edge above j; what is below j is also at least j's parent. */
  ghost predicate HeapButAbove(ks: seq<int>, n: nat, j: nat) {
    && n <= |ks| && j < n
    && (forall k | 0 < k < n && k != j :: ks[Parent(k)] <= ks[k])
    && (forall k | 0 < k < n && j > 0 && Parent(k) == j :: ks[Parent(j)] <= ks[k])
  }

  /** A heap but for the edges below i; what is below i is also at least i's parent. */
  ghost predicate HeapButBelow(ks: seq<int>, n: nat, i: nat) {
    && n <= |ks|
    && (forall k | 0 < k < n && Parent(k) != i :: ks[Parent(k)] <= ks[k])
    && (forall k | 0 < k < n && i > 0 && Parent(k) == i :: ks[Parent(i)] <= ks[k])
  }

  /** A heap but for the edges at i; what is below i is at least i's parent. */
  ghost predicate HeapButAt(ks: seq<int>, n: nat, i: nat) {
    && n <= |ks| && i < n
    && (forall k | 0 < k < n && k != i && Parent(k) != i :: ks[Parent(k)] <= ks[k])
    && (forall k | 0 < k < n && i > 0 && Parent(k) == i :: ks[Parent(i)] <= ks[k])
  }

  lemma {:induction false} UpKeepsLength(ks: seq<int>, j: nat, n: nat)
    requires j < n <= |ks|
    ensures |Up(ks, j)| == |ks| && forall k | n <= k < |ks| :: Up(ks, j)[k] == ks[k]
    decreases j
  {
    if j > 0 && ks[j] < ks[Parent(j)] { UpKeepsLength(SwapAt(ks, Parent(j), j), Parent(j), n); }
  }

  lemma {:induction false} DownKeepsLength(ks: seq<int>, i: nat, n: nat)
    requires i < |ks| && n <= |ks|
    ensures |Down(ks, i, n).keys| == |ks| && forall k | n <= k < |ks| && k != i :: Down(ks, i, n).keys[k] == ks[k]
    decreases n - i
  {
    if 2 * i + 1 < n {
      var j := SmallerChild(ks, i, n);
      if ks[j] < ks[i] { DownKeepsLength(SwapAt(ks, i, j), j, n); }
    }
  }

  lemma {:induction false} UpRestores(ks: seq<int>, n: nat, j: nat)
    requires HeapButAbove(ks, n, j)
    ensures |Up(ks, j)| == |ks| && IsHeap(Up(ks, j), n)
    decreases j
  {
    if j > 0 && ks[j] < ks[Parent(j)] {
      var p, now := Parent(j), SwapAt(ks, Parent(j), j);
      forall k | 0 < k < n && k != p ensures now[Parent(k)] <= now[k] { }
      forall k | 0 < k < n && p > 0 && Parent(k) == p ensures now[Parent(p)] <= now[k] {
        assert ks[Parent(p)] <= ks[p];
        if k != j { assert ks[p] <= ks[k]; }
      }
      UpRestores(now, n, p);
    }
  }

  lemma {:induction false} DownRestores(ks: seq<int>, n: nat, i: nat)
    requires HeapButBelow(ks, n, i) && i < |ks|
    ensures |Down(ks, i, n).keys| == |ks| && IsHeap(Down(ks, i, n).keys, n)
    decreases n - i
  {
    var j := SinkTarget(ks, i, n);
    if j == i {
    } else {
      SwapDownMovesHole(ks, n, i);
      DownRestores(SwapAt(ks, i, j), n, j);
    }
  }

  /** Swapping i with its smaller child moves the trouble below that child, and repairs i. */
  lemma {:induction false} SwapDownMovesHole(ks: seq<int>, n: nat, i: nat)
    requires (HeapButBelow(ks, n, i) || HeapButAt(ks, n, i)) && i < |ks|
    requires 2 * i + 1 < n && ks[SmallerChild(ks, i, n)] < ks[i]
    ensures HeapButBelow(SwapAt(ks, i, SmallerChild(ks, i, n)), n, SmallerChild(ks, i, n))
  {
    var j := SmallerChild(ks, i, n);
    var now := SwapAt(ks, i, j);
    assert Parent(j) == i;
    forall k | 0 < k < n && Parent(k) != j ensures now[Parent(k)] <= now[k] {
      if k == i {
        assert ks[Parent(i)] <= ks[j];
      } else if Parent(k) == i {
        assert k == 2 * i + 1 || k == 2 * i + 2;
      }
    }
    forall k | 0 < k < n && j > 0 && Parent(k) == j ensures now[Parent(j)] <= now[k] {
      assert ks[j] <= ks[k];
    }
  }

  /** Repairing around i: sinking either moves the key and restores the heap, or leaves only the edge above i. */
  lemma {:induction false} DownRepairs(ks: seq<int>, n: nat, i: nat)
    requires HeapButAt(ks, n, i)
    ensures var r := Down(ks, i, n);
            |r.keys| == |ks| && if r.at > i then IsHeap(r.keys, n) else r.keys == ks && HeapButAbove(ks, n, i)
  {
    var j := SinkTarget(ks, i, n);
    if j == i {
    } else {
      SwapDownMovesHole(ks, n, i);
      DownRestores(SwapAt(ks, i, j), n, j);
    }
  }

  lemma {:induction false} RootIsLeast(ks: seq<int>, n: nat, k: nat)
    requires IsHeap(ks, n) && k < n
    ensures ks[0] <= ks[k]
    decreases k
  {
    if k > 0 { RootIsLeast(ks, n, Parent(k)); }
  }

  /** Restores the heap after the key at i changed: sink it, and if it does not move, raise it. */
  function Fixed(ks: seq<int>, i: nat, n: nat): seq<int>
    requires i < n <= |ks|
  {
    var r := Down(ks, i, n);
    DownKeepsLength(ks, i, n);
    if r.at > i then r.keys else Up(r.keys, i)
  }

  lemma {:induction false} FixedIsHeap(ks: seq<int>, i: nat, n: nat)
    requires HeapButAt(ks, n, i)
    ensures |Fixed(ks, i, n)| == |ks| && IsHeap(Fixed(ks, i, n), n)
  {
    DownRepairs(ks, n, i);
    if Down(ks, i, n).at == i { UpRestores(ks, n, i); }
  }

  /** Swapping key i with the last one and repairing around i leaves a heap before the end. */
  lemma {:induction false} RemovalIsHeap(ks: seq<int>, i: nat)
    requires i < |ks| - 1 && IsHeap(ks, |ks|)
    ensures var n := |ks| - 1; var fixed := Fixed(SwapAt(ks, i, n), i, n);
            |fixed| == |ks| && IsHeap(fixed[..n], n)
  {
    var n := |ks| - 1;
    assert IsHeap(ks, n);
    FixedIsHeap(SwapAt(ks, i, n), i, n);
  }
}
