/**
 * The binary min-heap of common/collections/src/heap.rs: a vector kept in
 * heap order (every element is at least its parent), `push` sifting the new
 * element up and `pop` moving the last element to the root and sifting it
 * down. Elements are integers, compared with `<`.
 *
 * The functions below are the heap as values; the class `Heap` updates its
 * vector in place and is proved to compute exactly those functions.
 */
module BinaryHeap {
  import opened Wrappers

  /** `parent_index`: the root has no parent. */
  function ParentIndex(i: nat): Option<nat>
  {
    if i == 0 then None else Some((i - 1) / 2)
  }

  /** `left_child_index`. */
  function LeftChildIndex(i: nat): nat
  {
    (i + 1) * 2 - 1
  }

  /** `right_child_index`. */
  function RightChildIndex(i: nat): nat
  {
    (i + 1) * 2
  }

  /**
   * The index helpers describe one tree: the children of `i` are 2i+1 and
   * 2i+2, both have `i` as parent, and every index but the root is a child
   * of its parent.
   */
  lemma IndexTree(i: nat)
    ensures LeftChildIndex(i) == 2 * i + 1 && RightChildIndex(i) == 2 * i + 2
    ensures ParentIndex(LeftChildIndex(i)) == Some(i) && ParentIndex(RightChildIndex(i)) == Some(i)
    ensures ParentIndex(i).None? <==> i == 0
    ensures i > 0 ==> (ParentIndex(i).value < i &&
      (LeftChildIndex(ParentIndex(i).value) == i || RightChildIndex(ParentIndex(i).value) == i))
  {
  }

  /** `j` is a child of `i` in the implicit tree. */
  predicate Edge(i: int, j: int)
  {
    j == 2 * i + 1 || j == 2 * i + 2
  }

  /** Every element is at least its parent. */
  ghost predicate IsHeap(s: seq<int>)
  {
    forall i, j :: 0 <= i < j < |s| && Edge(i, j) ==> s[i] <= s[j]
  }

  /**
   * The parent of `k` is at most every child of `k`: the order around `k`
   * that a sift has to keep.
   */
  ghost predicate Bridged(s: seq<int>, k: nat)
  {
    forall p, j :: 0 <= p < k < j < |s| && Edge(p, k) && Edge(k, j) ==> s[p] <= s[j]
  }

  /** Heap order except possibly between `k` and its parent. */
  ghost predicate HeapExceptUp(s: seq<int>, k: nat)
  {
    k < |s| && Bridged(s, k) &&
    forall i, j :: 0 <= i < j < |s| && Edge(i, j) && j != k ==> s[i] <= s[j]
  }

  /** Heap order except possibly between `k` and its children. */
  ghost predicate HeapExceptDown(s: seq<int>, k: nat)
  {
    Bridged(s, k) &&
    forall i, j :: 0 <= i < j < |s| && Edge(i, j) && i != k ==> s[i] <= s[j]
  }

  /** The parent index is the one `Edge` names. */
  lemma ParentEdge(i: nat)
    requires i > 0
    ensures Edge((i - 1) / 2, i)
  {
  }

  /** `slice::swap`. */
  function Swap(s: seq<int>, i: nat, j: nat): (t: seq<int>)
    requires i < |s| && j < |s|
    ensures |t| == |s| && t[i] == s[j] && t[j] == s[i]
    ensures forall k :: 0 <= k < |s| && k != i && k != j ==> t[k] == s[k]
  {
    s[i := s[j]][j := s[i]]
  }

  /** A swap only rearranges the elements. */
  lemma SwapPermutes(s: seq<int>, i: nat, j: nat)
    requires i < |s| && j < |s|
    ensures multiset(Swap(s, i, j)) == multiset(s)
  {
  }

  /** `sift_up(i)` as a value. */
  function SiftUpOf(s: seq<int>, i: nat): seq<int>
    requires i < |s|
    decreases i
  {
    match ParentIndex(i)
    case None => s
    case Some(p) =>
      if s[i] < s[p] then SiftUpOf(Swap(s, i, p), p) else s
  }

  /** `sift_down(i)` as a value: swap with the smaller child, the right one when the two are equal. */
  function SiftDownOf(s: seq<int>, i: nat): seq<int>
    decreases |s| - i
  {
    var l, r := LeftChildIndex(i), RightChildIndex(i);
    if l >= |s| && r >= |s| then s
    else
      var child := if l >= |s| then r else if r >= |s| then l else if s[l] < s[r] then l else r;
      if s[child] < s[i] then SiftDownOf(Swap(s, child, i), child) else s
  }

  /** `push(value)` as a value. */
  function PushOf(s: seq<int>, v: int): seq<int>
  {
    SiftUpOf(s + [v], |s|)
  }

  /** `pop()` as a value: the element returned and the heap left behind. */
  function PopOf(s: seq<int>): (Option<int>, seq<int>)
  {
    if s == [] then (None, s)
    else
      var i := |s| - 1;
      var t := Swap(s, 0, i);
      (Some(t[i]), SiftDownOf(t[..i], 0))
  }

  /** `insert_vec(values)` as a value: the values pushed one by one, in order. */
  function PushAllOf(s: seq<int>, values: seq<int>): seq<int>
  {
    if values == [] then s
    else PushOf(PushAllOf(s, values[..|values| - 1]), values[|values| - 1])
  }

  /** Sifting up only rearranges the elements. */
  lemma {:induction false} SiftUpPermutes(s: seq<int>, i: nat)
    requires i < |s|
    ensures multiset(SiftUpOf(s, i)) == multiset(s) && |SiftUpOf(s, i)| == |s|
    decreases i
  {
    if i > 0 {
      var p := (i - 1) / 2;
      if s[i] < s[p] {
        SwapPermutes(s, i, p);
        SiftUpPermutes(Swap(s, i, p), p);
      }
    }
  }

  /** One step of sifting up moves the fault to the parent. */
  lemma SiftUpStep(s: seq<int>, i: nat)
    requires HeapExceptUp(s, i) && i > 0 && s[i] < s[(i - 1) / 2]
    ensures HeapExceptUp(Swap(s, i, (i - 1) / 2), (i - 1) / 2)
  {
    var p := (i - 1) / 2;
    ParentEdge(i);
    var t := Swap(s, i, p);
    forall a, b | 0 <= a < b < |t| && Edge(a, b) && b != p
      ensures t[a] <= t[b]
    {
      if b == i {
        assert a == p;
      } else if a == i || a == p {
        assert s[p] <= s[b];
      }
    }
    forall g, j | 0 <= g < p < j < |t| && Edge(g, p) && Edge(p, j)
      ensures t[g] <= t[j]
    {
      assert s[g] <= s[p];
      if j != i {
        assert s[p] <= s[j];
      }
    }
  }

  /** Sifting up the one element out of order restores heap order. */
  lemma {:induction false} SiftUpRestores(s: seq<int>, i: nat)
    requires HeapExceptUp(s, i)
    ensures IsHeap(SiftUpOf(s, i))
    decreases i
  {
    if i > 0 {
      var p := (i - 1) / 2;
      ParentEdge(i);
      if s[i] < s[p] {
        SiftUpStep(s, i);
        SiftUpRestores(Swap(s, i, p), p);
      } else {
        forall a, b | 0 <= a < b < |s| && Edge(a, b) && b == i
          ensures s[a] <= s[b]
        {
          assert a == p;
        }
      }
    }
  }

  /** Sifting down only rearranges the elements. */
  lemma {:induction false} SiftDownPermutes(s: seq<int>, i: nat)
    ensures multiset(SiftDownOf(s, i)) == multiset(s) && |SiftDownOf(s, i)| == |s|
    decreases |s| - i
  {
    var l, r := LeftChildIndex(i), RightChildIndex(i);
    if l < |s| || r < |s| {
      var child := if l >= |s| then r else if r >= |s| then l else if s[l] < s[r] then l else r;
      if s[child] < s[i] {
        SwapPermutes(s, child, i);
        SiftDownPermutes(Swap(s, child, i), child);
      }
    }
  }

  /** The child `sift_down` picks: the smaller one, the right one unless the left is strictly smaller. */
  function SmallerChild(s: seq<int>, i: nat): (c: nat)
    requires LeftChildIndex(i) < |s|
    ensures Edge(i, c) && c < |s|
    ensures forall j :: 0 <= j < |s| && Edge(i, j) ==> s[c] <= s[j]
  {
    var l, r := LeftChildIndex(i), RightChildIndex(i);
    if r >= |s| then l else if s[l] < s[r] then l else r
  }

  /** One step of sifting down moves the fault to the child. */
  lemma SiftDownStep(s: seq<int>, i: nat)
    requires HeapExceptDown(s, i) && LeftChildIndex(i) < |s|
    requires s[SmallerChild(s, i)] < s[i]
    ensures HeapExceptDown(Swap(s, SmallerChild(s, i), i), SmallerChild(s, i))
  {
    var child := SmallerChild(s, i);
    var t := Swap(s, child, i);
    forall a, b | 0 <= a < b < |t| && Edge(a, b) && a != child
      ensures t[a] <= t[b]
    {
      if b == i {
        assert s[a] <= s[child];
      }
    }
    forall g, j | 0 <= g < child < j < |t| && Edge(g, child) && Edge(child, j)
      ensures t[g] <= t[j]
    {
      assert g == i;
      assert s[child] <= s[j];
    }
  }

  /** Sifting down the one element out of order restores heap order. */
  lemma {:induction false} SiftDownRestores(s: seq<int>, i: nat)
    requires HeapExceptDown(s, i)
    ensures IsHeap(SiftDownOf(s, i))
    decreases |s| - i
  {
    var l, r := LeftChildIndex(i), RightChildIndex(i);
    if l < |s| {
      var child := SmallerChild(s, i);
      assert SiftDownOf(s, i) == if s[child] < s[i] then SiftDownOf(Swap(s, child, i), child) else s;
      if s[child] < s[i] {
        SiftDownStep(s, i);
        SiftDownRestores(Swap(s, child, i), child);
      } else {
        forall a, b | 0 <= a < b < |s| && Edge(a, b) && a == i
          ensures s[a] <= s[b]
        {
        }
      }
    } else {
      forall a, b | 0 <= a < b < |s| && Edge(a, b)
        ensures s[a] <= s[b]
      {
        assert a != i;
      }
    }
  }

  /** The root of a heap is a minimum. */
  lemma {:induction false} RootIsMinimum(s: seq<int>, i: nat)
    requires IsHeap(s) && i < |s|
    ensures s[0] <= s[i]
    decreases i
  {
    if i > 0 {
      ParentEdge(i);
      RootIsMinimum(s, (i - 1) / 2);
    }
  }

  /** `push` adds exactly the value and keeps heap order. */
  lemma PushAdds(s: seq<int>, v: int)
    ensures multiset(PushOf(s, v)) == multiset(s) + multiset{v}
    ensures |PushOf(s, v)| == |s| + 1
    ensures IsHeap(s) ==> IsHeap(PushOf(s, v))
  {
    SiftUpPermutes(s + [v], |s|);
    if IsHeap(s) {
      SiftUpRestores(s + [v], |s|);
    }
  }

  /**
   * `pop` on an empty heap gives None and changes nothing; on a heap it
   * gives a minimum, removes exactly that element and keeps heap order.
   */
  lemma PopRemovesMinimum(s: seq<int>)
    ensures s == [] ==> PopOf(s) == (None, s)
    ensures s != [] ==> (PopOf(s).0.Some? && |PopOf(s).1| == |s| - 1 &&
      multiset(PopOf(s).1) == multiset(s) - multiset{PopOf(s).0.value} &&
      PopOf(s).0.value in s)
    ensures s != [] && IsHeap(s) ==>
      (forall x :: x in s ==> PopOf(s).0.value <= x) && IsHeap(PopOf(s).1)
  {
    if s != [] {
      var i := |s| - 1;
      var t := Swap(s, 0, i);
      assert t == t[..i] + [t[i]];
      var u := t[..i];
      SwapPermutes(s, 0, i);
      SiftDownPermutes(u, 0);
      if IsHeap(s) {
        forall x | x in s
          ensures s[0] <= x
        {
          var k :| 0 <= k < |s| && s[k] == x;
          RootIsMinimum(s, k);
        }
        forall a, b | 0 <= a < b < |u| && Edge(a, b) && a != 0
          ensures u[a] <= u[b]
        {
          assert u[a] == s[a] && u[b] == s[b];
        }
        SiftDownRestores(u, 0);
      }
    }
  }

  /** `insert_vec` adds every value and keeps heap order. */
  lemma {:induction false} PushAllAdds(s: seq<int>, values: seq<int>)
    ensures multiset(PushAllOf(s, values)) == multiset(s) + multiset(values)
    ensures IsHeap(s) ==> IsHeap(PushAllOf(s, values))
  {
    if values != [] {
      var front, last := values[..|values| - 1], values[|values| - 1];
      PushAllAdds(s, front);
      PushAdds(PushAllOf(s, front), last);
      assert values == front + [last];
    }
  }

  /** Pushing 3, 4, 1, 9, 2 into an empty heap lays it out as [1, 2, 3, 9, 4]. */
  lemma PushExample()
    ensures PushAllOf([], [3, 4, 1, 9, 2]) == [1, 2, 3, 9, 4]
  {
    var v: seq<int> := [3, 4, 1, 9, 2];
    assert v[..4] == [3, 4, 1, 9] && v[..4][..3] == [3, 4, 1];
    assert v[..4][..3][..2] == [3, 4] && v[..4][..3][..2][..1] == [3] && [3][..0] == [];
    assert PushAllOf([], []) == [];
    assert [] + [3] == [3] && SiftUpOf([3], 0) == [3];
    assert PushAllOf([], [3]) == [3];
    assert [3] + [4] == [3, 4] && SiftUpOf([3, 4], 1) == [3, 4];
    assert PushAllOf([], [3, 4]) == [3, 4];
    assert [3, 4] + [1] == [3, 4, 1] && Swap([3, 4, 1], 2, 0) == [1, 4, 3] && SiftUpOf([1, 4, 3], 0) == [1, 4, 3];
    assert SiftUpOf([3, 4, 1], 2) == [1, 4, 3];
    assert PushAllOf([], [3, 4, 1]) == [1, 4, 3];
    assert [1, 4, 3] + [9] == [1, 4, 3, 9] && SiftUpOf([1, 4, 3, 9], 3) == [1, 4, 3, 9];
    assert PushAllOf([], [3, 4, 1, 9]) == [1, 4, 3, 9];
    assert [1, 4, 3, 9] + [2] == [1, 4, 3, 9, 2] && Swap([1, 4, 3, 9, 2], 4, 1) == [1, 2, 3, 9, 4];
    assert SiftUpOf([1, 2, 3, 9, 4], 1) == [1, 2, 3, 9, 4];
    assert SiftUpOf([1, 4, 3, 9, 2], 4) == [1, 2, 3, 9, 4];
  }

  /** The first two pops from [1, 2, 3, 9, 4]. */
  lemma PopExampleFirst()
    ensures PopOf([1, 2, 3, 9, 4]) == (Some(1), [2, 4, 3, 9])
    ensures PopOf([2, 4, 3, 9]) == (Some(2), [3, 4, 9])
  {
    assert Swap([1, 2, 3, 9, 4], 0, 4) == [4, 2, 3, 9, 1] && [4, 2, 3, 9, 1][..4] == [4, 2, 3, 9];
    assert Swap([4, 2, 3, 9], 1, 0) == [2, 4, 3, 9];
    assert SiftDownOf([2, 4, 3, 9], 1) == [2, 4, 3, 9];
    assert SiftDownOf([4, 2, 3, 9], 0) == [2, 4, 3, 9];
    assert Swap([2, 4, 3, 9], 0, 3) == [9, 4, 3, 2] && [9, 4, 3, 2][..3] == [9, 4, 3];
    assert Swap([9, 4, 3], 2, 0) == [3, 4, 9];
    assert SiftDownOf([3, 4, 9], 2) == [3, 4, 9];
    assert SiftDownOf([9, 4, 3], 0) == [3, 4, 9];
  }

  /** The remaining pops, down to the empty heap. */
  lemma PopExampleRest()
    ensures PopOf([3, 4, 9]) == (Some(3), [4, 9])
    ensures PopOf([4, 9]) == (Some(4), [9])
    ensures PopOf([9]) == (Some(9), [])
  {
    assert Swap([3, 4, 9], 0, 2) == [9, 4, 3] && [9, 4, 3][..2] == [9, 4];
    assert Swap([9, 4], 1, 0) == [4, 9];
    assert SiftDownOf([4, 9], 1) == [4, 9];
    assert SiftDownOf([9, 4], 0) == [4, 9];
    assert Swap([4, 9], 0, 1) == [9, 4] && [9, 4][..1] == [9];
    assert SiftDownOf([9], 0) == [9];
    assert Swap([9], 0, 0) == [9] && [9][..0] == [];
    assert SiftDownOf([], 0) == [];
  }

  /** The repository's own test: push 3, 4, 1, 9, 2, then pop six times. */
  lemma PopsInOrder()
    ensures var h := PushAllOf([], [3, 4, 1, 9, 2]);
      var (a, h1) := PopOf(h); var (b, h2) := PopOf(h1); var (c, h3) := PopOf(h2);
      var (d, h4) := PopOf(h3); var (e, h5) := PopOf(h4); var (f, _) := PopOf(h5);
      [a, b, c, d, e, f] == [Some(1), Some(2), Some(3), Some(4), Some(9), None]
  {
    PushExample();
    PopExampleFirst();
    PopExampleRest();
  }

  /** `Heap<T>`: the vector `data`, kept in heap order. */
  class Heap {
    var data: seq<int>

    /** `Heap::new`, and `new_in`, whose capacity is not modelled. */
    constructor ()
      ensures data == []
    {
      data := [];
    }

    /** `len`. */
    function Len(): (n: nat)
      reads this
      ensures n == |data|
    {
      |data|
    }

    /** `peek`: the root, which in a heap is a minimum, without modification. */
    function Peek(): (r: Option<int>)
      reads this
      ensures r.None? <==> data == []
      ensures r.Some? ==> r.value == data[0] && (IsHeap(data) ==> forall x :: x in data ==> r.value <= x)
    {
      if data == [] then None
      else
        PopRemovesMinimum(data);
        Some(data[0])
    }

    /** `pop`. */
    method Pop() returns (r: Option<int>)
      modifies this
      ensures (r, data) == PopOf(old(data))
      ensures old(data) != [] ==> r.Some? && multiset(data) == multiset(old(data)) - multiset{r.value}
      ensures IsHeap(old(data)) ==> IsHeap(data) && forall x :: x in old(data) ==> r.value <= x
    {
      PopRemovesMinimum(data);
      if data == [] {
        return None;
      }
      var i := |data| - 1;
      data := Swap(data, 0, i);
      var result := data[i];
      data := data[..i];
      SiftDown(0);
      return Some(result);
    }

    /** `push`; growing the capacity is not modelled. */
    method Push(value: int)
      modifies this
      ensures data == PushOf(old(data), value)
      ensures multiset(data) == multiset(old(data)) + multiset{value}
      ensures IsHeap(old(data)) ==> IsHeap(data)
    {
      PushAdds(data, value);
      data := data + [value];
      var i := |data| - 1;
      SiftUp(i);
    }

    /** `insert_vec`: push each value in order. */
    method InsertVec(values: seq<int>)
      modifies this
      ensures data == PushAllOf(old(data), values)
      ensures multiset(data) == multiset(old(data)) + multiset(values)
      ensures IsHeap(old(data)) ==> IsHeap(data)
    {
      PushAllAdds(data, values);
      ghost var s0 := data;
      for k := 0 to |values|
        invariant data == PushAllOf(s0, values[..k])
      {
        assert values[..k + 1][..k] == values[..k];
        Push(values[k]);
      }
      assert values[..|values|] == values;
    }

    /** `sift_up`. */
    method SiftUp(i: nat)
      requires i < |data|
      modifies this
      ensures data == SiftUpOf(old(data), i)
      decreases i
    {
      match ParentIndex(i) {
        case Some(parent) =>
          if data[i] < data[parent] {
            data := Swap(data, i, parent);
            SiftUp(parent);
          }
        case None =>
      }
    }

    /** `sift_down`. */
    method SiftDown(i: nat)
      modifies this
      ensures data == SiftDownOf(old(data), i)
      decreases |data| - i
    {
      var len := |data|;
      var l := LeftChildIndex(i);
      var r := RightChildIndex(i);
      if l >= len && r >= len {
        return;
      }
      var child := if l >= len then r else if r >= len then l else if data[l] < data[r] then l else r;
      if data[child] < data[i] {
        data := Swap(data, child, i);
        SiftDown(child);
      }
    }
  }
}
