/** The hand-written binary heap the sliding-puzzle solver keeps its open nodes in. */
module MinHeap {
  import opened Common
  import opened SlidingBoard

  /** A search node; `previous` is absent exactly at the root of the search. */
  datatype HeapNode = HeapNode(board: Board, moves: nat, previous: Option<HeapNode>, priority: nat)

  function Parent(i: int): int
    requires i > 0
  {
    (i - 1) / 2
  }

  ghost predicate OrderedAt(s: seq<HeapNode>, i: nat)
    requires 0 < i < |s|
  {
    s[Parent(i)].priority <= s[i].priority
  }

  ghost predicate HeapOrdered(s: seq<HeapNode>) {
    forall i :: 0 < i < |s| ==> OrderedAt(s, i)
  }

  /** Heap order but for the node at `hole`, which may be too small for its place. */
  ghost predicate OrderedButUp(s: seq<HeapNode>, hole: nat) {
    && (forall i :: 0 < i < |s| && i != hole ==> OrderedAt(s, i))
    && (0 < hole < |s| ==> forall i :: 0 < i < |s| && Parent(i) == hole
                            ==> s[Parent(hole)].priority <= s[i].priority)
  }

  /** Heap order but for the node at `hole`, which may be too large for its place. */
  ghost predicate OrderedButDown(s: seq<HeapNode>, hole: nat) {
    && (forall i :: 0 < i < |s| && Parent(i) != hole ==> OrderedAt(s, i))
    && (0 < hole < |s| ==> forall i :: 0 < i < |s| && Parent(i) == hole
                            ==> s[Parent(hole)].priority <= s[i].priority)
  }

  lemma {:induction false} RootIsMinimal(s: seq<HeapNode>, i: nat)
    requires HeapOrdered(s) && i < |s|
    ensures s[0].priority <= s[i].priority
  {
    if i > 0 {
      RootIsMinimal(s, Parent(i));
      assert OrderedAt(s, i);
    }
  }

  /** The place holding the least priority among `i` and its two children; `i` wins ties. */
  function SmallestOfThree(s: seq<HeapNode>, i: nat): (m: nat)
    requires i < |s|
    ensures m < |s| && (m == i || (m > i && Parent(m) == i && s[m].priority < s[i].priority))
    ensures forall c :: c == 2 * i + 1 || c == 2 * i + 2 ==> c < |s| ==> s[m].priority <= s[c].priority
  {
    var left := i * 2 + 1;
    var right := left + 1;
    var smaller := if left < |s| && s[left].priority < s[i].priority then left else i;
    if right < |s| && s[right].priority < s[smaller].priority then right else smaller
  }

  lemma SwapKeepsMultiset(s: seq<HeapNode>, i: nat, j: nat)
    requires i < |s| && j < |s|
    ensures multiset(s[i := s[j]][j := s[i]]) == multiset(s)
  {
  }

  class MinHeap {
    var nodes: seq<HeapNode>

    ghost predicate Valid()
      reads this
    {
      HeapOrdered(nodes)
    }

    constructor ()
      ensures Valid() && nodes == []
    {
      nodes := [];
    }

    method Swap(first: nat, second: nat)
      requires first < |nodes| && second < |nodes|
      modifies this
      ensures nodes == old(nodes)[first := old(nodes)[second]][second := old(nodes)[first]]
      ensures multiset(nodes) == multiset(old(nodes))
    {
      SwapKeepsMultiset(nodes, first, second);
      nodes := nodes[first := nodes[second]][second := nodes[first]];
    }

    method BubbleUp(start: nat)
      requires start < |nodes| && OrderedButUp(nodes, start)
      modifies this
      ensures Valid() && multiset(nodes) == multiset(old(nodes))
    {
      var current: int := start;
      while current > 0
        invariant 0 <= current < |nodes| && OrderedButUp(nodes, current)
        invariant multiset(nodes) == multiset(old(nodes))
      {
        var parent := Parent(current);
        if nodes[parent].priority <= nodes[current].priority {
          assert OrderedAt(nodes, current);
          return;
        }
        ghost var before := nodes;
        Swap(parent, current);
        SwapUp(before, current);
        current := parent;
      }
    }

    method BubbleDown(start: nat)
      requires start < |nodes| && OrderedButDown(nodes, start)
      modifies this
      ensures Valid() && multiset(nodes) == multiset(old(nodes))
    {
      var current: nat := start;
      while true
        invariant current < |nodes| && OrderedButDown(nodes, current)
        invariant multiset(nodes) == multiset(old(nodes))
        decreases |nodes| - current
      {
        var smallest := SmallestOfThree(nodes, current);
        if smallest == current {
          AllOrdered(nodes, current);
          return;
        }
        ghost var before := nodes;
        Swap(current, smallest);
        SwapDown(before, current, smallest);
        current := smallest;
      }
    }

    /** Adds one node and restores heap order. */
    method Push(node: HeapNode)
      requires Valid()
      modifies this
      ensures Valid() && multiset(nodes) == multiset(old(nodes)) + multiset{node}
    {
      PushOrder(nodes, node);
      nodes := nodes + [node];
      BubbleUp(|nodes| - 1);
    }

    /** Removes one node of least priority, or reports that there is none. */
    method Pop() returns (r: Option<HeapNode>)
      requires Valid()
      modifies this
      ensures Valid()
      ensures r.None? <==> old(nodes) == []
      ensures r.None? ==> nodes == []
      ensures r.Some? ==> multiset(old(nodes)) == multiset(nodes) + multiset{r.value}
      ensures r.Some? ==> forall x :: x in old(nodes) ==> r.value.priority <= x.priority
    {
      if nodes == [] {
        return None;
      }
      forall i | 0 <= i < |nodes| ensures nodes[0].priority <= nodes[i].priority {
        RootIsMinimal(nodes, i);
      }
      var root := nodes[0];
      var last := nodes[|nodes| - 1];
      ghost var before := nodes;
      nodes := nodes[..|nodes| - 1];
      assert before == nodes + [last];
      forall i | 0 < i < |nodes| ensures OrderedAt(nodes, i) {
        assert OrderedAt(before, i);
      }
      if |nodes| > 0 {
        ReplaceRoot(nodes, last);
        nodes := nodes[0 := last];
        BubbleDown(0);
      }
      return Some(root);
    }
  }

  lemma SwapUp(s: seq<HeapNode>, c: nat)
    requires 0 < c < |s| && OrderedButUp(s, c) && s[Parent(c)].priority > s[c].priority
    ensures OrderedButUp(s[Parent(c) := s[c]][c := s[Parent(c)]], Parent(c))
  {
    var p := Parent(c);
    var t := s[p := s[c]][c := s[p]];
    forall i | 0 < i < |t| && i != p ensures OrderedAt(t, i) {
      if i != c { assert OrderedAt(s, i); }
    }
    if 0 < p {
      assert OrderedAt(s, p);
      forall i | 0 < i < |t| && Parent(i) == p ensures t[Parent(p)].priority <= t[i].priority {
        if i != c { assert OrderedAt(s, i); }
      }
    }
  }

  lemma SwapDown(s: seq<HeapNode>, c: nat, m: nat)
    requires c < m < |s| && Parent(m) == c && OrderedButDown(s, c) && s[m].priority < s[c].priority
    requires forall i :: i == 2 * c + 1 || i == 2 * c + 2 ==> i < |s| ==> s[m].priority <= s[i].priority
    ensures OrderedButDown(s[c := s[m]][m := s[c]], m)
  {
    var t := s[c := s[m]][m := s[c]];
    forall i | 0 < i < |t| && Parent(i) != m ensures OrderedAt(t, i) {
      if Parent(i) == c {
        assert i == 2 * c + 1 || i == 2 * c + 2;
      } else if i != c {
        assert OrderedAt(s, i);
      }
    }
    forall i | 0 < i < |t| && Parent(i) == m ensures t[Parent(m)].priority <= t[i].priority {
      assert OrderedAt(s, i);
    }
  }

  lemma AllOrdered(s: seq<HeapNode>, c: nat)
    requires c < |s| && OrderedButDown(s, c)
    requires forall i :: i == 2 * c + 1 || i == 2 * c + 2 ==> i < |s| ==> s[c].priority <= s[i].priority
    ensures HeapOrdered(s)
  {
    forall i | 0 < i < |s| ensures OrderedAt(s, i) {
      if Parent(i) == c {
        assert i == 2 * c + 1 || i == 2 * c + 2;
      }
    }
  }

  lemma PushOrder(s: seq<HeapNode>, node: HeapNode)
    requires HeapOrdered(s)
    ensures OrderedButUp(s + [node], |s|)
  {
    forall i | 0 < i < |s| ensures OrderedAt(s + [node], i) {
      assert OrderedAt(s, i);
    }
  }

  lemma ReplaceRoot(s: seq<HeapNode>, node: HeapNode)
    requires |s| > 0 && HeapOrdered(s)
    ensures OrderedButDown(s[0 := node], 0)
    ensures multiset(s[0 := node]) + multiset{s[0]} == multiset(s) + multiset{node}
  {
    forall i | 0 < i < |s| && Parent(i) != 0 ensures OrderedAt(s[0 := node], i) {
      assert OrderedAt(s, i);
    }
  }
}
