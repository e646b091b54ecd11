/** The A* solver of the sliding puzzle: it terminates, it is complete, and the
    solution it returns is a shortest one. */
module SlidingSolver {
  import opened Common
  import opened SlidingBoard
  import opened SlidingSolvable
  import opened MinHeap

  type MoveCounts = map<Board, nat>

  // ---------- nodes and the walks they record ----------

  /** The walk from the start board that a chain of `previous` links records. */
  ghost function NodeWalk(node: HeapNode): seq<Board> {
    match node.previous
    case None => [node.board]
    case Some(p) => NodeWalk(p) + [node.board]
  }

  ghost predicate NodeOk(n: nat, start: Board, node: HeapNode)
    requires n > 0
  {
    && WalkFromTo(n, NodeWalk(node), start, node.board)
    && node.moves == |NodeWalk(node)| - 1
    && node.priority == node.moves + Manhattan(n, node.board)
  }

  /** Follows the `previous` links and reverses what it collected: the boards after the start. */
  method BuildSolutionPath(node: HeapNode) returns (r: seq<Board>)
    ensures r == NodeWalk(node)[1..]
  {
    var path: seq<Board> := [];
    var current := node;
    while current.previous.Some?
      invariant NodeWalk(current) + Backwards(path) == NodeWalk(node)
      decreases current
    {
      path := path + [current.board];
      current := current.previous.value;
    }
    return Backwards(path);
  }

  // ---------- the search invariant ----------

  /** A node that records the best known move count of `b` still waits in the heap. */
  ghost predicate IsOpen(open: seq<HeapNode>, best: MoveCounts, b: Board)
    requires b in best
  {
    exists x :: x in open && x.board == b && x.moves == best[b]
  }

  /** Each neighbour of `b` over one of the given tiles is known to be at most one move further. */
  ghost predicate Expanded(n: nat, best: MoveCounts, b: Board, tiles: seq<nat>)
    requires n > 0 && 0 in b && b in best
  {
    forall t :: t in tiles ==> MoveTile(n, b, t) in best && best[MoveTile(n, b, t)] <= best[b] + 1
  }

  /** Every neighbour of `b` is known to be at most one move further. */
  ghost predicate ExpandedAll(n: nat, best: MoveCounts, b: Board)
    requires n > 0 && 0 in b && b in best
  {
    forall t: nat :: CanMove(n, b, t) ==> MoveTile(n, b, t) in best && best[MoveTile(n, b, t)] <= best[b] + 1
  }

  ghost predicate SearchInv(n: nat, start: Board, open: seq<HeapNode>, best: MoveCounts) {
    && n > 0
    && (forall b :: b in best ==> IsBoard(n, b))
    && start in best && best[start] == 0
    && (forall x :: x in open ==> NodeOk(n, start, x) && x.board in best && best[x.board] <= x.moves)
  }

  /** A known board is open or fully expanded; the solved board is never expanded. */
  ghost predicate Settled(n: nat, open: seq<HeapNode>, best: MoveCounts, b: Board)
    requires n > 0 && b in best
  {
    IsOpen(open, best, b) || (b != Solved(n) && 0 in b && ExpandedAll(n, best, b))
  }

  ghost predicate Frontier(n: nat, open: seq<HeapNode>, best: MoveCounts, except: Option<Board>)
    requires n > 0
  {
    forall b :: b in best && except != Some(b) ==> Settled(n, open, best, b)
  }

  /** Along any walk from the start to the solved board some open node promises no more than the
      walk's length; in particular the heap is not empty. */
  lemma {:induction false} OpenNodeOnWalk(n: nat, start: Board, open: seq<HeapNode>, best: MoveCounts,
                                          w: seq<Board>, i: nat)
    returns (x: HeapNode)
    requires SearchInv(n, start, open, best) && Frontier(n, open, best, None)
    requires WalkFromTo(n, w, start, Solved(n))
    requires i < |w| && w[i] in best && best[w[i]] <= i
    ensures x in open && x.priority <= |w| - 1
    decreases |w| - i
  {
    if IsOpen(open, best, w[i]) {
      x :| x in open && x.board == w[i] && x.moves == best[w[i]];
      WalkSuffix(n, w, i);
      ManhattanAdmissible(n, w[i..]);
    } else {
      assert SlideAt(n, w, i + 1);
      x := OpenNodeOnWalk(n, start, open, best, w, i + 1);
    }
  }

  lemma ExtendNode(n: nat, start: Board, node: HeapNode, tile: nat)
    requires n > 0 && NodeOk(n, start, node) && IsBoard(n, node.board) && CanMove(n, node.board, tile)
    ensures var next := MoveTile(n, node.board, tile);
            NodeOk(n, start, HeapNode(next, node.moves + 1, Some(node), node.moves + 1 + Manhattan(n, next)))
  {
    SlideKeepsBoard(n, node.board, tile);
    WalkAppend(n, NodeWalk(node), MoveTile(n, node.board, tile));
  }

  // ---------- the termination measure ----------

  ghost function AllSeqs(len: nat, values: nat): set<Board> {
    if len == 0 then {[]}
    else set v: nat, s | v < values && s in AllSeqs(len - 1, values) :: [v] + s
  }

  lemma {:induction false} InAllSeqs(b: Board, values: nat)
    requires forall i :: 0 <= i < |b| ==> b[i] < values
    ensures b in AllSeqs(|b|, values)
  {
    if b != [] {
      InAllSeqs(b[1..], values);
      assert b == [b[0]] + b[1..];
    }
  }

  ghost function Recorded(best: MoveCounts, b: Board): nat {
    if b in best then best[b] else 0
  }

  ghost function Pick(s: set<Board>): Board
    requires s != {}
  {
    var b :| b in s; b
  }

  ghost function SumRecorded(s: set<Board>, best: MoveCounts): nat {
    if s == {} then 0 else Recorded(best, Pick(s)) + SumRecorded(s - {Pick(s)}, best)
  }

  /** Lowering the entry of one board by some amount lowers the sum by that amount. */
  lemma {:induction false} SumUpdate(s: set<Board>, best: MoveCounts, b: Board, v: nat)
    requires b in best
    ensures SumRecorded(s, best[b := v]) == SumRecorded(s, best) + if b in s then v - best[b] else 0
  {
    if s != {} {
      SumUpdate(s - {Pick(s)}, best, b, v);
    }
  }

  /** Recording a move count makes a board seen, or lowers the sum of the recorded counts. */
  lemma RecordMakesProgress(n: nat, best: MoveCounts, b: Board, v: nat)
    requires IsBoard(n, b) && (b in best ==> v < best[b])
    ensures var all := AllSeqs(Cells(n), Cells(n));
            if b in best then all - best[b := v].Keys == all - best.Keys
                              && SumRecorded(all, best[b := v]) < SumRecorded(all, best)
            else all - best[b := v].Keys < all - best.Keys
  {
    var all := AllSeqs(Cells(n), Cells(n));
    forall i | 0 <= i < |b| ensures b[i] < Cells(n) {
      ValuesBelowCells(n, b, i);
    }
    InAllSeqs(b, Cells(n));
    if b in best {
      SumUpdate(all, best, b, v);
      assert best[b := v].Keys == best.Keys;
    } else {
      assert b in all - best.Keys && b !in all - best[b := v].Keys;
    }
  }

  ghost predicate Progress(all: set<Board>, best: MoveCounts, was: MoveCounts) {
    || all - best.Keys < all - was.Keys
    || (all - best.Keys == all - was.Keys && SumRecorded(all, best) < SumRecorded(all, was))
  }

  // ---------- the solver ----------

  /** Returns the boards of a shortest solution, or None exactly when there is no solution. */
  method SolveBoard(n: nat, start: Board) returns (r: Option<seq<Board>>)
    requires n % 2 == 1 && IsBoard(n, start)
    ensures r.Some? ==> WalkFromTo(n, [start] + r.value, start, Solved(n))
    ensures r.Some? ==> forall w :: WalkFromTo(n, w, start, Solved(n)) ==> |r.value| <= |w| - 1
    ensures r.None? ==> forall w :: !WalkFromTo(n, w, start, Solved(n))
    ensures r.Some? <==> IsSolvable(start)
  {
    var inversions := CountInversions(start);
    if inversions % 2 != 0 {
      GuardIsComplete(n, start);
      return None;
    }
    if start == Solved(n) {
      assert IsWalk(n, [start]);
      return Some([]);
    }
    GuardIsExact(n, start);
    r := Search(n, start);
  }

  /** The A* loop, for a board that is not solved. */
  method Search(n: nat, start: Board) returns (r: Option<seq<Board>>)
    requires n > 0 && IsBoard(n, start)
    ensures r.Some? ==> WalkFromTo(n, [start] + r.value, start, Solved(n))
    ensures r.Some? ==> forall w :: WalkFromTo(n, w, start, Solved(n)) ==> |r.value| <= |w| - 1
    ensures r.None? ==> forall w :: !WalkFromTo(n, w, start, Solved(n))
  {
    var openNodes := new MinHeap();
    var best: MoveCounts := map[start := 0];
    var root := HeapNode(start, 0, None, Manhattan(n, start));
    openNodes.Push(root);
    RootInv(n, start, openNodes.nodes, root);
    ghost var all := AllSeqs(Cells(n), Cells(n));

    while |openNodes.nodes| > 0
      invariant openNodes.Valid() && fresh(openNodes)
      invariant SearchInv(n, start, openNodes.nodes, best)
      invariant Frontier(n, openNodes.nodes, best, None)
      decreases all - best.Keys, SumRecorded(all, best), |openNodes.nodes|
    {
      ghost var open0, best0 := openNodes.nodes, best;
      var popped := openNodes.Pop();
      var current := popped.value;
      assert current in multiset(open0);
      if current.board == Solved(n) {
        SolvedNodeIsShortest(n, start, open0, best, current);
        var path := BuildSolutionPath(current);
        return Some(path);
      }
      PopKeepsInv(n, start, open0, openNodes.nodes, best, current);
      if current.board in best && best[current.board] < current.moves {
        PopStale(n, open0, openNodes.nodes, best, current);
        continue;
      }
      best := ExpandNode(n, start, openNodes, best, current);
    }
    EmptyHeapMeansUnsolvable(n, start, best);
    return None;
  }

  lemma GuardIsComplete(n: nat, start: Board)
    requires n % 2 == 1 && IsBoard(n, start) && !IsSolvable(start)
    ensures forall w :: !WalkFromTo(n, w, start, Solved(n))
  {
    forall w | WalkFromTo(n, w, start, Solved(n)) ensures false {
      ReachableImpliesSolvable(n, w);
    }
  }

  lemma EmptyHeapMeansUnsolvable(n: nat, start: Board, best: MoveCounts)
    requires SearchInv(n, start, [], best) && Frontier(n, [], best, None)
    ensures forall w :: !WalkFromTo(n, w, start, Solved(n))
  {
    forall w | WalkFromTo(n, w, start, Solved(n)) ensures false {
      var x := OpenNodeOnWalk(n, start, [], best, w, 0);
    }
  }

  lemma RootInv(n: nat, start: Board, open: seq<HeapNode>, root: HeapNode)
    requires n > 0 && IsBoard(n, start) && root == HeapNode(start, 0, None, Manhattan(n, start))
    requires multiset(open) == multiset{root}
    ensures SearchInv(n, start, open, map[start := 0]) && Frontier(n, open, map[start := 0], None)
  {
    assert NodeOk(n, start, root);
    assert root in multiset(open);
    forall x | x in open ensures x == root {
      assert x in multiset(open);
    }
  }

  /** Offers the neighbour over one tile to the heap, unless it is already known as cheaply. */
  method OfferNeighbour(n: nat, ghost start: Board, openNodes: MinHeap, best0: MoveCounts,
                        current: HeapNode, tile: nat)
    returns (best: MoveCounts)
    requires n > 0 && openNodes.Valid() && SearchInv(n, start, openNodes.nodes, best0)
    requires NodeOk(n, start, current) && current.board in best0 && CanMove(n, current.board, tile)
    requires Frontier(n, openNodes.nodes, best0, Some(current.board))
    modifies openNodes
    ensures openNodes.Valid() && SearchInv(n, start, openNodes.nodes, best)
    ensures Frontier(n, openNodes.nodes, best, Some(current.board))
    ensures var next := MoveTile(n, current.board, tile);
            if next in best0 && best0[next] <= current.moves + 1
            then best == best0 && openNodes.nodes == old(openNodes.nodes)
            else best == best0[next := current.moves + 1]
  {
    var next := MoveTile(n, current.board, tile);
    var nextMoves := current.moves + 1;
    if next in best0 && best0[next] <= nextMoves {
      return best0;
    }
    SlideKeepsBoard(n, current.board, tile);
    ExtendNode(n, start, current, tile);
    var node := HeapNode(next, nextMoves, Some(current), nextMoves + Manhattan(n, next));
    best := best0[next := nextMoves];
    openNodes.Push(node);
    PushKeepsInv(n, start, old(openNodes.nodes), openNodes.nodes, best0, node, current.board);
  }

  /** Offers every neighbour of a popped node. */
  method ExpandNode(n: nat, ghost start: Board, openNodes: MinHeap, best0: MoveCounts, current: HeapNode)
    returns (best: MoveCounts)
    requires n > 0 && openNodes.Valid() && SearchInv(n, start, openNodes.nodes, best0)
    requires NodeOk(n, start, current) && current.board != Solved(n)
    requires current.board in best0 && best0[current.board] == current.moves
    requires Frontier(n, openNodes.nodes, best0, Some(current.board))
    modifies openNodes
    ensures openNodes.Valid() && SearchInv(n, start, openNodes.nodes, best)
    ensures Frontier(n, openNodes.nodes, best, None)
    ensures (best == best0 && openNodes.nodes == old(openNodes.nodes))
         || Progress(AllSeqs(Cells(n), Cells(n)), best, best0)
  {
    best := best0;
    var tiles := LegalTiles(n, current.board);
    LegalTilesExact(n, current.board);
    for i := 0 to |tiles|
      invariant openNodes.Valid() && SearchInv(n, start, openNodes.nodes, best)
      invariant current.board in best && best[current.board] == current.moves
      invariant Frontier(n, openNodes.nodes, best, Some(current.board))
      invariant Expanded(n, best, current.board, tiles[..i])
      invariant (best == best0 && openNodes.nodes == old(openNodes.nodes))
             || Progress(AllSeqs(Cells(n), Cells(n)), best, best0)
    {
      ghost var before := best;
      best := OfferNeighbour(n, start, openNodes, best, current, tiles[i]);
      NeighbourOffered(n, start, before, best, current, tiles, i);
    }
    assert tiles[..|tiles|] == tiles;
    ExpandedIsSettled(n, openNodes.nodes, best, current.board);
  }

  lemma ExpandedIsSettled(n: nat, open: seq<HeapNode>, best: MoveCounts, b: Board)
    requires n > 0 && b in best && 0 in b && b != Solved(n)
    requires Frontier(n, open, best, Some(b)) && Expanded(n, best, b, LegalTiles(n, b))
    ensures Frontier(n, open, best, None)
  {
    LegalTilesExact(n, b);
    forall c | c in best ensures Settled(n, open, best, c) {
      if c != b { assert Some(b) != Some(c); }
    }
  }

  lemma NeighbourOffered(n: nat, start: Board, was: MoveCounts, best: MoveCounts, current: HeapNode,
                         tiles: seq<nat>, i: nat)
    requires n > 0 && IsBoard(n, current.board) && i < |tiles| && CanMove(n, current.board, tiles[i])
    requires current.board in was && was[current.board] == current.moves
    requires Expanded(n, was, current.board, tiles[..i])
    requires var next := MoveTile(n, current.board, tiles[i]);
             best == if next in was && was[next] <= current.moves + 1 then was else was[next := current.moves + 1]
    ensures current.board in best && best[current.board] == current.moves
    ensures Expanded(n, best, current.board, tiles[..i + 1])
    ensures best == was || Progress(AllSeqs(Cells(n), Cells(n)), best, was)
  {
    var next := MoveTile(n, current.board, tiles[i]);
    SlideKeepsBoard(n, current.board, tiles[i]);
    if best != was {
      RecordMakesProgress(n, was, next, current.moves + 1);
    }
    assert tiles[..i + 1] == tiles[..i] + [tiles[i]];
  }

  lemma SolvedNodeIsShortest(n: nat, start: Board, open: seq<HeapNode>, best: MoveCounts, node: HeapNode)
    requires SearchInv(n, start, open, best) && Frontier(n, open, best, None)
    requires node in open && node.board == Solved(n)
    requires forall x :: x in open ==> node.priority <= x.priority
    ensures forall w :: WalkFromTo(n, w, start, Solved(n)) ==> |NodeWalk(node)[1..]| <= |w| - 1
    ensures WalkFromTo(n, [start] + NodeWalk(node)[1..], start, Solved(n))
  {
    assert [start] + NodeWalk(node)[1..] == NodeWalk(node);
    forall w | WalkFromTo(n, w, start, Solved(n)) ensures node.moves <= |w| - 1 {
      var x := OpenNodeOnWalk(n, start, open, best, w, 0);
    }
  }

  lemma PopKeepsInv(n: nat, start: Board, was: seq<HeapNode>, open: seq<HeapNode>, best: MoveCounts, node: HeapNode)
    requires SearchInv(n, start, was, best) && Frontier(n, was, best, None)
    requires multiset(was) == multiset(open) + multiset{node}
    ensures |open| < |was| && SearchInv(n, start, open, best) && Frontier(n, open, best, Some(node.board))
    ensures NodeOk(n, start, node) && node.board in best && best[node.board] <= node.moves
  {
    assert |multiset(was)| == |was| && |multiset(open)| == |open|;
    assert node in multiset(was);
    forall x | x in open ensures x in was {
      assert x in multiset(open) && x in multiset(was);
    }
    forall b | b in best && b != node.board && IsOpen(was, best, b) ensures IsOpen(open, best, b) {
      var x :| x in was && x.board == b && x.moves == best[b];
      assert x in multiset(was) && x in multiset(open);
    }
  }

  lemma PopStale(n: nat, was: seq<HeapNode>, open: seq<HeapNode>, best: MoveCounts, node: HeapNode)
    requires n > 0
    requires Frontier(n, was, best, None) && Frontier(n, open, best, Some(node.board))
    requires multiset(was) == multiset(open) + multiset{node}
    requires node.board in best && best[node.board] < node.moves
    ensures Frontier(n, open, best, None)
  {
    if IsOpen(was, best, node.board) {
      var x :| x in was && x.board == node.board && x.moves == best[node.board];
      assert x in multiset(was) && x in multiset(open);
    }
  }

  lemma PushKeepsInv(n: nat, start: Board, was: seq<HeapNode>, open: seq<HeapNode>, best: MoveCounts,
                     node: HeapNode, except: Board)
    requires SearchInv(n, start, was, best) && Frontier(n, was, best, Some(except))
    requires multiset(open) == multiset(was) + multiset{node}
    requires NodeOk(n, start, node) && node.board != except && node.moves > 0
    requires node.board in best ==> node.moves < best[node.board]
    ensures SearchInv(n, start, open, best[node.board := node.moves])
    ensures Frontier(n, open, best[node.board := node.moves], Some(except))
  {
    var next := best[node.board := node.moves];
    assert node in multiset(open);
    WalkBoards(n, NodeWalk(node), |NodeWalk(node)| - 1);
    forall x | x in open && x != node ensures x in was {
      assert x in multiset(open) && x in multiset(was);
    }
    forall b | b in next && b != except ensures Settled(n, open, next, b) {
      if b == node.board {
        assert IsOpen(open, next, b);
      } else if IsOpen(was, best, b) {
        var x :| x in was && x.board == b && x.moves == best[b];
        assert x in multiset(was) && x in multiset(open);
      }
    }
  }
}
