/** Boards of the sliding puzzle: legal slides, the Manhattan heuristic and the
    inversion-parity guard.  The side length `n` is a parameter (the game plays n = 3). */
module SlidingBoard {
  import opened Common
  import opened Grid

  type Board = seq<nat>

  /** The number of cells of a board of side `n`. */
  function Cells(n: nat): nat {
    Rows(n, n)
  }

  /** A board of side `n`: a permutation of the solved board, 0 being the blank. */
  ghost predicate IsBoard(n: nat, b: Board) {
    |b| == Cells(n) && 0 in b && multiset(b) == multiset(Solved(n))
  }

  function Solved(n: nat): (r: Board)
    ensures n > 0 ==> 0 in r
  {
    var r := seq(Cells(n), i => if i + 1 == Cells(n) then 0 else i + 1);
    assert n > 0 ==> r[Cells(n) - 1] == 0;
    r
  }

  predicate IsAdjacent(n: nat, i: nat, j: nat)
    requires n > 0
  {
    Abs(Row(n, i) - Row(n, j)) + Abs(Col(n, i) - Col(n, j)) == 1
  }

  function IndexOf(b: Board, v: nat): (i: nat)
    requires v in b
    ensures i < |b| && b[i] == v
  {
    IndexFrom(b, v, 0)
  }

  function IndexFrom(b: Board, v: nat, k: nat): (i: nat)
    requires exists j :: k <= j < |b| && b[j] == v
    ensures k <= i < |b| && b[i] == v && forall j :: k <= j < i ==> b[j] != v
    decreases |b| - k
  {
    if b[k] == v then k else IndexFrom(b, v, k + 1)
  }

  /** The tile at this index is next to the blank. */
  predicate CanMove(n: nat, b: Board, tile: nat)
    requires n > 0 && 0 in b
  {
    tile < |b| && IsAdjacent(n, tile, IndexOf(b, 0))
  }

  /** The indexes of the tiles next to the blank, in ascending order. */
  function LegalTiles(n: nat, b: Board): seq<nat>
    requires n > 0 && 0 in b
  {
    AdjacentFrom(n, IndexOf(b, 0), 0, |b|)
  }

  function AdjacentFrom(n: nat, zero: nat, k: nat, len: nat): seq<nat>
    requires n > 0 && k <= len
    decreases len - k
  {
    if k == len then []
    else if k != zero && IsAdjacent(n, k, zero) then [k] + AdjacentFrom(n, zero, k + 1, len)
    else AdjacentFrom(n, zero, k + 1, len)
  }

  lemma {:induction false} AdjacentFromExact(n: nat, zero: nat, k: nat, len: nat, t: nat)
    requires n > 0 && k <= len
    ensures t in AdjacentFrom(n, zero, k, len) <==> k <= t < len && IsAdjacent(n, t, zero)
    decreases len - k
  {
    if k < len {
      AdjacentFromExact(n, zero, k + 1, len, t);
    }
  }

  /** The list holds exactly the tiles that can move. */
  lemma LegalTilesExact(n: nat, b: Board)
    requires n > 0 && 0 in b
    ensures forall tile: nat :: tile in LegalTiles(n, b) <==> CanMove(n, b, tile)
  {
    forall tile: nat ensures tile in LegalTiles(n, b) <==> CanMove(n, b, tile) {
      AdjacentFromExact(n, IndexOf(b, 0), 0, |b|, tile);
    }
  }

  function MoveTile(n: nat, b: Board, tile: nat): (r: Board)
    requires n > 0 && 0 in b
    ensures 0 in r && |r| == |b|
  {
    var zero := IndexOf(b, 0);
    if tile >= |b| || !IsAdjacent(n, tile, zero) then b
    else
      var r := b[zero := b[tile]][tile := 0];
      assert r[tile] == 0;
      r
  }

  /** One legal slide leads from `a` to `b`. */
  ghost predicate IsSlide(n: nat, a: Board, b: Board)
    requires n > 0 && 0 in a
  {
    exists tile: nat :: CanMove(n, a, tile) && b == MoveTile(n, a, tile)
  }

  ghost predicate SlideAt(n: nat, w: seq<Board>, i: nat)
    requires n > 0 && 0 < i < |w|
  {
    IsBoard(n, w[i - 1]) && IsBoard(n, w[i]) && IsSlide(n, w[i - 1], w[i])
  }

  /** A sequence of boards, each one legal slide after the one before it. */
  ghost predicate IsWalk(n: nat, w: seq<Board>) {
    && n > 0
    && |w| > 0
    && IsBoard(n, w[0])
    && forall i :: 0 < i < |w| ==> SlideAt(n, w, i)
  }

  ghost predicate WalkFromTo(n: nat, w: seq<Board>, a: Board, b: Board) {
    IsWalk(n, w) && w[0] == a && w[|w| - 1] == b
  }

  // ---------- slides keep boards boards, and can be undone ----------

  lemma SolvedIsBoard(n: nat)
    requires n > 0
    ensures IsBoard(n, Solved(n))
  {
  }

  lemma {:induction false} SolvedOnce(n: nat, k: nat, v: nat)
    requires k <= Cells(n)
    ensures multiset(Solved(n)[..k])[v] <= 1
    ensures v != 0 && v > k ==> multiset(Solved(n)[..k])[v] == 0
    ensures v == 0 && k < Cells(n) ==> multiset(Solved(n)[..k])[v] == 0
  {
    if k > 0 {
      SolvedOnce(n, k - 1, v);
      assert Solved(n)[..k] == Solved(n)[..k - 1] + [Solved(n)[k - 1]];
    }
  }

  lemma CountTwice(b: Board, i: nat, j: nat)
    requires i < j < |b| && b[i] == b[j]
    ensures multiset(b)[b[i]] >= 2
  {
    assert b == b[..j] + b[j..];
    assert b[i] in multiset(b[..j]) by { assert b[..j][i] == b[i]; }
    assert b[j] in multiset(b[j..]) by { assert b[j..][0] == b[j]; }
  }

  /** No value stands in two places. */
  lemma DistinctTiles(n: nat, b: Board, i: nat, j: nat)
    requires IsBoard(n, b) && i < |b| && j < |b| && i != j
    ensures b[i] != b[j]
  {
    SolvedOnce(n, Cells(n), b[i]);
    assert Solved(n)[..Cells(n)] == Solved(n);
    if b[i] == b[j] {
      CountTwice(b, if i < j then i else j, if i < j then j else i);
    }
  }

  lemma ValuesBelowCells(n: nat, b: Board, i: nat)
    requires IsBoard(n, b) && i < |b|
    ensures b[i] < Cells(n)
  {
    assert b[i] in multiset(b);
    assert b[i] in Solved(n);
  }

  lemma BlankIsAt(n: nat, b: Board, i: nat)
    requires IsBoard(n, b) && i < |b| && b[i] == 0
    ensures IndexOf(b, 0) == i
  {
    if IndexOf(b, 0) != i { DistinctTiles(n, b, IndexOf(b, 0), i); }
  }

  lemma SwapIsPermutation(b: Board, i: nat, j: nat)
    requires i < |b| && j < |b|
    ensures multiset(b[i := b[j]][j := b[i]]) == multiset(b)
  {
  }

  /** A slide exchanges the blank with a neighbouring tile and changes nothing else. */
  lemma SlideKeepsBoard(n: nat, a: Board, tile: nat)
    requires n > 0 && IsBoard(n, a) && CanMove(n, a, tile)
    ensures IsBoard(n, MoveTile(n, a, tile))
    ensures IndexOf(MoveTile(n, a, tile), 0) == tile
    ensures MoveTile(n, a, tile) != a
  {
    var zero := IndexOf(a, 0);
    SwapIsPermutation(a, zero, tile);
    DistinctTiles(n, a, zero, tile);
    BlankIsAt(n, MoveTile(n, a, tile), tile);
  }

  lemma AdjacencyIsMutual(n: nat, i: nat, j: nat)
    requires n > 0 && IsAdjacent(n, i, j)
    ensures i != j && IsAdjacent(n, j, i)
  {
  }

  lemma MoveSwaps(n: nat, a: Board, tile: nat)
    requires n > 0 && 0 in a && CanMove(n, a, tile)
    ensures MoveTile(n, a, tile) == a[IndexOf(a, 0) := a[tile]][tile := 0]
  {
  }

  /** What a slide does: the tile next to the blank and the blank change places. */
  lemma SlideParts(n: nat, a: Board, b: Board) returns (zero: nat, tile: nat)
    requires n > 0 && IsBoard(n, a) && IsSlide(n, a, b)
    ensures IsBoard(n, b) && zero == IndexOf(a, 0) && tile == IndexOf(b, 0)
    ensures zero != tile && IsAdjacent(n, tile, zero) && IsAdjacent(n, zero, tile)
    ensures tile < |a| && b == a[zero := a[tile]][tile := 0]
  {
    zero := IndexOf(a, 0);
    tile :| CanMove(n, a, tile) && b == MoveTile(n, a, tile);
    MoveSwaps(n, a, tile);
    AdjacencyIsMutual(n, tile, zero);
    SlideKeepsBoard(n, a, tile);
  }

  /** Moving the same tile back undoes a slide. */
  lemma SlideReversible(n: nat, a: Board, b: Board)
    requires n > 0 && IsBoard(n, a) && IsSlide(n, a, b)
    ensures IsBoard(n, b) && IsSlide(n, b, a)
  {
    var zero, tile := SlideParts(n, a, b);
    assert CanMove(n, b, zero);
    assert MoveTile(n, b, zero) == a;
  }

  /** Hence a walk can be walked backwards. */
  lemma WalkReversible(n: nat, w: seq<Board>)
    requires IsWalk(n, w)
    ensures WalkFromTo(n, Backwards(w), w[|w| - 1], w[0])
  {
    var r := Backwards(w);
    if |w| > 1 { assert SlideAt(n, w, |w| - 1); }
    forall i | 0 < i < |r| ensures SlideAt(n, r, i) {
      assert SlideAt(n, w, |w| - i);
      SlideReversible(n, w[|w| - 1 - i], w[|w| - i]);
    }
  }

  lemma WalkPrepend(n: nat, a: Board, w: seq<Board>)
    requires IsWalk(n, w) && IsBoard(n, a) && IsSlide(n, a, w[0])
    ensures IsWalk(n, [a] + w)
  {
    var v := [a] + w;
    forall i | 0 < i < |v| ensures SlideAt(n, v, i) {
      if i > 1 { assert SlideAt(n, w, i - 1); }
    }
  }

  lemma WalkAppend(n: nat, w: seq<Board>, b: Board)
    requires IsWalk(n, w) && IsBoard(n, w[|w| - 1]) && IsBoard(n, b) && IsSlide(n, w[|w| - 1], b)
    ensures IsWalk(n, w + [b])
  {
    var v := w + [b];
    forall i | 0 < i < |v| ensures SlideAt(n, v, i) {
      if i < |w| { assert SlideAt(n, w, i); }
    }
  }

  lemma WalkSuffix(n: nat, w: seq<Board>, i: nat)
    requires IsWalk(n, w) && i < |w|
    ensures IsWalk(n, w[i..]) && w[i..][|w[i..]| - 1] == w[|w| - 1]
  {
    if i > 0 { assert SlideAt(n, w, i); }
    forall j | 0 < j < |w[i..]| ensures SlideAt(n, w[i..], j) {
      assert SlideAt(n, w, i + j);
    }
  }

  lemma WalkBoards(n: nat, w: seq<Board>, i: nat)
    requires IsWalk(n, w) && i < |w|
    ensures IsBoard(n, w[i])
  {
    if i > 0 { assert SlideAt(n, w, i); }
  }

  lemma {:induction false} SameRowIndexes(n: nat, i: nat, j: nat)
    requires n > 0 && Row(n, i) == Row(n, j)
    ensures i - j == Col(n, i) - Col(n, j)
  {
    if i >= n && j >= n {
      SameRowIndexes(n, i - n, j - n);
    }
  }

  lemma {:induction false} NextRowIndexes(n: nat, i: nat, j: nat)
    requires n > 0 && Row(n, i) == Row(n, j) + 1 && Col(n, i) == Col(n, j)
    ensures i == j + n
  {
    SameRowIndexes(n, i - n, j);
  }

  /** Neighbouring cells are next to each other in the row, or exactly one row apart. */
  lemma AdjacentIndexes(n: nat, i: nat, j: nat)
    requires n > 0 && IsAdjacent(n, i, j)
    ensures i - j == 1 || j - i == 1 || i - j == n || j - i == n
  {
    if Row(n, i) == Row(n, j) {
      SameRowIndexes(n, i, j);
    } else if Row(n, i) > Row(n, j) {
      NextRowIndexes(n, i, j);
    } else {
      NextRowIndexes(n, j, i);
    }
  }

  // ---------- the Manhattan heuristic ----------

  function TileDistance(n: nat, index: nat, value: nat): nat
    requires n > 0
  {
    if value == 0 then 0
    else Abs(Row(n, index) - Row(n, value - 1)) + Abs(Col(n, index) - Col(n, value - 1))
  }

  function ManhattanUpTo(n: nat, b: Board, k: nat): nat
    requires n > 0 && k <= |b|
  {
    if k == 0 then 0 else ManhattanUpTo(n, b, k - 1) + TileDistance(n, k - 1, b[k - 1])
  }

  function Manhattan(n: nat, b: Board): nat
    requires n > 0
  {
    ManhattanUpTo(n, b, |b|)
  }

  lemma {:induction false} ManhattanTwoChanges(n: nat, a: Board, b: Board, x: nat, y: nat, k: nat)
    requires n > 0 && |a| == |b| && k <= |a| && x < |a| && y < |a| && x != y
    requires forall i :: 0 <= i < |a| && i != x && i != y ==> a[i] == b[i]
    ensures ManhattanUpTo(n, b, k) - ManhattanUpTo(n, a, k)
         == (if x < k then TileDistance(n, x, b[x]) - TileDistance(n, x, a[x]) else 0)
          + (if y < k then TileDistance(n, y, b[y]) - TileDistance(n, y, a[y]) else 0)
  {
    if k > 0 {
      ManhattanTwoChanges(n, a, b, x, y, k - 1);
    }
  }

  lemma Triangle(a: int, b: int, c: int)
    ensures Abs(a - c) <= Abs(a - b) + Abs(b - c)
  {
  }

  lemma NeighbourDistance(n: nat, i: nat, j: nat, value: nat)
    requires n > 0 && IsAdjacent(n, i, j)
    ensures TileDistance(n, i, value) <= TileDistance(n, j, value) + 1
  {
    if value != 0 {
      Triangle(Row(n, i), Row(n, j), Row(n, value - 1));
      Triangle(Col(n, i), Col(n, j), Col(n, value - 1));
    }
  }

  /** A slide changes the heuristic by at most one. */
  lemma ManhattanConsistent(n: nat, a: Board, b: Board)
    requires n > 0 && IsBoard(n, a) && IsSlide(n, a, b)
    ensures -1 <= Manhattan(n, b) - Manhattan(n, a) <= 1
  {
    var zero, tile := SlideParts(n, a, b);
    NeighbourDistance(n, zero, tile, a[tile]);
    NeighbourDistance(n, tile, zero, a[tile]);
    ManhattanTwoChanges(n, a, b, zero, tile, |a|);
    assert TileDistance(n, tile, 0) == 0 == TileDistance(n, zero, 0);
  }

  lemma {:induction false} ManhattanOfSolved(n: nat, k: nat)
    requires n > 0 && k <= Cells(n)
    ensures ManhattanUpTo(n, Solved(n), k) == 0
  {
    if k > 0 {
      ManhattanOfSolved(n, k - 1);
    }
  }

  /** The heuristic never overestimates: no walk to the solved board is shorter than it. */
  lemma {:induction false} ManhattanAdmissible(n: nat, w: seq<Board>)
    requires IsWalk(n, w) && w[|w| - 1] == Solved(n)
    ensures Manhattan(n, w[0]) <= |w| - 1
    decreases |w|
  {
    if |w| == 1 {
      ManhattanOfSolved(n, Cells(n));
    } else {
      assert SlideAt(n, w, 1);
      ManhattanConsistent(n, w[0], w[1]);
      WalkSuffix(n, w, 1);
      ManhattanAdmissible(n, w[1..]);
    }
  }

  // ---------- inversion parity ----------

  function Tiles(b: Board): Board {
    if b == [] then [] else (if b[0] != 0 then [b[0]] else []) + Tiles(b[1..])
  }

  /** How many values of `s` are smaller than `v`. */
  function Smaller(v: nat, s: Board): nat {
    if s == [] then 0 else (if v > s[0] then 1 else 0) + Smaller(v, s[1..])
  }

  function Inversions(s: Board): nat {
    if s == [] then 0 else Smaller(s[0], s[1..]) + Inversions(s[1..])
  }

  predicate IsSolvable(b: Board) {
    Inversions(Tiles(b)) % 2 == 0
  }

  /** The two nested counting loops compute the number of inverted pairs of tiles. */
  method CountInversions(b: Board) returns (inversions: nat)
    ensures inversions == Inversions(Tiles(b))
  {
    var values := Tiles(b);
    inversions := 0;
    for i := 0 to |values|
      invariant inversions + Inversions(values[i..]) == Inversions(values)
    {
      ghost var before := inversions;
      var rest := values[i + 1..];
      for j := 0 to |rest|
        invariant inversions + Smaller(values[i], rest[j..]) == before + Smaller(values[i], rest)
      {
        if values[i] > rest[j] {
          inversions := inversions + 1;
        }
      }
    }
  }

  lemma {:induction false} TilesConcat(a: Board, b: Board)
    ensures Tiles(a + b) == Tiles(a) + Tiles(b)
  {
    if a == [] {
      assert a + b == b;
    } else {
      assert (a + b)[1..] == a[1..] + b;
      TilesConcat(a[1..], b);
    }
  }

  lemma {:induction false} TilesOfNonzero(s: Board)
    requires 0 !in s
    ensures Tiles(s) == s
  {
    if s != [] {
      TilesOfNonzero(s[1..]);
    }
  }

  lemma {:induction false} SmallerConcat(v: nat, a: Board, b: Board)
    ensures Smaller(v, a + b) == Smaller(v, a) + Smaller(v, b)
  {
    if a == [] {
      assert a + b == b;
    } else {
      assert (a + b)[1..] == a[1..] + b;
      SmallerConcat(v, a[1..], b);
    }
  }

  lemma SmallerOfSwap(v: nat, a: Board, x: nat, y: nat, c: Board)
    ensures Smaller(v, a + [x, y] + c) == Smaller(v, a + [y, x] + c)
  {
    SmallerConcat(v, a + [x, y], c);
    SmallerConcat(v, a, [x, y]);
    SmallerConcat(v, a + [y, x], c);
    SmallerConcat(v, a, [y, x]);
  }

  lemma InversionsOfPair(x: nat, y: nat, c: Board)
    ensures Inversions([x, y] + c) == (if x > y then 1 else 0) + Smaller(x, c) + Smaller(y, c) + Inversions(c)
  {
    assert ([x, y] + c)[1..] == [y] + c;
    assert ([y] + c)[1..] == c;
  }

  /** Exchanging two neighbouring different values changes the number of inversions by one. */
  lemma {:induction false} SwapFlipsParity(a: Board, x: nat, y: nat, c: Board)
    requires x != y
    ensures Inversions(a + [x, y] + c) % 2 != Inversions(a + [y, x] + c) % 2
  {
    if a == [] {
      InversionsOfPair(x, y, c);
      InversionsOfPair(y, x, c);
      assert a + [x, y] + c == [x, y] + c && a + [y, x] + c == [y, x] + c;
    } else {
      assert (a + [x, y] + c)[1..] == a[1..] + [x, y] + c;
      assert (a + [y, x] + c)[1..] == a[1..] + [y, x] + c;
      SmallerOfSwap(a[0], a[1..], x, y, c);
      SwapFlipsParity(a[1..], x, y, c);
    }
  }

  /** Carrying a value over a block of different values flips parity once per value passed. */
  lemma {:induction false} PassBlock(a: Board, block: Board, v: nat, c: Board)
    requires v !in block
    ensures Inversions(a + (block + [v]) + c) % 2 == (Inversions(a + ([v] + block) + c) + |block|) % 2
    decreases |block|
  {
    if block == [] {
      assert block + [v] == [v] + block;
    } else {
      var x, rest := block[0], block[1..];
      PassBlock(a + [x], rest, v, c);
      assert a + [x] + (rest + [v]) + c == a + (block + [v]) + c;
      assert a + [x] + ([v] + rest) + c == a + [x, v] + (rest + c);
      SwapFlipsParity(a, x, v, rest + c);
      assert a + [v, x] + (rest + c) == a + ([v] + block) + c;
    }
  }

  /** Exchanging the blank with a tile an even number of tiles away keeps solvability. */
  lemma BlankJump(a: Board, b: Board, front: Board, block: Board, v: nat, back: Board)
    requires 0 !in block && v !in block && v != 0 && |block| % 2 == 0
    requires a == front + ([0] + block + [v]) + back
    requires b == front + ([v] + block + [0]) + back
    ensures IsSolvable(a) <==> IsSolvable(b)
  {
    TilesOfBlock(block, v);
    TilesOfThree(front, [0] + block + [v], back);
    TilesOfThree(front, [v] + block + [0], back);
    PassBlock(Tiles(front), block, v, Tiles(back));
  }

  lemma TilesOfThree(a: Board, b: Board, c: Board)
    ensures Tiles(a + b + c) == Tiles(a) + Tiles(b) + Tiles(c)
  {
    TilesConcat(a + b, c);
    TilesConcat(a, b);
  }

  lemma TilesOfBlock(block: Board, v: nat)
    requires 0 !in block && v != 0
    ensures Tiles([0] + block + [v]) == block + [v]
    ensures Tiles([v] + block + [0]) == [v] + block
  {
    assert ([0] + block + [v])[1..] == block + [v];
    TilesOfNonzero(block + [v]);
    TilesConcat([v] + block, [0]);
    assert Tiles([0]) == [];
    TilesOfNonzero([v] + block);
  }

  /** Every legal slide on a board of odd width keeps the parity of the inversions. */
  lemma SlideKeepsParity(n: nat, a: Board, b: Board)
    requires n % 2 == 1 && IsBoard(n, a) && IsSlide(n, a, b)
    ensures IsSolvable(a) <==> IsSolvable(b)
  {
    var zero, tile := SlideParts(n, a, b);
    AdjacentIndexes(n, tile, zero);
    if zero < tile {
      AllDistinct(n, a);
      SwapKeepsParity(a, b, zero, tile);
    } else {
      AllDistinct(n, b);
      SwapKeepsParity(b, a, tile, zero);
    }
  }

  lemma AllDistinct(n: nat, b: Board)
    requires IsBoard(n, b)
    ensures forall i, j :: 0 <= i < |b| && 0 <= j < |b| && i != j ==> b[i] != b[j]
  {
    forall i, j | 0 <= i < |b| && 0 <= j < |b| && i != j ensures b[i] != b[j] {
      DistinctTiles(n, b, i, j);
    }
  }

  lemma SwapKeepsParity(a: Board, b: Board, lo: nat, hi: nat)
    requires lo < hi < |a| && b == a[lo := a[hi]][hi := a[lo]] && (hi - lo) % 2 == 1
    requires a[lo] == 0 && (forall i :: 0 <= i < |a| && i != lo ==> a[i] != 0)
    requires forall i :: lo < i < hi ==> a[i] != a[hi]
    ensures IsSolvable(a) <==> IsSolvable(b)
  {
    var front, block, back := a[..lo], a[lo + 1..hi], a[hi + 1..];
    assert a == front + ([0] + block + [a[hi]]) + back;
    assert b == front + ([a[hi]] + block + [0]) + back;
    BlankJump(a, b, front, block, a[hi], back);
  }

  lemma {:induction false} AscendingHasNoInversions(s: Board)
    requires forall i, j :: 0 <= i < j < |s| ==> s[i] < s[j]
    ensures Inversions(s) == 0
  {
    if s != [] {
      AscendingHasNoInversions(s[1..]);
      NothingSmaller(s[0], s[1..]);
    }
  }

  lemma {:induction false} NothingSmaller(v: nat, s: Board)
    requires forall i :: 0 <= i < |s| ==> v <= s[i]
    ensures Smaller(v, s) == 0
  {
    if s != [] {
      NothingSmaller(v, s[1..]);
    }
  }

  lemma SolvedIsSolvable(n: nat)
    requires n > 0
    ensures IsSolvable(Solved(n))
  {
    var front := Solved(n)[..Cells(n) - 1];
    SolvedEndsInBlank(n);
    AscendingHasNoInversions(front);
  }

  lemma SolvedEndsInBlank(n: nat)
    requires n > 0
    ensures Tiles(Solved(n)) == Solved(n)[..Cells(n) - 1]
  {
    var s := Solved(n);
    var front := s[..Cells(n) - 1];
    assert s == front + [0];
    TilesConcat(front, [0]);
    assert Tiles([0]) == [];
    TilesOfNonzero(front);
  }

  /** The parity guard never turns away a board that some sequence of slides solves. */
  lemma {:induction false} ReachableImpliesSolvable(n: nat, w: seq<Board>)
    requires n % 2 == 1 && IsWalk(n, w) && w[|w| - 1] == Solved(n)
    ensures IsSolvable(w[0])
    decreases |w|
  {
    if |w| == 1 {
      SolvedIsSolvable(n);
    } else {
      assert SlideAt(n, w, 1);
      SlideKeepsParity(n, w[0], w[1]);
      WalkSuffix(n, w, 1);
      ReachableImpliesSolvable(n, w[1..]);
    }
  }
}
