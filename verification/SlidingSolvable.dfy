/** The other half of the parity guard: on a board of odd width, every permutation that passes it can be
    solved.

    The cells are numbered along a snake, row by row and back.  Moving the blank along the snake leaves the
    line of tiles as it is; moving it from a row straight to the next carries one tile over a part of the
    line.  Two such moves make a turn of three tiles, and there are enough of them to turn any three. */
module SlidingSolvable {
  import opened Grid
  import opened SlidingBoard
  import opened ThreeCycles

  // ---------- boards that lead to each other ----------

  ghost predicate Linked(n: nat, a: Board, b: Board) {
    exists w :: WalkFromTo(n, w, a, b)
  }

  lemma LinkedSelf(n: nat, a: Board)
    requires n > 0 && IsBoard(n, a)
    ensures Linked(n, a, a)
  {
    assert WalkFromTo(n, [a], a, a);
  }

  lemma LinkedBack(n: nat, a: Board, b: Board)
    requires Linked(n, a, b)
    ensures Linked(n, b, a)
  {
    var w :| WalkFromTo(n, w, a, b);
    WalkReversible(n, w);
  }

  lemma LinkedOn(n: nat, a: Board, b: Board, c: Board)
    requires Linked(n, a, b) && Linked(n, b, c)
    ensures Linked(n, a, c)
  {
    var v :| WalkFromTo(n, v, a, b);
    var w :| WalkFromTo(n, w, b, c);
    var u := v + w[1..];
    forall i | 0 < i < |u| ensures SlideAt(n, u, i) {
      if i < |v| {
        assert SlideAt(n, v, i);
      } else {
        assert SlideAt(n, w, i - |v| + 1);
        assert u[i] == w[i - |v| + 1] && u[i - 1] == w[i - |v|];
      }
    }
    assert WalkFromTo(n, u, a, c);
  }

  lemma LinkedBySlide(n: nat, a: Board, b: Board)
    requires n > 0 && IsBoard(n, a) && IsSlide(n, a, b)
    ensures IsBoard(n, b) && Linked(n, a, b)
  {
    SlideReversible(n, a, b);
    assert SlideAt(n, [a, b], 1);
    assert WalkFromTo(n, [a, b], a, b);
  }

  lemma LinkedAreBoards(n: nat, a: Board, b: Board)
    requires Linked(n, a, b)
    ensures n > 0 && IsBoard(n, a) && IsBoard(n, b)
  {
    var w :| WalkFromTo(n, w, a, b);
    WalkBoards(n, w, |w| - 1);
  }

  lemma {:induction false} WalkKeepsParity(n: nat, w: seq<Board>, i: nat)
    requires n % 2 == 1 && IsWalk(n, w) && i < |w|
    ensures IsSolvable(w[0]) <==> IsSolvable(w[i])
  {
    if i > 0 {
      WalkKeepsParity(n, w, i - 1);
      assert SlideAt(n, w, i);
      SlideKeepsParity(n, w[i - 1], w[i]);
    }
  }

  lemma LinkedKeepsParity(n: nat, a: Board, b: Board)
    requires n % 2 == 1 && Linked(n, a, b)
    ensures IsSolvable(a) <==> IsSolvable(b)
  {
    var w :| WalkFromTo(n, w, a, b);
    WalkKeepsParity(n, w, |w| - 1);
  }

  // ---------- the snake ----------

  /** The cell at place `p` of the snake, and the place of a cell: odd rows run backwards. */
  function Snake(n: nat, p: nat): nat
    requires n > 0
  {
    Rows(n, Row(n, p)) + if Row(n, p) % 2 == 0 then Col(n, p) else n - 1 - Col(n, p)
  }

  lemma SnakeIsInvolution(n: nat, p: nat)
    requires n > 0 && p < Cells(n)
    ensures Snake(n, p) < Cells(n) && Snake(n, Snake(n, p)) == p
    ensures Row(n, Snake(n, p)) == Row(n, p)
    ensures Col(n, Snake(n, p)) == if Row(n, p) % 2 == 0 then Col(n, p) else n - 1 - Col(n, p)
  {
    var c := if Row(n, p) % 2 == 0 then Col(n, p) else n - 1 - Col(n, p);
    RowBelow(n, p, n);
    CellIndex(n, c, Row(n, p));
    CellBelow(n, c, Row(n, p), n);
    IndexCell(n, p);
  }

  /** The next place of the snake is in the next column, or in the first one of the next row. */
  lemma {:induction false} NextPlace(n: nat, p: nat)
    requires n > 0
    ensures if Col(n, p) + 1 < n then Row(n, p + 1) == Row(n, p) && Col(n, p + 1) == Col(n, p) + 1
            else Row(n, p + 1) == Row(n, p) + 1 && Col(n, p + 1) == 0
  {
    if p >= n {
      NextPlace(n, p - n);
      assert p + 1 - n == (p - n) + 1;
    }
  }

  /** Places that follow each other are neighbouring cells. */
  lemma SnakeNeighbours(n: nat, p: nat)
    requires n > 0 && p + 1 < Cells(n)
    ensures IsAdjacent(n, Snake(n, p), Snake(n, p + 1))
  {
    NextPlace(n, p);
    SnakeIsInvolution(n, p);
    SnakeIsInvolution(n, p + 1);
    var row := Row(n, p);
    assert (row + 1) % 2 != row % 2;
  }

  /** The last place of row `r`. */
  function TurnOf(n: nat, r: nat): nat
    requires n > 0
  {
    Rows(n, r) + (n - 1)
  }

  lemma BelowEachOther(n: nat, a: nat, b: nat)
    requires n > 0 && Row(n, b) == Row(n, a) + 1 && Col(n, b) == Col(n, a)
    ensures IsAdjacent(n, a, b)
  {
  }

  /** The cell `k` places before the turn at the end of a row, and the one `k` places after its beginning. */
  lemma BeforeTheTurn(n: nat, r: nat, k: nat)
    requires k < n && r < n
    ensures k <= TurnOf(n, r) < Cells(n) && Row(n, Snake(n, TurnOf(n, r) - k)) == r
    ensures Col(n, Snake(n, TurnOf(n, r) - k)) == if r % 2 == 0 then n - 1 - k else k
  {
    CellIndex(n, n - 1 - k, r);
    CellBelow(n, n - 1 - k, r, n);
    CellBelow(n, n - 1, r, n);
    assert TurnOf(n, r) - k == Rows(n, r) + (n - 1 - k);
    SnakeIsInvolution(n, TurnOf(n, r) - k);
  }

  lemma AfterTheTurn(n: nat, r: nat, k: nat)
    requires k < n && r < n
    ensures Rows(n, r) + k < Cells(n) && Row(n, Snake(n, Rows(n, r) + k)) == r
    ensures Col(n, Snake(n, Rows(n, r) + k)) == if r % 2 == 0 then k else n - 1 - k
  {
    CellIndex(n, k, r);
    CellBelow(n, k, r, n);
    SnakeIsInvolution(n, Rows(n, r) + k);
  }

  /** The places `k` before and `k` after the turn from one row to the next are neighbouring cells too. */
  lemma AcrossTheTurn(n: nat, r: nat, k: nat)
    requires k < n && r + 1 < n
    ensures k <= TurnOf(n, r) && TurnOf(n, r) + 1 + k < Cells(n)
    ensures IsAdjacent(n, Snake(n, TurnOf(n, r) - k), Snake(n, TurnOf(n, r) + 1 + k))
  {
    var next := r + 1;
    BeforeTheTurn(n, r, k);
    AfterTheTurn(n, next, k);
    assert Rows(n, next) + k == TurnOf(n, r) + 1 + k;
    assert next % 2 != r % 2;
    BelowEachOther(n, Snake(n, TurnOf(n, r) - k), Snake(n, TurnOf(n, r) + 1 + k));
  }

  // ---------- boards laid out along the snake ----------

  /** The board whose cells hold `s` along the snake. */
  function Spread(n: nat, s: seq<nat>): (b: Board)
    requires n > 0 && |s| == Cells(n)
    ensures |b| == Cells(n)
  {
    seq(Cells(n), c requires 0 <= c < Cells(n) => SnakeIsInvolution(n, c); s[Snake(n, c)])
  }

  lemma SpreadAt(n: nat, s: seq<nat>, p: nat)
    requires n > 0 && |s| == Cells(n) && p < Cells(n)
    ensures Snake(n, p) < Cells(n) && Spread(n, s)[Snake(n, p)] == s[p]
  {
    SnakeIsInvolution(n, p);
  }

  lemma SpreadSwap(n: nat, s: seq<nat>, i: nat, j: nat)
    requires n > 0 && |s| == Cells(n) && i < Cells(n) && j < Cells(n) && i != j
    ensures Snake(n, i) < Cells(n) && Snake(n, j) < Cells(n)
    ensures Spread(n, s[i := s[j]][j := s[i]]) == Spread(n, s)[Snake(n, i) := s[j]][Snake(n, j) := s[i]]
  {
    SnakeIsInvolution(n, i);
    SnakeIsInvolution(n, j);
    var a, b := Spread(n, s[i := s[j]][j := s[i]]), Spread(n, s)[Snake(n, i) := s[j]][Snake(n, j) := s[i]];
    forall c | 0 <= c < Cells(n) ensures a[c] == b[c] {
      SnakeIsInvolution(n, c);
      assert c == Snake(n, i) <==> Snake(n, c) == i;
      assert c == Snake(n, j) <==> Snake(n, c) == j;
    }
  }

  /** The line of tiles with the blank put in at place `i`. */
  function Put(line: Line, i: nat): seq<nat>
    requires i <= |line|
  {
    line[..i] + [0] + line[i..]
  }

  /** The value at `hi` carried forward to `lo`, and back again. */
  function Fetched(a: Line, lo: nat, hi: nat): (b: Line)
    requires lo <= hi < |a|
    ensures |b| == |a|
  {
    a[..lo] + [a[hi]] + a[lo..hi] + a[hi + 1..]
  }

  function Returned(a: Line, lo: nat, hi: nat): (b: Line)
    requires lo <= hi < |a|
    ensures |b| == |a|
  {
    a[..lo] + a[lo + 1..hi + 1] + [a[lo]] + a[hi + 1..]
  }

  lemma PutFetched(a: Line, i: nat, j: nat)
    requires i < j <= |a|
    ensures Put(a, i)[i := Put(a, i)[j]][j := 0] == Put(Fetched(a, i, j - 1), j)
  {
  }

  lemma PutReturned(a: Line, i: nat, j: nat)
    requires i < j <= |a|
    ensures Put(a, j)[j := Put(a, j)[i]][i := 0] == Put(Returned(a, i, j - 1), i)
  {
  }

  function Laid(n: nat, line: Line, i: nat): Board
    requires n > 0 && |line| + 1 == Cells(n) && i <= |line|
  {
    Spread(n, Put(line, i))
  }

  /** The blank moves from place `i` to the neighbouring place `j`. */
  lemma BlankMoves(n: nat, s: seq<nat>, i: nat, j: nat)
    requires n > 0 && |s| == Cells(n) && i < Cells(n) && j < Cells(n) && s[i] == 0
    requires IsBoard(n, Spread(n, s)) && IsAdjacent(n, Snake(n, i), Snake(n, j))
    ensures IsBoard(n, Spread(n, s[i := s[j]][j := 0])) && Linked(n, Spread(n, s), Spread(n, s[i := s[j]][j := 0]))
  {
    var b := Spread(n, s);
    SpreadAt(n, s, i);
    SpreadAt(n, s, j);
    BlankIsAt(n, b, Snake(n, i));
    AdjacencyIsMutual(n, Snake(n, i), Snake(n, j));
    assert CanMove(n, b, Snake(n, j));
    MoveSwaps(n, b, Snake(n, j));
    SpreadSwap(n, s, i, j);
    LinkedBySlide(n, b, Spread(n, s[i := s[j]][j := 0]));
  }

  lemma BlankFetches(n: nat, a: Line, i: nat, j: nat)
    requires n > 0 && |a| + 1 == Cells(n) && i < j <= |a| && IsBoard(n, Laid(n, a, i))
    requires IsAdjacent(n, Snake(n, i), Snake(n, j))
    ensures Linked(n, Laid(n, a, i), Laid(n, Fetched(a, i, j - 1), j))
  {
    BlankMoves(n, Put(a, i), i, j);
    PutFetched(a, i, j);
  }

  lemma BlankReturns(n: nat, a: Line, i: nat, j: nat)
    requires n > 0 && |a| + 1 == Cells(n) && i < j <= |a| && IsBoard(n, Laid(n, a, j))
    requires IsAdjacent(n, Snake(n, i), Snake(n, j))
    ensures Linked(n, Laid(n, a, j), Laid(n, Returned(a, i, j - 1), i))
  {
    AdjacencyIsMutual(n, Snake(n, i), Snake(n, j));
    BlankMoves(n, Put(a, j), j, i);
    PutReturned(a, i, j);
  }

  /** Along the snake the blank moves without changing the line of tiles. */
  lemma {:induction false} BlankToEnd(n: nat, a: Line, i: nat)
    requires n > 0 && |a| + 1 == Cells(n) && i <= |a| && IsBoard(n, Laid(n, a, i))
    ensures Linked(n, Laid(n, a, i), Laid(n, a, |a|))
    decreases |a| - i
  {
    if i == |a| {
      LinkedSelf(n, Laid(n, a, i));
    } else {
      SnakeNeighbours(n, i);
      BlankFetches(n, a, i, i + 1);
      assert Fetched(a, i, i) == a;
      LinkedAreBoards(n, Laid(n, a, i), Laid(n, a, i + 1));
      BlankToEnd(n, a, i + 1);
      LinkedOn(n, Laid(n, a, i), Laid(n, a, i + 1), Laid(n, a, |a|));
    }
  }

  lemma {:induction false} BlankFromEnd(n: nat, a: Line, i: nat)
    requires n > 0 && |a| + 1 == Cells(n) && i <= |a| && IsBoard(n, Laid(n, a, |a|))
    ensures Linked(n, Laid(n, a, |a|), Laid(n, a, i))
    decreases |a| - i
  {
    if i == |a| {
      LinkedSelf(n, Laid(n, a, i));
    } else {
      BlankFromEnd(n, a, i + 1);
      LinkedAreBoards(n, Laid(n, a, |a|), Laid(n, a, i + 1));
      SnakeNeighbours(n, i);
      BlankReturns(n, a, i, i + 1);
      assert Returned(a, i, i) == a;
      LinkedOn(n, Laid(n, a, |a|), Laid(n, a, i + 1), Laid(n, a, i));
    }
  }

  // ---------- turning the line ----------

  /** Boards with these lines and the blank in the last cell lead to each other. */
  ghost predicate Reach(n: nat, a: Line, b: Line) {
    n > 0 && |a| + 1 == Cells(n) && |b| + 1 == Cells(n) && Linked(n, Laid(n, a, |a|), Laid(n, b, |b|))
  }

  ghost function ReachOf(n: nat): Relation {
    (a, b) => Reach(n, a, b)
  }

  lemma ReachIsReversible(n: nat)
    requires n > 0
    ensures Reversible(ReachOf(n), Cells(n) - 1)
  {
    var r := ReachOf(n);
    forall a, b | r(a, b) ensures r(b, a) && |a| == Cells(n) - 1 {
      LinkedBack(n, Laid(n, a, |a|), Laid(n, b, |b|));
    }
    forall a, b, c | r(a, b) && r(b, c) ensures r(a, c) {
      LinkedOn(n, Laid(n, a, |a|), Laid(n, b, |b|), Laid(n, c, |c|));
    }
  }

  /** The blank goes to place `i`, from there the line changes, and the blank goes back. */
  lemma ThereAndBack(n: nat, a: Line, i: nat, b: Line, j: nat)
    requires Reach(n, a, a) && |b| == |a| && i <= |a| && j <= |b| && Linked(n, Laid(n, a, i), Laid(n, b, j))
    ensures Reach(n, a, b)
  {
    LinkedAreBoards(n, Laid(n, a, |a|), Laid(n, a, |a|));
    LinkedAreBoards(n, Laid(n, a, i), Laid(n, b, j));
    BlankFromEnd(n, a, i);
    BlankToEnd(n, b, j);
    LinkedOn(n, Laid(n, a, |a|), Laid(n, a, i), Laid(n, b, j));
    LinkedOn(n, Laid(n, a, |a|), Laid(n, b, j), Laid(n, b, |b|));
  }

  lemma LaidIsBoard(n: nat, a: Line, i: nat)
    requires Reach(n, a, a) && i <= |a|
    ensures IsBoard(n, Laid(n, a, i))
  {
    LinkedAreBoards(n, Laid(n, a, |a|), Laid(n, a, |a|));
    BlankFromEnd(n, a, i);
    LinkedAreBoards(n, Laid(n, a, |a|), Laid(n, a, i));
  }

  /** Between neighbouring cells the blank carries one tile over those between them on the line. */
  lemma FetchBetween(n: nat, a: Line, i: nat, last: nat)
    requires n > 0 && i <= last < |a| && Reach(n, a, a) && IsAdjacent(n, Snake(n, i), Snake(n, last + 1))
    ensures Reach(n, a, Fetched(a, i, last))
  {
    LaidIsBoard(n, a, i);
    BlankFetches(n, a, i, last + 1);
    ThereAndBack(n, a, i, Fetched(a, i, last), last + 1);
  }

  lemma ReturnBetween(n: nat, a: Line, i: nat, last: nat)
    requires n > 0 && i <= last < |a| && Reach(n, a, a) && IsAdjacent(n, Snake(n, i), Snake(n, last + 1))
    ensures Reach(n, a, Returned(a, i, last))
  {
    LaidIsBoard(n, a, last + 1);
    BlankReturns(n, a, i, last + 1);
    ThereAndBack(n, a, last + 1, Returned(a, i, last), i);
  }

  /** By moving the blank across a turn, the tile `k` places after it comes `k` places before it. */
  lemma FetchAcross(n: nat, r: nat, k: nat, a: Line)
    requires k < n && r + 1 < n && Reach(n, a, a)
    ensures k <= TurnOf(n, r) && TurnOf(n, r) + k < |a|
    ensures Reach(n, a, Fetched(a, TurnOf(n, r) - k, TurnOf(n, r) + k))
  {
    AcrossTheTurn(n, r, k);
    FetchBetween(n, a, TurnOf(n, r) - k, TurnOf(n, r) + k);
  }

  lemma ReturnAcross(n: nat, r: nat, k: nat, a: Line)
    requires k < n && r + 1 < n && Reach(n, a, a)
    ensures k <= TurnOf(n, r) && TurnOf(n, r) + k < |a|
    ensures Reach(n, a, Returned(a, TurnOf(n, r) - k, TurnOf(n, r) + k))
  {
    AcrossTheTurn(n, r, k);
    ReturnBetween(n, a, TurnOf(n, r) - k, TurnOf(n, r) + k);
  }

  // ---------- three tiles around a turn of the snake ----------

  lemma FetchedAt(a: Line, lo: nat, hi: nat, x: nat)
    requires lo <= hi < |a| && x < |a|
    ensures Fetched(a, lo, hi)[x] == if x == lo then a[hi] else if lo < x <= hi then a[x - 1] else a[x]
  {
  }

  lemma ReturnedAt(a: Line, lo: nat, hi: nat, x: nat)
    requires lo <= hi < |a| && x < |a|
    ensures Returned(a, lo, hi)[x] == if x == hi then a[lo] else if lo <= x < hi then a[x + 1] else a[x]
  {
  }

  lemma FetchedCycle(a: Line, lo: nat, hi: nat)
    requires lo + 1 < hi < |a|
    ensures Returned(Fetched(a, lo, hi), lo + 1, hi - 1) == Cycled(a, lo, hi - 1, hi)
  {
    var b := Fetched(a, lo, hi);
    var c, d := Returned(b, lo + 1, hi - 1), Cycled(a, lo, hi - 1, hi);
    forall x | 0 <= x < |a| ensures c[x] == d[x] {
      ReturnedAt(b, lo + 1, hi - 1, x);
      FetchedAt(a, lo, hi, x);
      FetchedAt(a, lo, hi, lo + 1);
      if x + 1 < |a| { FetchedAt(a, lo, hi, x + 1); }
    }
  }

  lemma ReturnedCycle(a: Line, lo: nat, hi: nat)
    requires lo + 1 < hi < |a|
    ensures Fetched(Returned(a, lo, hi), lo + 1, hi - 1) == Cycled(a, lo, hi, lo + 1)
  {
    var b := Returned(a, lo, hi);
    var c, d := Fetched(b, lo + 1, hi - 1), Cycled(a, lo, hi, lo + 1);
    forall x | 0 <= x < |a| ensures c[x] == d[x] {
      FetchedAt(b, lo + 1, hi - 1, x);
      ReturnedAt(a, lo, hi, x);
      ReturnedAt(a, lo, hi, hi - 1);
      if x > 0 { ReturnedAt(a, lo, hi, x - 1); }
    }
  }

  lemma ReachIsBoth(n: nat, a: Line, b: Line)
    requires Reach(n, a, b)
    ensures Reach(n, b, b) && |b| == |a|
  {
    LinkedBack(n, Laid(n, a, |a|), Laid(n, b, |b|));
    LinkedOn(n, Laid(n, b, |b|), Laid(n, a, |a|), Laid(n, b, |b|));
  }

  lemma ReachOn(n: nat, a: Line, b: Line, c: Line)
    requires Reach(n, a, b) && Reach(n, b, c)
    ensures Reach(n, a, c)
  {
    LinkedOn(n, Laid(n, a, |a|), Laid(n, b, |b|), Laid(n, c, |c|));
  }

  /** The outermost tile before the turn and the last two after it. */
  lemma BackReach(n: nat, r: nat, k: nat, a: Line)
    requires 0 < k < n && r + 1 < n && Reach(n, a, a)
    ensures k <= TurnOf(n, r) && TurnOf(n, r) + k < |a|
    ensures Reach(n, a, Cycled(a, TurnOf(n, r) - k, TurnOf(n, r) + k - 1, TurnOf(n, r) + k))
  {
    FetchAcross(n, r, k, a);
    var lo, hi := TurnOf(n, r) - k, TurnOf(n, r) + k;
    var b := Fetched(a, lo, hi);
    ReachIsBoth(n, a, b);
    ReturnAcross(n, r, k - 1, b);
    FetchedCycle(a, lo, hi);
    ReachOn(n, a, b, Cycled(a, lo, hi - 1, hi));
  }

  /** The outermost tile after the turn and the first two before it. */
  lemma FrontReach(n: nat, r: nat, k: nat, a: Line)
    requires 0 < k < n && r + 1 < n && Reach(n, a, a)
    ensures k <= TurnOf(n, r) && TurnOf(n, r) + k < |a|
    ensures Reach(n, a, Cycled(a, TurnOf(n, r) - k, TurnOf(n, r) + k, TurnOf(n, r) - k + 1))
  {
    ReturnAcross(n, r, k, a);
    var lo, hi := TurnOf(n, r) - k, TurnOf(n, r) + k;
    var b := Returned(a, lo, hi);
    ReachIsBoth(n, a, b);
    FetchAcross(n, r, k - 1, b);
    ReturnedCycle(a, lo, hi);
    ReachOn(n, a, b, Cycled(a, lo, hi, lo + 1));
  }

  lemma BackTurns(n: nat, r: nat, k: nat, lo: nat, hi: nat)
    requires 0 < k < n && r + 1 < n && lo + k == TurnOf(n, r) && hi == TurnOf(n, r) + k
    ensures Turns(ReachOf(n), Cells(n) - 1, lo, hi - 1, hi)
  {
    AcrossTheTurn(n, r, k);
    forall a | Reach(n, a, a) ensures Reach(n, a, Cycled(a, lo, hi - 1, hi)) {
      BackReach(n, r, k, a);
    }
  }

  lemma FrontTurns(n: nat, r: nat, k: nat, lo: nat, hi: nat)
    requires 0 < k < n && r + 1 < n && lo + k == TurnOf(n, r) && hi == TurnOf(n, r) + k
    ensures Turns(ReachOf(n), Cells(n) - 1, lo, hi, lo + 1)
  {
    AcrossTheTurn(n, r, k);
    forall a | Reach(n, a, a) ensures Reach(n, a, Cycled(a, lo, hi, lo + 1)) {
      FrontReach(n, r, k, a);
    }
  }

  /** The two outermost places before and after a turn. */
  lemma OuterTurn(n: nat, r: nat, k: nat, lo: nat, hi: nat)
    requires 0 < k < n && r + 1 < n && lo + k == TurnOf(n, r) && hi == TurnOf(n, r) + k
    ensures AllTurn(ReachOf(n), Cells(n) - 1, {lo, hi - 1, hi} + {lo, hi, lo + 1})
  {
    var reach, m := ReachOf(n), Cells(n) - 1;
    ReachIsReversible(n);
    BackTurns(n, r, k, lo, hi);
    ThreeTurn(reach, m, lo, hi - 1, hi);
    FrontTurns(n, r, k, lo, hi);
    ThreeTurn(reach, m, lo, hi, lo + 1);
    TogetherAllTurn(reach, m, {lo, hi - 1, hi}, {lo, hi, lo + 1}, lo, hi);
  }

  lemma GrownPlaces(lo: nat, hi: nat)
    requires lo + 2 <= hi
    ensures Places(lo, hi + 1) == Places(lo + 1, hi) + ({lo, hi - 1, hi} + {lo, hi, lo + 1})
    ensures lo + 1 in Places(lo + 1, hi) && hi - 1 in Places(lo + 1, hi)
    ensures lo + 2 == hi ==> Places(lo + 1, hi) == {lo + 1}
  {
    InPlaces(lo, hi + 1);
    InPlaces(lo + 1, hi);
  }

  /** All places up to `k` before and after a turn of the snake can be turned. */
  lemma {:induction false} AroundTheTurn(n: nat, r: nat, k: nat, lo: nat, hi: nat)
    requires 0 < k < n && r + 1 < n && lo + k == TurnOf(n, r) && hi == TurnOf(n, r) + k
    ensures AllTurn(ReachOf(n), Cells(n) - 1, Places(lo, hi + 1))
  {
    if k > 1 {
      AroundTheTurn(n, r, k - 1, lo + 1, hi - 1);
    }
    OneTurnWider(n, r, k, lo, hi);
  }

  lemma OneTurnWider(n: nat, r: nat, k: nat, lo: nat, hi: nat)
    requires 0 < k < n && r + 1 < n && lo + k == TurnOf(n, r) && hi == TurnOf(n, r) + k
    requires k > 1 ==> AllTurn(ReachOf(n), Cells(n) - 1, Places(lo + 1, hi))
    ensures AllTurn(ReachOf(n), Cells(n) - 1, Places(lo, hi + 1))
  {
    OuterTurn(n, r, k, lo, hi);
    var inner, outer := Places(lo + 1, hi), {lo, hi - 1, hi} + {lo, hi, lo + 1};
    GrownPlaces(lo, hi);
    if k == 1 {
      assert inner + outer == outer;
    } else {
      ReachIsReversible(n);
      TogetherAllTurn(ReachOf(n), Cells(n) - 1, inner, outer, lo + 1, hi - 1);
    }
  }

  lemma JoinPlaces(a: nat, b: nat, c: nat, d: nat)
    requires a <= c <= b <= d
    ensures Places(a, b) + Places(c, d) == Places(a, d)
    ensures forall i :: c <= i < b ==> i in Places(a, b) && i in Places(c, d)
  {
    InPlaces(a, b);
    InPlaces(c, d);
    InPlaces(a, d);
  }

  /** All places of the first rows can be turned. */
  lemma {:induction false} RowsTurn(n: nat, r: nat, hi: nat)
    requires n >= 3 && r + 1 < n && hi == TurnOf(n, r) + n
    ensures AllTurn(ReachOf(n), Cells(n) - 1, Places(0, hi))
  {
    var lo := TurnOf(n, r) - (n - 1);
    AroundTheTurn(n, r, n - 1, lo, hi - 1);
    if r > 0 {
      var before := TurnOf(n, r - 1) + n;
      assert TurnOf(n, r) == before;
      RowsTurn(n, r - 1, before);
      ReachIsReversible(n);
      JoinPlaces(0, before, lo, hi);
      TogetherAllTurn(ReachOf(n), Cells(n) - 1, Places(0, before), Places(lo, hi), lo, lo + 1);
    }
  }

  lemma AllPlacesTurn(n: nat)
    requires n >= 3
    ensures AllTurn(ReachOf(n), Cells(n) - 1, Places(0, Cells(n) - 1))
  {
    var last := n - 2;
    assert TurnOf(n, last) + n == Rows(n, last + 1) + (n - 1) == Cells(n) - 1;
    RowsTurn(n, last, Cells(n) - 1);
  }

  // ---------- every board that passes the guard ----------

  /** The tiles of a board along the snake, without the blank at place `zero`. */
  function LineOf(n: nat, b: Board, zero: nat): (line: Line)
    requires n > 0 && |b| == Cells(n) && zero < Cells(n)
    ensures |line| + 1 == Cells(n)
  {
    var s := Spread(n, b);
    s[..zero] + s[zero + 1..]
  }

  /** Laying a board out along the snake twice gives it back. */
  lemma SpreadTwice(n: nat, b: Board)
    requires n > 0 && |b| == Cells(n)
    ensures Spread(n, Spread(n, b)) == b
  {
    forall c | 0 <= c < Cells(n) ensures Spread(n, Spread(n, b))[c] == b[c] {
      SnakeIsInvolution(n, c);
    }
  }

  lemma LaidAgain(n: nat, b: Board, zero: nat)
    requires n > 0 && |b| == Cells(n) && zero < Cells(n) && Spread(n, b)[zero] == 0
    ensures Laid(n, LineOf(n, b, zero), zero) == b
  {
    var s := Spread(n, b);
    assert Put(LineOf(n, b, zero), zero) == s;
    SpreadTwice(n, b);
  }

  /** The values of a line are those of the board but the blank, each once. */
  lemma LineValues(n: nat, b: Board, zero: nat)
    requires n > 0 && IsBoard(n, b) && zero < Cells(n) && Spread(n, b)[zero] == 0
    ensures Distinct(LineOf(n, b, zero))
    ensures forall v :: v in LineOf(n, b, zero) <==> v in b && v != 0
  {
    var s, line := Spread(n, b), LineOf(n, b, zero);
    SpreadDistinct(n, b);
    forall v ensures v in line <==> v in b && v != 0 {
      SpreadHas(n, b, v);
      LineHas(s, zero, v);
    }
  }

  lemma SpreadDistinct(n: nat, b: Board)
    requires n > 0 && IsBoard(n, b)
    ensures Distinct(Spread(n, b))
  {
    var s := Spread(n, b);
    forall i, j | 0 <= i < j < |s| ensures s[i] != s[j] {
      SnakeIsInvolution(n, i);
      SnakeIsInvolution(n, j);
      DistinctTiles(n, b, Snake(n, i), Snake(n, j));
    }
  }

  lemma SpreadHas(n: nat, b: Board, v: nat)
    requires n > 0 && |b| == Cells(n)
    ensures v in Spread(n, b) <==> v in b
  {
    var s := Spread(n, b);
    if v in s {
      var p: nat :| p < |s| && s[p] == v;
      SnakeIsInvolution(n, p);
    }
    if v in b {
      var c: nat :| c < |b| && b[c] == v;
      SpreadAt(n, s, c);
      SnakeIsInvolution(n, c);
      SpreadTwice(n, b);
    }
  }

  lemma LineHas(s: seq<nat>, zero: nat, v: nat)
    requires zero < |s| && Distinct(s) && s[zero] == 0
    ensures v in s[..zero] + s[zero + 1..] <==> v in s && v != 0
  {
    assert s == s[..zero] + [0] + s[zero + 1..];
    var front, back := s[..zero], s[zero + 1..];
    assert forall i :: 0 <= i < |front| ==> front[i] == s[i];
    assert forall i :: 0 <= i < |back| ==> back[i] == s[zero + 1 + i];
  }

  /** A board with its blank anywhere is linked to one with the same tiles in line and the blank at the end. */
  lemma ToTheEnd(n: nat, b: Board) returns (line: Line)
    requires n > 0 && IsBoard(n, b)
    ensures |line| + 1 == Cells(n) && Linked(n, b, Laid(n, line, |line|)) && Reach(n, line, line)
    ensures Distinct(line) && forall v :: v in line <==> v in b && v != 0
  {
    var blank := IndexOf(b, 0);
    var zero := Snake(n, blank);
    SnakeIsInvolution(n, blank);
    assert Spread(n, b)[zero] == b[blank];
    line := LineOf(n, b, zero);
    LaidAgain(n, b, zero);
    LineValues(n, b, zero);
    BlankToEnd(n, line, zero);
    LinkedBack(n, b, Laid(n, line, |line|));
    LinkedOn(n, Laid(n, line, |line|), b, Laid(n, line, |line|));
  }

  /** The solved board has its blank at the end of the snake. */
  lemma SolvedAtEnd(n: nat) returns (line: Line)
    requires n % 2 == 1 && n > 1
    ensures |line| + 1 == Cells(n) && Laid(n, line, |line|) == Solved(n)
    ensures Distinct(line) && (forall v :: v in line <==> v in Solved(n) && v != 0)
    ensures line[0] == 1 && line[1] == 2
  {
    var last := Cells(n) - 1;
    LastPlace(n);
    SolvedIsBoard(n);
    assert Spread(n, Solved(n))[last] == 0;
    line := LineOf(n, Solved(n), last);
    LaidAgain(n, Solved(n), last);
    LineValues(n, Solved(n), last);
    FirstPlaces(n);
  }

  lemma LastPlace(n: nat)
    requires n % 2 == 1
    ensures Cells(n) > 0 && Snake(n, Cells(n) - 1) == Cells(n) - 1
  {
    assert Cells(n) - 1 == Rows(n, n - 1) + (n - 1);
    CellIndex(n, n - 1, n - 1);
  }

  lemma FirstPlaces(n: nat)
    requires n > 1
    ensures Cells(n) > 2 && Snake(n, 0) == 0 && Snake(n, 1) == 1
  {
    CellBelow(n, n - 1, 0, n);
    CellBelow(n, n - 1, 1, n);
  }

  /** The solved board with its first two tiles exchanged does not pass the guard. */
  lemma CrossedIsUnsolvable(n: nat, line: Line)
    requires n % 2 == 1 && n > 1 && |line| + 1 == Cells(n) && |line| >= 2
    requires Laid(n, line, |line|) == Solved(n) && line[0] == 1 && line[1] == 2
    ensures !IsSolvable(Laid(n, Crossed(line), |line|))
  {
    CrossedBoard(n, line);
    var b := Solved(n);
    FirstPlaces(n);
    assert b == [1, 2] + b[2..];
    CrossedFront(1, 2, b[2..]);
    SolvedIsSolvable(n);
  }

  lemma CrossedBoard(n: nat, line: Line)
    requires n > 1 && |line| + 1 == Cells(n) && |line| >= 2
    requires Laid(n, line, |line|) == Solved(n) && line[0] == 1 && line[1] == 2
    ensures Laid(n, Crossed(line), |line|) == [2, 1] + Solved(n)[2..]
  {
    FirstPlaces(n);
    var s := Put(line, |line|);
    assert Put(Crossed(line), |line|) == s[0 := s[1]][1 := s[0]];
    SpreadSwap(n, s, 0, 1);
    assert Solved(n)[0 := 2][1 := 1] == [2, 1] + Solved(n)[2..];
  }

  lemma CrossedFront(x: nat, y: nat, rest: Board)
    requires 0 < x < y
    ensures IsSolvable([x, y] + rest) <==> !IsSolvable([y, x] + rest)
  {
    TilesConcat([x, y], rest);
    TilesConcat([y, x], rest);
    TilesOfNonzero([x, y]);
    TilesOfNonzero([y, x]);
    assert [] + [x, y] + Tiles(rest) == [x, y] + Tiles(rest) && [] + [y, x] + Tiles(rest) == [y, x] + Tiles(rest);
    SwapFlipsParity([], x, y, Tiles(rest));
  }

  /** Every permutation that passes the parity guard leads to the solved board. */
  lemma SolvableIsReachable(n: nat, b: Board)
    requires n % 2 == 1 && IsBoard(n, b) && IsSolvable(b)
    ensures Linked(n, b, Solved(n))
  {
    if n == 1 {
      OnlyOneBoard(b);
      LinkedSelf(n, b);
    } else {
      var line := ToTheEnd(n, b);
      var goal := SolvedAtEnd(n);
      BoardValues(n, b);
      UpToTwo(n, line, goal);
      if Reach(n, line, goal) {
        LinkedOn(n, b, Laid(n, line, |line|), Solved(n));
      } else {
        LinkedOn(n, b, Laid(n, line, |line|), Laid(n, Crossed(goal), |goal|));
        LinkedKeepsParity(n, b, Laid(n, Crossed(goal), |goal|));
        CrossedIsUnsolvable(n, goal);
      }
    }
  }

  /** A line leads to any other line of the same values, or to that line with its first two crossed. */
  lemma UpToTwo(n: nat, line: Line, goal: Line)
    requires n >= 3 && |line| + 1 == Cells(n) == |goal| + 1 && |goal| >= 2 && Reach(n, line, line)
    requires Distinct(line) && Distinct(goal) && forall v :: v in line <==> v in goal
    ensures Reach(n, line, goal) || Reach(n, line, Crossed(goal))
  {
    ReachIsReversible(n);
    AllPlacesTurn(n);
    InOrderUpToTwo(ReachOf(n), Cells(n) - 1, line, goal);
  }

  lemma BoardValues(n: nat, b: Board)
    requires IsBoard(n, b)
    ensures forall v :: v in b <==> v in Solved(n)
  {
    forall v ensures v in b <==> v in Solved(n) {
      assert v in b <==> v in multiset(b);
      assert v in Solved(n) <==> v in multiset(Solved(n));
    }
  }

  lemma OnlyOneBoard(b: Board)
    requires IsBoard(1, b)
    ensures b == Solved(1)
  {
    assert Cells(1) == 1 by { RowsIsProduct(1, 1); }
  }

  /** The parity guard is exact: a permutation passes it exactly when some sequence of slides solves it. */
  lemma GuardIsExact(n: nat, b: Board)
    requires n % 2 == 1 && IsBoard(n, b)
    ensures IsSolvable(b) <==> exists w :: WalkFromTo(n, w, b, Solved(n))
  {
    if IsSolvable(b) {
      SolvableIsReachable(n, b);
    }
    if w :| WalkFromTo(n, w, b, Solved(n)) {
      ReachableImpliesSolvable(n, w);
    }
  }
}
