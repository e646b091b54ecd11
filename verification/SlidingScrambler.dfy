/** The scrambler of the sliding puzzle, over an arbitrary stream of random values.
    It retries until an attempt leaves the solved board, so it returns exactly when one does. */
module SlidingScrambler {
  import opened Common
  import opened Draws
  import opened Grid
  import opened SlidingBoard

  /** The state of one attempt: the board, where the blank was before, and how much of the stream is used. */
  datatype Scramble = Scramble(board: Board, previousZero: Option<nat>, drawn: nat)

  /** The slides that do not take back the previous one, or all slides if there are no others. */
  function Candidates(n: nat, s: Scramble): seq<nat>
    requires n > 0 && 0 in s.board
  {
    var legal := LegalTiles(n, s.board);
    var forward := match s.previousZero case None => legal case Some(zero) => Without(legal, zero, |legal|);
    if |forward| > 0 then forward else legal
  }

  /** Whichever candidate is drawn, it is a tile that can move. */
  lemma CandidatesCanMove(n: nat, s: Scramble, i: nat)
    requires n > 0 && 0 in s.board && i < |Candidates(n, s)|
    ensures CanMove(n, s.board, Candidates(n, s)[i])
  {
    LegalTilesExact(n, s.board);
    var legal := LegalTiles(n, s.board);
    assert legal[..|legal|] == legal;
    match s.previousZero {
      case None =>
      case Some(zero) => WithoutExact(legal, zero, |legal|, Candidates(n, s)[i]);
    }
  }

  /** The tile drawn from the candidates, if there is one. */
  function NextTile(n: nat, pick: Picker, s: Scramble): Option<nat>
    requires n > 0 && 0 in s.board
  {
    var candidates := Candidates(n, s);
    if |candidates| == 0 then None else Some(candidates[pick(s.drawn, |candidates|)])
  }

  lemma NextTileCanMove(n: nat, pick: Picker, s: Scramble)
    requires n > 0 && 0 in s.board
    ensures NextTile(n, pick, s).Some? ==> CanMove(n, s.board, NextTile(n, pick, s).value)
  {
    if |Candidates(n, s)| > 0 {
      CandidatesCanMove(n, s, pick(s.drawn, |Candidates(n, s)|));
    }
  }

  lemma SomeTileMoves(n: nat, pick: Picker, s: Scramble)
    requires n > 1 && IsBoard(n, s.board)
    ensures NextTile(n, pick, s).Some?
  {
    SomeSlideIsLegal(n, s.board);
  }

  /** `left` more random slides; an attempt stops early when there is no candidate. */
  ghost function Slides(n: nat, pick: Picker, s: Scramble, left: int): Scramble
    requires n > 0 && 0 in s.board
    decreases left
  {
    if left <= 0 then s else
      match NextTile(n, pick, s)
      case None => s.(drawn := s.drawn + 1)
      case Some(tile) => Slides(n, pick, AfterSlide(n, s, tile), left - 1)
  }

  lemma SlideOn(n: nat, pick: Picker, s: Scramble, left: int, tile: nat)
    requires n > 0 && 0 in s.board && left > 0 && NextTile(n, pick, s) == Some(tile)
    ensures 0 in AfterSlide(n, s, tile).board
    ensures Slides(n, pick, s, left) == Slides(n, pick, AfterSlide(n, s, tile), left - 1)
  {
  }

  ghost function AfterSlide(n: nat, s: Scramble, tile: nat): Scramble
    requires n > 0 && 0 in s.board
  {
    Scramble(MoveTile(n, s.board, tile), Some(IndexOf(s.board, 0)), s.drawn + 1)
  }

  /** One attempt that starts reading the stream at `start`. */
  ghost function AttemptAt(n: nat, pick: Picker, moveCount: int, start: nat): Scramble
    requires n > 0
  {
    Slides(n, pick, Scramble(Solved(n), None, start), moveCount)
  }

  /** The board of the first attempt that leaves the solved board, if one of the first `tries`
      retries does; each attempt reads the stream on from where the one before it stopped. */
  ghost function FirstUnsolved(n: nat, pick: Picker, moveCount: int, start: nat, tries: nat): Option<Board>
    requires n > 0
    decreases tries
  {
    var a := AttemptAt(n, pick, moveCount, start);
    if a.board != Solved(n) then Some(a.board)
    else if tries == 0 then None
    else FirstUnsolved(n, pick, moveCount, a.drawn, tries - 1)
  }

  /** A board that is not solved, that the parity guard accepts, and that few slides solve. */
  ghost predicate FairPuzzle(n: nat, board: Board, moveCount: int) {
    && IsBoard(n, board)
    && board != Solved(n)
    && IsSolvable(board)
    && exists w :: WalkFromTo(n, w, board, Solved(n)) && |w| - 1 <= moveCount
  }

  method ScrambleOnce(n: nat, moveCount: int, pick: Picker, from: nat) returns (board: Board, drawn: nat)
    requires n > 0
    ensures board == AttemptAt(n, pick, moveCount, from).board
    ensures drawn == AttemptAt(n, pick, moveCount, from).drawn
  {
    board, drawn := Solved(n), from;
    var previousZero := None;
    var moveIndex := 0;
    ghost var s := Scramble(board, previousZero, drawn);
    while moveIndex < moveCount
      invariant s == Scramble(board, previousZero, drawn) && 0 in s.board
      invariant Slides(n, pick, s, moveCount - moveIndex) == AttemptAt(n, pick, moveCount, from)
    {
      match NextTile(n, pick, Scramble(board, previousZero, drawn)) {
        case None =>
          drawn := drawn + 1;
          return;
        case Some(tile) =>
          SlideOn(n, pick, s, moveCount - moveIndex, tile);
          s := AfterSlide(n, s, tile);
          previousZero, board, drawn := Some(IndexOf(board, 0)), MoveTile(n, board, tile), drawn + 1;
      }
      moveIndex := moveIndex + 1;
    }
  }

  /** Retries until an attempt leaves the solved board.  The hypothesis that some retry does so is
      what makes the recursion end. */
  method CreateScrambledBoard(n: nat, moveCount: int, pick: Picker, from: nat, ghost tries: nat)
    returns (board: Board)
    requires n % 2 == 1 && FirstUnsolved(n, pick, moveCount, from, tries).Some?
    ensures board == FirstUnsolved(n, pick, moveCount, from, tries).value
    ensures FairPuzzle(n, board, moveCount)
    decreases tries
  {
    var drawn;
    board, drawn := ScrambleOnce(n, moveCount, pick, from);
    if board == Solved(n) {
      board := CreateScrambledBoard(n, moveCount, pick, drawn, tries - 1);
    } else {
      AttemptIsFair(n, pick, moveCount, from);
    }
  }

  lemma SlideThenWalk(n: nat, b: Board, tile: nat, w: seq<Board>, goal: Board)
    requires n > 0 && IsBoard(n, b) && CanMove(n, b, tile) && WalkFromTo(n, w, MoveTile(n, b, tile), goal)
    ensures WalkFromTo(n, [b] + w, b, goal)
  {
    assert IsSlide(n, b, w[0]);
    WalkPrepend(n, b, w);
  }

  /** The slides of an attempt form a walk that starts at the board the attempt starts at. */
  lemma {:induction false} SlidesWalk(n: nat, pick: Picker, s: Scramble, left: int) returns (w: seq<Board>)
    requires n > 0 && IsBoard(n, s.board)
    ensures WalkFromTo(n, w, s.board, Slides(n, pick, s, left).board)
    ensures |w| == 1 || |w| - 1 <= left
    ensures n > 1 && left > 0 ==> |w| - 1 == left
    decreases left
  {
    w := [s.board];
    if left > 0 {
      if n > 1 { SomeTileMoves(n, pick, s); }
      match NextTile(n, pick, s) {
        case None =>
        case Some(tile) =>
          NextTileCanMove(n, pick, s);
          SlideKeepsBoard(n, s.board, tile);
          var rest := SlidesWalk(n, pick, AfterSlide(n, s, tile), left - 1);
          SlideThenWalk(n, s.board, tile, rest, Slides(n, pick, s, left).board);
          w := [s.board] + rest;
      }
    }
  }

  /** Whatever the stream, an attempt that does not end solved is a fair puzzle. */
  lemma AttemptIsFair(n: nat, pick: Picker, moveCount: int, start: nat)
    requires n % 2 == 1 && AttemptAt(n, pick, moveCount, start).board != Solved(n)
    ensures FairPuzzle(n, AttemptAt(n, pick, moveCount, start).board, moveCount)
  {
    SolvedIsBoard(n);
    var w := SlidesWalk(n, pick, Scramble(Solved(n), None, start), moveCount);
    WalkReversible(n, w);
    ReachableImpliesSolvable(n, Backwards(w));
  }

  // ---------- when the retries end ----------

  lemma SomeSlideIsLegal(n: nat, b: Board)
    requires n > 1 && IsBoard(n, b)
    ensures |LegalTiles(n, b)| > 0
  {
    var zero := IndexOf(b, 0);
    var t := NeighbourInRow(n, zero, n);
    LegalTilesExact(n, b);
    assert CanMove(n, b, t) && t in LegalTiles(n, b);
  }

  /** Every cell of `k` rows has a neighbour in its row. */
  lemma {:induction false} NeighbourInRow(n: nat, i: nat, k: nat) returns (t: nat)
    requires n > 1 && i < Rows(n, k)
    ensures t < Rows(n, k) && IsAdjacent(n, t, i) && Row(n, t) == Row(n, i)
  {
    if i >= n {
      t := NeighbourInRow(n, i - n, k - 1);
      t := t + n;
    } else {
      FirstRow(n, k);
      t := if i + 1 < n then i + 1 else i - 1;
    }
  }

  lemma {:induction false} FirstRow(n: nat, k: nat)
    requires k > 0
    ensures Rows(n, k) >= n
  {
    if k > 1 { FirstRow(n, k - 1); }
  }

  /** The colour of a cell on the checkerboard. */
  predicate IsDark(n: nat, i: nat)
    requires n > 0
  {
    (Row(n, i) + Col(n, i)) % 2 == 1
  }

  lemma NeighboursDiffer(n: nat, i: nat, j: nat)
    requires n > 0 && IsAdjacent(n, i, j)
    ensures IsDark(n, i) != IsDark(n, j)
  {
    OneStepFlips(Row(n, i), Col(n, i), Row(n, j), Col(n, j));
  }

  lemma SlideFlipsColour(n: nat, a: Board, b: Board)
    requires n > 0 && IsBoard(n, a) && 0 in b && IsSlide(n, a, b)
    ensures IsDark(n, IndexOf(b, 0)) != IsDark(n, IndexOf(a, 0))
  {
    var zero, tile := SlideParts(n, a, b);
    NeighboursDiffer(n, tile, zero);
  }

  lemma OneStepFlips(r: int, c: int, s: int, d: int)
    requires Abs(r - s) + Abs(c - d) == 1
    ensures (r + c) % 2 != (s + d) % 2
  {
  }

  lemma {:induction false} WalkFlipsColour(n: nat, w: seq<Board>, i: nat)
    requires IsWalk(n, w) && i < |w|
    ensures IsBoard(n, w[i])
    ensures (i % 2 == 0) == (IsDark(n, IndexOf(w[i], 0)) == IsDark(n, IndexOf(w[0], 0)))
  {
    if i > 0 {
      WalkFlipsColour(n, w, i - 1);
      assert SlideAt(n, w, i);
      SlideFlipsColour(n, w[i - 1], w[i]);
    }
  }

  lemma OddWalkLeaves(n: nat, w: seq<Board>)
    requires IsWalk(n, w) && |w| % 2 == 0
    ensures w[|w| - 1] != w[0]
  {
    WalkFlipsColour(n, w, |w| - 1);
  }

  /** An odd number of slides never ends on the solved board, so the first attempt is returned. */
  lemma OddMoveCountNeedsNoRetry(n: nat, pick: Picker, moveCount: nat, from: nat)
    requires n > 1 && moveCount % 2 == 1
    ensures FirstUnsolved(n, pick, moveCount, from, 0) != None
  {
    SolvedIsBoard(n);
    var w := SlidesWalk(n, pick, Scramble(Solved(n), None, from), moveCount);
    OddWalkLeaves(n, w);
  }

  /** Every cell of a board has a neighbour in another row. */
  lemma NeighbourInColumn(n: nat, i: nat) returns (t: nat)
    requires n > 1 && i < Cells(n)
    ensures t < Cells(n) && IsAdjacent(n, t, i) && Row(n, t) != Row(n, i)
  {
    if i + n < Cells(n) {
      t := i + n;
    } else {
      FirstRow(n, n - 1);
      t := i - n;
    }
  }

  /** Unless it is on its first slide, an attempt never takes the last slide back. */
  lemma NextIsForward(n: nat, pick: Picker, s: Scramble, zero: nat)
    requires n > 1 && IsBoard(n, s.board) && s.previousZero == Some(zero)
    ensures NextTile(n, pick, s).Some? && NextTile(n, pick, s).value != zero
  {
    var blank := IndexOf(s.board, 0);
    var legal := LegalTiles(n, s.board);
    var up := NeighbourInColumn(n, blank);
    var side := SideNeighbour(n, blank);
    LegalTilesExact(n, s.board);
    assert CanMove(n, s.board, up) && CanMove(n, s.board, side);
    assert legal[..|legal|] == legal;
    WithoutExact(legal, zero, |legal|, up);
    WithoutExact(legal, zero, |legal|, side);
    SomeTileMoves(n, pick, s);
    WithoutExact(legal, zero, |legal|, NextTile(n, pick, s).value);
  }

  /** Every cell of a board has a neighbour in its row. */
  lemma SideNeighbour(n: nat, i: nat) returns (t: nat)
    requires n > 1 && i < Cells(n)
    ensures t < Cells(n) && IsAdjacent(n, t, i) && Row(n, t) == Row(n, i)
  {
    t := NeighbourInRow(n, i, n);
  }

  /** Without a slide to make, every attempt is the solved board, and no number of retries helps. */
  lemma {:induction false} NoMovesNeverReturns(n: nat, pick: Picker, moveCount: int, from: nat, tries: nat)
    requires n > 0 && moveCount <= 0
    ensures FirstUnsolved(n, pick, moveCount, from, tries) == None
  {
    if tries > 0 {
      NoMovesNeverReturns(n, pick, moveCount, from, tries - 1);
    }
  }
}
