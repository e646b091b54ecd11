/** The courses the blank can take when no slide takes the one before it back, and why none of fewer than
    twelve slides leads back to the solved board. */
module SlidingCourses {
  import opened Common
  import opened Grid
  import opened Draws
  import opened SlidingBoard
  import opened SlidingScrambler

  /** The cells of the blank from the solved board on, each next to the one before and other than the one
      before that. */
  ghost predicate IsCourse(n: nat, p: seq<nat>) {
    && n > 0 && |p| > 0 && p[0] + 1 == Cells(n)
    && forall i: nat :: i < |p| ==> StepOk(n, p, i)
  }

  ghost predicate StepOk(n: nat, p: seq<nat>, i: nat)
    requires n > 0 && i < |p|
  {
    p[i] < Cells(n) && (i > 0 ==> IsAdjacent(n, p[i], p[i - 1])) && (i > 1 ==> p[i] != p[i - 2])
  }

  /** The board when the blank has come to cell `i` of its course. */
  ghost function BoardAlong(n: nat, p: seq<nat>, i: nat): (b: Board)
    requires IsCourse(n, p) && i < |p|
    ensures |b| == Cells(n)
  {
    if i == 0 then Solved(n) else
      assert StepOk(n, p, i) && StepOk(n, p, i - 1);
      var b := BoardAlong(n, p, i - 1);
      b[p[i - 1] := b[p[i]]][p[i] := 0]
  }

  // ---------- attempts of the scrambler ----------

  lemma CourseOn(n: nat, p: seq<nat>, c: nat)
    requires IsCourse(n, p) && c < Cells(n) && IsAdjacent(n, c, p[|p| - 1])
    requires |p| > 1 ==> c != p[|p| - 2]
    ensures IsCourse(n, p + [c])
  {
    var q := p + [c];
    forall i: nat | i < |q| ensures StepOk(n, q, i) {
      if i < |p| { assert StepOk(n, p, i); }
    }
  }

  lemma {:induction false} BoardOfPrefix(n: nat, p: seq<nat>, q: seq<nat>, i: nat)
    requires IsCourse(n, p) && IsCourse(n, q) && p <= q && i < |p|
    ensures BoardAlong(n, q, i) == BoardAlong(n, p, i)
  {
    if i > 0 {
      BoardOfPrefix(n, p, q, i - 1);
    }
  }

  /** Along a course the boards are permutations, with the blank where the course is, and each is one slide
      after the one before. */
  lemma {:induction false} CourseBoard(n: nat, p: seq<nat>, i: nat)
    requires IsCourse(n, p) && i < |p|
    ensures IsBoard(n, BoardAlong(n, p, i)) && IndexOf(BoardAlong(n, p, i), 0) == p[i]
    ensures i > 0 ==> 0 in BoardAlong(n, p, i - 1) && CanMove(n, BoardAlong(n, p, i - 1), p[i])
                      && BoardAlong(n, p, i) == MoveTile(n, BoardAlong(n, p, i - 1), p[i])
  {
    assert StepOk(n, p, i);
    if i == 0 {
      SolvedIsBoard(n);
      BlankIsAt(n, Solved(n), p[0]);
    } else {
      CourseBoard(n, p, i - 1);
      var b := BoardAlong(n, p, i - 1);
      assert CanMove(n, b, p[i]);
      MoveSwaps(n, b, p[i]);
      SlideKeepsBoard(n, b, p[i]);
    }
  }

  lemma BlankAlong(n: nat, p: seq<nat>, i: nat)
    requires IsCourse(n, p) && i < |p|
    ensures 0 in BoardAlong(n, p, i) && IndexOf(BoardAlong(n, p, i), 0) == p[i]
  {
    CourseBoard(n, p, i);
  }

  lemma MoveAlong(n: nat, p: seq<nat>, i: nat)
    requires IsCourse(n, p) && i + 1 < |p|
    ensures 0 in BoardAlong(n, p, i) && MoveTile(n, BoardAlong(n, p, i), p[i + 1]) == BoardAlong(n, p, i + 1)
  {
    CourseBoard(n, p, i + 1);
  }

  /** The state of an attempt that has followed its course to cell `i`. */
  ghost function StateAlong(n: nat, p: seq<nat>, i: nat, from: nat): (s: Scramble)
    requires IsCourse(n, p) && i < |p|
    ensures 0 in s.board
  {
    CourseBoard(n, p, i);
    Scramble(BoardAlong(n, p, i), if i == 0 then None else Some(p[i - 1]), from + i)
  }

  /** At cell `i` the tile drawn is the one on the next cell of the course. */
  ghost predicate DrawnAt(n: nat, pick: Picker, p: seq<nat>, i: nat, from: nat)
    requires IsCourse(n, p) && i + 1 < |p|
  {
    NextTile(n, pick, StateAlong(n, p, i, from)) == Some(p[i + 1])
  }

  lemma StateNext(n: nat, p: seq<nat>, i: nat, from: nat)
    requires IsCourse(n, p) && i + 1 < |p|
    ensures AfterSlide(n, StateAlong(n, p, i, from), p[i + 1]) == StateAlong(n, p, i + 1, from)
  {
    BlankAlong(n, p, i);
    MoveAlong(n, p, i);
  }

  /** One slide of an attempt leads from `a` to `b`. */
  ghost predicate SlidesTo(n: nat, pick: Picker, a: Scramble, b: Scramble)
    requires n > 0
  {
    && 0 in a.board && 0 in b.board && NextTile(n, pick, a).Some?
    && b == AfterSlide(n, a, NextTile(n, pick, a).value)
  }

  lemma SlidesToFirst(n: nat, pick: Picker, a: Scramble, b: Scramble, left: nat)
    requires n > 0 && SlidesTo(n, pick, a, b) && left > 0
    ensures 0 in a.board && 0 in b.board && Slides(n, pick, a, left) == Slides(n, pick, b, left - 1)
  {
    SlideOn(n, pick, a, left, NextTile(n, pick, a).value);
  }

  ghost predicate AllSlides(n: nat, pick: Picker, states: seq<Scramble>)
    requires n > 0
  {
    forall j: nat :: j + 1 < |states| ==> SlidesTo(n, pick, states[j], states[j + 1])
  }

  /** States each of which leads to the next are those of an attempt. */
  lemma {:induction false} Follows(n: nat, pick: Picker, states: seq<Scramble>, i: nat, left: nat)
    requires n > 0 && i + left + 1 == |states| && AllSlides(n, pick, states) && 0 in states[|states| - 1].board
    ensures 0 in states[i].board && Slides(n, pick, states[i], left) == states[|states| - 1]
    decreases left
  {
    if left > 0 {
      assert SlidesTo(n, pick, states[i], states[i + 1]);
      SlidesToFirst(n, pick, states[i], states[i + 1], left);
      Follows(n, pick, states, i + 1, left - 1);
    }
  }

  lemma DrawnSlides(n: nat, pick: Picker, p: seq<nat>, i: nat, from: nat)
    requires IsCourse(n, p) && i + 1 < |p| && DrawnAt(n, pick, p, i, from)
    ensures SlidesTo(n, pick, StateAlong(n, p, i, from), StateAlong(n, p, i + 1, from))
  {
    StateNext(n, p, i, from);
  }

  /** An attempt that draws the tiles of a course follows it to its end. */
  lemma FollowsCourse(n: nat, pick: Picker, p: seq<nat>, from: nat)
    requires IsCourse(n, p) && forall j: nat :: j + 1 < |p| ==> DrawnAt(n, pick, p, j, from)
    ensures AttemptAt(n, pick, |p| - 1, from) == StateAlong(n, p, |p| - 1, from)
  {
    var states := seq(|p|, i requires 0 <= i < |p| => StateAlong(n, p, i, from));
    forall j: nat | j + 1 < |p| ensures SlidesTo(n, pick, states[j], states[j + 1]) {
      assert DrawnAt(n, pick, p, j, from);
      DrawnSlides(n, pick, p, j, from);
    }
    Follows(n, pick, states, 0, |p| - 1);
  }

  /** On a board of more than one cell there is always a tile to draw, and it does not take the last slide
      back. */
  lemma DrawNext(n: nat, pick: Picker, q: seq<nat>, from: nat) returns (p: seq<nat>)
    requires n > 1 && IsCourse(n, q)
    ensures IsCourse(n, p) && |p| == |q| + 1 && q <= p && DrawnAt(n, pick, p, |q| - 1, from)
  {
    var last := |q| - 1;
    var s := StateAlong(n, q, last, from);
    CourseBoard(n, q, last);
    SomeTileMoves(n, pick, s);
    NextTileCanMove(n, pick, s);
    var tile := NextTile(n, pick, s).value;
    if last > 0 { NextIsForward(n, pick, s, q[last - 1]); }
    CourseOn(n, q, tile);
    p := q + [tile];
    BoardOfPrefix(n, q, p, last);
  }

  /** The course of the tiles drawn. */
  lemma {:induction false} CourseDrawn(n: nat, pick: Picker, from: nat, k: nat) returns (p: seq<nat>)
    requires n > 1
    ensures IsCourse(n, p) && |p| == k + 1
    ensures forall i: nat :: i + 1 < |p| ==> DrawnAt(n, pick, p, i, from)
  {
    if k == 0 {
      FirstCell(n);
      p := [Cells(n) - 1];
      assert StepOk(n, p, 0);
    } else {
      var q := CourseDrawn(n, pick, from, k - 1);
      p := DrawNext(n, pick, q, from);
      forall i: nat | i + 1 < |p| ensures DrawnAt(n, pick, p, i, from) {
        if i + 1 < |q| {
          BoardOfPrefix(n, q, p, i);
          assert DrawnAt(n, pick, q, i, from);
        }
      }
    }
  }

  lemma FirstCell(n: nat)
    requires n > 0
    ensures Cells(n) > 0
  {
    FirstRow(n, n);
  }

  /** Whatever the random stream, an attempt follows a course. */
  lemma AttemptFollows(n: nat, pick: Picker, from: nat, k: nat) returns (p: seq<nat>)
    requires n > 1
    ensures IsCourse(n, p) && |p| == k + 1
    ensures AttemptAt(n, pick, k, from).board == BoardAlong(n, p, k)
  {
    p := CourseDrawn(n, pick, from, k);
    FollowsCourse(n, pick, p, from);
  }

  // ---------- what the blank leaves behind ----------

  ghost predicate NotSince(p: seq<nat>, j: nat, i: nat, c: nat)
    requires i < |p|
  {
    forall k: nat :: j <= k <= i ==> p[k] != c
  }

  /** A cell the blank has not been to holds the tile it holds in the solved board. */
  lemma {:induction false} AtHome(n: nat, p: seq<nat>, i: nat, c: nat)
    requires IsCourse(n, p) && i < |p| && c < Cells(n) && NotSince(p, 0, i, c)
    ensures BoardAlong(n, p, i)[c] == c + 1
  {
    assert p[i] != c && p[0] != c;
    if i > 0 {
      assert StepOk(n, p, i) && StepOk(n, p, i - 1) && p[i - 1] != c;
      AtHome(n, p, i - 1, c);
    }
  }

  /** A cell the blank was last in at `j` holds the tile it then exchanged places with. */
  lemma {:induction false} LeftBehind(n: nat, p: seq<nat>, j: nat, i: nat)
    requires IsCourse(n, p) && j < i < |p| && NotSince(p, j + 1, i, p[j])
    ensures p[j] < Cells(n) && p[j + 1] < Cells(n)
    ensures BoardAlong(n, p, i)[p[j]] == BoardAlong(n, p, j)[p[j + 1]]
  {
    assert StepOk(n, p, j) && StepOk(n, p, j + 1) && StepOk(n, p, i);
    assert p[i] != p[j];
    if j + 1 < i {
      assert StepOk(n, p, i - 1) && p[i - 1] != p[j];
      LeftBehind(n, p, j, i - 1);
    }
  }

  function Distance(n: nat, a: nat, b: nat): nat
    requires n > 0
  {
    Abs(Row(n, a) - Row(n, b)) + Abs(Col(n, a) - Col(n, b))
  }

  ghost function Away(n: nat, p: seq<nat>, i: nat): nat
    requires IsCourse(n, p) && i < |p|
  {
    Manhattan(n, BoardAlong(n, p, i))
  }

  /** What a slide adds to the Manhattan distance. */
  lemma SlideAdds(n: nat, p: seq<nat>, i: nat)
    requires IsCourse(n, p) && i + 1 < |p|
    ensures p[i] < Cells(n) && p[i + 1] < Cells(n)
    ensures var v := BoardAlong(n, p, i)[p[i + 1]];
            Away(n, p, i + 1) - Away(n, p, i) == TileDistance(n, p[i], v) - TileDistance(n, p[i + 1], v)
    ensures -1 <= Away(n, p, i + 1) - Away(n, p, i) <= 1
  {
    BlankAlong(n, p, i);
    assert StepOk(n, p, i) && StepOk(n, p, i + 1);
    var a, b := BoardAlong(n, p, i), BoardAlong(n, p, i + 1);
    assert a[p[i]] == 0 && p[i] != p[i + 1];
    assert TileDistance(n, p[i], 0) == 0 == TileDistance(n, p[i + 1], 0);
    ManhattanTwoChanges(n, a, b, p[i], p[i + 1], |a|);
    NeighbourDistance(n, p[i], p[i + 1], a[p[i + 1]]);
    NeighbourDistance(n, p[i + 1], p[i], a[p[i + 1]]);
  }

  /** Moving to a new cell takes a tile away from home. */
  lemma NewCellAdds(n: nat, p: seq<nat>, i: nat)
    requires IsCourse(n, p) && i + 1 < |p| && NotSince(p, 0, i, p[i + 1])
    ensures Away(n, p, i + 1) == Away(n, p, i) + 1
  {
    assert StepOk(n, p, i + 1);
    SlideAdds(n, p, i);
    AtHome(n, p, i, p[i + 1]);
  }

  /** Coming back to a cell moves on a tile whose home is where the blank went from there. */
  lemma OldCellAdds(n: nat, p: seq<nat>, j: nat, i: nat)
    requires IsCourse(n, p) && j < i && i + 1 < |p| && p[i + 1] == p[j]
    requires NotSince(p, j + 1, i, p[j]) && NotSince(p, 0, j, p[j + 1])
    ensures Away(n, p, i + 1) == Away(n, p, i) + Distance(n, p[i], p[j + 1]) - 1
  {
    assert StepOk(n, p, j + 1);
    SlideAdds(n, p, i);
    LeftBehind(n, p, j, i);
    AtHome(n, p, j, p[j + 1]);
    HomeDistance(n, p[i], p[j + 1]);
    HomeDistance(n, p[j], p[j + 1]);
    assert Distance(n, p[j], p[j + 1]) == 1;
  }

  lemma HomeDistance(n: nat, c: nat, home: nat)
    requires n > 0
    ensures TileDistance(n, c, home + 1) == Distance(n, c, home)
  {
  }

  // ---------- where the blank can be ----------

  lemma {:induction false} CourseColour(n: nat, p: seq<nat>, i: nat, j: nat)
    requires IsCourse(n, p) && i <= j < |p|
    ensures (IsDark(n, p[j]) == IsDark(n, p[i])) <==> (j - i) % 2 == 0
  {
    if i < j {
      CourseColour(n, p, i, j - 1);
      assert StepOk(n, p, j);
      NeighboursDiffer(n, p[j], p[j - 1]);
    }
  }

  /** The blank is elsewhere after an odd number of slides, and after two. */
  lemma Differ(n: nat, p: seq<nat>, i: nat, j: nat)
    requires IsCourse(n, p) && i < j < |p| && ((j - i) % 2 == 1 || j == i + 2)
    ensures p[i] != p[j]
  {
    CourseColour(n, p, i, j);
    assert StepOk(n, p, j);
  }

  lemma SameCell(n: nat, a: nat, b: nat)
    requires n > 0 && Row(n, a) == Row(n, b) && Col(n, a) == Col(n, b)
    ensures a == b
  {
    IndexCell(n, a);
    IndexCell(n, b);
  }

  /** Two cells next to one and the same are two steps apart. */
  lemma TwoApart(n: nat, a: nat, b: nat, c: nat)
    requires n > 0 && IsAdjacent(n, a, b) && IsAdjacent(n, c, b) && a != c
    ensures Distance(n, a, c) == 2
  {
    if Row(n, a) == Row(n, c) && Col(n, a) == Col(n, c) { SameCell(n, a, c); }
  }

  /** Two cells have at most two neighbours in common. */
  lemma TwoCommon(n: nat, a: nat, b: nat, x: nat, y: nat, z: nat)
    requires n > 0 && a != b && x != y && y != z && x != z
    requires IsAdjacent(n, x, a) && IsAdjacent(n, y, a) && IsAdjacent(n, z, a)
    requires IsAdjacent(n, x, b) && IsAdjacent(n, y, b)
    ensures !IsAdjacent(n, z, b)
  {
    TwoApart(n, x, a, y);
    TwoApart(n, x, a, z);
    TwoApart(n, y, a, z);
    if Row(n, a) == Row(n, b) && Col(n, a) == Col(n, b) { SameCell(n, a, b); }
  }

  // ---------- the first seven slides ----------

  lemma FirstThree(n: nat, p: seq<nat>)
    requires IsCourse(n, p) && |p| >= 4
    ensures Away(n, p, 1) == 1 && Away(n, p, 2) == 2 && Away(n, p, 3) == 3
  {
    ManhattanOfSolved(n, Cells(n));
    FirstFour(n, p);
    NewCellAdds(n, p, 0);
    NewCellAdds(n, p, 1);
    NewCellAdds(n, p, 2);
  }

  lemma FirstFour(n: nat, p: seq<nat>)
    requires IsCourse(n, p) && |p| >= 4
    ensures p[0] != p[1] && p[0] != p[2] && p[0] != p[3] && p[1] != p[2] && p[1] != p[3] && p[2] != p[3]
  {
    Differ(n, p, 0, 1);
    Differ(n, p, 0, 2);
    Differ(n, p, 0, 3);
    Differ(n, p, 1, 2);
    Differ(n, p, 1, 3);
    Differ(n, p, 2, 3);
  }

  lemma FourthAdds(n: nat, p: seq<nat>)
    requires IsCourse(n, p) && |p| >= 5
    ensures Away(n, p, 4) == 4
  {
    FirstFour(n, p);
    FirstThree(n, p);
    Differ(n, p, 1, 4);
    Differ(n, p, 2, 4);
    Differ(n, p, 3, 4);
    if p[4] == p[0] {
      OldCellAdds(n, p, 0, 3);
      StepsAround(n, p, 2);
    } else {
      NewCellAdds(n, p, 3);
    }
  }

  lemma StepsAround(n: nat, p: seq<nat>, i: nat)
    requires IsCourse(n, p) && 0 < i && i + 1 < |p|
    ensures Distance(n, p[i + 1], p[i - 1]) == 2
  {
    assert StepOk(n, p, i) && StepOk(n, p, i + 1);
    TwoApart(n, p[i + 1], p[i], p[i - 1]);
  }

  lemma FifthAdds(n: nat, p: seq<nat>)
    requires IsCourse(n, p) && |p| >= 6
    ensures Away(n, p, 5) == 5
  {
    FourthAdds(n, p);
    Differ(n, p, 0, 5);
    Differ(n, p, 2, 5);
    Differ(n, p, 3, 5);
    Differ(n, p, 4, 5);
    if p[5] == p[1] {
      FirstFour(n, p);
      Differ(n, p, 1, 4);
      OldCellAdds(n, p, 1, 4);
      StepsAround(n, p, 3);
    } else {
      NewCellAdds(n, p, 4);
    }
  }

  /** The sixth slide brings a tile nearer its home only when the blank is back at its corner the way it
      left it. */
  lemma SixthAdds(n: nat, p: seq<nat>)
    requires IsCourse(n, p) && |p| >= 7
    ensures Away(n, p, 6) == 6 || (Away(n, p, 6) == 4 && p[6] == p[0] && p[5] == p[1])
  {
    FifthAdds(n, p);
    if p[6] == p[2] {
      SixthToSecond(n, p);
    } else if p[6] == p[0] {
      SixthToStart(n, p);
    } else {
      Differ(n, p, 1, 6);
      Differ(n, p, 3, 6);
      Differ(n, p, 4, 6);
      Differ(n, p, 5, 6);
      NewCellAdds(n, p, 5);
    }
  }

  lemma SixthToSecond(n: nat, p: seq<nat>)
    requires IsCourse(n, p) && |p| >= 7 && p[6] == p[2]
    ensures Away(n, p, 6) == Away(n, p, 5) + 1
  {
    FirstFour(n, p);
    Differ(n, p, 2, 4);
    Differ(n, p, 2, 5);
    OldCellAdds(n, p, 2, 5);
    StepsAround(n, p, 4);
  }

  lemma SixthToStart(n: nat, p: seq<nat>)
    requires IsCourse(n, p) && |p| >= 7 && p[6] == p[0]
    ensures Away(n, p, 6) == Away(n, p, 5) + if p[5] == p[1] then -1 else 1
  {
    FirstFour(n, p);
    Differ(n, p, 4, 6);
    Differ(n, p, 0, 5);
    OldCellAdds(n, p, 0, 5);
    if p[5] != p[1] { AroundStart(n, p); }
  }

  lemma AroundStart(n: nat, p: seq<nat>)
    requires IsCourse(n, p) && |p| >= 7 && p[6] == p[0] && p[5] != p[1]
    ensures Distance(n, p[5], p[1]) == 2
  {
    NextTo(n, p, 0);
    NextTo(n, p, 5);
    TwoApart(n, p[5], p[0], p[1]);
  }

  lemma SeventhIsFar(n: nat, p: seq<nat>)
    requires IsCourse(n, p) && |p| >= 8
    ensures Away(n, p, 7) >= 5
  {
    SixthAdds(n, p);
    SlideAdds(n, p, 6);
    if Away(n, p, 6) == 4 {
      SeventhIsNew(n, p);
      NewCellAdds(n, p, 6);
    }
  }

  lemma SeventhIsNew(n: nat, p: seq<nat>)
    requires IsCourse(n, p) && |p| >= 8 && p[6] == p[0] && p[5] == p[1]
    ensures NotSince(p, 0, 6, p[7])
  {
    Differ(n, p, 0, 7);
    Differ(n, p, 2, 7);
    Differ(n, p, 4, 7);
    Differ(n, p, 5, 7);
    NotAcross(n, p);
    assert StepOk(n, p, 7);
  }

  lemma NotAcross(n: nat, p: seq<nat>)
    requires IsCourse(n, p) && |p| >= 8 && p[6] == p[0] && p[5] == p[1]
    ensures !IsAdjacent(n, p[0], p[3])
  {
    FiveApart(n, p);
    FiveAround(n, p);
    TwoCommon(n, p[1], p[3], p[2], p[4], p[0]);
  }

  lemma FiveApart(n: nat, p: seq<nat>)
    requires IsCourse(n, p) && |p| >= 7 && p[6] == p[0]
    ensures p[1] != p[3] && p[2] != p[4] && p[4] != p[0] && p[2] != p[0]
  {
    assert StepOk(n, p, 2) && StepOk(n, p, 3) && StepOk(n, p, 4) && StepOk(n, p, 6);
  }

  lemma FiveAround(n: nat, p: seq<nat>)
    requires IsCourse(n, p) && |p| >= 6 && p[5] == p[1]
    ensures IsAdjacent(n, p[2], p[1]) && IsAdjacent(n, p[4], p[1]) && IsAdjacent(n, p[0], p[1])
    ensures IsAdjacent(n, p[2], p[3]) && IsAdjacent(n, p[4], p[3])
  {
    NextTo(n, p, 0);
    NextTo(n, p, 1);
    NextTo(n, p, 2);
    NextTo(n, p, 3);
    NextTo(n, p, 4);
  }

  lemma NextTo(n: nat, p: seq<nat>, i: nat)
    requires IsCourse(n, p) && i + 1 < |p|
    ensures IsAdjacent(n, p[i], p[i + 1]) && IsAdjacent(n, p[i + 1], p[i])
  {
    assert StepOk(n, p, i + 1);
  }

  /** When a course ends on the solved board, no board on the way is farther from it than slides are left. */
  lemma {:induction false} LeftToGo(n: nat, p: seq<nat>, i: nat)
    requires IsCourse(n, p) && i < |p| && BoardAlong(n, p, |p| - 1) == Solved(n)
    ensures Away(n, p, i) <= |p| - 1 - i
    decreases |p| - i
  {
    if i == |p| - 1 {
      ManhattanOfSolved(n, Cells(n));
    } else {
      LeftToGo(n, p, i + 1);
      SlideAdds(n, p, i);
    }
  }

  /** Fewer than twelve slides, none of which takes the one before it back, never lead back to the solved
      board. */
  lemma ShortCoursesLeave(n: nat, p: seq<nat>)
    requires IsCourse(n, p) && 1 < |p| <= 12
    ensures BoardAlong(n, p, |p| - 1) != Solved(n)
  {
    var last := |p| - 1;
    if last % 2 == 1 {
      Differ(n, p, 0, last);
      BlankAlong(n, p, 0);
      BlankAlong(n, p, last);
    } else if BoardAlong(n, p, last) == Solved(n) {
      FarBeforeEnd(n, p);
    }
  }

  lemma FarBeforeEnd(n: nat, p: seq<nat>)
    requires IsCourse(n, p) && |p| in {3, 5, 7, 9, 11}
    ensures BoardAlong(n, p, |p| - 1) != Solved(n)
  {
    if BoardAlong(n, p, |p| - 1) == Solved(n) {
      if |p| == 3 {
        Differ(n, p, 0, 2);
        BlankAlong(n, p, 0);
        BlankAlong(n, p, 2);
      } else if |p| == 5 {
        FirstThree(n, p);
        LeftToGo(n, p, 3);
      } else if |p| < 11 {
        FifthAdds(n, p);
        LeftToGo(n, p, 5);
      } else {
        SeventhIsFar(n, p);
        LeftToGo(n, p, 7);
      }
    }
  }

  /** So the first attempt is returned whenever it makes fewer than twelve slides, and at least one. */
  lemma FewMovesNeedNoRetry(n: nat, pick: Picker, moveCount: nat, from: nat)
    requires n > 1 && 0 < moveCount < 12
    ensures FirstUnsolved(n, pick, moveCount, from, 0).Some?
  {
    var p := AttemptFollows(n, pick, from, moveCount);
    ShortCoursesLeave(n, p);
  }
}
