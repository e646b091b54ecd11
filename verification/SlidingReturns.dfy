/** For how many slides the scrambler returns whatever the random values are: for every odd number, and for
    every even one below twelve.  From twelve on, a course of every even length leads back to the solved
    board, and there is a stream of random values that makes every attempt follow it. */
module SlidingReturns {
  import opened Common
  import opened Draws
  import opened Grid
  import opened SlidingBoard
  import opened SlidingScrambler
  import opened SlidingCourses

  // ---------- a stream that makes every attempt follow a course ----------

  /** The next cell of a course is among the candidates. */
  lemma NextIsCandidate(n: nat, p: seq<nat>, i: nat, from: nat)
    requires IsCourse(n, p) && i + 1 < |p|
    ensures p[i + 1] in Candidates(n, StateAlong(n, p, i, from))
  {
    var s := StateAlong(n, p, i, from);
    BlankAlong(n, p, i);
    CourseBoard(n, p, i + 1);
    var legal := LegalTiles(n, s.board);
    LegalTilesExact(n, s.board);
    assert legal[..|legal|] == legal;
    assert StepOk(n, p, i + 1);
    if i > 0 { WithoutExact(legal, p[i - 1], |legal|, p[i + 1]); }
  }

  /** The candidates at cell `i` of a course. */
  ghost function CandidatesAt(n: nat, p: seq<nat>, i: nat): (c: seq<nat>)
    requires IsCourse(n, p) && i + 1 < |p|
    ensures p[i + 1] in c
  {
    NextIsCandidate(n, p, i, 0);
    Candidates(n, StateAlong(n, p, i, 0))
  }

  lemma ShareIsUnit(i: nat, count: nat)
    requires i < count
    ensures 0.0 <= i as real / count as real < 1.0
    ensures ((i as real / count as real) * count as real).Floor == i
  {
  }

  /** A random value that draws the next cell. */
  ghost function ShareAt(n: nat, p: seq<nat>, i: nat): Unit
    requires IsCourse(n, p) && i + 1 < |p|
  {
    var c := CandidatesAt(n, p, i);
    ShareIsUnit(IndexOf(c, p[i + 1]), |c|);
    IndexOf(c, p[i + 1]) as real / |c| as real
  }

  /** The random values that draw the course again and again. */
  ghost function StreamOf(n: nat, p: seq<nat>): nat -> Unit
    requires IsCourse(n, p) && |p| > 1
  {
    (i: nat) => ShareAt(n, p, Col(|p| - 1, i))
  }

  lemma PickIs(random: nat -> Unit, at: nat, i: nat, count: nat)
    requires i < count && random(at) == i as real / count as real
    ensures PickerOf(random)(at, count) == i
  {
    ShareIsUnit(i, count);
    assert PickerOf(random)(at, count) as int == (random(at) * count as real).Floor;
  }

  /** Attempt `t` reads the stream from a multiple of the course's length on. */
  lemma StreamAt(n: nat, p: seq<nat>, random: nat -> Unit, t: nat, from: nat, i: nat)
    requires IsCourse(n, p) && i + 1 < |p| && random == StreamOf(n, p) && from == Rows(|p| - 1, t)
    ensures random(from + i) == ShareAt(n, p, i)
  {
    CellIndex(|p| - 1, i, t);
    StreamIs(n, p, random, from + i, i);
  }

  lemma StreamIs(n: nat, p: seq<nat>, random: nat -> Unit, at: nat, i: nat)
    requires IsCourse(n, p) && i + 1 < |p| && random == StreamOf(n, p) && i == Col(|p| - 1, at)
    ensures random(at) == ShareAt(n, p, i)
  {
  }

  lemma ShareIsDrawn(n: nat, p: seq<nat>, i: nat, random: nat -> Unit, at: nat)
    requires IsCourse(n, p) && i + 1 < |p| && random(at) == ShareAt(n, p, i)
    ensures var c := CandidatesAt(n, p, i); PickerOf(random)(at, |c|) == IndexOf(c, p[i + 1])
  {
    var c := CandidatesAt(n, p, i);
    PickIs(random, at, IndexOf(c, p[i + 1]), |c|);
  }

  lemma CandidatesAnytime(n: nat, p: seq<nat>, i: nat, from: nat)
    requires IsCourse(n, p) && i + 1 < |p|
    ensures Candidates(n, StateAlong(n, p, i, from)) == CandidatesAt(n, p, i)
  {
  }

  lemma DrawnByPick(n: nat, pick: Picker, p: seq<nat>, i: nat, from: nat)
    requires IsCourse(n, p) && i + 1 < |p|
    requires var c := CandidatesAt(n, p, i); pick(from + i, |c|) == IndexOf(c, p[i + 1])
    ensures DrawnAt(n, pick, p, i, from)
  {
    CandidatesAnytime(n, p, i, from);
  }

  lemma ShareDraws(n: nat, p: seq<nat>, i: nat, random: nat -> Unit, from: nat)
    requires IsCourse(n, p) && i + 1 < |p| && random(from + i) == ShareAt(n, p, i)
    ensures DrawnAt(n, PickerOf(random), p, i, from)
  {
    ShareIsDrawn(n, p, i, random, from + i);
    DrawnByPick(n, PickerOf(random), p, i, from);
  }

  /** Attempt `t` ends on the solved board, and the next one reads the stream on from there. */
  ghost predicate BackAgain(n: nat, pick: Picker, length: nat, t: nat)
    requires n > 0
  {
    var a := AttemptAt(n, pick, length, Rows(length, t));
    a.board == Solved(n) && a.drawn == Rows(length, t + 1)
  }

  /** From `from` on the random values draw the course. */
  ghost predicate DrawsCourse(n: nat, p: seq<nat>, random: nat -> Unit, from: nat)
    requires IsCourse(n, p)
  {
    forall i: nat :: i + 1 < |p| ==> DrawsAt(n, p, random, from, i)
  }

  ghost predicate DrawsAt(n: nat, p: seq<nat>, random: nat -> Unit, from: nat, i: nat)
    requires IsCourse(n, p) && i + 1 < |p|
  {
    random(from + i) == ShareAt(n, p, i)
  }

  lemma CourseIsFollowed(n: nat, p: seq<nat>, random: nat -> Unit, from: nat)
    requires IsCourse(n, p) && DrawsCourse(n, p, random, from)
    ensures AttemptAt(n, PickerOf(random), |p| - 1, from) == StateAlong(n, p, |p| - 1, from)
  {
    forall i: nat | i + 1 < |p| ensures DrawnAt(n, PickerOf(random), p, i, from) {
      assert DrawsAt(n, p, random, from, i);
      ShareDraws(n, p, i, random, from);
    }
    FollowsCourse(n, PickerOf(random), p, from);
  }

  lemma StreamDraws(n: nat, p: seq<nat>, random: nat -> Unit, t: nat, from: nat)
    requires IsCourse(n, p) && |p| > 1 && random == StreamOf(n, p) && from == Rows(|p| - 1, t)
    ensures DrawsCourse(n, p, random, from)
  {
    forall i: nat | i + 1 < |p| ensures DrawsAt(n, p, random, from, i) {
      StreamAt(n, p, random, t, from, i);
    }
  }

  /** Every attempt follows the course. */
  lemma StreamFollows(n: nat, p: seq<nat>, random: nat -> Unit, t: nat)
    requires IsCourse(n, p) && |p| > 1 && BoardAlong(n, p, |p| - 1) == Solved(n) && random == StreamOf(n, p)
    ensures BackAgain(n, PickerOf(random), |p| - 1, t)
  {
    StreamDraws(n, p, random, t, Rows(|p| - 1, t));
    CourseIsFollowed(n, p, random, Rows(|p| - 1, t));
  }

  /** When all of them end on the solved board, no number of retries helps. */
  lemma {:induction false} NoRetryHelps(n: nat, pick: Picker, length: nat, t: nat, tries: nat)
    requires n > 0 && forall k: nat :: BackAgain(n, pick, length, k)
    ensures FirstUnsolved(n, pick, length, Rows(length, t), tries).None?
    decreases tries
  {
    assert BackAgain(n, pick, length, t);
    if tries > 0 {
      NoRetryHelps(n, pick, length, t + 1, tries - 1);
    }
  }

  // ---------- courses that lead back ----------

  ghost function EndBoard(n: nat, p: seq<nat>): Board
    requires IsCourse(n, p)
  {
    BoardAlong(n, p, |p| - 1)
  }

  function Swapped(b: Board, z: nat, c: nat): (r: Board)
    requires z < |b| && c < |b|
    ensures |r| == |b|
  {
    b[z := b[c]][c := 0]
  }

  lemma GoOn(n: nat, p: seq<nat>, c: nat) returns (q: seq<nat>)
    requires IsCourse(n, p) && c < Cells(n) && IsAdjacent(n, c, p[|p| - 1]) && (|p| > 1 ==> c != p[|p| - 2])
    ensures q == p + [c] && IsCourse(n, q) && p[|p| - 1] < Cells(n)
    ensures EndBoard(n, q) == Swapped(EndBoard(n, p), p[|p| - 1], c)
  {
    assert StepOk(n, p, |p| - 1);
    CourseOn(n, p, c);
    q := p + [c];
    BoardOfPrefix(n, p, q, |p| - 1);
  }

  /** Four cells in a square, in the order one goes round it. */
  ghost predicate Block(n: nat, a: nat, b: nat, c: nat, d: nat)
    requires n > 0
  {
    && a < Cells(n) && b < Cells(n) && c < Cells(n) && d < Cells(n)
    && a != b && a != c && a != d && b != c && b != d && c != d
    && IsAdjacent(n, b, a) && IsAdjacent(n, c, b) && IsAdjacent(n, d, c) && IsAdjacent(n, a, d)
  }

  /** What a lap around the square does to the board. */
  function Turned(s: Board, b: nat, c: nat, d: nat): (r: Board)
    requires b < |s| && c < |s| && d < |s|
    ensures |r| == |s|
  {
    s[b := s[c]][c := s[d]][d := s[b]]
  }

  lemma LapTurns(s: Board, a: nat, b: nat, c: nat, d: nat)
    requires a < |s| && b < |s| && c < |s| && d < |s| && s[a] == 0
    requires a != b && a != c && a != d && b != c && b != d && c != d
    ensures Swapped(Swapped(Swapped(Swapped(s, a, b), b, c), c, d), d, a) == Turned(s, b, c, d)
  {
  }

  lemma ThreeTurns(s: Board, b: nat, c: nat, d: nat)
    requires b < |s| && c < |s| && d < |s| && b != c && b != d && c != d
    ensures Turned(Turned(Turned(s, b, c, d), b, c, d), b, c, d) == s
  {
  }

  lemma Lap(n: nat, p: seq<nat>, b: nat, c: nat, d: nat) returns (q: seq<nat>)
    requires IsCourse(n, p) && Block(n, p[|p| - 1], b, c, d) && (|p| > 1 ==> b != p[|p| - 2])
    ensures IsCourse(n, q) && |q| == |p| + 4 && q[|q| - 1] == p[|p| - 1] && q[|q| - 2] == d
    ensures EndBoard(n, q) == Turned(EndBoard(n, p), b, c, d)
  {
    var a := p[|p| - 1];
    BlankAlong(n, p, |p| - 1);
    q := GoTwo(n, p, b, c);
    q := GoTwo(n, q, d, a);
    LapTurns(EndBoard(n, p), a, b, c, d);
  }

  lemma GoTwo(n: nat, p: seq<nat>, b: nat, c: nat) returns (q: seq<nat>)
    requires IsCourse(n, p) && b < Cells(n) && c < Cells(n) && c != p[|p| - 1] && (|p| > 1 ==> b != p[|p| - 2])
    requires IsAdjacent(n, b, p[|p| - 1]) && IsAdjacent(n, c, b)
    ensures IsCourse(n, q) && |q| == |p| + 2 && q[|q| - 1] == c && q[|q| - 2] == b && p[|p| - 1] < Cells(n)
    ensures EndBoard(n, q) == Swapped(Swapped(EndBoard(n, p), p[|p| - 1], b), b, c)
  {
    q := GoOn(n, p, b);
    q := GoOn(n, q, c);
  }

  /** Three laps bring every tile back, and so do three more. */
  lemma {:induction false} Laps(n: nat, p: seq<nat>, b: nat, c: nat, d: nat, k: nat) returns (q: seq<nat>)
    requires IsCourse(n, p) && Block(n, p[|p| - 1], b, c, d) && (|p| > 1 ==> b != p[|p| - 2])
    ensures IsCourse(n, q) && |q| == |p| + 12 * (k + 1) && q[|q| - 1] == p[|p| - 1] && q[|q| - 2] == d
    ensures EndBoard(n, q) == EndBoard(n, p)
    decreases k
  {
    q := Lap(n, p, b, c, d);
    q := Lap(n, q, b, c, d);
    q := Lap(n, q, b, c, d);
    ThreeTurns(EndBoard(n, p), b, c, d);
    if k > 0 { q := Laps(n, q, b, c, d, k - 1); }
  }

  lemma SwapBack(s: Board, a: nat, b: nat)
    requires a < |s| && b < |s| && a != b && s[a] == 0
    ensures Swapped(Swapped(s, a, b), b, a) == s
  {
  }

  /** Going back the way one has come undoes all slides. */
  lemma {:induction false} Retrace(n: nat, tail: seq<nat>, i: nat, p: seq<nat>) returns (q: seq<nat>)
    requires IsCourse(n, tail) && i < |tail| && IsCourse(n, p) && |p| > 1 && p[|p| - 1] == tail[i]
    requires EndBoard(n, p) == BoardAlong(n, tail, i) && (i > 0 ==> p[|p| - 2] != tail[i - 1])
    ensures IsCourse(n, q) && |q| == |p| + i && EndBoard(n, q) == Solved(n)
    decreases i
  {
    if i == 0 {
      q := p;
    } else {
      assert StepOk(n, tail, i) && StepOk(n, tail, i - 1);
      BlankAlong(n, tail, i - 1);
      q := GoOn(n, p, tail[i - 1]);
      SwapBack(BoardAlong(n, tail, i - 1), tail[i - 1], tail[i]);
      q := Retrace(n, tail, i - 1, q);
    }
  }

  // ---------- where to go round ----------

  /** The cell in row `r` from below and column `c` from the right. */
  function CornerCell(n: nat, r: nat, c: nat): nat
    requires n >= 3 && r < 3 && c < 3
  {
    Rows(n, n - 1 - r) + (n - 1 - c)
  }

  lemma CornerCellIs(n: nat, r: nat, c: nat)
    requires n >= 3 && r < 3 && c < 3
    ensures CornerCell(n, r, c) < Cells(n)
    ensures Row(n, CornerCell(n, r, c)) == n - 1 - r && Col(n, CornerCell(n, r, c)) == n - 1 - c
  {
    CellIndex(n, n - 1 - c, n - 1 - r);
    CellBelow(n, n - 1 - c, n - 1 - r, n);
  }

  type Place = (nat, nat)

  predicate InCorner(a: Place) {
    a.0 < 3 && a.1 < 3
  }

  predicate Beside(a: Place, b: Place) {
    Abs(a.0 - b.0) + Abs(a.1 - b.1) == 1
  }

  function CellOfPlace(n: nat, a: Place): nat
    requires n >= 3 && InCorner(a)
  {
    CornerCell(n, a.0, a.1)
  }

  lemma PlacesAre(n: nat, a: Place, b: Place)
    requires n >= 3 && InCorner(a) && InCorner(b)
    ensures CellOfPlace(n, a) < Cells(n) && CellOfPlace(n, b) < Cells(n)
    ensures CellOfPlace(n, a) == CellOfPlace(n, b) <==> a == b
    ensures IsAdjacent(n, CellOfPlace(n, a), CellOfPlace(n, b)) <==> Beside(a, b)
  {
    CornerCellIs(n, a.0, a.1);
    CornerCellIs(n, b.0, b.1);
  }

  /** A way of `k` steps from the corner. */
  function WayTo(k: nat): seq<Place>
    requires k < 6
  {
    if k == 2 then [(0, 0), (0, 1), (1, 1)]
    else if k == 4 then [(0, 0), (0, 1), (0, 2), (1, 2), (1, 1)]
    else [(0, 0), (0, 1), (0, 2), (1, 2), (2, 2), (2, 1)][..k + 1]
  }

  /** The other places of a square at its end, off the way. */
  function SquareAt(k: nat): (Place, Place, Place)
    requires k < 6
  {
    if k == 0 then ((0, 1), (1, 1), (1, 0))
    else if k == 1 then ((0, 2), (1, 2), (1, 1))
    else if k == 2 then ((1, 2), (2, 2), (2, 1))
    else if k == 3 then ((2, 2), (2, 1), (1, 1))
    else if k == 4 then ((1, 0), (2, 0), (2, 1))
    else ((2, 0), (1, 0), (1, 1))
  }

  ghost predicate IsWay(way: seq<Place>) {
    && |way| > 0 && way[0] == (0, 0) && (forall i :: 0 <= i < |way| ==> InCorner(way[i]))
    && (forall i :: 0 < i < |way| ==> Beside(way[i], way[i - 1]))
    && (forall i :: 1 < i < |way| ==> way[i] != way[i - 2])
  }

  lemma WaysAre(k: nat)
    requires k < 6
    ensures |WayTo(k)| == k + 1 && IsWay(WayTo(k))
  {
  }

  ghost predicate IsSquare(a: Place, s: (Place, Place, Place)) {
    && InCorner(a) && InCorner(s.0) && InCorner(s.1) && InCorner(s.2)
    && Beside(s.0, a) && Beside(s.1, s.0) && Beside(s.2, s.1) && Beside(a, s.2)
    && a != s.1 && s.0 != s.2
  }

  lemma SquaresAre(k: nat)
    requires k < 6
    ensures var way, s := WayTo(k), SquareAt(k);
            |way| == k + 1 && IsSquare(way[k], s) && (k > 0 ==> s.0 != way[k - 1] && s.2 != way[k - 1])
  {
  }

  /** The way is a course. */
  lemma WayCourse(n: nat, way: seq<Place>) returns (p: seq<nat>)
    requires n >= 3 && IsWay(way)
    ensures IsCourse(n, p) && |p| == |way| && forall i :: 0 <= i < |p| ==> p[i] == CellOfPlace(n, way[i])
  {
    p := seq(|way|, i requires 0 <= i < |way| => CellOfPlace(n, way[i]));
    forall i: nat | i < |p| ensures StepOk(n, p, i) {
      PlacesAre(n, way[i], way[if i > 0 then i - 1 else 0]);
      PlacesAre(n, way[i], way[if i > 1 then i - 2 else 0]);
    }
  }

  lemma SquareBlock(n: nat, a: Place, s: (Place, Place, Place))
    requires n >= 3 && IsSquare(a, s)
    ensures Block(n, CellOfPlace(n, a), CellOfPlace(n, s.0), CellOfPlace(n, s.1), CellOfPlace(n, s.2))
  {
    PlacesAre(n, s.0, a);
    PlacesAre(n, s.1, s.0);
    PlacesAre(n, s.2, s.1);
    PlacesAre(n, a, s.2);
    PlacesAre(n, a, s.1);
    PlacesAre(n, s.0, s.2);
  }

  /** Out on a way, some laps around a square, and back. */
  lemma OutAndBack(n: nat, k: nat, laps: nat) returns (p: seq<nat>)
    requires n >= 3 && k < 6
    ensures IsCourse(n, p) && |p| == 12 * (laps + 1) + 2 * k + 1 && EndBoard(n, p) == Solved(n)
  {
    WaysAre(k);
    SquaresAre(k);
    var way, s := WayTo(k), SquareAt(k);
    var tail := WayCourse(n, way);
    SquareBlock(n, way[k], s);
    if k > 0 {
      PlacesAre(n, s.0, way[k - 1]);
      PlacesAre(n, s.2, way[k - 1]);
    }
    p := Laps(n, tail, CellOfPlace(n, s.0), CellOfPlace(n, s.1), CellOfPlace(n, s.2), laps);
    p := Retrace(n, tail, k, p);
  }

  /** Courses of every even number of slides from twelve on lead back to the solved board. */
  lemma LongCourseReturns(n: nat, m: nat) returns (p: seq<nat>)
    requires n >= 3 && m >= 12 && m % 2 == 0
    ensures IsCourse(n, p) && |p| == m + 1 && EndBoard(n, p) == Solved(n)
  {
    p := OutAndBack(n, (m % 12) / 2, m / 12 - 1);
  }

  // ---------- the condition on the number of slides ----------

  /** Some retry leaves the solved board. */
  ghost predicate Returns(n: nat, pick: Picker, moveCount: int, from: nat)
    requires n > 0
  {
    exists tries: nat :: FirstUnsolved(n, pick, moveCount, from, tries).Some?
  }

  /** The random values can keep the scrambler from ever returning. */
  lemma ManyMovesMayNeverReturn(n: nat, moveCount: nat) returns (random: nat -> Unit)
    requires n >= 3 && moveCount >= 12 && moveCount % 2 == 0
    ensures !Returns(n, PickerOf(random), moveCount, 0)
  {
    var p := LongCourseReturns(n, moveCount);
    random := StreamOf(n, p);
    CourseNeverReturns(n, p, random);
  }

  lemma CourseNeverReturns(n: nat, p: seq<nat>, random: nat -> Unit)
    requires IsCourse(n, p) && |p| > 1 && BoardAlong(n, p, |p| - 1) == Solved(n) && random == StreamOf(n, p)
    ensures !Returns(n, PickerOf(random), |p| - 1, 0)
  {
    var pick, length := PickerOf(random), |p| - 1;
    forall t: nat ensures BackAgain(n, pick, length, t) {
      StreamFollows(n, p, random, t);
    }
    forall tries: nat ensures FirstUnsolved(n, pick, length, 0, tries).None? {
      NoRetryHelps(n, pick, length, 0, tries);
    }
  }

  /** The scrambler returns whatever the random values are exactly when it is asked for an odd number of slides,
      or for an even one from two to ten. */
  lemma ReturnsIff(n: nat, moveCount: int)
    requires n >= 3
    ensures (forall random: nat -> Unit, from: nat :: Returns(n, PickerOf(random), moveCount, from))
       <==> moveCount > 0 && (moveCount % 2 == 1 || moveCount < 12)
  {
    if moveCount > 0 && (moveCount % 2 == 1 || moveCount < 12) {
      forall random: nat -> Unit, from: nat ensures Returns(n, PickerOf(random), moveCount, from) {
        if moveCount % 2 == 1 {
          OddMoveCountNeedsNoRetry(n, PickerOf(random), moveCount, from);
        } else {
          FewMovesNeedNoRetry(n, PickerOf(random), moveCount, from);
        }
        assert FirstUnsolved(n, PickerOf(random), moveCount, from, 0).Some?;
      }
    } else if moveCount > 0 {
      var random := ManyMovesMayNeverReturn(n, moveCount);
      assert !Returns(n, PickerOf(random), moveCount, 0);
    } else {
      var random: nat -> Unit := (i: nat) => 0.0;
      forall tries: nat ensures FirstUnsolved(n, PickerOf(random), moveCount, 0, tries).None? {
        NoMovesNeverReturns(n, PickerOf(random), moveCount, 0, tries);
      }
      assert !Returns(n, PickerOf(random), moveCount, 0);
    }
  }
}
