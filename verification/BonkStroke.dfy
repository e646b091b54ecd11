/** Drawing routes with the finger: what every sequence of pointer events and undos keeps, and the one way
    in which a stored route comes to claim falsely that it is complete. */
module BonkStroke {
  import opened Common
  import opened BonkWorld
  import opened BonkRouter
  import opened BonkFlight
  import opened BonkRun

  const MAX_PATH_CELLS := 120
  const DRAW_STEP_GUARD := 50
  const SNAP_ADJ := 1
  const PLANE_TAP_PADDING := 22.0
  const TAP_END_SNAP_RATIO := 0.9
  const EDGE_INSET := 1.0

  datatype Drawing = Drawing(id: nat, prev: Option<PlanePath>, moved: bool, minLen: nat)

  datatype UndoEntry = UndoEntry(id: nat, prev: Option<PlanePath>)

  datatype StrokeState = StrokeState(
    planning: bool,
    paths: map<nat, PlanePath>,
    undo: seq<UndoEntry>,
    drawing: Option<Drawing>)

  // ---------- the world the routes are drawn in ----------

  ghost predicate KingSteps(cells: seq<Cell>) {
    forall i :: 0 < i < |cells| ==> KingStepAt(cells, i)
  }

  ghost predicate KingStepAt(cells: seq<Cell>, i: nat)
    requires 0 < i < |cells|
  {
    KingStep(cells[i - 1], cells[i])
  }

  ghost predicate AllInGrid(w: World, cells: seq<Cell>) {
    forall i :: 0 <= i < |cells| ==> InGrid(w, cells[i])
  }

  /** The cells every route of a plane starts with: its whole runway, or its spawn cell. */
  function StartCells(w: World, pl: Plane): seq<Cell>
    requires pl.mission == Depart ==> pl.rwIdx < |w.runways|
  {
    if pl.mission == Depart then w.runways[pl.rwIdx].cells else [pl.spawn]
  }

  function TargetCell(w: World, pl: Plane): Cell
    requires if pl.mission == Land then pl.target < |w.runways| else pl.target < |w.gates|
  {
    if pl.mission == Land then w.runways[pl.target].thr else w.gates[pl.target]
  }

  ghost predicate PlaneFits(w: World, k: nat)
    requires k < |w.planes|
  {
    var pl := w.planes[k];
    && pl.id == k
    && (pl.mission == Depart ==> pl.rwIdx < |w.runways|)
    && (if pl.mission == Land then pl.target < |w.runways| else pl.target < |w.gates|)
    && InGrid(w, TargetCell(w, pl))
    && |StartCells(w, pl)| > 0 && AllInGrid(w, StartCells(w, pl)) && KingSteps(StartCells(w, pl))
  }

  /** A world whose planes, runways and gates fit the grid; the grid is no larger than the drawing guard. */
  ghost predicate DrawOk(w: World) {
    && 0 < w.cols <= DRAW_STEP_GUARD && 0 < w.rows <= DRAW_STEP_GUARD
    && forall k: nat :: k < |w.planes| ==> PlaneFits(w, k)
  }

  // ---------- what is kept ----------

  /** The route starts with its plane's spawn or whole runway, stays in the grid, and moves by
      eight-neighbour steps. */
  ghost predicate Drawable(w: World, id: nat, path: PlanePath)
    requires DrawOk(w) && id < |w.planes|
  {
    assert PlaneFits(w, id);
    StartCells(w, w.planes[id]) <= path.cells && AllInGrid(w, path.cells) && KingSteps(path.cells)
  }

  ghost function Target(w: World, id: nat): Cell
    requires DrawOk(w) && id < |w.planes|
  {
    assert PlaneFits(w, id);
    TargetCell(w, w.planes[id])
  }

  /** A route that claims to be complete ends on its target. */
  ghost predicate Honest(w: World, id: nat, path: PlanePath)
    requires DrawOk(w) && id < |w.planes|
  {
    path.complete ==> |path.cells| > 0 && path.cells[|path.cells| - 1] == Target(w, id)
  }

  ghost predicate EntryOk(w: World, id: nat, prev: Option<PlanePath>)
    requires DrawOk(w)
  {
    id < |w.planes| && (prev.Some? ==> Drawable(w, id, prev.value))
  }

  /** Every route there is, stored or kept for an undo, is drawable; the stroke knows its plane. */
  ghost predicate Inv(w: World, st: StrokeState)
    requires DrawOk(w)
  {
    && (forall id :: id in st.paths ==> EntryOk(w, id, Some(st.paths[id])))
    && (forall i :: 0 <= i < |st.undo| ==> EntryOk(w, st.undo[i].id, st.undo[i].prev))
    && (st.drawing.Some? ==>
          var d := st.drawing.value;
          EntryOk(w, d.id, d.prev) && (assert PlaneFits(w, d.id); d.minLen == |StartCells(w, w.planes[d.id])|))
  }

  ghost predicate EntryHonest(w: World, id: nat, prev: Option<PlanePath>)
    requires DrawOk(w) && EntryOk(w, id, prev)
  {
    prev.Some? ==> Honest(w, id, prev.value)
  }

  /** Every stored route is well formed: drawable, and honest. */
  ghost predicate RoutesOk(w: World, st: StrokeState)
    requires DrawOk(w) && Inv(w, st)
  {
    forall id :: id in st.paths ==> EntryOk(w, id, Some(st.paths[id])) && Honest(w, id, st.paths[id])
  }

  /** So are the routes kept for taking something back. */
  ghost predicate PastOk(w: World, st: StrokeState)
    requires DrawOk(w) && Inv(w, st)
  {
    && (forall i :: 0 <= i < |st.undo| ==> EntryOk(w, st.undo[i].id, st.undo[i].prev)
                                           && EntryHonest(w, st.undo[i].id, st.undo[i].prev))
    && (st.drawing.Some? ==> EntryHonest(w, st.drawing.value.id, st.drawing.value.prev))
  }

  // ---------- the strokes as functions of the state ----------

  function PathOf(st: StrokeState, id: nat): Option<PlanePath> {
    if id in st.paths then Some(st.paths[id]) else None
  }

  /** Pressing on a plane starts a fresh route. */
  function Begin(w: World, st: StrokeState, id: nat): StrokeState
    requires id < |w.planes| && (w.planes[id].mission == Depart ==> w.planes[id].rwIdx < |w.runways|)
  {
    var start := StartCells(w, w.planes[id]);
    st.(drawing := Some(Drawing(id, PathOf(st, id), false, |start|)),
        paths := st.paths[id := PlanePath(start, false)])
  }

  /** Pressing on the end of an incomplete route goes on with it. */
  function Extend(w: World, st: StrokeState, id: nat): StrokeState
    requires id < |w.planes| && (w.planes[id].mission == Depart ==> w.planes[id].rwIdx < |w.runways|)
  {
    st.(drawing := Some(Drawing(id, PathOf(st, id), true, |StartCells(w, w.planes[id])|)))
  }

  function Sign(x: int): int {
    if x > 0 then 1 else if x < 0 then -1 else 0
  }

  function Chebyshev(a: Cell, b: Cell): nat {
    if Abs(a.x - b.x) > Abs(a.y - b.y) then Abs(a.x - b.x) else Abs(a.y - b.y)
  }

  function Toward(a: Cell, b: Cell): Cell {
    Cell(a.x + Sign(b.x - a.x), a.y + Sign(b.y - a.y))
  }

  /** The route after the finger has moved to `cur`: one cell shorter when the finger stepped back onto
      the last cell but one, otherwise drawn on cell by cell, up to the cap.  The distance left to the
      finger shrinks with every cell, whatever the guard of the loop. */
  function Drawn(cells: seq<Cell>, cur: Cell, minLen: nat): seq<Cell>
    requires |cells| > 0
    decreases Chebyshev(cells[|cells| - 1], cur)
  {
    var last := cells[|cells| - 1];
    if last == cur then cells
    else if |cells| > minLen && |cells| > 1 && cells[|cells| - 2] == cur then cells[..|cells| - 1]
    else if |cells| >= MAX_PATH_CELLS then cells
    else Drawn(cells + [Toward(last, cur)], cur, minLen)
  }

  /** Moving the finger over the grid to the cell `cur`.  When the stroke's route is gone, the handler
      throws before it has changed anything. */
  function Drag(st: StrokeState, cur: Cell): StrokeState
    requires Ready(st)
  {
    if st.drawing.None? || !st.planning || st.drawing.value.id !in st.paths then st else
      var d := st.drawing.value;
      var path := st.paths[d.id];
      var cells := Drawn(path.cells, cur, d.minLen);
      st.(paths := st.paths[d.id := path.(cells := cells)],
          drawing := Some(d.(moved := d.moved || cells != path.cells)))
  }

  /** The route of the stroke in progress, if there is one, has cells to draw on. */
  predicate Ready(st: StrokeState) {
    st.drawing.Some? && st.drawing.value.id in st.paths ==> |st.paths[st.drawing.value.id].cells| > 0
  }

  /** Putting the previous route of a plane back, or none. */
  function Restore(paths: map<nat, PlanePath>, id: nat, prev: Option<PlanePath>): map<nat, PlanePath> {
    match prev
    case None => map k | k in paths && k != id :: paths[k]
    case Some(path) => paths[id := path]
  }

  /** The route snaps to its target from a neighbouring cell. */
  function Snapped(path: PlanePath, target: Cell): PlanePath
    requires |path.cells| > 0
  {
    var away := Chebyshev(path.cells[|path.cells| - 1], target);
    if away > SNAP_ADJ then path.(complete := false)
    else PlanePath(if away > 0 then path.cells + [target] else path.cells, true)
  }

  /** Lifting the finger: a press that has not moved is taken back, whatever is stored by then, and a stroke
      that has drawn is recorded.  When the route it drew is gone, the handler throws after it has ended
      the stroke. */
  function Finish(w: World, st: StrokeState): StrokeState
    requires DrawOk(w) && Inv(w, st)
  {
    if st.drawing.None? then st else
      var d := st.drawing.value;
      if !d.moved then st.(drawing := None, paths := Restore(st.paths, d.id, d.prev))
      else if d.id !in st.paths then st.(drawing := None)
      else
        assert PlaneFits(w, d.id);
        assert EntryOk(w, d.id, Some(st.paths[d.id]));
        var path := Snapped(st.paths[d.id], TargetCell(w, w.planes[d.id]));
        st.(drawing := None, paths := st.paths[d.id := path], undo := st.undo + [UndoEntry(d.id, d.prev)])
  }

  /** Taking back the last recorded stroke. */
  function UndoOf(st: StrokeState): StrokeState {
    if !st.planning || |st.undo| == 0 then st else
      var u := st.undo[|st.undo| - 1];
      st.(undo := st.undo[..|st.undo| - 1], paths := Restore(st.paths, u.id, u.prev))
  }

  function Commit(st: StrokeState): StrokeState {
    if st.planning then st.(planning := false, drawing := None) else st
  }

  // ---------- each stroke keeps the invariant ----------

  lemma KingStepsAppend(cells: seq<Cell>, c: Cell)
    requires |cells| > 0 && KingSteps(cells) && KingStep(cells[|cells| - 1], c)
    ensures KingSteps(cells + [c])
  {
    forall i | 0 < i < |cells + [c]| ensures KingStepAt(cells + [c], i) {
      if i < |cells| { assert KingStepAt(cells, i); }
    }
  }

  lemma KingStepsPrefix(cells: seq<Cell>, n: nat)
    requires n <= |cells| && KingSteps(cells)
    ensures KingSteps(cells[..n])
  {
    forall i | 0 < i < n ensures KingStepAt(cells[..n], i) {
      assert KingStepAt(cells, i);
    }
  }

  /** Drawing keeps the start, the grid and the eight-neighbour steps. */
  lemma {:induction false} DrawnOk(w: World, cells: seq<Cell>, cur: Cell, start: seq<Cell>)
    requires |start| > 0 && start <= cells && AllInGrid(w, cells) && KingSteps(cells) && InGrid(w, cur)
    ensures var r := Drawn(cells, cur, |start|); start <= r && AllInGrid(w, r) && KingSteps(r)
    decreases Chebyshev(cells[|cells| - 1], cur)
  {
    var last := cells[|cells| - 1];
    if last == cur {
    } else if |cells| > |start| && |cells| > 1 && cells[|cells| - 2] == cur {
      KingStepsPrefix(cells, |cells| - 1);
    } else if |cells| < MAX_PATH_CELLS {
      KingStepsAppend(cells, Toward(last, cur));
      DrawnOk(w, cells + [Toward(last, cur)], cur, start);
    }
  }

  /** Unless the cap stops it, the route ends under the finger. */
  lemma {:induction false} DrawnReaches(cells: seq<Cell>, cur: Cell, minLen: nat)
    requires |cells| > 0
    ensures var r := Drawn(cells, cur, minLen);
            |r| > 0 && (r[|r| - 1] == cur || |r| >= MAX_PATH_CELLS)
    ensures |Drawn(cells, cur, minLen)| <= |cells| || |Drawn(cells, cur, minLen)| <= MAX_PATH_CELLS
    decreases Chebyshev(cells[|cells| - 1], cur)
  {
    var last := cells[|cells| - 1];
    if last != cur && !(|cells| > minLen && |cells| > 1 && cells[|cells| - 2] == cur) && |cells| < MAX_PATH_CELLS {
      DrawnReaches(cells + [Toward(last, cur)], cur, minLen);
    }
  }

  /** The finger is on the last cell but one, and that cell may be taken away. */
  predicate StepsBack(cells: seq<Cell>, cur: Cell, minLen: nat) {
    |cells| > minLen && |cells| > 1 && cells[|cells| - 2] == cur
  }

  /** Cell `i` is nearer to the finger by one than the cell before. */
  ghost predicate NearsAt(cells: seq<Cell>, cur: Cell, i: nat)
    requires 0 < i < |cells|
  {
    Chebyshev(cells[i], cur) == Chebyshev(cells[i - 1], cur) - 1
  }

  /** A step back takes one cell away.  Otherwise the route keeps its cells and goes on by the straightest way:
      one cell for each the finger is away, as many as the cap allows. */
  lemma {:induction false} DrawnExact(cells: seq<Cell>, cur: Cell, minLen: nat)
    requires |cells| > 0
    ensures var last, r := cells[|cells| - 1], Drawn(cells, cur, minLen);
            if last != cur && StepsBack(cells, cur, minLen) then r == cells[..|cells| - 1]
            else
              var far, room := Chebyshev(last, cur), if |cells| < MAX_PATH_CELLS then MAX_PATH_CELLS - |cells| else 0;
              && cells <= r && |r| == |cells| + (if far < room then far else room)
              && forall i :: |cells| <= i < |r| ==> NearsAt(r, cur, i)
    decreases Chebyshev(cells[|cells| - 1], cur)
  {
    var last := cells[|cells| - 1];
    if last != cur && !StepsBack(cells, cur, minLen) && |cells| < MAX_PATH_CELLS {
      var more := cells + [Toward(last, cur)];
      assert more[|more| - 2] == last;
      DrawnExact(more, cur, minLen);
      assert NearsAt(Drawn(more, cur, minLen), cur, |cells|);
    }
  }

  /** The finger is on the last cell of the route, or the cap keeps the route from going on. */
  predicate Stays(cells: seq<Cell>, cur: Cell, minLen: nat)
    requires |cells| > 0
  {
    || cur == cells[|cells| - 1]
    || (|cells| >= MAX_PATH_CELLS && !(|cells| > minLen && |cells| > 1 && cells[|cells| - 2] == cur))
  }

  /** Drawing on comes nearer the finger with every cell, so it never ends where it began. */
  lemma {:induction false} DrawnNears(cells: seq<Cell>, cur: Cell, minLen: nat)
    requires |cells| > 0
    ensures var r := Drawn(cells, cur, minLen);
            |r| > 0 && Chebyshev(r[|r| - 1], cur) <= Chebyshev(cells[|cells| - 1], cur)
    decreases Chebyshev(cells[|cells| - 1], cur)
  {
    var last := cells[|cells| - 1];
    if last != cur && !(|cells| > minLen && |cells| > 1 && cells[|cells| - 2] == cur) && |cells| < MAX_PATH_CELLS {
      DrawnNears(cells + [Toward(last, cur)], cur, minLen);
    }
  }

  /** The route ends on the cell it ended on before exactly when it stays there. */
  lemma DrawnStaysIff(w: World, cells: seq<Cell>, cur: Cell, minLen: nat)
    requires |cells| > 0 && KingSteps(cells)
    ensures var r := Drawn(cells, cur, minLen);
            |r| > 0 && (r[|r| - 1] == cells[|cells| - 1] <==> Stays(cells, cur, minLen))
  {
    var last := cells[|cells| - 1];
    if last != cur {
      if |cells| > minLen && |cells| > 1 && cells[|cells| - 2] == cur {
      } else if |cells| < MAX_PATH_CELLS {
        DrawnNears(cells + [Toward(last, cur)], cur, minLen);
      }
    }
  }

  /** A stored route has at least its start cells. */
  lemma InvReady(w: World, st: StrokeState)
    requires DrawOk(w) && Inv(w, st)
    ensures forall id :: id in st.paths ==> |st.paths[id].cells| > 0
    ensures Ready(st)
  {
    forall id | id in st.paths ensures |st.paths[id].cells| > 0 {
      assert EntryOk(w, id, Some(st.paths[id]));
      assert PlaneFits(w, id);
    }
  }

  lemma BeginKeeps(w: World, st: StrokeState, id: nat)
    requires DrawOk(w) && Inv(w, st) && id < |w.planes|
    ensures (assert PlaneFits(w, id); Inv(w, Begin(w, st, id)))
  {
    assert PlaneFits(w, id);
  }

  lemma ExtendKeeps(w: World, st: StrokeState, id: nat)
    requires DrawOk(w) && Inv(w, st) && id < |w.planes| && id in st.paths
    ensures (assert PlaneFits(w, id); Inv(w, Extend(w, st, id)))
  {
    assert PlaneFits(w, id);
    assert EntryOk(w, id, Some(st.paths[id]));
  }

  lemma DragKeeps(w: World, st: StrokeState, cur: Cell)
    requires DrawOk(w) && Inv(w, st) && InGrid(w, cur)
    ensures Ready(st) && Inv(w, Drag(st, cur))
  {
    InvReady(w, st);
    if st.drawing.Some? && st.planning && st.drawing.value.id in st.paths {
      var d := st.drawing.value;
      assert PlaneFits(w, d.id);
      assert EntryOk(w, d.id, Some(st.paths[d.id]));
      DrawnOk(w, st.paths[d.id].cells, cur, StartCells(w, w.planes[d.id]));
    }
  }

  lemma SnappedOk(w: World, id: nat, path: PlanePath)
    requires DrawOk(w) && id < |w.planes| && Drawable(w, id, path) && |path.cells| > 0
    ensures var r := Snapped(path, Target(w, id)); Drawable(w, id, r) && Honest(w, id, r)
  {
    assert PlaneFits(w, id);
    var target := Target(w, id);
    var away := Chebyshev(path.cells[|path.cells| - 1], target);
    if 0 < away <= SNAP_ADJ {
      KingStepsAppend(path.cells, target);
    }
  }

  lemma FinishKeeps(w: World, st: StrokeState)
    requires DrawOk(w) && Inv(w, st)
    ensures Inv(w, Finish(w, st))
  {
    if st.drawing.Some? && st.drawing.value.id in st.paths {
      var d := st.drawing.value;
      InvReady(w, st);
      assert EntryOk(w, d.id, Some(st.paths[d.id]));
      SnappedOk(w, d.id, st.paths[d.id]);
    }
  }

  lemma UndoKeeps(w: World, st: StrokeState)
    requires DrawOk(w) && Inv(w, st)
    ensures Inv(w, UndoOf(st))
  {
  }

  /** A route snaps to its target exactly when it ends on it or on one of the eight cells around. */
  lemma SnappedIs(path: PlanePath, target: Cell)
    requires |path.cells| > 0
    ensures var last := path.cells[|path.cells| - 1];
            var near := -1 <= last.x - target.x <= 1 && -1 <= last.y - target.y <= 1;
            && (Snapped(path, target).complete <==> near)
            && Snapped(path, target).cells == if near && last != target then path.cells + [target] else path.cells
  {
  }

  /** Taking back a stroke just recorded puts the route from before it back, and nothing else changes. */
  lemma UndoTakesBack(w: World, st: StrokeState)
    requires DrawOk(w) && Inv(w, st) && st.planning && st.drawing.Some?
    requires st.drawing.value.moved && st.drawing.value.id in st.paths
    ensures var back := UndoOf(Finish(w, st));
            && back.undo == st.undo && back.drawing.None? && back.planning
            && PathOf(back, st.drawing.value.id) == st.drawing.value.prev
            && forall k :: k != st.drawing.value.id ==> PathOf(back, k) == PathOf(st, k)
  {
    var next := Finish(w, st);
    assert next.undo[..|next.undo| - 1] == st.undo;
  }

  /** Going on with a route and letting go at once counts as a stroke: it is recorded, and one
      undo makes everything as it was. */
  lemma ExtendAndLift(w: World, st: StrokeState, id: nat)
    requires DrawOk(w) && Inv(w, st) && st.planning && id < |w.planes| && id in st.paths
    ensures (assert PlaneFits(w, id); Inv(w, Extend(w, st, id)))
    ensures (assert PlaneFits(w, id); OnlyRecords(w, st, Extend(w, st, id)))
  {
    assert PlaneFits(w, id);
    ExtendKeeps(w, st, id);
    var drawn := Extend(w, st, id);
    UndoTakesBack(w, drawn);
    SamePaths(UndoOf(Finish(w, drawn)), st);
  }

  /** Lifting the finger in `drawn` records one stroke, and an undo then leads to `st` again. */
  ghost predicate OnlyRecords(w: World, st: StrokeState, drawn: StrokeState)
    requires DrawOk(w) && Inv(w, drawn)
  {
    |Finish(w, drawn).undo| == |st.undo| + 1 && UndoOf(Finish(w, drawn)) == st.(drawing := None)
  }

  lemma SamePaths(a: StrokeState, b: StrokeState)
    requires forall k :: PathOf(a, k) == PathOf(b, k)
    ensures a.paths == b.paths
  {
    forall k ensures k in a.paths <==> k in b.paths {
      assert PathOf(a, k) == PathOf(b, k);
    }
    forall k | k in a.paths ensures a.paths[k] == b.paths[k] {
      assert PathOf(a, k) == PathOf(b, k);
    }
  }

  // ---------- any sequence of events ----------

  datatype Event = Press(id: nat) | PressEnd(id: nat) | Move(cur: Cell) | Lift | Undo | Lock

  /** An event the program can produce in this state: pressing on a plane, on the end of an incomplete
      route, moving to a cell of the grid. */
  ghost predicate Possible(w: World, st: StrokeState, e: Event) {
    match e
    case Press(id) => st.planning && id < |w.planes|
    case PressEnd(id) => st.planning && id < |w.planes| && id in st.paths && !st.paths[id].complete
    case Move(cur) => InGrid(w, cur)
    case _ => true
  }

  ghost function Apply(w: World, st: StrokeState, e: Event): StrokeState
    requires DrawOk(w) && Inv(w, st) && Possible(w, st, e)
  {
    match e
    case Press(id) => assert PlaneFits(w, id); Begin(w, st, id)
    case PressEnd(id) => assert PlaneFits(w, id); Extend(w, st, id)
    case Move(cur) => InvReady(w, st); Drag(st, cur)
    case Lift => if st.planning then Finish(w, st) else st
    case Undo => UndoOf(st)
    case Lock => Commit(st)
  }

  lemma ApplyKeeps(w: World, st: StrokeState, e: Event)
    requires DrawOk(w) && Inv(w, st) && Possible(w, st, e)
    ensures Inv(w, Apply(w, st, e))
  {
    match e
    case Press(id) => BeginKeeps(w, st, id);
    case PressEnd(id) => ExtendKeeps(w, st, id);
    case Move(cur) => DragKeeps(w, st, cur);
    case Lift => FinishKeeps(w, st);
    case Undo => UndoKeeps(w, st);
    case Lock =>
  }

  const FRESH := StrokeState(true, map[], [], None)

  /** The states a sequence of events leads through, from the fresh board on. */
  ghost predicate IsTrace(w: World, states: seq<StrokeState>, events: seq<Event>)
    requires DrawOk(w)
  {
    && |states| == |events| + 1 && states[0] == FRESH
    && forall i: nat :: i < |events| ==> EventAt(w, states, events, i)
  }

  ghost predicate EventAt(w: World, states: seq<StrokeState>, events: seq<Event>, i: nat)
    requires DrawOk(w) && i < |events| && |states| == |events| + 1
  {
    && Possible(w, states[i], events[i])
    && (Inv(w, states[i]) ==> states[i + 1] == Apply(w, states[i], events[i]))
  }

  /** Under any sequence of events, undos at any moment included, every stored route is drawable. */
  lemma {:induction false} RoutesStayDrawable(w: World, states: seq<StrokeState>, events: seq<Event>, n: nat)
    requires DrawOk(w) && IsTrace(w, states, events) && n < |states|
    ensures Inv(w, states[n])
  {
    if n > 0 {
      RoutesStayDrawable(w, states, events, n - 1);
      assert EventAt(w, states, events, n - 1);
      ApplyKeeps(w, states[n - 1], events[n - 1]);
    }
  }

  // ---------- when a stored route stops being honest ----------

  /** A stroke is in progress on a route that is complete. */
  predicate OnComplete(st: StrokeState) {
    st.planning && st.drawing.Some? && st.drawing.value.id in st.paths && st.paths[st.drawing.value.id].complete
  }

  /** The finger draws a complete route off its end. */
  predicate Loses(st: StrokeState, e: Event)
    requires Ready(st)
  {
    e.Move? && OnComplete(st) && !Stays(st.paths[st.drawing.value.id].cells, e.cur, st.drawing.value.minLen)
  }

  lemma OneRouteChanged(w: World, st: StrokeState, next: StrokeState, id: nat, path: PlanePath)
    requires DrawOk(w) && Inv(w, st) && RoutesOk(w, st) && Inv(w, next) && id < |w.planes|
    requires next.paths == st.paths[id := path]
    ensures RoutesOk(w, next) <==> Honest(w, id, path)
  {
    assert id in next.paths && next.paths[id] == path;
    forall k | k in next.paths && k != id ensures EntryOk(w, k, Some(next.paths[k])) && Honest(w, k, next.paths[k]) {
      assert k in st.paths && next.paths[k] == st.paths[k];
    }
    assert EntryOk(w, id, Some(next.paths[id]));
  }

  /** Of all moves, only one that draws a complete route off its end makes a stored route dishonest. */
  lemma MoveExact(w: World, st: StrokeState, cur: Cell)
    requires DrawOk(w) && Inv(w, st) && RoutesOk(w, st) && PastOk(w, st) && InGrid(w, cur)
    ensures Ready(st) && Inv(w, Drag(st, cur)) && PastOk(w, Drag(st, cur))
    ensures RoutesOk(w, Drag(st, cur)) <==> !Loses(st, Move(cur))
  {
    DragKeeps(w, st, cur);
    if st.drawing.Some? && st.planning && st.drawing.value.id in st.paths {
      var d := st.drawing.value;
      var path := st.paths[d.id];
      assert EntryOk(w, d.id, Some(path)) && Honest(w, d.id, path);
      DrawnStaysIff(w, path.cells, cur, d.minLen);
      OneRouteChanged(w, st, Drag(st, cur), d.id, path.(cells := Drawn(path.cells, cur, d.minLen)));
    }
  }

  lemma LiftHonest(w: World, st: StrokeState)
    requires DrawOk(w) && Inv(w, st) && RoutesOk(w, st) && PastOk(w, st)
    ensures Inv(w, Finish(w, st)) && RoutesOk(w, Finish(w, st)) && PastOk(w, Finish(w, st))
  {
    FinishKeeps(w, st);
    LiftPast(w, st);
    if st.drawing.Some? && st.drawing.value.id in st.paths && st.drawing.value.moved {
      var d := st.drawing.value;
      InvReady(w, st);
      assert EntryOk(w, d.id, Some(st.paths[d.id]));
      SnappedOk(w, d.id, st.paths[d.id]);
      OneRouteChanged(w, st, Finish(w, st), d.id, Snapped(st.paths[d.id], Target(w, d.id)));
    }
  }

  lemma LiftPast(w: World, st: StrokeState)
    requires DrawOk(w) && Inv(w, st) && PastOk(w, st) && Inv(w, Finish(w, st))
    ensures PastOk(w, Finish(w, st))
  {
    if st.drawing.Some? {
      assert EntryHonest(w, st.drawing.value.id, st.drawing.value.prev);
    }
  }

  lemma UndoHonest(w: World, st: StrokeState)
    requires DrawOk(w) && Inv(w, st) && RoutesOk(w, st) && PastOk(w, st)
    ensures Inv(w, UndoOf(st)) && RoutesOk(w, UndoOf(st)) && PastOk(w, UndoOf(st))
  {
    UndoKeeps(w, st);
    var next := UndoOf(st);
    if st.planning && |st.undo| > 0 {
      var u := st.undo[|st.undo| - 1];
      assert EntryOk(w, u.id, u.prev) && EntryHonest(w, u.id, u.prev);
    }
  }

  lemma PressHonest(w: World, st: StrokeState, e: Event)
    requires DrawOk(w) && Inv(w, st) && RoutesOk(w, st) && PastOk(w, st) && Possible(w, st, e)
    requires e.Press? || e.PressEnd? || e.Lock?
    ensures var next := Apply(w, st, e); Inv(w, next) && RoutesOk(w, next) && PastOk(w, next)
  {
    ApplyKeeps(w, st, e);
    if !e.Lock? { assert PlaneFits(w, e.id); }
  }

  lemma StepExact(w: World, st: StrokeState, e: Event)
    requires DrawOk(w) && Inv(w, st) && RoutesOk(w, st) && PastOk(w, st) && Possible(w, st, e)
    ensures Ready(st) && Inv(w, Apply(w, st, e)) && PastOk(w, Apply(w, st, e))
    ensures RoutesOk(w, Apply(w, st, e)) <==> !Loses(st, e)
  {
    InvReady(w, st);
    match e
    case Press(id) => PressHonest(w, st, e);
    case PressEnd(id) => PressHonest(w, st, e);
    case Move(cur) => MoveExact(w, st, cur);
    case Lift => LiftHonest(w, st);
    case Undo => UndoHonest(w, st);
    case Lock => PressHonest(w, st, e);
  }

  /** An undo gives the stroke in progress a complete route to draw on. */
  predicate HandsOver(st: StrokeState, id: nat) {
    && st.planning && st.drawing.Some? && st.drawing.value.id == id
    && |st.undo| > 0 && st.undo[|st.undo| - 1].id == id
    && st.undo[|st.undo| - 1].prev.Some? && st.undo[|st.undo| - 1].prev.value.complete
  }

  /** The event is a move, or an undo that is not of plane `id`: it neither ends the stroke on that plane
      nor puts another route under it. */
  predicate SameStroke(st: StrokeState, e: Event, id: nat) {
    e.Move? || (e.Undo? && (|st.undo| == 0 || st.undo[|st.undo| - 1].id != id))
  }

  /** When an undo has given the stroke a complete route, the next move leaves every stored route well
      formed exactly when the route still ends on its target. */
  lemma MoveAfterUndo(w: World, st: StrokeState, id: nat, cur: Cell)
    requires DrawOk(w) && Inv(w, st) && RoutesOk(w, st) && PastOk(w, st) && HandsOver(st, id) && InGrid(w, cur)
    ensures Ready(UndoOf(st)) && Inv(w, Drag(UndoOf(st), cur)) && id < |w.planes|
    ensures var cells := st.undo[|st.undo| - 1].prev.value.cells;
            && |cells| > 0
            && var drawn := Drawn(cells, cur, st.drawing.value.minLen);
            && |drawn| > 0 && (RoutesOk(w, Drag(UndoOf(st), cur)) <==> drawn[|drawn| - 1] == Target(w, id))
  {
    var u := st.undo[|st.undo| - 1];
    var cells := u.prev.value.cells;
    assert EntryOk(w, u.id, u.prev) && EntryHonest(w, u.id, u.prev);
    UndoHonest(w, st);
    var next := UndoOf(st);
    assert next.paths[id] == u.prev.value && next.drawing == st.drawing;
    MoveExact(w, next, cur);
    assert cells[|cells| - 1] == Target(w, id);
    DrawnStaysIff(w, cells, cur, st.drawing.value.minLen);
    assert Loses(next, Move(cur)) <==> !Stays(cells, cur, st.drawing.value.minLen);
  }

  /** When an undo has taken the stroke's route away, moving stores nothing; lifting a finger that has not
      moved stores the route from before the press, and no other changes; lifting one that has moved only
      ends the stroke.  No stored route becomes ill-formed. */
  lemma LiftWithoutRoute(w: World, st: StrokeState, cur: Cell)
    requires DrawOk(w) && Inv(w, st) && RoutesOk(w, st) && PastOk(w, st) && InGrid(w, cur)
    requires st.drawing.Some? && st.drawing.value.id !in st.paths
    ensures Drag(st, cur) == st
    ensures var d, next := st.drawing.value, Finish(w, st);
            && Inv(w, next) && RoutesOk(w, next) && PastOk(w, next)
            && next.drawing.None? && next.undo == st.undo
            && PathOf(next, d.id) == (if d.moved then None else d.prev)
            && forall k :: k != d.id ==> PathOf(next, k) == PathOf(st, k)
  {
    LiftHonest(w, st);
  }

  /** From event `j` on there are only moves and undos. */
  ghost predicate OnlyDrawn(events: seq<Event>, j: nat, i: nat)
    requires i <= |events|
  {
    forall k: nat :: j < k < i ==> events[k].Move? || events[k].Undo?
  }

  lemma {:induction false} StrokeRemembers(w: World, states: seq<StrokeState>, events: seq<Event>, j: nat, i: nat)
    requires DrawOk(w) && IsTrace(w, states, events) && j < i <= |events|
    requires events[j].Press? && OnlyDrawn(events, j, i)
    ensures states[i].planning && states[i].drawing.Some?
    ensures states[i].drawing.value.id == events[j].id
    ensures states[i].drawing.value.prev == PathOf(states[j], events[j].id)
  {
    var last := i - 1;
    RoutesStayDrawable(w, states, events, last);
    assert EventAt(w, states, events, last);
    if j < last {
      StrokeRemembers(w, states, events, j, last);
      InvReady(w, states[last]);
    }
  }

  /** A plane is pressed, and the finger is lifted without having drawn: its route is the one from before
      the press, whatever undos came in between. */
  lemma UnmovedStrokeRestores(w: World, states: seq<StrokeState>, events: seq<Event>, j: nat, i: nat)
    requires DrawOk(w) && IsTrace(w, states, events) && j < i < |events|
    requires events[j].Press? && OnlyDrawn(events, j, i) && events[i].Lift?
    requires states[i].drawing.Some? ==> !states[i].drawing.value.moved
    ensures PathOf(states[i + 1], events[j].id) == PathOf(states[j], events[j].id)
  {
    StrokeRemembers(w, states, events, j, i);
    RoutesStayDrawable(w, states, events, i);
    assert EventAt(w, states, events, i);
  }

  ghost predicate SameStrokeUntil(states: seq<StrokeState>, events: seq<Event>, j: nat, i: nat, id: nat)
    requires i <= |events| && |states| == |events| + 1
  {
    forall k: nat :: j < k < i ==> SameStroke(states[k], events[k], id)
  }

  lemma SameStrokeLonger(states: seq<StrokeState>, events: seq<Event>, j: nat, i: nat, id: nat)
    requires i < |events| && |states| == |events| + 1
    requires SameStrokeUntil(states, events, j, i, id) && SameStroke(states[i], events[i], id)
    ensures SameStrokeUntil(states, events, j, i + 1, id)
  {
  }

  /** Event `j` is an undo that hands a complete route to the stroke in progress, the stroke goes on up to
      event `i`, and that is a move of it that leaves the end of the route. */
  ghost predicate GivenAndLost(states: seq<StrokeState>, events: seq<Event>, j: nat, i: nat)
    requires j < i < |events| && |states| == |events| + 1
  {
    && events[j].Undo? && states[j].drawing.Some?
    && var id := states[j].drawing.value.id;
    && HandsOver(states[j], id)
    && SameStrokeUntil(states, events, j, i, id)
    && events[i].Move? && id in states[i].paths && |states[i].paths[id].cells| > 0
    && !Stays(states[i].paths[id].cells, events[i].cur, states[j].drawing.value.minLen)
  }

  /** Going on with a stroke keeps it on its complete route. */
  lemma CompleteAfter(w: World, st: StrokeState, e: Event)
    requires DrawOk(w) && Inv(w, st) && Possible(w, st, e) && st.drawing.Some?
    requires if e.Undo? then
               HandsOver(st, st.drawing.value.id) || (OnComplete(st) && SameStroke(st, e, st.drawing.value.id))
             else OnComplete(st) && e.Move?
    ensures var next := Apply(w, st, e);
            && OnComplete(next) && next.drawing.value.id == st.drawing.value.id
            && next.drawing.value.minLen == st.drawing.value.minLen
  {
    InvReady(w, st);
  }

  /** After the undo the stroke is on a complete route as long as it goes on. */
  lemma {:induction false} GivenStays(w: World, states: seq<StrokeState>, events: seq<Event>, j: nat, i: nat)
    requires DrawOk(w) && IsTrace(w, states, events) && j < i <= |events|
    requires events[j].Undo? && states[j].drawing.Some? && HandsOver(states[j], states[j].drawing.value.id)
    requires SameStrokeUntil(states, events, j, i, states[j].drawing.value.id)
    ensures OnComplete(states[i]) && states[i].drawing.value.id == states[j].drawing.value.id
    ensures states[i].drawing.value.minLen == states[j].drawing.value.minLen
  {
    var last := i - 1;
    RoutesStayDrawable(w, states, events, last);
    assert EventAt(w, states, events, last);
    if j < last {
      GivenStays(w, states, events, j, last);
      assert SameStroke(states[last], events[last], states[j].drawing.value.id);
    }
    CompleteAfter(w, states[last], events[last]);
  }

  /** A stroke on a complete route was on it before the event, or got it from it. */
  lemma CompleteBefore(w: World, st: StrokeState, e: Event)
    requires DrawOk(w) && Inv(w, st) && Possible(w, st, e) && OnComplete(Apply(w, st, e))
    ensures var id := Apply(w, st, e).drawing.value.id;
            || (e.Undo? && HandsOver(st, id))
            || (OnComplete(st) && st.drawing.value.id == id && SameStroke(st, e, id))
  {
    InvReady(w, st);
    match e
    case Press(id) =>
    case PressEnd(id) =>
    case Move(cur) => assert Apply(w, st, e) == Drag(st, cur);
    case Lift =>
    case Undo => assert Apply(w, st, e) == UndoOf(st);
    case Lock =>
  }

  /** A stroke on a complete route has got it from an undo. */
  lemma {:induction false} CompleteWasGiven(w: World, states: seq<StrokeState>, events: seq<Event>, i: nat)
    returns (j: nat)
    requires DrawOk(w) && IsTrace(w, states, events) && i <= |events| && OnComplete(states[i])
    ensures j < i && events[j].Undo? && HandsOver(states[j], states[i].drawing.value.id)
    ensures SameStrokeUntil(states, events, j, i, states[i].drawing.value.id)
  {
    var last := i - 1;
    RoutesStayDrawable(w, states, events, last);
    assert EventAt(w, states, events, last);
    CompleteBefore(w, states[last], events[last]);
    if events[last].Undo? && HandsOver(states[last], states[i].drawing.value.id) {
      j := last;
    } else {
      j := CompleteWasGiven(w, states, events, last);
      SameStrokeLonger(states, events, j, last, states[i].drawing.value.id);
    }
  }

  ghost predicate AllRoutesOk(w: World, states: seq<StrokeState>, n: nat)
    requires DrawOk(w) && n < |states|
  {
    forall i: nat :: i <= n ==> Inv(w, states[i]) && RoutesOk(w, states[i])
  }

  lemma {:induction false} PastStaysOk(w: World, states: seq<StrokeState>, events: seq<Event>, n: nat)
    requires DrawOk(w) && IsTrace(w, states, events) && n < |states| && AllRoutesOk(w, states, n)
    ensures PastOk(w, states[n])
  {
    if n > 0 {
      PastStaysOk(w, states, events, n - 1);
      assert EventAt(w, states, events, n - 1);
      StepExact(w, states[n - 1], events[n - 1]);
    }
  }

  /** A complete route is drawn off its end only by a stroke that an undo has given it to. */
  lemma LostWasGiven(w: World, states: seq<StrokeState>, events: seq<Event>, i: nat) returns (j: nat)
    requires DrawOk(w) && IsTrace(w, states, events) && i < |events|
    requires Ready(states[i]) && Loses(states[i], events[i])
    ensures j < i && GivenAndLost(states, events, j, i)
  {
    j := CompleteWasGiven(w, states, events, i);
    GivenStays(w, states, events, j, i);
  }

  lemma NextRoutesOk(w: World, states: seq<StrokeState>, events: seq<Event>, i: nat)
    requires DrawOk(w) && IsTrace(w, states, events) && i < |events| && AllRoutesOk(w, states, i)
    ensures Ready(states[i]) && Inv(w, states[i + 1])
    ensures RoutesOk(w, states[i + 1]) <==> !Loses(states[i], events[i])
  {
    PastStaysOk(w, states, events, i);
    assert EventAt(w, states, events, i);
    StepExact(w, states[i], events[i]);
  }

  /** As long as no undo has handed a complete route to a stroke that then drew it off its end, every
      stored route is well formed. */
  lemma {:induction false} RoutesStayWellFormed(w: World, states: seq<StrokeState>, events: seq<Event>, n: nat)
    requires DrawOk(w) && IsTrace(w, states, events) && n < |states|
    requires forall j: nat, i: nat :: j < i < n ==> !GivenAndLost(states, events, j, i)
    ensures AllRoutesOk(w, states, n)
  {
    if n == 0 {
      RoutesStayDrawable(w, states, events, 0);
    } else {
      var last := n - 1;
      RoutesStayWellFormed(w, states, events, last);
      NextRoutesOk(w, states, events, last);
      if Loses(states[last], events[last]) {
        var j := LostWasGiven(w, states, events, last);
      }
    }
  }

  /** Up to any moment of any trace, every stored route has always been well formed exactly when that has
      not happened. */
  lemma RoutesBreakIff(w: World, states: seq<StrokeState>, events: seq<Event>, n: nat)
    requires DrawOk(w) && IsTrace(w, states, events) && n < |states|
    ensures AllRoutesOk(w, states, n) <==> forall j: nat, i: nat :: j < i < n ==> !GivenAndLost(states, events, j, i)
  {
    if AllRoutesOk(w, states, n) {
      forall j: nat, i: nat | j < i < n ensures !GivenAndLost(states, events, j, i) {
        if GivenAndLost(states, events, j, i) {
          LosingBreaks(w, states, events, j, i);
        }
      }
    } else if forall j: nat, i: nat :: j < i < n ==> !GivenAndLost(states, events, j, i) {
      RoutesStayWellFormed(w, states, events, n);
    }
  }

  lemma LosingBreaks(w: World, states: seq<StrokeState>, events: seq<Event>, j: nat, i: nat)
    requires DrawOk(w) && IsTrace(w, states, events) && j < i < |events| && GivenAndLost(states, events, j, i)
    ensures !AllRoutesOk(w, states, i + 1)
  {
    if AllRoutesOk(w, states, i) {
      GivenStays(w, states, events, j, i);
      NextRoutesOk(w, states, events, i);
    }
  }

  // ---------- an undo in the middle of a stroke ----------

  lemma OneMoreEvent(w: World, states: seq<StrokeState>, events: seq<Event>, e: Event, next: StrokeState)
    requires DrawOk(w) && IsTrace(w, states, events)
    requires Inv(w, states[|events|]) && Possible(w, states[|events|], e) && Apply(w, states[|events|], e) == next
    ensures IsTrace(w, states + [next], events + [e])
  {
    forall i: nat | i < |events| + 1 ensures EventAt(w, states + [next], events + [e], i) {
      if i < |events| { assert EventAt(w, states, events, i); }
    }
  }

  /** Drawing takes at most one cell for each cell of the distance. */
  lemma {:induction false} DrawnLength(cells: seq<Cell>, cur: Cell, minLen: nat)
    requires |cells| > 0
    ensures |Drawn(cells, cur, minLen)| <= |cells| + Chebyshev(cells[|cells| - 1], cur)
    decreases Chebyshev(cells[|cells| - 1], cur)
  {
    var last := cells[|cells| - 1];
    if last != cur && !(|cells| > minLen && |cells| > 1 && cells[|cells| - 2] == cur) && |cells| < MAX_PATH_CELLS {
      DrawnLength(cells + [Toward(last, cur)], cur, minLen);
    }
  }

  ghost function StartOf(w: World, id: nat): seq<Cell>
    requires DrawOk(w) && id < |w.planes|
  {
    assert PlaneFits(w, id);
    StartCells(w, w.planes[id])
  }

  /** The plane's target is not where its routes start, and near enough to draw a route to it. */
  ghost predicate HasWay(w: World, id: nat)
    requires DrawOk(w) && id < |w.planes|
  {
    var start := StartOf(w, id);
    && |start| > 0 && start[|start| - 1] != Target(w, id)
    && |start| + Chebyshev(start[|start| - 1], Target(w, id)) < MAX_PATH_CELLS
  }

  /** On grids of the size this is drawn on, only a target where the routes start is in the way of it. */
  lemma ShortStartHasWay(w: World, id: nat)
    requires DrawOk(w) && id < |w.planes| && |StartOf(w, id)| + DRAW_STEP_GUARD <= MAX_PATH_CELLS
    ensures |StartOf(w, id)| > 0
    ensures HasWay(w, id) <==> StartOf(w, id)[|StartOf(w, id)| - 1] != Target(w, id)
  {
    assert PlaneFits(w, id);
    var start := StartOf(w, id);
    assert InGrid(w, start[|start| - 1]) && InGrid(w, Target(w, id));
  }

  /** The route drawn in one move from the start to the target. */
  ghost function Straight(w: World, id: nat): seq<Cell>
    requires DrawOk(w) && id < |w.planes| && HasWay(w, id)
  {
    Drawn(StartOf(w, id), Target(w, id), |StartOf(w, id)|)
  }

  lemma StraightReaches(w: World, id: nat)
    requires DrawOk(w) && id < |w.planes| && HasWay(w, id)
    ensures 0 < |Straight(w, id)| < MAX_PATH_CELLS && Straight(w, id)[|Straight(w, id)| - 1] == Target(w, id)
    ensures Straight(w, id) != StartOf(w, id)
  {
    DrawnReaches(StartOf(w, id), Target(w, id), |StartOf(w, id)|);
    DrawnLength(StartOf(w, id), Target(w, id), |StartOf(w, id)|);
  }

  /** The plane's route, before it is drawn on, and when it is complete. */
  ghost function Stored(w: World, id: nat, before: Option<PlanePath>, undo: seq<UndoEntry>): StrokeState {
    StrokeState(true, Restore(map[], id, before), undo, None)
  }

  ghost function Pressed(w: World, id: nat, before: Option<PlanePath>, undo: seq<UndoEntry>): StrokeState
    requires DrawOk(w) && id < |w.planes|
  {
    var start := StartOf(w, id);
    StrokeState(true, map[id := PlanePath(start, false)], undo, Some(Drawing(id, before, false, |start|)))
  }

  ghost function Arrived(w: World, id: nat, before: Option<PlanePath>, undo: seq<UndoEntry>): StrokeState
    requires DrawOk(w) && id < |w.planes| && HasWay(w, id)
  {
    StrokeState(true, map[id := PlanePath(Straight(w, id), false)], undo,
                Some(Drawing(id, before, true, |StartOf(w, id)|)))
  }

  lemma PressIs(w: World, id: nat, before: Option<PlanePath>, undo: seq<UndoEntry>)
    requires DrawOk(w) && id < |w.planes| && Inv(w, Stored(w, id, before, undo))
    ensures Apply(w, Stored(w, id, before, undo), Press(id)) == Pressed(w, id, before, undo)
  {
    var start := StartOf(w, id);
    assert Stored(w, id, before, undo).paths[id := PlanePath(start, false)] == map[id := PlanePath(start, false)];
  }

  lemma MoveIs(w: World, id: nat, before: Option<PlanePath>, undo: seq<UndoEntry>)
    requires DrawOk(w) && id < |w.planes| && HasWay(w, id) && Inv(w, Pressed(w, id, before, undo))
    ensures Possible(w, Pressed(w, id, before, undo), Move(Target(w, id)))
    ensures Apply(w, Pressed(w, id, before, undo), Move(Target(w, id))) == Arrived(w, id, before, undo)
  {
    StraightReaches(w, id);
    var cells, d := Straight(w, id), Pressed(w, id, before, undo).drawing.value;
    assert PlaneFits(w, id);
    assert Drawn(StartOf(w, id), Target(w, id), d.minLen) == cells;
    assert Pressed(w, id, before, undo).paths[id := PlanePath(cells, false)] == map[id := PlanePath(cells, false)];
  }

  lemma LiftIs(w: World, id: nat, before: Option<PlanePath>, undo: seq<UndoEntry>)
    requires DrawOk(w) && id < |w.planes| && HasWay(w, id) && Inv(w, Arrived(w, id, before, undo))
    ensures Apply(w, Arrived(w, id, before, undo), Lift) ==
              Stored(w, id, Some(PlanePath(Straight(w, id), true)), undo + [UndoEntry(id, before)])
  {
    StraightReaches(w, id);
    var whole := PlanePath(Straight(w, id), true);
    assert PlaneFits(w, id);
    assert Snapped(PlanePath(Straight(w, id), false), Target(w, id)) == whole;
    assert map[id := PlanePath(Straight(w, id), false)][id := whole] == map[id := whole];
  }

  lemma OneMore(w: World, states: seq<StrokeState>, events: seq<Event>, e: Event, next: StrokeState)
    returns (more: seq<StrokeState>, all: seq<Event>)
    requires DrawOk(w) && IsTrace(w, states, events)
    requires Inv(w, states[|events|]) ==>
               Possible(w, states[|events|], e) && Apply(w, states[|events|], e) == next
    ensures IsTrace(w, more, all) && all == events + [e] && more[|all|] == next && Inv(w, next)
  {
    RoutesStayDrawable(w, states, events, |events|);
    OneMoreEvent(w, states, events, e, next);
    more, all := states + [next], events + [e];
    RoutesStayDrawable(w, more, all, |all|);
  }

  /** Pressing the plane, moving to its target and lifting the finger stores its whole route. */
  lemma DrawWhole(w: World, states: seq<StrokeState>, events: seq<Event>, id: nat, before: Option<PlanePath>)
    returns (more: seq<StrokeState>, all: seq<Event>)
    requires DrawOk(w) && IsTrace(w, states, events) && id < |w.planes| && HasWay(w, id)
    requires states[|events|] == Stored(w, id, before, states[|events|].undo)
    ensures IsTrace(w, more, all) && all == events + [Press(id), Move(Target(w, id)), Lift]
    ensures more[|all|] ==
              Stored(w, id, Some(PlanePath(Straight(w, id), true)), states[|events|].undo + [UndoEntry(id, before)])
  {
    var undo := states[|events|].undo;
    RoutesStayDrawable(w, states, events, |events|);
    PressIs(w, id, before, undo);
    more, all := OneMore(w, states, events, Press(id), Pressed(w, id, before, undo));
    MoveIs(w, id, before, undo);
    more, all := OneMore(w, more, all, Move(Target(w, id)), Arrived(w, id, before, undo));
    LiftIs(w, id, before, undo);
    more, all := OneMore(w, more, all, Lift,
                         Stored(w, id, Some(PlanePath(Straight(w, id), true)), undo + [UndoEntry(id, before)]));
  }

  /** The plane is pressed a third time, and the second stroke is taken back meanwhile. */
  ghost function Undone(w: World, id: nat, whole: PlanePath): StrokeState
    requires DrawOk(w) && id < |w.planes|
  {
    StrokeState(true, map[id := whole], [UndoEntry(id, None)], Some(Drawing(id, Some(whole), false, |StartOf(w, id)|)))
  }

  lemma UndoIs(w: World, id: nat, whole: PlanePath)
    requires DrawOk(w) && id < |w.planes|
    requires Inv(w, Pressed(w, id, Some(whole), [UndoEntry(id, None), UndoEntry(id, Some(whole))]))
    ensures Apply(w, Pressed(w, id, Some(whole), [UndoEntry(id, None), UndoEntry(id, Some(whole))]), Undo) ==
              Undone(w, id, whole)
  {
    var st := Pressed(w, id, Some(whole), [UndoEntry(id, None), UndoEntry(id, Some(whole))]);
    assert st.undo[..1] == [UndoEntry(id, None)];
    assert st.paths[id := whole] == map[id := whole];
  }

  /** Moving the finger off the end of the complete route then leaves it complete and off its target. */
  lemma MoveOff(w: World, id: nat, whole: PlanePath, off: Cell)
    requires DrawOk(w) && id < |w.planes| && Inv(w, Undone(w, id, whole)) && InGrid(w, off)
    requires whole.complete && 0 < |whole.cells| < MAX_PATH_CELLS
    requires whole.cells[|whole.cells| - 1] == Target(w, id) && off != Target(w, id)
    ensures var next := Apply(w, Undone(w, id, whole), Move(off));
            && next.planning && id in next.paths && next.paths[id].complete && !Honest(w, id, next.paths[id])
  {
    var st := Undone(w, id, whole);
    InvReady(w, st);
    assert EntryOk(w, id, Some(st.paths[id]));
    DrawnStaysIff(w, whole.cells, off, st.drawing.value.minLen);
    assert Apply(w, st, Move(off)) == Drag(st, off);
  }

  /** In every world, for every plane whose target is not where its routes start: drawing its route twice,
      pressing it again, undoing, and moving the finger anywhere else leaves a route that claims to be
      complete and does not end on its target; locking the plan submits it. */
  lemma UndoDuringStrokeBreaksRoutes(w: World, id: nat, off: Cell)
    returns (states: seq<StrokeState>, events: seq<Event>)
    requires DrawOk(w) && id < |w.planes| && HasWay(w, id) && InGrid(w, off) && off != Target(w, id)
    ensures IsTrace(w, states, events)
    ensures var at := Target(w, id);
            events == [Press(id), Move(at), Lift, Press(id), Move(at), Lift, Press(id), Undo, Move(off), Lock]
    ensures var last := states[|events|];
            !last.planning && id in last.paths && last.paths[id].complete && !Honest(w, id, last.paths[id])
  {
    var whole := PlanePath(Straight(w, id), true);
    StraightReaches(w, id);
    states, events := DrawWhole(w, [FRESH], [], id, None);
    states, events := DrawWhole(w, states, events, id, Some(whole));
    states, events := PressUndo(w, states, events, id, whole);
    states, events := MoveLock(w, states, events, id, whole, off);
  }

  /** The plane is pressed again, and the second stroke undone. */
  lemma PressUndo(w: World, states: seq<StrokeState>, events: seq<Event>, id: nat, whole: PlanePath)
    returns (more: seq<StrokeState>, all: seq<Event>)
    requires DrawOk(w) && IsTrace(w, states, events) && id < |w.planes|
    requires states[|events|] ==
               Stored(w, id, Some(whole), [] + [UndoEntry(id, None)] + [UndoEntry(id, Some(whole))])
    ensures IsTrace(w, more, all) && all == events + [Press(id), Undo] && more[|all|] == Undone(w, id, whole)
  {
    var undo := [UndoEntry(id, None), UndoEntry(id, Some(whole))];
    assert [] + [UndoEntry(id, None)] + [UndoEntry(id, Some(whole))] == undo;
    RoutesStayDrawable(w, states, events, |events|);
    PressIs(w, id, Some(whole), undo);
    more, all := OneMore(w, states, events, Press(id), Pressed(w, id, Some(whole), undo));
    UndoIs(w, id, whole);
    more, all := OneMore(w, more, all, Undo, Undone(w, id, whole));
  }

  /** The finger is moved and the plan locked. */
  lemma MoveLock(w: World, states: seq<StrokeState>, events: seq<Event>, id: nat, whole: PlanePath, off: Cell)
    returns (more: seq<StrokeState>, all: seq<Event>)
    requires DrawOk(w) && IsTrace(w, states, events) && id < |w.planes| && InGrid(w, off) && off != Target(w, id)
    requires whole.complete && 0 < |whole.cells| < MAX_PATH_CELLS
    requires whole.cells[|whole.cells| - 1] == Target(w, id) && states[|events|] == Undone(w, id, whole)
    ensures IsTrace(w, more, all) && all == events + [Move(off), Lock]
    ensures var last := more[|all|];
            !last.planning && id in last.paths && last.paths[id].complete && !Honest(w, id, last.paths[id])
  {
    RoutesStayDrawable(w, states, events, |events|);
    MoveOff(w, id, whole, off);
    var lost := Apply(w, Undone(w, id, whole), Move(off));
    more, all := OneMore(w, states, events, Move(off), lost);
    more, all := OneMore(w, more, all, Lock, Commit(lost));
  }

  // ---------- the pointer handlers ----------

  datatype DrawOutcome = Break | Go(cells: seq<Cell>)

  predicate BlockedCell(w: World, c: Cell) {
    !InGrid(w, c)
  }

  /** A diagonal step past a blocked corner becomes a straight one along the longer distance. */
  function ResolveDiagonal(w: World, last: Cell, cur: Cell, dx: int, dy: int): Cell {
    if dx != 0 && dy != 0
       && (BlockedCell(w, Cell(last.x + dx, last.y)) || BlockedCell(w, Cell(last.x, last.y + dy))) then
      if Abs(cur.x - last.x) >= Abs(cur.y - last.y) then Cell(last.x + dx, last.y) else Cell(last.x, last.y + dy)
    else Cell(last.x + dx, last.y + dy)
  }

  function AltAround(w: World, last: Cell, dx: int, dy: int): Option<Cell> {
    if dx == 0 || dy == 0 then None
    else if !BlockedCell(w, Cell(last.x + dx, last.y)) then Some(Cell(last.x + dx, last.y))
    else if !BlockedCell(w, Cell(last.x, last.y + dy)) then Some(Cell(last.x, last.y + dy))
    else None
  }

  /** One turn of the drawing loop. */
  function StepDraw(w: World, cells: seq<Cell>, cur: Cell, minLen: nat): DrawOutcome
    requires |cells| > 0
  {
    var last := cells[|cells| - 1];
    if |cells| > minLen && |cells| > 1 && cur == cells[|cells| - 2] then Go(cells[..|cells| - 1])
    else
      var dx, dy := Sign(cur.x - last.x), Sign(cur.y - last.y);
      var next := ResolveDiagonal(w, last, cur, dx, dy);
      var alt := AltAround(w, last, dx, dy);
      if BlockedCell(w, next) && alt.None? then Break
      else if |cells| >= MAX_PATH_CELLS then Break
      else Go(cells + [if BlockedCell(w, next) then alt.value else next])
  }

  /** On the grid nothing is ever in the way: a turn goes one cell toward the finger, or stops at the cap. */
  lemma StepDrawIs(w: World, cells: seq<Cell>, cur: Cell, minLen: nat)
    requires |cells| > 0 && AllInGrid(w, cells) && InGrid(w, cur) && cells[|cells| - 1] != cur
    ensures var last := cells[|cells| - 1];
            StepDraw(w, cells, cur, minLen) ==
              if |cells| > minLen && |cells| > 1 && cells[|cells| - 2] == cur then Go(cells[..|cells| - 1])
              else if |cells| >= MAX_PATH_CELLS then Break
              else Go(cells + [Toward(last, cur)])
    ensures Chebyshev(Toward(cells[|cells| - 1], cur), cur) + 1 == Chebyshev(cells[|cells| - 1], cur)
    ensures InGrid(w, Toward(cells[|cells| - 1], cur))
  {
    assert InGrid(w, cells[|cells| - 1]);
  }

  /** The first plane, from place `k` on, whose home is under the finger. */
  function FirstHit(w: World, m: Metric, p: Vec, k: nat): (r: Option<nat>)
    requires k <= |w.planes|
    requires forall i :: 0 <= i < |w.planes| && w.planes[i].mission == Depart ==> w.planes[i].rwIdx < |w.runways|
    ensures r.Some? ==> r.value < |w.planes|
    decreases |w.planes| - k
  {
    if k == |w.planes| then None else
      var pl := w.planes[k];
      var home := Centre(if pl.mission == Depart then w.runways[pl.rwIdx].thr else pl.spawn);
      if m(home, p) < pl.radius + PLANE_TAP_PADDING then Some(k) else FirstHit(w, m, p, k + 1)
  }

  /** The first plane, from place `k` on, with an incomplete route that ends under the finger. */
  function FirstOpenEnd(w: World, m: Metric, paths: map<nat, PlanePath>, p: Vec, k: nat): (r: Option<nat>)
    requires k <= |w.planes|
    ensures r.Some? ==> r.value < |w.planes| && r.value in paths && !paths[r.value].complete
    decreases |w.planes| - k
  {
    if k == |w.planes| then None
    else if k in paths && !paths[k].complete && |paths[k].cells| > 1
            && m(Centre(paths[k].cells[|paths[k].cells| - 1]), p) < CELL * TAP_END_SNAP_RATIO then Some(k)
    else FirstOpenEnd(w, m, paths, p, k + 1)
  }

  function Clamp(v: real, lo: real, hi: real): real {
    if v < lo then lo else if v > hi then hi else v
  }

  /** The cell under the finger once it is held inside the edge of the grid. */
  function FingerCell(w: World, p: Vec): Cell {
    CellAt(Vec(Clamp(p.x, X0 + EDGE_INSET, X0 + w.cols as real * CELL - EDGE_INSET),
               Clamp(p.y, Y0 + EDGE_INSET, Y0 + w.rows as real * CELL - EDGE_INSET)))
  }

  /** That is the cell the finger is over, or the nearest one of the grid. */
  lemma FingerCellIs(w: World, p: Vec)
    requires w.cols > 0 && w.rows > 0
    ensures FingerCell(w, p).x == Held(((p.x - X0) / CELL).Floor, w.cols)
    ensures FingerCell(w, p).y == Held(((p.y - Y0) / CELL).Floor, w.rows)
  {
    HeldInside(p.x, X0, w.cols);
    HeldInside(p.y, Y0, w.rows);
  }

  /** The number of a column or row, or that of the first or last one. */
  function Held(i: int, n: nat): int {
    if i < 0 then 0 else if i >= n then n - 1 else i
  }

  lemma HeldInside(v: real, origin: real, n: nat)
    requires n > 0
    ensures ((Clamp(v, origin + EDGE_INSET, origin + n as real * CELL - EDGE_INSET) - origin) / CELL).Floor
         == Held(((v - origin) / CELL).Floor, n)
  {
    var t := (v - origin) / CELL;
    assert v - origin == t * CELL;
    if v < origin + EDGE_INSET {
      assert t < 1.0;
    } else if v > origin + n as real * CELL - EDGE_INSET {
      assert (n as real * CELL - EDGE_INSET) / CELL == n as real - EDGE_INSET / CELL;
      assert t > n as real - 1.0;
    } else {
      assert 0.0 <= t < n as real;
    }
  }

  function HomeOf(w: World, k: nat): Vec
    requires k < |w.planes| && (w.planes[k].mission == Depart ==> w.planes[k].rwIdx < |w.runways|)
  {
    Centre(if w.planes[k].mission == Depart then w.runways[w.planes[k].rwIdx].thr else w.planes[k].spawn)
  }

  /** The plane pressed is the first one, from place `k` on, whose home is nearer to the finger than its radius
      and the padding; none is when there is no such plane. */
  lemma {:induction false} FirstHitIs(w: World, m: Metric, p: Vec, k: nat)
    requires k <= |w.planes|
    requires forall i :: 0 <= i < |w.planes| && w.planes[i].mission == Depart ==> w.planes[i].rwIdx < |w.runways|
    ensures var r := FirstHit(w, m, p, k);
            var end := if r.Some? then r.value else |w.planes|;
            && k <= end
            && (r.Some? ==> m(HomeOf(w, end), p) < w.planes[end].radius + PLANE_TAP_PADDING)
            && forall i: nat :: k <= i < end ==> m(HomeOf(w, i), p) >= w.planes[i].radius + PLANE_TAP_PADDING
    decreases |w.planes| - k
  {
    if k < |w.planes| { FirstHitIs(w, m, p, k + 1); }
  }

  /** The plane has an incomplete route of more than one cell that ends under the finger. */
  predicate OpenEndAt(w: World, m: Metric, paths: map<nat, PlanePath>, p: Vec, i: nat) {
    && i in paths && !paths[i].complete && |paths[i].cells| > 1
    && m(Centre(paths[i].cells[|paths[i].cells| - 1]), p) < CELL * TAP_END_SNAP_RATIO
  }

  lemma {:induction false} FirstOpenEndIs(w: World, m: Metric, paths: map<nat, PlanePath>, p: Vec, k: nat)
    requires k <= |w.planes|
    ensures var r := FirstOpenEnd(w, m, paths, p, k);
            var end := if r.Some? then r.value else |w.planes|;
            && k <= end && (r.Some? ==> OpenEndAt(w, m, paths, p, end))
            && forall i: nat :: k <= i < end ==> !OpenEndAt(w, m, paths, p, i)
    decreases |w.planes| - k
  {
    if k < |w.planes| { FirstOpenEndIs(w, m, paths, p, k + 1); }
  }

  lemma FingerInGrid(w: World, p: Vec)
    requires w.cols > 0 && w.rows > 0
    ensures InGrid(w, FingerCell(w, p))
  {
  }

  class Board {
    const w: World
    const m: Metric
    var planning: bool
    var paths: map<nat, PlanePath>
    var undoStack: seq<UndoEntry>
    var drawing: Option<Drawing>

    function State(): StrokeState
      reads this
    {
      StrokeState(planning, paths, undoStack, drawing)
    }

    ghost predicate Valid()
      reads this
    {
      DrawOk(w) && Inv(w, State())
    }

    constructor (world: World, metric: Metric)
      requires DrawOk(world)
      ensures Valid() && State() == FRESH && w == world && m == metric
    {
      w, m := world, metric;
      planning, paths, undoStack, drawing := true, map[], [], None;
    }

    lemma Fits()
      requires DrawOk(w)
      ensures forall i :: 0 <= i < |w.planes| ==>
                w.planes[i].id == i && (w.planes[i].mission == Depart ==> w.planes[i].rwIdx < |w.runways|)
    {
      forall i | 0 <= i < |w.planes|
        ensures w.planes[i].id == i && (w.planes[i].mission == Depart ==> w.planes[i].rwIdx < |w.runways|)
      {
        assert PlaneFits(w, i);
      }
    }

    /** Pressing: on a plane a fresh route begins, on an open end the route goes on, elsewhere nothing. */
    method OnPointerDown(p: Vec)
      requires Valid()
      modifies this
      ensures Valid()
      ensures (Fits(); State() ==
                if !old(planning) then old(State())
                else match FirstHit(w, m, p, 0)
                     case Some(k) => Begin(w, old(State()), k)
                     case None =>
                       match FirstOpenEnd(w, m, old(paths), p, 0)
                       case Some(k) => Extend(w, old(State()), k)
                       case None => old(State()))
    {
      Fits();
      if !planning {
        return;
      }
      var hit := FirstHit(w, m, p, 0);
      if hit.Some? {
        var k := hit.value;
        BeginKeeps(w, State(), k);
        var start := StartCells(w, w.planes[k]);
        drawing := Some(Drawing(k, if k in paths then Some(paths[k]) else None, false, |start|));
        paths := paths[k := PlanePath(start, false)];
        return;
      }
      var open := FirstOpenEnd(w, m, paths, p, 0);
      if open.Some? {
        var k := open.value;
        ExtendKeeps(w, State(), k);
        drawing := Some(Drawing(k, Some(paths[k]), true, |StartCells(w, w.planes[k])|));
      }
    }

    /** Moving draws the route on to the cell under the finger; neither the guard nor the blocked-cell
        branches of the loop ever matter. */
    method OnPointerMove(p: Vec)
      requires Valid()
      modifies this`paths, this`drawing
      ensures Valid()
      ensures (InvReady(w, old(State())); State() == Drag(old(State()), FingerCell(w, p)))
    {
      InvReady(w, State());
      if drawing.None? || !planning {
        return;
      }
      var cur := FingerCell(w, p);
      FingerInGrid(w, p);
      DragKeeps(w, State(), cur);
      var d := drawing.value;
      if d.id !in paths {
        return;
      }
      var path := paths[d.id];
      assert EntryOk(w, d.id, Some(path));
      var cells := DrawLoop(path.cells, cur, d.minLen);
      paths := paths[d.id := path.(cells := cells)];
      drawing := Some(d.(moved := d.moved || cells != path.cells));
    }

    method DrawLoop(cells0: seq<Cell>, cur: Cell, minLen: nat) returns (cells: seq<Cell>)
      requires DrawOk(w) && |cells0| > 0 && AllInGrid(w, cells0) && InGrid(w, cur)
      ensures cells == Drawn(cells0, cur, minLen)
    {
      cells := cells0;
      var guard := 0;
      while cells[|cells| - 1] != cur && guard < DRAW_STEP_GUARD
        invariant |cells| > 0 && AllInGrid(w, cells)
        invariant guard + Chebyshev(cells[|cells| - 1], cur) <= DRAW_STEP_GUARD
        invariant Drawn(cells, cur, minLen) == Drawn(cells0, cur, minLen)
      {
        guard := guard + 1;
        StepDrawIs(w, cells, cur, minLen);
        var r := StepDraw(w, cells, cur, minLen);
        if r == Break {
          break;
        }
        cells := r.cells;
      }
    }

    /** Lifting the finger, or losing the pointer, ends the stroke. */
    method OnPointerUp()
      requires Valid()
      modifies this
      ensures Valid()
      ensures State() == if old(planning) then Finish(w, old(State())) else old(State())
    {
      if planning && drawing.Some? {
        FinishStroke();
      }
    }

    method FinishStroke()
      requires Valid() && drawing.Some?
      modifies this
      ensures Valid() && State() == Finish(w, old(State()))
    {
      FinishKeeps(w, State());
      InvReady(w, State());
      ghost var goal := Finish(w, State());
      var d := drawing.value;
      drawing := None;
      if !d.moved {
        match d.prev {
          case Some(prev) => paths := paths[d.id := prev];
          case None => paths := map k | k in paths && k != d.id :: paths[k];
        }
        assert State() == goal;
        return;
      }
      if d.id !in paths {
        return;
      }
      var path := SnapToTarget(d.id, paths[d.id]);
      paths := paths[d.id := path];
      undoStack := undoStack + [UndoEntry(d.id, d.prev)];
      assert State() == goal;
    }

    method SnapToTarget(id: nat, drawn: PlanePath) returns (path: PlanePath)
      requires DrawOk(w) && id < |w.planes| && |drawn.cells| > 0
      ensures path == Snapped(drawn, Target(w, id))
    {
      assert PlaneFits(w, id);
      path := drawn;
      var target := TargetCell(w, w.planes[id]);
      var away := Chebyshev(path.cells[|path.cells| - 1], target);
      if away <= SNAP_ADJ {
        if away > 0 {
          path := path.(cells := path.cells + [target]);
        }
        path := path.(complete := true);
      } else {
        path := path.(complete := false);
      }
    }

    /** The undo button does not ask whether a stroke is in progress. */
    method OnUndo()
      requires Valid()
      modifies this
      ensures Valid() && State() == UndoOf(old(State()))
    {
      UndoKeeps(w, State());
      if !planning || |undoStack| == 0 {
        return;
      }
      var u := undoStack[|undoStack| - 1];
      undoStack := undoStack[..|undoStack| - 1];
      match u.prev {
        case Some(prev) => paths := paths[u.id := prev];
        case None => paths := map k | k in paths && k != u.id :: paths[k];
      }
    }

    method CommitPlan()
      requires Valid()
      modifies this
      ensures Valid() && State() == Commit(old(State()))
    {
      if planning {
        drawing := None;
        planning := false;
      }
    }
  }
}
