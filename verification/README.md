# Brain Wiz: verified models

Brain Wiz is a party game: a host screen, phones, and a server that runs rounds of minigames. This
project models the parts of it whose correctness is decided by algorithms and protocols, and proves what
they are for. It has no dependencies; `dafny verify dfyconfig.toml` checks everything.

| files | what they model |
|---|---|
| `SlidingBoard`, `MinHeap`, `SlidingSolver`, `SlidingScrambler` | the sliding puzzle: boards and parity, the binary heap, the A* solver, the scrambler |
| `ThreeCycles`, `SlidingSolvable` | why every board that passes the parity guard can be solved |
| `SlidingCourses`, `SlidingReturns` | for how many slides the scrambler returns |
| `BonkWorld`, `ShortestPath`, `BonkRouter` | the router of Bonk Air: array-based Dijkstra with eight directions and no corner cutting |
| `BonkFlight`, `BonkSimModel`, `BonkScore`, `BonkRun`, `BonkSeparation`, `BonkSafety`, `BonkStep`, `BonkSim`, `BonkScoring` | the flight simulation, its score on both sides, and what holds over whole runs |
| `BonkStroke` | drawing routes with a finger, and undo |
| `AnswerWindow`, `AnswerRuns`, `AnswerEvents`, `AnswerService`, `AnswerFindings` | the answer windows of the server, with saves in flight |
| `PhaseTimer`, `GameLoop`, `GameEngine` | the phase timer and the game loop |
| `LightSwitch`, `LightPhone`, `LightGenerator` | the light-switch puzzle: server replay, phone, generator |
| `Wordle`, `Serpentine` | the evaluation of word guesses; the snake layout of a flow |
| `Common` | options, grids numbered row by row, random draws |

Where the source updates state step by step, a class or a method with loops does so too and is proved
equal to a function of the old state; the results are then proved about that function, over all inputs
and all runs.

## How the parts are modelled

- Sliding boards have any odd side; the program uses three. A board is its own key.
- Randomness is an arbitrary stream of values in [0,1), reduced to the index drawn from a number of
  candidates. The scrambler and the switch generator end under a hypothesis on the stream, stated where
  it is needed, because the program ends only then; the model adds nothing to it.
- Bonk Air uses real numbers and an arbitrary distance that is never negative. Grids have any
  size whose largest path cost is below the router's sentinel.
- The answer service is a state machine. A handler runs from one await to the next without interruption,
  so a step is what it does in between, and every interleaving is a sequence of steps. Saves in flight
  are explicit, each with the client, the answer and, for a finalization, its place in the loop. The
  minigame adapter's verdict on a submission is a parameter.
- The game loop gets every awaited answer from an arbitrary environment: success or failure, an abort
  meanwhile, and for a timed phase the events that arrive while it runs. Looking a room up after an error
  fails when there is no such room.

## Where the code falls short of what it promises

Each of these is proved with an input that shows it. Where a condition is named, it is exact: the code keeps
its promise if and only if it holds.

- A finalization of answers that is still waiting for the database when the engine has given up on it
  deletes, when it ends, whatever window its room has by then. The next round's window is gone, and
  progress it had accepted is never stored (`AnswerFindings.LateFinalizationExample`,
  `WindowStaysWithoutLate`, `LateTakesTheWindow`).
- "Everybody connected has answered" is decided by counts, so a submitter who left stands for a player
  who is still thinking (`SignalIsPrematureIff`).
- A finalization passes over a client whose own submission is still being saved. When that save fails, the
  progress the window had accepted is not stored either (`AnswerFindings.PassedOverProgressIsLost`). The rows
  missing are exactly those of clients whose last save failed (`AnswerRuns.FinalizedRoundsAreComplete`).
- Undo does not ask whether a stroke is in progress. Stored routes stay drawable whatever happens
  (`BonkStroke.RoutesStayDrawable`), but one can claim to be complete and not end on its target
  (`UndoDuringStrokeBreaksRoutes`): exactly when an undo hands a complete route to the stroke in progress and
  a later move of that stroke leaves its end (`RoutesBreakIff`). The input works in every world; the
  program's starts and grid leave room for it (`ShortStartHasWay`). An undo between pressing a plane and
  letting it go unmoved is lost as well: its entry is gone, and the route it took back is there again
  (`UnmovedStrokeRestores`).
- The light-switch fallback need not be solvable (`LightGenerator.UnsolvableFallback`). A generated puzzle is
  solvable exactly when it is not the fallback or some set of its switches names every light an odd number of
  times (`GeneratedSolvableIff`).
- `createScrambledBoard` never returns when there are no moves to make
  (`SlidingScrambler.NoMovesNeverReturns`), and for every even number of moves from twelve on, the default of
  eighty included, there are random values that keep it from returning. For odd numbers and for two to ten it
  returns on the first attempt. So it returns whatever the random values are exactly for an odd number of moves
  or an even one from two to ten (`SlidingReturns.ReturnsIff`).
- An abort between two phases cancels nothing: the round in flight is played to its end
  (`GameEngine.Engine.Await`, `PlayRounds`).

## Model

| member | source | states |
|---|---|---|
| `Grid.RowAndCol` | src/minigames/sliding-puzzle/shared/slidingPuzzleGame.ts:48-54 | row and column of a cell are the quotient and the remainder of its index |
| `SlidingBoard.LegalTilesExact` | src/minigames/sliding-puzzle/shared/slidingPuzzleGame.ts:56-69 | the list of legal tiles holds exactly the tiles next to the blank |
| `SlidingBoard.SlideKeepsBoard` | src/minigames/sliding-puzzle/shared/slidingPuzzleGame.ts:71-84 | a legal move of a tile turns a permutation of the solved board into a different one, with the blank where the tile was |
| `SlidingBoard.SlideReversible` | src/minigames/sliding-puzzle/shared/slidingPuzzleGame.ts:71-84 | every slide can be taken back by a slide |
| `SlidingBoard.WalkReversible` | src/minigames/sliding-puzzle/shared/slidingPuzzleGame.ts:71-84 | any sequence of slides can be walked backwards |
| `SlidingBoard.CountInversions` | src/minigames/sliding-puzzle/shared/slidingPuzzleGame.ts:99-112 | the nested counting loops compute the number of inverted pairs of tiles |
| `SlidingBoard.SwapFlipsParity` | src/minigames/sliding-puzzle/shared/slidingPuzzleGame.ts:99-112 | exchanging two neighbouring different tiles changes the parity of the inversions |
| `SlidingBoard.PassBlock` | src/minigames/sliding-puzzle/shared/slidingPuzzleGame.ts:99-112 | carrying a tile past a block of others flips the parity once for each of them |
| `SlidingBoard.SlideKeepsParity` | src/minigames/sliding-puzzle/shared/slidingPuzzleGame.ts:71-84 | on a board of odd width, a slide never changes whether the parity guard passes |
| `SlidingBoard.ReachableImpliesSolvable` | src/minigames/sliding-puzzle/shared/slidingPuzzleGame.ts:114-116 | a board from which some slides lead to the solved one passes the parity guard |
| `SlidingBoard.ManhattanConsistent` | src/minigames/sliding-puzzle/shared/slidingPuzzleGame.ts:118-130 | a slide changes the heuristic by at most one |
| `SlidingBoard.ManhattanAdmissible` | src/minigames/sliding-puzzle/shared/slidingPuzzleGame.ts:118-130 | the heuristic never exceeds the number of slides of any solution |
| `ThreeCycles.InOrderUpToTwo` | src/minigames/sliding-puzzle/shared/slidingPuzzleGame.ts:114-116 | when any three places of an arrangement can be turned, it can be put in any order, up to its first two values |
| `SlidingSolvable.AllPlacesTurn` | src/minigames/sliding-puzzle/shared/slidingPuzzleGame.ts:71-84 | on a board of any width from three on, slides can turn any three tiles of the line along the snake and leave all others where they are |
| `SlidingSolvable.SolvableIsReachable` | src/minigames/sliding-puzzle/shared/slidingPuzzleGame.ts:114-116 | on a board of any odd width, every permutation that passes the parity guard leads to the solved board by slides |
| `SlidingSolvable.GuardIsExact` | src/minigames/sliding-puzzle/shared/slidingPuzzleGame.ts:114-116 | so the guard passes exactly the permutations that some slides solve |
| `MinHeap.RootIsMinimal` | src/minigames/sliding-puzzle/shared/slidingPuzzleGame.ts:221-248 | in a heap-ordered sequence no node has less priority than the first |
| `MinHeap.MinHeap.BubbleUp` | src/minigames/sliding-puzzle/shared/slidingPuzzleGame.ts:174-189 | in place: restores heap order when only the node at `start` may be too small, and keeps the multiset of nodes |
| `MinHeap.MinHeap.BubbleDown` | src/minigames/sliding-puzzle/shared/slidingPuzzleGame.ts:191-219 | in place: restores heap order when only the node at `start` may be too large, and keeps the multiset of nodes |
| `MinHeap.MinHeap.Push` | src/minigames/sliding-puzzle/shared/slidingPuzzleGame.ts:221-230 | keeps heap order and adds exactly the node |
| `MinHeap.MinHeap.Pop` | src/minigames/sliding-puzzle/shared/slidingPuzzleGame.ts:230-248 | keeps heap order and removes exactly one node of least priority; nothing comes from an empty heap only |
| `SlidingSolver.BuildSolutionPath` | src/minigames/sliding-puzzle/shared/slidingPuzzleGame.ts:250-260 | the boards after the start along the chain of `previous` links, in order |
| `SlidingSolver.SolveBoard` | src/minigames/sliding-puzzle/shared/slidingPuzzleGame.ts:262-321 | terminates; a returned path moves by single slides from the start to the solved board and no solution is shorter; nothing is returned exactly when there is no solution, which is exactly when the guard refuses the start |
| `SlidingSolver.Search` | src/minigames/sliding-puzzle/shared/slidingPuzzleGame.ts:276-320 | the same for the A* loop alone, by a lexicographic measure: boards not seen, sum of recorded move counts, heap size |
| `SlidingSolver.OpenNodeOnWalk` | src/minigames/sliding-puzzle/shared/slidingPuzzleGame.ts:276-320 | while the search runs, on every solution some open node promises no more than its length |
| `SlidingSolver.RecordMakesProgress` | src/minigames/sliding-puzzle/shared/slidingPuzzleGame.ts:303-316 | recording a better move count makes a board seen or lowers the sum of the recorded counts |
| `SlidingSolver.ExpandNode` | src/minigames/sliding-puzzle/shared/slidingPuzzleGame.ts:296-317 | after a node is expanded, every known board is open or has all its neighbours known at most one move further |
| `SlidingSolver.SolvedNodeIsShortest` | src/minigames/sliding-puzzle/shared/slidingPuzzleGame.ts:285-291 | a solved node that is popped is a shortest solution |
| `SlidingSolver.PopStale` | src/minigames/sliding-puzzle/shared/slidingPuzzleGame.ts:293-295 | skipping a stale node loses nothing of the frontier |
| `SlidingSolver.GuardIsComplete` | src/minigames/sliding-puzzle/shared/slidingPuzzleGame.ts:263-265 | a board refused by the parity guard has no solution |
| `SlidingScrambler.CandidatesCanMove` | src/minigames/sliding-puzzle/shared/slidingPuzzleGame.ts:140-150 | whichever candidate is drawn, it is a tile that can move |
| `SlidingScrambler.CreateScrambledBoard` | src/minigames/sliding-puzzle/shared/slidingPuzzleGame.ts:132-160 | the board returned is that of the first attempt that does not end solved; it is an unsolved permutation that passes the guard and is solved by at most `moveCount` slides |
| `SlidingScrambler.AttemptIsFair` | src/minigames/sliding-puzzle/shared/slidingPuzzleGame.ts:132-160 | so is any attempt that does not end solved, whatever the random stream |
| `SlidingScrambler.OddMoveCountNeedsNoRetry` | src/minigames/sliding-puzzle/shared/slidingPuzzleGame.ts:155-157 | an odd number of slides never ends solved |
| `SlidingCourses.AttemptFollows` | src/minigames/sliding-puzzle/shared/slidingPuzzleGame.ts:137-153 | whatever the random stream, the blank of an attempt moves between neighbouring cells and never straight back, and the attempt ends on the board that course gives |
| `SlidingCourses.SixthAdds` | src/minigames/sliding-puzzle/shared/slidingPuzzleGame.ts:71-84 | along such a course the first six slides each take a tile one step from its home, except that the sixth may bring one home when the blank is back at its corner the way it left it |
| `SlidingCourses.ShortCoursesLeave` | src/minigames/sliding-puzzle/shared/slidingPuzzleGame.ts:132-160 | no such course of one to eleven slides ends on the solved board, on a board of any width from two on |
| `SlidingReturns.LongCourseReturns` | src/minigames/sliding-puzzle/shared/slidingPuzzleGame.ts:132-160 | for every even number of slides from twelve on, and any width from three on, some such course does |
| `SlidingReturns.StreamFollows` | src/minigames/sliding-puzzle/shared/slidingPuzzleGame.ts:141-153 | for any course that ends on the solved board there are random values with which every attempt follows it |
| `SlidingReturns.ReturnsIff` | src/minigames/sliding-puzzle/shared/slidingPuzzleGame.ts:132-160 | the scrambler returns whatever the random values are exactly when it is asked for an odd number of slides or an even one from two to ten |
| `SlidingScrambler.NoMovesNeverReturns` | src/minigames/sliding-puzzle/shared/slidingPuzzleGame.ts:155-157 | with no slides to make, no number of retries ever returns |
| `BonkWorld.WeatherIndexSet` | src/minigames/bonk-air/shared/bonkAirGame.ts:197-201 | the set holds the index of a cell of the grid exactly when a cloud covers the cell |
| `ShortestPath.SelectNearest` | src/minigames/bonk-air/shared/bonkAirGame.ts:232-238 | an unvisited vertex of least distance below the sentinel, or none when all are at the sentinel |
| `ShortestPath.RelaxOne` | src/minigames/bonk-air/shared/bonkAirGame.ts:243-254 | relaxing without looking at the visited flag changes no visited vertex and keeps the search invariant |
| `ShortestPath.FirstUnvisited` | src/minigames/bonk-air/shared/bonkAirGame.ts:231-255 | every path to an unvisited vertex has a first unvisited one that the table knows to be no further |
| `ShortestPath.TargetIsNearest` | src/minigames/bonk-air/shared/bonkAirGame.ts:239-239 | stopping as soon as the target is nearest loses no cheaper path |
| `ShortestPath.NothingReached` | src/minigames/bonk-air/shared/bonkAirGame.ts:239-239 | stopping when nothing unvisited is reached means there is no path |
| `ShortestPath.ReadBack` | src/minigames/bonk-air/shared/bonkAirGame.ts:257-263 | following the predecessors back gives the recorded path from the start |
| `ShortestPath.Search` | src/minigames/bonk-air/shared/bonkAirGame.ts:217-264 | the array-based search returns a cheapest path with its cost, or nothing exactly when there is none |
| `BonkRouter.PathIsRoute` | src/minigames/bonk-air/shared/bonkAirGame.ts:241-249 | a path over the indexes is a route over free cells without corner cutting, at the same cost |
| `BonkRouter.RouteIsPath` | src/minigames/bonk-air/shared/bonkAirGame.ts:241-249 | every such route is a path over the indexes |
| `BonkRouter.Dijkstra` | src/minigames/bonk-air/shared/bonkAirGame.ts:209-265 | nothing is returned exactly when no eight-direction route without corner cutting exists; otherwise such a route whose step costs add up to the returned cost, and no route is cheaper |
| `BonkFlight.CumLens` | src/minigames/bonk-air/shared/bonkAirGame.ts:112-116 | the arc lengths up to each point |
| `BonkFlight.PointAlong` | src/minigames/bonk-air/shared/bonkAirGame.ts:124-149 | the binary search and interpolation give the point of the linear definition, and one that lies where the arc length says: the first point before the start, the last one from the end on, and between two points it divides the way from the first to the second as the arc length divides theirs |
| `BonkFlight.LiesAtOnce` | src/minigames/bonk-air/shared/bonkAirGame.ts:124-149 | there is only one such point |
| `BonkFlight.AtItsPoints` | src/minigames/bonk-air/shared/bonkAirGame.ts:124-149 | when every segment is longer than TINY or goes nowhere, a plane is at each of its points at the arc length of that point |
| `BonkFlight.AlongItsSegments` | src/minigames/bonk-air/shared/bonkAirGame.ts:124-149 | and along a segment longer than TINY, both ends included, the part of the way done equals the part of the arc length done, counted from the first point to the second |
| `BonkFlight.CellOfCentre` | src/minigames/bonk-air/shared/bonkAirGame.ts:152-159 | a cell is found again from its centre |
| `BonkFlight.SegmentCells` | src/minigames/bonk-air/shared/bonkAirGame.ts:152-159 | a point between two neighbouring centres lies in one of their cells or in a corner cell of the diagonal |
| `BonkFlight.FlightOverFreeCells` | src/minigames/bonk-air/shared/bonkAirGame.ts:124-159 | strictly between two arc lengths of a router route a plane is over free cells |
| `BonkSafety.StepSparesSafePlane` | src/minigames/bonk-air/shared/bonkAirGame.ts:778-801 | a step never charges a plane on a safe route with a no-fly zone or a storm |
| `BonkSafety.RouterPlanIsNeverZoned` | src/minigames/bonk-air/shared/bonkAirGame.ts:653-801 | in any run of any plan, a plane planned along a router route, after its runway or before its roll-out, is never charged with a no-fly zone or a storm |
| `BonkSim.BuildPlane` | src/minigames/bonk-air/shared/bonkAirGame.ts:681-736 | the plane a simulation starts with, its cumulative lengths included |
| `BonkSim.Sim.constructor` | src/minigames/bonk-air/shared/bonkAirGame.ts:674-737 | the initial state of a plan |
| `BonkSim.Sim.FlyPhase` | src/minigames/bonk-air/shared/bonkAirGame.ts:753-774 | every plane under way flies on, and arrives or gets lost at the end of its route: the state of the flight function, about which `BonkStep.PlaneStep` says what it does |
| `BonkSim.Sim.ZonePhase` | src/minigames/bonk-air/shared/bonkAirGame.ts:778-801 | planes in the air over a no-fly zone or a storm crash |
| `BonkSim.Sim.SepCheck` | src/minigames/bonk-air/shared/bonkAirGame.ts:804-825 | collision, violation or re-arming of one pair |
| `BonkSim.Sim.PairPhase` | src/minigames/bonk-air/shared/bonkAirGame.ts:826-833 | every pair that was in the air when the phase began is looked at once, in order |
| `BonkSim.Sim.StarPhase` | src/minigames/bonk-air/shared/bonkAirGame.ts:835-843 | planes still flying take the stars near them, once |
| `BonkSim.Sim.Step` | src/minigames/bonk-air/shared/bonkAirGame.ts:749-845 | one step: the new state and the events are those of the step function; which they are, in terms of the planes before and after, is said by the next rows |
| `BonkStep.PlaneStep` | src/minigames/bonk-air/shared/bonkAirGame.ts:749-833 | a plane under way has its arc length grow by speed times time; at the end of its route it is done or lost as the route was complete or not; otherwise it crashes exactly when it is off its runways over a no-fly zone or a storm, or in the air too close to another such plane; otherwise it flies on; a plane not under way does not change, nor any route |
| `BonkStep.PlanePlace` | src/minigames/bonk-air/shared/bonkAirGame.ts:754-758 | after a step it lies on its route at its new arc length, or at the end |
| `BonkStep.RunPlace` | src/minigames/bonk-air/shared/bonkAirGame.ts:754-758 | so in every step of every run of a plan |
| `BonkStep.StarStep` | src/minigames/bonk-air/shared/bonkAirGame.ts:835-843 | a star is taken after a step exactly when it was before or some plane that is still flying in the air is near it |
| `BonkStep.PlaneStars` | src/minigames/bonk-air/shared/bonkAirGame.ts:835-843 | a plane gets as many stars as were free and near it and near no plane of a lower number that flies on |
| `BonkStep.RuleStep` | src/minigames/bonk-air/shared/bonkAirGame.ts:803-825 | a pair is disarmed after a step exactly when both were in the air, too close and not colliding, or it was disarmed before and they were not both in the air and beyond the re-arming distance; it is charged, once, exactly when both were in the air, too close, not colliding and armed |
| `BonkStep.StepEvents` | src/minigames/bonk-air/shared/bonkAirGame.ts:749-845 | every event comes exactly once if it happens, by the planes before and after and the rules and stars before, and not at all otherwise |
| `BonkStep.PlaneStarts` | src/minigames/bonk-air/shared/bonkAirGame.ts:681-736 | the points, arc lengths, runway marks and state a plane starts with |
| `BonkStep.DoneWasComplete` | src/minigames/bonk-air/shared/bonkAirGame.ts:759-772 | over any run of a plan, a plane that ends done had a complete route and one that ends lost an incomplete one |
| `BonkScore.StepKeeps` | src/minigames/bonk-air/shared/bonkAirGame.ts:749-845 | a step never changes a finished plane or any route, and for every weighting of arrivals, violations and stars its events weigh what the state gains |
| `BonkRun.RunKeeps` | src/minigames/bonk-air/shared/bonkAirGame.ts:749-845 | the same over any number of steps of any lengths |
| `BonkRun.FinishedStays` | src/minigames/bonk-air/shared/bonkAirGame.ts:742-747 | a plane that is finished is exactly the same after any later step |
| `BonkRun.StarHandedOutOnce` | src/minigames/bonk-air/shared/bonkAirGame.ts:835-843 | each star has one event if it is taken at the end and none otherwise |
| `BonkRun.EventsMatchState` | src/minigames/bonk-air/shared/bonkAirGame.ts:759-772 | a plane that ends done has exactly one arrival event, any other none, and there are as many separation events as violations |
| `BonkRun.PerfectByEvents` | src/minigames/bonk-air/shared/bonkAirGame.ts:847-867 | the perfect bonus is paid exactly when every plane has had its arrival event and there was no separation event |
| `BonkRun.PhoneAgreesWithServer` | src/minigames/bonk-air/components/BonkAir.runtime.ts:1764-1792 | after any number of steps the score folded over the events is the score of the results without the perfect bonus |
| `BonkRun.StarsBound` | src/minigames/bonk-air/shared/bonkAirGame.ts:835-843 | the planes together never hold more stars than the world has |
| `BonkRun.ScoreBound` | src/minigames/bonk-air/shared/bonkAirGame.ts:847-867 | no run scores more than all arrivals, all stars and the perfect bonus |
| `BonkSeparation.StepRule` | src/minigames/bonk-air/shared/bonkAirGame.ts:803-833 | a step charges a pair once if both are in the air, too close and armed, and otherwise not at all; and the exact condition of being disarmed afterwards |
| `BonkSeparation.ViolationsAreEpisodes` | src/minigames/bonk-air/shared/bonkAirGame.ts:818-824 | any two violation events of a run for one pair lie in different steps, and in a step between them both planes were in the air and farther apart than the re-arming distance |
| `BonkSeparation.ViolationsAreOfPairs` | src/minigames/bonk-air/shared/bonkAirGame.ts:826-833 | every violation event of a run names two different planes, the lower number first |
| `BonkScoring.StepsBounded` | src/minigames/bonk-air/shared/bonkAirGame.ts:745-747 | no unfinished run takes more than 3601 steps |
| `BonkScoring.FullRunIsUnique` | src/minigames/bonk-air/shared/bonkAirGame.ts:870-874 | a plan has one full run, however it is cut into frames |
| `BonkScoring.RunHeadless` | src/minigames/bonk-air/shared/bonkAirGame.ts:870-874 | terminates within 3601 steps with the results of that run |
| `BonkScoring.ScoreSubmission` | src/server/room/game/minigames/bonk-air.server.ts:51-71 | the points lie between zero and all arrivals, all stars, the perfect bonus and the cap of the early bonus; a plan is correct exactly when it earns the perfect bonus |
| `BonkScoring.EarlyBonusIs` | src/minigames/bonk-air/shared/bonkAirGame.ts:900-909 | there is an early bonus only when every route is complete: ten points for every whole second left, none after the time is up, up to the cap |
| `BonkScoring.Replay.HandleEvent` | src/minigames/bonk-air/components/BonkAir.runtime.ts:1764-1792 | what one event does to the score on the phone |
| `BonkScoring.Replay.UpdateSimPhase` | src/minigames/bonk-air/components/BonkAir.runtime.ts:1842-1856 | a frame plays whole fixed steps; what they take and what is left for the next frame add up to what there was and the time of the frame, and less than a step is left unless the replay has ended; the score stays the fold over all events, and the replay ends exactly when the simulation is finished |
| `BonkScoring.ReplayScoreIsServerScore` | src/minigames/bonk-air/components/BonkAir.runtime.ts:1842-1856 | when the replay has ended, the phone's score and the perfect bonus make the server's score |
| `BonkStroke.StepDrawIs` | src/minigames/bonk-air/components/BonkAir.runtime.ts:1560-1586 | within the grid no cell is ever in the way: a turn steps back, goes one cell nearer the finger by Chebyshev distance, or stops at the cap |
| `BonkStroke.DrawnOk` | src/minigames/bonk-air/components/BonkAir.runtime.ts:1509-1592 | drawing keeps the start cells, the grid and the eight-neighbour steps |
| `BonkStroke.DrawnReaches` | src/minigames/bonk-air/components/BonkAir.runtime.ts:1588-1591 | the drawn route ends under the finger unless the cap stops it |
| `BonkStroke.DrawnExact` | src/minigames/bonk-air/components/BonkAir.runtime.ts:1560-1591 | a step back takes exactly the last cell away; otherwise the route keeps its cells and gets one for each the finger is away by Chebyshev distance, each nearer by one, as many as the cap allows |
| `BonkStroke.FinishKeeps` | src/minigames/bonk-air/components/BonkAir.runtime.ts:1593-1631 | ending a stroke keeps every route drawable: its start cells, the grid and the eight-neighbour steps |
| `BonkStroke.SnappedIs` | src/minigames/bonk-air/components/BonkAir.runtime.ts:1610-1626 | a route is complete after its stroke exactly when it ended on its target or one of the eight cells around, and gets the target appended exactly when it ended beside it |
| `BonkStroke.UndoTakesBack` | src/minigames/bonk-air/components/BonkAir.runtime.ts:1915-1928 | an undo right after a stroke puts the route from before it back and nothing else changes |
| `BonkStroke.ExtendAndLift` | src/minigames/bonk-air/components/BonkAir.runtime.ts:1482-1504 | going on with a route and letting go at once is recorded as a stroke, and one undo makes everything as it was |
| `BonkStroke.LiftHonest` | src/minigames/bonk-air/components/BonkAir.runtime.ts:1593-1631 | ending a stroke keeps every route, stored or kept for undo, that claims to be complete on its target |
| `BonkStroke.RoutesStayDrawable` | src/minigames/bonk-air/components/BonkAir.runtime.ts:1448-1631 | under any events, undos at any moment included, every stored route and every route kept for undo starts with its spawn or whole runway, stays in the grid and moves by eight-neighbour steps |
| `BonkStroke.StepExact` | src/minigames/bonk-air/components/BonkAir.runtime.ts:1448-1631 | from well-formed routes, an event leaves one that is complete but not on its target exactly when it is a move that draws a complete route off its end |
| `BonkStroke.MoveAfterUndo` | src/minigames/bonk-air/components/BonkAir.runtime.ts:1509-1592 | when an undo has handed a complete route to the stroke, the next move keeps all routes well formed exactly when the route it draws still ends on the target |
| `BonkStroke.LiftWithoutRoute` | src/minigames/bonk-air/components/BonkAir.runtime.ts:1593-1604 | when an undo has taken the route of the stroke away, moving stores nothing; lifting an unmoved finger stores exactly the route from before the press, lifting a moved one only ends the stroke, no other route changes, and all stay well formed |
| `BonkStroke.UnmovedStrokeRestores` | src/minigames/bonk-air/components/BonkAir.runtime.ts:1593-1604 | in every trace, a plane that is pressed and let go without drawing has its route from before the press again, whatever undos came in between |
| `BonkStroke.RoutesBreakIff` | src/minigames/bonk-air/components/BonkAir.runtime.ts:1448-1631 | over every trace: up to any moment every stored route that claims to be complete has ended on its target, exactly when no undo has handed a complete route to the stroke in progress and a later move of that same stroke has left its end |
| `BonkStroke.UndoDuringStrokeBreaksRoutes` | src/minigames/bonk-air/components/BonkAir.runtime.ts:1915-1928 | in every world, for every plane whose target is not where its routes start and every cell off that target: drawing its route twice, pressing it again, undoing, moving to the cell and locking the plan is a run from an empty board that submits a route which claims to be complete and does not end on its target |
| `BonkStroke.Board.OnPointerDown` | src/minigames/bonk-air/components/BonkAir.runtime.ts:1448-1508 | the new state after pressing: a fresh route, an open route taken up, or nothing |
| `BonkStroke.FirstHitIs` | src/minigames/bonk-air/components/BonkAir.runtime.ts:1460-1481 | the plane pressed is the first whose home is within its radius and the padding; none only when there is none |
| `BonkStroke.FirstOpenEndIs` | src/minigames/bonk-air/components/BonkAir.runtime.ts:1482-1504 | the route taken up is the first incomplete one of more than a cell that ends under the finger; none only when there is none |
| `BonkStroke.FingerCellIs` | src/minigames/bonk-air/components/BonkAir.runtime.ts:1522-1524 | the cell drawn to is the one under the finger, or the nearest of the grid |
| `BonkStroke.Board.DrawLoop` | src/minigames/bonk-air/components/BonkAir.runtime.ts:1587-1591 | the loop ends with the drawn route even without its guard |
| `BonkStroke.Board.OnPointerMove` | src/minigames/bonk-air/components/BonkAir.runtime.ts:1509-1592 | the new state after moving |
| `BonkStroke.Board.OnPointerUp` | src/minigames/bonk-air/components/BonkAir.runtime.ts:1593-1636 | the new state after lifting the finger |
| `BonkStroke.Board.FinishStroke` | src/minigames/bonk-air/components/BonkAir.runtime.ts:1593-1631 | the new state after a stroke: the route from before if the finger did not move, whatever is stored by then; nothing for a moved stroke whose route is gone; the snapped route otherwise |
| `BonkStroke.Board.OnUndo` | src/minigames/bonk-air/components/BonkAir.runtime.ts:1915-1928 | the new state after an undo, whatever is in progress; every stored route is still drawable |
| `AnswerWindow.NextUnsubmittedExact` | src/server/room/game/answer.service.ts:284-287 | the loop over the progress entries stops at the first client who has not submitted |
| `AnswerWindow.ProgressKeeps` | src/server/room/game/answer.service.ts:168-191 | accepted progress keeps the invariant of the window |
| `AnswerWindow.StartKeeps` | src/server/room/game/answer.service.ts:227-237 | so does marking a client and starting a save, for a submission or a finalization |
| `AnswerWindow.ResumeKeeps` | src/server/room/game/answer.service.ts:284-311 | so does the loop of a finalization from one await to the next, once the entries before are covered |
| `AnswerWindow.SettleKeeps` | src/server/room/game/answer.service.ts:238-251 | so does the answer of the database, whether the save succeeded or failed |
| `AnswerWindow.NoUniqueViolation` | src/server/room/game/answer.service.ts:241-244 | a save never meets a row of its client and round |
| `AnswerWindow.SubmittedIsHeldOnce` | src/server/room/game/answer.service.ts:227-262 | a client counts as having submitted exactly when one row or one save in flight holds the value; there are never two |
| `AnswerWindow.EndedHoldsEveryAnswer` | src/server/room/game/answer.service.ts:264-312 | after a finalization, with no save in flight, the rows are those of exactly the clients who submitted or sent progress, except exactly those whose last save failed, with the submission or else the last progress |
| `AnswerRuns.ApplyKeeps` | src/server/room/game/answer.service.ts:41-326 | every step of every handler keeps the invariant |
| `AnswerRuns.RunKeeps` | src/server/room/game/answer.service.ts:41-326 | so does every interleaving of them |
| `AnswerRuns.SubmittedAlwaysHeldOnce` | src/server/room/game/answer.service.ts:95-106 | at every moment of every run, the statement about submitted clients holds |
| `AnswerRuns.FinalizedRoundsAreComplete` | src/server/room/game/answer.service.ts:264-312 | in every run, the same holds of every finalized round, whatever came between the awaits |
| `AnswerRuns.ToldWhatWasStored` | src/server/room/game/answer.service.ts:238-252 | a client is told its submission was accepted exactly when it has just got its row; after an error it may submit again |
| `AnswerRuns.RoomIsTold` | src/server/room/game/answer.service.ts:252-262 | after a stored submission exactly its client, then the room with both counts, and the engine if and only if the counts meet, are told |
| `AnswerEvents.SubmissionExact` | src/server/room/game/answer.service.ts:74-166 | a submission is taken exactly when the room has an open window of its mode, the option or the round, kind and verdict fit, and its client has not submitted; then the save of what was sent starts and nobody is told; otherwise no window changes and the client alone is told the reason of the first check that fails |
| `AnswerEvents.ProgressExact` | src/server/room/game/answer.service.ts:168-207 | progress is taken exactly when the open window is for that minigame round and kind, the adapter accepts it and the client has not submitted; then it replaces what the client had sent; otherwise nothing changes; nobody is told |
| `AnswerEvents.RowIsLastAnswer` | src/server/room/game/answer.service.ts:227-262 | in every run, at every moment, a row holds the value and the time of the last event of its client that the window took, submissions the database refused aside |
| `AnswerEvents.FailedMeans` | src/server/room/game/answer.service.ts:238-251 | a client counts as failed exactly when the last answer of the database to one of its saves was an error |
| `AnswerEvents.FinalizedByEvents` | src/server/room/game/answer.service.ts:264-312 | after a finalization, with no save in flight, a client has a row exactly when the window took an event of it that the database did not refuse, and the last save of it did not fail |
| `AnswerEvents.FinalizationExact` | src/server/room/game/answer.service.ts:264-312 | a finalization request starts the save of the first client with progress and no submission, or closes the window for good and tells the engine; for a round that is not open it only tells the engine |
| `AnswerEvents.WindowIsAsOpened` | src/server/room/game/answer.service.ts:42-54 | in every run every window is for the room, mode, kind and options with which some event opened it |
| `AnswerEvents.OpenIsLastOpened` | src/server/room/game/answer.service.ts:42-63 | a room's open window is that of the last event that opened one for it, and none was closed for the room since |
| `AnswerFindings.WindowStaysWithoutLate` | src/server/room/game/answer.service.ts:264-277 | while no finalization of an older round has a save in flight, only events meant for a window take it away |
| `AnswerFindings.LateTakesTheWindow` | src/server/room/game/answer.service.ts:272-273 | while one has, answers to its saves alone delete the window of the next round |
| `AnswerFindings.OrphansGetNoRow` | src/server/room/game/answer.service.ts:264-270 | a client without a save in a window that is gone never gets a row |
| `AnswerFindings.LateFinalizationExample` | src/server/room/game/answer.service.ts:264-277 | a run in which accepted progress is lost that way |
| `AnswerFindings.PassedOverProgressIsLost` | src/server/room/game/answer.service.ts:279-287 | a run in which the loop passes over a client whose submission is being saved, the save fails, and accepted progress gets no row |
| `AnswerFindings.LeadsInARun` | src/server/room/game/answer.service.ts:41-326 | what possible events lead to from the start, a run goes through |
| `AnswerFindings.SignalIsExactWhileSubmittersStay` | src/server/room/game/answer.service.ts:323-326 | while all submitters are connected, the engine is told exactly when every connected client has submitted |
| `AnswerFindings.SignalIsPrematureIff` | src/server/room/game/answer.service.ts:323-326 | it is told too early exactly when those missing are no more than the submitters who left, and at least one |
| `AnswerFindings.PrematureSignalExample` | src/server/room/game/answer.service.ts:323-326 | a run in which that happens |
| `AnswerService.Service.Submit` | src/server/room/game/answer.service.ts:74-107 | a quiz answer takes its step, with its checks in their order; which step that is, is said by `AnswerEvents.SubmissionExact` |
| `AnswerService.Service.SubmitRound` | src/server/room/game/answer.service.ts:109-166 | a minigame submission: the step |
| `AnswerService.Service.UpdateRoundProgress` | src/server/room/game/answer.service.ts:168-207 | a progress message: the step |
| `AnswerService.Service.PersistProgressSnapshots` | src/server/room/game/answer.service.ts:279-312 | the loop from one await to the next: which save it starts, and when it is done |
| `AnswerService.Service.FinalizeWindow` | src/server/room/game/answer.service.ts:264-277 | a finalization request: the step |
| `AnswerService.Service.OnSaveAnswered` | src/server/room/game/answer.service.ts:238-262 | the database answers and the waiting handler goes on: the step |
| `PhaseTimer.ApplyKeeps` | src/server/room/game/phase-timer.ts:16-56 | every call and tick keeps every countdown gapless and expired exactly when all its ticks are sent, and only the last one running |
| `PhaseTimer.DoneIsDone` | src/server/room/game/phase-timer.ts:41-55 | over any sequence of calls, a countdown that settled or was replaced never ticks or settles again |
| `PhaseTimer.LeftAloneItExpires` | src/server/room/game/phase-timer.ts:19-27 | left alone, a countdown of n seconds expires after exactly n ticks, and after one if n is less than one |
| `PhaseTimer.Timer.Start` | src/server/room/game/phase-timer.ts:16-31 | a start replaces a running countdown, whose promise never resolves |
| `PhaseTimer.Timer.OnInterval` | src/server/room/game/phase-timer.ts:21-27 | one tick with the seconds remaining, and expiry after the last |
| `PhaseTimer.Timer.Settle` | src/server/room/game/phase-timer.ts:41-48 | the running countdown settles once and stops; otherwise nothing happens |
| `GameLoop.OrderlyMeans` | src/server/room/game/game-engine.service.ts:85-102 | in an orderly log, after an abort no round is entered and the game is not finished, and after an abort during a timed phase no phase is entered |
| `GameLoop.SaidIsSpoken` | src/server/room/game/game-engine.service.ts:334-340 | the digest holds every entry of the log but ticks and aborts, in their order |
| `GameLoop.ClosedWasRequested` | src/server/room/game/game-engine.service.ts:334-340 | in an orderly log every closed window had its finalization requested before, for the same round and reason |
| `GameLoop.VerdictMeans` | src/server/room/game/game-engine.service.ts:92-99 | the verdict is that the game finished exactly when no abort came before it |
| `GameLoop.FlagsMean` | src/server/room/game/game-engine.service.ts:120-127 | the flags of a log say whether it was aborted, and whether during a timed phase |
| `GameLoop.EndMeans` | src/server/room/game/game-engine.service.ts:223-246 | a timed phase ends with the first event that settles it, if that comes before its last second: an abort in any phase, a skip or everybody having answered in the question phase; otherwise with its last second |
| `GameLoop.TrippedMeans` | src/server/room/game/game-engine.service.ts:120-127 | the recursive flag says whether some wait was answered with an abort that took effect |
| `GameLoop.GameOversCounted` | src/server/room/game/game-engine.service.ts:96-98 | the final scores are counted as often as they were sent |
| `GameEngine.Engine.TimePhase` | src/server/room/game/game-engine.service.ts:293-310 | the outcome of timing a phase is exactly that of its end: aborted if and only if an abort ends it, ended early by everybody having answered if and only if that ends it, with exactly the ticks up to then and the log entry of the abort |
| `GameEngine.Engine.RunPhase` | src/server/room/game/game-engine.service.ts:277-286 | a phase throws, is cut or goes through exactly by the reply to its entry and the end of its timing |
| `GameEngine.Engine.PlayQuestion` | src/server/room/game/game-engine.service.ts:176-194 | so does the question phase; when it goes through, it enters the phase, says that the timer expired, asks for finalization and closes the window, in that order and once each, with the reason by which the phase ended; aborted, it says only that the window is |
| `GameEngine.Engine.PlayRound` | src/server/room/game/game-engine.service.ts:176-199 | the same of the round from its question to the leaderboard, or to game over |
| `GameEngine.Engine.RunRound` | src/server/room/game/game-engine.service.ts:155-275 | a round enters its phases in order, up to the one that was cut or failed; one that went well says exactly, in this order and once each: round entered, started, intro, playing, timer expired, finalization requested, window closed, reveal, round ended, then leaderboard phase and leaderboard, or game over after the last; an aborted question says that its window is aborted and neither requests nor closes; and a round waits for exactly what a round waits for |
| `GameEngine.Engine.PlayRounds` | src/server/room/game/game-engine.service.ts:85-90 | the phases entered are always the first ones of the game; unless a phase was cut, every round entered was played to its end |
| `GameEngine.Engine.VerdictIs` | src/server/room/game/game-engine.service.ts:85-99 | after the rounds the abort flag is set exactly when, on the way through all the waits of the whole game, one is answered with an abort that takes effect |
| `GameEngine.Engine.Conclude` | src/server/room/game/game-engine.service.ts:92-99 | a game is abandoned exactly when it was aborted before this point; only a finished one sends the final scores, once |
| `GameEngine.Engine.AbandonQuietly` | src/server/room/game/game-engine.service.ts:471-480 | an active room is abandoned exactly when both the lookup and the update succeed; otherwise its status stays |
| `GameEngine.Engine.Run` | src/server/room/game/game-engine.service.ts:68-110 | all of this for a whole game, under every environment; without errors before its verdict it is abandoned exactly when an abort takes effect at one of the waits of the whole game; without errors and aborts it finishes having entered every phase, and has said exactly what its rounds say, its verdict and the final scores; after an error the room is finished only if that verdict was stored before, and otherwise abandoned exactly when the two replies after the error succeed |
| `LightSwitch.ApplySwitch` | src/minigames/light-switch/LightSwitchGame.ts:20-30 | exactly the lights affected an odd number of times change; places without a light are ignored |
| `LightSwitch.CheckSubmission` | src/server/room/game/minigames/light-switch.server.ts:93-105 | the verdict is whether replaying the submission from the lights of the puzzle leaves all on |
| `LightSwitch.OrderIsFree` | src/server/room/game/minigames/light-switch.server.ts:96-102 | the order of presses does not matter |
| `LightSwitch.PairsCancel` | src/server/room/game/minigames/light-switch.server.ts:96-102 | pressing a switch twice, whatever comes in between, changes nothing |
| `LightSwitch.OddlyInDistinct` | src/minigames/light-switch/LightSwitchGame.ts:20-30 | a switch that names its lights once changes exactly those |
| `LightPhone.ClickKeeps` | src/minigames/light-switch/LightSwitch.tsx:70-90 | a click keeps the phone in step with a replay of the switches pressed |
| `LightPhone.ClickReports` | src/minigames/light-switch/LightSwitch.tsx:75-90 | a click sends one report more, of the switches pressed, and that is a submission exactly when all lights are on |
| `LightPhone.PhoneAgreesWithServer` | src/minigames/light-switch/LightSwitch.tsx:66-90 | after any clicks the lights are those of the replay of the switches pressed in any order, so both sides agree on solved |
| `LightPhone.PressedIsOddlyClicked` | src/minigames/light-switch/LightSwitch.tsx:71-73 | the switches pressed are those clicked an odd number of times |
| `LightPhone.ServerHoldsASolutionOnlyWhenSolved` | src/server/room/game/minigames/light-switch.server.ts:50-62 | what the server holds solves the puzzle exactly when the phone has solved it, although it rejects empty progress; the solving click submits a valid solution |
| `LightPhone.Phone.HandleSwitchClick` | src/minigames/light-switch/LightSwitch.tsx:70-90 | the new state of the component after a click |
| `LightGenerator.CreateAffected` | src/minigames/light-switch/LightSwitchGame.ts:72-76 | draws until there are enough different lights, and returns those drawn in the order they first came |
| `LightGenerator.InOrderIs` | src/minigames/light-switch/LightSwitchGame.ts:72-76 | a light is among those listed exactly when one of the draws brings it |
| `LightGenerator.InOrderComes` | src/minigames/light-switch/LightSwitchGame.ts:72-76 | of two lights listed, the one that is first came first |
| `LightGenerator.CreateSwitches` | src/minigames/light-switch/LightSwitchGame.ts:68-83 | exactly the switches the stream gives, four numbered by place, each naming different lights, one more than the first of its draws says; ends whenever the stream brings each switch as many as were drawn for it |
| `LightGenerator.ScrambleLights` | src/minigames/light-switch/LightSwitchGame.ts:40-49 | one scramble from place `at`: a light is on exactly when an even number of the n + pick(at, n) draws after it are of switches that name the light |
| `LightGenerator.AttemptIs` | src/minigames/light-switch/LightSwitchGame.ts:40-49 | the same of the replay of the switches drawn |
| `LightGenerator.CreateLights` | src/minigames/light-switch/LightSwitchGame.ts:36-66 | the lights of the first of up to three scrambles, each reading on where the one before stopped, that leaves a light off; all off if none does |
| `LightGenerator.GeneratedStartsUnsolved` | src/minigames/light-switch/LightSwitchGame.ts:51-65 | every generated puzzle is well formed and starts unsolved |
| `LightGenerator.GeneratedIsSolvable` | src/minigames/light-switch/LightSwitchGame.ts:36-66 | one that is not the fallback is solved by some set of its switches |
| `LightGenerator.CreateLightSwitchPuzzle` | src/minigames/light-switch/LightSwitchGame.ts:85-96 | the puzzle of the stream: well formed, unsolved, with as many lights as the first draw says, lit as the first of up to three scrambles that leaves one off says |
| `LightGenerator.SolvesIsChosen` | src/minigames/light-switch/LightSwitchGame.ts:20-34 | a submission solves a puzzle exactly when the set of switches it leaves pressed turns all lights on |
| `LightGenerator.SolvableIff` | src/minigames/light-switch/LightSwitchGame.ts:20-34 | a puzzle is solvable exactly when one of the sets of its switches turns all lights on |
| `LightGenerator.GeneratedSolvableIff` | src/minigames/light-switch/LightSwitchGame.ts:36-66 | a generated puzzle is solvable exactly when it is not the fallback or some set of its switches names every light an odd number of times |
| `LightGenerator.UnsolvableFallback` | src/minigames/light-switch/LightSwitchGame.ts:61-96 | a random source that keeps returning zero brings all switches their lights and makes a puzzle that no submission solves |
| `Wordle.EvaluateGuess` | src/minigames/wordleGame/shared/wordleGame.ts:16-64 | words of another length are refused; otherwise correct exactly where the words agree, present for the leftmost other occurrences the answer has letters for, wrong for the rest |
| `Wordle.MarksMean` | src/minigames/wordleGame/shared/wordleGame.ts:28-61 | each tile is correct exactly where the words agree, present exactly where they do not and fewer places before it miss the letter than places of the answer do, and wrong everywhere else |
| `Wordle.MarkCorrect` | src/minigames/wordleGame/shared/wordleGame.ts:28-42 | the first pass marks the hits and leaves the other letters of the answer |
| `Wordle.MarkPresent` | src/minigames/wordleGame/shared/wordleGame.ts:44-61 | the second pass marks the rest as defined, taking letters while there are any |
| `Wordle.MarksPerLetter` | src/minigames/wordleGame/shared/wordleGame.ts:28-61 | for each letter, correct and present marks together are as many as both words have |
| `Wordle.PresentsAreFirst` | src/minigames/wordleGame/shared/wordleGame.ts:46-61 | the present marks are the leftmost missed occurrences, as many as the answer has for them |
| `Wordle.GetGameState` | src/minigames/wordleGame/shared/wordleGame.ts:74-85 | waiting, solved and failed, each exactly when it should be |
| `Wordle.AllCorrectIsTheAnswer` | src/minigames/wordleGame/shared/wordleGame.ts:16-72 | an evaluation is all correct exactly when the guess is the answer |
| `Wordle.SolvedIffSomeAllCorrect` | src/minigames/wordleGame/shared/wordleGame.ts:74-85 | a game is solved exactly when some guess came back all correct |
| `Serpentine.BuildCells` | src/host/flow/serpentine.ts:24-44 | the nested loops list, for each place of the reading order, the cell of its flow index |
| `Serpentine.BuildSerpentine` | src/host/flow/serpentine.ts:81-88 | the same with arrows, for every length and number of columns |
| `Serpentine.IndexAtIsInvolution` | src/host/flow/serpentine.ts:18-22 | reading order and flow order are inverse to each other within rows: each flow index is shown once |
| `Serpentine.ShownIndex` | src/host/flow/serpentine.ts:18-22 | in rows that run to the right a place shows its own index, in the others the one counted from the other end of the row |
| `Serpentine.RowsAlternate` | src/host/flow/serpentine.ts:35-39 | the column of a flow index, row by row: rows run to the right and to the left in turn |
| `Serpentine.PlacesAreDistinct` | src/host/flow/serpentine.ts:35-39 | different flow indexes lie in different cells within the columns |
| `Serpentine.ReadingOrder` | src/host/flow/serpentine.ts:31-42 | the cells come in strictly increasing order of row and column |
| `Serpentine.ArrowsLeadOn` | src/host/flow/serpentine.ts:50-56 | each arrow points exactly at the cell of the next flow index, which is beside or below; only the last cell has none |

## Left out

- World generation, seeds and the bit-mixing generators of random numbers: any well-formed world and any
  stream of random values is allowed instead.
- The board key of the sliding puzzle, tile positions on the screen, and its score: a board is its own key.
- Heading angles in `pointAlong` and the coordinates and times carried by simulation events: nothing
  decides on them.
- Rounding of floating-point numbers: lengths and times are real numbers, and 1.414 is exact.
- Simulated planes as shared objects: they are values in a sequence that the simulation updates by place,
  so sharing between the lists of a step is not modelled; the order of updates is.
- Window objects as shared objects: a window is a value addressed by its round, and a handler that awaits
  a save finds it again by the round; a round is opened once, as fresh round identifiers imply.
- Timestamps other than the time to answer, the feedback sent on progress, and the lookup of a socket's
  membership: handlers start from a client and its room.
- Events on the bus that come in the same turn as the one that settles a timed phase, before the loop goes on.
- A second call of `run` for a room whose game is running: it is ignored by the program, and one call is
  modelled.
- The contents of leaderboards, scores, roadmaps and room states, and the ordering of leaderboards.
- Parsing and validation of submissions for Bonk Air, and the rounding of its points: results are integers
  here.
- Submitted light-switch entries that are not integers, and the score by time of that puzzle.
- Previews and effects of the Bonk Air runtime, and the coordinates of the pointer beyond its cell.
- `logicalInsertForSlot` of the snake layout: it repeats indexes around odd rows and nothing else here uses it.
- Storage, network, message encoding and the event bus: what they deliver is an event or a reply.
- SlidingScrambler.CreateScrambledBoard: ends under the hypothesis that some attempt does not end solved, because the
  program recurses for ever otherwise; for the numbers of moves named above the first one never does.
- LightGenerator.CreateSwitches: ends under the hypothesis that the random stream brings each switch as many different
  lights as were drawn for it, because the program draws until it has them.
- BonkSafety.RouterPlanIsNeverZoned: the plan is the runway and a router route, or a router route; plans drawn by hand
  may cross storms.
- BonkFlight.AtItsPoints: requires that every segment be longer than TINY or go nowhere, and so does AlongItsSegments,
  because the program divides a shorter segment as if it were TINY long; `PointAlong` says what it does then.
- BonkRouter.Dijkstra: requires both ends inside the grid and costs below the sentinel, because the program has no
  other calls and an unreachable cell is recognised by the sentinel.
- GameEngine.Engine.Run: says nothing of the waits of a game that meets an error or an abort but that those before the
  verdict are the first ones of the whole game.
