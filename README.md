# ninja-turtles: the 8-puzzle board, its solver and the game state, in Dafny

`ninja-turtles.py` is a terminal 8-puzzle. A 3x3 board holds the tiles
'1'..'8' and a blank in row-major order; the blank's index is the
"anchor". The program has two cores, and this project models both.

- `MazeSolution` is a solver over immutable tuples. Its four move
  functions `up`, `down`, `left` and `right` return a swapped copy and the
  new anchor, or `(None, None)` at the edge of the grid. `find_solution`
  searches from the start board to `'12345678 '` and returns the
  direction names that reach it.
- `Maze` is the interactive board. `move` swaps cells of `self.array` in
  place and updates `self.anchor`. `init` scrambles the board with legal
  moves that never undo the previous one. `resolved` compares the board
  with the target. `go_to_target` plays a solver answer move by move.

The Dafny modules follow that split:

| module | file | models |
|---|---|---|
| `Wrappers` | wrappers.dfy | `Option`, the source's `None` |
| `Board` | board.dfy | cells, the direction encoding UP=0, LEFT=1, RIGHT=2, DOWN=3, the four pure moves, replaying a path, undoing a path |
| `Solver` | solver.dfy | `find_solution`: a functional specification (`Search`) and the imperative loop over the Python list (`FindSolution`), proved equal; what its answers mean |
| `Example` | example.dfy | the commented-out check in `main`: `MazeSolution('1234567 8', 7)` answers `['RIGHT']` |
| `Game` | maze.dfy | class `Maze` over a nine-cell `array<char>`: `move`, the legality helpers, `resolved`, `init`, `go_to_target`, and the 'f' key of `run` |

**The search is breadth-first.** The frontier list is named `stack`,
but children go in with `stack.insert(0, …)` (ninja-turtles.py:84) and
nodes come out with `stack.pop()` (ninja-turtles.py:72). So the list is a
FIFO queue read from its end, and the model treats it as one.

- `Solver.Explore` is a FIFO exploration over a queue.
- `Solver.FindSolution` runs the source's loop on the list itself.
- `Solver.Reverse` relates the list to the queue.

The search terminates by a lexicographic measure: first the number of
unvisited boards among all nine-letter words over the start board's
symbols, then the queue length.

The path tuple in the source starts with a `-1` sentinel. Here the path
is a `seq<Direction>` without the sentinel. `Board.LastCode` gives `-1`
for the empty path, so the skip test `last_direction == 3 - d` is kept
literally. The solver returns the `Direction`s themselves; `Board.Name`
turns each one into the string `move` accepts.

`Maze` carries a ghost field `history`: every move taken since the
solved board. Its invariant `Valid()` says the array is what replaying
`history` from the solved board gives. From it follow:

- the blank is always at `anchor`;
- the cells are always a permutation of `'12345678 '`;
- walking the history back solves the board.

The random draws of `init` are an argument: the sequence of proposed
directions.

## Model

| member | source | states |
|---|---|---|
| Board.Target | ninja-turtles.py:15 | the target for n cells has length n and ends with the blank |
| Board.TargetShape | ninja-turtles.py:15 | the first n-1 cells of the target carry the consecutive labels '1', '2', …, none of them blank |
| Board.SolvedSpelled | ninja-turtles.py:97-98 | the solver's nine-cell target is exactly the string `'12345678 '` that `Maze` uses as its target |
| Board.Code | ninja-turtles.py:90-93 | every direction has a code in 0..3 |
| Board.FromCode | ninja-turtles.py:115-123 | an integer names a direction iff it is in 0..3, and then that direction's code is the integer |
| Board.CodeRoundTrip | ninja-turtles.py:90-93 | decoding a direction's code gives that direction back |
| Board.Inverse | ninja-turtles.py:75 | the inverse of direction `d` has code `3 - d` and is a different direction |
| Board.Name | ninja-turtles.py:112-114 | each direction's name is a key of `DIRECTIONS` that maps back to its code |
| Board.Exchange | ninja-turtles.py:22-23 | the copy with `anchor` and `dest` exchanged differs from the input at those two cells only, and is a permutation of it |
| Board.MoveUp | ninja-turtles.py:17-24 | fails exactly when no row lies above the blank (`anchor <= 2`); otherwise the blank moves to `anchor - 3`, the two cells are exchanged and nothing else changes |
| Board.MoveDown | ninja-turtles.py:26-33 | fails exactly when no row lies below (`anchor + 3 >= 9`); otherwise the blank moves to `anchor + 3`, exchanging only those two cells |
| Board.MoveLeft | ninja-turtles.py:35-42 | fails exactly in the left column (`anchor % 3 == 0`); otherwise the blank moves to `anchor - 1`, exchanging only those two cells |
| Board.MoveRight | ninja-turtles.py:44-51 | fails exactly in the right column (`anchor % 3 == 2`); otherwise the blank moves to `anchor + 1`, exchanging only those two cells |
| Board.Apply | ninja-turtles.py:77 | the dispatch `directions[d](array, anchor)` fails iff the move leaves the grid; otherwise it swaps the two cells, permutes the board, and a blank at the anchor is at the new anchor |
| Board.NeighbourBack | ninja-turtles.py:17-51 | from the neighbour in direction `d`, direction `3 - d` is legal and leads back to the original index |
| Board.ApplyUndo | ninja-turtles.py:17-51 | a legal move followed by its inverse restores exactly the original board and anchor |
| Board.ReplayPermutes | ninja-turtles.py:22-24 | any sequence of legal moves permutes the cells, and the blank stays at the anchor |
| Board.ReplayAppend | ninja-turtles.py:84 | replaying `path + (d,)` is replaying `path` and then applying `d` |
| Board.Drive | ninja-turtles.py:210-211 | playing a path with `move`, which skips an illegal step, keeps nine cells and an anchor on the grid |
| Board.DrivePermutes | ninja-turtles.py:210-211 | playing a path permutes the cells, and a blank at the anchor stays at the anchor |
| Board.DriveAgrees | ninja-turtles.py:209-211 | playing a path that is legal step by step, where `move` would otherwise skip an illegal step, ends where replaying it ends |
| Board.LastCode | ninja-turtles.py:73 | the last direction of a path is a code 0 to 3, and it is the sentinel -1 exactly for the empty path |
| Board.ReversesLast | ninja-turtles.py:73-76 | the skip test `last_direction == 3 - d` holds exactly when the path's last move is the inverse of `d`; the `-1` sentinel never matches |
| Board.Undo | ninja-turtles.py:75 | the undo path has one step per step of the path: the inverses, last move first |
| Board.UndoReplay | ninja-turtles.py:17-51 | from where a legal path ends, replaying its undo path returns to the exact start board and anchor |
| Board.BlankHome | ninja-turtles.py:15 | on the solved board the only blank cell is index 8 |
| Solver.MoveStaysOver | ninja-turtles.py:22-24 | a child board uses only the start board's symbols, so it lies in the finite set of nine-letter words over them |
| Solver.Try | ninja-turtles.py:75-85 | one direction keeps every queued board well formed and over the start's symbols, only grows `visited`, leaves the queue alone when it visits nothing new, and answers only non-empty paths |
| Solver.Expand | ninja-turtles.py:74-85 | the four directions, in order, keep the same facts |
| Solver.Explore | ninja-turtles.py:70-85 | the loop over the queue answers only non-empty paths |
| Solver.Search | ninja-turtles.py:53-85 | `find_solution` answers the empty path exactly when the start already is the target |
| Solver.Reverse | ninja-turtles.py:72-84 | the queue is the list read from its end, element for element |
| Solver.ReversePush | ninja-turtles.py:84 | `insert(0, x)` on the list puts `x` at the back of the queue |
| Solver.ExpandNode | ninja-turtles.py:74-85 | the `for d in range(4)` loop over the list computes exactly the specification's expansion of the node: the same answer, or the same queue and visited set |
| Solver.Round | ninja-turtles.py:70-72 | one pass of `while stack` pops the queue's front and expands it; the search's outcome is unchanged and the termination measure decreases |
| Solver.SearchStarts | ninja-turtles.py:57-64 | the list holding only the start node, with only the start visited, satisfies the loop invariant and the frontier discipline, and explores to the search's answer |
| Solver.FindSolution | ninja-turtles.py:53-85 | the method returns exactly the FIFO search's answer: the empty path when the start is solved, otherwise what `Explore` finds, or `None` when the queue empties |
| Solver.ChildReached | ninja-turtles.py:75-84 | a queued child's path replays from the start to the child's board and never takes a move right after its inverse |
| Solver.TrySound | ninja-turtles.py:75-85 | one direction returns only paths that solve the start, and queues only boards reached by replaying their paths |
| Solver.ExpandSound | ninja-turtles.py:74-85 | expanding a node returns only solving paths and queues only reached boards |
| Solver.ExploreSound | ninja-turtles.py:70-85 | every answer of the exploration replays legally from the start to the target and never undoes its last move |
| Solver.SearchSound | ninja-turtles.py:53-81 | every answer of `find_solution` solves the start board without backtracking, and it is empty exactly when the start is already solved |
| Solver.TryAppends | ninja-turtles.py:77-85 | a direction finds the node's path plus `d` only when the move solves the board; it queues a child only when that child is unsolved and unvisited, appending it at the back; otherwise the queue is unchanged |
| Solver.AppendEnqueued | ninja-turtles.py:84-85 | appending an unvisited board and marking it visited keeps every queued board visited and no board queued twice |
| Solver.TryEnqueued | ninja-turtles.py:82-85 | one direction keeps every queued board visited and no board queued twice |
| Solver.ExpandEnqueued | ninja-turtles.py:74-85 | expanding a node keeps those facts, and the old queue stays a prefix of the new one: children join at the back |
| Solver.ChildrenCons | ninja-turtles.py:74-84 | a child along the first direction, put before children along later directions, keeps the children in increasing direction order |
| Solver.ChildrenWiden | ninja-turtles.py:74-84 | children along some of the directions are children along all of them |
| Solver.JoinChildren | ninja-turtles.py:74-84 | the queue after the first direction followed by the later directions' children is the old queue followed by all children in order |
| Solver.ExpandOrder | ninja-turtles.py:74-84 | for directions of increasing code, what expanding appends behind the old queue are children of the node, each its path plus one of the directions, in increasing code order: UP, LEFT, RIGHT, DOWN for the source's loop |
| Solver.RoundEnqueued | ninja-turtles.py:70-85 | after the front is popped and expanded, those facts still hold, the rest of the old queue stays in front, and the front's children follow it in the order UP, LEFT, RIGHT, DOWN |
| Example.ExampleBoard | ninja-turtles.py:222 | `'1234567 8'` is the solved board with its last two cells exchanged |
| Example.NeighbourMoves | ninja-turtles.py:222 | from that board with anchor 7, UP and LEFT give two distinct new unsolved boards, and RIGHT gives the solved board with anchor 8 |
| Example.FirstMoveQueued | ninja-turtles.py:84-85 | a first move to a new unsolved board queues it at the back with the one-step path |
| Example.LeftThenRight | ninja-turtles.py:74-85 | after LEFT is queued, RIGHT solving the board ends the expansion with `[RIGHT]` |
| Example.UpQueued | ninja-turtles.py:84-85 | UP, tried first, queues its board |
| Example.ThirdChildSolves | ninja-turtles.py:66-85 | the start node's expansion queues UP and LEFT and then stops at RIGHT with `[RIGHT]` |
| Example.FirstExpansion | ninja-turtles.py:222-223 | expanding the example's start node gives `[RIGHT]` |
| Example.ExploreNeighbour | ninja-turtles.py:222-223 | exploring from the example's start node gives `[RIGHT]` |
| Example.SolvesNeighbour | ninja-turtles.py:222-223 | the search from any board that is the solved one with its last two cells exchanged (anchor 7) answers `[RIGHT]` |
| Example.SolveExample | ninja-turtles.py:222-223 | `MazeSolution('1234567 8', 7).find_solution()` is `['RIGHT']` |
| Game.Draw | ninja-turtles.py:158-163 | one draw counts exactly when it neither reverses the last direction nor leaves the grid; then the move is appended, remembered as the last direction, and the blank goes to the neighbouring cell in that direction; otherwise nothing changes |
| Game.Scramble | ninja-turtles.py:154-163 | the draws of `init` keep the blank on the grid and never drop a move |
| Game.OnlyAcceptedCount | ninja-turtles.py:159-163 | only accepted moves count: a scramble that accepts fewer than `count` moves ran out of proposals, so a larger budget leaves it unchanged |
| Game.ScrambleBounded | ninja-turtles.py:154-163 | scrambling only appends moves, at most `count` of them |
| Game.ScrambleNoBacktrack | ninja-turtles.py:159-162 | a scramble never takes a move straight after its inverse, not even across the remembered `last_direction` it starts from, and it keeps `last_direction` equal to the last accepted move |
| Game.ScrambleLegal | ninja-turtles.py:161-162 | the scramble's moves replay legally from the solved board and end with the blank at the scramble's anchor |
| Game.Maze.constructor | ninja-turtles.py:96-110 | a fresh solved board, scrambled by `init(100)` from `last_direction = 0`: the outcome is the scramble of the proposals, at most 100 moves without backtracking, and fewer only when the proposals ran out, with `steps` reset to 0 |
| Game.Maze.Solvable | ninja-turtles.py:125-127 | every board the game holds returns to the solved board by undoing its history |
| Game.Maze.BlankAtAnchor | ninja-turtles.py:125-127 | the blank is always at `anchor`, and the cells are always a permutation of `'12345678 '` |
| Game.Maze.Up | ninja-turtles.py:131-134 | `up()` is None iff no row lies above the blank, else the index above |
| Game.Maze.Down | ninja-turtles.py:136-139 | `down()` is None iff no row lies below the blank, else the index below |
| Game.Maze.Left | ninja-turtles.py:141-144 | `left()` is None in the left column, else the index to the left |
| Game.Maze.Right | ninja-turtles.py:146-149 | `right()` is None in the right column, else the index to the right |
| Game.Maze.Destination | ninja-turtles.py:115-123 | the dispatch on the code gives a destination iff the code is 0..3 and that move stays on the grid, and then it is that neighbour |
| Game.Maze.Move | ninja-turtles.py:112-129 | returns True iff the code names a direction legal from the anchor; then the array changes exactly as the solver's move in that direction; otherwise nothing changes; the invariant is kept |
| Game.Maze.Slide | ninja-turtles.py:125-127 | the in-place swap and anchor update equal the solver's move of that direction, and the board stays reachable |
| Game.Maze.Resolved | ninja-turtles.py:168-169 | `resolved()` holds iff the array reads "12345678 ", which is the solver's target |
| Game.Maze.ResolvedHome | ninja-turtles.py:168-169 | on a resolved board the blank is back at index 8 |
| Game.Maze.Init | ninja-turtles.py:151-166 | the loop leaves the board, `anchor` and `last_direction` exactly as the scramble of the proposals prescribes, and `steps` untouched |
| Game.Maze.Propose | ninja-turtles.py:158-163 | one draw skips the inverse of `last_direction`, rejects an illegal move, or applies the move and remembers it; it reports whether the draw counted |
| Game.Maze.GoToTarget | ninja-turtles.py:209-212 | playing the path moves the board as driving the path does (illegal steps are skipped) and counts one step per entry |
| Game.Maze.SolveKey | ninja-turtles.py:199-202 | the 'f' key succeeds iff the solver answers; then the board ends resolved with the blank at 8 and `steps` grew by the length of the answer; otherwise nothing changes; the last direction is never touched |

## Left out

- Terminal I/O is not modelled: `print_maze`, the `curses` window set up in `__init__`, the key loop of `run`, and the delays in `init` and `go_to_target`.
- `random.seed(time.time())` and `random.choice` in `init` are not modelled; the proposed directions are a parameter.
- `main` and its argument parsing are not modelled: they are command-line glue.
- `print_frame` is not modelled: it only switches rendering.
- The unused `count` and `step` locals of `find_solution` are not modelled.
- `Game.Maze.Move` takes only an integer code. The name dispatch (`basestring` and `DIRECTIONS[direction.upper()]`) is modelled only for the four upper-case names, through `Board.Name` in `GoToTarget`.
- `Game.Maze.Init` also stops when the proposals run out. The source draws forever until `count` moves are accepted.
- `Game.Maze.SolveKey`: when the solver answers `None`, the source's `go_to_target(None)` raises a `TypeError`. Here the key returns false and changes nothing.
- `Game.Maze.SolveKey` does not model the rest of `run`: the arrow keys, the 'q' key, and the `steps` increment after a successful key move.
- `Solver.SearchSound`: only soundness is proved. The model does not prove that the search is complete (it finds a path whenever one exists) or that its answer is a shortest path.
- `Board.Target` only covers boards of at most ten cells. The source's `str(i)` labels have two characters from 10 on, so a one-character cell cannot hold them.
- The solver returns `Direction` values, not name strings; `Board.Name` gives the name of each.
