/**
 * The check left commented out in the source's `main`: the solver started
 * on "1234567 8" with the blank at index 7 answers a single RIGHT.  It
 * tries UP and LEFT first (both queue a new board) and RIGHT then produces
 * the solved board.  The proof walks the specification `Solver.Search`
 * through those three directions.
 */
module Example {
  import opened Wrappers
  import opened Board
  import opened Solver

  /** The example's start board is the solved board with its last two cells exchanged. */
  lemma ExampleBoard(s: Cells)
    requires s == "1234567 8"
    ensures |s| == 9 && Swapped(Solved, s, 8, 7)
  {
  }

  /** From such a board, UP and LEFT give two new, distinct, unsolved boards, and RIGHT solves it. */
  lemma NeighbourMoves(s: Cells, anchor: int)
    requires |s| == 9 && anchor == 7 && Swapped(Solved, s, 8, 7)
    ensures Apply(Up, s, anchor).Some? && Apply(Left, s, anchor).Some?
    ensures Apply(Right, s, anchor) == Some(Moved(Solved, 8))
    ensures Apply(Up, s, anchor).value.cells != s && Apply(Up, s, anchor).value.cells != Solved
    ensures Apply(Left, s, anchor).value.cells != s && Apply(Left, s, anchor).value.cells != Solved
    ensures Apply(Left, s, anchor).value.cells != Apply(Up, s, anchor).value.cells
  {
    var up := Apply(Up, s, anchor).value;
    var left := Apply(Left, s, anchor).value;
    var right := Apply(Right, s, anchor).value;
    assert up.cells[4] == Blank && Solved[4] != Blank && s[4] != Blank;
    assert left.cells[6] == Blank && Solved[6] != Blank && s[6] != Blank && up.cells[6] != Blank;
    SwapTwice(Solved, s, right.cells, 8, 7);
  }

  /** A first move from the start node to a new, unsolved board is queued at the back. */
  lemma FirstMoveQueued(node: Node, d: Direction, queue: seq<Node>, visited: set<Cells>, alpha: set<char>)
    requires NodeOk(node, alpha) && QueueOk(queue, alpha) && visited <= Universe(alpha)
    requires LastCode(node.path) != 3 - Code(d) && Apply(d, node.cells, node.anchor).Some?
    requires Apply(d, node.cells, node.anchor).value.cells != Solved
    requires Apply(d, node.cells, node.anchor).value.cells !in visited
    requires node.path == []
    ensures Try(node, d, queue, visited, alpha)
            == Pending(queue + [Node(Apply(d, node.cells, node.anchor).value.cells, Apply(d, node.cells, node.anchor).value.anchor, [d])],
                       visited + {Apply(d, node.cells, node.anchor).value.cells})
  {
    assert node.path + [d] == [d];
  }

  /** Expanding past a direction that leaves the search pending continues with the next one. */
  lemma ExpandPast(n: Node, dirs: seq<Direction>, q: seq<Node>, v: set<Cells>, alpha: set<char>)
    requires NodeOk(n, alpha) && QueueOk(q, alpha) && v <= Universe(alpha) && dirs != []
    requires Try(n, dirs[0], q, v, alpha).Pending?
    ensures Expand(n, dirs, q, v, alpha)
            == Expand(n, dirs[1..], Try(n, dirs[0], q, v, alpha).queue, Try(n, dirs[0], q, v, alpha).visited, alpha)
  {
  }

  lemma NotInPair<T>(x: T, a: T, b: T)
    requires x != a && x != b
    ensures x !in {a} + {b}
  {
  }

  /** A first move from the start node that produces the solved board ends the expansion. */
  lemma FirstMoveSolves(node: Node, d: Direction, queue: seq<Node>, visited: set<Cells>, alpha: set<char>)
    requires NodeOk(node, alpha) && QueueOk(queue, alpha) && visited <= Universe(alpha)
    requires node.path == [] && Apply(d, node.cells, node.anchor).Some?
    requires Apply(d, node.cells, node.anchor).value.cells == Solved
    ensures Try(node, d, queue, visited, alpha) == Found([d])
  {
    assert node.path + [d] == [d];
  }

  /** Expansion stops at the first direction that finds a path. */
  lemma ExpandStops(n: Node, dirs: seq<Direction>, q: seq<Node>, v: set<Cells>, alpha: set<char>)
    requires NodeOk(n, alpha) && QueueOk(q, alpha) && v <= Universe(alpha) && dirs != []
    requires Try(n, dirs[0], q, v, alpha).Found?
    ensures Expand(n, dirs, q, v, alpha) == Try(n, dirs[0], q, v, alpha)
  {
  }

  /** LEFT queues its board and the expansion goes on to RIGHT. */
  lemma LeftThenRight(n: Node, dirs: seq<Direction>, q: seq<Node>, v: set<Cells>, alpha: set<char>)
    requires dirs == [Left, Right, Down]
    requires NodeOk(n, alpha) && QueueOk(q, alpha) && v <= Universe(alpha) && n.path == []
    requires Apply(Left, n.cells, n.anchor).Some?
    requires Apply(Left, n.cells, n.anchor).value.cells != Solved
    requires Apply(Left, n.cells, n.anchor).value.cells !in v
    requires Apply(Right, n.cells, n.anchor).Some? && Apply(Right, n.cells, n.anchor).value.cells == Solved
    ensures Expand(n, dirs, q, v, alpha) == Found([Right])
  {
    MoveStaysOver(Left, n.cells, n.anchor, alpha);
    FirstMoveQueued(n, Left, q, v, alpha);
    var t := Try(n, Left, q, v, alpha);
    assert t.Pending?;
    FirstMoveSolves(n, Right, t.queue, t.visited, alpha);
    assert dirs[0] == Left && dirs[1..] == [Right, Down] && dirs[1..][0] == Right;
    ExpandStops(n, dirs[1..], t.queue, t.visited, alpha);
    ExpandPast(n, dirs, q, v, alpha);
  }

  /** UP, tried first, queues its board. */
  lemma UpQueued(n: Node, alpha: set<char>)
    requires NodeOk(n, alpha) && n.path == [] && n.cells in Universe(alpha)
    requires Apply(Up, n.cells, n.anchor).Some?
    requires Apply(Up, n.cells, n.anchor).value.cells != Solved
    requires Apply(Up, n.cells, n.anchor).value.cells != n.cells
    ensures Try(n, Up, [], {n.cells}, alpha)
            == Pending([Node(Apply(Up, n.cells, n.anchor).value.cells, Apply(Up, n.cells, n.anchor).value.anchor, [Up])],
                       {n.cells} + {Apply(Up, n.cells, n.anchor).value.cells})
  {
    MoveStaysOver(Up, n.cells, n.anchor, alpha);
    FirstMoveQueued(n, Up, [], {n.cells}, alpha);
  }

  /** The start node's expansion stops at its third direction with the path [RIGHT]. */
  lemma ThirdChildSolves(n: Node, dirs: seq<Direction>, alpha: set<char>)
    requires dirs == Order
    requires NodeOk(n, alpha) && n.path == [] && n.cells in Universe(alpha)
    requires Apply(Up, n.cells, n.anchor).Some? && Apply(Left, n.cells, n.anchor).Some?
    requires Apply(Up, n.cells, n.anchor).value.cells != Solved
    requires Apply(Up, n.cells, n.anchor).value.cells != n.cells
    requires Apply(Left, n.cells, n.anchor).value.cells != Solved
    requires Apply(Left, n.cells, n.anchor).value.cells != n.cells
    requires Apply(Left, n.cells, n.anchor).value.cells != Apply(Up, n.cells, n.anchor).value.cells
    requires Apply(Right, n.cells, n.anchor).Some? && Apply(Right, n.cells, n.anchor).value.cells == Solved
    ensures Expand(n, dirs, [], {n.cells}, alpha) == Found([Right])
  {
    var up := Apply(Up, n.cells, n.anchor).value;
    var left := Apply(Left, n.cells, n.anchor).value;
    var q1 := [Node(up.cells, up.anchor, [Up])];
    var v1 := {n.cells} + {up.cells};
    NotInPair(left.cells, n.cells, up.cells);
    UpQueued(n, alpha);
    assert dirs[0] == Up && dirs[1..] == [Left, Right, Down];
    ExpandPast(n, dirs, [], {n.cells}, alpha);
    MoveStaysOver(Up, n.cells, n.anchor, alpha);
    LeftThenRight(n, [Left, Right, Down], q1, v1, alpha);
  }

  lemma FirstExpansion(s: Cells, anchor: int, alpha: set<char>)
    requires |s| == 9 && anchor == 7 && Swapped(Solved, s, 8, 7)
    requires Over(s, alpha) && s in Universe(alpha)
    ensures Expand(Node(s, anchor, []), Order, [], {s}, alpha) == Found([Right])
  {
    NeighbourMoves(s, anchor);
    ThirdChildSolves(Node(s, anchor, []), Order, alpha);
  }

  /** A queue whose front node's expansion finds a path returns that path. */
  lemma ExploreFound(q: seq<Node>, v: set<Cells>, alpha: set<char>)
    requires QueueOk(q, alpha) && v <= Universe(alpha) && q != []
    requires Expand(q[0], Order, q[1..], v, alpha).Found?
    ensures Explore(q, v, alpha) == Some(Expand(q[0], Order, q[1..], v, alpha).path)
  {
  }

  lemma ExploreNeighbour(s: Cells, anchor: int, alpha: set<char>)
    requires |s| == 9 && anchor == 7 && Swapped(Solved, s, 8, 7)
    requires Over(s, alpha) && s in Universe(alpha)
    ensures Explore([Node(s, anchor, [])], {s}, alpha) == Some([Right])
  {
    var n := Node(s, anchor, []);
    FirstExpansion(s, anchor, alpha);
    assert [n][0] == n && [n][1..] == [];
    ExploreFound([n], {s}, alpha);
  }

  /** From the solved board with its last two cells exchanged, the search answers RIGHT. */
  lemma SolvesNeighbour(s: Cells, anchor: int)
    requires |s| == 9 && anchor == 7 && Swapped(Solved, s, 8, 7)
    ensures Search(s, anchor) == Some([Right])
  {
    assert s != Solved by { assert s[7] != Solved[7]; }
    var alpha := Alphabet(s);
    InWords(alpha, 9, s);
    ExploreNeighbour(s, anchor, alpha);
  }

  /** `MazeSolution('1234567 8', 7).find_solution()` returns ['RIGHT']. */
  lemma SolveExample(s: Cells, anchor: int)
    requires s == "1234567 8" && anchor == 7
    ensures Search(s, anchor) == Some([Right])
  {
    ExampleBoard(s);
    SolvesNeighbour(s, anchor);
  }
}
