/**
 * The 3x3 board as a value: nine cells in row-major order, the blank's
 * index ("anchor"), and the four value-in/value-out move primitives of
 * `MazeSolution` (ninja-turtles.py).  Legality and destinations are
 * stated against the grid geometry (row = i / 3, column = i % 3), which
 * the source's index arithmetic is proved to agree with.
 */
module Board {
  import opened Wrappers

  type Cells = seq<char>

  const Blank: char := ' '

  /**
   * `MazeSolution.target` for a board of `n` cells: the labels '1'..'n-1'
   * (one character each, hence at most ten cells), then the blank.
   */
  function Target(n: nat): (r: Cells)
    requires 1 <= n <= 10
    ensures |r| == n && r[n - 1] == Blank
  {
    seq(n - 1, i requires 0 <= i < n - 1 => (('1' as int) + i) as char) + [Blank]
  }

  /** The solved nine-cell board, the solver's target. */
  const Solved: Cells := Target(9)

  /** The cells before the blank carry consecutive labels from '1'. */
  lemma TargetShape(n: nat)
    requires 1 <= n <= 10
    ensures forall i :: 0 <= i < n - 1 ==> Target(n)[i] as int == '1' as int + i && Target(n)[i] != Blank
  {
  }

  /** The solver's target for nine cells is the board `Maze` starts from and calls resolved. */
  lemma SolvedSpelled()
    ensures Solved == "12345678 "
  {
    assert forall i :: 0 <= i < 9 ==> Solved[i] == "12345678 "[i];
  }

  /** The direction the blank travels, in the source's encoding order. */
  datatype Direction = Up | Left | Right | Down

  /** The source's integer codes: UP = 0, LEFT = 1, RIGHT = 2, DOWN = 3. */
  function Code(d: Direction): (c: int)
    ensures 0 <= c < 4
  {
    match d
    case Up => 0
    case Left => 1
    case Right => 2
    case Down => 3
  }

  /** Decodes an integer direction; anything outside 0..3 names no direction. */
  function FromCode(c: int): (r: Option<Direction>)
    ensures r.Some? <==> 0 <= c < 4
    ensures r.Some? ==> Code(r.value) == c
  {
    if c == 0 then Some(Up)
    else if c == 1 then Some(Left)
    else if c == 2 then Some(Right)
    else if c == 3 then Some(Down)
    else None
  }

  /** Decoding a direction's code gives the direction back. */
  lemma CodeRoundTrip(d: Direction)
    ensures FromCode(Code(d)) == Some(d)
  {
  }

  /** The move that undoes `d`; the encoding makes it the code 3 - Code(d). */
  function Inverse(d: Direction): (r: Direction)
    ensures Code(r) == 3 - Code(d)
    ensures r != d
  {
    match d
    case Up => Down
    case Down => Up
    case Left => Right
    case Right => Left
  }

  /** `Maze.DIRECTIONS`: the names the solver reports, mapped to codes. */
  const DirectionCodes: map<string, int> := map["UP" := 0, "LEFT" := 1, "RIGHT" := 2, "DOWN" := 3]

  /** The solver's name for a direction (`ds`); reading it back through DIRECTIONS gives its code. */
  function Name(d: Direction): (s: string)
    ensures s in DirectionCodes && DirectionCodes[s] == Code(d)
  {
    match d
    case Up => "UP"
    case Left => "LEFT"
    case Right => "RIGHT"
    case Down => "DOWN"
  }

  // ----- Grid geometry: the reference the index arithmetic is checked against -----

  function Row(i: int): int { i / 3 }
  function Col(i: int): int { i % 3 }

  function DeltaRow(d: Direction): int
  {
    match d
    case Up => -1
    case Down => 1
    case _ => 0
  }

  function DeltaCol(d: Direction): int
  {
    match d
    case Left => -1
    case Right => 1
    case _ => 0
  }

  /** The blank may travel in direction `d` iff the neighbouring cell is on the grid. */
  predicate Legal(d: Direction, i: int)
  {
    0 <= Row(i) + DeltaRow(d) < 3 && 0 <= Col(i) + DeltaCol(d) < 3
  }

  /** The index of the neighbouring cell in direction `d`. */
  function Neighbour(d: Direction, i: int): int
  {
    3 * (Row(i) + DeltaRow(d)) + Col(i) + DeltaCol(d)
  }

  /** A well-formed board: nine cells and a blank index inside it. */
  predicate Wf(a: Cells, anchor: int)
  {
    |a| == 9 && 0 <= anchor < 9
  }

  /** A board after a move, with the blank's new index. */
  datatype Moved = Moved(cells: Cells, anchor: int)

  /** `b` is `a` with the cells at `i` and `j` exchanged and nothing else changed. */
  predicate Swapped(a: Cells, b: Cells, i: int, j: int)
    requires 0 <= i < |a| && 0 <= j < |a|
  {
    && |b| == |a|
    && b[i] == a[j]
    && b[j] == a[i]
    && forall k :: 0 <= k < |a| && k != i && k != j ==> b[k] == a[k]
  }

  /** `m` is what moving the blank in direction `d` from `anchor` must give. */
  predicate Follows(a: Cells, anchor: int, d: Direction, m: Moved)
    requires Wf(a, anchor)
  {
    && Legal(d, anchor)
    && m.anchor == Neighbour(d, anchor)
    && 0 <= m.anchor < 9
    && Swapped(a, m.cells, anchor, m.anchor)
  }

  /** The copy-and-swap shared by the four moves (`new_array[dest], new_array[anchor] = ...`). */
  function Exchange(a: Cells, dest: int, anchor: int): (r: Cells)
    requires 0 <= dest < |a| && 0 <= anchor < |a|
    ensures Swapped(a, r, anchor, dest)
    ensures multiset(r) == multiset(a)
  {
    a[dest := a[anchor]][anchor := a[dest]]
  }

  function MoveUp(a: Cells, anchor: int): (r: Option<Moved>)
    requires Wf(a, anchor)
    ensures r.None? <==> !Legal(Up, anchor)
    ensures r.Some? ==> Follows(a, anchor, Up, r.value)
  {
    if anchor <= 2 then None
    else
      var dest := anchor - 3;
      Some(Moved(Exchange(a, dest, anchor), dest))
  }

  function MoveDown(a: Cells, anchor: int): (r: Option<Moved>)
    requires Wf(a, anchor)
    ensures r.None? <==> !Legal(Down, anchor)
    ensures r.Some? ==> Follows(a, anchor, Down, r.value)
  {
    if anchor + 3 >= 9 then None
    else
      var dest := anchor + 3;
      Some(Moved(Exchange(a, dest, anchor), dest))
  }

  function MoveLeft(a: Cells, anchor: int): (r: Option<Moved>)
    requires Wf(a, anchor)
    ensures r.None? <==> !Legal(Left, anchor)
    ensures r.Some? ==> Follows(a, anchor, Left, r.value)
  {
    if anchor % 3 == 0 then None
    else
      var dest := anchor - 1;
      Some(Moved(Exchange(a, dest, anchor), dest))
  }

  function MoveRight(a: Cells, anchor: int): (r: Option<Moved>)
    requires Wf(a, anchor)
    ensures r.None? <==> !Legal(Right, anchor)
    ensures r.Some? ==> Follows(a, anchor, Right, r.value)
  {
    if anchor % 3 == 2 then None
    else
      var dest := anchor + 1;
      Some(Moved(Exchange(a, dest, anchor), dest))
  }

  /**
   * The solver's dispatch `directions[d](array, anchor)`: fails exactly at
   * the boundary; otherwise a permutation of the board in which the blank,
   * if it sat at `anchor`, now sits at the new anchor.
   */
  function Apply(d: Direction, a: Cells, anchor: int): (r: Option<Moved>)
    requires Wf(a, anchor)
    ensures r.None? <==> !Legal(d, anchor)
    ensures r.Some? ==> Follows(a, anchor, d, r.value) && Wf(r.value.cells, r.value.anchor)
    ensures r.Some? ==> multiset(r.value.cells) == multiset(a)
    ensures r.Some? && a[anchor] == Blank ==> r.value.cells[r.value.anchor] == Blank
  {
    match d
    case Up => MoveUp(a, anchor)
    case Left => MoveLeft(a, anchor)
    case Right => MoveRight(a, anchor)
    case Down => MoveDown(a, anchor)
  }

  /** Stepping to a neighbour and back along the inverse direction returns to the start cell. */
  lemma NeighbourBack(d: Direction, i: int)
    requires 0 <= i < 9 && Legal(d, i)
    ensures Legal(Inverse(d), Neighbour(d, i)) && Neighbour(Inverse(d), Neighbour(d, i)) == i
  {
    match d
    case Up =>
    case Left =>
    case Right =>
    case Down =>
  }

  /** Exchanging the same two cells twice gives the board back. */
  lemma SwapTwice(a: Cells, b: Cells, c: Cells, i: int, j: int)
    requires 0 <= i < |a| && 0 <= j < |a|
    requires Swapped(a, b, i, j) && Swapped(b, c, j, i)
    ensures c == a
  {
    assert forall k :: 0 <= k < |a| ==> c[k] == a[k];
  }

  /** Every legal move is undone by its inverse, which is legal from where it lands. */
  lemma ApplyUndo(d: Direction, a: Cells, anchor: int)
    requires Wf(a, anchor) && Legal(d, anchor)
    ensures Apply(d, a, anchor).Some?
    ensures Apply(Inverse(d), Apply(d, a, anchor).value.cells, Apply(d, a, anchor).value.anchor)
            == Some(Moved(a, anchor))
  {
    var m := Apply(d, a, anchor).value;
    NeighbourBack(d, anchor);
    var back := Apply(Inverse(d), m.cells, m.anchor).value;
    SwapTwice(a, m.cells, back.cells, anchor, m.anchor);
  }

  // ----- Paths -----

  /** Applies `path` in order; None as soon as one step is illegal. */
  function Replay(a: Cells, anchor: int, path: seq<Direction>): (r: Option<Moved>)
    requires Wf(a, anchor)
    ensures r.Some? ==> Wf(r.value.cells, r.value.anchor)
    decreases |path|
  {
    if path == [] then Some(Moved(a, anchor))
    else
      match Apply(path[0], a, anchor)
      case None => None
      case Some(m) => Replay(m.cells, m.anchor, path[1..])
  }

  /** Every replayed path permutes the cells, and a blank at the anchor follows the anchor. */
  lemma {:induction false} ReplayPermutes(a: Cells, anchor: int, path: seq<Direction>)
    requires Wf(a, anchor) && Replay(a, anchor, path).Some?
    ensures multiset(Replay(a, anchor, path).value.cells) == multiset(a)
    ensures a[anchor] == Blank ==> Replay(a, anchor, path).value.cells[Replay(a, anchor, path).value.anchor] == Blank
    decreases |path|
  {
    if path != [] {
      var m := Apply(path[0], a, anchor).value;
      ReplayPermutes(m.cells, m.anchor, path[1..]);
    }
  }

  /** Replaying one more step is replaying the prefix and then applying that step. */
  lemma {:induction false} ReplayAppend(a: Cells, anchor: int, path: seq<Direction>, d: Direction)
    requires Wf(a, anchor)
    ensures Replay(a, anchor, path + [d]) ==
            match Replay(a, anchor, path)
            case None => None
            case Some(m) => Apply(d, m.cells, m.anchor)
    decreases |path|
  {
    if path != [] {
      assert (path + [d])[0] == path[0];
      assert (path + [d])[1..] == path[1..] + [d];
      match Apply(path[0], a, anchor)
      case None =>
      case Some(m) => ReplayAppend(m.cells, m.anchor, path[1..], d);
    }
  }

  /** A replay that reached `m` extends by one legal step to wherever that step leads. */
  lemma ReplayExtend(a: Cells, anchor: int, path: seq<Direction>, d: Direction, m: Moved, n: Moved)
    requires Wf(a, anchor) && Wf(m.cells, m.anchor)
    requires Replay(a, anchor, path) == Some(m) && Apply(d, m.cells, m.anchor) == Some(n)
    ensures Replay(a, anchor, path + [d]) == Some(n)
  {
    ReplayAppend(a, anchor, path, d);
  }

  /** Like Replay, but an illegal step is skipped (what `Maze.move` does on the live board). */
  function Drive(a: Cells, anchor: int, path: seq<Direction>): (r: Moved)
    requires Wf(a, anchor)
    ensures Wf(r.cells, r.anchor)
    decreases |path|
  {
    if path == [] then Moved(a, anchor)
    else
      match Apply(path[0], a, anchor)
      case None => Drive(a, anchor, path[1..])
      case Some(m) => Drive(m.cells, m.anchor, path[1..])
  }

  /** Playing a path permutes the cells and carries the blank along with the anchor. */
  lemma {:induction false} DrivePermutes(a: Cells, anchor: int, path: seq<Direction>)
    requires Wf(a, anchor)
    ensures multiset(Drive(a, anchor, path).cells) == multiset(a)
    ensures a[anchor] == Blank ==> Drive(a, anchor, path).cells[Drive(a, anchor, path).anchor] == Blank
    decreases |path|
  {
    if path != [] {
      match Apply(path[0], a, anchor)
      case None => DrivePermutes(a, anchor, path[1..]);
      case Some(m) => DrivePermutes(m.cells, m.anchor, path[1..]);
    }
  }

  /** On a path whose every step is legal, skipping illegal steps changes nothing. */
  lemma {:induction false} DriveAgrees(a: Cells, anchor: int, path: seq<Direction>)
    requires Wf(a, anchor) && Replay(a, anchor, path).Some?
    ensures Drive(a, anchor, path) == Replay(a, anchor, path).value
    decreases |path|
  {
    if path != [] {
      var m := Apply(path[0], a, anchor).value;
      DriveAgrees(m.cells, m.anchor, path[1..]);
    }
  }

  /** The last direction of a path, or the source's sentinel -1 for the empty path. */
  function LastCode(path: seq<Direction>): (r: int)
    ensures -1 <= r < 4
    ensures r == -1 <==> path == []
  {
    if path == [] then -1 else Code(path[|path| - 1])
  }

  /** The source's skip test `last_direction == 3 - d` holds exactly when `d` would undo the last move. */
  lemma ReversesLast(path: seq<Direction>, d: Direction)
    ensures LastCode(path) == 3 - Code(d) <==> path != [] && path[|path| - 1] == Inverse(d)
  {
    if path != [] {
      var e := path[|path| - 1];
      assert Code(Inverse(d)) == 3 - Code(d);
      match e
      case Up =>
      case Left =>
      case Right =>
      case Down =>
    }
  }

  /** The path that walks `path` back: the inverses of its moves, last move first. */
  function Undo(path: seq<Direction>): (r: seq<Direction>)
    ensures |r| == |path|
    ensures forall i :: 0 <= i < |path| ==> r[i] == Inverse(path[|path| - 1 - i])
    decreases |path|
  {
    if path == [] then [] else [Inverse(path[|path| - 1])] + Undo(path[..|path| - 1])
  }

  /** Replaying a path that starts with a legal step is replaying the rest from where that step leads. */
  lemma ReplayCons(a: Cells, anchor: int, d: Direction, rest: seq<Direction>, m: Moved)
    requires Wf(a, anchor) && Apply(d, a, anchor) == Some(m)
    ensures Replay(a, anchor, [d] + rest) == Replay(m.cells, m.anchor, rest)
  {
    assert ([d] + rest)[0] == d && ([d] + rest)[1..] == rest;
  }

  /** The last step of a legal path can be taken back from where the path ends. */
  lemma StepBack(a: Cells, anchor: int, front: seq<Direction>, d: Direction, end: Moved) returns (mid: Moved)
    requires Wf(a, anchor) && Replay(a, anchor, front + [d]) == Some(end)
    ensures Replay(a, anchor, front) == Some(mid) && Wf(mid.cells, mid.anchor)
    ensures Wf(end.cells, end.anchor) && Apply(Inverse(d), end.cells, end.anchor) == Some(mid)
  {
    ReplayAppend(a, anchor, front, d);
    mid := Replay(a, anchor, front).value;
    ApplyUndo(d, mid.cells, mid.anchor);
  }

  /** Replaying the undo path from where a legal path ends returns to where it started. */
  lemma {:induction false} UndoReplay(a: Cells, anchor: int, path: seq<Direction>, end: Moved)
    requires Wf(a, anchor) && Replay(a, anchor, path) == Some(end)
    ensures Wf(end.cells, end.anchor) && Replay(end.cells, end.anchor, Undo(path)) == Some(Moved(a, anchor))
    decreases |path|
  {
    if path != [] {
      var front, d := path[..|path| - 1], path[|path| - 1];
      assert path == front + [d];
      var mid := StepBack(a, anchor, front, d, end);
      UndoReplay(a, anchor, front, mid);
      ReplayCons(end.cells, end.anchor, Inverse(d), Undo(front), mid);
      assert Undo(path) == [Inverse(d)] + Undo(front);
    }
  }

  /** On the solved board the blank can only be at the last cell. */
  lemma BlankHome(anchor: int)
    requires 0 <= anchor < 9 && Solved[anchor] == Blank
    ensures anchor == 8
  {
    TargetShape(9);
  }

  /** No move is immediately followed by its inverse. */
  predicate NoBacktrack(path: seq<Direction>)
  {
    forall i :: 1 <= i < |path| ==> path[i] != Inverse(path[i - 1])
  }
}
