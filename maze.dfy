/**
 * `Maze` (ninja-turtles.py), the interactive board, without its terminal.
 * The board is a nine-cell array changed in place by `Move`; `Init`
 * scrambles it with proposed directions (the source draws them with
 * `random.choice`; here they are an argument), `GoToTarget` plays a path
 * by name, and `SolveKey` is the 'f' key: ask the solver and play its
 * answer.
 *
 * The ghost field `history` records every accepted move since the solved
 * board; the class invariant ties the array to replaying it.
 */
module Game {
  import opened Wrappers
  import opened Board
  import Solver

  /** The state `init` threads through its loop: moves accepted so far, blank index, last direction. */
  datatype Scrambled = Scrambled(moves: seq<Direction>, anchor: int, last: int)

  /**
   * One draw of `init`'s loop: a proposal that reverses the last accepted
   * direction is skipped, an illegal one is rejected, and a legal one is
   * applied and remembered as the last direction. The flag says whether
   * the draw counted towards `count`.
   */
  function Draw(s: Scrambled, d: Direction): (r: (Scrambled, bool))
    ensures r.1 <==> s.last != 3 - Code(d) && Legal(d, s.anchor)
    ensures r.1 ==> r.0.moves == s.moves + [d] && r.0.last == Code(d)
    ensures r.1 ==> r.0.anchor == Neighbour(d, s.anchor) && 0 <= r.0.anchor < 9
    ensures !r.1 ==> r.0 == s
  {
    if s.last == 3 - Code(d) || !Legal(d, s.anchor) then (s, false)
    else (Scrambled(s.moves + [d], Neighbour(d, s.anchor), Code(d)), true)
  }

  /** What `init` does with the proposals, with `budget` moves still to accept. */
  function Scramble(s: Scrambled, props: seq<Direction>, budget: nat): (r: Scrambled)
    ensures 0 <= s.anchor < 9 ==> 0 <= r.anchor < 9
    ensures |s.moves| <= |r.moves|
    decreases |props|
  {
    if budget == 0 || props == [] then s
    else
      var r := Draw(s, props[0]);
      Scramble(r.0, props[1..], if r.1 then budget - 1 else budget)
  }

  /**
   * Only accepted moves spend the budget: a scramble that accepts fewer
   * moves than its budget stopped because the proposals ran out, so more
   * budget would not change it.
   */
  lemma {:induction false} OnlyAcceptedCount(s: Scrambled, props: seq<Direction>, budget: nat)
    ensures |Scramble(s, props, budget).moves| < |s.moves| + budget ==> Scramble(s, props, budget + 1) == Scramble(s, props, budget)
    decreases |props|
  {
    if budget != 0 && props != [] {
      var r := Draw(s, props[0]);
      var b := if r.1 then budget - 1 else budget;
      ScrambleBounded(r.0, props[1..], b);
      OnlyAcceptedCount(r.0, props[1..], b);
    }
  }

  /** Scrambling only appends moves, at most one per unit of budget. */
  lemma {:induction false} ScrambleBounded(s: Scrambled, props: seq<Direction>, budget: nat)
    ensures |s.moves| <= |Scramble(s, props, budget).moves| <= |s.moves| + budget
    ensures Scramble(s, props, budget).moves[..|s.moves|] == s.moves
    decreases |props|
  {
    if budget != 0 && props != [] {
      var d := props[0];
      if s.last == 3 - Code(d) || !Legal(d, s.anchor) {
        ScrambleBounded(s, props[1..], budget);
      } else {
        var t := Scrambled(s.moves + [d], Neighbour(d, s.anchor), Code(d));
        ScrambleBounded(t, props[1..], budget - 1);
        var r := Scramble(t, props[1..], budget - 1).moves;
        assert r[..|s.moves|] == r[..|t.moves|][..|s.moves|];
      }
    }
  }

  /** The last direction `init` remembers is the code of the last accepted move. */
  ghost predicate Remembers(s: Scrambled)
  {
    s.moves != [] ==> s.last == Code(s.moves[|s.moves| - 1])
  }

  /**
   * Scrambling never takes a move straight after its inverse, not even
   * across the remembered last direction it starts from.
   */
  lemma {:induction false} ScrambleNoBacktrack(s: Scrambled, props: seq<Direction>, budget: nat)
    requires NoBacktrack(s.moves) && Remembers(s)
    ensures NoBacktrack(Scramble(s, props, budget).moves) && Remembers(Scramble(s, props, budget))
    ensures |Scramble(s, props, budget).moves| > |s.moves| ==>
              Code(Scramble(s, props, budget).moves[|s.moves|]) != 3 - s.last
    decreases |props|
  {
    if budget != 0 && props != [] {
      var d := props[0];
      if s.last == 3 - Code(d) || !Legal(d, s.anchor) {
        ScrambleNoBacktrack(s, props[1..], budget);
      } else {
        var t := Scrambled(s.moves + [d], Neighbour(d, s.anchor), Code(d));
        forall i | 1 <= i < |t.moves|
          ensures t.moves[i] != Inverse(t.moves[i - 1])
        {
          if i < |s.moves| {
            assert t.moves[i] == s.moves[i] && t.moves[i - 1] == s.moves[i - 1];
          } else {
            assert t.moves[i] == d && t.moves[i - 1] == s.moves[|s.moves| - 1];
          }
        }
        ScrambleNoBacktrack(t, props[1..], budget - 1);
        ScrambleBounded(t, props[1..], budget - 1);
        var r := Scramble(t, props[1..], budget - 1).moves;
        assert r[|s.moves|] == r[..|t.moves|][|s.moves|] == d;
      }
    }
  }

  /** Scrambling only accepts legal moves: replaying them from the solved board never fails, and the blank ends where the scramble says. */
  lemma {:induction false} ScrambleLegal(s: Scrambled, props: seq<Direction>, budget: nat)
    requires Replay(Solved, 8, s.moves).Some? && Replay(Solved, 8, s.moves).value.anchor == s.anchor
    ensures Replay(Solved, 8, Scramble(s, props, budget).moves).Some?
    ensures Replay(Solved, 8, Scramble(s, props, budget).moves).value.anchor == Scramble(s, props, budget).anchor
    decreases |props|
  {
    if budget != 0 && props != [] {
      var r := Draw(s, props[0]);
      if r.1 {
        var m := Replay(Solved, 8, s.moves).value;
        ReplayAppend(Solved, 8, s.moves, props[0]);
        assert Apply(props[0], m.cells, m.anchor).Some?;
      }
      ScrambleLegal(r.0, props[1..], if r.1 then budget - 1 else budget);
    }
  }

  class Maze {
    /** `self.array`: the nine cells, changed in place. */
    const tiles: array<char>
    /** `self.anchor`: the blank's index. */
    var anchor: int
    /** `self.steps`: moves counted by the player or by `go_to_target`. */
    var steps: int
    /** `self.last_direction`: the code of the last move `init` accepted. */
    var lastDirection: int
    /** Every move the board has taken since it was solved. */
    ghost var history: seq<Direction>

    /** The board is what replaying `history` from the solved board gives. */
    ghost predicate Valid()
      reads this, tiles
    {
      && tiles.Length == 9
      && 0 <= anchor < 9
      && Replay(Solved, 8, history) == Some(Moved(tiles[..], anchor))
    }

    /** `Maze()`: the solved board, scrambled by `init(100)`, with the step counter reset. */
    constructor (proposals: seq<Direction>)
      ensures Valid() && fresh(tiles)
      ensures Scramble(Scrambled([], 8, 0), proposals, 100) == Scrambled(history, anchor, lastDirection)
      ensures |history| <= 100 && NoBacktrack(history)
      ensures |history| < 100 ==> Scramble(Scrambled([], 8, 0), proposals, 101) == Scramble(Scrambled([], 8, 0), proposals, 100)
      ensures steps == 0
    {
      tiles := new char[9](i requires 0 <= i < 9 => Solved[i]);
      anchor := 8;
      steps := 0;
      lastDirection := 0;
      history := [];
      new;
      assert tiles[..] == Solved;
      Init(100, proposals);
      steps := 0;
      ScrambleBounded(Scrambled([], 8, 0), proposals, 100);
      OnlyAcceptedCount(Scrambled([], 8, 0), proposals, 100);
      ScrambleNoBacktrack(Scrambled([], 8, 0), proposals, 100);
    }

    /** Every board the game shows can be solved: walking the history back returns to the solved board. */
    lemma Solvable()
      requires Valid()
      ensures Replay(tiles[..], anchor, Undo(history)) == Some(Moved(Solved, 8))
    {
      UndoReplay(Solved, 8, history, Moved(tiles[..], anchor));
    }

    /** `up()`: the index the blank moves to, or None on the top row. */
    function Up(): (r: Option<int>)
      reads this
      ensures 0 <= anchor < 9 ==> (r.None? <==> !Legal(Board.Up, anchor))
      ensures 0 <= anchor < 9 && r.Some? ==> r.value == Neighbour(Board.Up, anchor)
    {
      if anchor <= 2 then None else Some(anchor - 3)
    }

    /** `down()`: the index the blank moves to, or None on the bottom row. */
    function Down(): (r: Option<int>)
      reads this
      ensures 0 <= anchor < 9 ==> (r.None? <==> !Legal(Board.Down, anchor))
      ensures 0 <= anchor < 9 && r.Some? ==> r.value == Neighbour(Board.Down, anchor)
    {
      if anchor + 3 >= 9 then None else Some(anchor + 3)
    }

    /** `left()`: the index the blank moves to, or None in the left column. */
    function Left(): (r: Option<int>)
      reads this
      ensures 0 <= anchor < 9 ==> (r.None? <==> !Legal(Board.Left, anchor))
      ensures 0 <= anchor < 9 && r.Some? ==> r.value == Neighbour(Board.Left, anchor)
    {
      if anchor % 3 == 0 then None else Some(anchor - 1)
    }

    /** `right()`: the index the blank moves to, or None in the right column. */
    function Right(): (r: Option<int>)
      reads this
      ensures 0 <= anchor < 9 ==> (r.None? <==> !Legal(Board.Right, anchor))
      ensures 0 <= anchor < 9 && r.Some? ==> r.value == Neighbour(Board.Right, anchor)
    {
      if anchor % 3 == 2 then None else Some(anchor + 1)
    }

    /** The dispatch at the head of `move`: the neighbour the blank would move to, by direction code. */
    function Destination(direction: int): (r: Option<int>)
      reads this
      ensures 0 <= anchor < 9 ==> (r.Some? <==> FromCode(direction).Some? && Legal(FromCode(direction).value, anchor))
      ensures 0 <= anchor < 9 && r.Some? ==> r.value == Neighbour(FromCode(direction).value, anchor)
    {
      if direction == 0 then Up()
      else if direction == 3 then Down()
      else if direction == 1 then Left()
      else if direction == 2 then Right()
      else None
    }

    /**
     * `move(direction)`: an unknown code or a move off the board returns
     * false and changes nothing; otherwise the blank swaps with its
     * neighbour in place, exactly as the solver's move of that direction.
     */
    method Move(direction: int) returns (ok: bool)
      requires Valid()
      modifies this, tiles
      ensures Valid()
      ensures ok <==> FromCode(direction).Some? && Legal(FromCode(direction).value, old(anchor))
      ensures ok ==> && Apply(FromCode(direction).value, old(tiles[..]), old(anchor)) == Some(Moved(tiles[..], anchor))
                     && history == old(history) + [FromCode(direction).value]
      ensures !ok ==> tiles[..] == old(tiles[..]) && anchor == old(anchor) && history == old(history)
      ensures steps == old(steps) && lastDirection == old(lastDirection)
    {
      var dest := Destination(direction);
      if dest.None? {
        return false;
      }
      Slide(FromCode(direction).value, dest.value);
      return true;
    }

    /** The in-place swap of `move`: the blank and its neighbour in direction `d` exchange cells. */
    method Slide(ghost d: Direction, dest: int)
      requires Valid() && Legal(d, anchor) && dest == Neighbour(d, anchor)
      modifies this, tiles
      ensures Valid()
      ensures Apply(d, old(tiles[..]), old(anchor)) == Some(Moved(tiles[..], anchor))
      ensures history == old(history) + [d]
      ensures steps == old(steps) && lastDirection == old(lastDirection)
    {
      ghost var m := Apply(d, tiles[..], anchor).value;
      assert m.anchor == dest && Swapped(tiles[..], m.cells, anchor, dest);
      tiles[dest], tiles[anchor] := tiles[anchor], tiles[dest];
      anchor := dest;
      history := history + [d];
      assert tiles[..] == m.cells;
      ReplayExtend(Solved, 8, old(history), d, Moved(old(tiles[..]), old(anchor)), m);
    }

    /** `resolved()`: the board reads "12345678 ". */
    function Resolved(): (r: bool)
      reads this, tiles
      ensures r <==> tiles[..] == "12345678 "
      ensures r <==> tiles[..] == Solved
    {
      SolvedSpelled();
      tiles[..] == Solved
    }

    /** The blank sits at `anchor`, and the cells are always a permutation of "12345678 ". */
    lemma BlankAtAnchor()
      requires Valid()
      ensures tiles[anchor] == Blank && multiset(tiles[..]) == multiset(Solved)
    {
      TargetShape(9);
      ReplayPermutes(Solved, 8, history);
    }

    /** A resolved board has the blank back in the corner. */
    lemma ResolvedHome()
      requires Valid() && Resolved()
      ensures anchor == 8
    {
      BlankAtAnchor();
      BlankHome(anchor);
    }

    /**
     * `init(count)`: proposals are drawn in order until `count` moves have
     * been accepted (or the proposals run out); a proposal reversing the
     * last accepted direction is skipped and an illegal one is rejected,
     * and neither counts.
     */
    method Init(count: nat, proposals: seq<Direction>)
      requires Valid()
      modifies this, tiles
      ensures Valid()
      ensures Scramble(Scrambled(old(history), old(anchor), old(lastDirection)), proposals, count)
              == Scrambled(history, anchor, lastDirection)
      ensures steps == old(steps)
    {
      var i := 1;
      var k := 0;
      while i <= count && k < |proposals|
        invariant Valid()
        invariant 1 <= i <= count + 1 && 0 <= k <= |proposals|
        invariant Scramble(Scrambled(history, anchor, lastDirection), proposals[k..], count - i + 1)
                  == Scramble(Scrambled(old(history), old(anchor), old(lastDirection)), proposals, count)
        invariant steps == old(steps)
        decreases |proposals| - k
      {
        var counted := Propose(proposals[k]);
        assert proposals[k..][1..] == proposals[k + 1..];
        k := k + 1;
        if counted {
          i := i + 1;
        }
      }
    }

    /** The body of `init`'s loop for one proposed direction: skip it, or try the move and remember it. */
    method Propose(d: Direction) returns (counted: bool)
      requires Valid()
      modifies this, tiles
      ensures Valid() && steps == old(steps)
      ensures (Scrambled(history, anchor, lastDirection), counted) == Draw(Scrambled(old(history), old(anchor), old(lastDirection)), d)
    {
      if lastDirection == 3 - Code(d) {
        return false;
      }
      CodeRoundTrip(d);
      counted := Move(Code(d));
      if counted {
        lastDirection := Code(d);
      }
    }

    /** `go_to_target(pathes)`: plays each named direction and counts a step for each, legal or not. */
    method GoToTarget(path: seq<Direction>)
      requires Valid()
      modifies this, tiles
      ensures Valid()
      ensures Moved(tiles[..], anchor) == Drive(old(tiles[..]), old(anchor), path)
      ensures steps == old(steps) + |path| && lastDirection == old(lastDirection)
    {
      for i := 0 to |path|
        invariant Valid()
        invariant Drive(tiles[..], anchor, path[i..]) == Drive(old(tiles[..]), old(anchor), path)
        invariant steps == old(steps) + i && lastDirection == old(lastDirection)
      {
        var p := path[i];
        assert path[i..][0] == p && path[i..][1..] == path[i + 1..];
        CodeRoundTrip(p);
        var ok := Move(DirectionCodes[Name(p)]);
        steps := steps + 1;
      }
    }

    /**
     * The 'f' key of `run`: solve the current board and play the answer.
     * When the solver answers, the board ends solved with the blank in the
     * corner; otherwise nothing changes.
     */
    method SolveKey() returns (found: bool)
      requires Valid()
      modifies this, tiles
      ensures Valid()
      ensures found <==> Solver.Search(old(tiles[..]), old(anchor)).Some?
      ensures found ==> Resolved() && anchor == 8
      ensures found ==> steps == old(steps) + |Solver.Search(old(tiles[..]), old(anchor)).value|
      ensures !found ==> tiles[..] == old(tiles[..]) && anchor == old(anchor) && steps == old(steps)
      ensures lastDirection == old(lastDirection)
    {
      var r := Solver.FindSolution(tiles[..], anchor);
      if r.None? {
        return false;
      }
      Solver.SearchSound(tiles[..], anchor);
      DriveAgrees(tiles[..], anchor, r.value);
      GoToTarget(r.value);
      found := Resolved();
      assert found;
      ResolvedHome();
    }
  }
}
