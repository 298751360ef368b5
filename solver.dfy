/**
 * `MazeSolution.find_solution` (ninja-turtles.py): a search from a start
 * board to the solved board over legal blank moves, with a visited set and
 * a rule that never takes the inverse of a node's last move.
 *
 * `Search`/`Explore`/`Expand` specify the search on a FIFO queue: the front
 * node is expanded, its children are appended at the back in the order
 * UP, LEFT, RIGHT, DOWN.  `FindSolution` is the source's loop over a list
 * that receives children with `insert(0, ...)` and yields nodes with
 * `pop()`; it is proved to compute exactly `Search`.  Termination is proved
 * without a bound: every board ever visited is a word of length 9 over the
 * start board's characters, and the loop either visits a new board or
 * shrinks the queue.
 */
module Solver {
  import opened Wrappers
  import opened Board

  /** The order in which `find_solution` tries directions (`ds`). */
  const Order: seq<Direction> := [Up, Left, Right, Down]

  /** A search node: a board, its blank index and the moves that reached it. */
  datatype Node = Node(cells: Cells, anchor: int, path: seq<Direction>)

  // ----- The finite universe that bounds the search -----

  function Alphabet(a: Cells): set<char>
  {
    set i | 0 <= i < |a| :: a[i]
  }

  /** All words of length `n` over `alpha`. */
  ghost function Words(alpha: set<char>, n: nat): set<Cells>
  {
    if n == 0 then {[]}
    else set c, w | c in alpha && w in Words(alpha, n - 1) :: [c] + w
  }

  ghost function Universe(alpha: set<char>): set<Cells>
  {
    Words(alpha, 9)
  }

  ghost predicate Over(a: Cells, alpha: set<char>)
  {
    forall i :: 0 <= i < |a| ==> a[i] in alpha
  }

  lemma {:induction false} InWords(alpha: set<char>, n: nat, s: Cells)
    requires |s| == n && Over(s, alpha)
    ensures s in Words(alpha, n)
  {
    if n > 0 {
      InWords(alpha, n - 1, s[1..]);
      assert s == [s[0]] + s[1..];
    }
  }

  /** Moving the blank keeps a board inside the words over its alphabet. */
  lemma MoveStaysOver(d: Direction, a: Cells, anchor: int, alpha: set<char>)
    requires Wf(a, anchor) && Over(a, alpha) && Apply(d, a, anchor).Some?
    ensures Over(Apply(d, a, anchor).value.cells, alpha)
    ensures Apply(d, a, anchor).value.cells in Universe(alpha)
  {
    var m := Apply(d, a, anchor).value;
    forall i | 0 <= i < 9
      ensures m.cells[i] in alpha
    {
      if i == anchor {
        assert m.cells[i] == a[m.anchor];
      } else if i == m.anchor {
        assert m.cells[i] == a[anchor];
      } else {
        assert m.cells[i] == a[i];
      }
    }
    InWords(alpha, 9, m.cells);
  }

  /** Visiting a new board of the universe leaves fewer boards unvisited. */
  lemma Grown<T>(u: set<T>, v: set<T>, v': set<T>)
    requires v <= v' <= u
    ensures |u - v'| <= |u - v|
    ensures v' != v ==> |u - v'| < |u - v|
  {
    var a, b := u - v', (u - v) - (u - v');
    assert u - v == a + b;
    assert a * b == {};
    if v' != v {
      assert !(v' <= v);
      var x :| x in v' && x !in v;
      assert x in b;
    }
  }

  ghost predicate NodeOk(n: Node, alpha: set<char>)
  {
    Wf(n.cells, n.anchor) && Over(n.cells, alpha)
  }

  ghost predicate QueueOk(q: seq<Node>, alpha: set<char>)
  {
    forall k :: 0 <= k < |q| ==> NodeOk(q[k], alpha)
  }

  // ----- The specification: a FIFO search -----

  /** The outcome of expanding one node: a solution, or the new queue and visited set. */
  datatype Step = Found(path: seq<Direction>) | Pending(queue: seq<Node>, visited: set<Cells>)

  /**
   * One iteration of the direction loop: skips the inverse of the node's
   * last move and an illegal move, stops at a child equal to the solved
   * board, skips a visited child and appends any other at the back.
   */
  function Try(node: Node, d: Direction, queue: seq<Node>, visited: set<Cells>, ghost alpha: set<char>): (r: Step)
    requires NodeOk(node, alpha) && QueueOk(queue, alpha) && visited <= Universe(alpha)
    ensures r.Pending? ==> QueueOk(r.queue, alpha) && visited <= r.visited <= Universe(alpha)
    ensures r.Pending? && r.visited == visited ==> r.queue == queue
    ensures r.Found? ==> r.path != []
  {
    if LastCode(node.path) == 3 - Code(d) then Pending(queue, visited)
    else
      match Apply(d, node.cells, node.anchor)
      case None => Pending(queue, visited)
      case Some(m) =>
        if m.cells == Solved then Found(node.path + [d])
        else if m.cells in visited then Pending(queue, visited)
        else
          MoveStaysOver(d, node.cells, node.anchor, alpha);
          Pending(queue + [Node(m.cells, m.anchor, node.path + [d])], visited + {m.cells})
  }

  /** Expands `node` along `dirs`, in order, until a child is the solved board. */
  function Expand(node: Node, dirs: seq<Direction>, queue: seq<Node>, visited: set<Cells>, ghost alpha: set<char>): (r: Step)
    requires NodeOk(node, alpha) && QueueOk(queue, alpha) && visited <= Universe(alpha)
    ensures r.Pending? ==> QueueOk(r.queue, alpha) && visited <= r.visited <= Universe(alpha)
    ensures r.Pending? && r.visited == visited ==> r.queue == queue
    ensures r.Found? ==> r.path != []
    decreases |dirs|
  {
    if dirs == [] then Pending(queue, visited)
    else
      match Try(node, dirs[0], queue, visited, alpha)
      case Found(p) => Found(p)
      case Pending(q, v) => Expand(node, dirs[1..], q, v, alpha)
  }

  /** Expands the front of the queue until a solution is found or the queue is empty. */
  function Explore(queue: seq<Node>, visited: set<Cells>, ghost alpha: set<char>): (r: Option<seq<Direction>>)
    requires QueueOk(queue, alpha) && visited <= Universe(alpha)
    ensures r.Some? ==> r.value != []
    decreases |Universe(alpha) - visited|, |queue|
  {
    if queue == [] then None
    else
      match Expand(queue[0], Order, queue[1..], visited, alpha)
      case Found(p) => Some(p)
      case Pending(q, v) =>
        Grown(Universe(alpha), visited, v);
        Explore(q, v, alpha)
  }

  /** The search from a start board: the empty path if it is solved, else the FIFO exploration. */
  function Search(start: Cells, anchor: int): (r: Option<seq<Direction>>)
    requires Wf(start, anchor)
    ensures r == Some([]) <==> start == Solved
  {
    if start == Solved then Some([])
    else
      var alpha := Alphabet(start);
      InWords(alpha, 9, start);
      Explore([Node(start, anchor, [])], {start}, alpha)
  }

  // ----- The source's loop -----

  /** The list read from its end: the order in which `pop()` yields the entries. */
  function Reverse<T>(s: seq<T>): (r: seq<T>)
    ensures |r| == |s|
    ensures forall i :: 0 <= i < |s| ==> r[i] == s[|s| - 1 - i]
    decreases |s|
  {
    if s == [] then [] else [s[|s| - 1]] + Reverse(s[..|s| - 1])
  }

  /** `insert(0, x)` on the list appends `x` at the back of the queue it stands for. */
  lemma ReversePush<T>(x: T, s: seq<T>)
    ensures Reverse([x] + s) == Reverse(s) + [x]
  {
    var l, r := Reverse([x] + s), Reverse(s) + [x];
    assert forall i :: 0 <= i < |l| ==> l[i] == r[i];
  }

  /**
   * The body of `find_solution`'s `for d in range(4)` loop for one popped
   * node: children are inserted at the front of the list, so they join the
   * back of the queue; a child equal to the solved board ends the search.
   */
  method ExpandNode(node: Node, stack: seq<Node>, visited: set<Cells>, ghost alpha: set<char>)
    returns (found: Option<seq<Direction>>, stack': seq<Node>, visited': set<Cells>)
    requires NodeOk(node, alpha) && QueueOk(Reverse(stack), alpha) && visited <= Universe(alpha)
    ensures found.Some? ==> Expand(node, Order, Reverse(stack), visited, alpha) == Found(found.value)
    ensures found.None? ==> Expand(node, Order, Reverse(stack), visited, alpha) == Pending(Reverse(stack'), visited')
  {
    stack', visited' := stack, visited;
    for i := 0 to 4
      invariant QueueOk(Reverse(stack'), alpha) && visited' <= Universe(alpha)
      invariant Expand(node, Order[i..], Reverse(stack'), visited', alpha) == Expand(node, Order, Reverse(stack), visited, alpha)
    {
      var d := Order[i];
      ghost var step := Try(node, d, Reverse(stack'), visited', alpha);
      assert Order[i..][0] == d && Order[i..][1..] == Order[i + 1..];
      if LastCode(node.path) == 3 - Code(d) {
        continue;
      }
      var m := Apply(d, node.cells, node.anchor);
      if m.None? {
        continue;
      }
      if m.value.cells == Solved {
        return Some(node.path + [d]), stack', visited';
      }
      if m.value.cells in visited' {
        continue;
      }
      var child := Node(m.value.cells, m.value.anchor, node.path + [d]);
      assert step == Pending(Reverse(stack') + [child], visited' + {m.value.cells});
      ReversePush(child, stack');
      stack' := [child] + stack';
      visited' := visited' + {m.value.cells};
    }
    found := None;
  }

  /**
   * One pass of `find_solution`'s `while stack` loop: `pop()` the node at the
   * end of the list (the front of the queue) and expand it.
   */
  method Round(stack: seq<Node>, visited: set<Cells>, ghost alpha: set<char>)
    returns (found: Option<seq<Direction>>, stack': seq<Node>, visited': set<Cells>)
    requires stack != [] && QueueOk(Reverse(stack), alpha) && visited <= Universe(alpha)
    ensures found.Some? ==> Explore(Reverse(stack), visited, alpha) == found
    ensures found.None? ==> QueueOk(Reverse(stack'), alpha) && visited <= visited' <= Universe(alpha)
    ensures found.None? ==> Explore(Reverse(stack'), visited', alpha) == Explore(Reverse(stack), visited, alpha)
    ensures found.None? && visited' == visited ==> |stack'| < |stack|
    ensures found.None? && visited' != visited ==> |Universe(alpha) - visited'| < |Universe(alpha) - visited|
  {
    ghost var queue := Reverse(stack);
    var node := stack[|stack| - 1];
    var rest := stack[..|stack| - 1];
    assert queue[0] == node && queue[1..] == Reverse(rest);
    found, stack', visited' := ExpandNode(node, rest, visited, alpha);
    if found.None? {
      Grown(Universe(alpha), visited, visited');
    }
  }

  /** The list `find_solution` starts from holds just the start node, and exploring it is the search. */
  lemma SearchStarts(start: Cells, anchor: int)
    requires Wf(start, anchor) && start != Solved
    ensures QueueOk(Reverse([Node(start, anchor, [])]), Alphabet(start))
    ensures {start} <= Universe(Alphabet(start))
    ensures Enqueued(Reverse([Node(start, anchor, [])]), {start})
    ensures Explore(Reverse([Node(start, anchor, [])]), {start}, Alphabet(start)) == Search(start, anchor)
  {
    InWords(Alphabet(start), 9, start);
    assert Reverse([Node(start, anchor, [])]) == [Node(start, anchor, [])];
  }

  /** `find_solution`, on the source's list: children go in at the front, nodes come out at the end. */
  method FindSolution(start: Cells, anchor: int) returns (r: Option<seq<Direction>>)
    requires Wf(start, anchor)
    ensures r == Search(start, anchor)
  {
    if start == Solved {
      return Some([]);
    }
    ghost var alpha := Alphabet(start);
    var stack := [Node(start, anchor, [])];
    var visited := {start};
    SearchStarts(start, anchor);
    while stack != []
      invariant QueueOk(Reverse(stack), alpha) && visited <= Universe(alpha)
      invariant Explore(Reverse(stack), visited, alpha) == Search(start, anchor)
      decreases |Universe(alpha) - visited|, |stack|
    {
      var found;
      found, stack, visited := Round(stack, visited, alpha);
      if found.Some? {
        return found;
      }
    }
    return None;
  }

  // ----- What the search promises -----

  /** `p` is legal step by step from the start, never undoes its last move, and ends on the solved board. */
  ghost predicate Solves(start: Cells, anchor: int, p: seq<Direction>)
    requires Wf(start, anchor)
  {
    Replay(start, anchor, p).Some? && Replay(start, anchor, p).value.cells == Solved && NoBacktrack(p)
  }

  /** A node's board is what its path produces from the start, and its path never backtracks. */
  ghost predicate Reached(start: Cells, anchor: int, n: Node)
    requires Wf(start, anchor)
  {
    Replay(start, anchor, n.path) == Some(Moved(n.cells, n.anchor)) && NoBacktrack(n.path)
  }

  ghost predicate AllReached(start: Cells, anchor: int, q: seq<Node>)
    requires Wf(start, anchor)
  {
    forall k :: 0 <= k < |q| ==> Reached(start, anchor, q[k])
  }

  /** A child's path is its parent's extended by one legal move that does not undo the last one. */
  lemma ChildReached(start: Cells, a0: int, node: Node, d: Direction)
    requires Wf(start, a0) && Wf(node.cells, node.anchor) && Reached(start, a0, node)
    requires LastCode(node.path) != 3 - Code(d) && Apply(d, node.cells, node.anchor).Some?
    ensures Replay(start, a0, node.path + [d]) == Apply(d, node.cells, node.anchor)
    ensures NoBacktrack(node.path + [d])
  {
    ReplayAppend(start, a0, node.path, d);
    ReversesLast(node.path, d);
    var p := node.path + [d];
    forall i | 1 <= i < |p|
      ensures p[i] != Inverse(p[i - 1])
    {
      if i < |node.path| {
        assert p[i] == node.path[i] && p[i - 1] == node.path[i - 1];
      } else {
        var last := node.path[|node.path| - 1];
        assert p[i] == d && p[i - 1] == last;
        assert last != Inverse(d);
        assert d != Inverse(last) by {
          match last
          case Up =>
          case Left =>
          case Right =>
          case Down =>
        }
      }
    }
  }

  /** Trying one direction only finds solutions, and only queues boards their paths reach. */
  lemma TrySound(start: Cells, a0: int, node: Node, d: Direction,
                 queue: seq<Node>, visited: set<Cells>, alpha: set<char>)
    requires Wf(start, a0)
    requires NodeOk(node, alpha) && QueueOk(queue, alpha) && visited <= Universe(alpha)
    requires Reached(start, a0, node) && AllReached(start, a0, queue)
    ensures match Try(node, d, queue, visited, alpha)
            case Found(p) => Solves(start, a0, p)
            case Pending(q, _) => AllReached(start, a0, q)
  {
    var r := Try(node, d, queue, visited, alpha);
    if LastCode(node.path) == 3 - Code(d) {
      assert r == Pending(queue, visited);
    } else {
      match Apply(d, node.cells, node.anchor)
      case None =>
        assert r == Pending(queue, visited);
      case Some(m) =>
        ChildReached(start, a0, node, d);
        var child := Node(m.cells, m.anchor, node.path + [d]);
        assert Reached(start, a0, child);
        if m.cells == Solved {
          assert r == Found(child.path);
        } else if m.cells in visited {
          assert r == Pending(queue, visited);
        } else {
          var q := queue + [child];
          assert r == Pending(q, visited + {m.cells});
          forall k | 0 <= k < |q|
            ensures Reached(start, a0, q[k])
          {
            if k < |queue| {
              assert q[k] == queue[k];
            }
          }
        }
    }
  }

  /** Expanding a node only finds solutions, and only queues boards their paths reach. */
  lemma {:induction false} ExpandSound(start: Cells, a0: int, node: Node, dirs: seq<Direction>,
                                       queue: seq<Node>, visited: set<Cells>, alpha: set<char>)
    requires Wf(start, a0)
    requires NodeOk(node, alpha) && QueueOk(queue, alpha) && visited <= Universe(alpha)
    requires Reached(start, a0, node) && AllReached(start, a0, queue)
    ensures match Expand(node, dirs, queue, visited, alpha)
            case Found(p) => Solves(start, a0, p)
            case Pending(q, _) => AllReached(start, a0, q)
    decreases |dirs|
  {
    if dirs != [] {
      TrySound(start, a0, node, dirs[0], queue, visited, alpha);
      match Try(node, dirs[0], queue, visited, alpha)
      case Found(p) =>
      case Pending(q, v) =>
        ExpandSound(start, a0, node, dirs[1..], q, v, alpha);
    }
  }

  lemma {:induction false} ExploreSound(start: Cells, a0: int, queue: seq<Node>, visited: set<Cells>, alpha: set<char>)
    requires Wf(start, a0)
    requires QueueOk(queue, alpha) && visited <= Universe(alpha) && AllReached(start, a0, queue)
    ensures Explore(queue, visited, alpha).Some? ==> Solves(start, a0, Explore(queue, visited, alpha).value)
    decreases |Universe(alpha) - visited|, |queue|
  {
    if queue != [] {
      ExpandSound(start, a0, queue[0], Order, queue[1..], visited, alpha);
      match Expand(queue[0], Order, queue[1..], visited, alpha)
      case Found(p) =>
      case Pending(q, v) =>
        Grown(Universe(alpha), visited, v);
        ExploreSound(start, a0, q, v, alpha);
    }
  }

  /**
   * A path the search returns replays, step by step, from the start to the
   * solved board and never takes a move straight after its inverse; it is
   * empty exactly when the start is already solved.
   */
  lemma SearchSound(start: Cells, anchor: int)
    requires Wf(start, anchor)
    ensures Search(start, anchor).Some? ==> Solves(start, anchor, Search(start, anchor).value)
    ensures Search(start, anchor).Some? ==> (Search(start, anchor).value == [] <==> start == Solved)
  {
    if start != Solved {
      var alpha := Alphabet(start);
      InWords(alpha, 9, start);
      assert Reached(start, anchor, Node(start, anchor, []));
      ExploreSound(start, anchor, [Node(start, anchor, [])], {start}, alpha);
    }
  }

  // ----- The frontier discipline -----

  /** Every queued board is in `visited`, and no board is queued twice. */
  predicate Enqueued(queue: seq<Node>, visited: set<Cells>)
  {
    && (forall k :: 0 <= k < |queue| ==> queue[k].cells in visited)
    && (forall i, j :: 0 <= i < j < |queue| ==> queue[i].cells != queue[j].cells)
  }

  /**
   * What one direction does to the frontier: it stops with the parent's
   * path plus `d` on the solved board; it appends one child, never seen
   * before, at the back and marks it visited; or it changes nothing.
   */
  lemma TryAppends(node: Node, d: Direction, queue: seq<Node>, visited: set<Cells>, alpha: set<char>)
    requires NodeOk(node, alpha) && QueueOk(queue, alpha) && visited <= Universe(alpha)
    ensures Try(node, d, queue, visited, alpha).Found? ==>
              && LastCode(node.path) != 3 - Code(d)
              && Apply(d, node.cells, node.anchor).Some?
              && Apply(d, node.cells, node.anchor).value.cells == Solved
              && Try(node, d, queue, visited, alpha).path == node.path + [d]
    ensures Try(node, d, queue, visited, alpha).Pending? && Try(node, d, queue, visited, alpha).visited != visited ==>
              && LastCode(node.path) != 3 - Code(d)
              && Apply(d, node.cells, node.anchor).Some?
              && var m := Apply(d, node.cells, node.anchor).value;
              && m.cells != Solved && m.cells !in visited
              && Try(node, d, queue, visited, alpha) == Pending(queue + [Node(m.cells, m.anchor, node.path + [d])], visited + {m.cells})
    ensures Try(node, d, queue, visited, alpha).Pending? ==>
              && |queue| <= |Try(node, d, queue, visited, alpha).queue|
              && Try(node, d, queue, visited, alpha).queue[..|queue|] == queue
  {
  }

  /** Appending a board not yet visited, and marking it, keeps the frontier discipline. */
  lemma AppendEnqueued(queue: seq<Node>, visited: set<Cells>, c: Node)
    requires Enqueued(queue, visited) && c.cells !in visited
    ensures Enqueued(queue + [c], visited + {c.cells})
  {
    var q := queue + [c];
    forall i, j | 0 <= i < j < |q|
      ensures q[i].cells != q[j].cells
    {
      assert q[i] == queue[i];
      if j < |queue| {
        assert q[j] == queue[j];
      }
    }
    forall k | 0 <= k < |q|
      ensures q[k].cells in visited + {c.cells}
    {
      if k < |queue| {
        assert q[k] == queue[k];
      }
    }
  }

  /** One direction keeps the frontier discipline. */
  lemma TryEnqueued(node: Node, d: Direction, queue: seq<Node>, visited: set<Cells>, alpha: set<char>)
    requires NodeOk(node, alpha) && QueueOk(queue, alpha) && visited <= Universe(alpha)
    requires Enqueued(queue, visited)
    ensures Try(node, d, queue, visited, alpha).Pending? ==>
              Enqueued(Try(node, d, queue, visited, alpha).queue, Try(node, d, queue, visited, alpha).visited)
  {
    TryAppends(node, d, queue, visited, alpha);
    var r := Try(node, d, queue, visited, alpha);
    if r.Pending? && r.visited != visited {
      var m := Apply(d, node.cells, node.anchor).value;
      AppendEnqueued(queue, visited, Node(m.cells, m.anchor, node.path + [d]));
    }
  }

  /**
   * Expanding a node only appends at the back of the frontier and keeps its
   * discipline: the nodes already queued keep their order in front.
   */
  lemma {:induction false} ExpandEnqueued(node: Node, dirs: seq<Direction>, queue: seq<Node>, visited: set<Cells>, alpha: set<char>)
    requires NodeOk(node, alpha) && QueueOk(queue, alpha) && visited <= Universe(alpha)
    requires Enqueued(queue, visited)
    ensures Expand(node, dirs, queue, visited, alpha).Pending? ==>
              && Enqueued(Expand(node, dirs, queue, visited, alpha).queue, Expand(node, dirs, queue, visited, alpha).visited)
              && |queue| <= |Expand(node, dirs, queue, visited, alpha).queue|
              && Expand(node, dirs, queue, visited, alpha).queue[..|queue|] == queue
    decreases |dirs|
  {
    if dirs != [] {
      TryEnqueued(node, dirs[0], queue, visited, alpha);
      var t := Try(node, dirs[0], queue, visited, alpha);
      assert t.Pending? ==> |queue| <= |t.queue| && t.queue[..|queue|] == queue by {
        TryAppends(node, dirs[0], queue, visited, alpha);
      }
      match Try(node, dirs[0], queue, visited, alpha)
      case Found(p) =>
      case Pending(q, v) =>
        ExpandEnqueued(node, dirs[1..], q, v, alpha);
        var q' := Expand(node, dirs[1..], q, v, alpha);
        if q'.Pending? {
          assert q'.queue[..|queue|] == q'.queue[..|q|][..|queue|];
        }
    }
  }

  /** The codes of `dirs` strictly increase, as they do along `Order`. */
  predicate Ascending(dirs: seq<Direction>)
  {
    forall i, j :: 0 <= i < j < |dirs| ==> Code(dirs[i]) < Code(dirs[j])
  }

  /**
   * `kids` are children of `node`: each path is the parent's path plus one
   * direction of `dirs`, and those directions come in increasing code order.
   */
  ghost predicate ChildrenInOrder(node: Node, dirs: seq<Direction>, kids: seq<Node>)
  {
    && (forall k :: 0 <= k < |kids| ==>
          |kids[k].path| == |node.path| + 1 && kids[k].path[..|node.path|] == node.path && kids[k].path[|node.path|] in dirs)
    && (forall i, j :: 0 <= i < j < |kids| ==> Code(kids[i].path[|node.path|]) < Code(kids[j].path[|node.path|]))
  }

  /** A child along the first direction goes in front of children along the later ones. */
  lemma ChildrenCons(node: Node, dirs: seq<Direction>, c: Node, kids: seq<Node>)
    requires Ascending(dirs) && dirs != []
    requires c.path == node.path + [dirs[0]]
    requires ChildrenInOrder(node, dirs[1..], kids)
    ensures ChildrenInOrder(node, dirs, [c] + kids)
  {
    var all := [c] + kids;
    var n := |node.path|;
    forall k | 0 <= k < |kids|
      ensures Code(dirs[0]) < Code(kids[k].path[n])
    {
      var j :| 0 <= j < |dirs[1..]| && dirs[1..][j] == kids[k].path[n];
      assert dirs[j + 1] == kids[k].path[n];
    }
    forall k | 0 <= k < |all|
      ensures |all[k].path| == n + 1 && all[k].path[..n] == node.path && all[k].path[n] in dirs
    {
      if k > 0 {
        assert all[k] == kids[k - 1];
        var j :| 0 <= j < |dirs[1..]| && dirs[1..][j] == kids[k - 1].path[n];
        assert dirs[j + 1] == all[k].path[n];
      }
    }
    forall i, j | 0 <= i < j < |all|
      ensures Code(all[i].path[n]) < Code(all[j].path[n])
    {
      assert all[j] == kids[j - 1];
      if i > 0 {
        assert all[i] == kids[i - 1];
      }
    }
  }

  /** Children along a part of `dirs` are children along `dirs`. */
  lemma ChildrenWiden(node: Node, dirs: seq<Direction>, kids: seq<Node>)
    requires dirs != [] && ChildrenInOrder(node, dirs[1..], kids)
    ensures ChildrenInOrder(node, dirs, kids)
  {
    forall k | 0 <= k < |kids|
      ensures kids[k].path[|node.path|] in dirs
    {
      var j :| 0 <= j < |dirs[1..]| && dirs[1..][j] == kids[k].path[|node.path|];
      assert dirs[j + 1] == kids[k].path[|node.path|];
    }
  }

  /**
   * The children that expanding a node appends behind the old queue are
   * its path plus one direction each, in the order of `dirs`: with
   * `Order`, UP before LEFT before RIGHT before DOWN.
   */
  lemma {:induction false} ExpandOrder(node: Node, dirs: seq<Direction>, queue: seq<Node>, visited: set<Cells>, alpha: set<char>)
    requires NodeOk(node, alpha) && QueueOk(queue, alpha) && visited <= Universe(alpha)
    requires Ascending(dirs)
    ensures Expand(node, dirs, queue, visited, alpha).Pending? ==>
              && |queue| <= |Expand(node, dirs, queue, visited, alpha).queue|
              && Expand(node, dirs, queue, visited, alpha).queue[..|queue|] == queue
              && ChildrenInOrder(node, dirs, Expand(node, dirs, queue, visited, alpha).queue[|queue|..])
    decreases |dirs|
  {
    if dirs != [] {
      TryAppends(node, dirs[0], queue, visited, alpha);
      match Try(node, dirs[0], queue, visited, alpha)
      case Found(p) =>
      case Pending(q, v) =>
        var rest := dirs[1..];
        assert Ascending(rest) by {
          forall i, j | 0 <= i < j < |rest|
            ensures Code(rest[i]) < Code(rest[j])
          {
            assert rest[i] == dirs[i + 1] && rest[j] == dirs[j + 1];
          }
        }
        ExpandOrder(node, rest, q, v, alpha);
        var e := Expand(node, rest, q, v, alpha);
        if e.Pending? {
          JoinChildren(node, dirs, queue, q, e.queue);
        }
    }
  }

  /** The queue after the first direction, then the children of the later ones, behind the old queue. */
  lemma JoinChildren(node: Node, dirs: seq<Direction>, queue: seq<Node>, q: seq<Node>, e: seq<Node>)
    requires Ascending(dirs) && dirs != []
    requires q == queue || (|q| == |queue| + 1 && q[..|queue|] == queue && q[|queue|].path == node.path + [dirs[0]])
    requires |q| <= |e| && e[..|q|] == q && ChildrenInOrder(node, dirs[1..], e[|q|..])
    ensures |queue| <= |e| && e[..|queue|] == queue && ChildrenInOrder(node, dirs, e[|queue|..])
  {
    var kids := e[|q|..];
    assert e[..|queue|] == e[..|q|][..|queue|];
    if q == queue {
      ChildrenWiden(node, dirs, kids);
    } else {
      var c := q[|queue|];
      assert e[|queue|..] == [c] + kids by {
        assert e[|queue|..] == e[|queue|..|q|] + kids;
      }
      ChildrenCons(node, dirs, c, kids);
    }
  }

  /**
   * One round of the search: the front node leaves the queue, the rest stays
   * in front in its order (first in, first out), the front's children join
   * behind it in the order UP, LEFT, RIGHT, DOWN, and the frontier
   * discipline still holds.
   */
  lemma RoundEnqueued(queue: seq<Node>, visited: set<Cells>, alpha: set<char>)
    requires QueueOk(queue, alpha) && visited <= Universe(alpha) && queue != []
    requires Enqueued(queue, visited)
    ensures Expand(queue[0], Order, queue[1..], visited, alpha).Pending? ==>
              && Enqueued(Expand(queue[0], Order, queue[1..], visited, alpha).queue, Expand(queue[0], Order, queue[1..], visited, alpha).visited)
              && |queue| - 1 <= |Expand(queue[0], Order, queue[1..], visited, alpha).queue|
              && Expand(queue[0], Order, queue[1..], visited, alpha).queue[..|queue| - 1] == queue[1..]
              && ChildrenInOrder(queue[0], Order, Expand(queue[0], Order, queue[1..], visited, alpha).queue[|queue| - 1..])
  {
    var rest := queue[1..];
    forall i, j | 0 <= i < j < |rest|
      ensures rest[i].cells != rest[j].cells
    {
      assert rest[i] == queue[i + 1] && rest[j] == queue[j + 1];
    }
    assert forall k :: 0 <= k < |rest| ==> rest[k] == queue[k + 1];
    ExpandEnqueued(queue[0], Order, rest, visited, alpha);
    ExpandOrder(queue[0], Order, rest, visited, alpha);
  }
}
