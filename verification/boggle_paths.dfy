/** Paths on a Boggle board: a word is on the board when a path of nodes,
    each a neighbour of the one before and no cell used twice, spells it.
    This is the reference all three solvers are measured against. */
module BogglePaths {
  import opened Common
  import opened BoggleBoard

  /** What the solvers rely on when they follow a neighbour: no two nodes
      share a position, and positionToNode finds a node for every
      neighbour position. */
  predicate Sound(board: seq<Node>) {
    && (forall i, j :: 0 <= i < j < |board| ==> board[i].position != board[j].position)
    && (forall i, q :: 0 <= i < |board| && q in board[i].neighbours ==> PositionToNode(board, q, 0).Some?)
  }

  /** A built board is sound. */
  lemma BuiltSound(board: seq<Node>, dimension: int)
    requires Built(board, dimension)
    ensures Sound(board)
  {
    forall i, j | 0 <= i < j < |board|
      ensures board[i].position != board[j].position
    {
      BuiltValid(board, dimension, i);
      BuiltNodeAt(board, dimension, board[i].position);
    }
    forall i, q | 0 <= i < |board| && q in board[i].neighbours
      ensures PositionToNode(board, q, 0).Some?
    {
      BuiltPositionToNode(board, dimension, q);
    }
  }

  /** On a sound board positionToNode finds the one node at a position. */
  lemma NodeAtPosition(board: seq<Node>, n: int)
    requires Sound(board) && 0 <= n < |board|
    ensures PositionToNode(board, board[n].position, 0) == Some(n)
  {
  }

  /** Node b's cell is a neighbour of node a's. */
  predicate Adjacent(board: seq<Node>, a: int, b: int)
    requires 0 <= a < |board| && 0 <= b < |board|
  {
    board[b].position in board[a].neighbours
  }

  /** A path of nodes: each one a neighbour of the one before, no cell
      twice. */
  predicate SimplePath(board: seq<Node>, path: seq<int>) {
    && (forall i :: 0 <= i < |path| ==> 0 <= path[i] < |board|)
    && (forall i :: 0 <= i < |path| - 1 ==> Adjacent(board, path[i], path[i + 1]))
    && (forall i, j :: 0 <= i < j < |path| ==> board[path[i]].position != board[path[j]].position)
  }

  /** The letters a path spells. */
  function Letters(board: seq<Node>, path: seq<int>): (w: seq<char>)
    requires forall i :: 0 <= i < |path| ==> 0 <= path[i] < |board|
    ensures |w| == |path|
  {
    seq(|path|, i requires 0 <= i < |path| => board[path[i]].value)
  }

  /** The cells a path has used. */
  function Cells(board: seq<Node>, path: seq<int>): set<Position>
    requires forall i :: 0 <= i < |path| ==> 0 <= path[i] < |board|
  {
    set i | 0 <= i < |path| :: board[path[i]].position
  }

  /** A word is on the board when some simple path spells it. */
  ghost predicate OnBoard(board: seq<Node>, word: seq<char>) {
    exists path :: SimplePath(board, path) && Letters(board, path) == word
  }

  /** Stepping from the end of a path to an unused neighbour gives a path,
      one cell and one letter longer. */
  lemma Step(board: seq<Node>, path: seq<int>, n: int)
    requires SimplePath(board, path) && |path| >= 1 && 0 <= n < |board|
    requires Adjacent(board, path[|path| - 1], n) && board[n].position !in Cells(board, path)
    ensures SimplePath(board, path + [n])
    ensures Cells(board, path + [n]) == Cells(board, path) + {board[n].position}
    ensures Letters(board, path + [n]) == Letters(board, path) + [board[n].value]
  {
    StepPath(board, path, n);
    StepCells(board, path, n);
  }

  lemma StepPath(board: seq<Node>, path: seq<int>, n: int)
    requires SimplePath(board, path) && |path| >= 1 && 0 <= n < |board|
    requires Adjacent(board, path[|path| - 1], n) && board[n].position !in Cells(board, path)
    ensures SimplePath(board, path + [n])
  {
    var p := path + [n];
    forall i | 0 <= i < |path|
      ensures board[p[i]].position != board[n].position
    {
      assert board[path[i]].position in Cells(board, path);
    }
    assert forall i :: 0 <= i < |path| ==> p[i] == path[i];
  }

  lemma StepCells(board: seq<Node>, path: seq<int>, n: int)
    requires forall i :: 0 <= i < |path| ==> 0 <= path[i] < |board|
    requires 0 <= n < |board|
    ensures Cells(board, path + [n]) == Cells(board, path) + {board[n].position}
  {
    var p := path + [n];
    forall x
      ensures x in Cells(board, p) <==> x in Cells(board, path) + {board[n].position}
    {
      if x in Cells(board, p) {
        var i :| 0 <= i < |p| && board[p[i]].position == x;
        if i < |path| {
          assert board[path[i]].position == x;
        }
      }
      if x in Cells(board, path) {
        var i :| 0 <= i < |path| && board[path[i]].position == x;
        assert board[p[i]].position == x;
      }
      if x == board[n].position {
        assert board[p[|path|]].position == x;
      }
    }
  }

  /** A path uses one cell per node, so it is no longer than the board:
      the length of the string a search has built equals the number of
      cells it has marked, and that bounds the recursion. */
  lemma PathCells(board: seq<Node>, path: seq<int>)
    requires SimplePath(board, path)
    ensures |Cells(board, path)| == |path| && |path| <= |board|
  {
    PathCellsCount(board, path);
    CellsOfBoard(board, path);
    SubsetSize(Cells(board, path), AllCells(board));
  }

  lemma {:induction false} PathCellsCount(board: seq<Node>, path: seq<int>)
    requires SimplePath(board, path)
    ensures |Cells(board, path)| == |path|
  {
    if path != [] {
      var front := path[..|path| - 1];
      var n := path[|path| - 1];
      assert path == front + [n];
      assert forall i :: 0 <= i < |front| ==> front[i] == path[i];
      assert SimplePath(board, front);
      PathCellsCount(board, front);
      StepCells(board, front, n);
      forall i | 0 <= i < |front|
        ensures board[front[i]].position != board[n].position
      {
        assert front[i] == path[i];
      }
    }
  }

  /** The cells of a path are among the board's cells, of which there are
      at most as many as nodes. */
  lemma CellsOfBoard(board: seq<Node>, path: seq<int>)
    requires forall i :: 0 <= i < |path| ==> 0 <= path[i] < |board|
    ensures Cells(board, path) <= AllCells(board) && |AllCells(board)| <= |board|
  {
    AllCellsCount(board);
  }

  /** Every cell of the board. */
  function AllCells(board: seq<Node>): set<Position> {
    set n | 0 <= n < |board| :: board[n].position
  }

  lemma {:induction false} AllCellsCount(board: seq<Node>)
    ensures |AllCells(board)| <= |board|
  {
    if board != [] {
      var front := board[..|board| - 1];
      AllCellsCount(front);
      var last := board[|board| - 1].position;
      SubsetSize(AllCells(board), AllCells(front) + {last});
      assert AllCells(board) <= AllCells(front) + {last} by {
        forall x | x in AllCells(board)
          ensures x in AllCells(front) + {board[|board| - 1].position}
        {
          var n :| 0 <= n < |board| && board[n].position == x;
          if n < |front| {
            assert front[n] == board[n];
          }
        }
      }
    }
  }

  /** The path of one node. */
  lemma Single(board: seq<Node>, n: int)
    requires 0 <= n < |board|
    ensures SimplePath(board, [n]) && Cells(board, [n]) == {board[n].position}
    ensures Letters(board, [n]) == [board[n].value]
  {
    assert board[[n][0]].position in Cells(board, [n]);
    assert Letters(board, [n])[0] == board[n].value;
  }

  /** A path that continues a path: its first part is a path, and the node
      after that part is an unused neighbour of its last node. */
  lemma Split(board: seq<Node>, path: seq<int>, rest: seq<int>)
    requires SimplePath(board, path + rest) && |path| >= 1 && |rest| >= 1
    ensures SimplePath(board, path) && 0 <= rest[0] < |board|
    ensures Adjacent(board, path[|path| - 1], rest[0])
    ensures board[rest[0]].position !in Cells(board, path)
    ensures path + rest == (path + [rest[0]]) + rest[1..]
  {
    var p := path + rest;
    assert forall i :: 0 <= i < |path| ==> p[i] == path[i];
    assert p[|path|] == rest[0];
    forall i | 0 <= i < |path|
      ensures board[path[i]].position != board[rest[0]].position
    {
      assert board[p[i]].position != board[p[|path|]].position;
    }
  }

  /** The nodes of the neighbour positions, in the neighbour list's order
      (the first loop of each solver's search). */
  function NeighbourNodes(board: seq<Node>, current: int): (ns: seq<int>)
    requires Sound(board) && 0 <= current < |board|
    ensures |ns| == |board[current].neighbours|
    ensures forall k :: 0 <= k < |ns| ==> 0 <= ns[k] < |board| && board[ns[k]].position == board[current].neighbours[k]
  {
    seq(|board[current].neighbours|, k requires 0 <= k < |board[current].neighbours| =>
      PositionToNode(board, board[current].neighbours[k], 0).value)
  }

  /** Every node at a neighbour position is among the neighbour nodes. */
  lemma NeighbourNodesComplete(board: seq<Node>, current: int, n: int)
    requires Sound(board) && 0 <= current < |board| && 0 <= n < |board| && Adjacent(board, current, n)
    ensures n in NeighbourNodes(board, current)
  {
    var ns := NeighbourNodes(board, current);
    var k :| 0 <= k < |board[current].neighbours| && board[current].neighbours[k] == board[n].position;
    assert board[ns[k]].position == board[n].position;
  }

  /** Every neighbour node is a node at a neighbour position. */
  lemma NeighbourNodesMember(board: seq<Node>, current: int, n: int)
    requires Sound(board) && 0 <= current < |board| && n in NeighbourNodes(board, current)
    ensures 0 <= n < |board| && Adjacent(board, current, n)
  {
  }
}
