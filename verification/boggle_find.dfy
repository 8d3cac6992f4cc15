/** FindWordsFromDictionarySolver: for every dictionary word, look for a
    path spelling it by backtracking from each node holding its first
    letter. */
module FindWords {
  import opened Common
  import opened BoggleBoard
  import opened BogglePaths

  /** word.charAt(0) on the empty word. */
  datatype Error = EmptyWord

  /** What searchForWord looks for: from the node `current`, with the cells
      in `visited` used, the letters of `word` from `index` on can be
      spelled by stepping to unused neighbours. */
  ghost predicate Extendable(board: seq<Node>, word: seq<char>, index: nat, current: int, visited: set<Position>)
    requires 0 <= current < |board|
    decreases |word| - index
  {
    index >= |word| ||
    exists n :: 0 <= n < |board| && Adjacent(board, current, n) && board[n].position !in visited &&
      board[n].value == word[index] && Extendable(board, word, index + 1, n, visited + {board[n].position})
  }

  /** Extendable is what a path does: from a path spelling the first part
      of the word, an extension exists exactly when some longer path spells
      all of it. This half builds the longer path. */
  lemma {:induction false} ExtendableToPath(board: seq<Node>, word: seq<char>, path: seq<int>) returns (rest: seq<int>)
    requires SimplePath(board, path) && 1 <= |path| <= |word| && Letters(board, path) == word[..|path|]
    requires Extendable(board, word, |path|, path[|path| - 1], Cells(board, path))
    decreases |word| - |path|
    ensures SimplePath(board, path + rest) && Letters(board, path + rest) == word
  {
    if |path| == |word| {
      rest := [];
      assert path + rest == path;
    } else {
      var n :| 0 <= n < |board| && Adjacent(board, path[|path| - 1], n) && board[n].position !in Cells(board, path) &&
        board[n].value == word[|path|] && Extendable(board, word, |path| + 1, n, Cells(board, path) + {board[n].position});
      Step(board, path, n);
      var longer := path + [n];
      assert Letters(board, longer) == word[..|longer|];
      var more := ExtendableToPath(board, word, longer);
      rest := [n] + more;
      assert path + rest == longer + more;
    }
  }

  /** The other half: a path spelling the word makes each of its prefixes
      extendable. */
  lemma {:induction false} PathToExtendable(board: seq<Node>, word: seq<char>, path: seq<int>, rest: seq<int>)
    requires SimplePath(board, path + rest) && |path| >= 1 && Letters(board, path + rest) == word
    decreases |rest|
    ensures SimplePath(board, path) && Extendable(board, word, |path|, path[|path| - 1], Cells(board, path))
  {
    var p := path + rest;
    assert forall i :: 0 <= i < |path| ==> p[i] == path[i];
    if rest == [] {
      assert p == path;
    } else {
      Split(board, path, rest);
      var n := rest[0];
      Step(board, path, n);
      assert Letters(board, p)[|path|] == board[n].value;
      PathToExtendable(board, word, path + [n], rest[1..]);
    }
  }

  /** A one-letter start: the word is on the board exactly when it can be
      extended from some node holding its first letter. */
  lemma OnBoardFromStart(board: seq<Node>, word: seq<char>)
    requires word != []
    ensures OnBoard(board, word) <==>
              exists s :: 0 <= s < |board| && board[s].value == word[0] &&
                Extendable(board, word, 1, s, {board[s].position})
  {
    if OnBoard(board, word) {
      var path :| SimplePath(board, path) && Letters(board, path) == word;
      assert path == [path[0]] + path[1..];
      Single(board, path[0]);
      assert Letters(board, path)[0] == word[0];
      PathToExtendable(board, word, [path[0]], path[1..]);
    }
    if exists s :: 0 <= s < |board| && board[s].value == word[0] && Extendable(board, word, 1, s, {board[s].position}) {
      var s :| 0 <= s < |board| && board[s].value == word[0] && Extendable(board, word, 1, s, {board[s].position});
      Single(board, s);
      var rest := ExtendableToPath(board, word, [s]);
    }
  }

  // ---------------------------------------------------------------------
  // The solver.

  /** The unused nodes among ns that hold the letter c (the second loop). */
  function Candidates(board: seq<Node>, ns: seq<int>, visited: set<Position>, c: char): (r: seq<int>)
    requires forall k :: 0 <= k < |ns| ==> 0 <= ns[k] < |board|
    ensures forall n :: n in r <==> n in ns && board[n].position !in visited && board[n].value == c
    ensures forall k :: 0 <= k < |r| ==> 0 <= r[k] < |board|
  {
    if ns == [] then []
    else
      var n := ns[0];
      (if board[n].position in visited then [] else if board[n].value == c then [n] else [])
      + Candidates(board, ns[1..], visited, c)
  }

  /** searchForWord. It answers whether the word can be finished from
      `current`; when it cannot, every cell it marked has been unmarked
      again. */
  method SearchForWord(index: nat, word: seq<char>, board: seq<Node>, current: int, visited: set<Position>)
    returns (found: bool, visitedOut: set<Position>)
    requires Sound(board) && 0 <= current < |board| && index <= |word|
    decreases |word| - index
    ensures found <==> Extendable(board, word, index, current, visited)
    ensures !found ==> visitedOut == visited
  {
    if index == |word| {
      return true, visited;
    }
    var neighbours := NeighbourNodes(board, current);
    var candidates := Candidates(board, neighbours, visited, word[index]);
    visitedOut := visited;
    var k := 0;
    while k < |candidates|
      invariant 0 <= k <= |candidates| && visitedOut == visited
      invariant NoneExtends(board, word, index, visited, candidates, k)
    {
      var node := candidates[k];
      visitedOut := visitedOut + {board[node].position};
      var ok, after := SearchForWord(index + 1, word, board, node, visitedOut);
      if ok {
        CandidateExtends(board, word, index, current, visited, node);
        return true, after;
      }
      visitedOut := after - {board[node].position};
      k := k + 1;
    }
    NoneExtendsAll(board, word, index, visited, candidates, k);
    NoCandidateExtends(board, word, index, current, visited, candidates);
    return false, visitedOut;
  }

  /** None of the first k candidates finishes the word. */
  ghost predicate NoneExtends(board: seq<Node>, word: seq<char>, index: nat, visited: set<Position>, candidates: seq<int>, k: int)
    requires forall m :: 0 <= m < |candidates| ==> 0 <= candidates[m] < |board|
    requires 0 <= k <= |candidates|
  {
    k == 0 ||
    (NoneExtends(board, word, index, visited, candidates, k - 1) &&
     !Extendable(board, word, index + 1, candidates[k - 1], visited + {board[candidates[k - 1]].position}))
  }

  lemma {:induction false} NoneExtendsAll(board: seq<Node>, word: seq<char>, index: nat, visited: set<Position>, candidates: seq<int>, k: int)
    requires forall m :: 0 <= m < |candidates| ==> 0 <= candidates[m] < |board|
    requires 0 <= k <= |candidates| && NoneExtends(board, word, index, visited, candidates, k)
    ensures forall m :: 0 <= m < k ==>
              !Extendable(board, word, index + 1, candidates[m], visited + {board[candidates[m]].position})
  {
    if k > 0 {
      NoneExtendsAll(board, word, index, visited, candidates, k - 1);
    }
  }

  /** A candidate that finishes the word makes the current node extendable. */
  lemma CandidateExtends(board: seq<Node>, word: seq<char>, index: nat, current: int, visited: set<Position>, node: int)
    requires Sound(board) && 0 <= current < |board| && index < |word|
    requires node in Candidates(board, NeighbourNodes(board, current), visited, word[index])
    requires Extendable(board, word, index + 1, node, visited + {board[node].position})
    ensures Extendable(board, word, index, current, visited)
  {
    NeighbourNodesMember(board, current, node);
  }

  /** When no candidate finishes the word, the current node is not
      extendable: every node a witness could be is a candidate. */
  lemma NoCandidateExtends(board: seq<Node>, word: seq<char>, index: nat, current: int, visited: set<Position>, candidates: seq<int>)
    requires Sound(board) && 0 <= current < |board| && index < |word|
    requires candidates == Candidates(board, NeighbourNodes(board, current), visited, word[index])
    requires forall m :: 0 <= m < |candidates| ==>
               !Extendable(board, word, index + 1, candidates[m], visited + {board[candidates[m]].position})
    ensures !Extendable(board, word, index, current, visited)
  {
    forall n | 0 <= n < |board| && Adjacent(board, current, n) && board[n].position !in visited && board[n].value == word[index]
      ensures !Extendable(board, word, index + 1, n, visited + {board[n].position})
    {
      NeighbourNodesComplete(board, current, n);
      var m :| 0 <= m < |candidates| && candidates[m] == n;
    }
  }

  /** findStartingNodes, from node i on: the nodes holding the word's first
      letter, in board order. The first node to look at fails on the empty
      word, as charAt(0) does. */
  function StartingNodes(board: seq<Node>, word: seq<char>, i: nat): (r: Result<seq<int>, Error>)
    requires i <= |board|
    decreases |board| - i
    ensures r.Failure? <==> word == [] && i < |board|
    ensures r.Success? ==> forall n :: n in r.value <==> i <= n < |board| && board[n].value == word[0]
    ensures r.Success? ==> forall a, b :: 0 <= a < b < |r.value| ==> r.value[a] < r.value[b]
  {
    if i == |board| then Success([])
    else if word == [] then Failure(EmptyWord)
    else
      var rest := StartingNodes(board, word, i + 1);
      if rest.Failure? then rest
      else
        assert forall k :: 0 <= k < |rest.value| ==> rest.value[k] in rest.value; Success((if board[i].value == word[0] then [i] else []) + rest.value)
  }

  /** findWord: true exactly when the word is non-empty and on the board;
      the empty word fails on a board with nodes. */
  method FindWord(word: seq<char>, board: seq<Node>) returns (r: Result<bool, Error>)
    requires Sound(board)
    ensures r.Failure? <==> word == [] && board != []
    ensures r.Success? ==> (r.value <==> word != [] && OnBoard(board, word))
  {
    var starts := StartingNodes(board, word, 0);
    if starts.Failure? {
      return Failure(starts.error);
    }
    if word == [] {
      return Success(false);
    }
    var nodes := starts.value;
    assert forall m :: 0 <= m < |nodes| ==> nodes[m] in nodes;
    var k := 0;
    while k < |nodes|
      invariant 0 <= k <= |nodes|
      invariant forall m :: 0 <= m < |nodes| ==> 0 <= nodes[m] < |board|
      invariant forall m :: 0 <= m < k ==> !Extendable(board, word, 1, nodes[m], {board[nodes[m]].position})
    {
      var node := nodes[k];
      var found, visited := SearchForWord(1, word, board, node, {board[node].position});
      if found {
        OnBoardFromStart(board, word);
        return Success(true);
      }
      k := k + 1;
    }
    OnBoardFromStart(board, word);
    forall s | 0 <= s < |board| && board[s].value == word[0]
      ensures !Extendable(board, word, 1, s, {board[s].position})
    {
      var m :| 0 <= m < |nodes| && nodes[m] == s;
    }
    return Success(false);
  }

  /** The dictionary words, in dictionary order, that are on the board. */
  ghost function WordsOnBoard(board: seq<Node>, dictionary: seq<seq<char>>): seq<seq<char>> {
    if dictionary == [] then []
    else
      var last := dictionary[|dictionary| - 1];
      WordsOnBoard(board, dictionary[..|dictionary| - 1]) + (if last != [] && OnBoard(board, last) then [last] else [])
  }

  /** solve: the dictionary words on the board, in dictionary order; an
      empty word in the dictionary fails the whole call when the board has
      nodes. */
  method Solve(board: seq<Node>, dictionary: seq<seq<char>>) returns (r: Result<seq<seq<char>>, Error>)
    requires Sound(board)
    ensures r.Failure? <==> board != [] && [] in dictionary
    ensures r.Success? ==> r.value == WordsOnBoard(board, dictionary)
  {
    var found := [];
    var i := 0;
    while i < |dictionary|
      invariant 0 <= i <= |dictionary|
      invariant board != [] ==> [] !in dictionary[..i]
      invariant found == WordsOnBoard(board, dictionary[..i])
    {
      var word := dictionary[i];
      var ok := FindWord(word, board);
      if ok.Failure? {
        return Failure(ok.error);
      }
      assert dictionary[..i + 1][..i] == dictionary[..i];
      if ok.value {
        found := found + [word];
      }
      i := i + 1;
    }
    assert dictionary[..i] == dictionary;
    return Success(found);
  }

  /** Every word solve reports is in the dictionary and on the board. */
  lemma {:induction false} WordsOnBoardSound(board: seq<Node>, dictionary: seq<seq<char>>, w: seq<char>)
    requires w in WordsOnBoard(board, dictionary)
    ensures w in dictionary && w != [] && OnBoard(board, w)
  {
    var front := dictionary[..|dictionary| - 1];
    if w in WordsOnBoard(board, front) {
      WordsOnBoardSound(board, front, w);
      assert forall x :: x in front ==> x in dictionary;
    }
  }

  /** And every non-empty dictionary word on the board is reported. */
  lemma {:induction false} WordsOnBoardComplete(board: seq<Node>, dictionary: seq<seq<char>>, w: seq<char>)
    requires w in dictionary && w != [] && OnBoard(board, w)
    ensures w in WordsOnBoard(board, dictionary)
  {
    var front := dictionary[..|dictionary| - 1];
    assert dictionary == front + [dictionary[|dictionary| - 1]];
    if w != dictionary[|dictionary| - 1] {
      WordsOnBoardComplete(board, front, w);
    }
  }
}
