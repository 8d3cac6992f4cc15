/** GeneratePossibleWordsSolver and GeneratePossibleWordsWithPruningSolver:
    walk every simple path from every node and keep the strings that are
    dictionary words. The first stops a walk once its string is longer than
    MaxLength letters; the second stops it once no dictionary word starts
    with its string. */
module GenerateWords {
  import opened Common
  import opened BoggleBoard
  import opened BogglePaths

  /** The length cap of GeneratePossibleWordsSolver.findAll. */
  const MaxLength := 20

  // ---------------------------------------------------------------------
  // Extensions of a path.

  /** w is spelled by some simple path that continues `path`. */
  ghost predicate Extends(board: seq<Node>, path: seq<int>, w: seq<char>) {
    exists rest :: SimplePath(board, path + rest) && Letters(board, path + rest) == w
  }

  /** w extends the path through one of the first k neighbour nodes of its
      end that the path has not used: the part of the search the loop over
      the neighbours has done after k steps. */
  ghost predicate ExtendsVia(board: seq<Node>, path: seq<int>, ns: seq<int>, k: int, w: seq<char>)
    requires SimplePath(board, path)
    requires forall j :: 0 <= j < |ns| ==> 0 <= ns[j] < |board|
    requires 0 <= k <= |ns|
  {
    k > 0 &&
    (ExtendsVia(board, path, ns, k - 1, w) ||
     (board[ns[k - 1]].position !in Cells(board, path) && Extends(board, path + [ns[k - 1]], w)))
  }

  lemma {:induction false} ExtendsViaWitness(board: seq<Node>, path: seq<int>, ns: seq<int>, k: int, w: seq<char>)
    requires SimplePath(board, path)
    requires forall j :: 0 <= j < |ns| ==> 0 <= ns[j] < |board|
    requires 0 <= k <= |ns|
    ensures ExtendsVia(board, path, ns, k, w) <==>
              exists j :: 0 <= j < k && board[ns[j]].position !in Cells(board, path) && Extends(board, path + [ns[j]], w)
  {
    if k > 0 {
      ExtendsViaWitness(board, path, ns, k - 1, w);
    }
  }

  /** A path spells a prefix of everything that extends it. */
  lemma ExtendsPrefix(board: seq<Node>, path: seq<int>, w: seq<char>)
    requires SimplePath(board, path) && Extends(board, path, w)
    ensures Letters(board, path) <= w
  {
    var rest :| SimplePath(board, path + rest) && Letters(board, path + rest) == w;
    var p := path + rest;
    assert forall i :: 0 <= i < |path| ==> p[i] == path[i];
  }

  /** The step of both searches: w extends a path exactly when it is the
      path's own string or extends the path through an unused neighbour of
      its end. */
  lemma ExtendsUnfold(board: seq<Node>, path: seq<int>, w: seq<char>)
    requires Sound(board) && SimplePath(board, path) && |path| >= 1
    ensures var ns := NeighbourNodes(board, path[|path| - 1]);
            Extends(board, path, w) <==> w == Letters(board, path) || ExtendsVia(board, path, ns, |ns|, w)
  {
    var ns := NeighbourNodes(board, path[|path| - 1]);
    ExtendsViaWitness(board, path, ns, |ns|, w);
    if Extends(board, path, w) && w != Letters(board, path) {
      ExtendsThroughNeighbour(board, path, w);
    }
    if w == Letters(board, path) {
      assert path + [] == path;
    }
    if ExtendsVia(board, path, ns, |ns|, w) {
      var j :| 0 <= j < |ns| && board[ns[j]].position !in Cells(board, path) && Extends(board, path + [ns[j]], w);
      NeighbourExtends(board, path, ns[j], w);
    }
  }

  /** A longer string that extends a path does so through an unused
      neighbour of its end. */
  lemma ExtendsThroughNeighbour(board: seq<Node>, path: seq<int>, w: seq<char>)
    requires Sound(board) && SimplePath(board, path) && |path| >= 1
    requires Extends(board, path, w) && w != Letters(board, path)
    ensures var ns := NeighbourNodes(board, path[|path| - 1]);
            exists j :: 0 <= j < |ns| && board[ns[j]].position !in Cells(board, path) && Extends(board, path + [ns[j]], w)
  {
    var ns := NeighbourNodes(board, path[|path| - 1]);
    var rest :| SimplePath(board, path + rest) && Letters(board, path + rest) == w;
    assert rest != [] by {
      assert rest == [] ==> path + rest == path;
    }
    Split(board, path, rest);
    var n := rest[0];
    NeighbourNodesComplete(board, path[|path| - 1], n);
    var j :| 0 <= j < |ns| && ns[j] == n;
    assert SimplePath(board, (path + [n]) + rest[1..]);
  }

  /** Whatever extends a one-node-longer path extends the path. */
  lemma NeighbourExtends(board: seq<Node>, path: seq<int>, n: int, w: seq<char>)
    requires Extends(board, path + [n], w)
    ensures Extends(board, path, w)
  {
    var more :| SimplePath(board, (path + [n]) + more) && Letters(board, (path + [n]) + more) == w;
    assert (path + [n]) + more == path + ([n] + more);
  }

  /** Words on the board are exactly the strings that extend a one-node
      path. */
  ghost predicate FromSomeNode(board: seq<Node>, k: int, w: seq<char>)
    requires 0 <= k <= |board|
  {
    k > 0 && (FromSomeNode(board, k - 1, w) || Extends(board, [k - 1], w))
  }

  lemma {:induction false} FromSomeNodeOnBoard(board: seq<Node>, w: seq<char>)
    ensures FromSomeNode(board, |board|, w) <==> w != [] && OnBoard(board, w)
  {
    FromSomeNodeWitness(board, |board|, w);
    if w != [] && OnBoard(board, w) {
      var path :| SimplePath(board, path) && Letters(board, path) == w;
      assert path == [path[0]] + path[1..];
      assert Extends(board, [path[0]], w);
    }
    if FromSomeNode(board, |board|, w) {
      var s :| 0 <= s < |board| && Extends(board, [s], w);
      var rest :| SimplePath(board, [s] + rest) && Letters(board, [s] + rest) == w;
    }
  }

  lemma {:induction false} FromSomeNodeWitness(board: seq<Node>, k: int, w: seq<char>)
    requires 0 <= k <= |board|
    ensures FromSomeNode(board, k, w) <==> exists s :: 0 <= s < k && Extends(board, [s], w)
  {
    if k > 0 {
      FromSomeNodeWitness(board, k - 1, w);
    }
  }

  // ---------------------------------------------------------------------
  // The loop over the neighbours, shared by both searches: `keep` is the
  // set of strings the search records.

  /** After k neighbours, out holds what was found before, plus the kept
      strings that are the current word or extend the walk through one of
      those k neighbours. */
  ghost predicate Gathered(board: seq<Node>, out: set<seq<char>>, found: set<seq<char>>, keep: set<seq<char>>,
                           path: seq<int>, ns: seq<int>, k: int, currentWord: seq<char>)
    requires SimplePath(board, path)
    requires forall j :: 0 <= j < |ns| ==> 0 <= ns[j] < |board|
    requires 0 <= k <= |ns|
  {
    forall w :: w in out <==> w in found || (w in keep && (w == currentWord || ExtendsVia(board, path, ns, k, w)))
  }

  /** A used neighbour is skipped. */
  lemma GatherSkip(board: seq<Node>, out: set<seq<char>>, found: set<seq<char>>, keep: set<seq<char>>,
                   path: seq<int>, ns: seq<int>, k: int, currentWord: seq<char>)
    requires SimplePath(board, path)
    requires forall j :: 0 <= j < |ns| ==> 0 <= ns[j] < |board|
    requires 0 <= k < |ns| && board[ns[k]].position in Cells(board, path)
    requires Gathered(board, out, found, keep, path, ns, k, currentWord)
    ensures Gathered(board, out, found, keep, path, ns, k + 1, currentWord)
  {
  }

  /** An unused neighbour adds what the search below it found. */
  lemma GatherStep(board: seq<Node>, before: set<seq<char>>, after: set<seq<char>>, found: set<seq<char>>,
                   keep: set<seq<char>>, path: seq<int>, ns: seq<int>, k: int, currentWord: seq<char>)
    requires SimplePath(board, path)
    requires forall j :: 0 <= j < |ns| ==> 0 <= ns[j] < |board|
    requires 0 <= k < |ns| && board[ns[k]].position !in Cells(board, path)
    requires Gathered(board, before, found, keep, path, ns, k, currentWord)
    requires forall w :: w in after <==> w in before || (w in keep && Extends(board, path + [ns[k]], w))
    ensures Gathered(board, after, found, keep, path, ns, k + 1, currentWord)
  {
  }

  /** After the last neighbour, out holds the kept strings that extend the
      walk. */
  lemma GatherDone(board: seq<Node>, out: set<seq<char>>, found: set<seq<char>>, keep: set<seq<char>>,
                   path: seq<int>, currentWord: seq<char>)
    requires Sound(board) && SimplePath(board, path) && |path| >= 1 && Letters(board, path) == currentWord
    requires var ns := NeighbourNodes(board, path[|path| - 1]);
             Gathered(board, out, found, keep, path, ns, |ns|, currentWord)
    ensures forall w :: w in out <==> w in found || (w in keep && Extends(board, path, w))
  {
    forall w
      ensures var ns := NeighbourNodes(board, path[|path| - 1]);
              Extends(board, path, w) <==> w == currentWord || ExtendsVia(board, path, ns, |ns|, w)
    {
      ExtendsUnfold(board, path, w);
    }
  }

  /** A search cut off at the start records nothing when nothing it keeps
      extends the walk. */
  lemma GatherNone(board: seq<Node>, found: set<seq<char>>, keep: set<seq<char>>, path: seq<int>)
    requires forall w :: w in keep ==> !Extends(board, path, w)
    ensures forall w :: w in found <==> w in found || (w in keep && Extends(board, path, w))
  {
  }

  // ---------------------------------------------------------------------
  // GeneratePossibleWordsSolver.

  /** The dictionary words the capped search can record. */
  function Capped(words: set<seq<char>>): (r: set<seq<char>>)
    ensures forall w :: w in r <==> w in words && |w| <= MaxLength
  {
    set w | w in words && |w| <= MaxLength
  }

  /** findAll of the capped search. The ghost path is the walk so far: it
      spells currentWord, ends at current and has used exactly the cells in
      visited. The found set gains the dictionary words of at most MaxLength
      letters that continue the walk, and visited comes back as it went in. */
  method FindAll(currentWord: seq<char>, current: int, board: seq<Node>, words: set<seq<char>>,
                 found: set<seq<char>>, visited: set<Position>, ghost path: seq<int>)
    returns (foundOut: set<seq<char>>, visitedOut: set<Position>)
    requires Sound(board) && SimplePath(board, path) && |path| >= 1 && path[|path| - 1] == current
    requires Letters(board, path) == currentWord && Cells(board, path) == visited
    decreases MaxLength + 1 - |currentWord|, 1
    ensures visitedOut == visited
    ensures forall w :: w in foundOut <==> w in found || (w in Capped(words) && Extends(board, path, w))
  {
    if |currentWord| > MaxLength {
      forall w | w in Capped(words)
        ensures !Extends(board, path, w)
      {
        if Extends(board, path, w) {
          ExtendsPrefix(board, path, w);
        }
      }
      GatherNone(board, found, Capped(words), path);
      return found, visited;
    }
    foundOut := found;
    if currentWord in words {
      foundOut := foundOut + {currentWord};
    }
    var ns := NeighbourNodes(board, current);
    visitedOut := visited;
    var k := 0;
    while k < |ns|
      invariant 0 <= k <= |ns| && visitedOut == visited
      invariant Gathered(board, foundOut, found, Capped(words), path, ns, k, currentWord)
    {
      foundOut, visitedOut := Visit(currentWord, current, board, words, found, foundOut, visitedOut, path, ns, k);
      k := k + 1;
    }
    GatherDone(board, foundOut, found, Capped(words), path, currentWord);
  }

  /** One turn of findAll's loop: search below the k-th neighbour if the
      walk has not used it, and unmark it again. */
  method Visit(currentWord: seq<char>, current: int, board: seq<Node>, words: set<seq<char>>, ghost found: set<seq<char>>,
               foundIn: set<seq<char>>, visited: set<Position>, ghost path: seq<int>, ns: seq<int>, k: int)
    returns (foundOut: set<seq<char>>, visitedOut: set<Position>)
    requires Sound(board) && SimplePath(board, path) && |path| >= 1 && path[|path| - 1] == current
    requires Letters(board, path) == currentWord && Cells(board, path) == visited && |currentWord| <= MaxLength
    requires ns == NeighbourNodes(board, current) && 0 <= k < |ns|
    requires Gathered(board, foundIn, found, Capped(words), path, ns, k, currentWord)
    decreases MaxLength + 1 - |currentWord|, 0
    ensures visitedOut == visited
    ensures Gathered(board, foundOut, found, Capped(words), path, ns, k + 1, currentWord)
  {
    var n := ns[k];
    if board[n].position in visited {
      GatherSkip(board, foundIn, found, Capped(words), path, ns, k, currentWord);
      return foundIn, visited;
    }
    NeighbourNodesMember(board, current, n);
    Step(board, path, n);
    foundOut, visitedOut := FindAll(currentWord + [board[n].value], n, board, words, foundIn,
                                    visited + {board[n].position}, path + [n]);
    GatherStep(board, foundIn, foundOut, found, Capped(words), path, ns, k, currentWord);
    visitedOut := visitedOut - {board[n].position};
  }

  /** solve of the capped search: every dictionary word of one to MaxLength
      letters on the board, and nothing else. */
  method SolveCapped(board: seq<Node>, dictionary: seq<seq<char>>) returns (r: seq<seq<char>>)
    requires Sound(board)
    ensures forall w :: w in r <==> w in dictionary && w != [] && |w| <= MaxLength && OnBoard(board, w)
    ensures forall i, j :: 0 <= i < j < |r| ==> r[i] != r[j]
  {
    var words := set w | w in dictionary;
    var found := {};
    var k := 0;
    while k < |board|
      invariant 0 <= k <= |board|
      invariant forall w :: w in found <==> w in Capped(words) && FromSomeNode(board, k, w)
    {
      Single(board, k);
      var visited;
      found, visited := FindAll([board[k].value], k, board, words, found, {board[k].position}, [k]);
      k := k + 1;
    }
    forall w
      ensures FromSomeNode(board, |board|, w) <==> w != [] && OnBoard(board, w)
    {
      FromSomeNodeOnBoard(board, w);
    }
    r := ListOf(found);
  }

  // ---------------------------------------------------------------------
  // GeneratePossibleWordsWithPruningSolver.

  /** The trie, by what it answers: the set of words added to it. */
  datatype Trie = Trie(words: set<seq<char>>)

  /** The trie of the dictionary (addWord for every word). */
  function BuildTrie(dictionary: seq<seq<char>>): (t: Trie)
    ensures forall w :: IsWord(t, w) <==> w in dictionary
  {
    if dictionary == [] then Trie({})
    else
      var front := dictionary[..|dictionary| - 1];
      assert dictionary == front + [dictionary[|dictionary| - 1]];
      Trie(BuildTrie(front).words + {dictionary[|dictionary| - 1]})
  }

  /** isWord. */
  predicate IsWord(t: Trie, s: seq<char>) {
    s in t.words
  }

  /** hasPrefix: some word of the trie starts with s. */
  predicate HasPrefix(t: Trie, s: seq<char>) {
    exists w | w in t.words :: s <= w
  }

  /** findAll of the pruned search: the found set gains the trie's words
      that continue the walk, whatever their length. A walk whose string
      starts no word is not continued, and loses nothing by that. */
  method FindAllPruned(currentWord: seq<char>, current: int, board: seq<Node>, trie: Trie,
                       found: set<seq<char>>, visited: set<Position>, ghost path: seq<int>)
    returns (foundOut: set<seq<char>>, visitedOut: set<Position>)
    requires Sound(board) && SimplePath(board, path) && |path| >= 1 && path[|path| - 1] == current
    requires Letters(board, path) == currentWord && Cells(board, path) == visited
    decreases |AllCells(board) - visited|, 1
    ensures visitedOut == visited
    ensures forall w :: w in foundOut <==> w in found || (IsWord(trie, w) && Extends(board, path, w))
  {
    if !HasPrefix(trie, currentWord) {
      forall w | w in trie.words
        ensures !Extends(board, path, w)
      {
        if Extends(board, path, w) {
          ExtendsPrefix(board, path, w);
        }
      }
      GatherNone(board, found, trie.words, path);
      return found, visited;
    }
    foundOut := found;
    if IsWord(trie, currentWord) {
      foundOut := foundOut + {currentWord};
    }
    var ns := NeighbourNodes(board, current);
    visitedOut := visited;
    var k := 0;
    while k < |ns|
      invariant 0 <= k <= |ns| && visitedOut == visited
      invariant Gathered(board, foundOut, found, trie.words, path, ns, k, currentWord)
    {
      foundOut, visitedOut := VisitPruned(currentWord, current, board, trie, found, foundOut, visitedOut, path, ns, k);
      k := k + 1;
    }
    GatherDone(board, foundOut, found, trie.words, path, currentWord);
  }

  /** One turn of the pruned findAll's loop: search below the k-th
      neighbour if the walk has not used it, and unmark it again. */
  method VisitPruned(currentWord: seq<char>, current: int, board: seq<Node>, trie: Trie, ghost found: set<seq<char>>,
                     foundIn: set<seq<char>>, visited: set<Position>, ghost path: seq<int>, ns: seq<int>, k: int)
    returns (foundOut: set<seq<char>>, visitedOut: set<Position>)
    requires Sound(board) && SimplePath(board, path) && |path| >= 1 && path[|path| - 1] == current
    requires Letters(board, path) == currentWord && Cells(board, path) == visited
    requires ns == NeighbourNodes(board, current) && 0 <= k < |ns|
    requires Gathered(board, foundIn, found, trie.words, path, ns, k, currentWord)
    decreases |AllCells(board) - visited|, 0
    ensures visitedOut == visited
    ensures Gathered(board, foundOut, found, trie.words, path, ns, k + 1, currentWord)
  {
    var n := ns[k];
    if board[n].position in visited {
      GatherSkip(board, foundIn, found, trie.words, path, ns, k, currentWord);
      return foundIn, visited;
    }
    NeighbourNodesMember(board, current, n);
    Step(board, path, n);
    CellsOfBoard(board, path);
    VisitShrinks(AllCells(board), visited, board[n].position);
    foundOut, visitedOut := FindAllPruned(currentWord + [board[n].value], n, board, trie, foundIn,
                                          visited + {board[n].position}, path + [n]);
    GatherStep(board, foundIn, foundOut, found, trie.words, path, ns, k, currentWord);
    visitedOut := visitedOut - {board[n].position};
  }

  /** solve of the pruned search: every non-empty dictionary word on the
      board, and nothing else. */
  method SolvePruned(board: seq<Node>, dictionary: seq<seq<char>>) returns (r: seq<seq<char>>)
    requires Sound(board)
    ensures forall w :: w in r <==> w in dictionary && w != [] && OnBoard(board, w)
    ensures forall i, j :: 0 <= i < j < |r| ==> r[i] != r[j]
  {
    var trie := BuildTrie(dictionary);
    var found := {};
    var k := 0;
    while k < |board|
      invariant 0 <= k <= |board|
      invariant forall w :: w in found <==> IsWord(trie, w) && FromSomeNode(board, k, w)
    {
      Single(board, k);
      var visited;
      found, visited := FindAllPruned([board[k].value], k, board, trie, found, {board[k].position}, [k]);
      k := k + 1;
    }
    forall w
      ensures FromSomeNode(board, |board|, w) <==> w != [] && OnBoard(board, w)
    {
      FromSomeNodeOnBoard(board, w);
    }
    r := ListOf(found);
  }
}
