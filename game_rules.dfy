/**
 * The rules the browser game enforces, on values: which squares a knight
 * may move to (`getPossibleMoves`), and the shape of the move history the
 * game keeps, with the three ways a click or an undo changes it.
 */
module GameRules {
  import opened Wrappers
  import opened Sequences
  import opened KnightMoves

  /** An entry of `moveHistory`: `{row, col, moveNumber}`. */
  datatype HistoryEntry = HistoryEntry(row: int, col: int, moveNumber: int)

  function At(e: HistoryEntry): Pos { Pos(e.row, e.col) }

  function Squares(h: seq<HistoryEntry>): (r: seq<Pos>)
    ensures |r| == |h| && forall k :: 0 <= k < |h| ==> r[k] == At(h[k])
  {
    seq(|h|, k requires 0 <= k < |h| => At(h[k]))
  }

  /** `isValidPosition` and not yet visited. */
  predicate Free(n: int, visited: set<Pos>, p: Pos)
  {
    InBounds(n, p) && p !in visited
  }

  /** The destinations `getPossibleMoves` has collected after trying the first `k` knight moves, in move order. */
  function MovesBefore(n: int, visited: set<Pos>, p: Pos, k: nat): seq<Pos>
    requires k <= MoveCount
  {
    if k == 0 then []
    else if Free(n, visited, Dest(p, k - 1)) then MovesBefore(n, visited, p, k - 1) + [Dest(p, k - 1)]
    else MovesBefore(n, visited, p, k - 1)
  }

  /** `getPossibleMoves(row, col)` as a value. */
  function PossibleMoves(n: int, visited: set<Pos>, p: Pos): seq<Pos>
  {
    MovesBefore(n, visited, p, MoveCount)
  }

  lemma {:induction false} MovesBeforeMembers(n: int, visited: set<Pos>, p: Pos, k: nat, q: Pos)
    requires k <= MoveCount
    ensures q in MovesBefore(n, visited, p, k) <==> Free(n, visited, q) && exists i :: 0 <= i < k && Dest(p, i) == q
  {
    if k > 0 {
      MovesBeforeMembers(n, visited, p, k - 1, q);
      if Free(n, visited, q) && exists i :: 0 <= i < k && Dest(p, i) == q {
        var i :| 0 <= i < k && Dest(p, i) == q;
        if i < k - 1 {
          assert q in MovesBefore(n, visited, p, k - 1);
        }
      }
    }
  }

  lemma {:induction false} MovesBeforeLength(n: int, visited: set<Pos>, p: Pos, k: nat)
    requires k <= MoveCount
    ensures |MovesBefore(n, visited, p, k)| <= k
  {
    if k > 0 {
      MovesBeforeLength(n, visited, p, k - 1);
    }
  }

  lemma {:induction false} MovesBeforeDistinct(n: int, visited: set<Pos>, p: Pos, k: nat)
    requires k <= MoveCount
    ensures Distinct(MovesBefore(n, visited, p, k))
  {
    if k > 0 {
      MovesBeforeDistinct(n, visited, p, k - 1);
      var init := MovesBefore(n, visited, p, k - 1);
      forall j | 0 <= j < |init| ensures init[j] != Dest(p, k - 1) {
        MovesBeforeMembers(n, visited, p, k - 1, init[j]);
        var i :| 0 <= i < k - 1 && Dest(p, i) == init[j];
        DestInjective(p, i, k - 1);
      }
    }
  }

  /**
   * The possible moves from `p` are exactly the knight moves from `p` that
   * land on the board on a square not yet visited; there are at most eight
   * and none is listed twice.
   */
  lemma PossibleMovesAre(n: int, visited: set<Pos>, p: Pos, q: Pos)
    ensures q in PossibleMoves(n, visited, p) <==> InBounds(n, q) && q !in visited && IsKnightMove(p, q)
    ensures |PossibleMoves(n, visited, p)| <= MoveCount
    ensures Distinct(PossibleMoves(n, visited, p))
  {
    MovesBeforeMembers(n, visited, p, MoveCount, q);
    MovesBeforeLength(n, visited, p, MoveCount);
    MovesBeforeDistinct(n, visited, p, MoveCount);
    DeltasAreKnightMoves(p, q);
  }

  /** The onward move count Warnsdorff's rule compares. */
  function Onward(n: int, visited: set<Pos>, p: Pos): nat
  {
    |PossibleMoves(n, visited, p)|
  }

  /** Candidate `k` has the fewest onward moves, and every earlier candidate has strictly more. */
  ghost predicate FirstFewest(n: int, visited: set<Pos>, candidates: seq<Pos>, k: int)
  {
    && 0 <= k < |candidates|
    && (forall j :: 0 <= j < |candidates| ==> Onward(n, visited, candidates[k]) <= Onward(n, visited, candidates[j]))
    && (forall j :: 0 <= j < k ==> Onward(n, visited, candidates[j]) > Onward(n, visited, candidates[k]))
  }

  /** The squares of a history, as a set. */
  function Visited(h: seq<HistoryEntry>): set<Pos>
  {
    if h == [] then {} else Visited(h[..|h| - 1]) + {At(h[|h| - 1])}
  }

  /** No square of the history repeats an earlier one. */
  predicate Fresh(h: seq<HistoryEntry>)
  {
    h == [] || (Fresh(h[..|h| - 1]) && At(h[|h| - 1]) !in Visited(h[..|h| - 1]))
  }

  /** Every square is on the n-by-n board and each is a knight move from the one before. */
  predicate Path(n: int, h: seq<HistoryEntry>)
  {
    h != [] ==>
      && Path(n, h[..|h| - 1])
      && InBounds(n, At(h[|h| - 1]))
      && (|h| > 1 ==> IsKnightMove(At(h[|h| - 2]), At(h[|h| - 1])))
  }

  /** Move numbers start at 1 and strictly increase. */
  predicate Increasing(h: seq<HistoryEntry>)
  {
    h != [] ==>
      && Increasing(h[..|h| - 1])
      && (|h| == 1 ==> h[0].moveNumber == 1)
      && (|h| > 1 ==> h[|h| - 2].moveNumber < h[|h| - 1].moveNumber)
  }

  /** `Visited` holds exactly the squares of the history. */
  lemma {:induction false} VisitedIsElements(h: seq<HistoryEntry>)
    ensures Visited(h) == Elements(Squares(h))
  {
    if h != [] {
      var init := h[..|h| - 1];
      VisitedIsElements(init);
      assert Squares(h) == Squares(init) + [At(h[|h| - 1])];
      assert Elements(Squares(h)) == Elements(Squares(init)) + {At(h[|h| - 1])};
    }
  }

  /** `Fresh` says that no square of the history is listed twice. */
  lemma {:induction false} FreshIsDistinct(h: seq<HistoryEntry>)
    ensures Fresh(h) <==> Distinct(Squares(h))
  {
    if h != [] {
      var init := h[..|h| - 1];
      FreshIsDistinct(init);
      VisitedIsElements(init);
      assert Squares(h) == Squares(init) + [At(h[|h| - 1])];
    }
  }

  /** `Path` says that every square is on the board and each is a knight move from the one before. */
  lemma {:induction false} PathIsKnightPath(n: int, h: seq<HistoryEntry>)
    ensures Path(n, h) <==>
      && (forall k :: 0 <= k < |h| ==> InBounds(n, At(h[k])))
      && (forall k :: 0 < k < |h| ==> IsKnightMove(At(h[k - 1]), At(h[k])))
  {
    if h != [] {
      var init := h[..|h| - 1];
      PathIsKnightPath(n, init);
      assert forall k :: 0 <= k < |init| ==> init[k] == h[k];
    }
  }

  /** `Increasing` says that the move numbers start at 1 and strictly increase. */
  lemma {:induction false} IncreasingNumbers(h: seq<HistoryEntry>)
    ensures Increasing(h) <==>
      && (h != [] ==> h[0].moveNumber == 1)
      && (forall k :: 0 < k < |h| ==> h[k - 1].moveNumber < h[k].moveNumber)
  {
    if h != [] {
      var init := h[..|h| - 1];
      IncreasingNumbers(init);
      assert forall k :: 0 <= k < |init| ==> init[k] == h[k];
    }
  }

  /** A history of distinct squares visits as many squares as it has entries. */
  lemma {:induction false} VisitedSize(h: seq<HistoryEntry>)
    requires Fresh(h)
    ensures |Visited(h)| == |h|
  {
    if h != [] {
      VisitedSize(h[..|h| - 1]);
    }
  }

  /** Every square of the history is visited. */
  lemma {:induction false} VisitedHas(h: seq<HistoryEntry>, k: int)
    requires 0 <= k < |h|
    ensures At(h[k]) in Visited(h)
  {
    if k < |h| - 1 {
      VisitedHas(h[..|h| - 1], k);
    }
  }

  /** The squares of a path lie on the board. */
  lemma {:induction false} PathOnBoard(n: nat, h: seq<HistoryEntry>)
    requires Path(n, h)
    ensures Visited(h) <= Cells(n)
  {
    if h != [] {
      PathOnBoard(n, h[..|h| - 1]);
    }
  }

  /**
   * The state a game keeps between clicks: a board of at least one square;
   * the knight is on the board exactly when the history is non-empty, and
   * then on its last square; the history is a path over distinct squares
   * which are exactly the visited ones; move numbers start at 1, increase,
   * and the last one is at most `moveCount + 1`; the move count is 0 before
   * the knight is placed.
   */
  ghost predicate GameState(n: int, current: Option<Pos>, visited: set<Pos>, h: seq<HistoryEntry>, moveCount: int)
  {
    && n >= 1
    && (current.None? <==> h == [])
    && (current.None? ==> moveCount == 0)
    && (h != [] ==> current == Some(At(h[|h| - 1])) && h[|h| - 1].moveNumber <= moveCount + 1)
    && Path(n, h)
    && Fresh(h)
    && visited == Visited(h)
    && Increasing(h)
  }

  /** In any game state the visited squares are on the board, one per history entry. */
  lemma GameStateSize(n: int, current: Option<Pos>, visited: set<Pos>, h: seq<HistoryEntry>, moveCount: int)
    requires GameState(n, current, visited, h, moveCount)
    ensures |visited| == |h| && visited <= Cells(n)
  {
    VisitedSize(h);
    PathOnBoard(n, h);
  }

  /** Placing the knight on a square of an empty board starts a one-square history numbered 1. */
  lemma GamePlace(n: int, visited: set<Pos>, h: seq<HistoryEntry>, moveCount: int, p: Pos)
    requires GameState(n, None, visited, h, moveCount) && InBounds(n, p)
    ensures visited == {} && h == [] && moveCount == 0
    ensures GameState(n, Some(p), {p}, [HistoryEntry(p.row, p.col, 1)], moveCount)
  {
    var h' := [HistoryEntry(p.row, p.col, 1)];
    assert h'[..0] == [];
  }

  /**
   * Moving to a possible square keeps the game state, with the square
   * visited and appended under the next move number.
   */
  lemma {:induction false} GameAdvance(n: int, current: Pos, visited: set<Pos>, h: seq<HistoryEntry>, moveCount: int, p: Pos)
    requires GameState(n, Some(current), visited, h, moveCount)
    requires p in PossibleMoves(n, visited, current)
    ensures p !in visited && IsKnightMove(current, p)
    ensures GameState(n, Some(p), visited + {p}, h + [HistoryEntry(p.row, p.col, moveCount + 2)], moveCount + 1)
  {
    var h' := h + [HistoryEntry(p.row, p.col, moveCount + 2)];
    PossibleMovesAre(n, visited, current, p);
    assert h'[..|h'| - 1] == h;
  }

  /**
   * Taking back the last of two or more moves keeps the game state: the
   * knight returns to the square before, and the square undone is no longer
   * visited.
   */
  lemma {:induction false} GameRetract(n: int, current: Option<Pos>, visited: set<Pos>, h: seq<HistoryEntry>, moveCount: int)
    requires GameState(n, current, visited, h, moveCount) && |h| > 1
    ensures At(h[|h| - 1]) in visited && |visited - {At(h[|h| - 1])}| == |visited| - 1
    ensures GameState(n, Some(At(h[|h| - 2])), visited - {At(h[|h| - 1])}, h[..|h| - 1], moveCount)
  {
    var init := h[..|h| - 1];
    assert Visited(h) == Visited(init) + {At(h[|h| - 1])};
    assert visited - {At(h[|h| - 1])} == Visited(init);
    assert init[..|init| - 1] == h[..|h| - 2];
  }
}
