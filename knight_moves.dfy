/**
 * The board geometry shared by the training environment and the browser game:
 * squares, the board bounds and the eight knight moves, listed in the order
 * both implementations use (an action index is a position in this list).
 */
module KnightMoves {

  /** A square, given by row and column; it may lie off the board. */
  datatype Pos = Pos(row: int, col: int)

  /** Number of knight moves, which is also the number of agent actions. */
  const MoveCount: nat := 8

  /** The eight (row, column) offsets of a knight move. */
  const Deltas: seq<(int, int)> :=
    [(-2, -1), (-2, 1), (-1, -2), (-1, 2), (1, -2), (1, 2), (2, -1), (2, 1)]

  /** The square reached from `p` by knight move `i`. */
  function Dest(p: Pos, i: nat): Pos
    requires i < MoveCount
  {
    Pos(p.row + Deltas[i].0, p.col + Deltas[i].1)
  }

  /** The square lies on an n-by-n board. */
  predicate InBounds(n: int, p: Pos)
  {
    0 <= p.row < n && 0 <= p.col < n
  }

  function Abs(x: int): nat { if x < 0 then -x else x }

  /** `q` is one knight's move away from `p`. */
  predicate IsKnightMove(p: Pos, q: Pos)
  {
    var dr, dc := Abs(q.row - p.row), Abs(q.col - p.col);
    (dr == 2 && dc == 1) || (dr == 1 && dc == 2)
  }

  /** Each square of `s` is a knight move from the one before. */
  predicate KnightPath(s: seq<Pos>)
  {
    forall k :: 0 < k < |s| ==> IsKnightMove(s[k - 1], s[k])
  }

  /** A knight move from the last square extends a knight path. */
  lemma KnightPathSnoc(s: seq<Pos>, q: Pos)
    requires KnightPath(s) && s != [] && IsKnightMove(s[|s| - 1], q)
    ensures KnightPath(s + [q])
  {
  }

  /** The table lists exactly the knight moves: each entry is one, and every one is an entry. */
  lemma DeltasAreKnightMoves(p: Pos, q: Pos)
    ensures IsKnightMove(p, q) <==> exists i :: 0 <= i < MoveCount && Dest(p, i) == q
  {
    if IsKnightMove(p, q) {
      var dr, dc := q.row - p.row, q.col - p.col;
      var i := if dr == -2 && dc == -1 then 0 else if dr == -2 && dc == 1 then 1
               else if dr == -1 && dc == -2 then 2 else if dr == -1 && dc == 2 then 3
               else if dr == 1 && dc == -2 then 4 else if dr == 1 && dc == 2 then 5
               else if dr == 2 && dc == -1 then 6 else 7;
      assert Dest(p, i) == q;
    }
  }

  /** Distinct move indices lead from the same square to distinct squares. */
  lemma DestInjective(p: Pos, i: nat, j: nat)
    requires i < MoveCount && j < MoveCount && i != j
    ensures Dest(p, i) != Dest(p, j)
  {
  }

  /** All squares of an n-by-n board. */
  function Cells(n: nat): set<Pos>
  {
    set r, c | 0 <= r < n && 0 <= c < n :: Pos(r, c)
  }

  function Rows(n: nat, k: nat): set<Pos>
  {
    set r, c | 0 <= r < k && 0 <= c < n :: Pos(r, c)
  }

  function RowPrefix(r: int, k: nat): set<Pos>
  {
    set c | 0 <= c < k :: Pos(r, c)
  }

  lemma {:induction false} RowPrefixCard(r: int, k: nat)
    ensures |RowPrefix(r, k)| == k
  {
    if k > 0 {
      RowPrefixCard(r, k - 1);
      assert RowPrefix(r, k) == RowPrefix(r, k - 1) + {Pos(r, k - 1)};
    }
  }

  lemma {:induction false} RowsCard(n: nat, k: nat)
    ensures |Rows(n, k)| == k * n
  {
    if k > 0 {
      RowsCard(n, k - 1);
      RowPrefixCard(k - 1, n);
      forall p | p in Rows(n, k) ensures p in Rows(n, k - 1) + RowPrefix(k - 1, n) {
        if p.row < k - 1 {
          assert p in Rows(n, k - 1);
        } else {
          assert p in RowPrefix(k - 1, n);
        }
      }
      assert Rows(n, k) == Rows(n, k - 1) + RowPrefix(k - 1, n);
      assert Rows(n, k - 1) !! RowPrefix(k - 1, n);
      assert k * n == (k - 1) * n + n;
    }
  }

  /** An n-by-n board has n * n squares. */
  lemma CellsCard(n: nat)
    ensures |Cells(n)| == n * n
  {
    RowsCard(n, n);
    assert Cells(n) == Rows(n, n);
  }

  /** A subset of the board's squares as large as the board is the whole board. */
  lemma FullSubset(s: set<Pos>, n: nat)
    requires s <= Cells(n)
    ensures |s| <= n * n
    ensures |s| == n * n <==> s == Cells(n)
  {
    CellsCard(n);
    var rest := Cells(n) - s;
    assert Cells(n) == s + rest && s !! rest;
    if rest != {} {
      var p :| p in rest;
      assert |rest| >= |{p}|;
    }
  }
}
