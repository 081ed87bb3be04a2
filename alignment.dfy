/** Needleman-Wunsch global alignment score, as a recurrence over table cells
    (backend/disease_analyzer.py, `needleman_wunsch`). The table only ever holds
    integers, so the model uses `int`. */
module Alignment {

  const MatchScore: int := 3
  const MismatchScore: int := -1
  const GapPenalty: int := -2

  function Max3(a: int, b: int, c: int): (r: int)
    ensures r >= a && r >= b && r >= c
    ensures r == a || r == b || r == c
  {
    if a >= b && a >= c then a else if b >= c then b else c
  }

  /** The score of pairing s[i-1] with t[j-1]. */
  function PairScore<T(==)>(x: T, y: T): int
  {
    if x == y then MatchScore else MismatchScore
  }

  /** Cell (i, j) of the table: the best score of aligning s[..i] with t[..j]. */
  function Cell<T(==)>(s: seq<T>, t: seq<T>, i: nat, j: nat): int
    requires i <= |s| && j <= |t|
    decreases i + j
  {
    if i == 0 then GapPenalty * j
    else if j == 0 then GapPenalty * i
    else Max3(Cell(s, t, i - 1, j - 1) + PairScore(s[i - 1], t[j - 1]),
              Cell(s, t, i - 1, j) + GapPenalty,
              Cell(s, t, i, j - 1) + GapPenalty)
  }

  /** The alignment score: the last cell. */
  function Align<T(==)>(s: seq<T>, t: seq<T>): int
  {
    Cell(s, t, |s|, |t|)
  }

  function Min(a: int, b: int): int { if a <= b then a else b }
  function Dist(a: int, b: int): int { if a <= b then b - a else a - b }

  /** No cell beats matching the shorter prefix completely and gapping the rest. */
  lemma {:induction false} CellUpperBound<T>(s: seq<T>, t: seq<T>, i: nat, j: nat)
    requires i <= |s| && j <= |t|
    ensures Cell(s, t, i, j) <= MatchScore * Min(i, j) + GapPenalty * Dist(i, j)
    decreases i + j
  {
    if i > 0 && j > 0 {
      CellUpperBound(s, t, i - 1, j - 1);
      CellUpperBound(s, t, i - 1, j);
      CellUpperBound(s, t, i, j - 1);
    }
  }

  /** No cell is worse than gapping every symbol. */
  lemma {:induction false} CellLowerBound<T>(s: seq<T>, t: seq<T>, i: nat, j: nat)
    requires i <= |s| && j <= |t|
    ensures Cell(s, t, i, j) >= GapPenalty * (i + j)
    decreases i + j
  {
    if i > 0 && j > 0 {
      CellLowerBound(s, t, i - 1, j);
    }
  }

  /** The table is symmetric: swapping the sequences transposes it. */
  lemma {:induction false} CellSymmetric<T>(s: seq<T>, t: seq<T>, i: nat, j: nat)
    requires i <= |s| && j <= |t|
    ensures Cell(s, t, i, j) == Cell(t, s, j, i)
    decreases i + j
  {
    if i > 0 && j > 0 {
      CellSymmetric(s, t, i - 1, j - 1);
      CellSymmetric(s, t, i - 1, j);
      CellSymmetric(s, t, i, j - 1);
      assert PairScore(s[i - 1], t[j - 1]) == PairScore(t[j - 1], s[i - 1]);
      var a, b, c := Cell(s, t, i - 1, j - 1) + PairScore(s[i - 1], t[j - 1]),
                     Cell(s, t, i - 1, j) + GapPenalty, Cell(s, t, i, j - 1) + GapPenalty;
      assert Cell(s, t, i, j) == Max3(a, b, c);
      assert Cell(t, s, j, i) == Max3(a, c, b);
    }
  }

  lemma {:induction false} DiagonalOfSelf<T>(s: seq<T>, i: nat)
    requires i <= |s|
    ensures Cell(s, s, i, i) == MatchScore * i
  {
    if i > 0 {
      DiagonalOfSelf(s, i - 1);
      CellUpperBound(s, s, i - 1, i);
      CellUpperBound(s, s, i, i - 1);
    }
  }

  /** Aligning a sequence with itself scores a match for every symbol. */
  lemma AlignSelf<T>(s: seq<T>)
    ensures Align(s, s) == MatchScore * |s|
  {
    DiagonalOfSelf(s, |s|);
  }

  /** Aligning the empty sequence costs a gap for every symbol of the other. */
  lemma AlignEmpty<T>(t: seq<T>)
    ensures Align([], t) == GapPenalty * |t|
    ensures Align(t, []) == GapPenalty * |t|
  {
  }

  /** Bounds on every alignment score, and symmetry. */
  lemma AlignBounds<T>(s: seq<T>, t: seq<T>)
    ensures GapPenalty * (|s| + |t|) <= Align(s, t) <= MatchScore * Min(|s|, |t|) + GapPenalty * Dist(|s|, |t|)
    ensures Align(s, t) == Align(t, s)
  {
    CellLowerBound(s, t, |s|, |t|);
    CellUpperBound(s, t, |s|, |t|);
    CellSymmetric(s, t, |s|, |t|);
  }

  lemma AlignExamples()
    ensures Align(["A", "B", "C"], ["A", "B", "C"]) == 9
    ensures Align(["A"], ["B"]) == -1
  {
    AlignSelf(["A", "B", "C"]);
    assert Cell(["A"], ["B"], 1, 1) == Max3(0 + MismatchScore, -2 + GapPenalty, -2 + GapPenalty);
  }
}
