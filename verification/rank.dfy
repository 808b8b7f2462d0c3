/** Integer matrix rank by fraction-free Gauss–Jordan elimination, as in
    `calculate_rank` of code25.c.

    The C routine addresses a flat row-major `int` array as
    `matrix + i * cols + j`; the model reads that array into a sequence of
    rows once (`Unflatten`) and then works on `m[i][j]`. The functional
    definitions (`PivotRow`, `Swapped`, `Eliminated`, `Reduce`,
    `CountNonZeroRows`) are the reference; the methods at the end follow
    the C loops statement by statement and are proved to compute them. */
module RankElimination {

  type Matrix = seq<seq<int>>

  /** Every row holds exactly `cols` entries. */
  predicate Shaped(m: Matrix, cols: nat) {
    forall i :: 0 <= i < |m| ==> |m[i]| == cols
  }

  // ---------------------------------------------------------------------
  // The flat array

  /** Row `i` of a `rows`-by-`cols` array ends within the array. */
  lemma {:induction false} RowEnd(i: nat, rows: nat, cols: nat)
    requires i < rows
    ensures i * cols + cols <= rows * cols
    decreases rows - i
  {
    assert (i + 1) * cols == i * cols + cols;
    if i + 1 < rows {
      RowEnd(i + 1, rows, cols);
    }
  }

  /** The `cols` entries of `flat` from index `start` on. */
  function FlatRow(flat: seq<int>, start: nat, cols: nat): (row: seq<int>)
    requires start + cols <= |flat|
    ensures |row| == cols
    ensures forall j :: 0 <= j < cols ==> row[j] == flat[start + j]
  {
    flat[start .. start + cols]
  }

  /** The rows of a row-major array of `rows * cols` entries. */
  function Unflatten(flat: seq<int>, rows: nat, cols: nat): (m: Matrix)
    requires |flat| == rows * cols
    ensures |m| == rows && Shaped(m, cols)
  {
    seq(rows, i requires 0 <= i < rows =>
      RowEnd(i, rows, cols);
      FlatRow(flat, i * cols, cols))
  }

  /** Entry (i, j) of the rows is `*(matrix + i * cols + j)`. */
  lemma UnflattenEntry(flat: seq<int>, rows: nat, cols: nat, i: nat, j: nat)
    requires |flat| == rows * cols && i < rows && j < cols
    ensures i * cols + j < |flat|
    ensures Unflatten(flat, rows, cols)[i][j] == flat[i * cols + j]
  {
    RowEnd(i, rows, cols);
  }

  // ---------------------------------------------------------------------
  // Row exchange (`swapRows`)

  /** The matrix with rows `r1` and `r2` exchanged. */
  function Swapped(m: Matrix, cols: nat, r1: nat, r2: nat): (s: Matrix)
    requires Shaped(m, cols) && r1 < |m| && r2 < |m|
    ensures |s| == |m| && Shaped(s, cols)
    ensures s[r1] == m[r2] && s[r2] == m[r1]
    ensures forall k :: 0 <= k < |m| && k != r1 && k != r2 ==> s[k] == m[k]
  {
    m[r1 := m[r2]][r2 := m[r1]]
  }

  /** Exchanging a row with itself changes nothing. */
  lemma SwapSelf(m: Matrix, cols: nat, r: nat)
    requires Shaped(m, cols) && r < |m|
    ensures Swapped(m, cols, r, r) == m
  {
  }

  /** Exchanging the same two rows twice restores the matrix. */
  lemma SwapInvolution(m: Matrix, cols: nat, r1: nat, r2: nat)
    requires Shaped(m, cols) && r1 < |m| && r2 < |m|
    ensures Swapped(Swapped(m, cols, r1, r2), cols, r1, r2) == m
  {
  }

  // ---------------------------------------------------------------------
  // Pivot search

  /** The first row at or after `i` with a non-zero entry in column `lead`,
      or `|m|` when there is none. */
  function PivotRow(m: Matrix, cols: nat, i: nat, lead: nat): (p: nat)
    requires Shaped(m, cols) && i <= |m| && lead < cols
    ensures i <= p <= |m|
    ensures forall k :: i <= k < p ==> m[k][lead] == 0
    ensures p < |m| ==> m[p][lead] != 0
    decreases |m| - i
  {
    if i < |m| && m[i][lead] == 0 then PivotRow(m, cols, i + 1, lead) else i
  }

  /** A row that is preceded only by zeros in column `lead` and is itself
      non-zero there (or is past the end) is the one the search returns. */
  lemma PivotRowUnique(m: Matrix, cols: nat, i: nat, lead: nat, p: nat)
    requires Shaped(m, cols) && i <= p <= |m| && lead < cols
    requires forall k :: i <= k < p ==> m[k][lead] == 0
    requires p < |m| ==> m[p][lead] != 0
    ensures PivotRow(m, cols, i, lead) == p
  {
  }

  // ---------------------------------------------------------------------
  // Elimination of the pivot column

  /** pivot·row − factor·pivotRow on the columns from `lead` on. */
  function EliminateRow(row: seq<int>, pivotRow: seq<int>, pivot: int, factor: int, lead: nat): (res: seq<int>)
    requires |row| == |pivotRow|
    ensures |res| == |row|
    ensures forall j :: 0 <= j < lead && j < |row| ==> res[j] == row[j]
    ensures lead < |row| && factor == row[lead] && pivot == pivotRow[lead] ==> res[lead] == 0
  {
    seq(|row|, j requires 0 <= j < |row| =>
      if j < lead then row[j] else pivot * row[j] - factor * pivotRow[j])
  }

  /** One elimination pass with pivot row `r` and pivot column `lead`: every
      other row is cross-multiplied against the pivot row. When the pivot
      entry is zero the pass leaves every row alone. */
  function Eliminated(m: Matrix, cols: nat, r: nat, lead: nat): (e: Matrix)
    requires Shaped(m, cols) && r < |m| && lead < cols
    ensures |e| == |m| && Shaped(e, cols)
    ensures e[r] == m[r]
    ensures forall i, j :: 0 <= i < |m| && 0 <= j < lead ==> e[i][j] == m[i][j]
    ensures m[r][lead] != 0 ==> forall i :: 0 <= i < |m| && i != r ==> e[i][lead] == 0
  {
    var pivot := m[r][lead];
    seq(|m|, i requires 0 <= i < |m| =>
      if i == r || pivot == 0 then m[i] else EliminateRow(m[i], m[r], pivot, m[i][lead], lead))
  }

  /** Rows other than the pivot row change only in columns `lead` and on,
      and there each entry becomes pivot·m[i][j] − m[i][lead]·m[r][j]. */
  lemma EliminatedFrame(m: Matrix, cols: nat, r: nat, lead: nat, i: nat, j: nat)
    requires Shaped(m, cols) && r < |m| && lead < cols
    requires i < |m| && j < cols
    ensures var e := Eliminated(m, cols, r, lead);
      e[i][j] == if i == r || j < lead || m[r][lead] == 0 then m[i][j]
                 else m[r][lead] * m[i][j] - m[i][lead] * m[r][j]
  {
  }

  /** Right after the pivot search succeeds and the pivot row is swapped up,
      the pivot entry is non-zero: the `pivot_val == 0` guard never fires. */
  lemma PivotGuardDead(m: Matrix, cols: nat, r: nat, lead: nat)
    requires Shaped(m, cols) && r < |m| && lead < cols
    requires PivotRow(m, cols, r, lead) < |m|
    ensures Swapped(m, cols, r, PivotRow(m, cols, r, lead))[r][lead] != 0
  {
  }

  // ---------------------------------------------------------------------
  // The outer loop

  /** Loop state: the working matrix, the current row `r` and column `lead`. */
  datatype State = State(m: Matrix, r: nat, lead: nat)

  predicate Valid(s: State, cols: nat) {
    Shaped(s.m, cols) && s.r <= |s.m| && s.lead <= cols
  }

  /** One pass of the loop body: search column `lead` from row `r`.
      Without a pivot the column advances and the row is kept (the `r--`
      cancels the `r++`); with one, the pivot row is swapped up, the column
      is cleared elsewhere, and both advance. */
  function Step(s: State, cols: nat): (t: State)
    requires Valid(s, cols) && s.r < |s.m| && s.lead < cols
    ensures Valid(t, cols) && |t.m| == |s.m|
    ensures t.lead == s.lead + 1
    ensures t.r == s.r + 1 <==> PivotRow(s.m, cols, s.r, s.lead) < |s.m|
    ensures t.r == s.r <==> PivotRow(s.m, cols, s.r, s.lead) == |s.m|
    ensures t.r == s.r ==> t.m == s.m
  {
    var p := PivotRow(s.m, cols, s.r, s.lead);
    if p == |s.m| then State(s.m, s.r, s.lead + 1)
    else State(Eliminated(Swapped(s.m, cols, s.r, p), cols, s.r, s.lead), s.r + 1, s.lead + 1)
  }

  /** The `for (r = 0; r < rows && lead < cols; r++)` loop from state `s`.
      Every pass advances `lead`, which is why the loop ends. */
  function Reduce(s: State, cols: nat): (t: State)
    requires Valid(s, cols)
    ensures Valid(t, cols) && |t.m| == |s.m|
    ensures s.r <= t.r && s.lead <= t.lead
    ensures t.r == |t.m| || t.lead == cols
    ensures t.r - s.r <= t.lead - s.lead
    decreases cols - s.lead
  {
    if s.r >= |s.m| || s.lead >= cols then s
    else Reduce(Step(s, cols), cols)
  }

  // ---------------------------------------------------------------------
  // Counting non-zero rows

  predicate NonZeroRow(row: seq<int>) {
    exists j :: 0 <= j < |row| && row[j] != 0
  }

  /** The number of rows with at least one non-zero entry. */
  function CountNonZeroRows(m: Matrix): (n: nat)
    ensures n <= |m|
  {
    if |m| == 0 then 0
    else CountNonZeroRows(m[..|m| - 1]) + (if NonZeroRow(m[|m| - 1]) then 1 else 0)
  }

  /** The value `calculate_rank` returns for a matrix of `|m|` rows. */
  function Rank(m: Matrix, cols: nat): nat
    requires Shaped(m, cols)
  {
    CountNonZeroRows(Reduce(State(m, 0, 0), cols).m)
  }

  // ---------------------------------------------------------------------
  // Echelon invariant of the outer loop

  /** Some entry before column `n` is non-zero. */
  predicate NonZeroBefore(row: seq<int>, n: nat) {
    exists j :: 0 <= j < n && j < |row| && row[j] != 0
  }

  /** What the loop keeps: rows from `r` on are zero in every column before
      `lead`, each row before `r` has a non-zero entry before `lead`, and
      the row index never passes the column index. */
  predicate Echelon(s: State, cols: nat) {
    Valid(s, cols) && s.r <= s.lead
    && (forall k, j :: s.r <= k < |s.m| && 0 <= j < s.lead ==> s.m[k][j] == 0)
    && (forall k :: 0 <= k < s.r ==> NonZeroBefore(s.m[k], s.lead))
  }

  lemma StartIsEchelon(m: Matrix, cols: nat)
    requires Shaped(m, cols)
    ensures Echelon(State(m, 0, 0), cols)
  {
  }

  /** A pass that finds no pivot keeps the invariant. */
  lemma NoPivotStep(s: State, cols: nat)
    requires Echelon(s, cols) && s.r < |s.m| && s.lead < cols
    requires PivotRow(s.m, cols, s.r, s.lead) == |s.m|
    ensures Echelon(State(s.m, s.r, s.lead + 1), cols)
  {
    var t := State(s.m, s.r, s.lead + 1);
    forall k | 0 <= k < t.r
      ensures NonZeroBefore(t.m[k], t.lead)
    {
      var j :| 0 <= j < s.lead && j < |s.m[k]| && s.m[k][j] != 0;
      assert 0 <= j < t.lead;
    }
  }

  /** A pass that swaps pivot row `p` up and eliminates keeps the invariant
      one row and one column further on. */
  lemma PivotStep(s: State, cols: nat, p: nat)
    requires Echelon(s, cols) && s.r < |s.m| && s.lead < cols
    requires p == PivotRow(s.m, cols, s.r, s.lead) && p < |s.m|
    ensures Echelon(State(Eliminated(Swapped(s.m, cols, s.r, p), cols, s.r, s.lead), s.r + 1, s.lead + 1), cols)
  {
    var w := Swapped(s.m, cols, s.r, p);
    var e := Eliminated(w, cols, s.r, s.lead);
    var t := State(e, s.r + 1, s.lead + 1);
    assert w[s.r][s.lead] != 0;
    forall k, j | t.r <= k < |t.m| && 0 <= j < t.lead
      ensures t.m[k][j] == 0
    {
      if j < s.lead {
        assert e[k][j] == w[k][j];
        if k == p {
          assert w[k] == s.m[s.r];
        } else {
          assert w[k] == s.m[k];
        }
      }
    }
    forall k | 0 <= k < t.r
      ensures NonZeroBefore(t.m[k], t.lead)
    {
      if k == s.r {
        assert e[k][s.lead] == s.m[p][s.lead];
      } else {
        assert w[k] == s.m[k];
        var j :| 0 <= j < s.lead && j < |s.m[k]| && s.m[k][j] != 0;
        assert e[k][j] == w[k][j];
      }
    }
  }

  /** One pass keeps the invariant. */
  lemma StepEchelon(s: State, cols: nat)
    requires Echelon(s, cols) && s.r < |s.m| && s.lead < cols
    ensures Echelon(Step(s, cols), cols)
  {
    var p := PivotRow(s.m, cols, s.r, s.lead);
    if p == |s.m| {
      NoPivotStep(s, cols);
    } else {
      PivotStep(s, cols, p);
    }
  }

  /** The whole loop keeps the invariant. */
  lemma {:induction false} ReduceEchelon(s: State, cols: nat)
    requires Echelon(s, cols)
    ensures Echelon(Reduce(s, cols), cols)
    decreases cols - s.lead
  {
    if s.r < |s.m| && s.lead < cols {
      StepEchelon(s, cols);
      ReduceEchelon(Step(s, cols), cols);
    }
  }

  /** Rows before `r` non-zero and rows from `r` on zero: exactly `r` rows count. */
  lemma {:induction false} CountSplit(m: Matrix, r: nat)
    requires r <= |m|
    requires forall k :: 0 <= k < r ==> NonZeroRow(m[k])
    requires forall k :: r <= k < |m| ==> !NonZeroRow(m[k])
    ensures CountNonZeroRows(m) == r
    decreases |m|
  {
    if |m| == 0 {
    } else {
      var n := |m| - 1;
      var pre := m[..n];
      if r == |m| {
        CountSplit(pre, n);
      } else {
        CountSplit(pre, r);
      }
    }
  }

  /** When the loop has ended in the echelon shape, the non-zero rows are
      exactly the `r` pivot rows. */
  lemma EchelonCount(s: State, cols: nat)
    requires Echelon(s, cols)
    requires s.r == |s.m| || s.lead == cols
    ensures CountNonZeroRows(s.m) == s.r
  {
    forall k | 0 <= k < s.r
      ensures NonZeroRow(s.m[k])
    {
      var j :| 0 <= j < s.lead && j < |s.m[k]| && s.m[k][j] != 0;
    }
    forall k | s.r <= k < |s.m|
      ensures !NonZeroRow(s.m[k])
    {
      assert forall j :: 0 <= j < |s.m[k]| ==> s.m[k][j] == 0;
    }
    CountSplit(s.m, s.r);
  }

  /** The rank is the number of pivots the elimination finds, and so is at
      most the number of rows and at most the number of columns. */
  lemma RankIsPivotCount(m: Matrix, cols: nat)
    requires Shaped(m, cols)
    ensures Rank(m, cols) == Reduce(State(m, 0, 0), cols).r
    ensures Rank(m, cols) <= |m| && Rank(m, cols) <= cols
  {
    StartIsEchelon(m, cols);
    ReduceEchelon(State(m, 0, 0), cols);
    EchelonCount(Reduce(State(m, 0, 0), cols), cols);
  }

  /** The columns from `s.lead` on that receive no pivot: those whose search
      finds nothing, and those the loop never reaches once the rows run out. */
  function FreeColumns(s: State, cols: nat): nat
    requires Valid(s, cols)
    decreases cols - s.lead
  {
    if s.r >= |s.m| || s.lead >= cols then cols - s.lead
    else (if PivotRow(s.m, cols, s.r, s.lead) == |s.m| then 1 else 0) + FreeColumns(Step(s, cols), cols)
  }

  /** Every column from `s.lead` on either receives a pivot or is free. */
  lemma {:induction false} PivotsPlusFree(s: State, cols: nat)
    requires Valid(s, cols)
    ensures Reduce(s, cols).r - s.r + FreeColumns(s, cols) == cols - s.lead
    decreases cols - s.lead
  {
    if s.r < |s.m| && s.lead < cols {
      PivotsPlusFree(Step(s, cols), cols);
    }
  }

  /** After elimination, every row from the rank on is entirely zero and
      every row before it is not. */
  lemma ReducedShape(m: Matrix, cols: nat)
    requires Shaped(m, cols)
    ensures var t := Reduce(State(m, 0, 0), cols);
      (forall k :: 0 <= k < Rank(m, cols) ==> NonZeroRow(t.m[k]))
      && (forall k, j :: Rank(m, cols) <= k < |m| && 0 <= j < cols ==> t.m[k][j] == 0)
  {
    var t := Reduce(State(m, 0, 0), cols);
    RankIsPivotCount(m, cols);
    StartIsEchelon(m, cols);
    ReduceEchelon(State(m, 0, 0), cols);
    forall k | 0 <= k < t.r
      ensures NonZeroRow(t.m[k])
    {
      var j :| 0 <= j < t.lead && j < |t.m[k]| && t.m[k][j] != 0;
    }
  }

  predicate IsZero(m: Matrix) {
    forall i, j :: 0 <= i < |m| && 0 <= j < |m[i]| ==> m[i][j] == 0
  }

  /** On a zero matrix no pass finds a pivot. */
  lemma {:induction false} ZeroNoPivot(s: State, cols: nat)
    requires Valid(s, cols) && IsZero(s.m) && s.r == 0
    ensures Reduce(s, cols).r == 0
    decreases cols - s.lead
  {
    if s.r < |s.m| && s.lead < cols {
      assert PivotRow(s.m, cols, s.r, s.lead) == |s.m|;
      ZeroNoPivot(Step(s, cols), cols);
    }
  }

  /** While no pivot has been found the matrix is untouched. */
  lemma {:induction false} NoPivotKeepsMatrix(s: State, cols: nat)
    requires Valid(s, cols) && s.r == 0
    requires Reduce(s, cols).r == 0
    ensures Reduce(s, cols).m == s.m
    decreases cols - s.lead
  {
    if s.r < |s.m| && s.lead < cols {
      NoPivotKeepsMatrix(Step(s, cols), cols);
    }
  }

  /** The rank is zero exactly for the zero matrix. */
  lemma RankZeroIff(m: Matrix, cols: nat)
    requires Shaped(m, cols)
    ensures Rank(m, cols) == 0 <==> IsZero(m)
  {
    RankIsPivotCount(m, cols);
    var t := Reduce(State(m, 0, 0), cols);
    if IsZero(m) {
      ZeroNoPivot(State(m, 0, 0), cols);
    }
    if t.r == 0 {
      NoPivotKeepsMatrix(State(m, 0, 0), cols);
      StartIsEchelon(m, cols);
      ReduceEchelon(State(m, 0, 0), cols);
    }
  }

  // ---------------------------------------------------------------------
  // The C loops

  /** `swapRows`: exchanges the `cols` entries of rows `r1` and `r2` one
      column at a time. */
  method SwapRows(m: Matrix, r1: nat, r2: nat, cols: nat) returns (res: Matrix)
    requires Shaped(m, cols) && r1 < |m| && r2 < |m|
    ensures res == Swapped(m, cols, r1, r2)
  {
    res := m;
    var j := 0;
    while j < cols
      invariant 0 <= j <= cols
      invariant |res| == |m| && |res[r1]| == cols && |res[r2]| == cols
      invariant forall k :: 0 <= k < |m| && k != r1 && k != r2 ==> res[k] == m[k]
      invariant forall q :: 0 <= q < j ==> res[r1][q] == m[r2][q] && res[r2][q] == m[r1][q]
      invariant forall q :: j <= q < cols ==> res[r1][q] == m[r1][q] && res[r2][q] == m[r2][q]
    {
      var temp := res[r1][j];
      res := res[r1 := res[r1][j := res[r2][j]]];
      res := res[r2 := res[r2][j := temp]];
      j := j + 1;
    }
    assert res[r1] == m[r2];
    assert res[r2] == m[r1];
  }

  /** The `while` loop that searches column `lead` for a pivot from row `r`. */
  method FindPivotRow(m: Matrix, cols: nat, r: nat, lead: nat) returns (i: nat)
    requires Shaped(m, cols) && r <= |m| && lead < cols
    ensures i == PivotRow(m, cols, r, lead)
  {
    i := r;
    while i < |m| && m[i][lead] == 0
      invariant r <= i <= |m|
      invariant forall k :: r <= k < i ==> m[k][lead] == 0
    {
      i := i + 1;
    }
    PivotRowUnique(m, cols, r, lead, i);
  }

  /** The elimination loop: every row other than `r` becomes
      pivot·row − factor·(row r) from column `lead` on. */
  method EliminateColumn(m: Matrix, cols: nat, r: nat, lead: nat) returns (res: Matrix)
    requires Shaped(m, cols) && r < |m| && lead < cols
    ensures res == Eliminated(m, cols, r, lead)
  {
    var e := Eliminated(m, cols, r, lead);
    res := m;
    var i := 0;
    while i < |m|
      invariant 0 <= i <= |m| && |res| == |m|
      invariant forall k :: 0 <= k < i ==> res[k] == e[k]
      invariant forall k :: i <= k < |m| ==> res[k] == m[k]
    {
      if i != r {
        var factor := res[i][lead];
        var pivotVal := res[r][lead];
        if pivotVal != 0 {
          var j := lead;
          while j < cols
            invariant lead <= j <= cols && |res| == |m| && |res[i]| == cols
            invariant res[r] == m[r]
            invariant forall k :: 0 <= k < |m| && k != i ==> res[k] == (if k < i then e[k] else m[k])
            invariant forall q :: 0 <= q < cols ==>
              res[i][q] == if lead <= q < j then pivotVal * m[i][q] - factor * m[r][q] else m[i][q]
          {
            res := res[i := res[i][j := pivotVal * res[i][j] - factor * res[r][j]]];
            j := j + 1;
          }
        }
        assert res[i] == e[i];
      }
      i := i + 1;
    }
    assert res == e;
  }

  /** The final double loop: a row counts once its first non-zero entry is
      met (the `break`). */
  method CountRows(m: Matrix, cols: nat) returns (rank: nat)
    requires Shaped(m, cols)
    ensures rank == CountNonZeroRows(m)
  {
    rank := 0;
    var i := 0;
    while i < |m|
      invariant 0 <= i <= |m|
      invariant rank == CountNonZeroRows(m[..i])
    {
      var j := 0;
      var found := false;
      while j < cols && !found
        invariant 0 <= j <= cols
        decreases cols - j, if found then 0 else 1
        invariant forall q :: 0 <= q < j ==> m[i][q] == 0 || found
        invariant found ==> NonZeroRow(m[i])
        invariant !found ==> forall q :: 0 <= q < j ==> m[i][q] == 0
      {
        if m[i][j] != 0 {
          found := true;
        } else {
          j := j + 1;
        }
      }
      assert m[..i + 1][..i] == m[..i];
      if found {
        rank := rank + 1;
      }
      i := i + 1;
    }
    assert m[..|m|] == m;
  }

  /** One pass of the `for` loop body: search, and on a pivot swap and
      eliminate. */
  method Pass(m: Matrix, cols: nat, r: nat, lead: nat) returns (m': Matrix, r': nat, lead': nat)
    requires Valid(State(m, r, lead), cols) && r < |m| && lead < cols
    ensures State(m', r', lead') == Step(State(m, r, lead), cols)
  {
    var i := FindPivotRow(m, cols, r, lead);
    if i == |m| {
      m', r', lead' := m, r, lead + 1;
    } else {
      m' := SwapRows(m, r, i, cols);
      m' := EliminateColumn(m', cols, r, lead);
      r', lead' := r + 1, lead + 1;
    }
  }

  /** `calculate_rank` on a row-major array of `rows * cols` integers. */
  method CalculateRank(matrix: seq<int>, rows: nat, cols: nat) returns (rank: nat)
    requires |matrix| == rows * cols
    ensures rank == Rank(Unflatten(matrix, rows, cols), cols)
  {
    var m0 := Unflatten(matrix, rows, cols);
    var m := m0;
    var r: nat, lead: nat := 0, 0;
    while r < rows && lead < cols
      invariant Valid(State(m, r, lead), cols) && |m| == rows
      invariant Reduce(State(m, r, lead), cols) == Reduce(State(m0, 0, 0), cols)
      decreases cols - lead
    {
      m, r, lead := Pass(m, cols, r, lead);
    }
    rank := CountRows(m, cols);
  }

  // ---------------------------------------------------------------------
  // The matrix of mat251.py

  const Mat251: Matrix := [[1, 2, 2, 3], [3, 4, 2, 5], [5, 6, 2, 7], [7, 8, 2, 9]]

  /** The entrywise difference of two rows of equal length. */
  function RowDiff(u: seq<int>, v: seq<int>): (d: seq<int>)
    requires |u| == |v|
    ensures |d| == |u| && forall j :: 0 <= j < |u| ==> u[j] == v[j] + d[j]
  {
    seq(|u|, j requires 0 <= j < |u| => u[j] - v[j])
  }

  /** Consecutive rows differ by the same vector (2, 2, 0, 2). */
  lemma Mat251RowsDiffer()
    ensures RowDiff(Mat251[1], Mat251[0]) == [2, 2, 0, 2]
    ensures RowDiff(Mat251[2], Mat251[1]) == [2, 2, 0, 2]
    ensures RowDiff(Mat251[3], Mat251[2]) == [2, 2, 0, 2]
  {
  }

  /** The working matrix after the first and after the second pivot. */
  const Mat251Pass1: Matrix := [[1, 2, 2, 3], [0, -2, -4, -4], [0, -4, -8, -8], [0, -6, -12, -12]]
  const Mat251Pass2: Matrix := [[1, 0, 4, 2], [0, -2, -4, -4], [0, 0, 0, 0], [0, 0, 0, 0]]

  /** Pivot 1 in row 0, column 0: rows 1..3 become 1·row − k·(row 0). */
  lemma Mat251FirstPass()
    ensures Step(State(Mat251, 0, 0), 4) == State(Mat251Pass1, 1, 1)
  {
    var m0, m1 := Mat251, Mat251Pass1;
    PivotRowUnique(m0, 4, 0, 0, 0);
    SwapSelf(m0, 4, 0);
    var e := Eliminated(m0, 4, 0, 0);
    assert e[1] == EliminateRow(m0[1], m0[0], 1, 3, 0) == m1[1];
    assert e[2] == EliminateRow(m0[2], m0[0], 1, 5, 0) == m1[2];
    assert e[3] == EliminateRow(m0[3], m0[0], 1, 7, 0) == m1[3];
    assert e == m1;
  }

  /** Pivot −2 in row 1, column 1 clears column 1 everywhere else. */
  lemma Mat251SecondPass()
    ensures Step(State(Mat251Pass1, 1, 1), 4) == State(Mat251Pass2, 2, 2)
  {
    var m1, m2 := Mat251Pass1, Mat251Pass2;
    PivotRowUnique(m1, 4, 1, 1, 1);
    SwapSelf(m1, 4, 1);
    var e := Eliminated(m1, 4, 1, 1);
    assert e[0] == EliminateRow(m1[0], m1[1], -2, 2, 1) == m2[0];
    assert e[2] == EliminateRow(m1[2], m1[1], -2, -4, 1) == m2[2];
    assert e[3] == EliminateRow(m1[3], m1[1], -2, -6, 1) == m2[3];
    assert e == m2;
  }

  /** Rows 2 and 3 are zero, so columns 2 and 3 have no pivot. */
  lemma Mat251LastPasses()
    ensures Reduce(State(Mat251Pass2, 2, 2), 4) == State(Mat251Pass2, 2, 4)
  {
    PivotRowUnique(Mat251Pass2, 4, 2, 2, 4);
    assert Step(State(Mat251Pass2, 2, 2), 4) == State(Mat251Pass2, 2, 3);
    PivotRowUnique(Mat251Pass2, 4, 2, 3, 4);
    assert Step(State(Mat251Pass2, 2, 3), 4) == State(Mat251Pass2, 2, 4);
  }

  /** The elimination finds two pivots, so the rank printed is 2. */
  lemma Mat251Rank()
    ensures Rank(Mat251, 4) == 2
  {
    Mat251FirstPass();
    Mat251SecondPass();
    Mat251LastPasses();
    assert Reduce(State(Mat251, 0, 0), 4) == Reduce(State(Mat251Pass2, 2, 2), 4);
    RankIsPivotCount(Mat251, 4);
  }
}
