/** Placement in a two-column grid layout filled row by row, as both tabs fill theirs. */
module GridLayout {

  /** The (row, column) of the `j`th widget: the column advances and wraps to a new row after 1. */
  function Cell(j: nat): (r: (nat, nat))
    ensures r.1 < 2 && j == 2 * r.0 + r.1
  {
    (j / 2, j % 2)
  }

  /** The cell after (`row`, `col`), as the `col += 1; if col > 1: col = 0; row += 1` step finds it. */
  lemma CellNext(j: nat, row: nat, col: nat)
    requires Cell(j) == (row, col)
    ensures Cell(j + 1) == if col + 1 > 1 then (row + 1, 0) else (row, col + 1)
  {
  }
}
