/**
 * One player's Housie ticket.
 *
 * The ticket keeps its numbers twice over: `topLine` holds the numbers of
 * row 0 not yet called, `fullHouse` every number of the ticket not yet
 * called. The `grid` (rows x columns, 0 for an empty cell) is the printed
 * layout only; the win queries never look at it.
 */
module Tickets {
  import opened Numbers

  /** Largest Java `int`; the column draw is `nextInt(MaxInt) + 1`. */
  const MaxInt := 0x7fff_ffff

  /** Column for a random positive int: the remainder modulo the column count. */
  function GetIndex(randomInt: int, columns: int): (index: int)
    requires 1 <= randomInt && 1 <= columns
    ensures 0 <= index < columns
  {
    randomInt % columns
  }

  /** Every column is the index of some random int the column draw can return. */
  lemma EveryColumnReachable(c: int, columns: int)
    requires 0 <= c < columns <= MaxInt
    ensures exists r :: 1 <= r <= MaxInt && GetIndex(r, columns) == c
  {
    var r := if c == 0 then columns else c;
    RemainderOfWitness(c, columns);
    assert 1 <= r <= MaxInt && GetIndex(r, columns) == c;
  }

  lemma RemainderOfWitness(c: int, columns: int)
    requires 0 <= c < columns
    ensures (if c == 0 then columns else c) % columns == c
  {
  }

  /** i * n as repeated addition, which keeps products out of the filler's invariant. */
  function Times(i: nat, n: nat): (product: nat)
  {
    if i == 0 then 0 else Times(i - 1, n) + n
  }

  lemma {:induction false} TimesIsProduct(i: nat, n: nat)
    ensures Times(i, n) == i * n
  {
    if i > 0 {
      TimesIsProduct(i - 1, n);
    }
  }

  /** Before the last row is complete, fewer than rows * n numbers are placed. */
  lemma TimesBelow(i: nat, j: nat, rows: nat, n: nat)
    requires i < rows && j < n
    ensures Times(i, n) + j < rows * n
  {
    TimesGrows(i + 1, rows, n);
    TimesIsProduct(rows, n);
  }

  lemma {:induction false} TimesGrows(i: nat, k: nat, n: nat)
    requires i <= k
    ensures Times(i, n) <= Times(k, n)
  {
    if i < k {
      TimesGrows(i, k - 1, n);
    }
  }

  /** Two sets share no element exactly when their intersection has size 0. */
  lemma Disjoint(a: set<int>, b: set<int>)
    ensures |a * b| == 0 <==> forall v :: v in a ==> v !in b
  {
    if forall v :: v in a ==> v !in b {
      assert a * b == {};
    } else {
      var v :| v in a && v in b;
      assert v in a * b;
    }
  }

  /** A positive number of numbers per ticket means at least one row and one number per row. */
  lemma NonEmptyTicket(rows: nat, numbersPerRow: nat)
    requires rows * numbersPerRow >= 1
    ensures rows >= 1 && numbersPerRow >= 1
  {
  }

  /**
   * Adding number n at row i, column index keeps the top line equal to the
   * numbers placed in row 0 and the drawn numbers equal to the placed ones.
   */
  lemma RowZeroStep(topLine: set<int>, topLine': set<int>, fullHouse: set<int>,
                    cell: map<int, (int, int)>, n: int, i: int, index: int)
    requires fullHouse == cell.Keys && n !in cell
    requires forall v :: v in topLine <==> v in cell && cell[v].0 == 0
    requires topLine' == if i == 0 then topLine + {n} else topLine
    ensures fullHouse + {n} == cell[n := (i, index)].Keys
    ensures forall v :: v in topLine' <==> v in cell[n := (i, index)] && cell[n := (i, index)][v].0 == 0
  {
  }

  class Ticket {
    const rows: nat
    const columns: nat
    const numbersPerRow: nat
    const range: nat
    const grid: array2<int>
    var topLine: set<int>
    var fullHouse: set<int>

    // The numbers the ticket was filled with, and those of row 0.
    ghost var placed: set<int>
    ghost var topRow: set<int>
    // Where each number sits in the grid, and the occupied columns of each row.
    ghost var cell: map<int, (int, int)>
    ghost var occupied: seq<set<int>>

    /** The ticket invariant: the remaining sets are what is left of the filled ticket. */
    ghost predicate Valid()
      reads this
    {
      grid.Length0 == rows && grid.Length1 == columns &&
      topRow <= placed && fullHouse <= placed &&
      topLine == topRow * fullHouse &&
      |placed| == rows * numbersPerRow &&
      (forall v :: v in placed ==> 1 <= v <= range)
    }

    /**
     * The grid shows the ticket's numbers: every number sits in a cell of the
     * grid (row 0 exactly for the top-row numbers), every nonzero cell holds a
     * number of the ticket, and every row has exactly numbersPerRow nonzero
     * cells, its occupied columns.
     */
    ghost predicate LaidOut()
      reads this, grid
      requires grid.Length0 == rows && grid.Length1 == columns
    {
      cell.Keys == placed &&
      (forall v :: v in topRow <==> v in cell && cell[v].0 == 0) &&
      GridSoFar(rows, 0, occupied)
    }

    constructor (rows: nat, columns: nat, numbersPerRow: nat, range: nat)
      requires numbersPerRow <= columns <= MaxInt
      requires rows * numbersPerRow <= range
      ensures this.rows == rows && this.columns == columns
      ensures this.numbersPerRow == numbersPerRow && this.range == range
      ensures Valid() && LaidOut() && fresh(grid)
      ensures fullHouse == placed && topLine == topRow
      ensures |topRow| == if rows == 0 then 0 else numbersPerRow
      ensures NumberOfHits() == 0
      ensures rows * numbersPerRow >= 1 ==> !TopLineWon() && !FullHouseWon()
    {
      this.rows := rows;
      this.columns := columns;
      this.numbersPerRow := numbersPerRow;
      this.range := range;
      this.grid := new int[rows, columns]((_, _) => 0);
      this.topLine := {};
      this.fullHouse := {};
      new;
      FillTicket();
      if rows * numbersPerRow >= 1 {
        NonEmptyTicket(rows, numbersPerRow);
      }
    }

    /** The numbers drawn once rows 0..i-1 are complete and j numbers of row i are placed. */
    ghost predicate NumbersSoFar(i: int, j: int)
      reads this`fullHouse, this`topLine
    {
      0 <= i <= rows && 0 <= j <= numbersPerRow && (i == rows ==> j == 0) &&
      |fullHouse| == Times(i, numbersPerRow) + j &&
      (forall v :: v in fullHouse ==> 1 <= v <= range) &&
      topLine <= fullHouse &&
      |topLine| == (if i == 0 then j else numbersPerRow)
    }

    /**
     * The grid at the same moment: each placed number sits in its recorded
     * cell, nonzero cells hold placed numbers, occ[r] is the set of nonzero
     * columns of row r, rows before i are full and rows after i are empty.
     */
    ghost predicate GridSoFar(i: int, j: int, occ: seq<set<int>>)
      reads this`cell, grid
      requires grid.Length0 == rows && grid.Length1 == columns
    {
      0 <= i <= rows && |occ| == rows && 0 !in cell &&
      (forall v :: v in cell ==>
         0 <= cell[v].0 < rows && 0 <= cell[v].1 < columns && grid[cell[v].0, cell[v].1] == v) &&
      (forall r, c :: 0 <= r < rows && 0 <= c < columns && grid[r, c] != 0 ==> grid[r, c] in cell) &&
      (forall r, c {:trigger grid[r, c]} :: 0 <= r < rows && 0 <= c < columns ==>
         (grid[r, c] != 0 <==> c in occ[r])) &&
      (forall r, c :: 0 <= r < rows && c in occ[r] ==> 0 <= c < columns) &&
      (forall r :: 0 <= r < i ==> |occ[r]| == numbersPerRow) &&
      (i < rows ==> |occ[i]| == j) &&
      (forall r :: i < r < rows ==> occ[r] == {})
    }

    /** Row 0's numbers are the top line, and the numbers drawn are those placed in the grid. */
    ghost predicate TopLineIsRowZero()
      reads this`cell, this`fullHouse, this`topLine
    {
      fullHouse == cell.Keys &&
      (forall v :: v in topLine <==> v in cell && cell[v].0 == 0)
    }

    /**
     * Draws rows * numbersPerRow distinct numbers in [1, range] and writes each
     * into a still-empty column of its row; row 0's numbers also go to topLine.
     */
    method FillTicket()
      requires grid.Length0 == rows && grid.Length1 == columns
      requires numbersPerRow <= columns <= MaxInt
      requires rows * numbersPerRow <= range
      requires topLine == {} && fullHouse == {}
      requires forall i, c :: 0 <= i < rows && 0 <= c < columns ==> grid[i, c] == 0
      modifies this`topLine, this`fullHouse, this`placed, this`topRow, this`cell, this`occupied, grid
      ensures Valid() && LaidOut()
      ensures fullHouse == placed && topLine == topRow
      ensures |topRow| == if rows == 0 then 0 else numbersPerRow
    {
      cell := map[];
      ghost var occ := FillRows();
      placed := fullHouse;
      topRow := topLine;
      occupied := occ;
      Filled(occ);
    }

    /** The outer loop of the filler: rows 0..rows-1 in order. */
    method FillRows() returns (ghost occ: seq<set<int>>)
      requires grid.Length0 == rows && grid.Length1 == columns
      requires numbersPerRow <= columns <= MaxInt
      requires rows * numbersPerRow <= range
      requires topLine == {} && fullHouse == {} && cell == map[]
      requires forall i, c :: 0 <= i < rows && 0 <= c < columns ==> grid[i, c] == 0
      modifies this`topLine, this`fullHouse, this`cell, grid
      ensures Filling(rows, 0, occ)
    {
      occ := seq(rows, _ => {});
      var i := 0;
      while i < rows
        invariant Filling(i, 0, occ)
      {
        occ := FillRow(i, occ);
        i := i + 1;
      }
    }

    /** The inner loop of the filler: numbersPerRow numbers into row i. */
    method FillRow(i: int, ghost occ: seq<set<int>>) returns (ghost occ': seq<set<int>>)
      requires numbersPerRow <= columns <= MaxInt
      requires rows * numbersPerRow <= range
      requires i < rows && Filling(i, 0, occ)
      modifies this`topLine, this`fullHouse, this`cell, grid
      ensures Filling(i + 1, 0, occ')
    {
      occ' := occ;
      var j := 0;
      while j < numbersPerRow
        invariant Filling(i, j, occ')
      {
        occ' := PlaceNext(i, j, occ');
        j := j + 1;
      }
      NextRow(i, occ');
    }

    /** The state of the filler after j numbers of row i: the three views agree. */
    ghost predicate Filling(i: int, j: int, occ: seq<set<int>>)
      reads this`fullHouse, this`topLine, this`cell, grid
    {
      grid.Length0 == rows && grid.Length1 == columns &&
      NumbersSoFar(i, j) && GridSoFar(i, j, occ) && TopLineIsRowZero()
    }

    /** One pass of the inner loop: draw a fresh number and a free column of row i. */
    method PlaceNext(i: int, j: int, ghost occ: seq<set<int>>) returns (ghost occ': seq<set<int>>)
      requires numbersPerRow <= columns <= MaxInt
      requires rows * numbersPerRow <= range
      requires i < rows && j < numbersPerRow && Filling(i, j, occ)
      modifies this`topLine, this`fullHouse, this`cell, grid
      ensures Filling(i, j + 1, occ')
    {
      TimesBelow(i, j, rows, numbersPerRow);
      var nextInt := DrawNumber();
      var index := DrawColumn(i, occ[i]);
      ghost var topLine0, fullHouse0, cell0 := topLine, fullHouse, cell;
      occ' := WriteCell(i, j, index, nextInt, occ);
      assert NumbersSoFar(i, j);
      AddNumber(i, j, nextInt);
      assert GridSoFar(i, j + 1, occ');
      RowZeroStep(topLine0, topLine, fullHouse0, cell0, nextInt, i, index);
    }

    /** A complete row i is the start of row i + 1. */
    lemma NextRow(i: int, occ: seq<set<int>>)
      requires i < rows && Filling(i, numbersPerRow, occ)
      ensures Filling(i + 1, 0, occ)
    {
    }

    /**
     * Once as many numbers as there are columns sit in row i, every cell of
     * the row holds a positive number: the column redraw `while (row[index] > 0)`
     * finds no cell to stop at, whatever index it draws.
     */
    lemma FullRowHasNoFreeColumn(i: int, occ: seq<set<int>>)
      requires i < rows && Filling(i, columns, occ)
      ensures forall c :: 0 <= c < columns ==> grid[i, c] > 0
    {
      FullRange(occ[i], 0, columns);
      forall c | 0 <= c < columns
        ensures grid[i, c] > 0
      {
        assert c in occ[i];
        assert grid[i, c] in fullHouse;
      }
    }

    /** A complete fill holds rows * numbersPerRow numbers, numbersPerRow of them in row 0. */
    lemma Filled(occ: seq<set<int>>)
      requires Filling(rows, 0, occ)
      requires placed == fullHouse && topRow == topLine && occupied == occ
      ensures Valid() && LaidOut()
      ensures |topRow| == if rows == 0 then 0 else numbersPerRow
    {
      TimesIsProduct(rows, numbersPerRow);
    }

    /** `row[index] = nextInt`: writes a new number into an empty cell of row i. */
    method WriteCell(i: int, j: int, index: int, nextInt: int, ghost occ: seq<set<int>>)
      returns (ghost occ': seq<set<int>>)
      requires grid.Length0 == rows && grid.Length1 == columns
      requires 0 <= i < rows && 0 <= j < numbersPerRow && GridSoFar(i, j, occ)
      requires 0 <= index < columns && grid[i, index] == 0
      requires 1 <= nextInt && nextInt !in cell
      modifies this`cell, grid
      ensures GridSoFar(i, j + 1, occ')
      ensures cell == old(cell)[nextInt := (i, index)]
    {
      grid[i, index] := nextInt;
      cell := cell[nextInt := (i, index)];
      occ' := occ[i := occ[i] + {index}];
    }

    /** `fullHouse.add(nextInt)`, and `topLine.add(nextInt)` on row 0. */
    method AddNumber(i: int, j: int, nextInt: int)
      requires 0 <= i < rows && 0 <= j < numbersPerRow && NumbersSoFar(i, j)
      requires 1 <= nextInt <= range && nextInt !in fullHouse
      modifies this`fullHouse, this`topLine
      ensures NumbersSoFar(i, j + 1)
      ensures fullHouse == old(fullHouse) + {nextInt}
      ensures topLine == if i == 0 then old(topLine) + {nextInt} else old(topLine)
    {
      fullHouse := fullHouse + {nextInt};
      if i == 0 {
        topLine := topLine + {nextInt};
      }
    }

    /**
     * The number draw of the filler: `nextInt(range) + 1`, redrawn while it
     * is already on the ticket, ends with a value in [1, range] not yet on it.
     */
    method DrawNumber() returns (nextInt: int)
      requires |fullHouse| < range
      requires forall v :: v in fullHouse ==> 1 <= v <= range
      ensures 1 <= nextInt <= range && nextInt !in fullHouse
    {
      FreshInRange(fullHouse, 1, range);
      nextInt :| 1 <= nextInt <= range && nextInt !in fullHouse;
    }

    /**
     * The column draw of the filler: `getIndex(nextInt(MaxInt) + 1, columns)`,
     * redrawn while that cell of row i is nonzero, ends on a column of row i
     * that is still 0. `occupiedColumns` are the nonzero columns of the row.
     */
    method DrawColumn(i: int, ghost occupiedColumns: set<int>) returns (index: int)
      requires grid.Length0 == rows && grid.Length1 == columns && 0 <= i < rows
      requires columns <= MaxInt
      requires forall c :: 0 <= c < columns ==> (grid[i, c] != 0 <==> c in occupiedColumns)
      requires forall c :: c in occupiedColumns ==> 0 <= c < columns
      requires |occupiedColumns| < columns
      ensures 0 <= index < columns && grid[i, index] == 0
    {
      FreshInRange(occupiedColumns, 0, columns);
      ghost var free :| 0 <= free < columns && free !in occupiedColumns;
      EveryColumnReachable(free, columns);
      var randomInt :| 1 <= randomInt <= MaxInt && grid[i, GetIndex(randomInt, columns)] == 0;
      index := GetIndex(randomInt, columns);
    }

    /** How many of the ticket's numbers have been called so far. */
    function NumberOfHits(): (hits: int)
      reads this
      requires Valid()
      ensures hits == |placed - fullHouse|
      ensures 0 <= hits <= rows * numbersPerRow
    {
      assert placed == (placed - fullHouse) + fullHouse;
      (rows * numbersPerRow) - |fullHouse|
    }

    /** Top Line: every number of row 0 has been called. */
    function TopLineWon(): (won: bool)
      reads this
      requires Valid()
      ensures won <==> topLine == {}
      ensures won <==> (forall v :: v in topRow ==> v !in fullHouse)
    {
      Disjoint(topRow, fullHouse);
      |topLine| == 0
    }

    /** Full House: every number of the ticket has been called. */
    function FullHouseWon(): (won: bool)
      reads this
      requires Valid()
      ensures won <==> fullHouse == {}
      ensures won <==> NumberOfHits() == |placed|
    {
      |fullHouse| == 0
    }

    /**
     * Marks a called number. Java's `selectNumber` evaluates
     * `(topLine.remove(n) && fullHouse.remove(n)) || fullHouse.remove(n)`
     * and this method keeps that order step by step: the result is whether n
     * was still on the ticket.
     */
    method SelectNumber(nextInt: int) returns (hit: bool)
      requires Valid()
      modifies this`topLine, this`fullHouse
      ensures Valid()
      ensures hit <==> nextInt in old(fullHouse)
      ensures topLine == old(topLine) - {nextInt} && fullHouse == old(fullHouse) - {nextInt}
      ensures nextInt !in fullHouse
      ensures NumberOfHits() == old(NumberOfHits()) + (if hit then 1 else 0)
    {
      var removedFromTop := nextInt in topLine;
      topLine := topLine - {nextInt};
      hit := false;
      if removedFromTop {
        hit := nextInt in fullHouse;
        fullHouse := fullHouse - {nextInt};
      }
      if !hit {
        hit := nextInt in fullHouse;
        fullHouse := fullHouse - {nextInt};
      }
    }
  }

  /**
   * Selects every value 1..range once, counting the hits: afterwards the
   * count equals the hits recorded and the ticket is both a Top Line and a
   * Full House winner.
   */
  method SelectEveryNumber(t: Ticket) returns (hitCount: int)
    requires t.Valid()
    modifies t`topLine, t`fullHouse
    ensures t.Valid()
    ensures hitCount == t.NumberOfHits() - old(t.NumberOfHits())
    ensures t.TopLineWon() && t.FullHouseWon()
  {
    ghost var hits0 := t.NumberOfHits();
    hitCount := 0;
    var i := 1;
    while i <= t.range
      invariant 1 <= i <= t.range + 1
      invariant t.Valid()
      invariant forall v :: v in t.fullHouse ==> i <= v
      invariant hitCount == t.NumberOfHits() - hits0
    {
      var hit := t.SelectNumber(i);
      if hit {
        hitCount := hitCount + 1;
      }
      i := i + 1;
    }
    assert forall v :: v !in t.fullHouse;
    assert t.fullHouse == {};
  }
}
