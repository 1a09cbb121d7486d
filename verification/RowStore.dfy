/** The rows of a screen as they are kept: arrays of cells that are written, shifted and handed from
    one place on the screen to another, with what is known of each row beside them. */
module RowStore {
  import opened Vt
  import opened Grid

  // ---------------------------------------------------------------- one row

  method NewRow(cols: nat) returns (row: array<Cell>)
    ensures fresh(row) && row[..] == BlankRow(cols)
  {
    row := new Cell[cols](_ => BLANK);
  }

  // Clears a row in place.
  method Blank(row: array<Cell>)
    modifies row
    ensures row[..] == BlankRow(row.Length)
  {
    var i := 0;
    while i < row.Length
      invariant 0 <= i <= row.Length && row[..i] == BlankRow(i)
    {
      row[i] := BLANK;
      i := i + 1;
    }
  }

  method Fill(row: array<Cell>, from: int, to: int, fill: Cell)
    modifies row
    ensures row[..] == EraseCells(old(row[..]), from, to, fill)
  {
    var c := Max(from, 0);
    while c <= Min(to, row.Length - 1)
      invariant Max(from, 0) <= c
      invariant forall k :: 0 <= k < row.Length ==> row[k] == if from <= k < c && k <= to then fill else old(row[k])
      decreases row.Length - c
    {
      row[c] := fill;
      c := c + 1;
    }
  }

  // Cells from a column on move right by n, over the last ones.
  method MoveRight(row: array<Cell>, col: int, n: nat)
    requires 0 <= col <= row.Length
    modifies row
    ensures forall k :: 0 <= k < row.Length && k < col + n ==> row[k] == old(row[..])[k]
    ensures forall k :: col + n <= k < row.Length ==> row[k] == old(row[..])[k - n]
  {
    ghost var before := row[..];
    var c := row.Length;
    while c > col + n
      invariant c <= row.Length
      invariant forall k :: 0 <= k < row.Length && (k < c || k < col + n) ==> row[k] == before[k]
      invariant forall k :: c <= k < row.Length && col + n <= k ==> row[k] == before[k - n]
    {
      c := c - 1;
      row[c] := row[c - n];
    }
  }

  // Cells from a column on move left by n; the last ones stay where they were as well.
  method MoveLeft(row: array<Cell>, col: int, n: nat)
    requires 0 <= col && col + n <= row.Length
    modifies row
    ensures forall k :: 0 <= k < row.Length && !(col <= k < row.Length - n) ==> row[k] == old(row[..])[k]
    ensures forall k :: col <= k < row.Length - n ==> row[k] == old(row[..])[k + n]
  {
    ghost var before := row[..];
    var c := col;
    while c < row.Length - n
      invariant col <= c <= row.Length - n
      invariant forall k :: 0 <= k < row.Length && !(col <= k < c) ==> row[k] == before[k]
      invariant forall k :: col <= k < c ==> row[k] == before[k + n]
    {
      row[c] := row[c + n];
      c := c + 1;
    }
  }

  lemma InsertedCells(before: seq<Cell>, moved: seq<Cell>, col: int, n: nat, fill: Cell)
    requires 0 <= col <= |before| == |moved|
    requires forall k :: 0 <= k < |before| && k < col + n ==> moved[k] == before[k]
    requires forall k :: col + n <= k < |before| ==> moved[k] == before[k - n]
    ensures EraseCells(moved, col, col + n - 1, fill) == InsertCells(before, col, n, fill)
  {
  }

  // n cells come in at a column.
  method InsertInto(row: array<Cell>, col: int, n: nat, fill: Cell)
    requires 0 <= col <= row.Length
    modifies row
    ensures row[..] == InsertCells(old(row[..]), col, n, fill)
  {
    MoveRight(row, col, n);
    InsertedCells(old(row[..]), row[..], col, n, fill);
    Fill(row, col, col + n - 1, fill);
  }

  lemma DeletedCells(before: seq<Cell>, moved: seq<Cell>, col: int, n: nat, fill: Cell)
    requires 0 <= col <= |before| == |moved|
    requires forall k :: 0 <= k < |before| && !(col <= k < |before| - Min(n, |before| - col)) ==> moved[k] == before[k]
    requires forall k :: col <= k < |before| - Min(n, |before| - col) ==> moved[k] == before[k + Min(n, |before| - col)]
    ensures EraseCells(moved, Max(|before| - n, col), |before| - 1, fill) == DeleteCells(before, col, n, fill)
  {
  }

  // n cells go at a column, and as many come in at the end of the row.
  method DeleteFrom(row: array<Cell>, col: int, n: nat, fill: Cell)
    requires 0 <= col <= row.Length
    modifies row
    ensures row[..] == DeleteCells(old(row[..]), col, n, fill)
  {
    MoveLeft(row, col, Min(n, row.Length - col));
    DeletedCells(old(row[..]), row[..], col, n, fill);
    Fill(row, Max(row.Length - n, col), row.Length - 1, fill);
  }

  // ---------------------------------------------------------------- all rows

  // No two rows share storage.
  ghost predicate Distinct(cells: seq<array<Cell>>) {
    forall i, j :: 0 <= i < |cells| && 0 <= j < |cells| && i != j ==> cells[i] != cells[j]
  }

  lemma DistinctUp(cells: seq<array<Cell>>, from: int, to: int, row: array<Cell>)
    requires 0 <= from <= to < |cells| && Distinct(cells) && (row == cells[from] || row !in cells)
    ensures var up := UpOne(cells, from, to, row);
            Distinct(up) && forall a :: a in up ==> a in cells || a == row
  {
    var up := UpOne(cells, from, to, row);
    forall i, j | 0 <= i < |up| && 0 <= j < |up| && i != j
      ensures up[i] != up[j]
    {
      assert i != to ==> up[i] == cells[if from <= i < to then i + 1 else i];
      assert j != to ==> up[j] == cells[if from <= j < to then j + 1 else j];
    }
  }

  lemma DistinctDown(cells: seq<array<Cell>>, from: int, to: int, row: array<Cell>)
    requires 0 <= from <= to < |cells| && Distinct(cells) && row !in cells
    ensures var down := DownOne(cells, from, to, row);
            Distinct(down) && forall a :: a in down ==> a in cells || a == row
  {
    var down := DownOne(cells, from, to, row);
    forall i, j | 0 <= i < |down| && 0 <= j < |down| && i != j
      ensures down[i] != down[j]
    {
      assert i != from ==> down[i] == cells[if from < i <= to then i - 1 else i];
      assert j != from ==> down[j] == cells[if from < j <= to then j - 1 else j];
    }
  }

  class Rows {
    var cells: seq<array<Cell>>
    var wrapped: seq<bool>
    var used: seq<nat>

    // What the rows are, as values, and the arrays they are kept in.
    ghost var Lines: seq<Line>
    ghost var Storage: set<array<Cell>>

    ghost predicate Valid()
      reads this, Storage
    {
      && |wrapped| == |used| == |cells| == |Lines|
      && (forall r :: 0 <= r < |cells| ==> cells[r] in Storage)
      && (forall r :: 0 <= r < |cells| ==> Lines[r] == Line(cells[r][..], wrapped[r], used[r]))
      && Distinct(cells)
    }

    constructor ()
      ensures Valid() && Storage == {} && Lines == []
    {
      cells, wrapped, used := [], [], [];
      Lines, Storage := [], {};
    }

    // A row comes in at the end.
    method Append(row: array<Cell>, w: bool, u: nat)
      requires Valid() && row !in Storage
      modifies this
      ensures Valid() && Storage == old(Storage) + {row}
      ensures Lines == old(Lines) + [Line(row[..], w, u)]
    {
      cells, wrapped, used := cells + [row], wrapped + [w], used + [u];
      Lines, Storage := Lines + [Line(row[..], w, u)], Storage + {row};
    }

    constructor Blanks(cols: nat, rows: nat)
      ensures Valid() && fresh(Storage) && Lines == BlankLines(cols, rows)
    {
      cells, wrapped, used := [], [], [];
      Lines, Storage := [], {};
      new;
      var r := 0;
      while r < rows
        invariant r <= rows && Valid() && fresh(Storage) && Lines == BlankLines(cols, r)
      {
        var row := NewRow(cols);
        Append(row, false, 0);
        r := r + 1;
      }
    }

    method MarkWrapped(r: nat)
      requires Valid() && r < |cells|
      modifies this
      ensures Valid() && Storage == old(Storage) && cells == old(cells)
      ensures Lines == old(Lines)[r := old(Lines)[r].(wrapped := true)]
    {
      wrapped := wrapped[r := true];
      Lines := Lines[r := Lines[r].(wrapped := true)];
    }

    // A character in its cell, with its continuation.
    method Write(r: nat, col: nat, cell: Cell)
      requires Valid() && r < |cells| && col < cells[r].Length && col + cell.width <= cells[r].Length
      modifies this, cells[r]
      ensures Valid() && Storage == old(Storage) && cells == old(cells)
      ensures Lines == old(Lines)[r := WriteCell(old(Lines)[r], col, cell)]
    {
      var row := cells[r];
      row[col] := cell;
      if cell.width == 2 {
        row[col + 1] := Continuation(cell.style);
      }
      if col + cell.width > used[r] {
        used := used[r := col + cell.width];
      }
      Lines := Lines[r := WriteCell(Lines[r], col, cell)];
    }

    method SetCell(r: nat, col: nat, cell: Cell)
      requires Valid() && r < |cells| && col < cells[r].Length
      modifies this, cells[r]
      ensures Valid() && Storage == old(Storage) && cells == old(cells)
      ensures Lines == old(Lines)[r := old(Lines)[r].(cells := old(Lines)[r].cells[col := cell])]
    {
      cells[r][col] := cell;
      Lines := Lines[r := Lines[r].(cells := Lines[r].cells[col := cell])];
    }

    method Erase(r: nat, from: int, to: int, fill: Cell)
      requires Valid() && r < |cells|
      modifies this, cells[r]
      ensures Valid() && Storage == old(Storage) && cells == old(cells)
      ensures Lines == old(Lines)[r := old(Lines)[r].(cells := EraseCells(old(Lines)[r].cells, from, to, fill))]
    {
      Fill(cells[r], from, to, fill);
      Lines := Lines[r := Lines[r].(cells := EraseCells(Lines[r].cells, from, to, fill))];
    }

    method Insert(r: nat, col: nat, n: nat, fill: Cell)
      requires Valid() && r < |cells| && col <= cells[r].Length
      modifies this, cells[r]
      ensures Valid() && Storage == old(Storage) && cells == old(cells)
      ensures Lines == old(Lines)[r := old(Lines)[r].(cells := InsertCells(old(Lines)[r].cells, col, n, fill))]
    {
      InsertInto(cells[r], col, n, fill);
      Lines := Lines[r := Lines[r].(cells := InsertCells(Lines[r].cells, col, n, fill))];
    }

    // A row pushed right from a column, which lengthens what is written of it.
    method Push(r: nat, col: nat, n: nat, fill: Cell)
      requires Valid() && r < |cells| && col <= cells[r].Length
      modifies this, cells[r]
      ensures Valid() && Storage == old(Storage) && cells == old(cells)
      ensures var line := old(Lines)[r];
              Lines == old(Lines)[r := line.(cells := InsertCells(line.cells, col, n, fill),
                                             used := if line.used > 0 then Min(line.used + n, cells[r].Length) else 0)]
    {
      InsertInto(cells[r], col, n, fill);
      if used[r] > 0 {
        used := used[r := Min(used[r] + n, cells[r].Length)];
      }
      Lines := Lines[r := Lines[r].(cells := InsertCells(Lines[r].cells, col, n, fill), used := used[r])];
    }

    method Delete(r: nat, col: nat, n: nat, fill: Cell)
      requires Valid() && r < |cells| && col <= cells[r].Length
      modifies this, cells[r]
      ensures Valid() && Storage == old(Storage) && cells == old(cells)
      ensures Lines == old(Lines)[r := old(Lines)[r].(cells := DeleteCells(old(Lines)[r].cells, col, n, fill))]
    {
      DeleteFrom(cells[r], col, n, fill);
      Lines := Lines[r := Lines[r].(cells := DeleteCells(Lines[r].cells, col, n, fill))];
    }

    // Scrolls by one without a new row: the storage of the first is cleared for the last.
    method Recycle(from: nat, to: nat)
      requires Valid() && from <= to < |cells|
      modifies this, cells[from]
      ensures Valid() && Storage == old(Storage)
      ensures Lines == UpOne(old(Lines), from, to, BlankLine(old(cells[from].Length)))
    {
      var recycled := cells[from];
      RollUp(from, to, recycled);
      Blank(recycled);
      Lines := Lines[to := BlankLine(recycled.Length)];
    }

    // Rows from..to move up by one and a row takes the last place: the one that left the first, or a
    // new one.
    method RollUp(from: nat, to: nat, row: array<Cell>)
      requires Valid() && from <= to < |cells|
      requires row == cells[from] || row !in Storage
      modifies this
      ensures Valid() && Storage == old(Storage) + {row} && to < |cells| && cells[to] == row
      ensures Lines == UpOne(old(Lines), from, to, Line(row[..], false, 0))
    {
      hide UpOne, Distinct;
      RolledUp(from, to, row);
      cells, wrapped, used := UpOne(cells, from, to, row), UpOne(wrapped, from, to, false), UpOne(used, from, to, 0);
      Lines, Storage := UpOne(Lines, from, to, Line(row[..], false, 0)), Storage + {row};
    }

    lemma RolledUp(from: nat, to: nat, row: array<Cell>)
      requires Valid() && from <= to < |cells|
      requires row == cells[from] || row !in Storage
      ensures var c, w, u, ls := UpOne(cells, from, to, row), UpOne(wrapped, from, to, false), UpOne(used, from, to,
        0), UpOne(Lines, from, to, Line(row[..], false, 0));
              && |c| == |w| == |u| == |ls| == |cells| && Distinct(c) && c[to] == row
              && (forall r :: 0 <= r < |c| ==> c[r] in Storage + {row})
              && (forall r :: 0 <= r < |c| ==> ls[r] == Line(c[r][..], w[r], u[r]))
    {
      DistinctUp(cells, from, to, row);
      hide Distinct;
      var c, w, u, ls := UpOne(cells, from, to, row), UpOne(wrapped, from, to, false), UpOne(used, from, to, 0),
        UpOne(Lines, from, to, Line(row[..], false, 0));
      forall r | 0 <= r < |c|
        ensures c[r] in Storage + {row} && ls[r] == Line(c[r][..], w[r], u[r])
      {
        var k := if r < from || r > to then r else if r < to then r + 1 else to;
        assert r != to ==> c[r] == cells[k] && w[r] == wrapped[k] && u[r] == used[k] && ls[r] == Lines[k];
      }
    }

    // Rows from..to move down by one and a new row takes the first place.
    method RollDown(from: nat, to: nat, row: array<Cell>)
      requires Valid() && from <= to < |cells| && row !in Storage
      modifies this
      ensures Valid() && Storage == old(Storage) + {row}
      ensures Lines == DownOne(old(Lines), from, to, Line(row[..], false, 0))
    {
      hide DownOne, Distinct;
      RolledDown(from, to, row);
      cells, wrapped, used := DownOne(cells, from, to, row), DownOne(wrapped, from, to, false), DownOne(used, from, to, 0);
      Lines, Storage := DownOne(Lines, from, to, Line(row[..], false, 0)), Storage + {row};
    }

    lemma RolledDown(from: nat, to: nat, row: array<Cell>)
      requires Valid() && from <= to < |cells| && row !in Storage
      ensures var c, w, u, ls := DownOne(cells, from, to, row), DownOne(wrapped, from, to, false), DownOne(used,
        from, to, 0), DownOne(Lines, from, to, Line(row[..], false, 0));
              && |c| == |w| == |u| == |ls| == |cells| && Distinct(c)
              && (forall r :: 0 <= r < |c| ==> c[r] in Storage + {row})
              && (forall r :: 0 <= r < |c| ==> ls[r] == Line(c[r][..], w[r], u[r]))
    {
      DistinctDown(cells, from, to, row);
      hide Distinct;
      var c, w, u, ls := DownOne(cells, from, to, row), DownOne(wrapped, from, to, false), DownOne(used, from, to,
        0), DownOne(Lines, from, to, Line(row[..], false, 0));
      forall r | 0 <= r < |c|
        ensures c[r] in Storage + {row} && ls[r] == Line(c[r][..], w[r], u[r])
      {
        var k := if r < from || r > to then r else if r > from then r - 1 else from;
        assert r != from ==> c[r] == cells[k] && w[r] == wrapped[k] && u[r] == used[k] && ls[r] == Lines[k];
      }
    }
  }
}
