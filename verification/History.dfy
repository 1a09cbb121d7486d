/** The scrollback as it is kept: a ring of lines whose storage is reused, refining the list of the
    newest lines, oldest first. */
module History {
  import opened Vt
  import opened Grid

  // A kept line: storage that may be longer than the line, as the lines that used it before were.
  datatype Kept = Kept(buf: array<Cell>, len: nat, wrapped: bool, used: nat)

  // What a ring that starts at s holds, in order.
  function Rotate<T>(v: seq<T>, s: nat): seq<T>
    requires s <= |v|
  {
    v[s..] + v[..s]
  }

  lemma RotateAt<T>(v: seq<T>, s: nat, i: nat)
    requires s < |v| && i < |v|
    ensures (s + i) % |v| < |v| && Rotate(v, s)[i] == v[(s + i) % |v|]
  {
    RoundOnce(s + i, |v|);
    RotatedAt(v, s, i);
  }

  lemma RotatedLength<T>(v: seq<T>, s: nat)
    requires s <= |v|
    ensures |Rotate(v, s)| == |v|
  {
  }

  lemma RotatedAt<T>(v: seq<T>, s: nat, i: nat)
    requires s < |v| && i < |v|
    ensures Rotate(v, s)[i] == v[if s + i < |v| then s + i else s + i - |v|]
  {
  }

  // The oldest line overwritten and the start moved on: the rest, and the new one.
  lemma RotateOver<T>(v: seq<T>, s: nat, x: T)
    requires s < |v|
    ensures (s + 1) % |v| < |v| && Rotate(v[s := x], (s + 1) % |v|) == Rotate(v, s)[1..] + [x]
  {
    RoundOnce(s + 1, |v|);
    MovedOver(v, s, x);
  }

  lemma MovedOver<T>(v: seq<T>, s: nat, x: T)
    requires s < |v|
    ensures Rotate(v[s := x], if s + 1 < |v| then s + 1 else 0) == Rotate(v, s)[1..] + [x]
  {
  }

  ghost function LineOf(k: Kept): Line
    reads k.buf
  {
    Line(k.buf[..Min(k.len, k.buf.Length)], k.wrapped, k.used)
  }

  ghost function BufsOf(lines: seq<Kept>): set<array<Cell>> {
    set i | 0 <= i < |lines| :: lines[i].buf
  }

  ghost function LinesOf(lines: seq<Kept>): (ls: seq<Line>)
    reads BufsOf(lines)
    ensures |ls| == |lines|
    ensures forall i :: 0 <= i < |lines| ==> ls[i] == LineOf(lines[i])
  {
    seq(|lines|, i requires 0 <= i < |lines| reads BufsOf(lines) => LineOf(lines[i]))
  }

  lemma RotateLines(lines: seq<Kept>, s: nat, from: nat)
    requires s <= |lines| && from <= |lines|
    ensures LinesOf(Rotate(lines, s)[from..]) == Rotate(LinesOf(lines), s)[from..]
  {
  }

  // Every line has storage of its own, and it is long enough.
  ghost predicate OwnStorage(lines: seq<Kept>) {
    && (forall i :: 0 <= i < |lines| ==> lines[i].len <= lines[i].buf.Length)
    && (forall i, j :: 0 <= i < j < |lines| ==> lines[i].buf != lines[j].buf)
  }

  lemma RotateOwn(lines: seq<Kept>, s: nat, from: nat)
    requires OwnStorage(lines) && s <= |lines| && from <= |lines|
    ensures OwnStorage(Rotate(lines, s)[from..])
    ensures forall k :: k in Rotate(lines, s)[from..] ==> k in lines
  {
  }

  lemma PushIs(hist: seq<Line>, limit: nat, line: Line)
    requires |hist| <= limit
    ensures Grid.Push(hist, limit, line) ==
      if limit == 0 then hist else if |hist| < limit then hist + [line] else hist[1..] + [line]
  {
  }

  class HistRing {
    // The lines where they are stored: in order while there is room, then going round.
    var lines: seq<Kept>
    var start: nat
    var n: nat
    var limit: nat

    // What is kept, oldest first, and the arrays it is kept in.
    ghost var Contents: seq<Line>
    ghost var Bufs: set<array<Cell>>

    ghost predicate Valid()
      reads this, Bufs
    {
      && n == |lines| <= limit
      && (n < limit ==> start == 0)
      && (n > 0 ==> start < n) && (n == 0 ==> start == 0)
      && OwnStorage(lines)
      && Bufs == BufsOf(lines)
      && Contents == Rotate(LinesOf(lines), start)
    }

    // The lines where they are stored.
    ghost function Stored(): (ls: seq<Line>)
      reads this, BufsOf(lines)
      ensures |ls| == |lines|
    {
      LinesOf(lines)
    }

    constructor ()
      ensures Valid() && limit == 0 && Contents == [] && Bufs == {}
    {
      lines, start, n, limit := [], 0, 0, 0;
      Contents, Bufs := [], {};
    }

    // The line of an age, 0 being the oldest.
    method At(i: nat) returns (k: Kept)
      requires Valid() && i < n
      ensures k in lines && k.len <= k.buf.Length && LineOf(k) == Contents[i]
    {
      RotateAt(Stored(), start, i);
      k := lines[(start + i) % |lines|];
    }

    // One more line, as a copy. In a full ring the copy takes the storage of the oldest, if it fits.
    method Push(cells: array<Cell>, wrapped: bool, used: nat)
      requires Valid() && cells !in Bufs
      modifies this, Bufs
      ensures Valid() && limit == old(limit)
      ensures Contents == Grid.Push(old(Contents), limit, Line(cells[..], wrapped, used))
      ensures fresh(Bufs - old(Bufs))
    {
      Counted();
      hide Rotate, LinesOf, OwnStorage, BufsOf, HistRing.Valid, Grid.Push;
      PushIs(Contents, limit, Line(cells[..], wrapped, used));
      if limit <= 0 {
        return;
      }
      if |lines| < limit {
        Append(cells, wrapped, used);
      } else {
        Overwrite(cells, wrapped, used);
      }
    }

    lemma Counted()
      requires Valid()
      ensures n == |lines| == |Contents| <= limit
    {
    }

    method Append(cells: array<Cell>, wrapped: bool, used: nat)
      requires Valid() && n < limit
      modifies this
      ensures Valid() && limit == old(limit)
      ensures Contents == old(Contents) + [Line(cells[..], wrapped, used)]
      ensures fresh(Bufs - old(Bufs))
    {
      var kept := new Cell[cells.Length](i requires 0 <= i < cells.Length reads cells => cells[i]);
      Appended(kept, cells, wrapped, used);
      hide Rotate, LinesOf, OwnStorage;
      lines := lines + [Kept(kept, cells.Length, wrapped, used)];
      n := |lines|;
      Bufs := BufsOf(lines);
      Contents := Contents + [Line(cells[..], wrapped, used)];
    }

    lemma Appended(kept: array<Cell>, cells: array<Cell>, wrapped: bool, used: nat)
      requires Valid() && n < limit && kept !in Bufs
      requires kept.Length == cells.Length && forall i :: 0 <= i < cells.Length ==> kept[i] == cells[i]
      ensures var more := lines + [Kept(kept, cells.Length, wrapped, used)];
              OwnStorage(more) && Rotate(LinesOf(more), start) == Contents + [Line(cells[..], wrapped, used)]
    {
      assert kept[..cells.Length] == cells[..];
      var more := lines + [Kept(kept, cells.Length, wrapped, used)];
      assert LinesOf(more) == LinesOf(lines) + [Line(cells[..], wrapped, used)];
    }

    // A line takes the place of another, in its storage if that is long enough.
    method Replace(i: nat, cells: array<Cell>, wrapped: bool, used: nat)
      requires Valid() && i < n && cells !in Bufs
      modifies this`lines, this`Bufs, lines[i].buf
      ensures |lines| == n && OwnStorage(lines) && Bufs == BufsOf(lines)
      ensures LinesOf(lines) == old(LinesOf(lines))[i := Line(cells[..], wrapped, used)]
      ensures fresh(Bufs - old(Bufs))
    {
      var dst := lines[i].buf;
      if dst.Length < cells.Length {
        dst := new Cell[cells.Length](k requires 0 <= k < cells.Length reads cells => cells[k]);
      }
      CopyInto(dst, cells);
      lines := lines[i := Kept(dst, cells.Length, wrapped, used)];
      Bufs := BufsOf(lines);
      assert LineOf(lines[i]) == Line(cells[..], wrapped, used);
    }

    lemma Oldest()
      requires Valid() && n > 0
      ensures start < n == |lines| == |Contents| && lines[start].buf in Bufs
    {
    }

    method Overwrite(cells: array<Cell>, wrapped: bool, used: nat)
      requires Valid() && n == limit > 0 && cells !in Bufs
      modifies this, Bufs
      ensures Valid() && limit == old(limit)
      ensures Contents == old(Contents)[1..] + [Line(cells[..], wrapped, used)]
      ensures fresh(Bufs - old(Bufs))
    {
      hide Rotate, LinesOf, OwnStorage, BufsOf;
      Oldest();
      RotateOver(LinesOf(lines), start, Line(cells[..], wrapped, used));
      Replace(start, cells, wrapped, used);
      start := (start + 1) % limit;
      n := limit;
      Contents := Contents[1..] + [Line(cells[..], wrapped, used)];
    }

    static method CopyInto(dst: array<Cell>, src: array<Cell>)
      requires src.Length <= dst.Length && src != dst
      modifies dst
      ensures dst[..src.Length] == src[..]
    {
      var i := 0;
      while i < src.Length
        invariant 0 <= i <= src.Length && dst[..i] == src[..i]
      {
        dst[i] := src[i];
        i := i + 1;
      }
    }

    method Reset()
      requires Valid()
      modifies this
      ensures Valid() && limit == old(limit) && Contents == [] && Bufs == {}
    {
      lines, start, n := [], 0, 0;
      Contents, Bufs := [], {};
    }

    // The lines from an age on, taken out of the ring in order.
    method Unroll(from: nat) returns (kept: seq<Kept>)
      requires Valid() && from <= n
      ensures kept == Rotate(lines, start)[from..]
    {
      hide Rotate, OwnStorage, LinesOf, BufsOf;
      ghost var all := Rotate(lines, start);
      RotatedLength(lines, start);
      kept := [];
      var i := from;
      while i < n
        invariant from <= i <= n && kept == all[from..i]
      {
        RotateAt(lines, start, i);
        assert all[from..i + 1] == all[from..i] + [all[i]];
        kept := kept + [lines[(start + i) % |lines|]];
        i := i + 1;
      }
      assert all[from..i] == all[from..];
    }

    lemma NewestLines(kept: seq<Kept>, from: nat, size: nat)
      requires Valid() && from == n - Min(size, n) && kept == Rotate(lines, start)[from..]
      ensures OwnStorage(kept) && |kept| <= size && BufsOf(kept) <= Bufs
      ensures LinesOf(kept) == Trim(Contents, size)
    {
      RotateOwn(lines, start, from);
      RotateLines(lines, start, from);
      assert Contents[0..] == Contents;
    }

    // Begins again with these lines.
    method Refill(kept: seq<Kept>, size: nat)
      requires OwnStorage(kept) && |kept| <= size
      modifies this
      ensures Valid() && limit == size && Bufs == BufsOf(kept) && Contents == old(LinesOf(kept))
    {
      lines, start, n, limit := kept, 0, |kept|, size;
      Contents, Bufs := LinesOf(kept), BufsOf(kept);
      assert Rotate(Stored(), 0) == Stored();
    }

    // Another limit. A lower one forgets from the old end.
    method SetLimit(m: int)
      requires Valid()
      modifies this
      ensures Valid() && limit == Max(m, 0)
      ensures Contents == Trim(old(Contents), limit)
      ensures Bufs <= old(Bufs)
    {
      var size := if m < 0 then 0 else m;
      if size == limit {
        assert Trim(Contents, limit) == Contents;
        return;
      }
      var keep := Min(size, n);
      var kept := Unroll(n - keep);
      NewestLines(kept, n - keep, size);
      hide LinesOf, OwnStorage, Rotate, BufsOf, Trim;
      Refill(kept, size);
    }
  }
}
