/** The disk writer of one log: what it does with the bytes it is given, whatever the disk does. */
module Sink {
  import opened Vt
  import opened Ledger

  // How the disk behaves while one piece is written: whether files can be opened, whether the full
  // one can be moved aside and another begun, and how many bytes are taken.
  datatype Disk = Disk(opens: bool, renames: bool, reopens: bool, takes: nat)

  // A disk on which nothing fails; that it takes all of a piece is said of the piece.
  predicate Works(disk: Disk) { disk.opens && disk.renames && disk.reopens }

  function Joined(pieces: seq<seq<Byte>>): seq<Byte>
    decreases |pieces|
  {
    if pieces == [] then [] else Joined(pieces[..|pieces| - 1]) + pieces[|pieces| - 1]
  }

  lemma NoPieces()
    ensures Joined([]) == []
  {
  }

  lemma OnePieceMore(pieces: seq<seq<Byte>>, p: seq<Byte>)
    ensures Joined(pieces + [p]) == Joined(pieces) + p
  {
    assert (pieces + [p])[..|pieces|] == pieces;
  }

  class LogSink {
    // How large a file may get, or 0.
    const max: nat

    // The file being written, and the one moved aside before it.
    var cur: seq<Byte>
    var prev: seq<Byte>

    var open: bool
    var n: nat
    var noRotateBefore: nat
    var flushed: nat
    var dropped: nat
    var writeFailed: bool
    var rotateFailed: bool

    // What was in files that have been replaced since, all that was done with what was given, and how
    // much that was.
    ghost var replaced: seq<Byte>
    ghost var log: seq<Entry>
    ghost var given: nat

    // What the files held when the writer was opened.
    ghost const before: seq<Byte>

    // All that was ever written, oldest first.
    ghost function Files(): seq<Byte>
      reads this
    {
      replaced + prev + cur
    }

    ghost predicate Backed()
      reads this
    {
      open ==> n == |cur|
    }

    // The files hold what the log says, and what is missing is counted.
    ghost predicate Valid()
      reads this
    {
      && Backed() && Files() == before + Text(log)
      && dropped == Missing(log) && given + Gaps(log) == |Text(log)| + dropped
    }

    constructor (max: nat, file: seq<Byte>, older: seq<Byte>)
      ensures Valid() && log == [] && this.max == max && cur == file && prev == older && dropped == 0 && flushed == 0
    {
      this.max := max;
      cur, prev, replaced, before := file, older, [], older + file;
      open, n, noRotateBefore := true, |file|, 0;
      flushed, dropped, writeFailed, rotateFailed := 0, 0, false, false;
      log, given := [], 0;
    }

    // Moves the file aside and begins another. When it cannot be moved it goes on being written, and
    // is not tried again until as much again has been.
    method Rotate(disk: Disk)
      requires Backed()
      modifies this`cur, this`prev, this`open, this`n, this`noRotateBefore, this`writeFailed, this`rotateFailed, this`replaced
      ensures Backed() && Files() == old(Files())
      ensures open == disk.reopens && rotateFailed == !disk.renames
      ensures if disk.renames then cur == [] && prev == old(cur) && replaced == old(replaced) + old(prev)
              else cur == old(cur) && prev == old(prev) && replaced == old(replaced)
      ensures noRotateBefore == if !open then old(noRotateBefore) else if disk.renames then 0 else |cur| + max
    {
      open := false;
      rotateFailed := !disk.renames;
      if disk.renames {
        replaced, prev, cur := replaced + prev, cur, [];
        assert Files() == old(Files());
      }
      if !disk.reopens {
        writeFailed := true;
        return;
      }
      open, n := true, |cur|;
      noRotateBefore := if disk.renames then 0 else n + max;
    }

    // The piece does not fit into the file that is written, which is to be moved aside.
    predicate Full(size: nat, disk: Disk, open: bool, written: nat, noRotateBefore: nat) {
      (open || disk.opens) && max > 0 && written + size > max && written >= noRotateBefore
    }

    // Whether there is a file to write a piece of this size to: opened again if it was not, and begun
    // anew if the piece would take it over its limit.
    method Ready(size: nat, disk: Disk) returns (ready: bool)
      requires Backed()
      modifies this`cur, this`prev, this`open, this`n, this`noRotateBefore, this`writeFailed, this`rotateFailed, this`replaced
      ensures Backed() && Files() == old(Files()) && ready == open
      ensures Full(size, disk, old(open), |old(cur)|, old(noRotateBefore)) && disk.renames ==>
        cur == [] && prev == old(cur) && replaced == old(replaced) + old(prev) && ready == disk.reopens
      ensures !Full(size, disk, old(open), |old(cur)|, old(noRotateBefore)) || !disk.renames ==>
        cur == old(cur) && prev == old(prev) && replaced == old(replaced)
      ensures !Full(size, disk, old(open), |old(cur)|, old(noRotateBefore)) ==> ready == (old(open) || disk.opens)
      ensures disk.renames && old(noRotateBefore) == 0 ==> noRotateBefore == 0
    {
      if !open {
        if !disk.opens {
          return false;
        }
        open, n := true, |cur|;
      }
      if max > 0 && n + size > max && n >= noRotateBefore {
        Rotate(disk);
      }
      return open;
    }

    // Gives a piece to the file, of which it takes k. While the disk can move files, neither file
    // grows past the limit; and nothing is moved aside before the piece would not fit.
    method Give(p: seq<Byte>, disk: Disk) returns (k: nat)
      requires Backed() && p != []
      modifies this
      ensures k <= |p| && Backed() && Files() == old(Files()) + p[..k]
      ensures dropped == old(dropped) + (|p| - k) && given == old(given) + |p|
      ensures log == old(log) && flushed == old(flushed) && writeFailed == (k < |p|)
      ensures disk.renames && old(noRotateBefore) == 0 && |p| <= max && |old(cur)| <= max && |old(prev)| <= max
              ==> noRotateBefore == 0 && |cur| <= max && |prev| <= max
      ensures max == 0 || |old(cur)| + |p| <= max ==> cur == old(cur) + p[..k] && prev == old(prev) && replaced == old(replaced)
      ensures Works(disk) && old(open) && old(noRotateBefore) == 0 ==> open && noRotateBefore == 0 && k == Min(disk.takes, |p|)
      ensures Works(disk) && old(open) && old(noRotateBefore) == 0 && 0 < max < |old(cur)| + |p| ==>
        cur == p[..k] && prev == old(cur) && replaced == old(replaced) + old(prev)
    {
      given := given + |p|;
      var ready := Ready(|p|, disk);
      if !ready {
        writeFailed, dropped := true, dropped + |p|;
        assert p[..0] == [];
        return 0;
      }
      k := Min(disk.takes, |p|);
      Write(p, k);
    }

    method Write(p: seq<Byte>, k: nat)
      requires Backed() && open && k <= |p|
      modifies this`cur, this`n, this`writeFailed, this`dropped
      ensures Backed() && cur == old(cur) + p[..k] && Files() == old(Files()) + p[..k]
      ensures writeFailed == (k < |p|) && dropped == old(dropped) + (|p| - k)
    {
      assert replaced + prev + (cur + p[..k]) == Files() + p[..k];
      cur, n := cur + p[..k], n + k;
      writeFailed, dropped := k < |p|, dropped + (|p| - k);
    }

    // One of which it takes all.
    method GiveWhole(p: seq<Byte>, disk: Disk)
      requires Backed() && open && noRotateBefore == 0 && |cur| <= max && |prev| <= max
      requires Works(disk) && 0 < |p| <= Min(max, disk.takes)
      modifies this
      ensures Backed() && open && noRotateBefore == 0 && |cur| <= max && |prev| <= max
      ensures Files() == old(Files()) + p && dropped == old(dropped)
      ensures if |old(cur)| + |p| <= max then cur == old(cur) + p && prev == old(prev) && replaced == old(replaced)
              else prev == old(cur) && |prev| > max - |p|
    {
      assert p[..|p|] == p;
      var k := Give(p, disk);
    }

    // Pieces given one after another while the disk works. All of it is in the files, in order, and what
    // is not in the two that are left is older than the newest bytes up to the limit, less one piece.
    method GiveAll(pieces: seq<seq<Byte>>, disk: Disk, longest: nat)
      requires Backed() && open && noRotateBefore == 0 && |cur| <= max && |prev| <= max && longest <= max
      requires Works(disk) && forall i :: 0 <= i < |pieces| ==> 0 < |pieces[i]| <= Min(longest, disk.takes)
      modifies this
      ensures Backed() && open && noRotateBefore == 0 && |cur| <= max && |prev| <= max
      ensures Files() == old(Files()) + Joined(pieces) && dropped == old(dropped)
      ensures Files()[|replaced|..] == prev + cur
      ensures replaced == old(replaced) || |prev + cur| > max - longest
      ensures |old(cur)| + |Joined(pieces)| <= max ==>
        cur == old(cur) + Joined(pieces) && prev == old(prev) && replaced == old(replaced)
    {
      hide Joined;
      var i := 0;
      NoPieces();
      assert pieces[..0] == [];
      while i < |pieces|
        invariant 0 <= i <= |pieces| && Backed() && open && noRotateBefore == 0 && |cur| <= max && |prev| <= max
        invariant Files() == old(Files()) + Joined(pieces[..i]) && dropped == old(dropped)
        invariant replaced == old(replaced) || |prev| > max - longest
        invariant |old(cur)| + |Joined(pieces[..i])| <= max ==>
          cur == old(cur) + Joined(pieces[..i]) && prev == old(prev) && replaced == old(replaced)
      {
        OnePieceMore(pieces[..i], pieces[i]);
        assert pieces[..i] + [pieces[i]] == pieces[..i + 1];
        GiveWhole(pieces[i], disk);
        i := i + 1;
      }
      assert pieces[..i] == pieces;
      assert Files() == replaced + (prev + cur);
    }

    // Bytes of the stream, from an offset on.
    method Emit(at: nat, p: seq<Byte>, disk: Disk) returns (ghost k: nat)
      requires Valid()
      modifies this
      ensures Valid() && flushed == old(flushed) && k <= |p| && (p == [] ==> log == old(log))
      ensures p != [] ==> log == Emitted(old(log), at, p, k)
    {
      hide Text, Missing, Gaps, Emitted;
      k := 0;
      if p == [] {
        return;
      }
      k := Give(p, disk);
      EmittedMoves(log, at, p, k, at);
      assert before + Text(old(log)) + p[..k] == before + (Text(old(log)) + p[..k]);
      log := Emitted(log, at, p, k);
    }

    // A line of its own.
    method Note(p: seq<Byte>, disk: Disk) returns (ghost k: nat)
      requires Valid() && p != []
      modifies this
      ensures Valid() && flushed == old(flushed) && k <= |p| && log == Noted(old(log), p, k)
    {
      hide Text, Missing, Gaps, Noted;
      k := Give(p, disk);
      NotedStays(log, p, k, 0);
      assert before + Text(old(log)) + p[..k] == before + (Text(old(log)) + p[..k]);
      log := Noted(log, p, k);
    }

    // A gap of this many bytes, counted and said.
    method Skip(missed: nat, disk: Disk) returns (ghost k: nat)
      requires Valid()
      modifies this
      ensures Valid() && flushed == old(flushed) && k <= |GapNote(missed)| && log == Skipped(old(log), old(flushed), missed, k)
    {
      hide Text, Missing, Gaps, Noted, GapNote;
      NotEmpty(missed);
      k := Note(GapNote(missed), disk);
      dropped := dropped + missed;
      OneMore(log, Gap(flushed, missed), 0);
      assert Text(log) + [] == Text(log);
      log := log + [Gap(flushed, missed)];
    }

    lemma NotEmpty(missed: nat)
      ensures GapNote(missed) != []
    {
    }

    // Brings the log up to `at`, where a new snapshot ends: with as much of the snapshot as is new to
    // it, after a gap if that does not begin where the log ends.
    method CatchUp(snap: seq<Byte>, at: nat, first: Disk, then_: Disk) returns (ghost j: nat, ghost k: nat)
      requires Valid() && |snap| <= at
      modifies this
      ensures Valid() && flushed == at
      ensures CaughtUp(old(log), old(flushed), snap, at, j, k, log)
      ensures forall start :: Position(old(log), start) == Some(old(flushed)) && old(flushed) <= at ==> Position(log, start) == Some(at)
    {
      var start := at - |snap|;
      hide Text, Missing, Gaps, Emitted, Skipped, Position, GapNote;
      CatchesUp(log, flushed, snap, at);
      j, k := 0, 0;
      if start <= flushed < at {
        k := Emit(flushed, snap[flushed - start..], first);
      } else if flushed < start {
        j := Skip(start - flushed, first);
        k := Emit(start, snap, then_);
      }
      flushed := at;
    }

    // One chunk from the reader.
    method Drain(at: nat, chunk: seq<Byte>, disk: Disk) returns (ghost k: nat)
      requires Valid() && chunk != []
      modifies this
      ensures Valid() && flushed == old(flushed) + |chunk|
      ensures k <= |chunk| && log == Emitted(old(log), at, chunk, k)
      ensures forall start :: Position(old(log), start) == Some(old(flushed)) && at == old(flushed) ==> Position(log, start) == Some(flushed)
    {
      hide Text, Missing, Gaps, Emitted, Position;
      k := Emit(at, chunk, disk);
      forall s
        ensures Position(old(log), s) == Some(at) ==> Position(log, s) == Some(at + |chunk|)
      {
        EmittedMoves(old(log), at, chunk, k, s);
      }
      flushed := flushed + |chunk|;
    }
  }

  // What a snapshot that ends at an offset adds to a log that is somewhere: nothing, its last part, or
  // a gap and all of it. An empty one adds nothing of its own.
  ghost predicate CaughtUp(was: seq<Entry>, flushed: nat, snap: seq<Byte>, at: nat, j: nat, k: nat, log: seq<Entry>)
    requires |snap| <= at
  {
    var start := at - |snap|;
    if flushed >= at then log == was
    else if flushed >= start then k <= at - flushed && log == Emitted(was, flushed, snap[flushed - start..], k)
    else
      && j <= |GapNote(start - flushed)| && k <= |snap|
      && log == var skipped := Skipped(was, flushed, start - flushed, j);
                if snap == [] then skipped else Emitted(skipped, start, snap, k)
  }

  // Either way the log then accounts for everything up to that offset.
  lemma CatchesUp(was: seq<Entry>, flushed: nat, snap: seq<Byte>, at: nat)
    requires |snap| <= at
    ensures forall j, k, log, s ::
      flushed <= at && CaughtUp(was, flushed, snap, at, j, k, log) && Position(was, s) == Some(flushed)
      ==> Position(log, s) == Some(at)
  {
    forall j, k, log, s | flushed <= at && CaughtUp(was, flushed, snap, at, j, k, log) && Position(was, s) == Some(flushed)
      ensures Position(log, s) == Some(at)
    {
      CatchesUpSo(was, flushed, snap, at, j, k, log, s);
    }
  }

  lemma CatchesUpSo(was: seq<Entry>, flushed: nat, snap: seq<Byte>, at: nat, j: nat, k: nat, log: seq<Entry>, s: nat)
    requires |snap| <= at && flushed <= at && CaughtUp(was, flushed, snap, at, j, k, log)
    requires Position(was, s) == Some(flushed)
    ensures Position(log, s) == Some(at)
  {
    hide Position, Emitted, Skipped, GapNote;
    var start := at - |snap|;
    if start <= flushed < at {
      EmittedMoves(was, flushed, snap[flushed - start..], k, s);
    } else if flushed < start {
      SkippedMoves(was, flushed, start - flushed, j, s);
      if snap != [] {
        EmittedMoves(Skipped(was, flushed, start - flushed, j), start, snap, k, s);
      }
    }
  }
}
