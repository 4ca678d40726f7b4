/** The geo range table: 65536 buckets of ranges, filled by address ranges of any size. */
module Geo {
  import opened GeoBuckets
  import opened Options

  const BUCKETS := 0x10000
  const ADDRESSES := 0x1_0000_0000

  function High(addr: nat): nat { addr / 0x10000 }

  function Low(addr: nat): nat { addr % 0x10000 }

  /** A bucket that was never created is empty. */
  function Ranges(b: Option<seq<Range>>): seq<Range> {
    match b
    case None => []
    case Some(rs) => rs
  }

  type Table = seq<Option<seq<Range>>>

  ghost predicate TableOk(t: Table) {
    |t| == BUCKETS && forall h :: 0 <= h < BUCKETS ==> Ordered(Ranges(t[h]))
  }

  /** The value an address has in the table. */
  function Lookup(t: Table, addr: nat): Option<Value>
    requires |t| == BUCKETS && addr < ADDRESSES
  {
    Find(Ranges(t[High(addr)]), Low(addr))
  }

  /** The part of [start, end] that falls into bucket `h`. */
  function PieceStart(start: nat, h: nat): nat { if h == High(start) then Low(start) else 0 }

  function PieceEnd(end: nat, h: nat): nat { if h == High(end) then Low(end) else 0xffff }

  ghost predicate Touches(start: nat, end: nat, h: nat) { High(start) <= h <= High(end) }

  lemma PieceProper(start: nat, end: nat, h: nat)
    requires start <= end < ADDRESSES && Touches(start, end, h)
    ensures PieceStart(start, h) <= PieceEnd(end, h) <= 0xffff && h < BUCKETS
  {
  }

  /** An address lies in a range exactly if its offset lies in the piece of its bucket. */
  lemma InPiece(start: nat, end: nat, addr: nat)
    requires start <= end < ADDRESSES && addr < ADDRESSES
    ensures start <= addr <= end <==>
      Touches(start, end, High(addr)) && PieceStart(start, High(addr)) <= Low(addr) <= PieceEnd(end, High(addr))
  {
  }

  /** The loop's step in 32-bit arithmetic: the start of the next bucket, or 0 after the last. */
  function Next(n: nat): nat { (n + 0x10000) % ADDRESSES / 0x10000 * 0x10000 }

  lemma NextBucket(n: nat)
    requires n < ADDRESSES
    ensures High(n) < 0xffff ==> Next(n) == (High(n) + 1) * 0x10000 && High(Next(n)) == High(n) + 1 && Low(Next(n)) == 0
    ensures High(n) < 0xffff ==> n < Next(n) < ADDRESSES
    ensures High(n) == 0xffff ==> Next(n) == 0
  {
  }

  // ----- what the two operations mean, bucket by bucket -----

  ghost predicate AddedIn(t: Table, start: nat, end: nat, v: Value, h: nat, t': Table)
    requires |t| == |t'| == BUCKETS && h < BUCKETS
  {
    Added(Ranges(t[h]), PieceStart(start, h), PieceEnd(end, h), v, Ranges(t'[h]))
  }

  ghost predicate AddableIn(t: Table, start: nat, end: nat, h: nat)
    requires |t| == BUCKETS && h < BUCKETS
  {
    Addable(Ranges(t[h]), PieceStart(start, h), PieceEnd(end, h))
  }

  ghost predicate DeletedIn(t: Table, start: nat, end: nat, h: nat, t': Table)
    requires |t| == |t'| == BUCKETS && h < BUCKETS
  {
    Deleted(Ranges(t[h]), PieceStart(start, h), PieceEnd(end, h), Ranges(t'[h]))
  }

  ghost predicate HasPiece(t: Table, start: nat, end: nat, h: nat)
    requires |t| == BUCKETS && h < BUCKETS
  {
    HasSame(Ranges(t[h]), PieceStart(start, h), PieceEnd(end, h))
  }

  /** The touched buckets below `done` have their pieces, and every other bucket is as it was. */
  ghost predicate AddedTo(t: Table, start: nat, end: nat, v: Value, done: nat, t': Table) {
    && TableOk(t) && TableOk(t') && High(start) <= done <= BUCKETS
    && forall h :: 0 <= h < BUCKETS ==>
         if High(start) <= h < done then AddedIn(t, start, end, v, h, t') && AddableIn(t, start, end, h)
         else t'[h] == t[h]
  }

  lemma AddedOrdered(rs: seq<Range>, s: nat, e: nat, v: Value, qs: seq<Range>)
    requires Added(rs, s, e, v, qs)
    ensures Ordered(qs)
  {
  }

  lemma AddedStep(t: Table, start: nat, end: nat, v: Value, h: nat, t': Table, rs: seq<Range>)
    requires AddedTo(t, start, end, v, h, t') && h < BUCKETS
    requires AddableIn(t, start, end, h) && Added(Ranges(t[h]), PieceStart(start, h), PieceEnd(end, h), v, rs)
    ensures AddedTo(t, start, end, v, h + 1, t'[h := Some(rs)])
  {
    hide Added, Addable, PieceStart, PieceEnd, High, Ordered;
    assert Ordered(rs) by { AddedOrdered(Ranges(t[h]), PieceStart(start, h), PieceEnd(end, h), v, rs); }
  }

  /** Until an add is complete, an address has its old value or, within the range, the new one. */
  lemma AddedPartly(t: Table, start: nat, end: nat, v: Value, done: nat, t': Table, addr: nat)
    requires start <= end < ADDRESSES && AddedTo(t, start, end, v, done, t') && done <= High(end) + 1
    requires addr < ADDRESSES
    ensures Lookup(t', addr) == Lookup(t, addr) || (start <= addr <= end && Lookup(t', addr) == Some(v))
    ensures done == High(end) + 1 ==>
      Lookup(t', addr) == if start <= addr <= end then Some(v) else Lookup(t, addr)
  {
    InPiece(start, end, addr);
    hide TableOk, PieceStart, PieceEnd;
  }

  ghost predicate DeletedTo(t: Table, start: nat, end: nat, done: nat, t': Table) {
    && TableOk(t) && TableOk(t') && High(start) <= done <= BUCKETS
    && forall h :: 0 <= h < BUCKETS ==>
         if High(start) <= h < done then DeletedIn(t, start, end, h, t') else t'[h] == t[h]
  }

  lemma DeletedStep(t: Table, start: nat, end: nat, h: nat, t': Table, b: Option<seq<Range>>)
    requires DeletedTo(t, start, end, h, t') && h < BUCKETS
    requires Deleted(Ranges(t[h]), PieceStart(start, h), PieceEnd(end, h), Ranges(b))
    ensures DeletedTo(t, start, end, h + 1, t'[h := b])
  {
    hide Find, HasSame, PieceStart, PieceEnd, High;
  }

  /** A finished delete empties exactly the addresses whose bucket stored the range's piece. */
  lemma DeletedAll(t: Table, start: nat, end: nat, t': Table, addr: nat)
    requires start <= end < ADDRESSES && DeletedTo(t, start, end, High(end) + 1, t') && addr < ADDRESSES
    ensures Lookup(t', addr) ==
            if start <= addr <= end && HasPiece(t, start, end, High(addr)) then None else Lookup(t, addr)
  {
    InPiece(start, end, addr);
    hide TableOk, PieceStart, PieceEnd, HasSame;
  }

  /** The piece of the current bucket, as the loop computes it. */
  lemma PieceOf(n: nat, start: nat, end: nat)
    requires start <= n <= end < ADDRESSES && (n == start || (Low(n) == 0 && High(start) < High(n)))
    ensures (if n == start then Low(n) else 0) == PieceStart(start, High(n))
    ensures (if High(n) * 0x10000 + 0xffff > end then Low(end) else 0xffff) == PieceEnd(end, High(n))
    ensures Touches(start, end, High(n))
  {
  }

  lemma HighOrder(a: nat, b: nat)
    requires a <= b < ADDRESSES
    ensures High(a) <= High(b) < BUCKETS && High(b) <= 0xffff
  {
  }

  /** A range that met nothing when it was added is undone by deleting it. */
  lemma DeleteUndoesAddRange(t: Table, start: nat, end: nat, v: Value, t1: Table, t2: Table, addr: nat)
    requires start <= end < ADDRESSES && addr < ADDRESSES
    requires AddedTo(t, start, end, v, High(end) + 1, t1) && DeletedTo(t1, start, end, High(end) + 1, t2)
    requires forall h, i :: 0 <= h < BUCKETS && Touches(start, end, h) && 0 <= i < |Ranges(t[h])| ==>
      Disjoint(Ranges(t[h])[i], PieceStart(start, h), PieceEnd(end, h))
    ensures Lookup(t2, addr) == Lookup(t, addr)
  {
    var h := High(addr);
    hide PieceStart, PieceEnd;
    if Touches(start, end, h) {
      PieceProper(start, end, h);
      DeleteUndoesAdd(Ranges(t[h]), PieceStart(start, h), PieceEnd(end, h), v, Ranges(t1[h]), Ranges(t2[h]));
    }
  }

  lemma NothingAdded(t: Table, start: nat, end: nat, v: Value)
    requires TableOk(t) && start <= end < ADDRESSES
    ensures AddedTo(t, start, end, v, High(start), t)
  {
  }

  lemma NothingDeletedYet(t: Table, start: nat, end: nat)
    requires TableOk(t) && start <= end < ADDRESSES
    ensures |t| == BUCKETS
    ensures DeletedTo(t, start, end, High(start), t)
  {
  }

  lemma StillOld(t: Table, start: nat, end: nat, v: Value, h: nat, t': Table)
    requires AddedTo(t, start, end, v, h, t') && h < BUCKETS
    ensures |t| == |t'| == BUCKETS && t'[h] == t[h] && Ordered(Ranges(t'[h]))
  {
  }

  lemma StillThere(t: Table, start: nat, end: nat, h: nat, t': Table)
    requires DeletedTo(t, start, end, h, t') && h < BUCKETS
    ensures |t| == |t'| == BUCKETS && t'[h] == t[h] && Ordered(Ranges(t'[h]))
  {
  }

  lemma AddableMeans(t: Table, start: nat, end: nat, h: nat)
    requires |t| == BUCKETS && h < BUCKETS
    ensures AddableIn(t, start, end, h) <==> Addable(Ranges(t[h]), PieceStart(start, h), PieceEnd(end, h))
  {
  }

  lemma HasPieceMeans(t: Table, start: nat, end: nat, h: nat)
    requires |t| == BUCKETS && h < BUCKETS
    ensures HasPiece(t, start, end, h) <==> HasSame(Ranges(t[h]), PieceStart(start, h), PieceEnd(end, h))
  {
  }

  lemma RangesOf(was: Option<seq<Range>>, s: nat, e: nat, a: seq<Range>, b: Option<seq<Range>>)
    requires Deleted(Ranges(was), s, e, a) && b == if was == None then None else Some(a)
    ensures Ranges(b) == a
  {
    if |a| > 0 { assert a[0] in Ranges(was); }
  }

  lemma TouchesMeans(start: nat, end: nat)
    ensures forall h: nat :: Touches(start, end, h) <==> High(start) <= h < High(end) + 1
  {
  }

  lemma Finished(n: nat, start: nat, end: nat, done: nat)
    requires start <= end < ADDRESSES && n < ADDRESSES && done <= High(end) + 1
    requires if n <= end then done == 0x10000 else done == High(n) && (n == start || Low(n) == 0)
    ensures done == High(end) + 1
  {
  }

  class GeoTable {
    const low: array<Option<seq<Range>>>

    constructor ()
      ensures fresh(low) && TableOk(low[..])
      ensures forall addr: nat :: addr < ADDRESSES ==> Lookup(low[..], addr) == None
    {
      low := new Option<seq<Range>>[BUCKETS](_ => None);
    }

    /** The loop over the buckets a range touches. */
    method AddPieces(start: nat, end: nat, v: Value, junk: Range) returns (ok: bool, ghost done: nat)
      requires TableOk(low[..]) && start <= end < ADDRESSES
      modifies low
      ensures AddedTo(old(low[..]), start, end, v, done, low[..]) && done <= High(end) + 1
      ensures ok <==> done == High(end) + 1
      ensures !ok ==> Touches(start, end, done) && done < BUCKETS && !AddableIn(old(low[..]), start, end, done)
    {
      hide *;
      ghost var t := low[..];
      var n := start;
      HighOrder(start, end);
      NothingAdded(t, start, end, v);
      done := High(n);
      while n <= end
        invariant start <= n < ADDRESSES && (n == start || (Low(n) == 0 && High(start) < High(n)))
        invariant done == High(n) <= High(end) + 1 && AddedTo(t, start, end, v, done, low[..])
        decreases BUCKETS - High(n)
      {
        HighOrder(n, end);
        PieceOf(n, start, end);
        PieceProper(start, end, High(n));
        NextBucket(n);
        ghost var now := low[..];
        var h := High(n);
        StillOld(t, start, end, v, h, now);
        var s := if n == start then Low(n) else 0;
        var e := if h * 0x10000 + 0xffff > end then Low(end) else 0xffff;
        var added, a := AddPiece(Ranges(low[h]), s, e, v, junk);
        AddableMeans(t, start, end, h);
        if !added { return false, done; }
        AddedStep(t, start, end, v, h, now, a);
        low[h] := Some(a);
        done := h + 1;
        if h == 0xffff { break; }
        n := Next(n);
      }
      ok := true;
      Finished(n, start, end, done);
    }

    /** `ngx_stream_geo_add_range`; the caller has rejected start > end. */
    method AddRange(start: nat, end: nat, v: Value, junk: Range) returns (ok: bool)
      requires TableOk(low[..]) && start <= end < ADDRESSES
      modifies low
      ensures TableOk(low[..])
      ensures ok <==> forall h :: 0 <= h < BUCKETS && Touches(start, end, h) ==> AddableIn(old(low[..]), start, end, h)
      ensures ok ==> AddedTo(old(low[..]), start, end, v, High(end) + 1, low[..])
      ensures ok ==> forall addr: nat :: addr < ADDRESSES ==>
        Lookup(low[..], addr) == if start <= addr <= end then Some(v) else Lookup(old(low[..]), addr)
      ensures forall addr: nat :: addr < ADDRESSES ==>
        || Lookup(low[..], addr) == Lookup(old(low[..]), addr)
        || (start <= addr <= end && Lookup(low[..], addr) == Some(v))
    {
      ghost var t := low[..];
      ghost var done;
      ok, done := AddPieces(start, end, v, junk);
      hide Lookup, AddableIn, AddedIn;
      forall addr: nat | addr < ADDRESSES
        ensures Lookup(low[..], addr) == Lookup(t, addr) || (start <= addr <= end && Lookup(low[..], addr) == Some(v))
        ensures ok ==> Lookup(low[..], addr) == if start <= addr <= end then Some(v) else Lookup(t, addr)
      {
        AddedPartly(t, start, end, v, done, low[..], addr);
      }
    }

    /** The loop of `delete_range`. */
    method DeletePieces(start: nat, end: nat) returns (warn: bool)
      requires TableOk(low[..]) && start <= end < ADDRESSES
      modifies low
      ensures DeletedTo(old(low[..]), start, end, High(end) + 1, low[..])
      ensures warn <==> exists h :: 0 <= h < BUCKETS && Touches(start, end, h) && !HasPiece(old(low[..]), start, end, h)
    {
      hide *;
      ghost var t := low[..];
      ghost var done := High(start);
      var n := start;
      warn := false;
      HighOrder(start, end);
      NothingDeletedYet(t, start, end);
      while n <= end
        invariant start <= n < ADDRESSES && (n == start || (Low(n) == 0 && High(start) < High(n)))
        invariant done == High(n) <= High(end) + 1 && DeletedTo(t, start, end, done, low[..])
        invariant |t| == BUCKETS
        invariant warn <==> exists h :: High(start) <= h < done && h < BUCKETS && !HasPiece(t, start, end, h)
        decreases BUCKETS - High(n)
      {
        HighOrder(n, end);
        PieceOf(n, start, end);
        PieceProper(start, end, High(n));
        NextBucket(n);
        ghost var now := low[..];
        var h := High(n);
        StillThere(t, start, end, h, now);
        var s := if n == start then Low(n) else 0;
        var e := if h * 0x10000 + 0xffff > end then Low(end) else 0xffff;
        var a, missing := DeletePiece(Ranges(low[h]), s, e);
        HasPieceMeans(t, start, end, h);
        var b := if low[h] == None then None else Some(a);
        RangesOf(low[h], s, e, a, b);
        DeletedStep(t, start, end, h, now, b);
        low[h] := b;
        if missing { warn := true; }
        done := h + 1;
        if h == 0xffff { break; }
        n := Next(n);
      }
      Finished(n, start, end, done);
      TouchesMeans(start, end);
    }

    /** `ngx_stream_geo_delete_range`: exactly the identically bounded pieces go. */
    method DeleteRange(start: nat, end: nat) returns (warn: bool)
      requires TableOk(low[..]) && start <= end < ADDRESSES
      modifies low
      ensures TableOk(low[..]) && DeletedTo(old(low[..]), start, end, High(end) + 1, low[..])
      ensures forall addr: nat :: addr < ADDRESSES ==>
        Lookup(low[..], addr) ==
        if start <= addr <= end && HasPiece(old(low[..]), start, end, High(addr)) then None
        else Lookup(old(low[..]), addr)
      ensures warn <==> exists h :: 0 <= h < BUCKETS && Touches(start, end, h) && !HasPiece(old(low[..]), start, end, h)
    {
      ghost var t := low[..];
      warn := DeletePieces(start, end);
      hide Lookup, HasPiece, DeletedIn;
      forall addr: nat | addr < ADDRESSES
        ensures Lookup(low[..], addr) ==
          if start <= addr <= end && HasPiece(t, start, end, High(addr)) then None else Lookup(t, addr)
      {
        DeletedAll(t, start, end, low[..], addr);
      }
    }
  }
}
