/** The sorted interval list of one 16-bit bucket of the geo range table. */
module GeoBuckets {
  import opened Bytes
  import opened Options

  /** A value is what its string says: equal strings share one variable value. */
  type Value = seq<byte>

  /** Both ends are inclusive. */
  datatype Range = Range(start: nat, end: nat, value: Value)

  ghost predicate Ordered(rs: seq<Range>) {
    && (forall i :: 0 <= i < |rs| ==> rs[i].start <= rs[i].end <= 0xffff)
    && (forall i, j :: 0 <= i < j < |rs| ==> rs[i].end < rs[j].start)
  }

  predicate Covers(r: Range, n: nat) { r.start <= n <= r.end }

  predicate Disjoint(r: Range, s: nat, e: nat) { e < r.start || r.end < s }

  predicate Contains(r: Range, s: nat, e: nat) { r.start <= s && e <= r.end }

  predicate Same(r: Range, s: nat, e: nat) { r.start == s && r.end == e }

  /** What the lookup loop finds for offset `n`: the first range that covers it. */
  function Find(rs: seq<Range>, n: nat): Option<Value> {
    if rs == [] then None else if Covers(rs[0], n) then Some(rs[0].value) else Find(rs[1..], n)
  }

  lemma {:induction false} FindAt(rs: seq<Range>, n: nat, i: nat)
    requires Ordered(rs) && i < |rs| && Covers(rs[i], n)
    ensures Find(rs, n) == Some(rs[i].value)
  {
    if i > 0 { FindAt(rs[1..], n, i - 1); }
  }

  lemma {:induction false} FindNone(rs: seq<Range>, n: nat)
    requires forall i :: 0 <= i < |rs| ==> !Covers(rs[i], n)
    ensures Find(rs, n) == None
  {
    if rs != [] { FindNone(rs[1..], n); }
  }

  lemma {:induction false} FindSplit(a: seq<Range>, b: seq<Range>, n: nat)
    ensures Find(a + b, n) == if Find(a, n).Some? then Find(a, n) else Find(b, n)
  {
    if a == [] {
      assert a + b == b;
    } else {
      assert (a + b)[1..] == a[1..] + b;
      FindSplit(a[1..], b, n);
    }
  }

  /** A piece may be added if it meets no stored range or lies within one. */
  ghost predicate Addable(rs: seq<Range>, s: nat, e: nat) {
    || (forall i :: 0 <= i < |rs| ==> Disjoint(rs[i], s, e))
    || (exists i :: 0 <= i < |rs| && Contains(rs[i], s, e))
  }

  /** The list with range `i` replaced by some ranges. */
  function Splice(rs: seq<Range>, i: nat, mid: seq<Range>): seq<Range>
    requires i < |rs|
  {
    rs[..i] + mid + rs[i + 1..]
  }

  /** Up to three ranges that take the place of `r` when [s, e] within it gets value `v`. */
  function Pieces(r: Range, s: nat, e: nat, v: Value): seq<Range>
    requires Contains(r, s, e) && s <= e
  {
    (if r.start < s then [Range(r.start, s - 1, r.value)] else [])
    + [Range(s, e, v)]
    + (if e < r.end then [Range(e + 1, r.end, r.value)] else [])
  }

  // ----- what the two kinds of edit mean -----

  lemma PiecesFind(r: Range, s: nat, e: nat, v: Value, n: nat)
    requires Contains(r, s, e) && s <= e
    ensures Find(Pieces(r, s, e, v), n) ==
            if s <= n <= e then Some(v) else if Covers(r, n) then Some(r.value) else None
  {
    var a := if r.start < s then [Range(r.start, s - 1, r.value)] else [];
    var c := if e < r.end then [Range(e + 1, r.end, r.value)] else [];
    FindSplit(a + [Range(s, e, v)], c, n);
    FindSplit(a, [Range(s, e, v)], n);
  }

  /** Every range of `mid` lies within [s, e], in order. */
  ghost predicate Within(mid: seq<Range>, s: nat, e: nat) {
    Ordered(mid) && forall i :: 0 <= i < |mid| ==> s <= mid[i].start && mid[i].end <= e
  }

  lemma OrderedJoin(a: seq<Range>, mid: seq<Range>, b: seq<Range>, s: nat, e: nat)
    requires Ordered(a) && Within(mid, s, e) && Ordered(b) && s <= e
    requires forall i :: 0 <= i < |a| ==> a[i].end < s
    requires forall i :: 0 <= i < |b| ==> e < b[i].start
    ensures Ordered(a + mid + b)
  {
  }

  lemma PiecesWithin(r: Range, s: nat, e: nat, v: Value)
    requires Contains(r, s, e) && s <= e && r.end <= 0xffff
    ensures Within(Pieces(r, s, e, v), r.start, r.end)
  {
  }

  lemma SplitFind(rs: seq<Range>, i: nat, s: nat, e: nat, v: Value, n: nat)
    requires Ordered(rs) && i < |rs| && Contains(rs[i], s, e) && s <= e
    ensures Find(Splice(rs, i, Pieces(rs[i], s, e, v)), n) == if s <= n <= e then Some(v) else Find(rs, n)
  {
    var r := rs[i];
    var a, mid, b := rs[..i], Pieces(r, s, e, v), rs[i + 1..];
    FindSplit(a + mid, b, n);
    FindSplit(a, mid, n);
    PiecesFind(r, s, e, v, n);
    FindSplit(a + [r], b, n);
    FindSplit(a, [r], n);
    assert rs == a + [r] + b;
    if Covers(r, n) { FindNone(a, n); }
  }

  ghost predicate HasSame(rs: seq<Range>, s: nat, e: nat) {
    exists i :: 0 <= i < |rs| && Same(rs[i], s, e)
  }

  /** `qs` is `rs` with value `v` on [s, e], stored as that range, and nothing else changed, still in order. */
  ghost predicate Added(rs: seq<Range>, s: nat, e: nat, v: Value, qs: seq<Range>) {
    Ordered(qs) && HasSame(qs, s, e) && forall n: nat :: Find(qs, n) == if s <= n <= e then Some(v) else Find(rs, n)
  }

  /** Replacing a containing range by its pieces. */
  lemma SplitMeans(rs: seq<Range>, i: nat, s: nat, e: nat, v: Value)
    requires Ordered(rs) && i < |rs| && Contains(rs[i], s, e) && s <= e
    ensures Added(rs, s, e, v, Splice(rs, i, Pieces(rs[i], s, e, v)))
  {
    var r := rs[i];
    var a, mid, b := rs[..i], Pieces(r, s, e, v), rs[i + 1..];
    PiecesWithin(r, s, e, v);
    assert Splice(rs, i, mid)[i + if r.start < s then 1 else 0] == Range(s, e, v);
    OrderedJoin(a, mid, b, r.start, r.end);
    forall n: nat ensures Find(a + mid + b, n) == if s <= n <= e then Some(v) else Find(rs, n) {
      SplitFind(rs, i, s, e, v, n);
    }
  }

  /** Inserting a piece into the gap before range `k`. */
  function Insert(rs: seq<Range>, k: nat, s: nat, e: nat, v: Value): seq<Range>
    requires k <= |rs|
  {
    rs[..k] + [Range(s, e, v)] + rs[k..]
  }

  lemma GapFind(rs: seq<Range>, k: nat, s: nat, e: nat, v: Value, n: nat)
    requires k <= |rs| && forall i :: 0 <= i < k ==> rs[i].end < s
    ensures Find(Insert(rs, k, s, e, v), n) == if s <= n <= e then Some(v) else Find(rs, n)
  {
    var a, mid, b := rs[..k], [Range(s, e, v)], rs[k..];
    FindSplit(a + mid, b, n);
    FindSplit(a, mid, n);
    FindSplit(a, b, n);
    assert rs == a + b;
    if s <= n <= e { FindNone(a, n); }
  }

  lemma GapMeans(rs: seq<Range>, k: nat, s: nat, e: nat, v: Value)
    requires Ordered(rs) && k <= |rs| && s <= e <= 0xffff
    requires forall i :: 0 <= i < k ==> rs[i].end < s
    requires forall i :: k <= i < |rs| ==> e < rs[i].start
    ensures Added(rs, s, e, v, Insert(rs, k, s, e, v))
  {
    OrderedJoin(rs[..k], [Range(s, e, v)], rs[k..], s, e);
    assert Insert(rs, k, s, e, v)[k] == Range(s, e, v);
    forall n: nat ensures Find(Insert(rs, k, s, e, v), n) == if s <= n <= e then Some(v) else Find(rs, n) {
      GapFind(rs, k, s, e, v, n);
    }
  }

  /** A range that is met but does not contain the piece spoils it. */
  lemma NotAddable(rs: seq<Range>, i: nat, s: nat, e: nat)
    requires Ordered(rs) && i < |rs| && s <= e && !Disjoint(rs[i], s, e) && !Contains(rs[i], s, e)
    ensures !Addable(rs, s, e)
  {
    forall j | 0 <= j < |rs| ensures !Contains(rs[j], s, e) {
      if j < i { assert rs[j].end < rs[i].start; }
      if i < j { assert rs[i].end < rs[j].start; }
    }
  }

  lemma GapAddable(rs: seq<Range>, k: nat, s: nat, e: nat)
    requires k <= |rs| && forall i :: 0 <= i < k ==> rs[i].end < s
    requires forall i :: k <= i < |rs| ==> e < rs[i].start
    ensures Addable(rs, s, e)
  {
  }

  // ----- adding and deleting, step by step -----

  /** memmove of everything from `src` on to `dst`, within the pushed length. */
  function Shift(a: seq<Range>, dst: nat, src: nat): seq<Range>
    requires src <= dst <= |a|
  {
    a[..dst] + a[src..|a| - (dst - src)]
  }

  lemma InPlace(rs: seq<Range>, i: nat, v: Value)
    requires i < |rs| && rs[i].start <= rs[i].end
    ensures rs[i := rs[i].(value := v)] == Splice(rs, i, Pieces(rs[i], rs[i].start, rs[i].end, v))
  {
    assert Pieces(rs[i], rs[i].start, rs[i].end, v) == [rs[i].(value := v)];
  }

  /** Moving the ranges from `i + k` on up by as many places as were pushed. */
  lemma Moved(rs: seq<Range>, i: nat, pushed: seq<Range>, n: nat, k: nat)
    requires i < |rs| && |pushed| == n && k <= 1 && i + k + n <= |rs + pushed|
    ensures var a := Shift(rs + pushed, i + k + n, i + k);
      && |a| == |rs| + n && a[..i] == rs[..i] && a[i + k + n..] == rs[i + k..]
      && (k == 1 ==> a[i] == rs[i]) && (k == 0 ==> a[i + n] == rs[i] && a[i + n + 1..] == rs[i + 1..])
  {
    var a := Shift(rs + pushed, i + k + n, i + k);
    assert a[i + k + n..] == rs[i + k..];
    if k == 0 { assert rs[i..][1..] == rs[i + 1..] && a[i + n..][0] == rs[i] && a[i + n..][1..] == a[i + n + 1..]; }
  }

  lemma Spliced(rs: seq<Range>, i: nat, b: seq<Range>, mid: seq<Range>)
    requires i < |rs| && i + |mid| <= |b|
    requires b[..i] == rs[..i] && b[i..i + |mid|] == mid && b[i + |mid|..] == rs[i + 1..]
    ensures b == Splice(rs, i, mid)
  {
    assert b == b[..i] + b[i..i + |mid|] + b[i + |mid|..];
  }

  lemma AroundMiddle(rs: seq<Range>, i: nat, s: nat, e: nat, v: Value, junk: Range)
    requires i < |rs| && Contains(rs[i], s, e) && s <= e && rs[i].start < s && e < rs[i].end
    ensures var a := Shift(rs + [junk] + [junk], i + 3, i + 1);
      a[i] == rs[i] &&
      a[i + 2 := Range(e + 1, rs[i].end, rs[i].value)][i + 1 := Range(s, e, v)][i := rs[i].(end := s - 1)] ==
      Splice(rs, i, Pieces(rs[i], s, e, v))
  {
    var mid := [rs[i].(end := s - 1), Range(s, e, v), Range(e + 1, rs[i].end, rs[i].value)];
    assert Pieces(rs[i], s, e, v) == mid;
    hide *;
    var a := Shift(rs + [junk] + [junk], i + 3, i + 1);
    Moved(rs, i, [junk] + [junk], 2, 1);
    assert rs + [junk] + [junk] == rs + ([junk] + [junk]);
    var b := a[i + 2 := mid[2]][i + 1 := mid[1]][i := mid[0]];
    assert b[..i] == rs[..i] && b[i..i + 3] == mid && b[i + 3..] == rs[i + 1..];
    Spliced(rs, i, b, mid);
  }

  lemma BeforeRest(rs: seq<Range>, i: nat, s: nat, e: nat, v: Value, junk: Range)
    requires i < |rs| && Contains(rs[i], s, e) && s <= e && s == rs[i].start && e < rs[i].end
    ensures var a := Shift(rs + [junk], i + 1, i);
      a[i + 1] == rs[i] &&
      a[i + 1 := rs[i].(start := e + 1)][i := Range(s, e, v)] == Splice(rs, i, Pieces(rs[i], s, e, v))
  {
    var mid := [Range(s, e, v), rs[i].(start := e + 1)];
    assert Pieces(rs[i], s, e, v) == mid;
    hide *;
    var a := Shift(rs + [junk], i + 1, i);
    Moved(rs, i, [junk], 1, 0);
    var b := a[i + 1 := mid[1]][i := mid[0]];
    assert b[..i] == rs[..i] && b[i..i + 2] == mid && b[i + 2..] == rs[i + 1..];
    Spliced(rs, i, b, mid);
  }

  lemma AfterRest(rs: seq<Range>, i: nat, s: nat, e: nat, v: Value, junk: Range)
    requires i < |rs| && Contains(rs[i], s, e) && s <= e && rs[i].start < s && e == rs[i].end
    ensures var a := Shift(rs + [junk], i + 2, i + 1);
      a[i] == rs[i] &&
      a[i + 1 := Range(s, e, v)][i := rs[i].(end := s - 1)] == Splice(rs, i, Pieces(rs[i], s, e, v))
  {
    var mid := [rs[i].(end := s - 1), Range(s, e, v)];
    assert Pieces(rs[i], s, e, v) == mid;
    hide *;
    var a := Shift(rs + [junk], i + 2, i + 1);
    Moved(rs, i, [junk], 1, 1);
    var b := a[i + 1 := mid[1]][i := mid[0]];
    assert b[..i] == rs[..i] && b[i..i + 2] == mid && b[i + 2..] == rs[i + 1..];
    Spliced(rs, i, b, mid);
  }

  /** The four edits for a piece that lies within range `i`. */
  method Split(rs: seq<Range>, i: nat, s: nat, e: nat, v: Value, junk: Range) returns (a: seq<Range>)
    requires i < |rs| && Contains(rs[i], s, e) && s <= e
    ensures a == Splice(rs, i, Pieces(rs[i], s, e, v))
  {
    a := rs;
    if s == a[i].start && e == a[i].end {
      a := a[i := a[i].(value := v)];
      InPlace(rs, i, v);
    } else if s > a[i].start && e < a[i].end {
      a := a + [junk];
      a := a + [junk];
      a := Shift(a, i + 3, i + 1);
      a := a[i + 2 := Range(e + 1, a[i].end, a[i].value)];
      a := a[i + 1 := Range(s, e, v)];
      a := a[i := a[i].(end := s - 1)];
      AroundMiddle(rs, i, s, e, v, junk);
    } else if s == a[i].start {
      a := a + [junk];
      a := Shift(a, i + 1, i);
      a := a[i + 1 := a[i + 1].(start := e + 1)];
      a := a[i := Range(s, e, v)];
      BeforeRest(rs, i, s, e, v, junk);
    } else {
      a := a + [junk];
      a := Shift(a, i + 2, i + 1);
      a := a[i + 1 := Range(s, e, v)];
      a := a[i := a[i].(end := s - 1)];
      AfterRest(rs, i, s, e, v, junk);
    }
  }

  lemma GapBelow(rs: seq<Range>, i: nat, s: nat)
    requires Ordered(rs) && i < |rs| && rs[i].end < s
    ensures forall k :: 0 <= k < i + 1 ==> rs[k].end < s
  {
    forall k | 0 <= k < i ensures rs[k].end < s {
      assert rs[k].end < rs[i].start;
    }
  }

  /** No offset from `s` to `e` has a value. */
  ghost predicate Vacant(rs: seq<Range>, s: nat, e: nat) {
    forall n: nat :: s <= n <= e ==> Find(rs, n) == None
  }

  lemma VacantMeans(rs: seq<Range>, s: nat, e: nat)
    requires Ordered(rs) && s <= e
    ensures Vacant(rs, s, e) <==> forall i :: 0 <= i < |rs| ==> Disjoint(rs[i], s, e)
  {
    if Vacant(rs, s, e) {
      forall i | 0 <= i < |rs| ensures Disjoint(rs[i], s, e) {
        var n: nat := if s < rs[i].start then rs[i].start else s;
        if Covers(rs[i], n) { FindAt(rs, n, i); }
      }
    }
    if forall i :: 0 <= i < |rs| ==> Disjoint(rs[i], s, e) {
      forall n: nat | s <= n <= e ensures Find(rs, n) == None {
        FindNone(rs, n);
      }
    }
  }

  /** A piece is refused if it overlaps a stored range without lying within it. */
  lemma AcceptedMeans(rs: seq<Range>, s: nat, e: nat)
    requires Ordered(rs) && s <= e
    ensures Addable(rs, s, e) <==>
      Vacant(rs, s, e) || exists i :: 0 <= i < |rs| && rs[i].start <= s && e <= rs[i].end
  {
    VacantMeans(rs, s, e);
    hide Vacant, Ordered, Disjoint;
    forall i | 0 <= i < |rs| ensures Contains(rs[i], s, e) <==> rs[i].start <= s && e <= rs[i].end {}
  }

  /**
   * The scan of one bucket in `add_range`, from the last range down.  `a` is the array the edits
   * are made in; a push leaves an element of unknown content at its end.
   */
  method AddPiece(rs: seq<Range>, s: nat, e: nat, v: Value, junk: Range) returns (added: bool, a: seq<Range>)
    requires Ordered(rs) && s <= e <= 0xffff
    ensures added <==> Addable(rs, s, e)
    ensures added ==> Added(rs, s, e, v, a)
    ensures !added ==> a == rs
  {
    a := rs;
    var i := |a|;
    while i > 0
      invariant 0 <= i <= |rs| && a == rs
      invariant forall k :: i <= k < |rs| ==> e < rs[k].start
    {
      i := i - 1;
      if e < a[i].start { continue; }
      if s > a[i].end {
        GapBelow(rs, i, s);
        GapAddable(rs, i + 1, s, e);
        GapMeans(rs, i + 1, s, e, v);
        a := a + [junk];
        a := Shift(a, i + 2, i + 1);
        a := a[i + 1 := Range(s, e, v)];
        assert a == Insert(rs, i + 1, s, e, v);
        return true, a;
      }
      if Contains(a[i], s, e) {
        SplitMeans(rs, i, s, e, v);
        a := Split(a, i, s, e, v, junk);
        return true, a;
      }
      NotAddable(rs, i, s, e);
      return false, rs;
    }
    GapAddable(rs, 0, s, e);
    GapMeans(rs, 0, s, e, v);
    a := a + [junk];
    a := Shift(a, 1, 0);
    a := a[0 := Range(s, e, v)];
    assert a == Insert(rs, 0, s, e, v);
    added := true;
  }

  /** `qs` is `rs` with nothing left on exactly the range [s, e], if there was one, and nothing else changed. */
  ghost predicate Deleted(rs: seq<Range>, s: nat, e: nat, qs: seq<Range>) {
    && Ordered(qs)
    && (forall i :: 0 <= i < |qs| ==> qs[i] in rs && !Same(qs[i], s, e))
    && (forall i :: 0 <= i < |rs| ==> Same(rs[i], s, e) || rs[i] in qs)
    && forall n: nat :: Find(qs, n) == if HasSame(rs, s, e) && s <= n <= e then None else Find(rs, n)
  }

  lemma NothingDeleted(rs: seq<Range>, s: nat, e: nat)
    requires Ordered(rs) && !HasSame(rs, s, e)
    ensures Deleted(rs, s, e, rs)
  {
  }

  lemma RemovalOrdered(rs: seq<Range>, i: nat)
    requires Ordered(rs) && i < |rs|
    ensures Ordered(rs[..i] + rs[i + 1..])
  {
  }

  lemma FindOne(r: Range, n: nat)
    ensures Find([r], n) == if Covers(r, n) then Some(r.value) else None
  {
  }

  lemma RemovalFind(rs: seq<Range>, i: nat, s: nat, e: nat, n: nat)
    requires Ordered(rs) && i < |rs| && Same(rs[i], s, e)
    ensures Find(rs[..i] + rs[i + 1..], n) == if s <= n <= e then None else Find(rs, n)
  {
    var a, b := rs[..i], rs[i + 1..];
    if s <= n <= e {
      FindNone(a, n);
      FindNone(b, n);
    }
    FindOne(rs[i], n);
    hide Find, Ordered;
    assert rs == a + [rs[i]] + b;
    FindSplit(a, b, n);
    FindSplit(a + [rs[i]], b, n);
    FindSplit(a, [rs[i]], n);
  }

  lemma RemovalMeans(rs: seq<Range>, i: nat, s: nat, e: nat)
    requires Ordered(rs) && i < |rs| && Same(rs[i], s, e)
    ensures Deleted(rs, s, e, rs[..i] + rs[i + 1..]) && HasSame(rs, s, e)
  {
    var qs := rs[..i] + rs[i + 1..];
    RemovalOrdered(rs, i);
    forall n: nat ensures Find(qs, n) == if s <= n <= e then None else Find(rs, n) {
      RemovalFind(rs, i, s, e, n);
    }
    forall k | 0 <= k < |qs| ensures qs[k] in rs && !Same(qs[k], s, e) {
      var j := if k < i then k else k + 1;
      assert qs[k] == rs[j];
      if j < i { assert rs[j].end < rs[i].start; } else { assert rs[i].end < rs[j].start; }
    }
    forall k | 0 <= k < |rs| && k != i ensures rs[k] in qs {
      assert rs[k] == qs[if k < i then k else k - 1];
    }
  }

  /** The scan of one bucket in `delete_range`. */
  method DeletePiece(rs: seq<Range>, s: nat, e: nat) returns (a: seq<Range>, warn: bool)
    requires Ordered(rs) && s <= e
    ensures Deleted(rs, s, e, a) && (warn <==> !HasSame(rs, s, e))
    ensures warn ==> a == rs && forall i :: 0 <= i < |rs| ==> rs[i].start != s || rs[i].end != e
    ensures !warn ==>
      exists i :: 0 <= i < |rs| && rs[i].start == s && rs[i].end == e && a == rs[..i] + rs[i + 1..]
  {
    a, warn := rs, false;
    if |a| == 0 { return a, true; }
    var i := 0;
    while i < |a|
      invariant i <= |rs| && a == rs && (warn <==> i == |rs|)
      invariant forall k :: 0 <= k < i ==> !Same(rs[k], s, e)
    {
      if Same(a[i], s, e) {
        RemovalMeans(rs, i, s, e);
        a := a[..i] + a[i + 1..];
        return;
      }
      if i == |a| - 1 { warn := true; }
      i := i + 1;
    }
    NothingDeleted(rs, s, e);
  }

  /** An accepted piece that met nothing is undone by deleting it. */
  lemma DeleteUndoesAdd(rs: seq<Range>, s: nat, e: nat, v: Value, qs: seq<Range>, ts: seq<Range>)
    requires Ordered(rs) && s <= e && forall i :: 0 <= i < |rs| ==> Disjoint(rs[i], s, e)
    requires Added(rs, s, e, v, qs) && Deleted(qs, s, e, ts)
    ensures forall n: nat :: Find(ts, n) == Find(rs, n)
  {
    forall n: nat ensures Find(ts, n) == Find(rs, n) {
      if s <= n <= e { FindNone(rs, n); }
    }
  }
}
