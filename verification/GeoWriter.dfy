/** Writing a binary geo base into a zero-filled mapping, and the size set aside for it beforehand. */
module GeoWriter {
  import opened Bytes
  import opened Words
  import opened GeoBuckets
  import opened GeoImage
  import opened GeoLoader
  import opened Options

  /** The search tree of values, whatever shape balancing gave it. */
  datatype Tree = Nil | Node(left: Tree, val: Val, right: Tree)

  function Preorder(t: Tree): seq<Val> {
    match t
    case Nil => []
    case Node(l, v, r) => [v] + Preorder(l) + Preorder(r)
  }

  ghost predicate Distinct(vs: seq<Val>) {
    forall i, j :: 0 <= i < j < |vs| ==> vs[i].text != vs[j].text
  }

  // ----- the size -----

  lemma {:induction false} LenJoin(vs: seq<Val>, ws: seq<Val>)
    ensures ValuesLen(vs + ws) == ValuesLen(vs) + ValuesLen(ws)
  {
    hide ValueLen;
    if vs == [] {
      assert vs + ws == ws;
    } else {
      assert (vs + ws)[1..] == vs[1..] + ws;
      LenJoin(vs[1..], ws);
    }
  }

  lemma FirstLen(v: Val, vs: seq<Val>)
    ensures ValuesLen([v] + vs) == ValueLen(v) + ValuesLen(vs)
  {
    assert ([v] + vs)[1..] == vs;
  }

  lemma SplitCount<T>(a: seq<T>, x: T, b: seq<T>)
    ensures multiset(a + b) == multiset(a + ([x] + b)) - multiset{x}
  {
    assert multiset(a + ([x] + b)) == multiset(a) + (multiset{x} + multiset(b));
  }

  lemma TakeOut(ws: seq<Val>, k: nat)
    requires k < |ws|
    ensures multiset(ws[..k] + ws[k + 1..]) == multiset(ws) - multiset{ws[k]}
    ensures ValuesLen(ws) == ValueLen(ws[k]) + ValuesLen(ws[..k] + ws[k + 1..])
  {
    hide *;
    var a, b := ws[..k], ws[k + 1..];
    LenJoin(a, b);
    LenJoin(a, [ws[k]] + b);
    FirstLen(ws[k], b);
    assert ws == a + ([ws[k]] + b);
    SplitCount(a, ws[k], b);
  }

  lemma NoneLeft(ws: seq<Val>)
    requires multiset(ws) == multiset([])
    ensures ws == []
  {
    assert |multiset(ws)| == 0;
  }

  lemma Place(v: Val, ws: seq<Val>) returns (k: nat)
    requires v in multiset(ws)
    ensures k < |ws| && ws[k] == v
  {
    assert v in ws;
    k :| 0 <= k < |ws| && ws[k] == v;
  }

  /** The values take the same room in whatever order the tree holds them. */
  lemma {:induction false} AnyOrder(vs: seq<Val>, ws: seq<Val>)
    requires multiset(vs) == multiset(ws)
    ensures ValuesLen(vs) == ValuesLen(ws)
    decreases |vs|
  {
    hide *;
    if vs == [] {
      NoneLeft(ws);
    } else {
      assert vs[0] in multiset(vs);
      var k := Place(vs[0], ws);
      TakeOut(vs, 0);
      TakeOut(ws, k);
      AnyOrder(vs[..0] + vs[1..], ws[..k] + ws[k + 1..]);
    }
  }

  lemma {:induction false} ListsJoin(bs: seq<seq<Range>>, b: seq<Range>)
    ensures ListsLen(bs + [b]) == ListsLen(bs) + ListLen(b)
  {
    if bs == [] {
      assert bs + [b] == [b] && [b][1..] == [];
    } else {
      assert (bs + [b])[1..] == bs[1..] + [b];
      ListsJoin(bs[1..], b);
    }
  }

  /** The configuration context: the distinct values met so far, and the size of a base holding them. */
  class Context {
    var values: seq<Val>
    var dataSize: nat

    ghost predicate Valid(closed: seq<seq<Range>>)
      reads this
    {
      && ValsOk(values) && Distinct(values)
      && dataSize == HEADER_SIZE + VALUE_SIZE + ADDRESS_SIZE * 0x10000 + ValuesLen(values) + ListsLen(closed)
    }

    constructor ()
      ensures values == [] && Valid([])
    {
      values := [];
      dataSize := HEADER_SIZE + VALUE_SIZE + 0x10000 * ADDRESS_SIZE;
    }

    /** `geo_value`: a new value is kept and paid for, a known one is shared. */
    method GeoValue(text: Value, pad: seq<byte>)
      requires Valid([]) && |text| < VALID_BIT && |pad| == 4
      modifies this
      ensures Valid([])
      ensures values == if HasText(old(values), text) then old(values) else old(values) + [Val(text, pad)]
    {
      for i := 0 to |values|
        invariant Valid([]) && values == old(values) && dataSize == old(dataSize)
        invariant forall j :: 0 <= j < i ==> values[j].text != text
      {
        if values[i].text == text { return; }
      }
      var v := Val(text, pad);
      LenJoin(values, [v]);
      assert [v][1..] == [];
      values := values + [v];
      dataSize := dataSize + Align8(VALUE_SIZE + |text|);
    }

    /**
     * The freezing loop at the end of `geo_block`: a bucket without ranges, created or not, becomes
     * NULL, and each other one gets its terminated list and pays for it.
     */
    method Freeze(high: seq<Option<seq<Range>>>) returns (low: seq<seq<Range>>)
      requires Valid([]) && |high| == 0x10000
      modifies this`dataSize
      ensures |low| == |high| && Valid(low)
      ensures forall i :: 0 <= i < |high| ==> low[i] == if high[i].Some? then high[i].value else []
    {
      low := [];
      assert high[..0] == [];
      for i := 0 to 0x10000
        invariant |low| == i && Valid(low)
        invariant forall j :: 0 <= j < i ==> low[j] == if high[j].Some? then high[j].value else []
      {
        var list := match high[i] case None => [] case Some(rs) => rs;
        ListsJoin(low, list);
        if list != [] {
          dataSize := dataSize + (|list| * RANGE_SIZE + ADDRESS_SIZE);
        }
        low := low + [list];
      }
    }
  }

  // ----- writing into zeros -----

  lemma ZerosSplit(k: nat, n: nat)
    requires k <= n
    ensures Zeros(n) == Zeros(k) + Zeros(n - k)
  {
  }

  /** Overwriting the first zeros after `a`. */
  lemma OverZeros(a: seq<byte>, n: nat, rest: seq<byte>, w: seq<byte>)
    requires |w| <= n
    ensures var m := a + Zeros(n) + rest;
      m[..|a|] + w + m[|a| + |w|..] == a + w + Zeros(n - |w|) + rest
  {
    var m := a + Zeros(n) + rest;
    assert m[..|a|] == a;
    assert m[|a| + |w|..] == Zeros(n - |w|) + rest;
    Assoc(a + w, Zeros(n - |w|), rest);
  }

  /** Puts `s` over the first zeros after `a`. */
  method Lay(mem: array<byte>, p: nat, s: seq<byte>, ghost a: seq<byte>, ghost n: nat, ghost rest: seq<byte>)
    requires |a| == p && |s| <= n && mem[..] == a + Zeros(n) + rest
    modifies mem
    ensures mem[..] == a + s + Zeros(n - |s|) + rest
  {
    OverZeros(a, n, rest, s);
    MemCopy(mem, p, s);
  }

  method LayWord(mem: array<byte>, p: nat, k: nat, w: nat, ghost a: seq<byte>, ghost n: nat, ghost rest: seq<byte>)
    requires |a| == p && k <= n && mem[..] == a + Zeros(n) + rest
    modifies mem
    ensures mem[..] == a + Put(w, k) + Zeros(n - k) + rest
  {
    OverZeros(a, n, rest, Put(w, k));
    WriteWord(mem, p, k, w);
  }

  /** Leaves `k` of the zeros after `a` as they are. */
  lemma Leave(a: seq<byte>, k: nat, n: nat, rest: seq<byte>)
    requires k <= n
    ensures a + Zeros(n) + rest == a + Zeros(k) + Zeros(n - k) + rest
  {
    ZerosSplit(k, n);
    Assoc(a, Zeros(k), Zeros(n - k));
  }

  // ----- the values -----

  /** The offsets the tree's nodes have once the values `vs` are written from `off` on. */
  function Offsets(off: nat, vs: seq<Val>, before: map<Value, nat>): map<Value, nat>
    decreases |vs|
  {
    if vs == [] then before else Offsets(off + ValueLen(vs[0]), vs[1..], before[vs[0].text := off])
  }

  lemma {:induction false} OffsetsJoin(off: nat, vs: seq<Val>, ws: seq<Val>, before: map<Value, nat>)
    ensures Offsets(off, vs + ws, before) == Offsets(off + ValuesLen(vs), ws, Offsets(off, vs, before))
    decreases |vs|
  {
    hide ValueLen;
    if vs == [] {
      assert vs + ws == ws;
    } else {
      assert (vs + ws)[1..] == vs[1..] + ws;
      OffsetsJoin(off + ValueLen(vs[0]), vs[1..], ws, before[vs[0].text := off]);
    }
  }

  lemma {:induction false} OffsetKept(off: nat, vs: seq<Val>, before: map<Value, nat>, s: Value)
    requires s in before && !HasText(vs, s)
    ensures s in Offsets(off, vs, before) && Offsets(off, vs, before)[s] == before[s]
    decreases |vs|
  {
    if vs != [] {
      assert vs[0].text != s;
      assert forall i :: 0 <= i < |vs[1..]| ==> vs[1..][i] == vs[i + 1];
      OffsetKept(off + ValueLen(vs[0]), vs[1..], before[vs[0].text := off], s);
    }
  }

  /** With distinct values a node's offset is where its value is. */
  lemma {:induction false} OffsetFound(off: nat, vs: seq<Val>, before: map<Value, nat>, s: Value)
    requires Distinct(vs) && HasText(vs, s)
    ensures s in Offsets(off, vs, before) && Offsets(off, vs, before)[s] == OffsetOf(off, vs, s)
    decreases |vs|
  {
    var i :| 0 <= i < |vs| && vs[i].text == s;
    if i == 0 {
      assert forall j :: 0 <= j < |vs[1..]| ==> vs[1..][j] == vs[j + 1];
      OffsetKept(off + ValueLen(vs[0]), vs[1..], before[vs[0].text := off], s);
    } else {
      assert vs[1..][i - 1].text == s;
      OffsetFound(off + ValueLen(vs[0]), vs[1..], before[vs[0].text := off], s);
    }
  }

  lemma ValueSpace(v: Val, n: nat)
    requires ValOk(v) && ValueLen(v) <= n
    ensures 16 + |v.text| <= ValueLen(v) <= n && |v.pad| == 4 && VALUE_SIZE == 16
    ensures forall w, k :: |Put(w, k)| == k
  {
  }

  lemma Aligned(p: nat, v: Val)
    requires p % 8 == 0
    ensures Align8(p + 16 + |v.text|) == p + ValueLen(v) && (p + ValueLen(v)) % 8 == 0
  {
  }

  lemma ValueJoin(a: seq<byte>, p: nat, v: Val)
    requires ValOk(v)
    ensures a + Put(|v.text| + VALID_BIT, 4) + v.pad + Put(p + VALUE_SIZE, 8) + v.text
            + Zeros(ValueLen(v) - VALUE_SIZE - |v.text|) == a + ValueRecord(0, p, v)
  {
    hide Put, Zeros;
    var x0, x1, z := Put(|v.text| + VALID_BIT, 4), Put(p + VALUE_SIZE, 8), Zeros(ValueLen(v) - VALUE_SIZE - |v.text|);
    Assoc(a, x0, v.pad);
    Assoc(a, x0 + v.pad, x1);
    Assoc(a, x0 + v.pad + x1, v.text);
    Assoc(a, x0 + v.pad + x1 + v.text, z);
  }

  /** One value: its structure, its text, and the zeros up to the next word. */
  method CopyValue(mem: array<byte>, p: nat, v: Val, ghost a: seq<byte>, ghost n: nat) returns (q: nat)
    requires ValOk(v) && |a| == p && p % 8 == 0 && ValueLen(v) <= n && mem[..] == a + Zeros(n) + []
    modifies mem
    ensures q == p + ValueLen(v) && q % 8 == 0
    ensures mem[..] == a + ValueRecord(0, p, v) + Zeros(n - ValueLen(v)) + []
  {
    ghost var len := |v.text|;
    ghost var x0 := Put(len + VALID_BIT, 4);
    ghost var x1 := Put(p + VALUE_SIZE, 8);
    ValueSpace(v, n);
    ValueJoin(a, p, v);
    Aligned(p, v);
    hide *;
    LayWord(mem, p, 4, |v.text| + VALID_BIT, a, n, []);
    Lay(mem, p + 4, v.pad, a + x0, n - 4, []);
    LayWord(mem, p + 8, 8, p + 16, a + x0 + v.pad, n - 8, []);
    Lay(mem, p + 16, v.text, a + x0 + v.pad + x1, n - 16, []);
    Leave(a + x0 + v.pad + x1 + v.text, ValueLen(v) - 16 - len, n - 16 - len, []);
    q := Align8(p + 16 + |v.text|);
  }

  lemma NilValues(t: Tree, p: nat, before: map<Value, nat>, a: seq<byte>)
    requires t.Nil?
    ensures ValsOk(Preorder(t)) && ValuesLen(Preorder(t)) == 0 && a + Values(0, p, Preorder(t)) == a
    ensures Offsets(p, Preorder(t), before) == before
  {
  }

  lemma One(p: nat, v: Val, before: map<Value, nat>)
    requires ValOk(v)
    ensures ValsOk([v]) && ValuesLen([v]) == ValueLen(v) && Values(0, p, [v]) == ValueRecord(0, p, v)
    ensures |ValueRecord(0, p, v)| == ValueLen(v)
    ensures Offsets(p, [v], before) == before[v.text := p]
  {
    hide ValueRecord;
    assert [v][1..] == [];
  }

  lemma TreeParts(v: Val, l: seq<Val>, r: seq<Val>, p: nat, before: map<Value, nat>, a: seq<byte>)
    requires ValOk(v) && ValsOk([v]) && ValsOk(l) && ValsOk([v] + l) && ValsOk(r) && ValsOk([v] + l + r)
    ensures var p1 := p + ValueLen(v);
      var p2 := p1 + ValuesLen(l);
      var x, y, z := ValueRecord(0, p, v), Values(0, p1, l), Values(0, p2, r);
      && |a + x| == |a| + ValueLen(v) && |a + x + y| == |a| + ValueLen(v) + ValuesLen(l)
      && ValuesLen([v] + l + r) == ValueLen(v) + ValuesLen(l) + ValuesLen(r)
      && a + x + y + z == a + Values(0, p, [v] + l + r)
      && Offsets(p2, r, Offsets(p1, l, before[v.text := p])) == Offsets(p, [v] + l + r, before)
  {
    hide *;
    var p1 := p + ValueLen(v);
    var p2 := p1 + ValuesLen(l);
    var x, y, z := ValueRecord(0, p, v), Values(0, p1, l), Values(0, p2, r);
    One(p, v, before);
    ValuesJoin(0, p, [v], l);
    ValuesJoin(0, p, [v] + l, r);
    OffsetsJoin(p, [v] + l, r, before);
    OffsetsJoin(p, [v], l, before);
    Assoc(a, x, y);
    Assoc(a, x + y, z);
  }

  lemma OkParts(vs: seq<Val>, ws: seq<Val>)
    requires ValsOk(vs + ws)
    ensures ValsOk(vs) && ValsOk(ws)
  {
    hide ValOk;
    assert forall i :: 0 <= i < |vs| ==> vs[i] == (vs + ws)[i];
    assert forall i :: 0 <= i < |ws| ==> ws[i] == (vs + ws)[|vs| + i];
  }

  lemma OkOne(v: Val)
    ensures ValsOk([v]) <==> ValOk(v)
  {
    if ValsOk([v]) { assert ValOk([v][0]); }
  }

  lemma TreeOk(t: Tree)
    requires t.Node? && ValsOk(Preorder(t))
    ensures Preorder(t) == [t.val] + Preorder(t.left) + Preorder(t.right)
    ensures ValOk(t.val) && ValsOk(Preorder(t.left)) && ValsOk(Preorder(t.right))
    ensures ValsOk([t.val]) && ValsOk([t.val] + Preorder(t.left))
  {
    hide ValOk, ValsOk;
    var v, l, r := t.val, Preorder(t.left), Preorder(t.right);
    OkParts([v] + l, r);
    OkParts([v], l);
    OkOne(v);
  }

  /** `copy_values`: the values of the tree in preorder, each node learning its offset. */
  method CopyValues(mem: array<byte>, p: nat, t: Tree, before: map<Value, nat>, ghost a: seq<byte>, ghost n: nat)
    returns (q: nat, offsets: map<Value, nat>)
    requires |a| == p && p % 8 == 0 && ValsOk(Preorder(t)) && ValuesLen(Preorder(t)) <= n
    requires mem[..] == a + Zeros(n) + []
    modifies mem
    ensures q == p + ValuesLen(Preorder(t)) && q % 8 == 0
    ensures mem[..] == a + Values(0, p, Preorder(t)) + Zeros(n - ValuesLen(Preorder(t))) + []
    ensures offsets == Offsets(p, Preorder(t), before)
    decreases t
  {
    hide *;
    if t.Nil? {
      NilValues(t, p, before, a);
      return p, before;
    }
    TreeOk(t);
    ghost var x := ValueRecord(0, p, t.val);
    ghost var l, r := Preorder(t.left), Preorder(t.right);
    TreeParts(t.val, l, r, p, before, a);
    offsets := before[t.val.text := p];
    q := CopyValue(mem, p, t.val, a, n);
    ghost var y := Values(0, q, l);
    q, offsets := CopyValues(mem, q, t.left, offsets, a + x, n - ValueLen(t.val));
    q, offsets := CopyValues(mem, q, t.right, offsets, a + x + y, n - ValueLen(t.val) - ValuesLen(l));
  }

  // ----- the range lists -----

  lemma RangeJoin(a: seq<byte>, voff: nat, r: Range)
    ensures a + Put(voff, 8) + Put(r.start, 2) + Put(r.end, 2) + Zeros(4) == a + RangeRecord(0, voff, r)
  {
    hide Put, Zeros;
    var x0, x1, x2 := Put(voff, 8), Put(r.start, 2), Put(r.end, 2);
    Assoc(a, x0, x1);
    Assoc(a, x0 + x1, x2);
    Assoc(a, x0 + x1 + x2, Zeros(4));
  }

  /** One range, with its value's offset; the padding stays zero. */
  method WriteRange(mem: array<byte>, p: nat, voff: nat, r: Range, ghost a: seq<byte>, ghost n: nat)
    requires |a| == p && 16 <= n && mem[..] == a + Zeros(n) + []
    modifies mem
    ensures mem[..] == a + RangeRecord(0, voff, r) + Zeros(n - 16) + []
  {
    RangeJoin(a, voff, r);
    hide *;
    ghost var x0, x1, x2 := Put(voff, 8), Put(r.start, 2), Put(r.end, 2);
    LayWord(mem, p, 8, voff, a, n, []);
    LayWord(mem, p + 8, 2, r.start, a + x0, n - 8, []);
    LayWord(mem, p + 10, 2, r.end, a + x0 + x1, n - 10, []);
    Leave(a + x0 + x1 + x2, 4, n - 12, []);
  }

  /** Every value the buckets use is in the tree, with its offset. */
  ghost predicate Placed(offsets: map<Value, nat>, vs: seq<Val>) {
    forall s :: HasText(vs, s) ==> s in offsets && offsets[s] == OffsetOf(HEADER_SIZE, vs, s)
  }

  lemma ListRoom(rs: seq<Range>, n: nat)
    requires rs != [] && ListLen(rs) <= n
    ensures ListLen(rs) == 16 * |rs| + 8 <= n
  {
  }

  lemma NoRanges(rs: seq<Range>, vs: seq<Val>)
    requires rs == []
    ensures ListRecord(0, vs, rs) == Put(0, 8)
  {
  }

  lemma UsesText(rs: seq<Range>, vs: seq<Val>, offsets: map<Value, nat>)
    requires rs != [] && RangesOk(rs, vs) && Placed(offsets, vs)
    ensures rs[0].value in offsets && offsets[rs[0].value] == OffsetOf(HEADER_SIZE, vs, rs[0].value)
    ensures RangesOk(rs[1..], vs)
  {
    assert HasText(vs, rs[0].value);
  }

  /** The list of one bucket, behind `a`; `range` ends up at the terminating pointer. */
  method WriteList(mem: array<byte>, p: nat, rs: seq<Range>, offsets: map<Value, nat>,
                   ghost vs: seq<Val>, ghost a: seq<byte>, ghost n: nat) returns (q: nat)
    requires |a| == p && rs != [] && ListLen(rs) <= n && mem[..] == a + Zeros(n) + []
    requires Placed(offsets, vs) && RangesOk(rs, vs)
    modifies mem
    ensures q == p + ListLen(rs)
    ensures mem[..] == a + ListRecord(0, vs, rs) + Zeros(n - ListLen(rs)) + []
  {
    hide *;
    q := p;
    ghost var done, rest := a, rs;
    var i := 0;
    ListRoom(rs, n);
    while true
      invariant i < |rs| && rest == rs[i..] && |done| == q == p + 16 * i
      invariant RangesOk(rest, vs)
      invariant mem[..] == done + Zeros(n - 16 * i) + []
      invariant done + ListRecord(0, vs, rest) == a + ListRecord(0, vs, rs)
      decreases |rs| - i
    {
      UsesText(rest, vs, offsets);
      ListStep(0, vs, rest, done, []);
      WriteRange(mem, q, offsets[rs[i].value], rs[i], done, n - 16 * i);
      ghost var x := RangeRecord(0, OffsetOf(HEADER_SIZE, vs, rest[0].value), rest[0]);
      done, rest := done + x, rest[1..];
      q := q + 16;
      i := i + 1;
      if i == |rs| { break; }
    }
    LayWord(mem, q, 8, 0, done, n - 16 * i, []);
    NoRanges(rest, vs);
    q := q + 8;
  }

  /**
   * The bucket loop: the pointers in `done` are written and the others still zero, the lists of the
   * buckets met so far are behind the table, and zeros follow.
   */
  ghost predicate AtBucket(m: seq<byte>, a: seq<byte>, vs: seq<Val>, bs: seq<seq<Range>>,
                           done: seq<byte>, lists: seq<byte>, rest: seq<seq<Range>>) {
    var off := |done| + 8 * |rest| + |lists|;
    && ListsOk(rest, vs)
    && m == done + Zeros(8 * |rest|) + (lists + Zeros(ListsLen(rest)))
    && done + Pointers(0, off, rest) == a + Pointers(0, |a| + 8 * |bs|, bs)
    && lists + Lists(0, vs, rest) == Lists(0, vs, bs)
  }

  lemma Units(x: seq<byte>)
    ensures [] + x == x && x + [] == x
  {
  }

  lemma BucketsBegin(m: seq<byte>, a: seq<byte>, vs: seq<Val>, bs: seq<seq<Range>>)
    requires ListsOk(bs, vs) && m == a + Zeros(8 * |bs| + ListsLen(bs))
    ensures AtBucket(m, a, vs, bs, a, [], bs)
  {
    hide Zeros, Pointers, Lists, ListsLen, ListsOk;
    ZerosSplit(8 * |bs|, 8 * |bs| + ListsLen(bs));
    Assoc(a, Zeros(8 * |bs|), Zeros(ListsLen(bs)));
    Units(Zeros(ListsLen(bs)));
    Units(Lists(0, vs, bs));
  }

  lemma BucketsEnd(m: seq<byte>, a: seq<byte>, vs: seq<Val>, bs: seq<seq<Range>>,
                   done: seq<byte>, lists: seq<byte>, rest: seq<seq<Range>>)
    requires AtBucket(m, a, vs, bs, done, lists, rest) && rest == []
    ensures m == a + Pointers(0, |a| + 8 * |bs|, bs) + Lists(0, vs, bs)
  {
    assert done + Zeros(0) == done && done + [] == done && lists + Zeros(0) == lists && lists + [] == lists;
  }

  lemma SkippedShape(vs: seq<Val>, done: seq<byte>, lists: seq<byte>, rest: seq<seq<Range>>)
    requires rest != [] && rest[0] == [] && ListsOk(rest, vs)
    ensures ListsOk(rest[1..], vs) && ListsLen(rest) == ListsLen(rest[1..])
    ensures var off := |done| + 8 * |rest| + |lists|;
      done + Pointers(0, off, rest) == done + Put(0, 8) + Pointers(0, off, rest[1..])
    ensures Lists(0, vs, rest) == Lists(0, vs, rest[1..])
  {
    hide Put, RangesOk;
    PointersStep(0, |done| + 8 * |rest| + |lists|, rest, done, []);
    Units(Lists(0, vs, rest[1..]));
  }

  lemma ZeroWord()
    ensures Put(0, 8) == Zeros(8)
  {
    assert Put(0, 6) == [0, 0, 0, 0, 0, 0] by {
      assert Put(0, 3) == [0, 0, 0];
      assert Put(0, 4) == [0] + Put(0, 3);
      assert Put(0, 5) == [0] + Put(0, 4);
    }
    assert Put(0, 7) == [0] + Put(0, 6);
    assert Put(0, 8) == [0] + Put(0, 7);
  }

  /** A bucket without ranges: its pointer stays NULL. */
  lemma BucketSkipped(m: seq<byte>, a: seq<byte>, vs: seq<Val>, bs: seq<seq<Range>>,
                      done: seq<byte>, lists: seq<byte>, rest: seq<seq<Range>>)
    requires AtBucket(m, a, vs, bs, done, lists, rest) && rest != [] && rest[0] == []
    ensures AtBucket(m, a, vs, bs, done + Put(0, 8), lists, rest[1..])
  {
    hide Zeros, Pointers, Lists, ListsLen, ListsOk, Put;
    SkippedShape(vs, done, lists, rest);
    ZeroWord();
    Leave(done, 8, 8 * |rest|, lists + Zeros(ListsLen(rest)));
  }

  lemma Regroup(d: seq<byte>, z: seq<byte>, l: seq<byte>, x: seq<byte>, k: seq<byte>, k0: seq<byte>)
    ensures d + z + (l + k0) == d + z + l + k0 + []
    ensures d + z + l + x + k + [] == d + z + (l + x + k)
  {
    Units(d + z + l + k0);
    Units(d + z + l + x + k);
    Assoc(d + z, l, k0);
    Assoc(d + z, l, x);
    Assoc(d + z, l + x, k);
  }

  lemma FirstList(vs: seq<Val>, rest: seq<seq<Range>>)
    requires rest != [] && rest[0] != [] && ListsOk(rest, vs)
    ensures RangesOk(rest[0], vs) && ListsOk(rest[1..], vs) && |ListRecord(0, vs, rest[0])| == ListLen(rest[0])
    ensures ListsLen(rest) == ListLen(rest[0]) + ListsLen(rest[1..]) && ListLen(rest[0]) <= ListsLen(rest)
    ensures Lists(0, vs, rest) == ListRecord(0, vs, rest[0]) + Lists(0, vs, rest[1..])
  {
    hide RangesOk, ListRecord;
  }

  lemma FirstPointer(off: nat, rest: seq<seq<Range>>, done: seq<byte>)
    requires rest != [] && rest[0] != []
    ensures done + Pointers(0, off, rest) == done + Put(off, 8) + Pointers(0, off + ListLen(rest[0]), rest[1..])
    ensures |Put(off, 8)| == 8
  {
    hide Put, ListLen;
    PointersStep(0, off, rest, done, []);
  }

  lemma BucketShape(vs: seq<Val>, done: seq<byte>, lists: seq<byte>, rest: seq<seq<Range>>)
    requires rest != [] && rest[0] != [] && ListsOk(rest, vs)
    ensures RangesOk(rest[0], vs) && ListsOk(rest[1..], vs) && |ListRecord(0, vs, rest[0])| == ListLen(rest[0])
    ensures ListsLen(rest) == ListLen(rest[0]) + ListsLen(rest[1..]) && ListLen(rest[0]) <= ListsLen(rest)
    ensures var off := |done| + 8 * |rest| + |lists|;
      && done + Pointers(0, off, rest) == done + Put(off, 8) + Pointers(0, off + ListLen(rest[0]), rest[1..])
      && |Put(off, 8)| == 8
      && lists + Lists(0, vs, rest) == lists + ListRecord(0, vs, rest[0]) + Lists(0, vs, rest[1..])
  {
    hide *;
    var off := |done| + 8 * |rest| + |lists|;
    FirstList(vs, rest);
    FirstPointer(off, rest, done);
    Assoc(lists, ListRecord(0, vs, rest[0]), Lists(0, vs, rest[1..]));
  }

  /** Where a bucket with ranges gets its pointer, and where its list goes. */
  lemma BucketTurn(m: seq<byte>, a: seq<byte>, vs: seq<Val>, bs: seq<seq<Range>>,
                   done: seq<byte>, lists: seq<byte>, rest: seq<seq<Range>>)
    requires AtBucket(m, a, vs, bs, done, lists, rest) && rest != [] && rest[0] != []
    ensures RangesOk(rest[0], vs)
    ensures var k, off := ListsLen(rest), |done| + 8 * |rest| + |lists|;
      var done', z := done + Put(off, 8), Zeros(8 * |rest| - 8);
      var x, k' := ListRecord(0, vs, rest[0]), k - ListLen(rest[0]);
      && m == done + Zeros(8 * |rest|) + (lists + Zeros(k))
      && ListLen(rest[0]) <= k && k' == ListsLen(rest[1..]) && |z| == 8 * |rest| - 8
      && |done' + z + lists| == off
      && done' + z + (lists + Zeros(k)) == done' + z + lists + Zeros(k) + []
      && AtBucket(done' + z + lists + x + Zeros(k') + [], a, vs, bs, done', lists + x, rest[1..])
  {
    hide Put, ListRecord, ListLen, ListsLen, Pointers, Lists, Zeros, ListsOk, RangesOk;
    BucketShape(vs, done, lists, rest);
    var k, off := ListsLen(rest), |done| + 8 * |rest| + |lists|;
    var done', z := done + Put(off, 8), Zeros(8 * |rest| - 8);
    var x, k' := ListRecord(0, vs, rest[0]), k - ListLen(rest[0]);
    Regroup(done', z, lists, x, Zeros(k'), Zeros(k));
    assert |done'| == |done| + 8;
  }

  /** The pointer table and the lists behind it; `p` is the end of what is written. */
  method WriteLists(mem: array<byte>, ranges: nat, low: seq<seq<Range>>, offsets: map<Value, nat>,
                    ghost vs: seq<Val>, ghost a: seq<byte>, ghost off: nat)
    requires |a| == ranges && ListsOk(low, vs) && Placed(offsets, vs) && off == |a| + 8 * |low|
    requires mem[..] == a + Zeros(8 * |low| + ListsLen(low))
    modifies mem
    ensures mem[..] == a + Pointers(0, off, low) + Lists(0, vs, low)
  {
    hide *;
    var p := ranges + 8 * |low|;
    ghost var done, lists: seq<byte> := a, [];
    BucketsBegin(mem[..], a, vs, low);
    for i := 0 to |low|
      invariant |done| == ranges + 8 * i && p == ranges + 8 * |low| + |lists|
      invariant AtBucket(mem[..], a, vs, low, done, lists, low[i..])
    {
      ghost var rest := low[i..];
      assert rest[1..] == low[i + 1..];
      if low[i] == [] {
        BucketSkipped(mem[..], a, vs, low, done, lists, rest);
        done := done + Put(0, 8);
      } else {
        BucketTurn(mem[..], a, vs, low, done, lists, rest);
        ghost var k := ListsLen(rest);
        ghost var z := Zeros(8 * |rest| - 8);
        LayWord(mem, ranges + 8 * i, 8, p, done, 8 * |rest|, lists + Zeros(k));
        done := done + Put(p, 8);
        p := WriteList(mem, p, low[i], offsets, vs, done + z + lists, k);
        lists := lists + ListRecord(0, vs, rest[0]);
      }
    }
    BucketsEnd(mem[..], a, vs, low, done, lists, low[|low|..]);
  }

  // ----- the whole file -----

  lemma AllPlaced(vs: seq<Val>)
    requires Distinct(vs)
    ensures Placed(Offsets(HEADER_SIZE, vs, map[]), vs)
  {
    forall s | HasText(vs, s)
      ensures s in Offsets(HEADER_SIZE, vs, map[])
      ensures Offsets(HEADER_SIZE, vs, map[])[s] == OffsetOf(HEADER_SIZE, vs, s)
    {
      OffsetFound(HEADER_SIZE, vs, map[], s);
    }
  }

  /** The size set aside, seen from the writer. */
  lemma FileSize(vs: seq<Val>, bs: seq<seq<Range>>)
    ensures var h := MAGIC + Zeros(4);
      && |h| == HEADER_SIZE == 16 && VALUE_SIZE == 16
      && DataSize(vs, bs) == ValuesLen(vs) + VALUE_SIZE + 8 * |bs| + ListsLen(bs) + 16
  {
  }

  /** The room behind the values: the terminating structure, then the table and the lists. */
  lemma AfterValues(a: seq<byte>, k: nat, n: nat)
    requires k <= n
    ensures a + Zeros(n) + [] == a + Zeros(k) + Zeros(n - k) && |a + Zeros(k)| == |a| + k
  {
    hide Zeros;
    Units(a + Zeros(n));
    Units(a + Zeros(k) + Zeros(n - k));
    Leave(a, k, n, []);
  }

  lemma TableStart(vs: seq<Val>, n: nat)
    ensures HEADER_SIZE + ValuesLen(vs) + VALUE_SIZE + 8 * n == ListsStart(vs, n)
  {
  }

  /** The pieces laid make the image. */
  lemma WholeFile(h: seq<byte>, vs: seq<Val>, bs: seq<seq<Range>>)
    requires |h| == HEADER_SIZE && ValsOk(vs)
    ensures var a := h + Values(0, HEADER_SIZE, vs) + Zeros(VALUE_SIZE);
      && |a| == HEADER_SIZE + ValuesLen(vs) + VALUE_SIZE && |a| + 8 * |bs| == ListsStart(vs, |bs|)
      && a + Pointers(0, ListsStart(vs, |bs|), bs) + Lists(0, vs, bs) == h + Body(0, vs, bs)
  {
    hide *;
    BodyParts(h, 0, vs, bs);
    TableStart(vs, |bs|);
  }

  /** The checksum put into the header. */
  lemma Stamped(body: seq<byte>, w: seq<byte>)
    requires |w| == 4
    ensures var m := MAGIC + Zeros(4) + body;
      m[16..] == body && m[..12] + w + m[16..] == MAGIC + w + body && |m| == 16 + |body|
  {
    var m := MAGIC + Zeros(4) + body;
    assert m[..12] == MAGIC;
  }

  lemma HeaderLaid(n: nat)
    ensures var s := MAGIC + [0, 0, 0, 0];
      |s| == 16 <= |Zeros(n + 16)| && Zeros(n + 16)[..0] + s + Zeros(n + 16)[16..] == MAGIC + Zeros(4) + Zeros(n) + []
  {
    assert Zeros(4) == [0, 0, 0, 0] && Zeros(n + 16)[16..] == Zeros(n);
  }

  /** The header with no checksum yet. */
  method WriteHeader(mem: array<byte>, ghost n: nat)
    requires mem[..] == Zeros(n + 16)
    modifies mem
    ensures mem[..] == MAGIC + Zeros(4) + Zeros(n) + []
  {
    HeaderLaid(n);
    hide *;
    Slices(mem, 0, 16);
    Slices(mem, 16, 16);
    MemCopy(mem, 0, MAGIC + [0, 0, 0, 0]);
  }

  /** The header without its checksum, the values, and the structure that ends them. */
  method WriteFront(mem: array<byte>, t: Tree, ghost low: seq<seq<Range>>)
    returns (p: nat, offsets: map<Value, nat>)
    requires ValsOk(Preorder(t)) && Distinct(Preorder(t))
    requires mem[..] == Zeros(DataSize(Preorder(t), low))
    modifies mem
    ensures p == HEADER_SIZE + ValuesLen(Preorder(t)) + VALUE_SIZE && Placed(offsets, Preorder(t))
    ensures mem[..] == MAGIC + Zeros(4) + Values(0, HEADER_SIZE, Preorder(t)) + Zeros(VALUE_SIZE)
                       + Zeros(8 * |low| + ListsLen(low))
  {
    hide *;
    ghost var vs := Preorder(t);
    ghost var n := ValuesLen(vs) + VALUE_SIZE + 8 * |low| + ListsLen(low);
    ghost var h := MAGIC + Zeros(4);
    FileSize(vs, low);
    AfterValues(h + Values(0, HEADER_SIZE, vs), VALUE_SIZE, n - ValuesLen(vs));
    AllPlaced(vs);
    WriteHeader(mem, n);
    p, offsets := CopyValues(mem, 16, t, map[], h, n);
    p := p + VALUE_SIZE;
  }

  /** The header without its checksum, the values, the table and the lists. */
  method WriteImage(mem: array<byte>, t: Tree, low: seq<seq<Range>>)
    requires ValsOk(Preorder(t)) && Distinct(Preorder(t)) && ListsOk(low, Preorder(t))
    requires mem[..] == Zeros(DataSize(Preorder(t), low))
    modifies mem
    ensures mem[..] == MAGIC + Zeros(4) + Body(0, Preorder(t), low)
  {
    hide *;
    ghost var vs := Preorder(t);
    ghost var h := MAGIC + Zeros(4);
    FileSize(vs, low);
    WholeFile(h, vs, low);
    var p, offsets := WriteFront(mem, t, low);
    WriteLists(mem, p, low, offsets, vs, h + Values(0, HEADER_SIZE, vs) + Zeros(VALUE_SIZE), ListsStart(vs, |low|));
  }

  lemma SumIs(c: Checksum, body: seq<byte>)
    ensures Sum(c, body) == c.final(Fold(c.step, c.init, body))
  {
  }

  /**
   * `create_binary_base` into a zero-filled mapping of the size set aside: the mapping is filled to
   * its last byte with the header, the checksum of everything after it, and the image.
   */
  method CreateBase(mem: array<byte>, t: Tree, low: seq<seq<Range>>, c: Checksum)
    requires ValsOk(Preorder(t)) && Distinct(Preorder(t)) && ListsOk(low, Preorder(t))
    requires mem[..] == Zeros(DataSize(Preorder(t), low))
    modifies mem
    ensures mem[..] == MAGIC + Put(Sum(c, Body(0, Preorder(t), low)), 4) + Body(0, Preorder(t), low)
  {
    hide *;
    ghost var body := Body(0, Preorder(t), low);
    WriteImage(mem, t, low);
    Stamped(body, Put(Sum(c, body), 4));
    var crc := Update(c.step, c.init, mem, 16, mem.Length - 16);
    Slices(mem, 16, mem.Length);
    Slices(mem, 12, 16);
    assert mem[..][16..mem.Length] == mem[..][16..];
    SumIs(c, body);
    WriteWord(mem, 12, 4, c.final(crc));
  }
}
