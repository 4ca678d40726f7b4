/** Looking an address up in a loaded binary base, through the relocated pointers. */
module GeoReader {
  import opened Bytes
  import opened Words
  import opened GeoBuckets
  import opened GeoImage
  import opened GeoLoader
  import opened Options

  /** The bytes `x` are in memory at `p`. */
  ghost predicate At(m: seq<byte>, p: nat, x: seq<byte>) {
    p + |x| <= |m| && m[p..p + |x|] == x
  }

  lemma AtPart(m: seq<byte>, p: nat, a: seq<byte>, x: seq<byte>, b: seq<byte>)
    requires At(m, p, a + x + b)
    ensures At(m, p + |a|, x)
  {
    var all, q := a + x + b, p + |a|;
    forall k | 0 <= k < |x| ensures m[q..q + |x|][k] == x[k] {
      assert m[p..p + |all|][|a| + k] == all[|a| + k];
    }
    assert m[q..q + |x|] == x;
  }

  lemma AtTail(m: seq<byte>, p: nat, a: seq<byte>, x: seq<byte>)
    requires At(m, p, a + x)
    ensures At(m, p, a) && At(m, p + |a|, x)
  {
    hide At;
    assert a + x + [] == a + x && [] + a + x == a + x;
    AtPart(m, p, a, x, []);
    AtPart(m, p, [], a, x);
  }

  lemma AtSlice(m: seq<byte>, p: nat, x: seq<byte>, i: nat, j: nat)
    requires At(m, p, x) && i <= j <= |x|
    ensures p + j <= |m| && m[p + i..p + j] == x[i..j]
  {
    var y := m[p..p + |x|];
    forall k | 0 <= k < j - i ensures y[i..j][k] == m[p + i..p + j][k] {
      assert y[i + k] == m[p + (i + k)];
    }
    assert y[i..j] == m[p + i..p + j];
  }

  // ----- what is where in the image -----

  /** How many bytes of lists come before bucket `i`. */
  function Before(bs: seq<seq<Range>>, i: nat): nat
    requires i <= |bs|
  {
    if i == 0 then 0 else ListLen(bs[0]) + Before(bs[1..], i - 1)
  }

  lemma {:induction false} BeforeFits(bs: seq<seq<Range>>, i: nat)
    requires i < |bs|
    ensures Before(bs, i) + ListLen(bs[i]) <= ListsLen(bs)
  {
    if i > 0 { BeforeFits(bs[1..], i - 1); }
  }

  lemma {:induction false} PointerAt(m: seq<byte>, p: nat, base: nat, off: nat, bs: seq<seq<Range>>, i: nat)
    requires i < |bs| && At(m, p, Pointers(base, off, bs))
    ensures At(m, p + 8 * i, Put(if bs[i] == [] then 0 else base + off + Before(bs, i), 8))
    decreases i
  {
    hide At, Put;
    AtTail(m, p, Put(if bs[0] == [] then 0 else base + off, 8), Pointers(base, off + ListLen(bs[0]), bs[1..]));
    if i > 0 { PointerAt(m, p + 8, base, off + ListLen(bs[0]), bs[1..], i - 1); }
  }

  lemma {:induction false} ListAt(m: seq<byte>, p: nat, base: nat, vs: seq<Val>, bs: seq<seq<Range>>, i: nat)
    requires i < |bs| && bs[i] != [] && At(m, p, Lists(base, vs, bs))
    ensures At(m, p + Before(bs, i), ListRecord(base, vs, bs[i]))
    decreases i
  {
    hide At, ListRecord;
    AtTail(m, p, if bs[0] == [] then [] else ListRecord(base, vs, bs[0]), Lists(base, vs, bs[1..]));
    if i > 0 { ListAt(m, p + ListLen(bs[0]), base, vs, bs[1..], i - 1); }
  }

  lemma {:induction false} ValueAt(m: seq<byte>, base: nat, off: nat, vs: seq<Val>, s: Value)
    requires ValsOk(vs) && HasText(vs, s) && At(m, off, Values(base, off, vs))
    ensures exists v :: (ValOk(v) && v.text == s
      && At(m, OffsetOf(off, vs, s), ValueRecord(base, OffsetOf(off, vs, s), v)))
    decreases |vs|
  {
    hide At, ValueRecord, ValueLen;
    AtTail(m, off, ValueRecord(base, off, vs[0]), Values(base, off + ValueLen(vs[0]), vs[1..]));
    if vs[0].text != s {
      assert HasText(vs[1..], s) by {
        var i :| 0 <= i < |vs| && vs[i].text == s;
        assert vs[1..][i - 1].text == s;
      }
      ValueAt(m, base, off + ValueLen(vs[0]), vs[1..], s);
    }
  }

  /** The parts of a loaded base. */
  lemma Parts(h: seq<byte>, base: nat, vs: seq<Val>, bs: seq<seq<Range>>)
    requires |h| == HEADER_SIZE && ValsOk(vs)
    ensures var m := h + Body(base, vs, bs);
      && At(m, HEADER_SIZE, Values(base, HEADER_SIZE, vs))
      && At(m, ListsStart(vs, |bs|) - 8 * |bs|, Pointers(base, ListsStart(vs, |bs|), bs))
      && At(m, ListsStart(vs, |bs|), Lists(base, vs, bs))
  {
    var v, z, p, l := Values(base, HEADER_SIZE, vs), Zeros(VALUE_SIZE),
      Pointers(base, ListsStart(vs, |bs|), bs), Lists(base, vs, bs);
    BodyParts(h, base, vs, bs);
    var m := h + Body(base, vs, bs);
    hide Values, Pointers, Lists, Body;
    assert At(m, 0, m);
    hide At;
    AtPart(m, 0, h, v, z + (p + l));
    AtPart(m, 0, h + v + z, p, l);
    AtTail(m, 0, h + v + z + p, l);
  }

  // ----- the lookup -----

  lemma Low28(head: nat, v: Val)
    requires ValOk(v) && head == |v.text| + VALID_BIT
    ensures VALID_BIT != 0 && head % VALID_BIT == |v.text|
  {
  }

  lemma ValueRoom(m: seq<byte>, base: nat, p: nat, v: Val)
    requires ValOk(v) && At(m, p, ValueRecord(base, p, v))
    ensures p + 16 + |v.text| <= |m|
  {
  }

  lemma ValueIn(m: seq<byte>, base: nat, vs: seq<Val>, s: Value) returns (v: Val)
    requires ValsOk(vs) && HasText(vs, s) && base + |m| < ADDRESS_SPACE
    requires At(m, HEADER_SIZE, Values(base, HEADER_SIZE, vs))
    ensures var p := OffsetOf(HEADER_SIZE, vs, s);
      && ValOk(v) && v.text == s && p + 16 + |s| <= |m| && VALID_BIT != 0
      && Get(m[p..p + 4]) == |s| + VALID_BIT && Get(m[p + 8..p + 16]) == base + p + 16
      && m[p + 16..p + 16 + |s|] == s
  {
    hide At, ValueRecord, Values, Get;
    ValueAt(m, base, HEADER_SIZE, vs, s);
    var p := OffsetOf(HEADER_SIZE, vs, s);
    v :| ValOk(v) && v.text == s && At(m, p, ValueRecord(base, p, v));
    ValueRoom(m, base, p, v);
    ValueFields(base, p, v);
    var x := ValueRecord(base, p, v);
    AtSlice(m, p, x, 0, 4);
    AtSlice(m, p, x, 8, 16);
    AtSlice(m, p, x, 16, 16 + |s|);
  }

  /** The text a value structure stands for. */
  method ReadValue(mem: array<byte>, base: nat, p: nat, ghost vs: seq<Val>, ghost s: Value) returns (text: Value)
    requires ValsOk(vs) && HasText(vs, s) && base + mem.Length < ADDRESS_SPACE
    requires At(mem[..], HEADER_SIZE, Values(base, HEADER_SIZE, vs)) && p == OffsetOf(HEADER_SIZE, vs, s)
    ensures text == s
  {
    hide *;
    ghost var v := ValueIn(mem[..], base, vs, s);
    var head := ReadWord(mem, p, 4);
    var data := ReadWord(mem, p + 8, 8);
    var len := head % VALID_BIT;
    Low28(head, v);
    text := mem[data - base..data - base + len];
  }

  lemma NextWord(m: seq<byte>, p: nat, base: nat, vs: seq<Val>, rs: seq<Range>)
    requires At(m, p, ListRecord(base, vs, rs)) && base + HEADER_SIZE + ValuesLen(vs) < ADDRESS_SPACE
    requires RangesOk(rs, vs)
    ensures p + 8 <= |m| && (Get(m[p..p + 8]) == 0 <==> rs == [])
  {
    hide At, Get, RangeRecord, Put;
    AtSlice(m, p, ListRecord(base, vs, rs), 0, 8);
    if rs == [] {
      WordLimits();
      GetPut(0, 8);
      assert Put(0, 8)[0..8] == Put(0, 8);
    } else {
      var voff := OffsetOf(HEADER_SIZE, vs, rs[0].value);
      OffsetInside(HEADER_SIZE, vs, rs[0].value);
      RangeFields(base, voff, rs[0]);
      ListStep(base, vs, rs, [], []);
      assert ListRecord(base, vs, rs)[0..8] == RangeRecord(base, voff, rs[0])[0..8];
    }
  }

  /** The fields of the range the scan is at, and the pointer it tests for going on. */
  lemma RangeIn(m: seq<byte>, p: nat, base: nat, vs: seq<Val>, rs: seq<Range>)
    requires rs != [] && RangesOk(rs, vs) && At(m, p, ListRecord(base, vs, rs))
    requires base + HEADER_SIZE + ValuesLen(vs) < ADDRESS_SPACE
    ensures p + 24 <= |m|
    ensures Get(m[p..p + 8]) == base + OffsetOf(HEADER_SIZE, vs, rs[0].value)
    ensures Get(m[p + 8..p + 10]) == rs[0].start && Get(m[p + 10..p + 12]) == rs[0].end
    ensures At(m, p + 16, ListRecord(base, vs, rs[1..])) && RangesOk(rs[1..], vs)
    ensures Get(m[p + 16..p + 24]) == 0 <==> |rs| == 1
  {
    var voff := OffsetOf(HEADER_SIZE, vs, rs[0].value);
    OffsetInside(HEADER_SIZE, vs, rs[0].value);
    var x := RangeRecord(base, voff, rs[0]);
    RangeFields(base, voff, rs[0]);
    ListStep(base, vs, rs, [], []);
    hide RangeRecord, Get;
    AtTail(m, p, x, ListRecord(base, vs, rs[1..]));
    AtSlice(m, p, x, 0, 8);
    AtSlice(m, p, x, 8, 10);
    AtSlice(m, p, x, 10, 12);
    NextWord(m, p + 16, base, vs, rs[1..]);
  }

  lemma FindHead(rs: seq<Range>, n: nat)
    requires rs != []
    ensures Find(rs, n) == if rs[0].start <= n <= rs[0].end then Some(rs[0].value) else Find(rs[1..], n)
    ensures |rs| == 1 ==> Find(rs[1..], n) == None
  {
  }

  lemma TextOf(rs: seq<Range>, vs: seq<Val>)
    requires rs != [] && RangesOk(rs, vs)
    ensures HasText(vs, rs[0].value)
  {
  }

  /** The scan of one list, from its first range: the text of the first range that covers `n`. */
  method ScanList(mem: array<byte>, base: nat, p0: nat, n: nat, ghost vs: seq<Val>, ghost rs: seq<Range>)
    returns (v: Option<Value>)
    requires rs != [] && RangesOk(rs, vs) && ValsOk(vs) && base + mem.Length < ADDRESS_SPACE
    requires HEADER_SIZE + ValuesLen(vs) <= mem.Length
    requires At(mem[..], p0, ListRecord(base, vs, rs))
    requires At(mem[..], HEADER_SIZE, Values(base, HEADER_SIZE, vs))
    ensures v == Find(rs, n)
  {
    var p := p0;
    ghost var rest := rs;
    hide *;
    while true
      invariant rest != [] && RangesOk(rest, vs) && At(mem[..], p, ListRecord(base, vs, rest))
      invariant Find(rest, n) == Find(rs, n)
      decreases |rest|
    {
      RangeIn(mem[..], p, base, vs, rest);
      FindHead(rest, n);
      var start := ReadWord(mem, p + 8, 2);
      var end := ReadWord(mem, p + 10, 2);
      if n >= start && n <= end {
        TextOf(rest, vs);
        var value := ReadWord(mem, p, 8);
        var text := ReadValue(mem, base, value - base, vs, rest[0].value);
        return Some(text);
      }
      p := p + 16;
      rest := rest[1..];
      var next := ReadWord(mem, p, 8);
      if next == 0 { return None; }
    }
  }

  /** What the list gives, seen range by range: the first one that covers the offset decides. */
  lemma {:induction false} FindFirst(rs: seq<Range>, n: nat, i: nat)
    requires i < |rs| && rs[i].start <= n <= rs[i].end
    requires forall j :: 0 <= j < i ==> n < rs[j].start || rs[j].end < n
    ensures Find(rs, n) == Some(rs[i].value)
  {
    if i > 0 { FindFirst(rs[1..], n, i - 1); }
  }

  lemma FindDecides(rs: seq<Range>, n: nat, default: Value, v: Value)
    requires v == if Find(rs, n).Some? then Find(rs, n).value else default
    ensures forall i | 0 <= i < |rs| && rs[i].start <= n <= rs[i].end
                       && (forall j :: 0 <= j < i ==> n < rs[j].start || rs[j].end < n) :: v == rs[i].value
    ensures (forall i :: 0 <= i < |rs| ==> n < rs[i].start || rs[i].end < n) ==> v == default
  {
    forall i | 0 <= i < |rs| && rs[i].start <= n <= rs[i].end
               && (forall j :: 0 <= j < i ==> n < rs[j].start || rs[j].end < n)
      ensures Find(rs, n) == Some(rs[i].value)
    {
      FindFirst(rs, n, i);
    }
    if forall i :: 0 <= i < |rs| ==> n < rs[i].start || rs[i].end < n { FindNone(rs, n); }
  }

  lemma FindNothing(rs: seq<Range>, n: nat)
    requires rs == []
    ensures Find(rs, n) == None
  {
  }

  lemma BodyRoom(m: seq<byte>, h: seq<byte>, base: nat, vs: seq<Val>, bs: seq<seq<Range>>)
    requires |h| == HEADER_SIZE && ValsOk(vs) && ListsOk(bs, vs) && m == h + Body(base, vs, bs)
    ensures HEADER_SIZE + ValuesLen(vs) <= |m| && ListsStart(vs, |bs|) + ListsLen(bs) == |m|
    ensures ListsStart(vs, |bs|) - 8 * |bs| == HEADER_SIZE + ValuesLen(vs) + VALUE_SIZE > 0
    ensures forall i :: 0 <= i < |bs| ==> RangesOk(bs[i], vs)
  {
  }

  lemma PointerValue(m: seq<byte>, p: nat, w: nat)
    requires At(m, p, Put(w, 8)) && w < ADDRESS_SPACE
    ensures p + 8 <= |m| && Get(m[p..p + 8]) == w
  {
    WordLimits();
    GetPut(w, 8);
    assert Put(w, 8)[0..8] == Put(w, 8);
    AtSlice(m, p, Put(w, 8), 0, 8);
  }

  lemma PointerIn(m: seq<byte>, h: seq<byte>, base: nat, vs: seq<Val>, bs: seq<seq<Range>>, i: nat)
    requires |h| == HEADER_SIZE && ValsOk(vs) && i < |bs| && ListsOk(bs, vs)
    requires m == h + Body(base, vs, bs) && base + |m| < ADDRESS_SPACE
    ensures HEADER_SIZE + ValuesLen(vs) <= |m|
    ensures At(m, HEADER_SIZE, Values(base, HEADER_SIZE, vs))
    ensures var p := HEADER_SIZE + ValuesLen(vs) + VALUE_SIZE + 8 * i;
      p + 8 <= |m| && (Get(m[p..p + 8]) == 0 <==> bs[i] == [])
      && (bs[i] != [] ==> Get(m[p..p + 8]) >= base && RangesOk(bs[i], vs)
                          && At(m, Get(m[p..p + 8]) - base, ListRecord(base, vs, bs[i])))
  {
    hide *;
    var start := ListsStart(vs, |bs|);
    BodyRoom(m, h, base, vs, bs);
    BeforeFits(bs, i);
    Parts(h, base, vs, bs);
    PointerAt(m, start - 8 * |bs|, base, start, bs, i);
    PointerValue(m, start - 8 * |bs| + 8 * i, if bs[i] == [] then 0 else base + start + Before(bs, i));
    if bs[i] != [] { ListAt(m, start, base, vs, bs, i); }
  }

  /**
   * `range_variable` on a loaded base: the value of the range that covers the address in the lists
   * the base was written from, and the default if none does.
   */
  method RangeVariable(mem: array<byte>, base: nat, pointers: nat, addr: nat, default: Value,
                       ghost h: seq<byte>, ghost vs: seq<Val>, ghost bs: seq<seq<Range>>) returns (v: Value)
    requires |h| == HEADER_SIZE && ValsOk(vs) && |bs| == 0x10000 && ListsOk(bs, vs) && addr < 0x1_0000_0000
    requires mem[..] == h + Body(base, vs, bs) && base + mem.Length < ADDRESS_SPACE
    requires pointers == HEADER_SIZE + ValuesLen(vs) + VALUE_SIZE
    ensures var rs, n := bs[addr / 0x10000], addr % 0x10000;
      && (forall i | 0 <= i < |rs| && rs[i].start <= n <= rs[i].end
                     && (forall j :: 0 <= j < i ==> n < rs[j].start || rs[j].end < n) :: v == rs[i].value)
      && ((forall i :: 0 <= i < |rs| ==> n < rs[i].start || rs[i].end < n) ==> v == default)
  {
    hide *;
    ghost var rs := bs[addr / 0x10000];
    PointerIn(mem[..], h, base, vs, bs, addr / 0x10000);
    var range := ReadWord(mem, pointers + 8 * (addr / 0x10000), 8);
    v := default;
    if range != 0 {
      var found := ScanList(mem, base, range - base, addr % 0x10000, vs, rs);
      if found.Some? { v := found.value; }
    } else {
      FindNothing(rs, addr % 0x10000);
    }
    FindDecides(rs, addr % 0x10000, default, v);
  }
}
