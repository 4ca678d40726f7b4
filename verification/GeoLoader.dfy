/** Loading a binary geo base: relocation in place, with the checksum taken piece by piece on the way. */
module GeoLoader {
  import opened Bytes
  import opened Words
  import opened GeoBuckets
  import opened GeoImage

  const ADDRESS_SPACE := 0x1_0000_0000_0000_0000

  // ----- the checksum -----

  /** The checksum register after some bytes; `step` takes in one of them. */
  function Fold(step: (nat, byte) -> nat, crc: nat, bytes: seq<byte>): nat
    decreases |bytes|
  {
    if bytes == [] then crc else Fold(step, step(crc, bytes[0]), bytes[1..])
  }

  lemma {:induction false} FoldJoin(step: (nat, byte) -> nat, crc: nat, a: seq<byte>, b: seq<byte>)
    ensures Fold(step, crc, a + b) == Fold(step, Fold(step, crc, a), b)
    decreases |a|
  {
    if a == [] {
      assert a + b == b;
    } else {
      assert (a + b)[1..] == a[1..] + b;
      FoldJoin(step, step(crc, a[0]), a[1..], b);
    }
  }

  /** `ngx_crc32_update` over a stretch of memory. */
  method Update(step: (nat, byte) -> nat, crc: nat, mem: array<byte>, p: nat, n: nat) returns (r: nat)
    requires p + n <= mem.Length
    ensures r == Fold(step, crc, mem[p..p + n])
  {
    r := crc;
    for i := 0 to n
      invariant Fold(step, r, mem[p + i..p + n]) == Fold(step, crc, mem[p..p + n])
    {
      assert mem[p + i..p + n][1..] == mem[p + i + 1..p + n];
      r := step(r, mem[p + i]);
    }
  }

  // ----- words in memory -----

  method ReadWord(mem: array<byte>, p: nat, k: nat) returns (w: nat)
    requires p + k <= mem.Length
    ensures w == Get(mem[p..p + k])
  {
    w := Get(mem[p..p + k]);
  }

  method WriteWord(mem: array<byte>, p: nat, k: nat, n: nat)
    requires p + k <= mem.Length
    modifies mem
    ensures mem[..] == old(mem[..p]) + Put(n, k) + old(mem[p + k..])
  {
    MemCopy(mem, p, Put(n, k));
  }

  lemma Slices(mem: array<byte>, p: nat, q: nat)
    requires p <= q <= mem.Length
    ensures mem[..p] == mem[..][..p] && mem[p..] == mem[..][p..] && mem[p..q] == mem[..][p..q]
  {
  }

  /** A stretch of memory seen inside the piece it belongs to. */
  lemma Inside(mem: seq<byte>, a: seq<byte>, x: seq<byte>, b: seq<byte>, i: nat, j: nat)
    requires mem == a + x + b && i <= j <= |x|
    ensures mem[|a| + i..|a| + j] == x[i..j]
  {
  }

  lemma Patch(a: seq<byte>, x: seq<byte>, b: seq<byte>, i: nat, w: seq<byte>)
    requires i + |w| <= |x|
    ensures (a + x + b)[..|a| + i] + w + (a + x + b)[|a| + i + |w|..] == a + (x[..i] + w + x[i + |w|..]) + b
  {
  }

  // ----- the fields of the records -----

  lemma Slice5(a: seq<byte>, b: seq<byte>, c: seq<byte>, d: seq<byte>, e: seq<byte>)
    ensures var x := a + b + c + d + e;
      && x[..|a|] == a
      && x[|a| + |b|..|a| + |b| + |c|] == c
      && x[|a| + |b| + |c|..|a| + |b| + |c| + |d|] == d
      && x[..|a| + |b|] == a + b && x[|a| + |b| + |c|..] == d + e
  {
  }

  lemma ValueFields(base: nat, off: nat, v: Val)
    requires ValOk(v) && base + off + VALUE_SIZE < ADDRESS_SPACE
    ensures var x := ValueRecord(base, off, v);
      && |x| == ValueLen(v) >= VALUE_SIZE + |v.text| && VALUE_SIZE == 16
      && Get(x[..4]) == |v.text| + VALID_BIT
      && Get(x[8..16]) == base + off + VALUE_SIZE
      && x[VALUE_SIZE..VALUE_SIZE + |v.text|] == v.text
  {
    WordLimits();
    var a, c := Put(|v.text| + VALID_BIT, 4), Put(base + off + VALUE_SIZE, 8);
    Slice5(a, v.pad, c, v.text, Zeros(ValueLen(v) - VALUE_SIZE - |v.text|));
    GetPut(|v.text| + VALID_BIT, 4);
    GetPut(base + off + VALUE_SIZE, 8);
  }

  lemma ValueRelocated(base: nat, off: nat, v: Val)
    requires ValOk(v)
    ensures var x := ValueRecord(0, off, v);
      ValueRecord(base, off, v) == x[..8] + Put(base + off + VALUE_SIZE, 8) + x[16..]
  {
    hide Put, Zeros;
    var a, z := Put(|v.text| + VALID_BIT, 4), Zeros(ValueLen(v) - VALUE_SIZE - |v.text|);
    Slice5(a, v.pad, Put(off + VALUE_SIZE, 8), v.text, z);
    Assoc(a + v.pad + Put(base + off + VALUE_SIZE, 8), v.text, z);
  }

  // ----- values -----

  /** Adds `base` to the pointer at `p`. */
  method Relocate(mem: array<byte>, p: nat, base: nat)
    requires p + 8 <= mem.Length
    modifies mem
    ensures mem[..] == old(mem[..p]) + Put(old(Get(mem[p..p + 8])) + base, 8) + old(mem[p + 8..])
  {
    var w := ReadWord(mem, p, 8);
    WriteWord(mem, p, 8, w + base);
  }

  /** Taking the first value off the remaining ones. */
  lemma ValuesStep(base: nat, off: nat, vs: seq<Val>, done: seq<byte>, rest: seq<byte>)
    requires vs != [] && ValsOk(vs)
    ensures var x := ValueRecord(base, off, vs[0]);
      var more := Values(base, off + ValueLen(vs[0]), vs[1..]);
      && Values(base, off, vs) == x + more
      && done + Values(base, off, vs) == done + x + more
      && done + Values(base, off, vs) + rest == done + x + (more + rest)
  {
    var x := ValueRecord(base, off, vs[0]);
    var more := Values(base, off + ValueLen(vs[0]), vs[1..]);
    Assoc(done, x, more);
    Assoc(done + x, more, rest);
  }

  lemma ValueFits(base: nat, off: nat, v: Val, a: seq<byte>, b: seq<byte>)
    requires ValOk(v) && |a| == off
    ensures var x := ValueRecord(0, off, v);
      off + VALUE_SIZE <= |a + x + b| && 16 <= |x| == ValueLen(v) && x[0..|x|] == x && x[0..4] == x[..4]
    ensures |Put(base + off + VALUE_SIZE, 8)| == 8
  {
  }

  /** The record length from the structure's first word, whose low 28 bits are the text length. */
  method ValueLenOf(head: nat, ghost v: Val) returns (len: nat)
    requires ValOk(v) && head == |v.text| + VALID_BIT
    ensures len == ValueLen(v)
  {
    len := Align8(VALUE_SIZE + head % VALID_BIT);
  }

  /** One turn of the value loop: the record at `pos` is summed as it was and then relocated. */
  method LoadValue(mem: array<byte>, base: nat, step: (nat, byte) -> nat, crc0: nat, pos: nat,
                   ghost a: seq<byte>, ghost v: Val, ghost b: seq<byte>) returns (next: nat, crc: nat)
    requires ValOk(v) && |a| == pos && mem[..] == a + ValueRecord(0, pos, v) + b
    requires base + mem.Length < ADDRESS_SPACE
    modifies mem
    ensures mem[..] == a + ValueRecord(base, pos, v) + b
    ensures next == pos + ValueLen(v) && crc == Fold(step, crc0, ValueRecord(0, pos, v))
  {
    hide *;
    ghost var x := ValueRecord(0, pos, v);
    ValueFits(base, pos, v, a, b);
    ValueFields(0, pos, v);
    ValueRelocated(base, pos, v);
    Inside(mem[..], a, x, b, 0, 4);
    Inside(mem[..], a, x, b, 8, 16);
    Inside(mem[..], a, x, b, 0, |x|);
    var head := ReadWord(mem, pos, 4);
    var len := ValueLenOf(head, v);
    crc := Update(step, crc0, mem, pos, len);
    Patch(a, x, b, 8, Put(base + pos + VALUE_SIZE, 8));
    Relocate(mem, pos + 8, base);
    next := pos + len;
  }

  /** What is left of the checksum: folding the rest onto `crc` gives the checksum of the whole. */
  lemma FoldStep(step: (nat, byte) -> nat, crc: nat, x: seq<byte>, more: seq<byte>)
    ensures Fold(step, Fold(step, crc, x), more) == Fold(step, crc, x + more)
  {
    FoldJoin(step, crc, x, more);
  }

  lemma {:induction false} GetZeros(n: nat)
    ensures Get(Zeros(n)) == 0
  {
    if n > 0 {
      assert Zeros(n)[1..] == Zeros(n - 1);
      GetZeros(n - 1);
    }
  }

  /** The word at the data pointer of the terminating structure, or of the next value. */
  lemma NextData(off: nat, vs: seq<Val>, b: seq<byte>)
    requires ValsOk(vs) && off + ValuesLen(vs) + VALUE_SIZE < ADDRESS_SPACE
    ensures var x := Values(0, off, vs) + (Zeros(VALUE_SIZE) + b);
      16 <= |x| && (Get(x[8..16]) == 0 <==> vs == [])
  {
    var x := Values(0, off, vs) + (Zeros(VALUE_SIZE) + b);
    if vs == [] {
      assert x[8..16] == Zeros(8);
      GetZeros(8);
    } else {
      ValueFields(0, off, vs[0]);
      var first := ValueRecord(0, off, vs[0]);
      ValuesStep(0, off, vs, [], Zeros(VALUE_SIZE) + b);
      assert x[8..16] == first[8..16];
    }
  }

  /** The value loop at `pos`: `done` is relocated, the values `rest` are still as in the file. */
  ghost predicate AtValue(m: seq<byte>, base: nat, a: seq<byte>, vs: seq<Val>, b: seq<byte>,
                          done: seq<byte>, rest: seq<Val>, pos: nat) {
    && |done| == pos && ValsOk(vs) && ValsOk(rest)
    && pos + ValuesLen(rest) == |a| + ValuesLen(vs)
    && m == done + Values(0, pos, rest) + (Zeros(VALUE_SIZE) + b)
    && done + Values(base, pos, rest) == a + Values(base, |a|, vs)
  }

  /** The data pointer the loop tests is in memory, and NULL exactly at the end. */
  lemma TestsData(m: seq<byte>, base: nat, a: seq<byte>, vs: seq<Val>, b: seq<byte>,
                  done: seq<byte>, rest: seq<Val>, pos: nat)
    requires AtValue(m, base, a, vs, b, done, rest, pos) && |m| < ADDRESS_SPACE
    ensures ValsOk(rest) && |done| == pos
    ensures pos + 16 <= |m| && (Get(m[pos + 8..pos + 16]) == 0 <==> rest == [])
  {
    hide Values, ValuesLen, Get, Zeros;
    var x := Values(0, pos, rest) + (Zeros(VALUE_SIZE) + b);
    Assoc(done, Values(0, pos, rest), Zeros(VALUE_SIZE) + b);
    NextData(pos, rest, b);
    assert done + x + [] == m;
    Inside(m, done, x, [], 8, 16);
  }

  /** What one turn finds and what it leaves. */
  lemma ValueTurn(m: seq<byte>, base: nat, a: seq<byte>, vs: seq<Val>, b: seq<byte>,
                  done: seq<byte>, rest: seq<Val>, pos: nat, step: (nat, byte) -> nat, crc: nat)
    requires AtValue(m, base, a, vs, b, done, rest, pos) && rest != []
    ensures ValsOk(rest[1..])
    ensures var v, next := rest[0], pos + ValueLen(rest[0]);
      var tail := Values(0, next, rest[1..]) + (Zeros(VALUE_SIZE) + b);
      var x := ValueRecord(base, pos, v);
      && ValOk(v) && m == done + ValueRecord(0, pos, v) + tail
      && AtValue(done + x + tail, base, a, vs, b, done + x, rest[1..], next)
      && Fold(step, Fold(step, crc, ValueRecord(0, pos, v)), Values(0, next, rest[1..])) ==
         Fold(step, crc, Values(0, pos, rest))
  {
    var v, next := rest[0], pos + ValueLen(rest[0]);
    var more, z := Values(0, next, rest[1..]), Zeros(VALUE_SIZE) + b;
    ValuesStep(0, pos, rest, done, z);
    ValuesStep(base, pos, rest, done, z);
    FoldStep(step, crc, ValueRecord(0, pos, v), more);
    hide ValueRecord, Values, Fold, Zeros;
    Assoc(done + ValueRecord(base, pos, v), more, z);
  }

  lemma ValuesBegin(m: seq<byte>, base: nat, a: seq<byte>, vs: seq<Val>, b: seq<byte>)
    requires |a| == HEADER_SIZE && ValsOk(vs)
    requires m == a + Values(0, HEADER_SIZE, vs) + (Zeros(VALUE_SIZE) + b)
    ensures AtValue(m, base, a, vs, b, a, vs, HEADER_SIZE)
  {
  }

  lemma ValuesEnd(m: seq<byte>, base: nat, a: seq<byte>, vs: seq<Val>, b: seq<byte>,
                  done: seq<byte>, pos: nat, step: (nat, byte) -> nat, crc: nat)
    requires AtValue(m, base, a, vs, b, done, [], pos)
    ensures pos == |a| + ValuesLen(vs) && pos + VALUE_SIZE <= |m| && |Zeros(VALUE_SIZE)| == VALUE_SIZE
    ensures done == a + Values(base, |a|, vs)
    ensures m == done + (Zeros(VALUE_SIZE) + b) == done + Zeros(VALUE_SIZE) + b
    ensures Zeros(VALUE_SIZE)[0..VALUE_SIZE] == Zeros(VALUE_SIZE)
    ensures Values(0, pos, []) == [] && Fold(step, crc, []) == crc
  {
    assert done + [] == done;
    Assoc(done, Zeros(VALUE_SIZE), b);
  }

  /** The value loop, up to and including the terminating structure. */
  method LoadValues(mem: array<byte>, base: nat, step: (nat, byte) -> nat, crc0: nat,
                    ghost a: seq<byte>, ghost vs: seq<Val>, ghost b: seq<byte>) returns (pos: nat, crc: nat)
    requires |a| == HEADER_SIZE && ValsOk(vs) && base + mem.Length < ADDRESS_SPACE
    requires mem[..] == a + Values(0, HEADER_SIZE, vs) + (Zeros(VALUE_SIZE) + b)
    modifies mem
    ensures mem[..] == a + Values(base, HEADER_SIZE, vs) + (Zeros(VALUE_SIZE) + b)
    ensures pos == HEADER_SIZE + ValuesLen(vs) + VALUE_SIZE
    ensures crc == Fold(step, crc0, Values(0, HEADER_SIZE, vs) + Zeros(VALUE_SIZE))
  {
    hide *;
    pos, crc := HEADER_SIZE, crc0;
    ghost var done, rest := a, vs;
    ValuesBegin(mem[..], base, a, vs, b);
    TestsData(mem[..], base, a, vs, b, done, rest, pos);
    var data := ReadWord(mem, pos + 8, 8);
    while data != 0
      invariant AtValue(mem[..], base, a, vs, b, done, rest, pos) && (data == 0 <==> rest == [])
      invariant ValsOk(rest) && |done| == pos
      invariant Fold(step, crc, Values(0, pos, rest)) == Fold(step, crc0, Values(0, HEADER_SIZE, vs))
      decreases |rest|
    {
      ValueTurn(mem[..], base, a, vs, b, done, rest, pos, step, crc);
      ghost var x := ValueRecord(base, pos, rest[0]);
      ghost var tail := Values(0, pos + ValueLen(rest[0]), rest[1..]) + (Zeros(VALUE_SIZE) + b);
      pos, crc := LoadValue(mem, base, step, crc, pos, done, rest[0], tail);
      done, rest := done + x, rest[1..];
      TestsData(mem[..], base, a, vs, b, done, rest, pos);
      data := ReadWord(mem, pos + 8, 8);
    }
    ValuesEnd(mem[..], base, a, vs, b, done, pos, step, crc);
    Inside(mem[..], done, Zeros(VALUE_SIZE), b, 0, VALUE_SIZE);
    crc := Update(step, crc, mem, pos, VALUE_SIZE);
    FoldStep(step, crc0, Values(0, HEADER_SIZE, vs), Zeros(VALUE_SIZE));
    pos := pos + VALUE_SIZE;
  }

  // ----- the pointer table -----

  lemma PointersStep(base: nat, off: nat, bs: seq<seq<Range>>, done: seq<byte>, tail: seq<byte>)
    requires bs != []
    ensures var x := Put(if bs[0] == [] then 0 else base + off, 8);
      var more := Pointers(base, off + ListLen(bs[0]), bs[1..]);
      && Pointers(base, off, bs) == x + more
      && done + Pointers(base, off, bs) == done + x + more
      && done + Pointers(base, off, bs) + tail == done + x + (more + tail)
      && done + x + more + tail == done + x + (more + tail)
  {
    var x := Put(if bs[0] == [] then 0 else base + off, 8);
    var more := Pointers(base, off + ListLen(bs[0]), bs[1..]);
    Assoc(done, x, more);
    Assoc(done + x, more, tail);
  }

  lemma PointerWord(p: nat, q: nat)
    requires p < ADDRESS_SPACE
    ensures var x := Put(p, 8);
      |x| == 8 && x[0..8] == x && Get(x) == p && x[..0] + Put(q, 8) + x[8..] == Put(q, 8) && |Put(q, 8)| == 8
  {
    WordLimits();
    GetPut(p, 8);
    hide *;
    var x, w := Put(p, 8), Put(q, 8);
    assert x[..0] == [] && x[8..] == [] && [] + w == w && w + [] == w;
  }

  /** One pointer: summed as it was, and relocated unless it is NULL. */
  method LoadPointer(mem: array<byte>, base: nat, step: (nat, byte) -> nat, crc0: nat, pos: nat,
                     ghost a: seq<byte>, ghost p: nat, ghost b: seq<byte>) returns (crc: nat)
    requires |a| == pos && mem[..] == a + Put(p, 8) + b && p < ADDRESS_SPACE
    modifies mem
    ensures mem[..] == a + Put(if p == 0 then 0 else p + base, 8) + b
    ensures crc == Fold(step, crc0, Put(p, 8))
  {
    hide *;
    ghost var x := Put(p, 8);
    PointerWord(p, p + base);
    Inside(mem[..], a, x, b, 0, 8);
    crc := Update(step, crc0, mem, pos, 8);
    var w := ReadWord(mem, pos, 8);
    if w != 0 {
      Patch(a, x, b, 0, Put(p + base, 8));
      Relocate(mem, pos, base);
    }
  }

  /** The pointer loop at `pos`: `done` is relocated, the pointers of the buckets `rest` are still as in the file. */
  ghost predicate AtPointer(m: seq<byte>, base: nat, a: seq<byte>, off0: nat, bs: seq<seq<Range>>, b: seq<byte>,
                            done: seq<byte>, off: nat, rest: seq<seq<Range>>) {
    && 0 < off && off + ListsLen(rest) == off0 + ListsLen(bs) < ADDRESS_SPACE
    && m == done + Pointers(0, off, rest) + b
    && done + Pointers(base, off, rest) == a + Pointers(base, off0, bs)
  }

  /** What one turn of the pointer loop finds and what it leaves. */
  lemma PointerTurn(m: seq<byte>, base: nat, a: seq<byte>, off0: nat, bs: seq<seq<Range>>, b: seq<byte>,
                    done: seq<byte>, off: nat, rest: seq<seq<Range>>, step: (nat, byte) -> nat, crc: nat)
    requires AtPointer(m, base, a, off0, bs, b, done, off, rest) && rest != []
    ensures var p, next := if rest[0] == [] then 0 else off, off + ListLen(rest[0]);
      var tail := Pointers(0, next, rest[1..]) + b;
      var x := Put(if p == 0 then 0 else p + base, 8);
      && p < ADDRESS_SPACE && |x| == 8
      && m == done + Put(p, 8) + tail
      && AtPointer(done + x + tail, base, a, off0, bs, b, done + x, next, rest[1..])
      && Fold(step, Fold(step, crc, Put(p, 8)), Pointers(0, next, rest[1..])) == Fold(step, crc, Pointers(0, off, rest))
  {
    assert ListsLen(rest) == ListLen(rest[0]) + ListsLen(rest[1..]);
    hide Put, Pointers, Fold, ListsLen, ListLen;
    var p, next := if rest[0] == [] then 0 else off, off + ListLen(rest[0]);
    PointersStep(0, off, rest, done, b);
    PointersStep(base, off, rest, done, b);
    FoldStep(step, crc, Put(p, 8), Pointers(0, next, rest[1..]));
    var x := Put(if p == 0 then 0 else p + base, 8);
    Assoc(done + x, Pointers(0, next, rest[1..]), b);
  }

  lemma PointersBegin(m: seq<byte>, base: nat, a: seq<byte>, off0: nat, bs: seq<seq<Range>>, b: seq<byte>)
    requires 0 < off0 && off0 + ListsLen(bs) < ADDRESS_SPACE && m == a + Pointers(0, off0, bs) + b
    ensures AtPointer(m, base, a, off0, bs, b, a, off0, bs)
  {
  }

  lemma PointersEnd(m: seq<byte>, base: nat, a: seq<byte>, off0: nat, bs: seq<seq<Range>>, b: seq<byte>,
                    done: seq<byte>, off: nat, rest: seq<seq<Range>>, step: (nat, byte) -> nat, crc: nat)
    requires AtPointer(m, base, a, off0, bs, b, done, off, rest) && rest == []
    ensures m == a + Pointers(base, off0, bs) + b && Fold(step, crc, Pointers(0, off, rest)) == crc
  {
    assert done + [] == done;
  }

  method LoadPointers(mem: array<byte>, base: nat, step: (nat, byte) -> nat, crc0: nat, pos0: nat, n: nat,
                      ghost a: seq<byte>, ghost off0: nat, ghost bs: seq<seq<Range>>, ghost b: seq<byte>)
    returns (pos: nat, crc: nat)
    requires |a| == pos0 && |bs| == n && 0 < off0 && off0 + ListsLen(bs) < ADDRESS_SPACE
    requires mem[..] == a + Pointers(0, off0, bs) + b
    modifies mem
    ensures mem[..] == a + Pointers(base, off0, bs) + b
    ensures pos == pos0 + 8 * n && crc == Fold(step, crc0, Pointers(0, off0, bs))
  {
    hide *;
    pos, crc := pos0, crc0;
    ghost var done, rest, off: nat := a, bs, off0;
    PointersBegin(mem[..], base, a, off0, bs, b);
    for i := 0 to n
      invariant |rest| == n - i && |done| == pos == pos0 + 8 * i
      invariant AtPointer(mem[..], base, a, off0, bs, b, done, off, rest)
      invariant Fold(step, crc, Pointers(0, off, rest)) == Fold(step, crc0, Pointers(0, off0, bs))
    {
      PointerTurn(mem[..], base, a, off0, bs, b, done, off, rest, step, crc);
      ghost var p, next := if rest[0] == [] then 0 else off, off + ListLen(rest[0]);
      crc := LoadPointer(mem, base, step, crc, pos, done, p, Pointers(0, next, rest[1..]) + b);
      done := done + Put(if p == 0 then 0 else p + base, 8);
      off, rest := next, rest[1..];
      pos := pos + 8;
    }
    PointersEnd(mem[..], base, a, off0, bs, b, done, off, rest, step, crc);
  }

  // ----- the range lists -----

  lemma RangeFields(base: nat, voff: nat, r: Range)
    requires base + voff < ADDRESS_SPACE && r.start < 0x10000 && r.end < 0x10000
    ensures var x := RangeRecord(base, voff, r);
      Get(x[0..8]) == base + voff && Get(x[8..10]) == r.start && Get(x[10..12]) == r.end
  {
    WordLimits();
    var a, c, d := Put(base + voff, 8), Put(r.start, 2), Put(r.end, 2);
    var x := RangeRecord(base, voff, r);
    assert x[0..8] == a && x[8..10] == c && x[10..12] == d;
    GetPut(base + voff, 8);
    GetPut(r.start, 2);
    GetPut(r.end, 2);
  }

  lemma RangeRelocated(base: nat, voff: nat, r: Range)
    ensures var x := RangeRecord(0, voff, r);
      RangeRecord(base, voff, r) == x[..0] + Put(base + voff, 8) + x[8..]
  {
    hide Put, Zeros;
    var w := Put(r.start, 2) + Put(r.end, 2) + Zeros(4);
    assert RangeRecord(0, voff, r)[8..] == w;
    assert RangeRecord(base, voff, r) == Put(base + voff, 8) + w;
  }

  ghost predicate RangesOk(rs: seq<Range>, vs: seq<Val>) {
    forall i :: 0 <= i < |rs| ==> rs[i].start <= rs[i].end <= 0xffff && HasText(vs, rs[i].value)
  }

  lemma {:induction false} OffsetInside(off: nat, vs: seq<Val>, s: Value)
    ensures off <= OffsetOf(off, vs, s) <= off + ValuesLen(vs)
    decreases |vs|
  {
    if vs != [] && vs[0].text != s { OffsetInside(off + ValueLen(vs[0]), vs[1..], s); }
  }

  lemma ListStep(base: nat, vs: seq<Val>, rs: seq<Range>, done: seq<byte>, tail: seq<byte>)
    requires rs != []
    ensures var x := RangeRecord(base, OffsetOf(HEADER_SIZE, vs, rs[0].value), rs[0]);
      var more := ListRecord(base, vs, rs[1..]);
      && ListRecord(base, vs, rs) == x + more
      && done + ListRecord(base, vs, rs) == done + x + more
      && done + ListRecord(base, vs, rs) + tail == done + x + (more + tail)
      && done + x + more + tail == done + x + (more + tail)
  {
    var x := RangeRecord(base, OffsetOf(HEADER_SIZE, vs, rs[0].value), rs[0]);
    var more := ListRecord(base, vs, rs[1..]);
    Assoc(done, x, more);
    Assoc(done + x, more, tail);
  }

  /** The value pointer the inner loop tests is NULL exactly at the end of the list. */
  lemma TestsValue(m: seq<byte>, vs: seq<Val>, rs: seq<Range>, done: seq<byte>, b: seq<byte>)
    requires m == done + ListRecord(0, vs, rs) + b && RangesOk(rs, vs)
    requires HEADER_SIZE + ValuesLen(vs) < ADDRESS_SPACE
    ensures |done| + 8 <= |m| && (Get(m[|done|..|done| + 8]) == 0 <==> rs == [])
  {
    var x := ListRecord(0, vs, rs);
    if rs == [] {
      assert x[0..8] == Put(0, 8);
      WordLimits();
      GetPut(0, 8);
    } else {
      var voff := OffsetOf(HEADER_SIZE, vs, rs[0].value);
      OffsetInside(HEADER_SIZE, vs, rs[0].value);
      RangeFields(0, voff, rs[0]);
      assert x[0..8] == RangeRecord(0, voff, rs[0])[0..8];
    }
    hide *;
    Inside(m, done, x, b, 0, 8);
  }

  lemma RangeWhole(base: nat, voff: nat, r: Range)
    ensures var x := RangeRecord(0, voff, r); |x| == 16 && x[0..16] == x && |Put(base + voff, 8)| == 8
  {
  }

  method LoadRange(mem: array<byte>, base: nat, step: (nat, byte) -> nat, crc0: nat, pos: nat,
                   ghost a: seq<byte>, ghost voff: nat, ghost r: Range, ghost b: seq<byte>) returns (crc: nat)
    requires |a| == pos && mem[..] == a + RangeRecord(0, voff, r) + b && voff < ADDRESS_SPACE
    requires r.start < 0x10000 && r.end < 0x10000
    modifies mem
    ensures mem[..] == a + RangeRecord(base, voff, r) + b
    ensures crc == Fold(step, crc0, RangeRecord(0, voff, r))
  {
    hide *;
    ghost var x := RangeRecord(0, voff, r);
    RangeWhole(base, voff, r);
    RangeFields(0, voff, r);
    RangeRelocated(base, voff, r);
    Inside(mem[..], a, x, b, 0, 16);
    Inside(mem[..], a, x, b, 0, 8);
    Slices(mem, pos, pos + 16);
    Slices(mem, pos, pos + 8);
    Slices(mem, pos + 8, pos + 8);
    crc := Update(step, crc0, mem, pos, 16);
    Patch(a, x, b, 0, Put(base + voff, 8));
    Relocate(mem, pos, base);
  }

  /** The inner loop at `pos`: `done` is relocated, the ranges `rest` are still as in the file. */
  ghost predicate AtRange(m: seq<byte>, base: nat, a: seq<byte>, vs: seq<Val>, rs: seq<Range>, b: seq<byte>,
                          done: seq<byte>, rest: seq<Range>) {
    && RangesOk(rest, vs) && HEADER_SIZE + ValuesLen(vs) < ADDRESS_SPACE
    && m == done + ListRecord(0, vs, rest) + b
    && done + ListRecord(base, vs, rest) == a + ListRecord(base, vs, rs)
  }

  lemma AtRangeTests(m: seq<byte>, base: nat, a: seq<byte>, vs: seq<Val>, rs: seq<Range>, b: seq<byte>,
                     done: seq<byte>, rest: seq<Range>)
    requires AtRange(m, base, a, vs, rs, b, done, rest)
    ensures |done| + 8 <= |m| && (Get(m[|done|..|done| + 8]) == 0 <==> rest == [])
  {
    hide ListRecord, Get, ValuesLen;
    TestsValue(m, vs, rest, done, b);
  }

  /** What one turn of the inner loop finds and what it leaves. */
  lemma RangeTurn(m: seq<byte>, base: nat, a: seq<byte>, vs: seq<Val>, rs: seq<Range>, b: seq<byte>,
                  done: seq<byte>, rest: seq<Range>, step: (nat, byte) -> nat, crc: nat)
    requires AtRange(m, base, a, vs, rs, b, done, rest) && rest != []
    ensures var r, voff := rest[0], OffsetOf(HEADER_SIZE, vs, rest[0].value);
      var tail := ListRecord(0, vs, rest[1..]) + b;
      var x := RangeRecord(base, voff, r);
      && voff < ADDRESS_SPACE && r.start < 0x10000 && r.end < 0x10000 && |x| == 16
      && m == done + RangeRecord(0, voff, r) + tail
      && AtRange(done + x + tail, base, a, vs, rs, b, done + x, rest[1..])
      && Fold(step, Fold(step, crc, RangeRecord(0, voff, r)), ListRecord(0, vs, rest[1..])) ==
         Fold(step, crc, ListRecord(0, vs, rest))
  {
    var r, voff := rest[0], OffsetOf(HEADER_SIZE, vs, rest[0].value);
    OffsetInside(HEADER_SIZE, vs, r.value);
    ListStep(0, vs, rest, done, b);
    ListStep(base, vs, rest, done, b);
    FoldStep(step, crc, RangeRecord(0, voff, r), ListRecord(0, vs, rest[1..]));
    hide ListRecord, RangeRecord, OffsetOf, ValuesLen, Fold;
    Assoc(done + RangeRecord(base, voff, r), ListRecord(0, vs, rest[1..]), b);
  }

  lemma RangesBegin(m: seq<byte>, base: nat, a: seq<byte>, vs: seq<Val>, rs: seq<Range>, b: seq<byte>)
    requires RangesOk(rs, vs) && HEADER_SIZE + ValuesLen(vs) < ADDRESS_SPACE
    requires m == a + ListRecord(0, vs, rs) + b
    ensures AtRange(m, base, a, vs, rs, b, a, rs)
  {
  }

  lemma RangesEnd(m: seq<byte>, base: nat, a: seq<byte>, vs: seq<Val>, rs: seq<Range>, b: seq<byte>,
                  done: seq<byte>, rest: seq<Range>)
    requires AtRange(m, base, a, vs, rs, b, done, rest) && rest == []
    ensures m == a + ListRecord(base, vs, rs) + b == done + Put(0, 8) + b
    ensures ListRecord(0, vs, rest) == Put(0, 8) && |Put(0, 8)| == 8 && Put(0, 8)[0..8] == Put(0, 8)
  {
  }

  /** The inner loop and the terminating NULL of one list. */
  method LoadList(mem: array<byte>, base: nat, step: (nat, byte) -> nat, crc0: nat, pos0: nat,
                  ghost a: seq<byte>, ghost vs: seq<Val>, ghost rs: seq<Range>, ghost b: seq<byte>)
    returns (pos: nat, crc: nat)
    requires |a| == pos0 && mem[..] == a + ListRecord(0, vs, rs) + b && RangesOk(rs, vs)
    requires HEADER_SIZE + ValuesLen(vs) < ADDRESS_SPACE
    modifies mem
    ensures mem[..] == a + ListRecord(base, vs, rs) + b
    ensures pos == pos0 + 16 * |rs| + 8
    ensures crc == Fold(step, crc0, ListRecord(0, vs, rs))
  {
    hide *;
    pos, crc := pos0, crc0;
    ghost var done, rest := a, rs;
    RangesBegin(mem[..], base, a, vs, rs, b);
    AtRangeTests(mem[..], base, a, vs, rs, b, done, rest);
    var value := ReadWord(mem, pos, 8);
    while value != 0
      invariant |done| == pos && pos + 16 * |rest| == pos0 + 16 * |rs| && (value == 0 <==> rest == [])
      invariant AtRange(mem[..], base, a, vs, rs, b, done, rest)
      invariant Fold(step, crc, ListRecord(0, vs, rest)) == Fold(step, crc0, ListRecord(0, vs, rs))
      decreases |rest|
    {
      RangeTurn(mem[..], base, a, vs, rs, b, done, rest, step, crc);
      ghost var voff := OffsetOf(HEADER_SIZE, vs, rest[0].value);
      crc := LoadRange(mem, base, step, crc, pos, done, voff, rest[0], ListRecord(0, vs, rest[1..]) + b);
      done, rest := done + RangeRecord(base, voff, rest[0]), rest[1..];
      pos := pos + 16;
      AtRangeTests(mem[..], base, a, vs, rs, b, done, rest);
      value := ReadWord(mem, pos, 8);
    }
    RangesEnd(mem[..], base, a, vs, rs, b, done, rest);
    Inside(mem[..], done, Put(0, 8), b, 0, 8);
    crc := Update(step, crc, mem, pos, 8);
    pos := pos + 8;
  }

  // ----- all lists -----

  /** The buckets from the first that has a list on. */
  function Skip(bs: seq<seq<Range>>): seq<seq<Range>> {
    if bs != [] && bs[0] == [] then Skip(bs[1..]) else bs
  }

  lemma {:induction false} SkipSame(base: nat, vs: seq<Val>, bs: seq<seq<Range>>)
    ensures Lists(base, vs, bs) == Lists(base, vs, Skip(bs)) && ListsLen(bs) == ListsLen(Skip(bs))
    ensures Skip(bs) != [] ==> Skip(bs)[0] != []
    ensures |Skip(bs)| <= |bs|
    ensures (forall i :: 0 <= i < |bs| ==> RangesOk(bs[i], vs)) ==>
      forall i :: 0 <= i < |Skip(bs)| ==> RangesOk(Skip(bs)[i], vs)
  {
    if bs != [] && bs[0] == [] {
      SkipSame(base, vs, bs[1..]);
      assert [] + Lists(base, vs, bs[1..]) == Lists(base, vs, bs[1..]);
    }
  }

  ghost predicate ListsOk(bs: seq<seq<Range>>, vs: seq<Val>) {
    && HEADER_SIZE + ValuesLen(vs) < ADDRESS_SPACE
    && forall i :: 0 <= i < |bs| ==> RangesOk(bs[i], vs)
  }

  /** The outer loop at `pos`: `done` is relocated, the lists of the buckets `rest` are still as in the file. */
  ghost predicate AtList(m: seq<byte>, base: nat, a: seq<byte>, vs: seq<Val>, bs: seq<seq<Range>>,
                         done: seq<byte>, rest: seq<seq<Range>>) {
    && ListsOk(rest, vs) && m == done + Lists(0, vs, rest)
    && done + Lists(base, vs, rest) == a + Lists(base, vs, bs)
  }

  /** What one turn of the outer loop finds and what it leaves. */
  lemma ListTurn(m: seq<byte>, base: nat, a: seq<byte>, vs: seq<Val>, bs: seq<seq<Range>>,
                 done: seq<byte>, rest: seq<seq<Range>>, step: (nat, byte) -> nat, crc: nat)
    requires AtList(m, base, a, vs, bs, done, rest) && |done| < |m|
    ensures var live := Skip(rest);
      && live != [] && |live| <= |rest| && RangesOk(live[0], vs) && HEADER_SIZE + ValuesLen(vs) < ADDRESS_SPACE
      && |ListRecord(base, vs, live[0])| == 16 * |live[0]| + 8
      && var tail, x := Lists(0, vs, live[1..]), ListRecord(base, vs, live[0]);
        && m == done + ListRecord(0, vs, live[0]) + tail
        && AtList(done + x + tail, base, a, vs, bs, done + x, live[1..])
        && Fold(step, Fold(step, crc, ListRecord(0, vs, live[0])), tail) == Fold(step, crc, Lists(0, vs, rest))
  {
    SkipSame(0, vs, rest);
    SkipSame(base, vs, rest);
    var live := Skip(rest);
    assert live != [] by { assert |Lists(0, vs, live)| > 0; }
    FoldStep(step, crc, ListRecord(0, vs, live[0]), Lists(0, vs, live[1..]));
    Assoc(done, ListRecord(0, vs, live[0]), Lists(0, vs, live[1..]));
    Assoc(done, ListRecord(base, vs, live[0]), Lists(base, vs, live[1..]));
  }

  lemma ListsBegin(m: seq<byte>, base: nat, a: seq<byte>, vs: seq<Val>, bs: seq<seq<Range>>)
    requires ListsOk(bs, vs) && m == a + Lists(0, vs, bs)
    ensures AtList(m, base, a, vs, bs, a, bs)
  {
  }

  lemma ListsEnd(m: seq<byte>, base: nat, a: seq<byte>, vs: seq<Val>, bs: seq<seq<Range>>,
                 done: seq<byte>, rest: seq<seq<Range>>, step: (nat, byte) -> nat, crc: nat)
    requires AtList(m, base, a, vs, bs, done, rest) && |done| == |m|
    ensures m == a + Lists(base, vs, bs) && Fold(step, crc, Lists(0, vs, rest)) == crc
  {
    assert |Lists(0, vs, rest)| == 0 && |Lists(base, vs, rest)| == 0;
    assert done + [] == done;
  }

  /** The outer loop; it ends exactly at the end of the file. */
  method LoadLists(mem: array<byte>, base: nat, step: (nat, byte) -> nat, crc0: nat, pos0: nat,
                   ghost a: seq<byte>, ghost vs: seq<Val>, ghost bs: seq<seq<Range>>)
    returns (pos: nat, crc: nat)
    requires |a| == pos0 && mem[..] == a + Lists(0, vs, bs) && ListsOk(bs, vs)
    modifies mem
    ensures mem[..] == a + Lists(base, vs, bs)
    ensures pos == mem.Length && crc == Fold(step, crc0, Lists(0, vs, bs))
  {
    hide *;
    pos, crc := pos0, crc0;
    ghost var done, rest := a, bs;
    ListsBegin(mem[..], base, a, vs, bs);
    while pos < mem.Length
      invariant |done| == pos <= mem.Length
      invariant AtList(mem[..], base, a, vs, bs, done, rest)
      invariant Fold(step, crc, Lists(0, vs, rest)) == Fold(step, crc0, Lists(0, vs, bs))
    {
      ListTurn(mem[..], base, a, vs, bs, done, rest, step, crc);
      ghost var live := Skip(rest);
      pos, crc := LoadList(mem, base, step, crc, pos, done, vs, live[0], Lists(0, vs, live[1..]));
      done, rest := done + ListRecord(base, vs, live[0]), live[1..];
    }
    ListsEnd(mem[..], base, a, vs, bs, done, rest, step, crc);
  }

  // ----- the whole file -----

  /** The header up to the checksum, as this build writes it and expects it: GEORNG, 0, 8, byte order. */
  const MAGIC: seq<byte> := [0x47, 0x45, 0x4f, 0x52, 0x4e, 0x47, 0, 8, 0x78, 0x56, 0x34, 0x12]

  datatype Checksum = Checksum(init: nat, step: (nat, byte) -> nat, final: nat -> nat)

  function Sum(c: Checksum, bytes: seq<byte>): nat { c.final(Fold(c.step, c.init, bytes)) }

  datatype Loaded = Incompatible | Mismatch | Using(pointers: nat)

  lemma BodyParts(h: seq<byte>, base: nat, vs: seq<Val>, bs: seq<seq<Range>>)
    requires |h| == HEADER_SIZE && ValsOk(vs)
    ensures var v, z, p, l := Values(base, HEADER_SIZE, vs), Zeros(VALUE_SIZE),
        Pointers(base, ListsStart(vs, |bs|), bs), Lists(base, vs, bs);
      && h + Body(base, vs, bs) == h + v + (z + (p + l))
      && h + v + (z + (p + l)) == (h + v + z) + p + l
      && (h + v + z) + p + l == ((h + v + z) + p) + l
      && |h + v + z| == HEADER_SIZE + ValuesLen(vs) + VALUE_SIZE
      && |h + v + z + p| == ListsStart(vs, |bs|)
      && Body(base, vs, bs) == v + z + p + l
  {
    var v, z, p, l := Values(base, HEADER_SIZE, vs), Zeros(VALUE_SIZE),
      Pointers(base, ListsStart(vs, |bs|), bs), Lists(base, vs, bs);
    Assoc(h, v + z + p, l);
    Assoc(h, v + z, p);
    Assoc(h, v, z);
    Assoc(h + v, z, p + l);
    Assoc(h + v + z, p, l);
  }

  lemma FoldBody(step: (nat, byte) -> nat, crc: nat, v: seq<byte>, z: seq<byte>, p: seq<byte>, l: seq<byte>)
    ensures Fold(step, Fold(step, Fold(step, crc, v + z), p), l) == Fold(step, crc, v + z + p + l)
  {
    FoldJoin(step, crc, v + z, p);
    FoldJoin(step, crc, v + z + p, l);
  }

  method SameBytes(mem: array<byte>, s: seq<byte>) returns (same: bool)
    requires |s| <= mem.Length
    ensures same <==> mem[..|s|] == s
  {
    for i := 0 to |s|
      invariant mem[..i] == s[..i]
    {
      if mem[i] != s[i] {
        assert mem[..|s|][i] != s[i];
        return false;
      }
    }
    same := true;
  }

  lemma HeaderBytes(h: seq<byte>, body: seq<byte>)
    requires |h| == HEADER_SIZE
    ensures |MAGIC| == 12 && 16 <= |h + body|
    ensures (h + body)[..12] == h[..12] && (h + body)[12..16] == h[12..16]
  {
  }

  lemma BodyMiddle(h: seq<byte>, v: seq<byte>, z: seq<byte>, p: seq<byte>, l: seq<byte>)
    ensures h + v + (z + (p + l)) == (h + v + z) + p + l
  {
  }

  /**
   * `include_binary_base` on the bytes of a file with any header and a body as the writer makes it:
   * the walk relocates every pointer and nothing else, ends at the end of the file, and the pieces
   * summed on the way are exactly the file's body.
   */
  method LoadBase(mem: array<byte>, base: nat, c: Checksum, buckets: nat,
                  ghost h: seq<byte>, ghost vs: seq<Val>, ghost bs: seq<seq<Range>>) returns (r: Loaded)
    requires |h| == HEADER_SIZE && ValsOk(vs) && |bs| == buckets && ListsOk(bs, vs)
    requires mem[..] == h + Body(0, vs, bs) && base + mem.Length < ADDRESS_SPACE
    modifies mem
    ensures r == Incompatible <==> h[..12] != MAGIC
    ensures r != Incompatible ==> mem[..] == h + Body(base, vs, bs)
    ensures h[..12] == MAGIC ==> (r.Using? <==> Sum(c, Body(0, vs, bs)) == Get(h[12..16]))
    ensures r.Using? ==> r.pointers == HEADER_SIZE + ValuesLen(vs) + VALUE_SIZE
  {
    BodyParts(h, 0, vs, bs);
    BodyParts(h, base, vs, bs);
    ghost var v0, z, p0, l0 := Values(0, HEADER_SIZE, vs), Zeros(VALUE_SIZE),
      Pointers(0, ListsStart(vs, |bs|), bs), Lists(0, vs, bs);
    ghost var v1, p1 := Values(base, HEADER_SIZE, vs), Pointers(base, ListsStart(vs, |bs|), bs);
    FoldBody(c.step, c.init, v0, z, p0, l0);
    HeaderBytes(h, Body(0, vs, bs));
    assert 0 < ListsStart(vs, |bs|) && ListsStart(vs, |bs|) + ListsLen(bs) < ADDRESS_SPACE;
    hide *;
    var same := SameBytes(mem, MAGIC);
    if !same { return Incompatible; }
    var sum := ReadWord(mem, 12, 4);
    var pos, crc := LoadValues(mem, base, c.step, c.init, h, vs, p0 + l0);
    var pointers := pos;
    BodyMiddle(h, v1, z, p0, l0);
    pos, crc := LoadPointers(mem, base, c.step, crc, pos, buckets, h + v1 + z, ListsStart(vs, |bs|), bs, l0);
    pos, crc := LoadLists(mem, base, c.step, crc, pos, h + v1 + z + p1, vs, bs);
    if c.final(crc) != sum { return Mismatch; }
    r := Using(pointers);
  }
}
