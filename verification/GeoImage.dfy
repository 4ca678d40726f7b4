/**
 * The binary geo base as a byte image: header, values, pointer table and range lists, with the
 * pointers stored relative to `base` (0 in the file, the load address in memory).
 */
module GeoImage {
  import opened Bytes
  import opened Words
  import opened GeoBuckets

  // ----- values -----

  /** A value's text, and the padding of its structure, whose content is unknown. */
  datatype Val = Val(text: Value, pad: seq<byte>)

  const VALUE_SIZE: nat := 16
  const VALID_BIT: nat := 0x1000_0000

  ghost predicate ValOk(v: Val) { |v.text| < VALID_BIT && |v.pad| == 4 }

  ghost predicate ValsOk(vs: seq<Val>) { forall i :: 0 <= i < |vs| ==> ValOk(vs[i]) }

  function ValueLen(v: Val): nat { Align8(VALUE_SIZE + |v.text|) }

  function ValueRecord(base: nat, off: nat, v: Val): (r: seq<byte>)
    ensures |v.pad| == 4 ==> |r| == ValueLen(v)
  {
    Put(|v.text| + VALID_BIT, 4) + v.pad + Put(base + off + VALUE_SIZE, 8)
    + v.text + Zeros(ValueLen(v) - VALUE_SIZE - |v.text|)
  }

  function ValuesLen(vs: seq<Val>): nat {
    if vs == [] then 0 else ValueLen(vs[0]) + ValuesLen(vs[1..])
  }

  function Values(base: nat, off: nat, vs: seq<Val>): (r: seq<byte>)
    requires ValsOk(vs)
    ensures |r| == ValuesLen(vs)
    decreases |vs|
  {
    if vs == [] then [] else ValueRecord(base, off, vs[0]) + Values(base, off + ValueLen(vs[0]), vs[1..])
  }

  ghost predicate HasText(vs: seq<Val>, s: Value) { exists i :: 0 <= i < |vs| && vs[i].text == s }

  /** Where the first value with text `s` is, if the values start at `off`. */
  function OffsetOf(off: nat, vs: seq<Val>, s: Value): nat
    decreases |vs|
  {
    if vs == [] || vs[0].text == s then off else OffsetOf(off + ValueLen(vs[0]), vs[1..], s)
  }

  // ----- range lists -----

  const RANGE_SIZE: nat := 16
  const ADDRESS_SIZE: nat := 8

  function RangeRecord(base: nat, voff: nat, r: Range): (b: seq<byte>)
    ensures |b| == RANGE_SIZE
  {
    Put(base + voff, 8) + Put(r.start, 2) + Put(r.end, 2) + Zeros(4)
  }

  const HEADER_SIZE: nat := 16

  function ListRecord(base: nat, vs: seq<Val>, rs: seq<Range>): (b: seq<byte>)
    ensures |b| == RANGE_SIZE * |rs| + ADDRESS_SIZE
  {
    if rs == [] then Put(0, 8)
    else RangeRecord(base, OffsetOf(HEADER_SIZE, vs, rs[0].value), rs[0]) + ListRecord(base, vs, rs[1..])
  }

  function ListLen(rs: seq<Range>): nat {
    if rs == [] then 0 else RANGE_SIZE * |rs| + ADDRESS_SIZE
  }

  function ListsLen(bs: seq<seq<Range>>): nat {
    if bs == [] then 0 else ListLen(bs[0]) + ListsLen(bs[1..])
  }

  /** The lists of the buckets that have one. */
  function Lists(base: nat, vs: seq<Val>, bs: seq<seq<Range>>): (r: seq<byte>)
    ensures |r| == ListsLen(bs)
  {
    if bs == [] then []
    else (if bs[0] == [] then [] else ListRecord(base, vs, bs[0])) + Lists(base, vs, bs[1..])
  }

  /** One pointer for each bucket, NULL for an empty one; the lists start at `off`. */
  function Pointers(base: nat, off: nat, bs: seq<seq<Range>>): (r: seq<byte>)
    ensures |r| == ADDRESS_SIZE * |bs|
    decreases |bs|
  {
    if bs == [] then []
    else Put(if bs[0] == [] then 0 else base + off, 8) + Pointers(base, off + ListLen(bs[0]), bs[1..])
  }

  // ----- the whole -----

  function ListsStart(vs: seq<Val>, n: nat): nat {
    HEADER_SIZE + ValuesLen(vs) + VALUE_SIZE + ADDRESS_SIZE * n
  }

  /** Everything after the header. */
  function Body(base: nat, vs: seq<Val>, bs: seq<seq<Range>>): (r: seq<byte>)
    requires ValsOk(vs)
    ensures |r| == ListsStart(vs, |bs|) - HEADER_SIZE + ListsLen(bs)
  {
    Values(base, HEADER_SIZE, vs) + Zeros(VALUE_SIZE) + Pointers(base, ListsStart(vs, |bs|), bs)
    + Lists(base, vs, bs)
  }

  /** The size the configuration accumulates while it reads values and closes buckets. */
  function DataSize(vs: seq<Val>, bs: seq<seq<Range>>): nat {
    HEADER_SIZE + VALUE_SIZE + ADDRESS_SIZE * |bs| + ValuesLen(vs) + ListsLen(bs)
  }

  /** The accumulated size is the length of the image. */
  lemma SizeExact(header: seq<byte>, base: nat, vs: seq<Val>, bs: seq<seq<Range>>)
    requires |header| == HEADER_SIZE && ValsOk(vs)
    ensures |header + Body(base, vs, bs)| == DataSize(vs, bs)
  {
  }

  // ----- joining values -----

  lemma {:induction false} ValuesJoin(base: nat, off: nat, vs: seq<Val>, ws: seq<Val>)
    requires ValsOk(vs) && ValsOk(ws)
    ensures ValuesLen(vs + ws) == ValuesLen(vs) + ValuesLen(ws)
    ensures ValsOk(vs + ws)
    ensures Values(base, off, vs + ws) == Values(base, off, vs) + Values(base, off + ValuesLen(vs), ws)
    decreases |vs|
  {
    hide ValueRecord, ValueLen, ValOk;
    if vs == [] {
      assert vs + ws == ws;
      assert [] + Values(base, off, ws) == Values(base, off, ws);
    } else {
      assert (vs + ws)[1..] == vs[1..] + ws && (vs + ws)[0] == vs[0];
      ValuesJoin(base, off + ValueLen(vs[0]), vs[1..], ws);
      Assoc(ValueRecord(base, off, vs[0]), Values(base, off + ValueLen(vs[0]), vs[1..]),
            Values(base, off + ValuesLen(vs), ws));
    }
  }
}
