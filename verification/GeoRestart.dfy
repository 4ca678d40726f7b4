/** From a range table to a binary base on disk, and back into memory at the next start. */
module GeoRestart {
  import opened Bytes
  import opened Words
  import opened GeoBuckets
  import opened Geo
  import opened GeoConfig
  import opened GeoImage
  import opened GeoLoader
  import opened GeoWriter
  import opened GeoReader
  import opened Options

  /** The tree holds exactly the values met. */
  ghost predicate Holds(t: Tree, vs: seq<Val>) { multiset(Preorder(t)) == multiset(vs) }

  lemma SameTexts(t: Tree, vs: seq<Val>)
    requires Holds(t, vs)
    ensures multiset(Preorder(t)) == multiset(vs)
  {
  }

  lemma Member(vs: seq<Val>, ws: seq<Val>, i: nat) returns (k: nat)
    requires multiset(vs) == multiset(ws) && i < |vs|
    ensures k < |ws| && ws[k] == vs[i]
  {
    assert vs[i] in multiset(vs);
    assert vs[i] in ws;
    k :| 0 <= k < |ws| && ws[k] == vs[i];
  }

  lemma Once(vs: seq<Val>, i: nat, j: nat)
    requires Distinct(vs) && i < |vs| && j < |vs| && vs[i].text == vs[j].text
    ensures i == j
  {
  }

  lemma {:induction false} AtMostOnce(vs: seq<Val>, v: Val)
    requires Distinct(vs)
    ensures multiset(vs)[v] <= 1
  {
    if vs != [] {
      assert vs == [vs[0]] + vs[1..];
      assert forall i :: 0 <= i < |vs[1..]| ==> vs[1..][i] == vs[i + 1];
      AtMostOnce(vs[1..], v);
      assert vs[0] == v ==> v !in vs[1..];
    }
  }

  lemma Twice(vs: seq<Val>, i: nat, j: nat)
    requires i < j < |vs| && vs[i] == vs[j]
    ensures multiset(vs)[vs[i]] >= 2
  {
    assert vs == vs[..i] + [vs[i]] + vs[i + 1..];
    assert vs[i + 1..][j - i - 1] == vs[j];
    assert vs[j] in multiset(vs[i + 1..]);
  }

  /** Reordering keeps the values distinct: a text met twice would be met twice before. */
  lemma StillDistinct(vs: seq<Val>, ws: seq<Val>)
    requires multiset(vs) == multiset(ws) && Distinct(vs)
    ensures Distinct(ws)
  {
    forall i, j | 0 <= i < j < |ws| ensures ws[i].text != ws[j].text {
      if ws[i].text == ws[j].text {
        var k := Member(ws, vs, i);
        var l := Member(ws, vs, j);
        Once(vs, k, l);
        Twice(ws, i, j);
        AtMostOnce(vs, ws[i]);
        assert false;
      }
    }
  }

  lemma StillOk(vs: seq<Val>, ws: seq<Val>)
    requires multiset(vs) == multiset(ws) && ValsOk(vs)
    ensures ValsOk(ws)
  {
    forall i | 0 <= i < |ws| ensures ValOk(ws[i]) {
      var k := Member(ws, vs, i);
    }
  }

  lemma StillThere(vs: seq<Val>, ws: seq<Val>, s: Value)
    requires multiset(vs) == multiset(ws) && HasText(vs, s)
    ensures HasText(ws, s)
  {
    var i :| 0 <= i < |vs| && vs[i].text == s;
    var k := Member(vs, ws, i);
  }

  lemma FrozenOk(t: Table, low: seq<seq<Range>>, vs: seq<Val>, ws: seq<Val>)
    requires TableOk(t) && Met(t, vs) && multiset(vs) == multiset(ws) && |low| == |t|
    requires forall i :: 0 <= i < |t| ==> low[i] == Ranges(t[i])
    requires HEADER_SIZE + ValuesLen(ws) < ADDRESS_SPACE
    ensures ListsOk(low, ws)
  {
    forall h | 0 <= h < |low| ensures RangesOk(low[h], ws) {
      forall i | 0 <= i < |low[h]|
        ensures low[h][i].start <= low[h][i].end <= 0xffff && HasText(ws, low[h][i].value)
      {
        assert HasText(vs, Ranges(t[h])[i].value);
        StillThere(vs, ws, low[h][i].value);
      }
    }
  }

  /** The table as frozen: one list for each bucket, empty where there are no ranges. */
  function Frozen(high: Table): seq<seq<Range>> {
    seq(|high|, i requires 0 <= i < |high| => Ranges(high[i]))
  }

  lemma FrozenIs(high: Table, low: seq<seq<Range>>)
    requires |low| == |high|
    requires forall i :: 0 <= i < |high| ==> low[i] == if high[i].Some? then high[i].value else []
    ensures low == Frozen(high) && forall i :: 0 <= i < |high| ==> low[i] == Ranges(high[i])
  {
    forall i | 0 <= i < |high| ensures low[i] == Frozen(high)[i] {}
  }

  lemma Sizes(vs: seq<Val>, ws: seq<Val>, low: seq<seq<Range>>)
    requires multiset(ws) == multiset(vs)
    ensures DataSize(vs, low) == DataSize(ws, low) && HEADER_SIZE + ValuesLen(ws) <= DataSize(ws, low)
  {
    AnyOrder(ws, vs);
  }

  lemma Ready(ctx: Context, high: Table, low: seq<seq<Range>>, vs: seq<Val>)
    requires ctx.Valid(low) && TableOk(high) && Met(high, ctx.values) && multiset(vs) == multiset(ctx.values)
    requires |low| == |high| == 0x10000
    requires forall i :: 0 <= i < |high| ==> low[i] == if high[i].Some? then high[i].value else []
    requires DataSize(ctx.values, Frozen(high)) < ADDRESS_SPACE
    ensures low == Frozen(high) && ValsOk(vs) && Distinct(vs) && ListsOk(low, vs)
    ensures ctx.dataSize == DataSize(ctx.values, low) == DataSize(vs, low)
  {
    FrozenIs(high, low);
    Sizes(ctx.values, vs, low);
    StillOk(ctx.values, vs);
    StillDistinct(ctx.values, vs);
    FrozenOk(high, low, ctx.values, vs);
  }

  lemma Summed(c: Checksum, body: seq<byte>)
    requires forall x :: c.final(x) < 0x1_0000_0000
    ensures Sum(c, body) < 0x1_0000_0000
  {
  }

  /** In an ordered table the first range that covers an address is the only one. */
  lemma Answer(high: Table, low: seq<seq<Range>>, addr: nat, default: Value, v: Value)
    requires TableOk(high) && |low| == |high| == 0x10000 && addr < ADDRESSES && low == Frozen(high)
    requires var rs, n := low[addr / 0x10000], addr % 0x10000;
      && (forall i | 0 <= i < |rs| && rs[i].start <= n <= rs[i].end
                     && (forall j :: 0 <= j < i ==> n < rs[j].start || rs[j].end < n) :: v == rs[i].value)
      && ((forall i :: 0 <= i < |rs| ==> n < rs[i].start || rs[i].end < n) ==> v == default)
    ensures var rs, n := Ranges(high[addr / 0x10000]), addr % 0x10000;
      && (forall i :: 0 <= i < |rs| && rs[i].start <= n <= rs[i].end ==> v == rs[i].value)
      && ((forall i :: 0 <= i < |rs| ==> n < rs[i].start || rs[i].end < n) ==> v == default)
    ensures Lookup(high, addr).Some? ==> v == Lookup(high, addr).value
    ensures Lookup(high, addr).None? ==> v == default
  {
    var rs, n := Ranges(high[addr / 0x10000]), addr % 0x10000;
    assert Ordered(rs) && rs == low[addr / 0x10000];
    forall i | 0 <= i < |rs| && rs[i].start <= n <= rs[i].end ensures v == rs[i].value && Find(rs, n) == Some(v) {
      FindAt(rs, n, i);
    }
    if forall i :: 0 <= i < |rs| ==> n < rs[i].start || rs[i].end < n { FindNone(rs, n); }
  }

  lemma SavedSize(file: seq<byte>, c: Checksum, vs: seq<Val>, low: seq<seq<Range>>)
    requires ValsOk(vs) && file == MAGIC + Put(Sum(c, Body(0, vs, low)), 4) + Body(0, vs, low)
    ensures |file| == DataSize(vs, low)
  {
    SizeExact(MAGIC + Put(Sum(c, Body(0, vs, low)), 4), 0, vs, low);
  }

  lemma Blank(file: array<byte>)
    requires forall i :: 0 <= i < file.Length ==> file[i] == 0
    ensures file[..] == Zeros(file.Length)
  {
  }

  lemma Header(c: Checksum, body: seq<byte>)
    requires Sum(c, body) < 0x1_0000_0000
    ensures var h := MAGIC + Put(Sum(c, body), 4);
      |h| == HEADER_SIZE && h[..12] == MAGIC && Get(h[12..16]) == Sum(c, body)
  {
    WordLimits();
    GetPut(Sum(c, body), 4);
    assert (MAGIC + Put(Sum(c, body), 4))[12..16] == Put(Sum(c, body), 4);
  }

  /** Writes the base of a frozen table into a new file of the given size. */
  method Save(size: nat, t: Tree, low: seq<seq<Range>>, c: Checksum) returns (file: array<byte>)
    requires ValsOk(Preorder(t)) && Distinct(Preorder(t)) && ListsOk(low, Preorder(t))
    requires size == DataSize(Preorder(t), low)
    ensures fresh(file)
    ensures file[..] == MAGIC + Put(Sum(c, Body(0, Preorder(t), low)), 4) + Body(0, Preorder(t), low)
  {
    hide *;
    file := new byte[size](_ => 0);
    Blank(file);
    CreateBase(file, t, low, c);
  }

  method Copy(file: array<byte>) returns (mem: array<byte>)
    ensures fresh(mem) && mem[..] == file[..]
  {
    mem := new byte[file.Length](i requires 0 <= i < file.Length reads file => file[i]);
  }

  /** Reads a file that `Save` made to address `base`, and looks an address up there. */
  method Reload(file: array<byte>, base: nat, c: Checksum, addr: nat, default: Value,
                ghost vs: seq<Val>, ghost low: seq<seq<Range>>) returns (r: Loaded, v: Value)
    requires ValsOk(vs) && ListsOk(low, vs) && |low| == 0x10000 && addr < ADDRESSES
    requires file[..] == MAGIC + Put(Sum(c, Body(0, vs, low)), 4) + Body(0, vs, low)
    requires Sum(c, Body(0, vs, low)) < 0x1_0000_0000 && base + file.Length < ADDRESS_SPACE
    ensures r.Using?
    ensures var rs, n := low[addr / 0x10000], addr % 0x10000;
      && (forall i | 0 <= i < |rs| && rs[i].start <= n <= rs[i].end
                     && (forall j :: 0 <= j < i ==> n < rs[j].start || rs[j].end < n) :: v == rs[i].value)
      && ((forall i :: 0 <= i < |rs| ==> n < rs[i].start || rs[i].end < n) ==> v == default)
  {
    ghost var h := MAGIC + Put(Sum(c, Body(0, vs, low)), 4);
    Header(c, Body(0, vs, low));
    hide *;
    var mem := Copy(file);
    r := LoadBase(mem, base, c, 0x10000, h, vs, low);
    v := RangeVariable(mem, base, r.pointers, addr, default, h, vs, low);
  }

  /** The table frozen, and the room for its base set aside. */
  method Prepare(conf: Configuration, ghost vs: seq<Val>) returns (low: seq<seq<Range>>)
    requires conf.Valid() && multiset(vs) == multiset(conf.ctx.values)
    requires DataSize(conf.ctx.values, Frozen(conf.table.low[..])) < ADDRESS_SPACE
    modifies conf.ctx`dataSize
    ensures TableOk(conf.table.low[..]) && low == Frozen(conf.table.low[..]) && |low| == |conf.table.low[..]| == 0x10000
    ensures ValsOk(vs) && Distinct(vs) && ListsOk(low, vs)
    ensures conf.ctx.dataSize == DataSize(conf.ctx.values, low) == DataSize(vs, low)
  {
    var ctx, high := conf.ctx, conf.table.low[..];
    TableSize(high);
    low := ctx.Freeze(high);
    Ready(ctx, high, low, vs);
  }

  /**
   * The whole way, after any directives: the configuration freezes its table and writes the base
   * into a file of the size it had set aside; the file is read at another address and looked up.
   * The base is accepted, and every address has the value the table gives it.
   */
  method Restart(conf: Configuration, t: Tree, c: Checksum, base: nat, addr: nat, default: Value)
    returns (r: Loaded, v: Value)
    requires conf.Valid() && Holds(t, conf.ctx.values)
    requires addr < ADDRESSES && forall x :: c.final(x) < 0x1_0000_0000
    requires base + DataSize(conf.ctx.values, Frozen(conf.table.low[..])) < ADDRESS_SPACE
    modifies conf.ctx`dataSize
    ensures conf.ctx.dataSize == DataSize(Preorder(t), Frozen(conf.table.low[..]))
    ensures r.Using?
    ensures var rs, n := Ranges(conf.table.low[..][addr / 0x10000]), addr % 0x10000;
      && (forall i :: 0 <= i < |rs| && rs[i].start <= n <= rs[i].end ==> v == rs[i].value)
      && ((forall i :: 0 <= i < |rs| ==> n < rs[i].start || rs[i].end < n) ==> v == default)
    ensures Lookup(conf.table.low[..], addr).Some? ==> v == Lookup(conf.table.low[..], addr).value
    ensures Lookup(conf.table.low[..], addr).None? ==> v == default
  {
    ghost var high, vs := conf.table.low[..], Preorder(t);
    SameTexts(t, conf.ctx.values);
    hide *;
    var low := Prepare(conf, vs);
    Summed(c, Body(0, vs, low));
    var file := Save(conf.ctx.dataSize, t, low, c);
    SavedSize(file[..], c, vs, low);
    r, v := Reload(file, base, c, addr, default, vs, low);
    Answer(high, low, addr, default, v);
  }
}
