/** The range directives of a geo block: values and table filled together. */
module GeoConfig {
  import opened Bytes
  import opened GeoBuckets
  import opened Geo
  import opened GeoImage
  import opened GeoWriter
  import opened Options

  /** Every range's value is one of those kept. */
  ghost predicate Met(t: Table, vs: seq<Val>) {
    forall h, i :: 0 <= h < |t| && 0 <= i < |Ranges(t[h])| ==> HasText(vs, Ranges(t[h])[i].value)
  }

  /** What a lookup finds is the value of some range. */
  lemma {:induction false} FoundIn(rs: seq<Range>, n: nat)
    requires Find(rs, n).Some?
    ensures exists i :: 0 <= i < |rs| && rs[i].value == Find(rs, n).value
  {
    if !Covers(rs[0], n) {
      FoundIn(rs[1..], n);
      var i :| 0 <= i < |rs[1..]| && rs[1..][i].value == Find(rs, n).value;
      assert rs[i + 1] == rs[1..][i];
    }
  }

  /** A lookup in a table whose values are kept finds a value that is kept. */
  lemma LookupMet(t: Table, vs: seq<Val>, addr: nat)
    requires |t| == BUCKETS && Met(t, vs) && addr < ADDRESSES && Lookup(t, addr).Some?
    ensures HasText(vs, Lookup(t, addr).value)
  {
    var rs := Ranges(t[High(addr)]);
    FoundIn(rs, Low(addr));
    var i :| 0 <= i < |rs| && rs[i].value == Find(rs, Low(addr)).value;
    assert HasText(vs, rs[i].value);
  }

  /** If no address has got a value that is not kept, no range has. */
  lemma StaysMet(t: Table, t': Table, vs: seq<Val>)
    requires |t| == BUCKETS && Met(t, vs) && TableOk(t')
    requires forall addr: nat :: addr < ADDRESSES ==>
      || Lookup(t', addr) == None || Lookup(t', addr) == Lookup(t, addr)
      || HasText(vs, Lookup(t', addr).value)
    ensures Met(t', vs)
  {
    forall h, i | 0 <= h < |t'| && 0 <= i < |Ranges(t'[h])| ensures HasText(vs, Ranges(t'[h])[i].value) {
      var rs := Ranges(t'[h]);
      assert Ordered(rs);
      var addr := h * 0x10000 + rs[i].start;
      FindAt(rs, rs[i].start, i);
      assert High(addr) == h && Low(addr) == rs[i].start && addr < ADDRESSES;
      assert Lookup(t', addr) == Some(rs[i].value);
      if Lookup(t', addr) == Lookup(t, addr) { LookupMet(t, vs, addr); }
    }
  }

  lemma MoreMet(t: Table, vs: seq<Val>, ws: seq<Val>)
    requires Met(t, vs) && vs <= ws
    ensures Met(t, ws)
  {
    forall h, i | 0 <= h < |t| && 0 <= i < |Ranges(t[h])| ensures HasText(ws, Ranges(t[h])[i].value) {
      assert HasText(vs, Ranges(t[h])[i].value);
      var k :| 0 <= k < |vs| && vs[k].text == Ranges(t[h])[i].value;
      assert ws[k] == vs[k];
    }
  }

  lemma FirstAddress(t: Table, h: nat) returns (addr: nat)
    requires TableOk(t) && h < BUCKETS && Ranges(t[h]) != []
    ensures addr < ADDRESSES && Lookup(t, addr).Some?
  {
    var rs := Ranges(t[h]);
    addr := h * 0x10000 + rs[0].start;
    assert Ordered(rs) && High(addr) == h && Low(addr) == rs[0].start;
  }

  /** A bucket in which no address has a value has no range. */
  lemma BucketEmpty(t: Table, h: nat)
    requires TableOk(t) && h < BUCKETS
    requires forall addr: nat :: addr < ADDRESSES ==> Lookup(t, addr) == None
    ensures Ranges(t[h]) == []
  {
    if Ranges(t[h]) != [] { var addr := FirstAddress(t, h); }
  }

  lemma TableSize(t: Table)
    requires TableOk(t)
    ensures |t| == 0x10000 == BUCKETS
  {
  }

  /** A value is kept once it was asked for. */
  lemma Kept(vs: seq<Val>, text: Value, pad: seq<byte>)
    ensures var ws := if HasText(vs, text) then vs else vs + [Val(text, pad)];
      vs <= ws && HasText(ws, text)
  {
    if !HasText(vs, text) { assert (vs + [Val(text, pad)])[|vs|].text == text; }
  }

  /** The address parser's failure value, which is also what it makes of 255.255.255.255. */
  const INADDR_NONE := 0xffff_ffff

  datatype Directive =
    | Default(text: Value)
    | Add(start: nat, end: nat, text: Value)
    | Delete(start: nat, end: nat)

  class Configuration {
    const ctx: Context
    const table: GeoTable
    var default: Option<Value>

    ghost predicate Valid()
      reads this, ctx, table.low
    {
      ctx.Valid([]) && TableOk(table.low[..]) && Met(table.low[..], ctx.values)
    }

    constructor ()
      ensures Valid() && fresh(ctx) && fresh(table.low) && ctx.values == [] && default == None
      ensures forall addr: nat :: addr < ADDRESSES ==> Lookup(table.low[..], addr) == None
    {
      ctx := new Context();
      table := new GeoTable();
      default := None;
      new;
      assert forall h :: 0 <= h < BUCKETS ==> Ranges(table.low[..][h]) == [] by {
        forall h | 0 <= h < BUCKETS ensures Ranges(table.low[..][h]) == [] {
          BucketEmpty(table.low[..], h);
        }
      }
    }

    /**
     * `geo_range`: a default, a deletion or an addition. Whatever the outcome, the table stays in
     * order and every value it uses is among those kept.
     */
    method GeoRange(d: Directive, pad: seq<byte>, junk: Range) returns (ok: bool)
      requires Valid() && |pad| == 4
      requires d.Default? || (d.start <= INADDR_NONE && d.end <= INADDR_NONE)
      requires !d.Delete? ==> |d.text| < VALID_BIT
      modifies this, ctx, table.low
      ensures Valid() && old(ctx.values) <= ctx.values
      ensures !d.Default? && (d.start == 0xffff_ffff || d.end == 0xffff_ffff || d.start > d.end) ==>
        !ok && table.low[..] == old(table.low[..])
      ensures d.Default? ==>
        ok && default == Some(d.text) && HasText(ctx.values, d.text) && table.low[..] == old(table.low[..])
      ensures !d.Default? ==> default == old(default)
      ensures d.Add? && ok ==> forall addr: nat :: addr < ADDRESSES ==>
        Lookup(table.low[..], addr) ==
        if d.start <= addr <= d.end then Some(d.text) else Lookup(old(table.low[..]), addr)
      ensures d.Add? && d.start <= d.end < INADDR_NONE ==>
        (ok <==> forall h :: 0 <= h < BUCKETS && Touches(d.start, d.end, h) ==>
                   AddableIn(old(table.low[..]), d.start, d.end, h))
      ensures d.Delete? && d.start <= d.end < INADDR_NONE ==>
        ok && DeletedTo(old(table.low[..]), d.start, d.end, High(d.end) + 1, table.low[..])
    {
      hide Lookup, TableOk, Met, HasText, AddableIn;
      ghost var t, vs := table.low[..], ctx.values;
      if d.Default? {
        ctx.GeoValue(d.text, pad);
        Kept(vs, d.text, pad);
        MoreMet(t, vs, ctx.values);
        default := Some(d.text);
        return true;
      }
      if d.start == INADDR_NONE || d.end == INADDR_NONE || d.start > d.end { return false; }
      if d.Delete? {
        var warn := table.DeleteRange(d.start, d.end);
        TableSize(t);
        StaysMet(t, table.low[..], vs);
        return true;
      }
      ctx.GeoValue(d.text, pad);
      Kept(vs, d.text, pad);
      MoreMet(t, vs, ctx.values);
      ok := table.AddRange(d.start, d.end, d.text, junk);
      TableSize(t);
      StaysMet(t, table.low[..], ctx.values);
    }
  }
}
