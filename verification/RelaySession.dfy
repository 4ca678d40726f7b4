/** The relay loop of a direction, and the two directions of a session over one pool of headers. */
module RelaySession {
  import opened Bytes
  import opened Relay

  /** Freeing headers at the front leaves those behind as they are. */
  lemma Untouched(bs': seq<Buf>, bs'': seq<Buf>, chain: Chain, free: Chain, free': Chain, n: nat,
                  bs: seq<Buf>, memory: nat)
    requires Freeing(bs', bs'', chain, free, free', n) && Live(bs, chain, memory) && |bs| == |bs'|
    ensures forall i :: n <= i < |chain| && chain[i] < |bs'| ==> bs''[chain[i]] == bs'[chain[i]]
    ensures forall i :: 0 <= i < |chain[n..]| ==> chain[n..][i] < |bs'| && bs''[chain[n..][i]] == bs'[chain[n..][i]]
  {
    forall i | n <= i < |chain| ensures chain[i] < |bs'| && bs''[chain[i]] == bs'[chain[i]] {
      assert chain[i] !in chain[..n];
    }
  }

  lemma LiveSame(bs': seq<Buf>, bs'': seq<Buf>, chain: Chain, memory: nat)
    requires Live(bs', chain, memory)
    requires forall i :: 0 <= i < |chain| ==> chain[i] < |bs''| && chain[i] < |bs'| && bs''[chain[i]] == bs'[chain[i]]
    ensures Live(bs'', chain, memory)
  {
  }

  /** After a portion was sent and the used-up headers were freed. */
  lemma AfterSend(m: seq<byte>, bs: seq<Buf>, bs': seq<Buf>, bs'': seq<Buf>, chain: Chain, n: nat, sent: nat,
                  free: Chain, free': Chain, top: nat, end: nat, wire: seq<byte>, input: seq<byte>)
    requires Holds(m, bs, chain, free, top, end, wire, input) && Sending(m, bs, bs', chain, n, sent, 0)
    requires Freeing(bs', bs'', chain, free, free', n)
    ensures Holds(m, bs'', chain[n..], free', top, end, wire + Data(m, bs, chain)[..sent], input)
  {
    Untouched(bs', bs'', chain, free, free', n, bs, |m|);
    FreedUnused(bs', bs'', chain, free, free', n, |m|, bs);
    ClearTail(bs, bs', bs'', chain, n, top, end, |m|);
    LiveSame(bs', bs'', chain[n..], |m|);
    hide Live, Clear, Unused, Data, Unsent, Freeing, Moved;
    DataSame(m, bs', m, bs'', chain[n..]);
    var all := Data(m, bs, chain);
    assert Data(m, bs', chain[n..])[0..] == Data(m, bs', chain[n..]);
    assert all == all[..sent] + all[sent..];
    Assoc(wire, all[..sent], all[sent..]);
  }

  /** An empty chain leaves the whole buffer free. */
  lemma Emptied(m: seq<byte>, bufs: seq<Buf>, free: Chain, top: nat, start: nat, end: nat,
                wire: seq<byte>, input: seq<byte>)
    requires Holds(m, bufs, [], free, top, end, wire, input)
    ensures Holds(m, bufs, [], free, start, end, wire, input) && wire == input
  {
    assert wire + [] == wire;
  }

  /** A chain of special headers only needs no sending. */
  lemma {:induction false} AllSpecial(m: seq<byte>, bs: seq<Buf>, chain: Chain)
    requires Live(bs, chain, |m|) && Data(m, bs, chain) == []
    ensures forall i :: 0 <= i < |chain| ==> chain[i] < |bs| && Special(bs[chain[i]])
  {
    if chain != [] {
      HeadData(m, bs, chain);
      LiveTail(bs, chain, |m|, 1);
      AllSpecial(m, bs, chain[1..]);
      assert forall i :: 1 <= i < |chain| ==> chain[i] == chain[1..][i - 1];
    }
  }

  lemma NothingSent(m: seq<byte>, bs: seq<Buf>, chain: Chain)
    requires Live(bs, chain, |m|) && Data(m, bs, chain) == []
    ensures Sending(m, bs, bs, chain, |chain|, 0, 0)
  {
    AllSpecial(m, bs, chain);
    assert chain[|chain|..] == [];
  }

  /** The size of a chain that starts with headers already added up. */
  lemma SizeNext(m: seq<byte>, bs: seq<Buf>, chain: Chain, i: nat)
    requires Live(bs, chain, |m|) && i < |chain|
    ensures chain[i] < |bs| && Size(bs[chain[i]]) >= 0
    ensures |Data(m, bs, chain[..i + 1])| == |Data(m, bs, chain[..i])| + Size(bs[chain[i]])
    ensures Size(bs[chain[i]]) == 0 ==> Special(bs[chain[i]])
  {
    assert chain[..i + 1] == chain[..i] + [chain[i]];
    DataJoin(m, bs, chain[..i], [chain[i]]);
    OneData(m, bs, chain[i]);
  }

  /** What `recv` gives: some bytes, the end of the stream, or an error, which ends it too. */
  datatype Arrival = Chunk(bytes: seq<byte>) | Eof | Failed

  function Carried(coming: seq<Arrival>): seq<byte> {
    if coming == [] then [] else (if coming[0].Chunk? then coming[0].bytes else []) + Carried(coming[1..])
  }

  /** What arrives carries the bytes of its chunks, in their order. */
  lemma {:induction false} CarriedIs(coming: seq<Arrival>, chunks: seq<seq<byte>>)
    requires |chunks| == |coming|
    requires forall i :: 0 <= i < |coming| ==> chunks[i] == if coming[i].Chunk? then coming[i].bytes else []
    ensures Carried(coming) == Flatten(chunks)
  {
    if coming != [] { CarriedIs(coming[1..], chunks[1..]); }
  }

  function Weight(coming: seq<Arrival>): nat {
    if coming == [] then 0 else 1 + (if coming[0].Chunk? then |coming[0].bytes| else 0) + Weight(coming[1..])
  }

  /** `recv` into `size` bytes of room; an error ends the stream. */
  method Recv(coming: seq<Arrival>, size: nat) returns (bytes: seq<byte>, eof: bool, rest: seq<Arrival>)
    requires coming != [] && size > 0
    ensures |bytes| <= size && Carried(coming) == bytes + Carried(rest) && Weight(rest) < Weight(coming)
    ensures eof <==> bytes == []
    ensures coming[0].Chunk? && |coming[0].bytes| <= size ==> bytes == coming[0].bytes && rest == coming[1..]
    ensures coming[0].Chunk? && size < |coming[0].bytes| ==>
      bytes == coming[0].bytes[..size] && rest == [Chunk(coming[0].bytes[size..])] + coming[1..]
  {
    match coming[0]
    case Eof => return [], true, coming[1..];
    case Failed => return [], true, coming[1..];
    case Chunk(b) =>
      if b == [] { return [], true, coming[1..]; }
      if |b| <= size { return b, false, coming[1..]; }
      rest := [Chunk(b[size..])] + coming[1..];
      assert rest[1..] == coming[1..] && b == b[..size] + b[size..];
      Assoc(b[..size], b[size..], Carried(coming[1..]));
      return b[..size], false, rest;
  }

  lemma FirstLeft(bufs: seq<Buf>, chain: Chain, n: nat)
    requires n <= |chain| && (chain[n..] != [] ==> chain[n..][0] < |bufs| && Size(bufs[chain[n..][0]]) > 0)
    ensures n < |chain| ==> chain[n] < |bufs| && Size(bufs[chain[n]]) > 0
  {
    if n < |chain| { assert chain[n..][0] == chain[n]; }
  }

  /** The header at the front is as sending left it. */
  lemma FreeingHead(b0: seq<Buf>, bufs: seq<Buf>, chain: Chain, f0: Chain, free: Chain, i: nat,
                    bs: seq<Buf>, memory: nat)
    requires Freeing(b0, bufs, chain, f0, free, i) && i < |chain| && Live(bs, chain, memory) && |bs| == |b0|
    ensures chain[i] < |bufs| && bufs[chain[i]] == b0[chain[i]]
    ensures chain[i..][0] == chain[i] && chain[i..][1..] == chain[i + 1..]
  {
    assert chain[i] !in chain[..i];
  }

  /** The header that stopped the freeing was not touched by it. */
  lemma FirstKept(b1: seq<Buf>, bufs: seq<Buf>, chain: Chain, f0: Chain, free: Chain, n: nat, bs: seq<Buf>, memory: nat)
    requires Freeing(b1, bufs, chain, f0, free, n) && Live(bs, chain, memory) && |bs| == |b1|
    requires n < |chain| ==> chain[n] < |b1| && Size(b1[chain[n]]) > 0
    ensures chain[n..] != [] ==> chain[n..][0] < |bufs| && Size(bufs[chain[n..][0]]) > 0
  {
    if n < |chain| { FreeingHead(b1, bufs, chain, f0, free, n, bs, memory); }
  }

  lemma Front(busy: Chain, out: Chain)
    requires busy == []
    ensures busy + out == out
  {
  }

  lemma NoHeaders(m: seq<byte>, bufs: seq<Buf>, chain: Chain)
    ensures chain[..0] == [] && Data(m, bufs, []) == []
  {
  }

  lemma SendFacts(m: seq<byte>, bs: seq<Buf>, bs': seq<Buf>, chain: Chain, n: nat, sent: nat)
    requires Sending(m, bs, bs', chain, n, sent, 0)
    ensures n <= |chain| && Live(bs', chain[n..], |m|) && sent <= |Data(m, bs, chain)|
    ensures Moved(bs, bs', chain) && Live(bs, chain, |m|)
    ensures forall j :: 0 <= j < n ==> chain[j] < |bs'| && Size(bs'[chain[j]]) == 0
    ensures chain[n..] != [] ==> chain[n..][0] < |bs'|
  {
  }

  lemma FreeingBegin(bufs: seq<Buf>, chain: Chain, free: Chain)
    ensures Freeing(bufs, bufs, chain, free, free, 0) && chain[0..] == chain
  {
  }

  /** Freeing it is one step more. */
  lemma FreeingMore(b0: seq<Buf>, bufs: seq<Buf>, chain: Chain, f0: Chain, free: Chain, i: nat, b: Buf)
    requires Freeing(b0, bufs, chain, f0, free, i) && i < |chain| && chain[i] < |bufs|
    ensures Freeing(b0, bufs[chain[i] := b], chain, f0, [chain[i]] + free, i + 1)
  {
    assert chain[..i + 1] == chain[..i] + [chain[i]];
    assert ([chain[i]] + free)[i + 1..] == free[i..];
  }

  /** The first `k` bytes a chain describes. */
  method Gather(mem: array<byte>, bufs: seq<Buf>, chain: Chain, k: nat) returns (text: seq<byte>)
    requires k <= |Data(mem[..], bufs, chain)|
    ensures text == Data(mem[..], bufs, chain)[..k]
  {
    text := [];
    assert chain[..0] == [] && chain[..|chain|] == chain;
    for i := 0 to |chain|
      invariant text == Data(mem[..], bufs, chain[..i])
    {
      assert chain[..i + 1] == chain[..i] + [chain[i]];
      DataJoin(mem[..], bufs, chain[..i], [chain[i]]);
      assert [chain[i]][1..] == [];
      if chain[i] < |bufs| {
        var b := bufs[chain[i]];
        if b.temporary && b.pos <= b.last <= mem.Length { text := text + mem[b.pos..b.last]; }
      }
    }
    text := text[..k];
  }

  lemma Indices(m: seq<byte>, bufs: seq<Buf>, chain: Chain, free: Chain, top: nat, end: nat,
                wire: seq<byte>, input: seq<byte>)
    requires Holds(m, bufs, chain, free, top, end, wire, input)
    ensures Unused(bufs, free, chain) && forall i :: 0 <= i < |chain| ==> chain[i] < |bufs|
    ensures Live(bufs, chain, |m|) && input == wire + Data(m, bufs, chain)
  {
  }

  lemma HeadStays(bs: seq<Buf>, bs': seq<Buf>, busy: Chain, chain: Chain, id: nat)
    requires id !in chain && busy <= chain && |bs| <= |bs'|
    requires forall i :: 0 <= i < |bs| && i != id ==> bs'[i] == bs[i]
    requires busy != [] ==> busy[0] < |bs| && Size(bs[busy[0]]) > 0
    ensures busy != [] ==> busy[0] < |bs'| && Size(bs'[busy[0]]) > 0
  {
    if busy != [] { assert chain[0] == busy[0]; }
  }

  ghost function Owned(chain: Chain, free: Chain): set<nat> {
    (set id | id in chain) + (set id | id in free)
  }

  /** Headers that are not `own` stay as they are, and only new ones come to be owned. */
  ghost predicate Within(bs: seq<Buf>, own: set<nat>, bs': seq<Buf>, own': set<nat>) {
    && |bs| <= |bs'|
    && (forall id :: 0 <= id < |bs| && id !in own ==> bs'[id] == bs[id])
    && forall id :: id in own' ==> id in own || |bs| <= id
  }

  lemma WithinTwice(bs: seq<Buf>, own: set<nat>, bs': seq<Buf>, own': set<nat>, bs'': seq<Buf>, own'': set<nat>)
    requires Within(bs, own, bs', own') && Within(bs', own', bs'', own'')
    ensures Within(bs, own, bs'', own'')
  {
  }

  /** Memory outside a buffer is as before. */
  ghost predicate Outside(m: seq<byte>, m': seq<byte>, start: nat, end: nat) {
    start <= end <= |m| == |m'| && m'[..start] == m[..start] && m'[end..] == m[end..]
  }

  lemma TakenWithin(bs: seq<Buf>, bs': seq<Buf>, chain: Chain, free: Chain, free': Chain, id: nat)
    requires |bs| <= |bs'| && (id in free || |bs| <= id)
    requires forall i :: 0 <= i < |bs| && i != id ==> bs'[i] == bs[i]
    requires forall i :: 0 <= i < |free'| ==> free'[i] in free
    ensures Within(bs, Owned(chain, free), bs', Owned(chain + [id], free'))
    ensures Within(bs, Owned(chain, free), bs', Owned([id] + chain, free'))
  {
  }

  lemma SentWithin(bs: seq<Buf>, bs': seq<Buf>, bs'': seq<Buf>, chain: Chain, free: Chain, free': Chain, n: nat)
    requires Moved(bs, bs', chain) && Freeing(bs', bs'', chain, free, free', n)
    ensures Within(bs, Owned(chain, free), bs'', Owned(chain[n..], free'))
  {
    forall i | 0 <= i < |free'| ensures free'[i] in chain || free'[i] in free {
      if i >= n { assert free'[i] == free'[n..][i - n]; }
    }
  }

  lemma ClearNew(bs: seq<Buf>, bs': seq<Buf>, chain: Chain, id: nat, away: (nat, nat))
    requires Clear(bs, chain, away.0, away.1) && |bs| <= |bs'| && id < |bs'| && id !in chain
    requires forall i :: 0 <= i < |bs| && i != id ==> bs'[i] == bs[i]
    requires bs'[id].last <= away.0 || away.1 <= bs'[id].pos
    ensures Clear(bs', chain + [id], away.0, away.1) && Clear(bs', [id] + chain, away.0, away.1)
  {
    forall i | 0 <= i < |chain| ensures chain[i] < |bs| && bs'[chain[i]] == bs[chain[i]] {
      assert chain[i] in chain;
    }
    ClearMore(bs, bs', chain, id, away.0, 0, away.1);
  }

  lemma ClearSent(bs: seq<Buf>, bs': seq<Buf>, bs'': seq<Buf>, chain: Chain, free: Chain, free': Chain, n: nat,
                  away: (nat, nat), memory: nat)
    requires Clear(bs, chain, away.0, away.1) && Live(bs, chain, memory)
    requires Moved(bs, bs', chain) && Freeing(bs', bs'', chain, free, free', n)
    ensures Clear(bs'', chain[n..], away.0, away.1)
  {
    Untouched(bs', bs'', chain, free, free', n, bs, memory);
    ClearTail(bs, bs', bs'', chain, n, away.0, away.1, memory);
  }

  lemma NoneFree(bufs: seq<Buf>)
    ensures Unused(bufs, [], [])
  {
  }

  lemma NothingChanged(bs: seq<Buf>, own: set<nat>, m: seq<byte>, start: nat, end: nat)
    requires start <= end <= |m|
    ensures Within(bs, own, bs, own) && Outside(m, m, start, end)
  {
  }

  lemma OutsideTwice(m: seq<byte>, m': seq<byte>, m'': seq<byte>, start: nat, end: nat)
    requires Outside(m, m', start, end) && Outside(m', m'', start, end)
    ensures Outside(m, m'', start, end)
  {
  }

  lemma ToFree(m: seq<byte>, bs: seq<Buf>, bs': seq<Buf>, chain: Chain, n: nat, sent: nat)
    requires Sending(m, bs, bs', chain, n, sent, 0)
    requires n <= |chain| && (chain[n..] != [] ==> chain[n..][0] < |bs'| && Size(bs'[chain[n..][0]]) > 0)
    ensures Live(bs, chain, |m|) && Moved(bs, bs', chain)
    ensures forall j :: 0 <= j < n ==> chain[j] < |bs'| && Size(bs'[chain[j]]) == 0
    ensures n < |chain| ==> chain[n] < |bs'| && Size(bs'[chain[n]]) > 0
  {
    hide *;
    SendFacts(m, bs, bs', chain, n, sent);
    FirstLeft(bs', chain, n);
  }

  /** The state after a turn's sending: nothing lost, and no header taken from the other direction. */
  lemma AllFreed(m: seq<byte>, bs: seq<Buf>, bs': seq<Buf>, bs'': seq<Buf>, chain: Chain, n: nat, sent: nat,
                 free: Chain, free': Chain, top: nat, end: nat, wire: seq<byte>, input: seq<byte>, away: (nat, nat))
    requires Holds(m, bs, chain, free, top, end, wire, input) && Clear(bs, chain, away.0, away.1)
    requires Sending(m, bs, bs', chain, n, sent, 0) && Freeing(bs', bs'', chain, free, free', n)
    requires n < |chain| ==> chain[n] < |bs'| && Size(bs'[chain[n]]) > 0
    ensures Holds(m, bs'', chain[n..], free', top, end, wire + Data(m, bs, chain)[..sent], input)
    ensures Clear(bs'', chain[n..], away.0, away.1)
    ensures Within(bs, Owned(chain, free), bs'', Owned(chain[n..], free'))
    ensures chain[n..] != [] ==> chain[n..][0] < |bs''| && Size(bs''[chain[n..][0]]) > 0
  {
    hide *;
    SendFacts(m, bs, bs', chain, n, sent);
    MovedSize(bs, bs', chain);
    AfterSend(m, bs, bs', bs'', chain, n, sent, free, free', top, end, wire, input);
    FirstKept(bs', bs'', chain, free, free', n, bs, |m|);
    ClearSent(bs, bs', bs'', chain, free, free', n, away, |m|);
    SentWithin(bs, bs', bs'', chain, free, free', n);
  }

  lemma Lengths(wire: seq<byte>, all: seq<byte>, sent: nat)
    requires sent <= |all|
    ensures |wire + all[..sent]| == |wire| + sent && |wire + all| == |wire| + |all|
    ensures wire <= wire + all[..sent] <= wire + all && (all == [] ==> wire + all == wire)
  {
    assert wire + all == wire + all[..sent] + all[sent..];
  }

  lemma Back(busy: Chain, out: Chain)
    requires out == []
    ensures busy + out == busy
  {
  }

  /**
   * While one direction sends and receives, the other keeps its headers, its bytes and its share of
   * the free ones.
   */
  lemma OtherHolds(m: seq<byte>, m': seq<byte>, bs: seq<Buf>, bs': seq<Buf>, mine: Chain, mine': Chain,
                   free: Chain, free': Chain, chain: Chain, top: nat, end: nat, wire: seq<byte>,
                   input: seq<byte>, region: (nat, nat))
    requires Holds(m, bs, chain, free, top, end, wire, input) && Clear(bs, chain, region.0, region.1)
    requires Within(bs, Owned(mine, free), bs', Owned(mine', free')) && Outside(m, m', region.0, region.1)
    requires Unused(bs', free', mine') && forall i :: 0 <= i < |chain| ==> chain[i] !in mine
    ensures Holds(m', bs', chain, free', top, end, wire, input) && Clear(bs', chain, region.0, region.1)
    ensures forall i :: 0 <= i < |chain| ==> chain[i] !in mine'
    ensures forall i :: 0 <= i < |chain| ==> chain[i] < |bs| <= |bs'| && bs'[chain[i]] == bs[chain[i]]
  {
    hide Unsent, Data, Special;
    forall i | 0 <= i < |chain|
      ensures chain[i] < |bs| && bs'[chain[i]] == bs[chain[i]] && chain[i] !in mine' && chain[i] !in free'
      ensures Unsent(m', bs'[chain[i]]) == Unsent(m, bs[chain[i]])
    {
      assert chain[i] !in free && chain[i] !in Owned(mine, free);
      ClearAt(bs, chain, region.0, region.1, i);
      Elsewhere(m, m', bs[chain[i]], region.0, region.1);
    }
    DataSame(m, bs, m', bs', chain);
  }

  /** The headers of a session: those in `free` can be taken by either direction. */
  class Pool {
    var bufs: seq<Buf>
    var free: Chain

    constructor ()
      ensures bufs == [] && free == []
    {
      bufs, free := [], [];
    }

    /** `chain_get_free_buf`: a header waiting for reuse, or a new one. */
    method GetFreeBuf(ghost chain: Chain) returns (id: nat)
      requires Unused(bufs, free, chain) && forall i :: 0 <= i < |chain| ==> chain[i] < |bufs|
      modifies this
      ensures |old(bufs)| <= |bufs| && id < |bufs| && id !in chain && id !in free
      ensures id in old(free) || |old(bufs)| <= id
      ensures forall i :: 0 <= i < |old(bufs)| ==> bufs[i] == old(bufs)[i]
      ensures forall i :: 0 <= i < |free| ==> free[i] in old(free)
      ensures forall i, j :: 0 <= i < j < |free| ==> free[i] != free[j]
    {
      if free != [] {
        id := free[0];
        free := free[1..];
        return;
      }
      id := |bufs|;
      bufs := bufs + [Buf(0, 0, 0, false, false, false)];
    }
  }

  ghost predicate Disjoint(a: Chain, b: Chain) {
    forall i :: 0 <= i < |b| ==> b[i] !in a
  }

  lemma Spliced(m: seq<byte>, m': seq<byte>, top: nat, start: nat, end: nat, bytes: seq<byte>)
    requires start <= top && top + |bytes| <= end <= |m|
    requires m' == m[..top] + bytes + m[top + |bytes|..]
    ensures |m'| == |m| && m'[..top] == m[..top] && m'[top..top + |bytes|] == bytes && m'[end..] == m[end..]
    ensures Outside(m, m', start, end)
  {
  }

  class Direction {
    const pool: Pool
    const mem: array<byte>
    const start: nat
    const end: nat
    ghost const away: (nat, nat)
    var top: nat
    var out: Chain
    var busy: Chain
    var saved: Chain
    var wire: seq<byte>
    ghost var input: seq<byte>

    ghost predicate InOrder(m: seq<byte>, bufs: seq<Buf>, free: Chain)
      reads this
    {
      && start <= top <= end <= mem.Length && saved == busy
      && Holds(m, bufs, busy + out, free, top, end, wire, input)
      && (busy != [] ==> busy[0] < |bufs| && Size(bufs[busy[0]]) > 0)
      && (away.1 <= start || end <= away.0) && Clear(bufs, busy + out, away.0, away.1)
    }

    /**
     * `wire` is what the destination was handed, `input` all that is to go there, in order. No
     * header describes bytes of the buffer at `away`, which the other direction receives into.
     */
    ghost predicate Valid()
      reads this, pool, mem
    {
      InOrder(mem[..], pool.bufs, pool.free)
    }

    constructor (pool: Pool, mem: array<byte>, start: nat, end: nat, ghost away: (nat, nat))
      requires start <= end <= mem.Length && (away.1 <= start || end <= away.0)
      requires Unused(pool.bufs, pool.free, [])
      ensures Valid() && input == wire == [] && top == start && out == busy == []
      ensures this.pool == pool && this.mem == mem && this.start == start && this.end == end && this.away == away
    {
      this.pool, this.mem, this.start, this.end, top, this.away := pool, mem, start, end, start, away;
      out, busy, saved, wire, input := [], [], [], [], [];
    }

    /** The headers that the direction describes bytes with, or may take. */
    ghost function Own(): set<nat>
      reads this, pool
    {
      Owned(busy + out, pool.free)
    }

    lemma Owns()
      ensures Own() == Owned(busy + out, pool.free)
    {
    }

    lemma Ready()
      requires start <= top <= end <= mem.Length && saved == busy
      requires Holds(mem[..], pool.bufs, busy + out, pool.free, top, end, wire, input)
      requires busy != [] ==> busy[0] < |pool.bufs| && Size(pool.bufs[busy[0]]) > 0
      requires (away.1 <= start || end <= away.0) && Clear(pool.bufs, busy + out, away.0, away.1)
      ensures Valid()
    {
    }

    lemma Opened()
      requires Valid()
      ensures start <= top <= end <= mem.Length && saved == busy && wire <= input
      ensures Holds(mem[..], pool.bufs, busy + out, pool.free, top, end, wire, input)
      ensures busy != [] ==> busy[0] < |pool.bufs| && Size(pool.bufs[busy[0]]) > 0
      ensures (away.1 <= start || end <= away.0) && Clear(pool.bufs, busy + out, away.0, away.1)
    {
    }

    /** The turn of the loop that received `bytes`; none means the end of the stream. */
    method Receive(bytes: seq<byte>, eof: bool)
      requires Valid() && top + |bytes| <= end
      modifies this`top, this`out, this`input, pool, mem
      ensures Valid() && input == old(input) + bytes
      ensures Within(old(pool.bufs), old(Own()), pool.bufs, Own()) && Outside(old(mem[..]), mem[..], start, end)
    {
      hide *;
      Opened();
      Owns();
      ghost var m, bs, fr, chain := mem[..], pool.bufs, pool.free, busy + out;
      MemCopy(mem, top, bytes);
      Indices(m, pool.bufs, chain, pool.free, top, end, wire, input);
      var id := pool.GetFreeBuf(chain);
      pool.bufs := pool.bufs[id := Buf(pool.bufs[id].start, top, top + |bytes|, |bytes| > 0, true, eof)];
      Spliced(m, mem[..], top, start, end, bytes);
      Appended(m, mem[..], bs, pool.bufs, chain, fr, pool.free, top, end, wire, input, id, |bytes|);
      ClearNew(bs, pool.bufs, chain, id, away);
      TakenWithin(bs, pool.bufs, chain, fr, pool.free, id);
      Assoc(busy, out, [id]);
      HeadStays(bs, pool.bufs, busy, chain, id);
      out := out + [id];
      top := top + |bytes|;
      input := input + bytes;
      Ready();
      Owns();
    }

    /**
     * `write_filter`: the new chain goes behind the saved one, and as much as the socket takes is
     * sent; a negative answer is an error. What is saved is what was not sent.
     */
    method WriteFilter(accept: int) returns (ok: bool, ghost n: nat, ghost sent: nat)
      requires Valid() && (busy != [] || out != [])
      modifies this`saved, this`wire, pool`bufs
      ensures !ok ==> wire == old(wire) && pool.bufs == old(pool.bufs)
      ensures ok ==>
        && Sending(mem[..], old(pool.bufs), pool.bufs, busy + out, n, sent, 0) && saved == (busy + out)[n..]
        && (saved != [] ==> saved[0] < |pool.bufs| && Size(pool.bufs[saved[0]]) > 0)
        && wire == old(wire) + Data(mem[..], old(pool.bufs), busy + out)[..sent]
        && (accept >= 0 ==> sent == Min(accept, |Data(mem[..], old(pool.bufs), busy + out)|))
        && (accept < 0 ==> Data(mem[..], old(pool.bufs), busy + out) == [])
    {
      hide Data, Live, Unused, Clear, Sending, Unsent;
      ghost var chain, m := busy + out, mem[..];
      Indices(m, pool.bufs, chain, pool.free, top, end, wire, input);
      var all := saved + out;
      var size, special := 0, false;
      NoHeaders(m, pool.bufs, chain);
      for i := 0 to |all|
        invariant pool.bufs == old(pool.bufs) && wire == old(wire) && saved == old(saved)
        invariant size == |Data(m, pool.bufs, chain[..i])| && (i > 0 && size == 0 ==> special)
      {
        SizeNext(m, pool.bufs, chain, i);
        if Size(pool.bufs[all[i]]) == 0 && !Special(pool.bufs[all[i]]) { assert false; }
        size := size + Size(pool.bufs[all[i]]);
        special := special || pool.bufs[all[i]].flush || pool.bufs[all[i]].lastBuf;
      }
      assert chain[..|chain|] == chain;
      if size == 0 {
        if !special { assert false; }
        NothingSent(m, pool.bufs, chain);
        saved := [];
        assert wire + Data(m, pool.bufs, chain)[..0] == wire;
        return true, |chain|, 0;
      }
      if accept < 0 { return false, 0, 0; }
      var k := if accept < size then accept else size;
      var text := Gather(mem, pool.bufs, all, k);
      ghost var bs := pool.bufs;
      pool.bufs, saved, n := UpdateSent(pool.bufs, all, k, m);
      SendFacts(m, bs, pool.bufs, chain, n, k);
      wire := wire + text;
      return true, n, k;
    }

    /** `chain_update_chains`: what was to go out is busy now, and used-up headers at the front are freed. */
    method UpdateChains(ghost n: nat, ghost bs: seq<Buf>)
      requires Live(bs, busy + out, mem.Length) && Moved(bs, pool.bufs, busy + out) && n <= |busy + out|
      requires forall j :: 0 <= j < n ==> (busy + out)[j] < |pool.bufs| && Size(pool.bufs[(busy + out)[j]]) == 0
      requires n < |busy + out| ==> (busy + out)[n] < |pool.bufs| && Size(pool.bufs[(busy + out)[n]]) > 0
      modifies this`busy, this`out, pool
      ensures busy == old(busy + out)[n..] && out == []
      ensures Freeing(old(pool.bufs), pool.bufs, old(busy + out), old(pool.free), pool.free, n)
    {
      hide Live, Moved;
      ghost var chain, b0, f0 := busy + out, pool.bufs, pool.free;
      busy, out := busy + out, [];
      ghost var i := 0;
      FreeingBegin(pool.bufs, chain, pool.free);
      MovedSize(bs, pool.bufs, chain);
      while busy != []
        invariant i <= n && busy == chain[i..] && Freeing(b0, pool.bufs, chain, f0, pool.free, i) && out == []
        decreases |busy|
      {
        FreeingHead(b0, pool.bufs, chain, f0, pool.free, i, bs, mem.Length);
        var cl := busy[0];
        if Size(pool.bufs[cl]) != 0 { break; }
        var b := pool.bufs[cl].(pos := pool.bufs[cl].start, last := pool.bufs[cl].start);
        FreeingMore(b0, pool.bufs, chain, f0, pool.free, i, b);
        pool.bufs := pool.bufs[cl := b];
        busy := busy[1..];
        pool.free := [cl] + pool.free;
        i := i + 1;
      }
    }

    /** A header before all others, for bytes outside the relay's own buffer. */
    method Prepend(pos: nat, last: nat, flush: bool)
      requires Valid() && wire == [] && busy == [] && pos <= last <= mem.Length && (last <= start || end <= pos)
      requires flush || pos < last
      requires last <= away.0 || away.1 <= pos
      modifies this`out, this`input, pool
      ensures Valid() && input == mem[..][pos..last] + old(input)
      ensures Within(old(pool.bufs), old(Own()), pool.bufs, Own())
    {
      hide *;
      Owns();
      ghost var m, bs, fr := mem[..], pool.bufs, pool.free;
      Opened();
      Front(busy, out);
      Indices(m, pool.bufs, out, pool.free, top, end, wire, input);
      var id := pool.GetFreeBuf(out);
      pool.bufs := pool.bufs[id := Buf(pool.bufs[id].start, pos, last, pos < last, flush, false)];
      Prepended(m, bs, pool.bufs, out, fr, pool.free, top, end, input, id);
      ClearNew(bs, pool.bufs, out, id, away);
      TakenWithin(bs, pool.bufs, out, fr, pool.free, id);
      out := [id] + out;
      input := m[pos..last] + input;
      Front(busy, out);
      Ready();
      Owns();
    }

    /**
     * The end of `init_upstream`: what was preread from the client goes before what the relay has
     * received since, and the PROXY protocol header before both.
     */
    method Connect(buffer: bool, preread: nat, prereadEnd: nat, proxy: bool, header: nat, headerEnd: nat)
      requires Valid() && wire == [] && busy == []
      requires buffer && preread <= prereadEnd ==> prereadEnd <= mem.Length && (prereadEnd <= start || end <= preread)
      requires buffer && preread <= prereadEnd ==> prereadEnd <= away.0 || away.1 <= preread
      requires proxy ==> header < headerEnd <= mem.Length && (headerEnd <= start || end <= header)
      requires proxy ==> headerEnd <= away.0 || away.1 <= header
      modifies this`out, this`input, pool
      ensures Valid() && Within(old(pool.bufs), old(Own()), pool.bufs, Own())
      ensures input == (if proxy then mem[..][header..headerEnd] else [])
                       + ((if buffer && preread <= prereadEnd then mem[..][preread..prereadEnd] else []) + old(input))
    {
      hide *;
      ghost var b0, own0 := pool.bufs, Own();
      Opened();
      NothingChanged(b0, own0, mem[..], start, end);
      if buffer && preread <= prereadEnd { Prepend(preread, prereadEnd, true); }
      ghost var b1, own1 := pool.bufs, Own();
      if proxy {
        Prepend(header, headerEnd, false);
        WithinTwice(b0, own0, b1, own1, pool.bufs, Own());
      }
    }

    /** After the filter took `sent` bytes: the chains, and the whole buffer again once nothing is busy. */
    method Settle(ghost bs: seq<Buf>, ghost n: nat, ghost sent: nat, ghost before: seq<byte>)
      requires start <= top <= end <= mem.Length && n <= |busy + out| && saved == (busy + out)[n..]
      requires Holds(mem[..], bs, busy + out, pool.free, top, end, before, input)
      requires (away.1 <= start || end <= away.0) && Clear(bs, busy + out, away.0, away.1)
      requires Sending(mem[..], bs, pool.bufs, busy + out, n, sent, 0)
      requires sent <= |Data(mem[..], bs, busy + out)| && wire == before + Data(mem[..], bs, busy + out)[..sent]
      requires saved != [] ==> saved[0] < |pool.bufs| && Size(pool.bufs[saved[0]]) > 0
      modifies this`top, this`out, this`busy, pool
      ensures Valid() && out == []
      ensures Within(bs, Owned(old(busy + out), old(pool.free)), pool.bufs, Own())
    {
      hide *;
      ghost var m, b1, chain, f0 := mem[..], pool.bufs, busy + out, pool.free;
      ToFree(m, bs, b1, chain, n, sent);
      UpdateChains(n, bs);
      AllFreed(m, bs, b1, pool.bufs, chain, n, sent, f0, pool.free, top, end, before, input, away);
      Back(busy, out);
      if busy == [] {
        Emptied(m, pool.bufs, pool.free, top, start, end, wire, input);
        top := start;
      }
      Ready();
      Owns();
    }

    /** The sending half of a turn. */
    method Send(accept: int) returns (ok: bool)
      requires Valid() && (busy != [] || out != [])
      modifies this`top, this`out, this`busy, this`saved, this`wire, pool
      ensures ok ==> Valid() && out == [] && Within(old(pool.bufs), old(Own()), pool.bufs, Own())
      ensures old(wire) <= wire <= input
      ensures ok && accept >= 0 ==> |wire| == |old(wire)| + Min(accept, |input| - |old(wire)|)
      ensures accept < 0 && old(wire) != input ==> !ok
    {
      hide *;
      Owns();
      ghost var m, bs, chain, before := mem[..], pool.bufs, busy + out, wire;
      Opened();
      Indices(m, bs, chain, pool.free, top, end, wire, input);
      ghost var n, sent;
      ok, n, sent := WriteFilter(accept);
      if !ok { return; }
      SendFacts(m, bs, pool.bufs, chain, n, sent);
      Lengths(before, Data(m, bs, chain), sent);
      Settle(bs, n, sent, before);
    }

    /** With nothing waiting the destination has been handed everything. */
    lemma Delivered()
      requires Valid() && busy == [] && out == []
      ensures wire == input
    {
      assert wire + [] == wire;
    }

    /**
     * The loop of `proxy_process`: send if there is a destination, receive if there is room, until
     * neither goes on. Nothing is lost, nothing reordered, and nothing still to be sent overwritten.
     */
    method Process(doWrite: bool, dst: bool, accepts: nat -> int, coming: seq<Arrival>)
      returns (ok: bool, rest: seq<Arrival>)
      requires Valid()
      modifies this`top, this`out, this`busy, this`saved, this`wire, this`input, pool, mem
      ensures ok ==> Valid() && (rest == [] || top == end)
      ensures ok && dst && (doWrite || rest != coming) ==> out == []
      ensures old(wire) <= wire <= input
      ensures input + Carried(rest) == old(input) + Carried(coming)
      ensures !dst ==> ok && wire == old(wire) && busy == old(busy)
      ensures ok ==> Within(old(pool.bufs), old(Own()), pool.bufs, Own()) && Outside(old(mem[..]), mem[..], start, end)
    {
      hide *;
      ghost var bs, own, m := pool.bufs, Own(), mem[..];
      var write, calls := doWrite, 0;
      rest := coming;
      Opened();
      NothingChanged(bs, own, m, start, end);
      while true
        invariant Valid() && old(wire) <= wire <= input && (!dst ==> wire == old(wire) && busy == old(busy))
        invariant Within(bs, own, pool.bufs, Own()) && Outside(m, mem[..], start, end)
        invariant input + Carried(rest) == old(input) + Carried(coming)
        invariant write <==> doWrite || rest != coming
        invariant Weight(rest) <= Weight(coming) && (rest != coming ==> Weight(rest) < Weight(coming))
        decreases Weight(rest)
      {
        if write && dst && (out != [] || busy != []) {
          ghost var b1, own1 := pool.bufs, Own();
          ok := Send(accepts(calls));
          calls := calls + 1;
          if !ok { return; }
          WithinTwice(bs, own, b1, own1, pool.bufs, Own());
        }
        Opened();
        var size := end - top;
        if size == 0 || rest == [] { return true, rest; }
        var bytes, eof, more := Recv(rest, size);
        Assoc(input, bytes, Carried(more));
        ghost var b2, own2, m2 := pool.bufs, Own(), mem[..];
        Receive(bytes, eof);
        WithinTwice(bs, own, b2, own2, pool.bufs, Own());
        OutsideTwice(m, m2, mem[..], start, end);
        rest, write := more, true;
      }
    }
  }

  /**
   * The two directions of a session: `up` from the client to the upstream server, `down` back. They
   * take their headers from one pool and give them back to it.
   */
  class Session {
    const pool: Pool
    const mem: array<byte>
    const up: Direction
    const down: Direction
    var connected: bool

    ghost predicate Wired() {
      && up != down && up.pool == down.pool == pool && up.mem == down.mem == mem
      && up.away == (down.start, down.end) && down.away == (up.start, up.end)
    }

    /** Each direction is in order, and no header is in use in both. */
    ghost predicate Valid()
      reads this, pool, mem, up, down
    {
      && Wired() && up.Valid() && down.Valid()
      && Disjoint(up.busy + up.out, down.busy + down.out)
      && (!connected ==> up.wire == [] && up.busy == [] && down.wire == down.input == [])
    }

    function Toward(fromUpstream: bool): Direction { if fromUpstream then down else up }

    /** Bytes outside both receive buffers. */
    ghost predicate Beside(pos: nat, last: nat) {
      (last <= up.start || up.end <= pos) && (last <= down.start || down.end <= pos)
    }

    /** Client bytes are received between `client.0` and `client.1`, those of the server between the others. */
    constructor (mem: array<byte>, client: (nat, nat), server: (nat, nat))
      requires client.0 <= client.1 <= mem.Length && server.0 <= server.1 <= mem.Length
      requires client.1 <= server.0 || server.1 <= client.0
      ensures Valid() && !connected && up.wire == down.wire == [] && up.input == down.input == []
      ensures up.out == down.out == [] && this.mem == mem
      ensures (up.start, up.end) == client && (down.start, down.end) == server
    {
      hide Holds, Clear, Unused, Live, Data, Direction.InOrder;
      var p := new Pool();
      NoneFree(p.bufs);
      var u := new Direction(p, mem, client.0, client.1, server);
      var d := new Direction(p, mem, server.0, server.1, client);
      this.mem, pool, up, down, connected := mem, p, u, d, false;
    }

    /** What the one direction does leaves the other in order. */
    lemma OtherStays(d: Direction, o: Direction, m: seq<byte>, bufs: seq<Buf>, free: Chain, mine: Chain)
      requires Wired() && {d, o} == {up, down} && d != o
      requires o.InOrder(m, bufs, free) && d.Valid() && Disjoint(mine, o.busy + o.out)
      requires Within(bufs, Owned(mine, free), pool.bufs, d.Own()) && Outside(m, mem[..], d.start, d.end)
      ensures o.Valid() && Disjoint(d.busy + d.out, o.busy + o.out) && Disjoint(o.busy + o.out, d.busy + d.out)
    {
      hide Holds, Clear, Within, Outside, Owned;
      Indices(mem[..], pool.bufs, d.busy + d.out, pool.free, d.top, d.end, d.wire, d.input);
      OtherHolds(m, mem[..], bufs, pool.bufs, mine, d.busy + d.out, free, pool.free, o.busy + o.out,
                 o.top, o.end, o.wire, o.input, (d.start, d.end));
      if o.busy != [] { assert (o.busy + o.out)[0] == o.busy[0]; }
    }

    /**
     * `proxy_process` in either direction. Before the upstream connection there is nothing to read
     * from it, and what the client sends has nowhere to go yet.
     */
    method Process(fromUpstream: bool, doWrite: bool, accepts: nat -> int, coming: seq<Arrival>)
      returns (ok: bool, rest: seq<Arrival>)
      requires Valid()
      modifies pool, mem, up, down
      ensures ok ==> Valid()
      ensures connected == old(connected)
      ensures unchanged(Toward(!fromUpstream))
      ensures old(Toward(fromUpstream).wire) <= Toward(fromUpstream).wire <= Toward(fromUpstream).input
      ensures Toward(fromUpstream).input + Carried(rest) == old(Toward(fromUpstream).input) + Carried(coming)
      ensures ok && connected && (doWrite || rest != coming) ==> Toward(fromUpstream).out == []
      ensures ok && (connected || !fromUpstream) ==> rest == [] || Toward(fromUpstream).top == Toward(fromUpstream).end
    {
      if fromUpstream && !connected { return true, coming; }
      hide Holds, Clear, Within, Outside, Owned, Carried;
      var d := Toward(fromUpstream);
      ghost var m, bufs, free, mine := mem[..], pool.bufs, pool.free, d.busy + d.out;
      ok, rest := d.Process(doWrite, fromUpstream || connected, accepts, coming);
      if ok { OtherStays(d, Toward(!fromUpstream), m, bufs, free, mine); }
    }

    /** The end of `init_upstream`. */
    method Connect(buffer: bool, preread: nat, prereadEnd: nat, proxy: bool, header: nat, headerEnd: nat)
      requires Valid() && !connected
      requires buffer && preread <= prereadEnd ==> prereadEnd <= mem.Length && Beside(preread, prereadEnd)
      requires proxy ==> header < headerEnd <= mem.Length && Beside(header, headerEnd)
      modifies this`connected, pool, up`out, up`input
      ensures Valid() && connected
      ensures up.input == (if proxy then mem[..][header..headerEnd] else [])
        + ((if buffer && preread <= prereadEnd then mem[..][preread..prereadEnd] else []) + old(up.input))
    {
      hide Holds, Clear, Within, Owned;
      ghost var bufs, free, mine := pool.bufs, pool.free, up.busy + up.out;
      up.Connect(buffer, preread, prereadEnd, proxy, header, headerEnd);
      NothingChanged(bufs, {}, mem[..], up.start, up.end);
      OtherStays(up, down, mem[..], bufs, free, mine);
      connected := true;
    }
  }
}
