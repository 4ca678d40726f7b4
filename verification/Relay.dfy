/**
 * One direction of the TCP relay: bytes are received into a single buffer, described by a chain of
 * buffer headers, handed to the write filter and sent in whatever portions the socket takes.
 */
module Relay {
  import opened Bytes

  /** A buffer header; positions are places in memory. */
  datatype Buf = Buf(start: nat, pos: nat, last: nat, temporary: bool, flush: bool, lastBuf: bool)

  /** A chain: indices of headers, which other chains may share. */
  type Chain = seq<nat>

  function Size(b: Buf): int { if b.temporary then b.last - b.pos else 0 }

  predicate Special(b: Buf) { (b.flush || b.lastBuf) && !b.temporary }

  /** The bytes a header still describes. */
  function Unsent(mem: seq<byte>, b: Buf): seq<byte> {
    if b.temporary && b.pos <= b.last <= |mem| then mem[b.pos..b.last] else []
  }

  function Data(mem: seq<byte>, bufs: seq<Buf>, chain: Chain): seq<byte> {
    if chain == [] then []
    else (if chain[0] < |bufs| then Unsent(mem, bufs[chain[0]]) else []) + Data(mem, bufs, chain[1..])
  }

  lemma {:induction false} DataJoin(mem: seq<byte>, bufs: seq<Buf>, a: Chain, b: Chain)
    ensures Data(mem, bufs, a + b) == Data(mem, bufs, a) + Data(mem, bufs, b)
  {
    hide Unsent;
    if a == [] {
      assert a + b == b;
    } else {
      assert (a + b)[1..] == a[1..] + b;
      DataJoin(mem, bufs, a[1..], b);
      Assoc(if a[0] < |bufs| then Unsent(mem, bufs[a[0]]) else [], Data(mem, bufs, a[1..]), Data(mem, bufs, b));
    }
  }

  /** Other headers and other memory do not matter to a chain. */
  ghost predicate SameBytes(m: seq<byte>, bs: seq<Buf>, m': seq<byte>, bs': seq<Buf>, chain: Chain) {
    forall i :: 0 <= i < |chain| ==>
      chain[i] < |bs| && chain[i] < |bs'| && Unsent(m', bs'[chain[i]]) == Unsent(m, bs[chain[i]])
  }

  lemma {:induction false} DataSame(m: seq<byte>, bs: seq<Buf>, m': seq<byte>, bs': seq<Buf>, chain: Chain)
    requires SameBytes(m, bs, m', bs', chain)
    ensures Data(m', bs', chain) == Data(m, bs, chain)
  {
    if chain != [] {
      assert forall i :: 0 <= i < |chain[1..]| ==> chain[1..][i] == chain[i + 1];
      DataSame(m, bs, m', bs', chain[1..]);
    }
  }

  /** Headers in use: each occurs once, describes memory, and is empty only if it is special. */
  ghost predicate Live(bufs: seq<Buf>, chain: Chain, memory: nat) {
    && (forall i, j :: 0 <= i < j < |chain| ==> chain[i] != chain[j])
    && forall i :: 0 <= i < |chain| ==>
        && chain[i] < |bufs|
        && var b := bufs[chain[i]];
          b.pos <= b.last <= memory && (Special(b) || (b.temporary && b.pos < b.last))
  }

  lemma LiveTail(bufs: seq<Buf>, chain: Chain, memory: nat, k: nat)
    requires Live(bufs, chain, memory) && k <= |chain|
    ensures Live(bufs, chain[k..], memory)
  {
    var t := chain[k..];
    forall i, j | 0 <= i < j < |t| ensures t[i] != t[j] {
      assert chain[k + i] != chain[k + j];
    }
  }

  // ----- sending -----

  /** What sending did to the headers of a chain: they only moved on. */
  ghost predicate Moved(bs: seq<Buf>, bs': seq<Buf>, chain: Chain) {
    && |bs'| == |bs|
    && (forall id :: 0 <= id < |bs| && id !in chain ==> bs'[id] == bs[id])
    && (forall id :: 0 <= id < |bs| ==>
        && bs'[id] == bs[id].(pos := bs'[id].pos) && bs[id].pos <= bs'[id].pos)
  }

  lemma HeadData(mem: seq<byte>, bufs: seq<Buf>, chain: Chain)
    requires chain != [] && Live(bufs, chain, |mem|)
    ensures var b := bufs[chain[0]];
      && Data(mem, bufs, chain) == Unsent(mem, b) + Data(mem, bufs, chain[1..])
      && |Unsent(mem, b)| == Size(b) >= 0 && (Size(b) == 0 <==> Special(b))
  {
  }

  /** Moving the head on by `k` bytes. */
  lemma HeadMoved(mem: seq<byte>, bufs: seq<Buf>, chain: Chain, k: nat)
    requires chain != [] && Live(bufs, chain, |mem|) && k <= Size(bufs[chain[0]])
    ensures var b := bufs[chain[0]];
      var bufs' := bufs[chain[0] := b.(pos := b.pos + k)];
      && Data(mem, bufs', chain[1..]) == Data(mem, bufs, chain[1..])
      && Unsent(mem, bufs'[chain[0]]) == Unsent(mem, b)[k..]
      && Live(bufs', chain[1..], |mem|)
  {
    var b := bufs[chain[0]];
    var bufs' := bufs[chain[0] := b.(pos := b.pos + k)];
    LiveTail(bufs, chain, |mem|, 1);
    assert forall i :: 0 <= i < |chain[1..]| ==> chain[1..][i] == chain[i + 1];
    DataSame(mem, bufs, mem, bufs', chain[1..]);
  }

  lemma Rest(x: seq<byte>, y: seq<byte>, k: nat)
    requires k <= |x| + |y|
    ensures k >= |x| ==> (x + y)[k..] == y[k - |x|..]
    ensures k < |x| ==> (x + y)[k..] == x[k..] + y
  {
  }

  /** The loop over a chain being sent: `n` headers are done, and `k` bytes are still to be taken off the others. */
  ghost predicate Sending(m: seq<byte>, bs: seq<Buf>, bs': seq<Buf>, chain: Chain, n: nat, sent: nat, k: nat) {
    && n <= |chain| && Live(bs', chain[n..], |m|) && Live(bs, chain, |m|)
    && sent <= |Data(m, bs, chain)| && k <= |Data(m, bs', chain[n..])|
    && Data(m, bs', chain[n..])[k..] == Data(m, bs, chain)[sent..]
    && (forall j :: 0 <= j < n ==> chain[j] < |bs'| && Size(bs'[chain[j]]) == 0)
    && Moved(bs, bs', chain)
  }

  lemma SendSkips(m: seq<byte>, bs: seq<Buf>, bs': seq<Buf>, chain: Chain, n: nat, sent: nat, k: nat)
    requires Sending(m, bs, bs', chain, n, sent, k) && n < |chain| && Special(bs'[chain[n]])
    ensures Sending(m, bs, bs', chain, n + 1, sent, k)
  {
    var rest := chain[n..];
    HeadData(m, bs', rest);
    LiveTail(bs', rest, |m|, 1);
    assert rest[1..] == chain[n + 1..] && rest[0] == chain[n];
    assert [] + Data(m, bs', rest[1..]) == Data(m, bs', rest[1..]);
  }

  lemma MovedOn(bs: seq<Buf>, bs': seq<Buf>, chain: Chain, id: nat, k: nat)
    requires Moved(bs, bs', chain) && id in chain && id < |bs'|
    ensures Moved(bs, bs'[id := bs'[id].(pos := bs'[id].pos + k)], chain)
  {
  }

  /** Moving one header on changes the size of no earlier one. */
  lemma OthersKeep(bs: seq<Buf>, bs': seq<Buf>, chain: Chain, n: nat, memory: nat, b: Buf)
    requires Live(bs, chain, memory) && |bs'| == |bs| && n < |chain|
    requires forall j :: 0 <= j < n ==> chain[j] < |bs'| && Size(bs'[chain[j]]) == 0
    ensures chain[n] < |bs'|
    ensures forall j :: 0 <= j < n ==> chain[j] < |bs'| && Size(bs'[chain[n] := b][chain[j]]) == 0
  {
  }

  lemma MovedSize(bs: seq<Buf>, bs': seq<Buf>, chain: Chain)
    requires Moved(bs, bs', chain)
    ensures |bs'| == |bs|
  {
  }

  lemma SendMoves(m: seq<byte>, bs: seq<Buf>, bs': seq<Buf>, chain: Chain, n: nat, sent: nat, k: nat)
    requires Sending(m, bs, bs', chain, n, sent, k) && n < |chain|
    requires chain[n] < |bs'| && !Special(bs'[chain[n]]) && k >= Size(bs'[chain[n]]) > 0
    ensures var b := bs'[chain[n]];
      Sending(m, bs, bs'[chain[n] := b.(pos := b.pos + Size(b))], chain, n + 1, sent, k - Size(b))
  {
    hide Data, Live, Moved, Unsent, Special;
    var rest := chain[n..];
    var b := bs'[chain[n]];
    assert rest[1..] == chain[n + 1..] && rest[0] == chain[n];
    HeadData(m, bs', rest);
    HeadMoved(m, bs', rest, Size(b));
    Rest(Unsent(m, b), Data(m, bs', rest[1..]), k);
    MovedSize(bs, bs', chain);
    OthersKeep(bs, bs', chain, n, |m|, b.(pos := b.pos + Size(b)));
    MovedOn(bs, bs', chain, chain[n], Size(b));
  }

  lemma StillLive(bufs: seq<Buf>, chain: Chain, memory: nat, k: nat)
    requires Live(bufs, chain, memory) && chain != [] && chain[0] < |bufs| && k < Size(bufs[chain[0]])
    ensures Live(bufs[chain[0] := bufs[chain[0]].(pos := bufs[chain[0]].pos + k)], chain, memory)
  {
  }

  lemma SendStops(m: seq<byte>, bs: seq<Buf>, bs': seq<Buf>, chain: Chain, n: nat, sent: nat, k: nat)
    requires Sending(m, bs, bs', chain, n, sent, k) && n < |chain|
    requires chain[n] < |bs'| && !Special(bs'[chain[n]]) && k < Size(bs'[chain[n]])
    ensures var b := bs'[chain[n]];
      Sending(m, bs, bs'[chain[n] := b.(pos := b.pos + k)], chain, n, sent, 0)
  {
    hide Data, Live, Moved, Unsent, Special;
    var rest := chain[n..];
    var b := bs'[chain[n]];
    var bs'' := bs'[chain[n] := b.(pos := b.pos + k)];
    assert rest[1..] == chain[n + 1..] && rest[0] == chain[n];
    HeadData(m, bs', rest);
    HeadMoved(m, bs', rest, k);
    Rest(Unsent(m, b), Data(m, bs', rest[1..]), k);
    MovedSize(bs, bs', chain);
    OthersKeep(bs, bs', chain, n, |m|, b.(pos := b.pos + k));
    MovedOn(bs, bs', chain, chain[n], k);
    StillLive(bs', rest, |m|, k);
    HeadData(m, bs'', rest);
    assert Data(m, bs'', rest)[0..] == Data(m, bs'', rest);
  }

  lemma SendBegin(m: seq<byte>, bs: seq<Buf>, chain: Chain, sent: nat)
    requires Live(bs, chain, |m|) && sent <= |Data(m, bs, chain)|
    ensures Sending(m, bs, bs, chain, 0, sent, sent)
  {
    assert chain[0..] == chain;
  }

  lemma SendHead(m: seq<byte>, bs: seq<Buf>, bs': seq<Buf>, chain: Chain, n: nat, sent: nat, k: nat)
    requires Sending(m, bs, bs', chain, n, sent, k) && n < |chain|
    ensures chain[n] < |bs'| && bs'[chain[n]].pos <= bs'[chain[n]].last
    ensures !Special(bs'[chain[n]]) ==> Size(bs'[chain[n]]) == bs'[chain[n]].last - bs'[chain[n]].pos > 0
  {
    assert chain[n..][0] == chain[n];
  }

  lemma SendEnd(m: seq<byte>, bs: seq<Buf>, bs': seq<Buf>, chain: Chain, n: nat, sent: nat, k: nat)
    requires Sending(m, bs, bs', chain, n, sent, k) && n == |chain|
    ensures k == 0 && chain[n..] == []
  {
  }

  /**
   * `chain_update_sent`: after `sent` bytes the rest of the chain describes exactly the bytes behind
   * them, and it starts with one of those.
   */
  method UpdateSent(bs: seq<Buf>, chain: Chain, sent: nat, ghost m: seq<byte>)
    returns (bs': seq<Buf>, rest: Chain, ghost n: nat)
    requires Live(bs, chain, |m|) && sent <= |Data(m, bs, chain)|
    ensures Sending(m, bs, bs', chain, n, sent, 0) && rest == chain[n..]
    ensures rest != [] ==> Size(bs'[rest[0]]) > 0
  {
    hide Data, Live, Moved;
    bs', n := bs, 0;
    var k: nat := sent;
    SendBegin(m, bs, chain, sent);
    var i := 0;
    while i < |chain|
      invariant n == i && Sending(m, bs, bs', chain, i, sent, k)
    {
      SendHead(m, bs, bs', chain, i, sent, k);
      var b := bs'[chain[i]];
      if Special(b) {
        SendSkips(m, bs, bs', chain, i, sent, k);
        i, n := i + 1, n + 1;
        continue;
      }
      if k == 0 {
        return bs', chain[i..], n;
      }
      var size := b.last - b.pos;
      if k >= size {
        SendMoves(m, bs, bs', chain, i, sent, k);
        k := k - size;
        bs' := bs'[chain[i] := b.(pos := b.last)];
        i, n := i + 1, n + 1;
        continue;
      }
      SendStops(m, bs, bs', chain, i, sent, k);
      bs' := bs'[chain[i] := b.(pos := b.pos + k)];
      return bs', chain[i..], n;
    }
    SendEnd(m, bs, bs', chain, i, sent, k);
    rest := [];
  }

  // ----- the state of one direction -----

  /** Header indices waiting for reuse are used nowhere else. */
  ghost predicate Unused(bufs: seq<Buf>, free: Chain, chain: Chain) {
    && (forall i, j :: 0 <= i < j < |free| ==> free[i] != free[j])
    && forall i :: 0 <= i < |free| ==> free[i] < |bufs| && free[i] !in chain
  }

  /** What is still described lies outside the part of the buffer that may be received into. */
  ghost predicate Clear(bufs: seq<Buf>, chain: Chain, top: nat, end: nat) {
    forall i :: 0 <= i < |chain| ==>
      chain[i] < |bufs| && (bufs[chain[i]].last <= top || end <= bufs[chain[i]].pos)
  }

  /** A chain, and the bytes that are behind the ones sent. */
  ghost predicate Holds(m: seq<byte>, bufs: seq<Buf>, chain: Chain, free: Chain, top: nat, end: nat,
                        wire: seq<byte>, input: seq<byte>) {
    && Live(bufs, chain, |m|) && Unused(bufs, free, chain) && Clear(bufs, chain, top, end)
    && input == wire + Data(m, bufs, chain)
  }

  lemma LiveMore(bufs: seq<Buf>, bufs': seq<Buf>, chain: Chain, id: nat, memory: nat)
    requires Live(bufs, chain, memory) && |bufs| <= |bufs'| && id < |bufs'| && id !in chain
    requires forall i :: 0 <= i < |bufs| && i != id ==> bufs'[i] == bufs[i]
    requires var b := bufs'[id];
      b.pos <= b.last <= memory && (Special(b) || (b.temporary && b.pos < b.last))
    ensures Live(bufs', chain + [id], memory) && Live(bufs', [id] + chain, memory)
    ensures forall i :: 0 <= i < |chain| ==> chain[i] < |bufs| && bufs'[chain[i]] == bufs[chain[i]]
  {
    forall i | 0 <= i < |chain| ensures chain[i] < |bufs| && bufs'[chain[i]] == bufs[chain[i]] {
      assert chain[i] in chain;
    }
  }

  lemma UnusedMore(bufs: seq<Buf>, bufs': seq<Buf>, free: Chain, free': Chain, chain: Chain, id: nat)
    requires Unused(bufs, free, chain) && |bufs| <= |bufs'| && id !in free'
    requires forall i :: 0 <= i < |free'| ==> free'[i] in free
    requires forall i, j :: 0 <= i < j < |free'| ==> free'[i] != free'[j]
    ensures Unused(bufs', free', chain + [id]) && Unused(bufs', free', [id] + chain)
  {
  }

  lemma ClearMore(bufs: seq<Buf>, bufs': seq<Buf>, chain: Chain, id: nat, top: nat, n: nat, end: nat)
    requires Clear(bufs, chain, top, end) && id < |bufs'|
    requires forall i :: 0 <= i < |chain| ==>
      chain[i] < |bufs'| && (chain[i] < |bufs| ==> bufs'[chain[i]] == bufs[chain[i]])
    requires bufs'[id].last <= top + n || end <= bufs'[id].pos
    ensures Clear(bufs', chain + [id], top + n, end) && Clear(bufs', [id] + chain, top + n, end)
  {
  }

  lemma ClearAt(bufs: seq<Buf>, chain: Chain, top: nat, end: nat, i: nat)
    requires Clear(bufs, chain, top, end) && i < |chain|
    ensures chain[i] < |bufs| && (bufs[chain[i]].last <= top || end <= bufs[chain[i]].pos)
  {
  }

  lemma Elsewhere(m: seq<byte>, m': seq<byte>, b: Buf, top: nat, end: nat)
    requires |m'| == |m| && top <= end <= |m| && m'[..top] == m[..top] && m'[end..] == m[end..]
    requires b.last <= top || end <= b.pos
    ensures Unsent(m', b) == Unsent(m, b)
  {
    if b.pos <= b.last <= |m| {
      forall k | b.pos <= k < b.last ensures m'[k] == m[k] {
        if k < top {
          assert m'[..top][k] == m[..top][k];
        } else {
          assert m'[end..][k - end] == m[end..][k - end];
        }
      }
      assert m'[b.pos..b.last] == m[b.pos..b.last];
    }
  }

  lemma OneData(m: seq<byte>, bufs: seq<Buf>, id: nat)
    requires id < |bufs|
    ensures Data(m, bufs, [id]) == Unsent(m, bufs[id])
    ensures var b := bufs[id]; b.last <= |m| && b.pos <= b.last && (b.temporary <==> b.pos < b.last) ==>
      Unsent(m, b) == m[b.pos..b.last]
  {
    assert [id][1..] == [];
  }

  /** A new header at the end of the chain, for bytes received at `top`. */
  lemma Appended(m: seq<byte>, m': seq<byte>, bufs: seq<Buf>, bufs': seq<Buf>, chain: Chain, free: Chain, free': Chain,
                 top: nat, end: nat, wire: seq<byte>, input: seq<byte>, id: nat, n: nat)
    requires Holds(m, bufs, chain, free, top, end, wire, input)
    requires |m'| == |m| && top + n <= end <= |m| && m'[..top] == m[..top] && m'[end..] == m[end..]
    requires |bufs| <= |bufs'| && id < |bufs'| && id !in chain && id !in free'
    requires forall i :: 0 <= i < |bufs| && i != id ==> bufs'[i] == bufs[i]
    requires forall i :: 0 <= i < |free'| ==> free'[i] in free
    requires forall i, j :: 0 <= i < j < |free'| ==> free'[i] != free'[j]
    requires var b := bufs'[id]; b.pos == top && b.last == top + n && b.flush && (b.temporary <==> n > 0)
    ensures Holds(m', bufs', chain + [id], free', top + n, end, wire, input + m'[top..top + n])
  {
    LiveMore(bufs, bufs', chain, id, |m|);
    ClearMore(bufs, bufs', chain, id, top, n, end);
    UnusedMore(bufs, bufs', free, free', chain, id);
    hide Live, Clear, Unsent, Unused;
    forall i | 0 <= i < |chain| ensures Unsent(m', bufs'[chain[i]]) == Unsent(m, bufs[chain[i]]) {
      ClearAt(bufs, chain, top, end, i);
      Elsewhere(m, m', bufs[chain[i]], top, end);
    }
    hide Data;
    DataSame(m, bufs, m', bufs', chain);
    DataJoin(m', bufs', chain, [id]);
    OneData(m', bufs', id);
    Assoc(wire, Data(m, bufs, chain), m'[top..top + n]);
  }

  /** A new header at the front, for bytes that lie elsewhere. */
  lemma Prepended(m: seq<byte>, bufs: seq<Buf>, bufs': seq<Buf>, chain: Chain, free: Chain, free': Chain,
                  top: nat, end: nat, input: seq<byte>, id: nat)
    requires Holds(m, bufs, chain, free, top, end, [], input)
    requires |bufs| <= |bufs'| && id < |bufs'| && id !in chain && id !in free'
    requires forall i :: 0 <= i < |bufs| && i != id ==> bufs'[i] == bufs[i]
    requires forall i :: 0 <= i < |free'| ==> free'[i] in free
    requires forall i, j :: 0 <= i < j < |free'| ==> free'[i] != free'[j]
    requires var b := bufs'[id];
      && b.pos <= b.last <= |m| && (b.last <= top || end <= b.pos)
      && (b.temporary <==> b.pos < b.last) && (b.temporary || b.flush)
    ensures Holds(m, bufs', [id] + chain, free', top, end, [], m[bufs'[id].pos..bufs'[id].last] + input)
  {
    LiveMore(bufs, bufs', chain, id, |m|);
    ClearMore(bufs, bufs', chain, id, top, 0, end);
    UnusedMore(bufs, bufs', free, free', chain, id);
    hide Live, Clear, Unsent, Unused, Data;
    DataSame(m, bufs, m, bufs', chain);
    DataJoin(m, bufs', [id], chain);
    OneData(m, bufs', id);
    assert [] + Data(m, bufs, chain) == Data(m, bufs, chain);
    assert [] + Data(m, bufs', [id] + chain) == Data(m, bufs', [id] + chain);
  }

  // ----- after sending -----

  /** The headers at the front that are used up can be reused; what is left goes on where it was. */
  ghost predicate Freeing(bs: seq<Buf>, bs': seq<Buf>, chain: Chain, free: Chain, free': Chain, i: nat) {
    && i <= |chain| && |bs'| == |bs|
    && (forall id :: 0 <= id < |bs| && id !in chain[..i] ==> bs'[id] == bs[id])
    && |free'| == i + |free| && free'[i..] == free
    && forall j :: 0 <= j < i ==> free'[j] == chain[i - 1 - j]
  }

  lemma FreedUnused(bs: seq<Buf>, bs': seq<Buf>, chain: Chain, free: Chain, free': Chain, i: nat,
                    memory: nat, bs0: seq<Buf>)
    requires Freeing(bs, bs', chain, free, free', i) && Unused(bs0, free, chain) && Live(bs0, chain, memory)
    requires |bs0| == |bs|
    ensures Unused(bs', free', chain[i..])
  {
    forall j, k | 0 <= j < k < |free'| ensures free'[j] != free'[k] {
      if k < i {
        assert chain[i - 1 - k] != chain[i - 1 - j];
      } else {
        assert free'[k] == free'[i..][k - i];
        if j >= i { assert free'[j] == free'[i..][j - i]; }
      }
    }
    forall j | 0 <= j < |free'| ensures free'[j] < |bs'| && free'[j] !in chain[i..] {
      if j >= i {
        assert free'[j] == free'[i..][j - i];
      }
    }
  }

  lemma ClearTail(bs: seq<Buf>, bs': seq<Buf>, bs'': seq<Buf>, chain: Chain, n: nat, top: nat, end: nat, memory: nat)
    requires Clear(bs, chain, top, end) && Moved(bs, bs', chain) && n <= |chain| && |bs''| == |bs'|
    requires forall i :: n <= i < |chain| && chain[i] < |bs'| ==> bs''[chain[i]] == bs'[chain[i]]
    ensures Clear(bs'', chain[n..], top, end)
  {
    var t := chain[n..];
    forall i | 0 <= i < |t| ensures t[i] < |bs''| && (bs''[t[i]].last <= top || end <= bs''[t[i]].pos) {
      assert t[i] == chain[n + i];
    }
  }
}
