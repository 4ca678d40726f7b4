/** The life of one proxied session: connect, retry on the next upstream, finalize. */
module Proxy {
  import opened Bytes
  import opened Peers
  import opened RoundRobin
  import opened LeastConn
  import opened Sessions
  import opened Options

  /** What the connection attempt to a peer comes to. */
  datatype Attempt = Refused | Broken | Connected

  datatype End = Proxying | Finalized(status: nat)

  const INTERNAL_SERVER_ERROR := 500
  const BAD_GATEWAY := 502

  /** The same peers with the same configuration. */
  ghost predicate SameShape(gs: seq<seq<Peer>>, gs': seq<seq<Peer>>) {
    && |gs'| == |gs|
    && (forall g :: 0 <= g < |gs| ==> |gs'[g]| == |gs[g]|)
    && forall g, i :: 0 <= g < |gs| && 0 <= i < |gs[g]| ==> SameConfig(gs[g][i], gs'[g][i])
  }

  /** The groups as before, but for one more connection on the peer at `at`. */
  ghost predicate Counts(gs: seq<seq<Peer>>, gs': seq<seq<Peer>>, at: Option<(nat, nat)>) {
    && SameShape(gs, gs')
    && (at.Some? ==> at.value.0 < |gs| && at.value.1 < |gs[at.value.0]|)
    && forall g, i :: 0 <= g < |gs| && 0 <= i < |gs[g]| ==>
         gs'[g][i].conns == gs[g][i].conns + if at == Some((g, i)) then 1 else 0
  }

  /** Configured as before, with one more connection on peer `b`. */
  ghost predicate OneMore(ps: seq<Peer>, qs: seq<Peer>, b: nat) {
    && |qs| == |ps|
    && forall i :: 0 <= i < |ps| ==>
         SameConfig(ps[i], qs[i]) && qs[i].conns == ps[i].conns + if i == b then 1 else 0
  }

  lemma TakenMore(single: bool, ps: seq<Peer>, marks: seq<Word>, b: nat, now: int, qs: seq<Peer>)
    requires if single then b == 0 && SinglePick(ps, qs) else Pick(ps, marks, b, now, qs)
    ensures b < |ps| && OneMore(ps, qs, b) && 0 < UpCount(ps)
  {
    hide CurrentSum, IsTried, UpCount;
    if !single {
      assert forall i :: 0 <= i < |ps| ==> PeerAfterPick(ps[i], qs[i], i == b, now);
    }
    UpCountPositive(ps, b);
  }

  lemma GroupMore(gs: seq<seq<Peer>>, gs': seq<seq<Peer>>, g: nat, b: nat)
    requires g < |gs| == |gs'| && b < |gs[g]| && OneMore(gs[g], gs'[g], b)
    requires forall i :: 0 <= i < |gs| && i != g ==> gs'[i] == gs[i]
    ensures Counts(gs, gs', Some((g, b)))
  {
  }

  lemma NoneMore(gs: seq<seq<Peer>>)
    ensures Counts(gs, gs, None)
  {
  }

  lemma LegalCounts(single: bool, gs: seq<seq<Peer>>, tried: seq<Word>, now: int,
                    got: Got, gs': seq<seq<Peer>>, tried': seq<Word>)
    requires 0 < |gs| <= 2 && Legal(single, gs, 0, tried, now, got, gs', tried')
    ensures Counts(gs, gs', if got.Got? then Some((got.depth, got.peer)) else None)
    ensures got.Got? ==> 0 < UpCounts(gs)
  {
    hide UpCounts, UpCount, Cleared, Mark, InBitset, SinglePick, Pick, OneMore, Counts;
    if got.Got? {
      var g, b := got.depth, got.peer;
      var marks := if single || g == 0 then tried else Cleared(tried, |gs[g]|);
      TakenMore(single, gs[g], marks, b, now, gs'[g]);
      GroupMore(gs, gs', g, b);
      UpCountsPositive(gs, g);
    } else {
      NoneMore(gs);
    }
  }

  lemma GetCounts(m: Method, single: bool, gs: seq<seq<Peer>>, tried: seq<Word>, now: int,
                  got: Got, gs': seq<seq<Peer>>, tried': seq<Word>)
    requires 0 < |gs| <= 2 && GetBy(m, single, gs, tried, now, got, gs', tried')
    ensures Counts(gs, gs', if got.Got? then Some((got.depth, got.peer)) else None)
    ensures got.Got? ==> 0 < UpCounts(gs)
  {
    hide *;
    assert gs[0..] == gs && gs[..0] + gs' == gs';
    GetByIsLegal(m, single, gs, 0, tried, now, got, gs', tried');
    LegalCounts(single, gs, tried, now, got, gs', tried');
  }

  method CountUp(peers: array<Peer>) returns (n: nat)
    ensures n == UpCount(peers[..])
  {
    n := 0;
    for i := 0 to peers.Length
      invariant n + UpCount(peers[i..]) == UpCount(peers[..])
    {
      assert peers[i..][1..] == peers[i + 1..];
      if !peers[i].down { n := n + 1; }
    }
  }

  /** The peers of the group and of its backup that the configuration does not mark down. */
  method Tries(group: PeerGroup) returns (tries: nat)
    requires group.Valid()
    ensures tries == UpCounts(group.Chain())
  {
    ghost var gs := group.Chain();
    tries := CountUp(group.peers);
    if group.next == null {
      assert gs[1..] == [];
    } else {
      var more := CountUp(group.next.peers);
      assert gs[1..] == [gs[1]] && gs[1..][1..] == [];
      tries := tries + more;
    }
  }

  ghost predicate AllWeighted(gs: seq<seq<Peer>>) {
    forall g :: 0 <= g < |gs| ==> Weighted(gs[g])
  }

  lemma StillWeighted(gs: seq<seq<Peer>>, gs': seq<seq<Peer>>)
    requires AllWeighted(gs) && SameShape(gs, gs')
    ensures AllWeighted(gs')
  {
    assert forall g, i :: 0 <= g < |gs'| && 0 <= i < |gs'[g]| ==> SameConfig(gs[g][i], gs'[g][i]);
  }

  lemma PartWeighted(gs: seq<seq<Peer>>, k: nat)
    requires AllWeighted(gs) && k <= |gs|
    ensures AllWeighted(gs[k..])
  {
  }

  lemma CountsShape(gs: seq<seq<Peer>>, gs': seq<seq<Peer>>, at: Option<(nat, nat)>)
    requires Counts(gs, gs', at)
    ensures SameShape(gs, gs')
  {
  }

  lemma BothWeighted(group: PeerGroup, gs: seq<seq<Peer>>)
    requires AllWeighted(gs) && group.Chain() == gs
    ensures Weighted(group.peers[..]) && (group.next != null ==> Weighted(group.next.peers[..]))
  {
    assert Weighted(gs[0]);
    if group.next != null { assert Weighted(gs[1]); }
  }

  /** The session's group seen from the group it started in. */
  ghost predicate Below(start: PeerGroup, group: PeerGroup, depth: nat) {
    if depth == 0 then group == start else depth == 1 && start.next != null && group == start.next
  }

  lemma ChainPart(start: PeerGroup, group: PeerGroup, depth: nat)
    requires start.Valid() && Below(start, group, depth)
    ensures group.Valid() && group.Chain() == start.Chain()[depth..] && group.Arrays() <= start.Arrays()
  {
  }

  lemma HeldCounts(base: seq<seq<Peer>>, gs: seq<seq<Peer>>, g: nat, i: nat)
    requires Counts(base, gs, Some((g, i)))
    ensures g < |gs| && i < |gs[g]| && 0 < gs[g][i].conns
  {
  }

  /** One connection less on the peer that counted one more. */
  lemma FreedCounts(base: seq<seq<Peer>>, gs: seq<seq<Peer>>, gs': seq<seq<Peer>>, g: nat, i: nat, p: Peer)
    requires Counts(base, gs, Some((g, i)))
    requires SameConfig(gs[g][i], p) && p.conns == gs[g][i].conns - 1 && gs' == gs[g := gs[g][i := p]]
    ensures Counts(base, gs', None) && SameShape(gs, gs')
  {
  }

  lemma StillCounts(base: seq<seq<Peer>>, gs: seq<seq<Peer>>, gs': seq<seq<Peer>>, at: Option<(nat, nat)>)
    requires Counts(base, gs, None) && Counts(gs, gs', at)
    ensures Counts(base, gs', at)
  {
  }

  /** Where the peer got is, for a get at group `depth`. */
  function Where(depth: nat, got: Got): Option<(nat, nat)> {
    if got.Got? then Some((depth + got.depth, got.peer)) else None
  }

  /** What a get over the groups from `depth` on does to all groups. */
  lemma WholeCounts(all: seq<seq<Peer>>, depth: nat, gs': seq<seq<Peer>>, all': seq<seq<Peer>>, got: Got)
    requires depth < |all| == |all'| <= 2 && all'[depth..] == gs' && all'[..depth] == all[..depth]
    requires Counts(all[depth..], gs', Where(0, got))
    requires got.Got? ==> 0 < UpCounts(all[depth..])
    ensures Counts(all, all', Where(depth, got))
    ensures got.Got? ==> 0 < UpCounts(all)
  {
    if depth == 0 {
      assert all[0..] == all && all'[0..] == all';
    } else {
      assert all'[0] == all'[..1][0] == all[..1][0];
      assert all[1] == all[1..][0] && all'[1] == gs'[0];
    }
  }

  /**
   * How the rounds from `k` on ended: each but the last was refused and could be retried, and the
   * last connected, broke, found no peer, or was refused with nothing left to try.
   */
  ghost predicate Ended(outcome: nat -> Attempt, again: nat -> bool, k: nat,
                        end: End, last: nat, busy: bool, tries: nat) {
    && k <= last && (forall j :: k <= j < last ==> outcome(j) == Refused && again(j))
    && match end
       case Proxying => !busy && outcome(last) == Connected
       case Finalized(code) =>
         if busy then code == 502
         else if code == 500 then outcome(last) == Broken
         else code == 502 && outcome(last) == Refused && (tries == 0 || !again(last))
  }

  class Session {
    const balance: Method
    const peer: PeerConnection
    const start: PeerGroup
    ghost var depth: nat
    ghost var attempts: nat

    ghost predicate Valid()
      reads this, peer, start.Arrays()
    {
      && start.Valid() && peer.Valid() && Below(start, peer.group, depth)
      && AllWeighted(start.Chain())
    }

    /** With no tries left before the first get, there is no peer to try. */
    ghost predicate CanTry()
      reads peer, start.Arrays()
    {
      peer.tries == 0 ==> UpCounts(start.Chain()) == 0
    }

    /**
     * The start of a session: it may try as many peers as are up, cut to `next_upstream_tries` if
     * `limit` sets it.
     */
    constructor (balance: Method, start: PeerGroup, limit: nat)
      requires start.Valid() && AllWeighted(start.Chain())
      ensures Valid() && fresh(peer) && fresh(peer.tried) && this.balance == balance && this.start == start
      ensures !peer.held && attempts == 0 && CanTry()
      ensures var up := UpCounts(start.Chain());
        peer.tries == if limit > 0 then Min(up, limit) else up
    {
      var tries := Tries(start);
      if limit > 0 && tries > limit { tries := limit; }
      var rrp := InitRoundRobinPeer(start, tries);
      this.balance, this.start, peer := balance, start, rrp;
      depth, attempts := 0, 0;
    }

    /** Where the held peer is among the groups of the upstream. */
    ghost function HeldAt(): Option<(nat, nat)>
      reads this, peer
    {
      if peer.held then Some((depth, peer.current)) else None
    }

    /** The get of the balancing method. */
    method Choose(now: int) returns (got: Got)
      requires Valid() && !peer.held
      modifies peer, peer.tried, start.Arrays()
      ensures depth == old(depth) && peer.tries == old(peer.tries)
      ensures peer.Valid() && (peer.held <==> got.Got?) && (got.Got? ==> peer.current == got.peer)
      ensures var from := old(peer.group);
        && GetBy(balance, from.single, old(from.Chain()), old(peer.tried[..]), now, got, from.Chain(), peer.tried[..])
        && peer.group == (if (got.Got? && got.depth == 0) || from.next == null then from else from.next)
      ensures depth == 1 ==> start.peers[..] == old(start.peers[..])
    {
      hide GetBy, UpCount, UpCounts, Weighted, AllWeighted;
      ChainPart(start, peer.group, depth);
      match balance
      case ByWeight => got := peer.GetRoundRobinPeer(now);
      case ByConns =>
        PartWeighted(start.Chain(), depth);
        BothWeighted(peer.group, start.Chain()[depth..]);
        got := GetLeastConnPeer(peer, now);
    }

    /** `peer.get`, of round robin or of least_conn. */
    method Get(now: int) returns (got: Got)
      requires Valid() && !peer.held
      modifies this, peer, peer.tried, start.Arrays()
      ensures Valid() && (peer.held <==> got.Got?) && peer.tries == old(peer.tries)
      ensures Counts(old(start.Chain()), start.Chain(), HeldAt())
      ensures attempts == old(attempts) + if got.Got? then 1 else 0
      ensures old(UpCounts(start.Chain())) == 0 ==> got == Busy
    {
      hide GetBy, UpCount, UpCounts, Weighted, AllWeighted, Counts;
      ghost var all, gs := start.Chain(), peer.group.Chain();
      ghost var tried, from := peer.tried[..], peer.group;
      ChainPart(start, from, depth);
      got := Choose(now);
      ChainPart(start, from, depth);
      GetCounts(balance, from.single, gs, tried, now, got, from.Chain(), peer.tried[..]);
      WholeCounts(all, depth, from.Chain(), start.Chain(), got);
      CountsShape(all, start.Chain(), Where(depth, got));
      StillWeighted(all, start.Chain());
      ghost var moved := peer.group != from;
      depth := if got.Got? then depth + got.depth else if moved then depth + 1 else depth;
      if got.Got? { attempts := attempts + 1; }
    }

    /** `peer.free` of the held peer, after which the address is forgotten. */
    method Release(failed: bool, now: int, ghost base: seq<seq<Peer>>)
      requires Valid() && peer.held && Counts(base, start.Chain(), HeldAt())
      modifies peer, start.Arrays()
      ensures Valid() && !peer.held && Counts(base, start.Chain(), HeldAt())
      ensures peer.tries == if peer.group.single || old(peer.tries) == 0 then 0 else old(peer.tries) - 1
    {
      hide Weighted, AllWeighted, Counts, SameShape, UpCounts;
      ChainPart(start, peer.group, depth);
      ghost var gs, i := start.Chain(), peer.current;
      HeldCounts(base, gs, depth, i);
      peer.Free(failed, now);
      FreedCounts(base, gs, start.Chain(), depth, i, start.Chain()[depth][i]);
      StillWeighted(gs, start.Chain());
      peer.held := false;
    }

    /** `ngx_stream_proxy_finalize`: a peer still held is given back. */
    method Finalize(failed: bool, now: int, ghost base: seq<seq<Peer>>)
      requires Valid() && Counts(base, start.Chain(), HeldAt())
      modifies peer, start.Arrays()
      ensures Valid() && !peer.held && Counts(base, start.Chain(), None)
      ensures !old(peer.held) ==> peer.tries == old(peer.tries)
    {
      if peer.held { Release(failed, now, base); }
    }

    /**
     * `ngx_stream_proxy_connect`: `outcome(k)` is what becomes of the connection attempt in round
     * `k`, `clock(k)` the time then and `again(k)` whether configuration and timeout allow another
     * upstream after it.
     */
    method Connect(outcome: nat -> Attempt, clock: nat -> int, again: nat -> bool, k: nat,
                   ghost base: seq<seq<Peer>>) returns (end: End, ghost last: nat, ghost busy: bool)
      requires Valid() && !peer.held && CanTry() && Counts(base, start.Chain(), HeldAt())
      modifies this, peer, peer.tried, start.Arrays()
      decreases peer.tries, 1
      ensures Ended(outcome, again, k, end, last, busy, peer.tries)
      ensures attempts == old(attempts) + (last - k) + if busy then 0 else 1
      ensures Valid() && (peer.held <==> end.Proxying?)
      ensures Counts(base, start.Chain(), HeldAt())
      ensures attempts <= old(attempts) + old(peer.tries)
    {
      ghost var gs := start.Chain();
      var got := Get(clock(k));
      StillCounts(base, gs, start.Chain(), HeldAt());
      if got == Busy {
        Finalize(false, clock(k), base);
        return Finalized(BAD_GATEWAY), k, true;
      }
      match outcome(k)
      case Broken =>
        Finalize(false, clock(k), base);
        end, last, busy := Finalized(INTERNAL_SERVER_ERROR), k, false;
      case Refused => end, last, busy := NextUpstream(outcome, clock, again, k, base);
      case Connected => end, last, busy := Proxying, k, false;
    }

    /** `ngx_stream_proxy_next_upstream`, for a session that holds a peer. */
    method NextUpstream(outcome: nat -> Attempt, clock: nat -> int, again: nat -> bool, k: nat,
                        ghost base: seq<seq<Peer>>) returns (end: End, ghost last: nat, ghost busy: bool)
      requires Valid() && peer.held && Counts(base, start.Chain(), HeldAt()) && outcome(k) == Refused
      modifies this, peer, peer.tried, start.Arrays()
      decreases peer.tries, 0
      ensures Ended(outcome, again, k, end, last, busy, peer.tries)
      ensures attempts == old(attempts) + (last - k) + if busy then -1 else 0
      ensures Valid() && (peer.held <==> end.Proxying?)
      ensures Counts(base, start.Chain(), HeldAt())
      ensures attempts <= old(attempts) + (if old(peer.tries) == 0 then 0 else old(peer.tries) - 1)
    {
      Release(true, clock(k), base);
      if peer.tries == 0 || !again(k) {
        Finalize(false, clock(k), base);
        return Finalized(BAD_GATEWAY), k, false;
      }
      end, last, busy := Connect(outcome, clock, again, k + 1, base);
    }
  }
}
