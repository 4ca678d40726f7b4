/** The peer groups of an upstream, a session's hold on them, and the round robin methods. */
module RoundRobin {
  import opened Peers
  import opened Options

  class PeerGroup {
    const peers: array<Peer>
    const single: bool
    const next: PeerGroup?

    constructor (peers: array<Peer>, single: bool, next: PeerGroup?)
      ensures this.peers == peers && this.single == single && this.next == next
    {
      this.peers, this.single, this.next := peers, single, next;
    }

    /** At most one backup group, with peers of its own; a single peer has no backup. */
    ghost predicate Valid() {
      && (next != null ==> next.next == null && next.peers != peers && !next.single)
      && (single ==> peers.Length == 1 && next == null)
    }

    function Depth(): nat { if next == null then 0 else 1 }

    ghost function Arrays(): set<object> {
      {peers as object} + if next == null then {} else {next.peers as object}
    }

    /** The peers of this group and of its backup. */
    ghost function Chain(): (r: seq<seq<Peer>>)
      reads Arrays()
      ensures |r| == 1 + Depth()
    {
      if next == null then [peers[..]] else [peers[..], next.peers[..]]
    }
  }

  /** The peers the balancer may take: untried and usable. */
  function Wanted(ps: seq<Peer>, tried: seq<Word>, now: int): (r: seq<bool>)
    ensures |r| == |ps|
    ensures forall i :: 0 <= i < |ps| ==> r[i] == (!IsTried(tried, i) && Usable(ps[i], now))
  {
    seq(|ps|, i requires 0 <= i < |ps| => !IsTried(tried, i) && Usable(ps[i], now))
  }

  /** One more connection to peer `b`. */
  function Connected(ps: seq<Peer>, b: nat): seq<Peer>
    requires b < |ps|
  {
    ps[b := ps[b].(conns := ps[b].conns + 1)]
  }

  // ----- the outcome of a get over the current group and its backup -----

  /** `Got(d, b)`: peer `b` of the current group (`d` = 0) or of the backup group (`d` = 1). */
  datatype Got = Busy | Got(depth: nat, peer: nat)

  /** The methods that choose by a scan of the whole group. */
  datatype Method = ByWeight | ByConns

  /** A peer that is the only one is taken unless it is down or full. */
  predicate SingleUsable(p: Peer) { !p.down && !Full(p) }

  predicate LessLoaded(p: Peer, q: Peer) { p.conns * q.weight < q.conns * p.weight }

  predicate SameLoad(p: Peer, q: Peer) { p.conns * q.weight == q.conns * p.weight }

  /** No peer that may be taken has fewer connections per unit of weight. */
  ghost predicate LeastLoaded(ps: seq<Peer>, want: seq<bool>, b: nat)
    requires |ps| == |want|
  {
    b < |ps| && want[b] && forall j :: 0 <= j < |ps| && want[j] ==> !LessLoaded(ps[j], ps[b])
  }

  /** The peers that may be taken and are loaded exactly like peer `b`. */
  function Ties(ps: seq<Peer>, want: seq<bool>, b: nat): (r: seq<bool>)
    requires b < |ps| == |want|
    ensures |r| == |ps|
    ensures forall j :: 0 <= j < |ps| ==> r[j] == (want[j] && SameLoad(ps[j], ps[b]))
  {
    seq(|ps|, j requires 0 <= j < |ps| => want[j] && SameLoad(ps[j], ps[b]))
  }

  ghost predicate OnlyOne(want: seq<bool>, b: nat) {
    forall j :: 0 <= j < |want| && want[j] ==> j == b
  }

  /** What a method's scan of one group of several peers does when it takes peer `b`. */
  ghost predicate Takes(m: Method, ps: seq<Peer>, want: seq<bool>, b: nat, now: int, qs: seq<Peer>)
    requires |ps| == |want|
  {
    match m
    case ByWeight => IsBest(ps, want, b) && qs == WeightedPick(ps, want, b, now)
    case ByConns =>
      && LeastLoaded(ps, want, b)
      && var ties := Ties(ps, want, b);
        if OnlyOne(ties, b) then qs == PlainPick(ps, b, now)
        else IsBest(ps, ties, b) && qs == WeightedPick(ps, ties, b, now)
  }

  /** A get by method `m`: the groups, the bitset and the outcome, before and after. */
  ghost predicate GetBy(m: Method, single: bool, gs: seq<seq<Peer>>, tried: seq<Word>, now: int,
                        got: Got, gs': seq<seq<Peer>>, tried': seq<Word>)
    decreases |gs|
  {
    && 0 < |gs| == |gs'|
    && if single then
        && |gs| == 1 && |gs[0]| == 1 && tried' == tried
        && (if SingleUsable(gs[0][0]) then got == Got(0, 0) && gs' == [Connected(gs[0], 0)]
            else got == Busy && gs' == gs)
      else
        var want := Wanted(gs[0], tried, now);
        if !NoneWanted(want) then
          && got.Got? && got.depth == 0
          && Takes(m, gs[0], want, got.peer, now, gs'[0]) && gs'[1..] == gs[1..]
          && got.peer / WORD_BITS < |tried| && tried' == Mark(tried, got.peer)
        else if |gs| == 1 then
          got == Busy && gs' == gs && tried' == tried
        else
          && gs'[0] == gs[0] && InBitset(tried, |gs[1]|)
          && (got.Got? ==> 0 < got.depth)
          && GetBy(m, false, gs[1..], Cleared(tried, |gs[1]|), now,
                   if got.Got? then Got(got.depth - 1, got.peer) else Busy, gs'[1..], tried')
  }

  /** A session's peer connection: the group it takes peers from, what it has tried and what it holds. */
  class PeerConnection {
    var group: PeerGroup
    var current: nat
    const tried: array<Word>
    var tries: nat
    var held: bool

    constructor (group: PeerGroup, words: nat, tries: nat)
      ensures this.group == group && fresh(tried) && tried.Length == words && this.tries == tries && !held
      ensures forall i :: 0 <= i < words ==> tried[i] == {}
    {
      this.group, current := group, 0;
      this.tries, held := tries, false;
      tried := new Word[words](_ => {});
    }

    ghost function Footprint(): set<object>
      reads `group
    {
      {tried as object} + group.Arrays()
    }

    ghost predicate Valid()
      reads this
    {
      && group.Valid()
      && WordsFor(group.peers.Length) <= tried.Length
      && (group.next != null ==> WordsFor(group.next.peers.Length) <= tried.Length)
    }

    lemma InRange()
      requires Valid()
      ensures InBitset(tried[..], group.peers.Length)
    {
    }

    /** The loop of get_peer: every wanted peer gains its effective weight, and the best of them is found. */
    method Sweep(now: int) returns (best: Option<nat>, total: int)
      requires Valid()
      modifies group.peers
      ensures var ps := old(group.peers[..]);
        var want := Wanted(ps, tried[..], now);
        && BestAmong(ps, want, |ps|, best)
        && group.peers[..] == BumpAll(ps, want) && total == Share(ps, want, |ps|)
      ensures tried[..] == old(tried[..])
      ensures var ps, want := old(group.peers[..]), Wanted(old(group.peers[..]), tried[..], now);
        forall i :: 0 <= i < |ps| && want[i] ==>
          && group.peers[i].current == ps[i].current + ps[i].effective
          && group.peers[i].effective == if ps[i].effective < ps[i].weight then ps[i].effective + 1 else ps[i].effective
    {
      hide *;
      var a := group.peers;
      ghost var ps, marks := a[..], tried[..];
      ghost var want := Wanted(ps, marks, now);
      best, total := None, 0;
      SweepBegin(ps, want);
      InRange();
      for i := 0 to a.Length
        invariant tried[..] == marks && Sweeping(a[..], ps, want, i, best, total)
      {
        ghost var qs := a[..];
        SweepTurn(qs, ps, want, i, best, total);
        SweepTests(ps, marks, i, now);
        var peer := a[i];
        if i % WORD_BITS in tried[i / WORD_BITS] { continue; }
        if peer.down || Resting(peer, now) || Full(peer) { continue; }
        a[i] := Bump(peer);
        assert a[..] == qs[i := Bump(peer)];
        total := total + peer.effective;
        if best == None || a[i].current > a[best.value].current { best := Some(i); }
      }
      SweepEnd(a[..], ps, want, best, total);
      SweptWeights(ps, want);
    }

    /** Sets the bit of peer `p`. */
    method MarkTried(p: nat)
      requires p / WORD_BITS < tried.Length
      modifies tried
      ensures tried[..] == Mark(old(tried[..]), p)
    {
      tried[p / WORD_BITS] := tried[p / WORD_BITS] + {p % WORD_BITS};
    }

    /** `ngx_stream_upstream_get_peer`: the smooth weighted round robin choice in one group. */
    method GetPeer(now: int) returns (chosen: Option<nat>)
      requires Valid()
      modifies group.peers, tried, `current
      ensures group == old(group)
      ensures var ps := old(group.peers[..]);
        var want := Wanted(ps, old(tried[..]), now);
        match chosen
        case None => NoneWanted(want) && group.peers[..] == ps && tried[..] == old(tried[..])
        case Some(b) =>
          && IsBest(ps, want, b) && current == b
          && b / WORD_BITS < tried.Length && tried[..] == Mark(old(tried[..]), b)
          && Connected(group.peers[..], b) == WeightedPick(ps, want, b, now)
    {
      var a := group.peers;
      ghost var ps, want := a[..], Wanted(a[..], tried[..], now);
      var best, total := Sweep(now);
      if best == None { return None; }
      var p := best.value;
      current := p;
      WordInside(tried[..], a.Length, p);
      MarkTried(p);
      a[p] := a[p].(current := a[p].current - total);
      a[p] := a[p].(checked := Touched(a[p], now));
      chosen := best;
    }

    /** The one-way switch to the backup group, whose part of the bitset starts clear. */
    method SwitchToBackup()
      requires Valid() && group.next != null
      modifies `group, tried
      ensures Valid() && group == old(group).next
      ensures tried[..] == Cleared(old(tried[..]), group.peers.Length)
    {
      group := group.next;
      var n := WordsFor(group.peers.Length);
      for i := 0 to n
        invariant forall k :: 0 <= k < i ==> tried[k] == {}
        invariant forall k :: i <= k < tried.Length ==> tried[k] == old(tried[k])
        invariant group == old(group).next
      {
        tried[i] := {};
      }
    }

    /** `ngx_stream_upstream_get_round_robin_peer`. */
    method GetRoundRobinPeer(now: int) returns (got: Got)
      requires Valid()
      modifies `group, `current, `held, tried, group.Arrays()
      decreases group.Depth()
      ensures Valid()
      ensures GetBy(ByWeight, old(group).single, old(group.Chain()), old(tried[..]), now, got,
                    old(group).Chain(), tried[..])
      ensures got.Got? ==> held && current == got.peer
      ensures got == Busy ==> held == old(held)
      ensures group == if (got.Got? && got.depth == 0) || old(group).next == null then old(group) else old(group).next
    {
      hide WeightedPick, Mark, Cleared, Full, Share, Bump, BumpAll, Touched;
      var g := group;
      ghost var gs, marks := g.Chain(), tried[..];
      got := Busy;
      if g.single {
        if !g.peers[0].down && !Full(g.peers[0]) {
          current := 0;
          got := Got(0, 0);
        }
      } else {
        var chosen := GetPeer(now);
        if chosen.Some? { got := Got(0, chosen.value); }
      }
      if got.Got? {
        held := true;
        g.peers[current] := g.peers[current].(conns := g.peers[current].conns + 1);
        return;
      }
      if g.next != null {
        SwitchToBackup();
        var later := GetRoundRobinPeer(now);
        if later.Got? { got := Got(later.depth + 1, later.peer); }
      }
    }

    /** `ngx_stream_upstream_free_round_robin_peer`; only called for a peer the session holds. */
    method Free(failed: bool, now: int)
      requires current < group.peers.Length && 0 < group.peers[current].conns
      modifies group.peers, `tries
      ensures group.peers[..] ==
              old(group.peers[..])[current := Released(old(group.peers[current]), group.single, failed, now)]
      ensures tries == if group.single || old(tries) == 0 then 0 else old(tries) - 1
      ensures var p, q := old(group.peers[current]), group.peers[current];
        && q.conns == p.conns - 1 && q.current == p.current && SameConfig(p, q)
        && (group.single ==>
              q.fails == p.fails && q.accessed == p.accessed && q.checked == p.checked && q.effective == p.effective)
        && (!group.single && failed ==>
              && q.fails == p.fails + 1 && q.accessed == q.checked == now
              && var e := p.effective - if p.maxFails > 0 then p.weight / p.maxFails else 0;
                q.effective == if e < 0 then 0 else e)
        && (!group.single && !failed ==>
              && q.fails == (if p.accessed < p.checked then 0 else p.fails)
              && q.accessed == p.accessed && q.checked == p.checked && q.effective == p.effective)
      ensures forall i :: 0 <= i < group.peers.Length && i != current ==> group.peers[i] == old(group.peers[i])
    {
      var a := group.peers;
      if group.single {
        a[current] := a[current].(conns := a[current].conns - 1);
        tries := 0;
        return;
      }
      if failed {
        var peer := a[current];
        var effective := peer.effective;
        if peer.maxFails > 0 { effective := effective - peer.weight / peer.maxFails; }
        if effective < 0 { effective := 0; }
        a[current] := peer.(fails := peer.fails + 1, accessed := now, checked := now, effective := effective);
      } else if a[current].accessed < a[current].checked {
        a[current] := a[current].(fails := 0);
      }
      a[current] := a[current].(conns := a[current].conns - 1);
      if tries > 0 { tries := tries - 1; }
    }

    /** `ngx_stream_upstream_notify_round_robin_peer` for an established stream connection. */
    method NotifyConnect()
      requires current < group.peers.Length
      modifies group.peers
      ensures group.peers[..] == old(group.peers[..])[current := Revived(old(group.peers[current]))]
      ensures var p, q := old(group.peers[current]), group.peers[current];
        q == p.(fails := if p.accessed < p.checked then 0 else p.fails)
    {
      var a := group.peers;
      if a[current].accessed < a[current].checked {
        a[current] := a[current].(fails := 0);
      }
    }
  }

  /** `ngx_stream_upstream_init_round_robin_peer`: one bitset, large enough for either group, and empty. */
  method InitRoundRobinPeer(group: PeerGroup, tries: nat) returns (rrp: PeerConnection)
    requires group.Valid()
    ensures fresh(rrp) && fresh(rrp.tried) && rrp.Valid()
    ensures rrp.group == group && rrp.tries == tries && !rrp.held
    ensures forall i :: 0 <= i < rrp.tried.Length ==> rrp.tried[i] == {}
  {
    var n := group.peers.Length;
    if group.next != null && group.next.peers.Length > n { n := group.next.peers.Length; }
    var words := 1;
    if n > WORD_BITS { words := (n + (WORD_BITS - 1)) / WORD_BITS; }
    rrp := new PeerConnection(group, words, tries);
  }
}
