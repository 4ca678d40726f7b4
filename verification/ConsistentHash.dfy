/** The consistent hash get: smooth round robin among the peers of the server the key lands on. */
module ConsistentHash {
  import opened Peers
  import opened RoundRobin
  import opened Choosers
  import opened HashRing
  import opened Probing
  import opened Options

  /** The peers of one server that may be taken. */
  function Matching(ps: seq<Peer>, want: seq<bool>, server: nat): (r: seq<bool>)
    requires |ps| == |want|
    ensures |r| == |ps|
    ensures forall i :: 0 <= i < |ps| ==> r[i] == (want[i] && ps[i].server == server)
  {
    seq(|ps|, i requires 0 <= i < |ps| => want[i] && ps[i].server == server)
  }

  /** The server of the ring point number `k` steps on from `hash`. */
  function ServerAt(ring: seq<Point>, hash: nat): nat
    requires 0 < |ring|
  {
    ring[hash % |ring|].server
  }

  /** The session keeps its ring position in 32 bits. */
  const WRAP := 0x1_0000_0000

  class ChashState {
    var tries: nat
    var hash: nat
    const keyed: bool
    const points: array<Point>
    const number: nat

    /** The session's point starts at the lower bound of its key's hash. */
    constructor (points: array<Point>, number: nat, keyed: bool, keyHash: nat)
      requires number <= points.Length && Increasing(points[..number])
      ensures this.points == points && this.number == number && this.keyed == keyed && tries == 0
      ensures hash == LowerBound(points[..number], keyHash) % WRAP
    {
      this.points, this.number, this.keyed := points, number, keyed;
      tries := 0;
      var i := FindPoint(points, number, keyHash);
      hash := i % WRAP;
    }

    ghost predicate Valid()
      reads points
    {
      0 < number <= points.Length
    }

    ghost function Ring(): (r: seq<Point>)
      requires Valid()
      reads points
      ensures 0 < |r|
    {
      points[..number]
    }

    method CurrentServer() returns (server: nat)
      requires Valid()
      ensures server == ServerAt(Ring(), hash)
    {
      server := points[hash % number].server;
    }
  }

  lemma SmallRest(k: nat, n: nat)
    requires k < n
    ensures k % n == k
  {
  }

  /** The first place a session looks at is the owner of its key. */
  lemma StartsAtOwner(ring: seq<Point>, keyHash: nat)
    requires 0 < |ring| < WRAP
    ensures ServerAt(ring, LowerBound(ring, keyHash) % WRAP) == OwnerPoint(ring, keyHash).server
  {
    hide LowerBound;
    SmallRest(LowerBound(ring, keyHash), WRAP);
  }

  /** The sweep over the peers of one server. */
  method SweepServer(pc: PeerConnection, server: nat, now: int) returns (best: Option<nat>, total: int)
    requires pc.Valid()
    modifies pc.group.peers
    ensures var ps := old(pc.group.peers[..]);
      var want := Matching(ps, Wanted(ps, pc.tried[..], now), server);
      && BestAmong(ps, want, |ps|, best)
      && pc.group.peers[..] == BumpAll(ps, want) && total == Share(ps, want, |ps|)
    ensures pc.tried[..] == old(pc.tried[..])
  {
    hide *;
    var a := pc.group.peers;
    ghost var ps, marks := a[..], pc.tried[..];
    ghost var want := Matching(ps, Wanted(ps, marks, now), server);
    best, total := None, 0;
    SweepBegin(ps, want);
    pc.InRange();
    for i := 0 to a.Length
      invariant pc.tried[..] == marks && Sweeping(a[..], ps, want, i, best, total)
    {
      ghost var qs := a[..];
      SweepTurn(qs, ps, want, i, best, total);
      SweepTests(ps, marks, i, now);
      var peer := a[i];
      if i % WORD_BITS in pc.tried[i / WORD_BITS] { continue; }
      if peer.down || Resting(peer, now) || Full(peer) || peer.server != server { continue; }
      a[i] := Bump(peer);
      assert a[..] == qs[i := Bump(peer)];
      total := total + peer.effective;
      if best == None || a[i].current > a[best.value].current { best := Some(i); }
    }
    SweepEnd(a[..], ps, want, best, total);
  }

  /** A get that took a peer of the server at ring position `hash`. */
  ghost predicate RingGet(gs: seq<seq<Peer>>, tried: seq<Word>, now: int, server: nat,
                          b: nat, gs': seq<seq<Peer>>, tried': seq<Word>) {
    && 0 < |gs| == |gs'| && b / WORD_BITS < |tried|
    && var want := Matching(gs[0], Wanted(gs[0], tried, now), server);
      && IsBest(gs[0], want, b)
      && gs'[0] == WeightedPick(gs[0], want, b, now)
      && gs'[1..] == gs[1..] && tried' == Mark(tried, b)
  }

  /** The position `k` steps on. */
  function Place(start: nat, k: nat): nat { (start + k) % WRAP }

  /** No peer of the servers at the `n` ring positions from `start` on may be taken. */
  ghost predicate AllBusy(ps: seq<Peer>, want: seq<bool>, ring: seq<Point>, start: nat, n: nat)
    requires |ps| == |want| && 0 < |ring|
  {
    forall k: nat :: k < n ==> NoneWanted(Matching(ps, want, ServerAt(ring, Place(start, k))))
  }

  lemma NextPlace(start: nat, k: nat)
    requires start < WRAP
    ensures Place(start, 0) == start && Place(start, k + 1) == (Place(start, k) + 1) % WRAP < WRAP
  {
  }

  lemma NotYetBusy(ps: seq<Peer>, want: seq<bool>, ring: seq<Point>, start: nat)
    requires |ps| == |want| && 0 < |ring|
    ensures AllBusy(ps, want, ring, start, 0)
  {
  }

  lemma NoneSwept(ps: seq<Peer>, want: seq<bool>)
    requires |ps| == |want| && BestAmong(ps, want, |ps|, None)
    ensures NoneWanted(want) && BumpAll(ps, want) == ps
  {
  }

  lemma OneMoreBusy(ps: seq<Peer>, want: seq<bool>, ring: seq<Point>, start: nat, n: nat)
    requires |ps| == |want| && 0 < |ring| && AllBusy(ps, want, ring, start, n)
    requires var some := Matching(ps, want, ServerAt(ring, Place(start, n))); BestAmong(ps, some, |ps|, None)
    ensures AllBusy(ps, want, ring, start, n + 1)
    ensures BumpAll(ps, Matching(ps, want, ServerAt(ring, Place(start, n)))) == ps
  {
    NoneSwept(ps, Matching(ps, want, ServerAt(ring, Place(start, n))));
  }

  /** Settling on the best peer of a server. */
  method TakeSwept(pc: PeerConnection, ghost ps: seq<Peer>, ghost want: seq<bool>, b: nat, total: int, now: int)
    requires pc.Valid() && |ps| == |want| == pc.group.peers.Length && b < |ps|
    requires pc.group.peers[..] == BumpAll(ps, want) && total == Share(ps, want, |ps|)
    modifies pc.group.peers, pc.tried, pc`current, pc`held
    ensures pc.group.peers[..] == WeightedPick(ps, want, b, now)
    ensures b / WORD_BITS < pc.tried.Length && pc.tried[..] == Mark(old(pc.tried[..]), b)
    ensures pc.current == b && pc.held
  {
    hide Share;
    var a := pc.group.peers;
    WordInside(pc.tried[..], a.Length, b);
    a[b] := a[b].(current := a[b].current - total);
    pc.current := b;
    pc.held := true;
    a[b] := a[b].(conns := a[b].conns + 1);
    if now - a[b].checked > a[b].failTimeout { a[b] := a[b].(checked := now); }
    pc.MarkTried(b);
  }

  lemma BestInside(ps: seq<Peer>, want: seq<bool>, b: nat)
    requires |ps| == |want| && BestAmong(ps, want, |ps|, Some(b))
    ensures b < |ps| && IsBest(ps, want, b)
  {
  }

  /** The loop over ring positions: the first whose server has a peer that may be taken. */
  method Walk(pc: PeerConnection, hp: ChashState, now: int) returns (best: Option<nat>, total: int)
    requires pc.Valid() && hp.Valid() && hp.tries <= MAX_TRIES && hp.hash < WRAP
    modifies hp, pc.group.peers
    ensures pc.tried[..] == old(pc.tried[..]) && hp.hash < WRAP && old(hp.tries) <= hp.tries
    ensures hp.hash == Place(old(hp.hash), hp.tries - old(hp.tries))
    ensures best.Some? <==> hp.tries <= MAX_TRIES
    ensures var ps := old(pc.group.peers[..]);
      var want := Wanted(ps, pc.tried[..], now);
      && AllBusy(ps, want, hp.Ring(), old(hp.hash), hp.tries - old(hp.tries))
      && match best
        case None => pc.group.peers[..] == ps
        case Some(b) =>
          var some := Matching(ps, want, ServerAt(hp.Ring(), hp.hash));
          && b < |ps| && IsBest(ps, some, b)
          && pc.group.peers[..] == BumpAll(ps, some) && total == Share(ps, some, |ps|)
  {
    hide *;
    ghost var ps, marks := pc.group.peers[..], pc.tried[..];
    ghost var want, ring := Wanted(ps, marks, now), hp.Ring();
    NotYetBusy(ps, want, ring, hp.hash);
    NextPlace(hp.hash, 0);
    while true
      invariant pc.group.peers[..] == ps && pc.tried[..] == marks
      invariant old(hp.tries) <= hp.tries <= MAX_TRIES && hp.hash < WRAP
      invariant hp.hash == Place(old(hp.hash), hp.tries - old(hp.tries))
      invariant AllBusy(ps, want, ring, old(hp.hash), hp.tries - old(hp.tries))
      decreases MAX_TRIES - hp.tries
    {
      var server := hp.CurrentServer();
      best, total := SweepServer(pc, server, now);
      if best.Some? { BestInside(ps, Matching(ps, want, server), best.value); return; }
      OneMoreBusy(ps, want, ring, old(hp.hash), hp.tries - old(hp.tries));
      NextPlace(old(hp.hash), hp.tries - old(hp.tries));
      hp.hash := (hp.hash + 1) % WRAP;
      hp.tries := hp.tries + 1;
      if hp.tries > MAX_TRIES { return; }
    }
  }

  /** `ngx_stream_upstream_get_chash_peer`. */
  method GetChashPeer(pc: PeerConnection, hp: ChashState, now: int) returns (got: Got)
    requires pc.Valid() && hp.Valid() && hp.hash < WRAP
    modifies pc`group, pc`current, pc`held, pc.tried, pc.group.Arrays(), hp
    ensures pc.Valid() && hp.hash < WRAP && old(hp.tries) <= hp.tries
    ensures got.Got? ==> pc.held && pc.current == got.peer
    ensures got == Busy ==> pc.held == old(pc.held)
    ensures hp.hash == Place(old(hp.hash), hp.tries - old(hp.tries))
    ensures var ps := old(pc.group.peers[..]);
      AllBusy(ps, Wanted(ps, old(pc.tried[..]), now), hp.Ring(), old(hp.hash), hp.tries - old(hp.tries))
    ensures
      if hp.tries <= 20 && !old(pc.group).single && hp.keyed then
        got.Got? && got.depth == 0 &&
        RingGet(old(pc.group.Chain()), old(pc.tried[..]), now, ServerAt(hp.Ring(), hp.hash), got.peer,
                old(pc.group).Chain(), pc.tried[..])
      else
        GetBy(ByWeight, old(pc.group).single, old(pc.group.Chain()), old(pc.tried[..]), now, got,
              old(pc.group).Chain(), pc.tried[..])
  {
    hide Wanted, Share, BumpAll, BestAmong, Matching, GetBy;
    if hp.tries > MAX_TRIES || pc.group.single || !hp.keyed {
      got := pc.GetRoundRobinPeer(now);
      return;
    }
    ghost var ps, marks := pc.group.peers[..], pc.tried[..];
    var best, total := Walk(pc, hp, now);
    if best == None {
      got := pc.GetRoundRobinPeer(now);
    } else {
      TakeSwept(pc, ps, Matching(ps, Wanted(ps, marks, now), ServerAt(hp.Ring(), hp.hash)), best.value, total, now);
      got := Got(0, best.value);
    }
  }
}
