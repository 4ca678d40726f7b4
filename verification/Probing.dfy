/**
 * The methods that probe single peers, falling back to round robin after 20 misses:
 * hash by a weighted residue of the key, and random with one or two draws.
 */
module Probing {
  import opened Peers
  import opened RoundRobin
  import opened Choosers
  import opened Options

  const MAX_TRIES := 20

  /** A get that took peer `b` of the current group by probing. */
  ghost predicate ProbedGet(gs: seq<seq<Peer>>, tried: seq<Word>, now: int,
                            b: nat, gs': seq<seq<Peer>>, tried': seq<Word>) {
    && 0 < |gs| == |gs'| && b < |gs[0]| && b / WORD_BITS < |tried|
    && Wanted(gs[0], tried, now)[b]
    && gs'[0] == PlainPick(gs[0], b, now) && gs'[1..] == gs[1..] && tried' == Mark(tried, b)
  }

  /** What the end of a probing get does to the peer it settled on. */
  method TakeProbed(pc: PeerConnection, b: nat, now: int)
    requires pc.Valid() && b < pc.group.peers.Length
    requires Wanted(pc.group.peers[..], pc.tried[..], now)[b]
    modifies pc.group.peers, pc.tried, pc`current, pc`held
    ensures ProbedGet(old(pc.group.Chain()), old(pc.tried[..]), now, b, pc.group.Chain(), pc.tried[..])
    ensures pc.current == b && pc.held
  {
    WordInside(pc.tried[..], pc.group.peers.Length, b);
    var a := pc.group.peers;
    pc.current := b;
    if now - a[b].checked > a[b].failTimeout { a[b] := a[b].(checked := now); }
    pc.held := true;
    a[b] := a[b].(conns := a[b].conns + 1);
    pc.MarkTried(b);
  }

  // ----- hash -----

  /**
   * The running hash after `k` probes, modulo 2^32; `h(r)` is the 15-bit value that probe number
   * `r` takes from the checksum of the rehash number and the key.
   */
  function RunningHash(h: nat -> nat, k: nat): nat {
    if k == 0 then 0 else (RunningHash(h, k - 1) + h(k - 1)) % 0x1_0000_0000
  }

  /** The peer that probe number `r` looks at: the owner of the running hash's residue. */
  function Candidate(ps: seq<Peer>, h: nat -> nat, r: nat): (p: nat)
    requires 0 < TotalWeight(ps, |ps|)
    ensures p < |ps|
  {
    OwnerOf(ps, |ps|, RunningHash(h, r + 1) % TotalWeight(ps, |ps|))
  }

  /** Probes `from` to `to` all hit peers that may not be taken. */
  ghost predicate Misses(ps: seq<Peer>, want: seq<bool>, h: nat -> nat, from: nat, to: nat)
    requires |want| == |ps| && 0 < TotalWeight(ps, |ps|)
  {
    forall r: nat :: from <= r < to ==> !want[Candidate(ps, h, r)]
  }

  class HashState {
    var tries: nat
    var rehash: nat
    var hash: nat
    const keyed: bool

    constructor (keyed: bool)
      ensures tries == 0 && rehash == 0 && hash == 0 && this.keyed == keyed
    {
      tries, rehash, hash := 0, 0, 0;
      this.keyed := keyed;
    }
  }

  lemma NoMisses(ps: seq<Peer>, want: seq<bool>, h: nat -> nat, r: nat)
    requires |want| == |ps| && 0 < TotalWeight(ps, |ps|)
    ensures Misses(ps, want, h, r, r)
  {
  }

  lemma OneMoreMiss(ps: seq<Peer>, want: seq<bool>, h: nat -> nat, from: nat, r: nat)
    requires |want| == |ps| && 0 < TotalWeight(ps, |ps|)
    requires Misses(ps, want, h, from, r) && !want[Candidate(ps, h, r)]
    ensures Misses(ps, want, h, from, r + 1)
  {
  }

  /** One probe: the hash moves on, and the owner of its residue is looked at. */
  method ProbeOnce(pc: PeerConnection, hp: HashState, h: nat -> nat, now: int, total: nat)
    returns (p: nat, usable: bool)
    requires pc.Valid() && 0 < total == TotalWeight(pc.group.peers[..], pc.group.peers.Length)
    requires hp.hash == RunningHash(h, hp.rehash)
    modifies hp`hash, hp`rehash
    ensures hp.rehash == old(hp.rehash) + 1 && hp.hash == RunningHash(h, hp.rehash)
    ensures var ps := pc.group.peers[..];
      p == Candidate(ps, h, old(hp.rehash)) && usable == Wanted(ps, pc.tried[..], now)[p]
    ensures hp.hash == (old(hp.hash) + h(old(hp.rehash))) % 0x1_0000_0000
    ensures TotalWeight(pc.group.peers[..], p) <= hp.hash % total < TotalWeight(pc.group.peers[..], p + 1)
  {
    hide TotalWeight;
    var a := pc.group.peers;
    hp.hash := (hp.hash + h(hp.rehash)) % 0x1_0000_0000;
    hp.rehash := hp.rehash + 1;
    p := SubtractAndWalk(a, hp.hash % total);
    OneOwner(a[..], p, Candidate(a[..], h, hp.rehash - 1), hp.hash % total);
    WordInside(pc.tried[..], a.Length, p);
    usable := p % WORD_BITS !in pc.tried[p / WORD_BITS] && !a[p].down && !Resting(a[p], now) && !Full(a[p]);
  }

  method TotalOf(peers: array<Peer>) returns (total: nat)
    ensures total == TotalWeight(peers[..], peers.Length)
  {
    ghost var ps := peers[..];
    total := 0;
    for i := 0 to peers.Length
      invariant total == TotalWeight(ps, i)
    {
      total := total + peers[i].weight;
    }
  }

  /** The loop of the hash method: the first probe that hits a peer that may be taken. */
  method Probe(pc: PeerConnection, hp: HashState, h: nat -> nat, now: int) returns (found: Option<nat>)
    requires pc.Valid() && 0 < TotalWeight(pc.group.peers[..], pc.group.peers.Length)
    requires hp.hash == RunningHash(h, hp.rehash) && hp.tries <= MAX_TRIES
    modifies hp
    ensures hp.hash == RunningHash(h, hp.rehash) && old(hp.rehash) < hp.rehash
    ensures found.Some? <==> hp.tries <= MAX_TRIES
    ensures var ps := pc.group.peers[..];
      var want := Wanted(ps, pc.tried[..], now);
      match found
      case Some(p) =>
        && p == Candidate(ps, h, hp.rehash - 1) && want[p]
        && Misses(ps, want, h, old(hp.rehash), hp.rehash - 1)
      case None => Misses(ps, want, h, old(hp.rehash), hp.rehash)
  {
    hide *;
    var total := TotalOf(pc.group.peers);
    ghost var ps := pc.group.peers[..];
    ghost var want := Wanted(ps, pc.tried[..], now);
    NoMisses(ps, want, h, hp.rehash);
    while true
      invariant hp.tries <= MAX_TRIES && old(hp.rehash) <= hp.rehash && hp.hash == RunningHash(h, hp.rehash)
      invariant Misses(ps, want, h, old(hp.rehash), hp.rehash)
      decreases MAX_TRIES - hp.tries
    {
      var p, usable := ProbeOnce(pc, hp, h, now, total);
      if usable { return Some(p); }
      OneMoreMiss(ps, want, h, old(hp.rehash), hp.rehash - 1);
      hp.tries := hp.tries + 1;
      if hp.tries > MAX_TRIES { return None; }
    }
  }

  /** `ngx_stream_upstream_get_hash_peer`. */
  method GetHashPeer(pc: PeerConnection, hp: HashState, h: nat -> nat, now: int) returns (got: Got)
    requires pc.Valid() && 0 < TotalWeight(pc.group.peers[..], pc.group.peers.Length)
    requires hp.hash == RunningHash(h, hp.rehash)
    modifies pc`group, pc`current, pc`held, pc.tried, pc.group.Arrays(), hp
    ensures pc.Valid() && hp.hash == RunningHash(h, hp.rehash) && old(hp.rehash) <= hp.rehash
    ensures got.Got? ==> pc.held && pc.current == got.peer
    ensures got == Busy ==> pc.held == old(pc.held)
    ensures var ps := old(pc.group.peers[..]);
      var want := Wanted(ps, old(pc.tried[..]), now);
      if old(hp.rehash) < hp.rehash && hp.tries <= 20 then
        && got == Got(0, Candidate(ps, h, hp.rehash - 1))
        && Misses(ps, want, h, old(hp.rehash), hp.rehash - 1)
        && ProbedGet(old(pc.group.Chain()), old(pc.tried[..]), now, got.peer, old(pc.group).Chain(), pc.tried[..])
      else
        && Misses(ps, want, h, old(hp.rehash), hp.rehash)
        && GetBy(ByWeight, old(pc.group).single, old(pc.group.Chain()), old(pc.tried[..]), now, got,
                 old(pc.group).Chain(), pc.tried[..])
  {
    hide GetBy, ProbedGet, Candidate, TotalWeight;
    if hp.tries > MAX_TRIES || pc.group.single || !hp.keyed {
      got := pc.GetRoundRobinPeer(now);
      return;
    }
    var found := Probe(pc, hp, h, now);
    if found.Some? {
      TakeProbed(pc, found.value, now);
      got := Got(0, found.value);
    } else {
      got := pc.GetRoundRobinPeer(now);
    }
  }

  // ----- random -----

  /** `draws(r)` is the r-th random number the session draws. */
  function Drawn(ps: seq<Peer>, draws: nat -> nat, r: nat): (p: nat)
    requires 0 < TotalWeight(ps, |ps|)
    ensures p < |ps|
  {
    OwnerOf(ps, |ps|, draws(r) % TotalWeight(ps, |ps|))
  }

  class RandomState {
    var tries: nat
    var drawn: nat
    const ranges: array<nat>

    constructor (ranges: array<nat>)
      ensures tries == 0 && drawn == 0 && this.ranges == ranges
    {
      tries, drawn := 0, 0;
      this.ranges := ranges;
    }

    ghost predicate Covers(ps: seq<Peer>)
      reads ranges
    {
      ranges.Length == |ps| && forall k :: 0 <= k < |ps| ==> ranges[k] == TotalWeight(ps, k)
    }
  }

  /** One draw, and whether the peer it hits may be taken. */
  method DrawOnce(pc: PeerConnection, rp: RandomState, draws: nat -> nat, now: int, total: nat)
    returns (p: nat, usable: bool)
    requires pc.Valid() && rp.Covers(pc.group.peers[..])
    requires 0 < total == TotalWeight(pc.group.peers[..], pc.group.peers.Length)
    modifies rp`drawn
    ensures rp.drawn == old(rp.drawn) + 1
    ensures var ps := pc.group.peers[..];
      p == Drawn(ps, draws, old(rp.drawn)) && usable == Wanted(ps, pc.tried[..], now)[p]
  {
    hide TotalWeight, Owns;
    var a := pc.group.peers;
    p := SearchRanges(rp.ranges, a[..], draws(rp.drawn) % total);
    OneOwner(a[..], p, Drawn(a[..], draws, rp.drawn), draws(rp.drawn) % total);
    rp.drawn := rp.drawn + 1;
    WordInside(pc.tried[..], a.Length, p);
    usable := p % WORD_BITS !in pc.tried[p / WORD_BITS] && !a[p].down && !Resting(a[p], now) && !Full(a[p]);
  }

  /**
   * What draws `from` to `to` have come to: none hit a peer that may be taken, or all that did hit
   * the same one, `prev`.
   */
  ghost predicate Drew(ps: seq<Peer>, want: seq<bool>, draws: nat -> nat, from: nat, to: nat, prev: Option<nat>)
    requires |want| == |ps| && 0 < TotalWeight(ps, |ps|)
  {
    match prev
    case None => forall r: nat :: from <= r < to ==> !want[Drawn(ps, draws, r)]
    case Some(p) =>
      && p < |ps| && want[p]
      && (exists r: nat :: from <= r < to && Drawn(ps, draws, r) == p)
      && forall r: nat :: from <= r < to && want[Drawn(ps, draws, r)] ==> Drawn(ps, draws, r) == p
  }

  /**
   * The answer after draws `from` to `to`. One draw takes the first peer hit that may be taken. With
   * two, the first such peer is compared with the first other one: it is taken if it is less loaded.
   */
  ghost predicate DrawEnds(ps: seq<Peer>, want: seq<bool>, draws: nat -> nat, two: bool,
                           from: nat, to: nat, found: Option<nat>)
    requires |want| == |ps| && 0 < TotalWeight(ps, |ps|)
  {
    match found
    case None =>
      Drew(ps, want, draws, from, to, None) || (two && exists p: nat :: Drew(ps, want, draws, from, to, Some(p)))
    case Some(b) =>
      && from < to
      && var last := Drawn(ps, draws, to - 1);
        && want[last]
        && if !two then b == last && Drew(ps, want, draws, from, to - 1, None)
           else exists first: nat ::
             && Drew(ps, want, draws, from, to - 1, Some(first)) && first != last
             && b == if LessLoaded(ps[first], ps[last]) then first else last
  }

  /** One more draw: a miss, a second hit of the same peer, or the end. */
  lemma DrewMore(ps: seq<Peer>, want: seq<bool>, draws: nat -> nat, from: nat, to: nat, prev: Option<nat>)
    requires |want| == |ps| && 0 < TotalWeight(ps, |ps|) && from <= to
    requires Drew(ps, want, draws, from, to, prev)
    ensures var p := Drawn(ps, draws, to);
      && p < |ps| && (prev.Some? ==> prev.value < |ps|)
      && (!want[p] || prev == Some(p) ==> Drew(ps, want, draws, from, to + 1, prev))
      && (want[p] && prev == None ==>
            Drew(ps, want, draws, from, to + 1, Some(p)) && DrawEnds(ps, want, draws, false, from, to + 1, Some(p)))
      && (want[p] && prev.Some? && prev.value != p ==>
            var b: nat := if LessLoaded(ps[prev.value], ps[p]) then prev.value else p;
            DrawEnds(ps, want, draws, true, from, to + 1, Some(b)))
  {
    hide Drawn, LessLoaded;
  }

  lemma DrewNothing(ps: seq<Peer>, want: seq<bool>, draws: nat -> nat, r: nat)
    requires |want| == |ps| && 0 < TotalWeight(ps, |ps|)
    ensures Drew(ps, want, draws, r, r, None)
  {
  }

  lemma GivesUp(ps: seq<Peer>, want: seq<bool>, draws: nat -> nat, two: bool, from: nat, to: nat, prev: Option<nat>)
    requires |want| == |ps| && 0 < TotalWeight(ps, |ps|)
    requires Drew(ps, want, draws, from, to, prev) && (prev.Some? ==> two)
    ensures DrawEnds(ps, want, draws, two, from, to, None)
  {
  }

  lemma WantedLength(ps: seq<Peer>, tried: seq<Word>, now: int)
    ensures |Wanted(ps, tried, now)| == |ps|
  {
  }

  lemma MoreLoaded(p: Peer, q: Peer)
    ensures p.conns * q.weight > q.conns * p.weight <==> LessLoaded(q, p)
  {
  }

  /**
   * The loops of `ngx_stream_upstream_get_random_peer` and, with `two`, of
   * `ngx_stream_upstream_get_random2_peer`; every draw that does not end them uses up a try.
   */
  method Draw(pc: PeerConnection, rp: RandomState, draws: nat -> nat, two: bool, now: int) returns (found: Option<nat>)
    requires pc.Valid() && rp.Covers(pc.group.peers[..]) && rp.tries <= MAX_TRIES
    requires 0 < TotalWeight(pc.group.peers[..], pc.group.peers.Length)
    modifies rp
    ensures old(rp.drawn) < rp.drawn && (found.Some? <==> rp.tries <= MAX_TRIES)
    ensures rp.tries == old(rp.tries) + (rp.drawn - old(rp.drawn)) - if found.Some? then 1 else 0
    ensures var ps := pc.group.peers[..];
      && DrawEnds(ps, Wanted(ps, pc.tried[..], now), draws, two, old(rp.drawn), rp.drawn, found)
      && (found.Some? ==> found.value < |ps| && Wanted(ps, pc.tried[..], now)[found.value])
  {
    hide *;
    var total := TotalOf(pc.group.peers);
    var a := pc.group.peers;
    ghost var ps := a[..];
    ghost var want := Wanted(ps, pc.tried[..], now);
    WantedLength(ps, pc.tried[..], now);
    var prev: Option<nat> := None;
    DrewNothing(ps, want, draws, rp.drawn);
    while true
      invariant rp.tries <= MAX_TRIES && old(rp.drawn) <= rp.drawn
      invariant rp.tries == old(rp.tries) + (rp.drawn - old(rp.drawn))
      invariant Drew(ps, want, draws, old(rp.drawn), rp.drawn, prev)
      invariant prev.Some? ==> two && prev.value < |ps| && want[prev.value]
      decreases MAX_TRIES - rp.tries
    {
      DrewMore(ps, want, draws, old(rp.drawn), rp.drawn, prev);
      var p, usable := DrawOnce(pc, rp, draws, now, total);
      if usable && prev != Some(p) {
        if !two { return Some(p); }
        if prev.Some? {
          MoreLoaded(a[p], a[prev.value]);
          if a[p].conns * a[prev.value].weight > a[prev.value].conns * a[p].weight { return prev; }
          return Some(p);
        }
        prev := Some(p);
      }
      rp.tries := rp.tries + 1;
      if rp.tries > MAX_TRIES {
        GivesUp(ps, want, draws, two, old(rp.drawn), rp.drawn, prev);
        return None;
      }
    }
  }

  /** The random get, with one or two draws. */
  method GetRandomPeer(pc: PeerConnection, rp: RandomState, draws: nat -> nat, two: bool, now: int) returns (got: Got)
    requires pc.Valid() && (rp.tries <= 20 ==> rp.Covers(pc.group.peers[..]))
    requires 0 < TotalWeight(pc.group.peers[..], pc.group.peers.Length)
    modifies pc`group, pc`current, pc`held, pc.tried, pc.group.Arrays(), rp
    ensures pc.Valid()
    ensures got.Got? ==> pc.held && pc.current == got.peer
    ensures got == Busy ==> pc.held == old(pc.held)
    ensures old(rp.drawn) < rp.drawn <==> old(rp.tries) <= 20 && !old(pc.group).single
    ensures var ps := old(pc.group.peers[..]);
      var want := Wanted(ps, old(pc.tried[..]), now);
      if old(rp.drawn) < rp.drawn && rp.tries <= 20 then
        && got.Got? && got.depth == 0
        && DrawEnds(ps, want, draws, two, old(rp.drawn), rp.drawn, Some(got.peer))
        && ProbedGet(old(pc.group.Chain()), old(pc.tried[..]), now, got.peer, old(pc.group).Chain(), pc.tried[..])
      else
        && (old(rp.drawn) < rp.drawn ==> DrawEnds(ps, want, draws, two, old(rp.drawn), rp.drawn, None))
        && GetBy(ByWeight, old(pc.group).single, old(pc.group.Chain()), old(pc.tried[..]), now, got,
                 old(pc.group).Chain(), pc.tried[..])
  {
    hide GetBy, ProbedGet, TotalWeight, DrawEnds;
    if rp.tries > MAX_TRIES || pc.group.single {
      got := pc.GetRoundRobinPeer(now);
      return;
    }
    var found := Draw(pc, rp, draws, two, now);
    if found.Some? {
      TakeProbed(pc, found.value, now);
      got := Got(0, found.value);
    } else {
      got := pc.GetRoundRobinPeer(now);
    }
  }
}
