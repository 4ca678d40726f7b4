/** The weighted least-connections method: two passes over a group. */
module LeastConn {
  import opened Peers
  import opened RoundRobin
  import opened Options

  ghost predicate Weighted(ps: seq<Peer>) {
    forall i :: 0 <= i < |ps| ==> 0 < ps[i].weight
  }

  lemma Swap(a: nat, b: nat, c: nat)
    ensures a * b * c == a * c * b
  {
  }

  lemma Scale(a: int, b: int, k: nat)
    requires 0 < k
    ensures a <= b <==> a * k <= b * k
  {
    assert b * k == a * k + (b - a) * k;
    if a <= b { assert 0 <= (b - a) * k; } else { assert (b - a) * k < 0; }
  }

  /** The order of the fractions a/x, b/y and c/z by cross-multiplication is transitive. */
  lemma FractionOrder(a: nat, x: nat, b: nat, y: nat, c: nat, z: nat)
    requires 0 < x && 0 < y && 0 < z
    ensures a * y <= b * x && b * z <= c * y ==> a * z <= c * x
    ensures (a * y < b * x && b * z <= c * y) || (a * y <= b * x && b * z < c * y) ==> a * z < c * x
  {
    var ayz, bxz, bzx, cyx, azy, cxy := a * y * z, b * x * z, b * z * x, c * y * x, a * z * y, c * x * y;
    Swap(a, y, z);
    Swap(b, x, z);
    Swap(c, y, x);
    Scale(a * y, b * x, z);
    Scale(b * x, a * y, z);
    Scale(b * z, c * y, x);
    Scale(c * y, b * z, x);
    Scale(a * z, c * x, y);
    Scale(c * x, a * z, y);
  }

  /** Loads are ordered like the fractions conns/weight. */
  lemma LoadOrder(p: Peer, q: Peer, r: Peer)
    requires 0 < p.weight && 0 < q.weight && 0 < r.weight
    requires !LessLoaded(q, p) && !LessLoaded(r, q)
    ensures !LessLoaded(r, p)
    ensures LessLoaded(p, q) || LessLoaded(q, r) ==> LessLoaded(p, r)
  {
    FractionOrder(p.conns, p.weight, q.conns, q.weight, r.conns, r.weight);
  }

  /** The first pass so far: the first least loaded of the first `k` peers, and whether others tie with it. */
  ghost predicate FirstPass(ps: seq<Peer>, want: seq<bool>, k: nat, best: Option<nat>, many: bool)
    requires k <= |ps| == |want|
  {
    match best
    case None => forall j :: 0 <= j < k ==> !want[j]
    case Some(b) =>
      && b < k && want[b]
      && (forall j :: 0 <= j < k && want[j] ==> !LessLoaded(ps[j], ps[b]))
      && (forall j :: 0 <= j < b && want[j] ==> LessLoaded(ps[b], ps[j]))
      && (many <==> exists j :: b < j < k && want[j] && SameLoad(ps[j], ps[b]))
  }

  lemma FirstPassStep(ps: seq<Peer>, want: seq<bool>, k: nat, best: Option<nat>, many: bool)
    requires k < |ps| == |want| && Weighted(ps) && FirstPass(ps, want, k, best, many)
    ensures !want[k] ==> FirstPass(ps, want, k + 1, best, many)
    ensures want[k] && (best == None || LessLoaded(ps[k], ps[best.value])) ==>
      FirstPass(ps, want, k + 1, Some(k), false)
    ensures want[k] && best.Some? && !LessLoaded(ps[k], ps[best.value]) ==>
      FirstPass(ps, want, k + 1, best, many || SameLoad(ps[k], ps[best.value]))
  {
    if want[k] && best.Some? && LessLoaded(ps[k], ps[best.value]) {
      forall j | 0 <= j < k && want[j] ensures LessLoaded(ps[k], ps[j]) {
        LoadOrder(ps[k], ps[best.value], ps[j]);
      }
    }
  }

  /** The first of the least loaded peers is the first of its ties, whichever of them stands for all. */
  lemma TiesFromFirst(ps: seq<Peer>, want: seq<bool>, first: nat, b: nat)
    requires |ps| == |want| && Weighted(ps) && FirstPass(ps, want, |ps|, Some(first), true) && b < |ps|
    requires want[b] && SameLoad(ps[b], ps[first])
    ensures Ties(ps, want, b) == Ties(ps, want, first) && LeastLoaded(ps, want, b)
    ensures forall j :: 0 <= j < first ==> !Ties(ps, want, first)[j]
    ensures !OnlyOne(Ties(ps, want, b), b)
  {
    forall j | 0 <= j < |ps| && want[j]
      ensures SameLoad(ps[j], ps[b]) <==> SameLoad(ps[j], ps[first])
      ensures !LessLoaded(ps[j], ps[b])
    {
      LoadOrder(ps[b], ps[first], ps[j]);
      if SameLoad(ps[j], ps[first]) {
        LoadOrder(ps[j], ps[first], ps[b]);
      }
      if SameLoad(ps[j], ps[b]) {
        LoadOrder(ps[j], ps[b], ps[first]);
      }
    }
    var other :| first < other < |ps| && want[other] && SameLoad(ps[other], ps[first]);
    assert Ties(ps, want, first)[first] && Ties(ps, want, first)[other];
  }

  lemma OneTie(ps: seq<Peer>, want: seq<bool>, first: nat)
    requires |ps| == |want| && Weighted(ps) && FirstPass(ps, want, |ps|, Some(first), false)
    ensures LeastLoaded(ps, want, first) && OnlyOne(Ties(ps, want, first), first)
  {
  }

  /** The second pass's state at peer `i`: no tie before the first, which `best` stands for until it is reached. */
  ghost predicate Settling(qs: seq<Peer>, ps: seq<Peer>, want: seq<bool>, first: nat, i: nat, best: nat, total: int) {
    && |want| == |ps| && first < |ps| && best < |ps| && first <= i && (i == first ==> best == first)
    && want[best] && SameLoad(ps[best], ps[first])
    && Sweeping(qs, ps, Ties(ps, want, first), i, if i == first then None else Some(best), total)
  }

  lemma {:induction false} NoShare(ps: seq<Peer>, want: seq<bool>, k: nat)
    requires k <= |ps| == |want| && forall j :: 0 <= j < k ==> !want[j]
    ensures Share(ps, want, k) == 0
  {
    if k > 0 { NoShare(ps, want, k - 1); }
  }

  lemma SettlingBegin(ps: seq<Peer>, want: seq<bool>, first: nat)
    requires |ps| == |want| && Weighted(ps) && FirstPass(ps, want, |ps|, Some(first), true)
    ensures Settling(ps, ps, want, first, first, first, 0) && first < |ps|
  {
    TiesFromFirst(ps, want, first, first);
    NoShare(ps, Ties(ps, want, first), first);
  }

  /** The load of `best` as it is now is that of the first tie, so the test finds exactly the ties. */
  lemma TieTests(qs: seq<Peer>, ps: seq<Peer>, want: seq<bool>, first: nat, i: nat, best: nat, total: int)
    requires Settling(qs, ps, want, first, i, best, total) && i < |ps|
    requires Weighted(ps) && FirstPass(ps, want, |ps|, Some(first), true)
    ensures best < |qs| == |ps| && i < |qs| && qs[i] == ps[i]
    ensures Ties(ps, want, first)[i] <==> want[i] && qs[i].conns * qs[best].weight == qs[best].conns * qs[i].weight
    ensures i == first ==> Ties(ps, want, first)[i]
    ensures Ties(ps, want, first)[i] ==> want[i] && SameLoad(ps[i], ps[first])
  {
    TiesFromFirst(ps, want, first, best);
    assert qs[best].conns == ps[best].conns && qs[best].weight == ps[best].weight;
  }

  lemma SettlingTurn(qs: seq<Peer>, ps: seq<Peer>, want: seq<bool>, first: nat, i: nat, best: nat, total: int)
    requires Settling(qs, ps, want, first, i, best, total) && i < |ps| && best < |qs| == |ps| && qs[i] == ps[i]
    requires i == first ==> Ties(ps, want, first)[i]
    requires Ties(ps, want, first)[i] ==> want[i] && SameLoad(ps[i], ps[first])
    ensures !Ties(ps, want, first)[i] ==> Settling(qs, ps, want, first, i + 1, best, total)
    ensures var p := Bump(qs[i]);
      Ties(ps, want, first)[i] ==>
        Settling(qs[i := p], ps, want, first, i + 1,
                 if p.current > qs[i := p][best].current then i else best, total + qs[i].effective)
  {
    hide Ties, SameLoad, Sweeping, Bump;
    SweepTurn(qs, ps, Ties(ps, want, first), i, if i == first then None else Some(best), total);
  }

  lemma Settled(qs: seq<Peer>, ps: seq<Peer>, want: seq<bool>, first: nat, best: nat, total: int)
    requires Settling(qs, ps, want, first, |ps|, best, total)
    ensures var ties := Ties(ps, want, first);
      IsBest(ps, ties, best) && qs == BumpAll(ps, ties) && total == Share(ps, ties, |ps|)
  {
    SweepEnd(qs, ps, Ties(ps, want, first), Some(best), total);
  }

  /** The second pass: a sweep over the peers tied with the first of them, `best` moving as it goes. */
  method SecondPass(pc: PeerConnection, now: int, first: nat) returns (best: nat, total: int)
    requires pc.Valid() && Weighted(pc.group.peers[..])
    requires var ps := pc.group.peers[..];
      FirstPass(ps, Wanted(ps, pc.tried[..], now), |ps|, Some(first), true)
    modifies pc.group.peers
    ensures pc.tried[..] == old(pc.tried[..])
    ensures var ps := old(pc.group.peers[..]);
      var ties := Ties(ps, Wanted(ps, pc.tried[..], now), first);
      IsBest(ps, ties, best) && pc.group.peers[..] == BumpAll(ps, ties) && total == Share(ps, ties, |ps|)
  {
    hide *;
    var a := pc.group.peers;
    ghost var ps, marks := a[..], pc.tried[..];
    ghost var want := Wanted(ps, marks, now);
    best, total := first, 0;
    SettlingBegin(ps, want, first);
    pc.InRange();
    for i := first to a.Length
      invariant pc.tried[..] == marks && Settling(a[..], ps, want, first, i, best, total)
    {
      ghost var qs := a[..];
      TieTests(qs, ps, want, first, i, best, total);
      SettlingTurn(qs, ps, want, first, i, best, total);
      SweepTests(ps, marks, i, now);
      var peer := a[i];
      if i % WORD_BITS in pc.tried[i / WORD_BITS] { continue; }
      if peer.down { continue; }
      if peer.conns * a[best].weight != a[best].conns * peer.weight { continue; }
      if Resting(peer, now) || Full(peer) { continue; }
      a[i] := Bump(peer);
      assert a[..] == qs[i := Bump(peer)];
      total := total + peer.effective;
      if a[i].current > a[best].current { best := i; }
    }
    Settled(a[..], ps, want, first, best, total);
  }

  /** Both passes over the current group: the optimal peer, with ties settled by round robin. */
  method ChoosePeer(pc: PeerConnection, now: int) returns (best: Option<nat>, total: int)
    requires pc.Valid() && Weighted(pc.group.peers[..])
    modifies pc.group.peers
    ensures pc.tried[..] == old(pc.tried[..])
    ensures var ps := old(pc.group.peers[..]);
      var want := Wanted(ps, pc.tried[..], now);
      match best
      case None => NoneWanted(want) && pc.group.peers[..] == ps
      case Some(b) =>
        && LeastLoaded(ps, want, b)
        && var ties := Ties(ps, want, b);
          if OnlyOne(ties, b) then pc.group.peers[..] == ps && total == 0
          else IsBest(ps, ties, b) && pc.group.peers[..] == BumpAll(ps, ties) && total == Share(ps, ties, |ps|)
  {
    var a := pc.group.peers;
    ghost var ps, marks := a[..], pc.tried[..];
    ghost var want := Wanted(ps, marks, now);
    var many := false;
    best, total := None, 0;
    for i := 0 to a.Length
      invariant a[..] == ps && pc.tried[..] == marks && FirstPass(ps, want, i, best, many)
    {
      FirstPassStep(ps, want, i, best, many);
      WordInside(marks, a.Length, i);
      var peer := a[i];
      if i % WORD_BITS in pc.tried[i / WORD_BITS] { continue; }
      if peer.down || Resting(peer, now) || Full(peer) { continue; }
      hide *;
      if best == None || LessLoaded(peer, a[best.value]) {
        best, many := Some(i), false;
      } else if SameLoad(peer, a[best.value]) {
        many := true;
      }
    }
    if best.Some? && many {
      var p;
      p, total := SecondPass(pc, now, best.value);
      TiesFromFirst(ps, want, best.value, p);
      best := Some(p);
    } else if best.Some? {
      OneTie(ps, want, best.value);
    }
  }

  function Settle(p: Peer, total: int, now: int): Peer {
    p.(current := p.current - total, checked := Touched(p, now), conns := p.conns + 1)
  }

  lemma SettledPlain(ps: seq<Peer>, b: nat, now: int)
    requires b < |ps|
    ensures ps[b := Settle(ps[b], 0, now)] == PlainPick(ps, b, now)
  {
  }

  lemma SettledWeighted(ps: seq<Peer>, want: seq<bool>, b: nat, now: int)
    requires b < |ps| == |want|
    ensures var swept := BumpAll(ps, want);
      swept[b := Settle(swept[b], Share(ps, want, |ps|), now)] == WeightedPick(ps, want, b, now)
  {
    hide Share;
  }

  /** Settling the chosen peer after the two passes gives the pick. */
  lemma SettledTakes(ps: seq<Peer>, want: seq<bool>, qs: seq<Peer>, b: nat, total: int, now: int)
    requires |ps| == |want| == |qs| && LeastLoaded(ps, want, b)
    requires var ties := Ties(ps, want, b);
      if OnlyOne(ties, b) then qs == ps && total == 0
      else IsBest(ps, ties, b) && qs == BumpAll(ps, ties) && total == Share(ps, ties, |ps|)
    ensures Takes(ByConns, ps, want, b, now, qs[b := Settle(qs[b], total, now)])
  {
    assert b < |ps|;
    hide LeastLoaded, IsBest, Share, OnlyOne, Ties, Settle, BumpAll, PlainPick, WeightedPick;
    SettledPlain(ps, b, now);
    SettledWeighted(ps, Ties(ps, want, b), b, now);
  }

  method SettlePeer(a: array<Peer>, p: nat, total: int, now: int)
    requires p < a.Length
    modifies a
    ensures a[..] == old(a[..])[p := Settle(old(a[p]), total, now)]
  {
    a[p] := a[p].(current := a[p].current - total);
    a[p] := a[p].(checked := Touched(a[p], now));
    a[p] := a[p].(conns := a[p].conns + 1);
  }

  /** The choice in one group of several peers, with the connection counted and the bit set. */
  method TakePeer(pc: PeerConnection, now: int) returns (chosen: Option<nat>)
    requires pc.Valid() && Weighted(pc.group.peers[..])
    modifies pc.group.peers, pc.tried, pc`current, pc`held
    ensures pc.group == old(pc.group)
    ensures var ps := old(pc.group.peers[..]);
      var want := Wanted(ps, old(pc.tried[..]), now);
      match chosen
      case None =>
        NoneWanted(want) && pc.group.peers[..] == ps && pc.tried[..] == old(pc.tried[..]) && pc.held == old(pc.held)
      case Some(b) =>
        && Takes(ByConns, ps, want, b, now, pc.group.peers[..])
        && b / WORD_BITS < pc.tried.Length && pc.tried[..] == Mark(old(pc.tried[..]), b)
        && pc.held && pc.current == b
  {
    ghost var ps, marks := pc.group.peers[..], pc.tried[..];
    ghost var want := Wanted(ps, marks, now);
    var best, total := ChoosePeer(pc, now);
    if best == None { return None; }
    var p := best.value;
    var a := pc.group.peers;
    WordInside(marks, a.Length, p);
    SettledTakes(ps, want, a[..], p, total, now);
    hide *;
    ghost var qs := a[..];
    SettlePeer(a, p, total, now);
    pc.held := true;
    pc.current := p;
    pc.MarkTried(p);
    chosen := best;
  }

  /** `ngx_stream_upstream_get_least_conn_peer`. */
  method GetLeastConnPeer(pc: PeerConnection, now: int) returns (got: Got)
    requires pc.Valid() && Weighted(pc.group.peers[..])
    requires pc.group.next != null ==> Weighted(pc.group.next.peers[..])
    modifies pc`group, pc`current, pc`held, pc.tried, pc.group.Arrays()
    decreases pc.group.Depth()
    ensures pc.Valid()
    ensures GetBy(ByConns, old(pc.group).single, old(pc.group.Chain()), old(pc.tried[..]), now, got,
                  old(pc.group).Chain(), pc.tried[..])
    ensures got.Got? ==> pc.held && pc.current == got.peer
    ensures got == Busy ==> pc.held == old(pc.held)
    ensures pc.group ==
            if (got.Got? && got.depth == 0) || old(pc.group).next == null then old(pc.group) else old(pc.group).next
  {
    var g := pc.group;
    if g.single {
      got := pc.GetRoundRobinPeer(now);
      return;
    }
    var chosen := TakePeer(pc, now);
    if chosen.Some? { return Got(0, chosen.value); }
    got := Busy;
    if g.next != null {
      pc.SwitchToBackup();
      var later := GetLeastConnPeer(pc, now);
      if later.Got? { got := Got(later.depth + 1, later.peer); }
    }
  }
}
