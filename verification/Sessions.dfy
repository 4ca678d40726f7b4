/**
 * Any number of sessions sharing the peers of one upstream, interleaved at every get, free and
 * notification, with any mix of balancing methods.
 */
module Sessions {
  import opened Peers
  import opened RoundRobin
  import opened Probing
  import opened ConsistentHash

  // ----- what a get of any method may do -----

  /** The peer is only one of its group: no failure accounting, no bitset. */
  ghost predicate SinglePick(ps: seq<Peer>, qs: seq<Peer>) {
    |ps| == 1 && SingleUsable(ps[0]) && qs == Connected(ps, 0)
  }

  /** Peer `b` of group `g` is taken, after a switch if `g` is not the session's current group. */
  ghost predicate Taken(single: bool, groups: seq<seq<Peer>>, from: nat, tried: seq<Word>, now: int,
                        g: nat, b: nat, groups': seq<seq<Peer>>, tried': seq<Word>) {
    && from <= g < |groups| == |groups'|
    && (forall i :: 0 <= i < |groups| && i != g ==> groups'[i] == groups[i])
    && if single then
        b == 0 && SinglePick(groups[g], groups'[g]) && tried' == tried
      else
        && (g > from ==> InBitset(tried, |groups[g]|))
        && var marks := if g == from then tried else Cleared(tried, |groups[g]|);
          && Pick(groups[g], marks, b, now, groups'[g])
          && b / WORD_BITS < |marks| && tried' == Mark(marks, b)
  }

  /** The outcome of a get over the current group and its backup, in terms of all groups. */
  ghost predicate Legal(single: bool, groups: seq<seq<Peer>>, from: nat, tried: seq<Word>, now: int,
                        got: Got, groups': seq<seq<Peer>>, tried': seq<Word>) {
    match got
    case Busy => groups' == groups
    case Got(d, b) => Taken(single, groups, from, tried, now, from + d, b, groups', tried')
  }

  lemma TakesIsPick(m: Method, ps: seq<Peer>, tried: seq<Word>, b: nat, now: int, qs: seq<Peer>)
    requires Takes(m, ps, Wanted(ps, tried, now), b, now, qs)
    ensures Pick(ps, tried, b, now, qs)
  {
    var want := Wanted(ps, tried, now);
    match m
    case ByWeight => WeightedPickIsPick(ps, want, tried, b, now);
    case ByConns =>
      if OnlyOne(Ties(ps, want, b), b) {
        PlainPickIsPick(ps, tried, b, now);
      } else {
        WeightedPickIsPick(ps, Ties(ps, want, b), tried, b, now);
      }
  }

  lemma Rejoin(groups: seq<seq<Peer>>, from: nat, gs': seq<seq<Peer>>)
    requires from < |groups| && |gs'| == |groups| - from
    ensures var groups' := groups[..from] + gs';
      && |groups'| == |groups|
      && (forall i :: 0 <= i < from ==> groups'[i] == groups[i])
      && (forall i :: from <= i < |groups| ==> groups'[i] == gs'[i - from])
      && (gs' == groups[from..] ==> groups' == groups)
  {
  }

  /** The scanning methods. */
  lemma GetByIsLegal(m: Method, single: bool, groups: seq<seq<Peer>>, from: nat, tried: seq<Word>, now: int,
                     got: Got, gs': seq<seq<Peer>>, tried': seq<Word>)
    requires from < |groups| <= 2
    requires GetBy(m, single, groups[from..], tried, now, got, gs', tried')
    ensures Legal(single, groups, from, tried, now, got, groups[..from] + gs', tried')
  {
    var gs := groups[from..];
    Rejoin(groups, from, gs');
    if !single {
      if !NoneWanted(Wanted(gs[0], tried, now)) {
        TakesIsPick(m, gs[0], tried, got.peer, now, gs'[0]);
      } else if |gs| == 2 {
        var marks := Cleared(tried, |gs[1]|);
        assert gs[1..] == [gs[1]] && gs'[1..] == [gs'[1]];
        if got.Got? {
          assert !NoneWanted(Wanted(gs[1], marks, now));
          TakesIsPick(m, gs[1], marks, got.peer, now, gs'[1]);
        } else {
          assert gs' == gs;
        }
      }
    }
  }

  /** The hash and random methods. */
  lemma ProbedIsLegal(groups: seq<seq<Peer>>, from: nat, tried: seq<Word>, now: int,
                      b: nat, gs': seq<seq<Peer>>, tried': seq<Word>)
    requires from < |groups| && ProbedGet(groups[from..], tried, now, b, gs', tried')
    ensures Legal(false, groups, from, tried, now, Got(0, b), groups[..from] + gs', tried')
  {
    Rejoin(groups, from, gs');
    PlainPickIsPick(groups[from], tried, b, now);
    assert forall i :: 1 <= i < |gs'| ==> gs'[i] == gs'[1..][i - 1];
  }

  /** The consistent hash method. */
  lemma RingIsLegal(groups: seq<seq<Peer>>, from: nat, tried: seq<Word>, now: int, server: nat,
                    b: nat, gs': seq<seq<Peer>>, tried': seq<Word>)
    requires from < |groups| && RingGet(groups[from..], tried, now, server, b, gs', tried')
    ensures Legal(false, groups, from, tried, now, Got(0, b), groups[..from] + gs', tried')
  {
    Rejoin(groups, from, gs');
    var ps := groups[from];
    WeightedPickIsPick(ps, Matching(ps, Wanted(ps, tried, now), server), tried, b, now);
    assert forall i :: 1 <= i < |gs'| ==> gs'[i] == gs'[1..][i - 1];
  }

  // ----- the transition system -----

  type Id = nat

  /**
   * A session: `held` says that its peer connection has an address, `obtained` records every peer
   * it has been given so far, and `budget` is the number of tries it started with.
   */
  datatype Session = Session(
    group: nat, current: nat, held: bool, tries: nat, tried: seq<Word>,
    obtained: seq<(nat, nat)>, budget: nat)

  datatype World = World(
    groups: seq<seq<Peer>>, single: bool, tries: nat, now: int, sessions: map<Id, Session>)

  /** What one session, or the clock, may do in one atomic step. */
  datatype Action =
    | Open(limit: nat)
    | Connect(got: Got, groups': seq<seq<Peer>>, tried': seq<Word>)
    | Retry
    | Close(failed: bool)
    | Notify
    | Tick(later: int)

  /** The session's initial bitset has a word for every 64 peers of its larger group. */
  ghost predicate FreshBits(groups: seq<seq<Peer>>, tried: seq<Word>) {
    && (forall g :: 0 <= g < |groups| ==> InBitset(tried, |groups[g]|))
    && (forall k :: 0 <= k < |tried| ==> tried[k] == {})
  }

  function ReleasePeer(w: World, s: Session, failed: bool): seq<seq<Peer>>
    requires s.group < |w.groups| && s.current < |w.groups[s.group]|
    requires 0 < w.groups[s.group][s.current].conns
  {
    var ps := w.groups[s.group];
    w.groups[s.group := ps[s.current := Released(ps[s.current], w.single, failed, w.now)]]
  }

  /** The session after a get that gave it peer `b` of group `g`. */
  function Granted(s: Session, g: nat, b: nat, tried: seq<Word>): Session {
    s.(group := g, current := b, held := true, tried := tried, obtained := s.obtained + [(g, b)])
  }

  function TriesAfterFree(w: World, s: Session): nat {
    if w.single || s.tries == 0 then 0 else s.tries - 1
  }

  /** The session holds a peer that exists and counts a connection. */
  ghost predicate Holds(w: World, s: Session) {
    && s.held && s.group < |w.groups| && s.current < |w.groups[s.group]|
    && 0 < w.groups[s.group][s.current].conns
  }

  ghost predicate Step(w: World, id: Id, a: Action, w': World) {
    && w'.single == w.single && w'.tries == w.tries
    && (a.Tick? || w'.now == w.now)
    && match a
      case Open(limit) =>
        && id !in w.sessions && w'.groups == w.groups
        && w'.sessions.Keys == w.sessions.Keys + {id}
        && w'.sessions == w.sessions[id := w'.sessions[id]]
        && var s := w'.sessions[id];
          var tries := if 0 < limit < w.tries then limit else w.tries;
          && FreshBits(w.groups, s.tried)
          && s == Session(0, 0, false, tries, s.tried, [], tries)
      case Connect(got, groups', tried') =>
        && id in w.sessions && !w.sessions[id].held
        && var s := w.sessions[id];
          && s.group < |w.groups|
          && Legal(w.single, w.groups, s.group, s.tried, w.now, got, groups', tried')
          && w'.groups == groups'
          && w'.sessions ==
            if got == Busy then w.sessions - {id}
            else w.sessions[id := Granted(s, s.group + got.depth, got.peer, tried')]
      case Retry =>
        && id in w.sessions && Holds(w, w.sessions[id])
        && var s := w.sessions[id];
          && w'.groups == ReleasePeer(w, s, true)
          && TriesAfterFree(w, s) != 0
          && w'.sessions == w.sessions[id := s.(held := false, tries := TriesAfterFree(w, s))]
      case Close(failed) =>
        && id in w.sessions
        && var s := w.sessions[id];
          && (if s.held then Holds(w, s) && w'.groups == ReleasePeer(w, s, failed) else w'.groups == w.groups)
          && w'.sessions == w.sessions - {id}
      case Notify =>
        && id in w.sessions && Holds(w, w.sessions[id]) && w'.sessions == w.sessions
        && var s := w.sessions[id];
          var ps := w.groups[s.group];
          w'.groups == w.groups[s.group := ps[s.current := Revived(ps[s.current])]]
      case Tick(later) =>
        later >= w.now && w'.now == later && w'.groups == w.groups && w'.sessions == w.sessions
  }

  // ----- the invariant -----

  /** The sessions that hold peer `i` of group `g`. */
  function Holders(sessions: map<Id, Session>, g: nat, i: nat): set<Id> {
    set id | id in sessions && sessions[id].held && sessions[id].group == g && sessions[id].current == i
  }

  ghost predicate PeerOk(p: Peer, now: int) {
    && 0 < p.weight && 0 <= p.effective <= p.weight
    && (p.maxConns > 0 ==> p.conns <= p.maxConns)
    && p.checked <= now && 0 <= p.failTimeout
  }

  function UpCount(ps: seq<Peer>): nat {
    if ps == [] then 0 else (if ps[0].down then 0 else 1) + UpCount(ps[1..])
  }

  function UpPeers(ps: seq<Peer>): (r: set<nat>)
    ensures forall i: nat :: i in r <==> i < |ps| && !ps[i].down
  {
    set i: nat | 0 <= i < |ps| && !ps[i].down
  }

  lemma {:induction false} UpCountSplit(ps: seq<Peer>, p: Peer)
    ensures UpCount(ps + [p]) == UpCount(ps) + if p.down then 0 else 1
  {
    if ps == [] {
      assert ps + [p] == [p] && [p][1..] == [];
    } else {
      assert (ps + [p])[1..] == ps[1..] + [p];
      UpCountSplit(ps[1..], p);
    }
  }

  /** It is the number of peers that are not marked down. */
  lemma {:induction false} UpCountIs(ps: seq<Peer>)
    ensures UpCount(ps) == |set i: nat | 0 <= i < |ps| && !ps[i].down|
    decreases |ps|
  {
    if ps == [] {
      assert UpPeers(ps) == {};
    } else {
      var n := |ps| - 1;
      UpCountIs(ps[..n]);
      UpCountSplit(ps[..n], ps[n]);
      assert ps[..n] + [ps[n]] == ps;
      assert UpPeers(ps) == UpPeers(ps[..n]) + if ps[n].down then {} else {n};
    }
  }

  /** What `peers->tries` plus `peers->next->tries` hold. */
  function UpCounts(groups: seq<seq<Peer>>): nat {
    if groups == [] then 0 else UpCount(groups[0]) + UpCounts(groups[1..])
  }

  ghost predicate GroupsOk(w: World) {
    && 0 < |w.groups| <= 2
    && (w.single ==> |w.groups| == 1 && |w.groups[0]| == 1)
    && (forall g :: 0 <= g < |w.groups| ==> CurrentSum(w.groups[g], |w.groups[g]|) == 0)
    && (forall g, i :: 0 <= g < |w.groups| && 0 <= i < |w.groups[g]| ==> PeerOk(w.groups[g][i], w.now))
    && w.tries == UpCounts(w.groups)
  }

  ghost predicate Distinct(s: seq<(nat, nat)>) {
    forall i, j :: 0 <= i < j < |s| ==> s[i] != s[j]
  }

  /** A session's own bookkeeping. */
  ghost predicate SessionOk(w: World, s: Session) {
    && s.group < |w.groups|
    && (s.held ==> s.current < |w.groups[s.group]| && 0 < s.tries && |s.obtained| + s.tries <= s.budget + 1)
    && (!s.held ==> |s.obtained| + s.tries <= s.budget)
    && (s.tries == 0 ==> w.tries == 0)
    && (w.single && !s.held ==> s.obtained == [])
    && (forall g :: 0 <= g < |w.groups| ==> InBitset(s.tried, |w.groups[g]|))
    && Distinct(s.obtained)
    && (forall k :: 0 <= k < |s.obtained| ==>
          var (g, i) := s.obtained[k];
          g <= s.group && (g == s.group && !w.single ==> IsTried(s.tried, i)))
  }

  ghost predicate Counted(w: World) {
    forall g, i :: 0 <= g < |w.groups| && 0 <= i < |w.groups[g]| ==>
      w.groups[g][i].conns == |Holders(w.sessions, g, i)|
  }

  ghost predicate Inv(w: World) {
    && GroupsOk(w) && Counted(w)
    && forall id :: id in w.sessions ==> SessionOk(w, w.sessions[id])
  }

  // ----- holders -----

  ghost predicate HeldAt(s: Session, g: nat, i: nat) {
    s.held && s.group == g && s.current == i
  }

  /** A session that held nothing, or is new, now holds what `s` says. */
  lemma HoldersAdd(m: map<Id, Session>, id: Id, s: Session, g: nat, i: nat)
    requires id !in m || !m[id].held
    ensures |Holders(m[id := s], g, i)| == |Holders(m, g, i)| + if HeldAt(s, g, i) then 1 else 0
  {
    var before, after := Holders(m, g, i), Holders(m[id := s], g, i);
    assert id !in before;
    assert after == if HeldAt(s, g, i) then before + {id} else before;
  }

  /** A session lets go of its peer and stays. */
  lemma HoldersRelease(m: map<Id, Session>, id: Id, s: Session, g: nat, i: nat)
    requires id in m && !s.held
    ensures |Holders(m[id := s], g, i)| == |Holders(m, g, i)| - if HeldAt(m[id], g, i) then 1 else 0
  {
    var before, after := Holders(m, g, i), Holders(m[id := s], g, i);
    assert id !in after;
    assert before == if HeldAt(m[id], g, i) then after + {id} else after;
  }

  /** A session leaves. */
  lemma HoldersLeave(m: map<Id, Session>, id: Id, g: nat, i: nat)
    requires id in m
    ensures |Holders(m - {id}, g, i)| == |Holders(m, g, i)| - if HeldAt(m[id], g, i) then 1 else 0
  {
    var before, after := Holders(m, g, i), Holders(m - {id}, g, i);
    assert id !in after;
    assert before == if HeldAt(m[id], g, i) then after + {id} else after;
  }

  // ----- what the steps keep, peer by peer -----

  lemma {:induction false} UpCountSame(ps: seq<Peer>, qs: seq<Peer>)
    requires |ps| == |qs| && forall i :: 0 <= i < |ps| ==> ps[i].down == qs[i].down
    ensures UpCount(ps) == UpCount(qs)
  {
    if ps != [] { UpCountSame(ps[1..], qs[1..]); }
  }

  lemma {:induction false} UpCountPositive(ps: seq<Peer>, b: nat)
    requires b < |ps| && !ps[b].down
    ensures 0 < UpCount(ps)
  {
    if b > 0 { UpCountPositive(ps[1..], b - 1); }
  }

  lemma UpCountsSame(gs: seq<seq<Peer>>, hs: seq<seq<Peer>>)
    requires |gs| == |hs| <= 2 && forall g :: 0 <= g < |gs| ==> UpCount(gs[g]) == UpCount(hs[g])
    ensures UpCounts(gs) == UpCounts(hs)
  {
    if |gs| == 2 {
      assert gs[1..] == [gs[1]] && hs[1..] == [hs[1]];
    }
  }

  lemma UpCountsPositive(gs: seq<seq<Peer>>, g: nat)
    requires g < |gs| <= 2 && 0 < UpCount(gs[g])
    ensures 0 < UpCounts(gs)
  {
    if |gs| == 2 { assert gs[1..] == [gs[1]]; }
  }

  /** A group after an operation on it: same size, same configuration, sum zero, peers in order. */
  ghost predicate GroupKept(ps: seq<Peer>, qs: seq<Peer>, now: int) {
    && |qs| == |ps| && CurrentSum(qs, |qs|) == CurrentSum(ps, |ps|)
    && (forall i :: 0 <= i < |ps| ==> SameConfig(ps[i], qs[i]) && ps[i].checked <= qs[i].checked)
    && (forall i :: 0 <= i < |qs| ==> PeerOk(qs[i], now))
  }

  ghost predicate PeersOk(ps: seq<Peer>, now: int) {
    forall i :: 0 <= i < |ps| ==> PeerOk(ps[i], now)
  }

  lemma PickKeeps(ps: seq<Peer>, tried: seq<Word>, b: nat, now: int, qs: seq<Peer>)
    requires Pick(ps, tried, b, now, qs) && PeersOk(ps, now)
    ensures GroupKept(ps, qs, now)
  {
    hide CurrentSum;
    forall i | 0 <= i < |ps| ensures PeerOk(qs[i], now) && ps[i].checked <= qs[i].checked {
      assert PeerAfterPick(ps[i], qs[i], i == b, now) && PeerOk(ps[i], now);
    }
  }

  lemma SinglePickKeeps(ps: seq<Peer>, now: int, qs: seq<Peer>)
    requires SinglePick(ps, qs) && PeersOk(ps, now)
    ensures GroupKept(ps, qs, now)
  {
    CurrentSumUpdate(ps, 0, qs[0], 1);
  }

  lemma ReleasedOk(p: Peer, single: bool, failed: bool, now: int)
    requires PeerOk(p, now) && 0 < p.conns
    ensures var q := Released(p, single, failed, now);
      PeerOk(q, now) && SameConfig(p, q) && p.checked <= q.checked && q.current == p.current && q.conns == p.conns - 1
  {
    if p.maxFails > 0 { assert 0 <= p.weight / p.maxFails; }
  }

  lemma ReplacedKeeps(ps: seq<Peer>, b: nat, q: Peer, now: int)
    requires PeersOk(ps, now) && b < |ps|
    requires PeerOk(q, now) && SameConfig(ps[b], q) && ps[b].checked <= q.checked && q.current == ps[b].current
    ensures GroupKept(ps, ps[b := q], now)
  {
    CurrentSumUpdate(ps, b, q, |ps|);
  }

  /** Replacing one group by a kept one keeps all groups in order. */
  lemma GroupsKept(w: World, g: nat, qs: seq<Peer>, w': World)
    requires GroupsOk(w) && g < |w.groups| && GroupKept(w.groups[g], qs, w.now)
    requires w'.groups == w.groups[g := qs] && w'.single == w.single && w'.tries == w.tries && w'.now == w.now
    ensures GroupsOk(w')
  {
    UpCountSame(w.groups[g], qs);
    UpCountsSame(w.groups, w'.groups);
    hide UpCounts, UpCount, CurrentSum, PeerOk;
  }

  /** What a session looks at of the world is kept as well. */
  lemma SessionsKept(w: World, w': World, s: Session)
    requires SessionOk(w, s) && |w'.groups| == |w.groups| && w'.single == w.single && w'.tries == w.tries
    requires forall g :: 0 <= g < |w.groups| ==> |w'.groups[g]| == |w.groups[g]|
    ensures SessionOk(w', s)
  {
  }

  // ----- every step keeps the invariant -----

  lemma CountedIs(w: World)
    requires forall g, i :: 0 <= g < |w.groups| && 0 <= i < |w.groups[g]| ==>
      w.groups[g][i].conns == |Holders(w.sessions, g, i)|
    ensures Counted(w)
  {
  }

  lemma OpenKeeps(w: World, id: Id, a: Action, w': World)
    requires Inv(w) && Step(w, id, a, w') && a.Open?
    ensures Inv(w')
  {
    var s := w'.sessions[id];
    forall g, i | 0 <= g < |w.groups| && 0 <= i < |w.groups[g]|
      ensures w'.groups[g][i].conns == |Holders(w'.sessions, g, i)|
    {
      HoldersAdd(w.sessions, id, s, g, i);
    }
    hide Holders, Counted;
    assert SessionOk(w', s);
    forall k | k in w.sessions ensures SessionOk(w', w'.sessions[k]) {
      SessionsKept(w, w', w.sessions[k]);
    }
    assert Counted(w') by { CountedIs(w'); }
  }

  lemma TickKeeps(w: World, id: Id, a: Action, w': World)
    requires Inv(w) && Step(w, id, a, w') && a.Tick?
    ensures Inv(w')
  {
    forall k | k in w.sessions ensures SessionOk(w', w'.sessions[k]) {
      SessionsKept(w, w', w.sessions[k]);
    }
  }

  lemma NotifyKeeps(w: World, id: Id, a: Action, w': World)
    requires Inv(w) && Step(w, id, a, w') && a.Notify?
    ensures Inv(w')
  {
    hide UpCount, UpCounts, CurrentSum;
    var s := w.sessions[id];
    var ps := w.groups[s.group];
    var q := Revived(ps[s.current]);
    ReplacedKeeps(ps, s.current, q, w.now);
    GroupsKept(w, s.group, ps[s.current := q], w');
    forall k | k in w.sessions ensures SessionOk(w', w'.sessions[k]) {
      SessionsKept(w, w', w.sessions[k]);
    }
    hide GroupsOk, SessionOk;
    assert Counted(w');
  }

  /** A free: the groups stay in order and exactly the peer given back counts one less. */
  lemma ReleaseKeeps(w: World, s: Session, failed: bool, w': World)
    requires GroupsOk(w) && Holds(w, s)
    requires w'.groups == ReleasePeer(w, s, failed)
    requires w'.single == w.single && w'.tries == w.tries && w'.now == w.now
    ensures GroupsOk(w') && |w'.groups| == |w.groups|
    ensures forall g :: 0 <= g < |w.groups| ==> |w'.groups[g]| == |w.groups[g]|
    ensures forall g, i :: 0 <= g < |w.groups| && 0 <= i < |w.groups[g]| ==>
      w'.groups[g][i].conns == w.groups[g][i].conns - if HeldAt(s, g, i) then 1 else 0
  {
    var ps := w.groups[s.group];
    var q := Released(ps[s.current], w.single, failed, w.now);
    ReleasedOk(ps[s.current], w.single, failed, w.now);
    ReplacedKeeps(ps, s.current, q, w.now);
    GroupsKept(w, s.group, ps[s.current := q], w');
    hide GroupsOk;
  }

  lemma RetryFits(w: World, s: Session, w': World)
    requires SessionOk(w, s) && Holds(w, s) && TriesAfterFree(w, s) != 0
    requires |w'.groups| == |w.groups| && w'.single == w.single && w'.tries == w.tries
    requires forall g :: 0 <= g < |w.groups| ==> |w'.groups[g]| == |w.groups[g]|
    ensures SessionOk(w', s.(held := false, tries := TriesAfterFree(w, s)))
  {
  }

  lemma RetryKeeps(w: World, id: Id, a: Action, w': World)
    requires Inv(w) && Step(w, id, a, w') && a.Retry?
    ensures Inv(w')
  {
    var s := w.sessions[id];
    var s' := w'.sessions[id];
    hide GroupsOk, SessionOk, ReleasePeer, TriesAfterFree;
    assert GroupsOk(w) && Counted(w) && SessionOk(w, s) && Holds(w, s);
    ReleaseKeeps(w, s, true, w');
    RetryFits(w, s, w');
    forall g, i | 0 <= g < |w.groups| && 0 <= i < |w.groups[g]|
      ensures w'.groups[g][i].conns == |Holders(w'.sessions, g, i)|
    {
      HoldersRelease(w.sessions, id, s', g, i);
    }
    CountedIs(w');
    hide Counted, Holders;
    forall k | k in w.sessions ensures SessionOk(w', w'.sessions[k]) {
      if k != id { SessionsKept(w, w', w.sessions[k]); }
    }
  }

  lemma CloseKeeps(w: World, id: Id, a: Action, w': World)
    requires Inv(w) && Step(w, id, a, w') && a.Close?
    ensures Inv(w')
  {
    var s := w.sessions[id];
    if s.held { ReleaseKeeps(w, s, a.failed, w'); }
    hide GroupsOk;
    forall g, i | 0 <= g < |w.groups| && 0 <= i < |w.groups[g]|
      ensures w'.groups[g][i].conns == |Holders(w'.sessions, g, i)|
    {
      HoldersLeave(w.sessions, id, g, i);
    }
    CountedIs(w');
    hide Counted, Holders, ReleasePeer;
    forall k | k in w'.sessions ensures SessionOk(w', w'.sessions[k]) {
      SessionsKept(w, w', w.sessions[k]);
    }
  }

  lemma BusyKeeps(w: World, id: Id, a: Action, w': World)
    requires Inv(w) && Step(w, id, a, w') && a.Connect? && a.got == Busy
    ensures Inv(w')
  {
    assert GroupsOk(w');
    hide GroupsOk;
    forall g, i | 0 <= g < |w.groups| && 0 <= i < |w.groups[g]|
      ensures w'.groups[g][i].conns == |Holders(w'.sessions, g, i)|
    {
      HoldersLeave(w.sessions, id, g, i);
    }
    CountedIs(w');
    hide Counted, Holders;
    forall k | k in w'.sessions ensures SessionOk(w', w'.sessions[k]) {
      SessionsKept(w, w', w.sessions[k]);
    }
  }

  /** A get: the groups stay in order, exactly the peer taken counts one more, and it was up. */
  lemma TakenKeeps(w: World, from: nat, tried: seq<Word>, g: nat, b: nat, w': World, tried': seq<Word>)
    requires GroupsOk(w) && Taken(w.single, w.groups, from, tried, w.now, g, b, w'.groups, tried')
    requires w'.single == w.single && w'.tries == w.tries && w'.now == w.now
    ensures GroupsOk(w') && |w'.groups| == |w.groups| && g < |w.groups| && b < |w.groups[g]|
    ensures forall k :: 0 <= k < |w.groups| ==> |w'.groups[k]| == |w.groups[k]|
    ensures forall k, i :: 0 <= k < |w.groups| && 0 <= i < |w.groups[k]| ==>
      w'.groups[k][i].conns == w.groups[k][i].conns + if k == g && i == b then 1 else 0
    ensures 0 < w.tries
  {
    var ps, qs := w.groups[g], w'.groups[g];
    assert w'.groups == w.groups[g := qs];
    assert PeersOk(ps, w.now);
    if w.single {
      SinglePickKeeps(ps, w.now, qs);
    } else {
      var marks := if g == from then tried else Cleared(tried, |ps|);
      PickKeeps(ps, marks, b, w.now, qs);
      assert forall i :: 0 <= i < |ps| ==> PeerAfterPick(ps[i], qs[i], i == b, w.now);
    }
    GroupsKept(w, g, qs, w');
    UpCountPositive(ps, b);
    UpCountsPositive(w.groups, g);
    hide GroupsOk, UpCounts, Pick;
  }

  /** The session's own bookkeeping after a get: the peer is new to it, and its bit is set. */
  lemma GrantedOk(w: World, s: Session, g: nat, b: nat, tried': seq<Word>, groups': seq<seq<Peer>>)
    requires GroupsOk(w) && SessionOk(w, s) && !s.held && 0 < w.tries
    requires Taken(w.single, w.groups, s.group, s.tried, w.now, g, b, groups', tried')
    requires b < |w.groups[g]|
    ensures SessionOk(w, Granted(s, g, b, tried'))
  {
    var s' := Granted(s, g, b, tried');
    hide GroupsOk;
    if !w.single {
      var marks := if g == s.group then s.tried else Cleared(s.tried, |w.groups[g]|);
      assert !IsTried(marks, b) && tried' == Mark(marks, b);
      hide Pick;
      forall k | 0 <= k < |s'.obtained|
        ensures var (h, i) := s'.obtained[k]; h <= g && (h == g ==> IsTried(tried', i))
        ensures k < |s.obtained| ==> s'.obtained[k] != (g, b)
      {
        var (h, i) := s'.obtained[k];
        MarkTried(marks, b, i);
        if k < |s.obtained| { assert s'.obtained[k] == s.obtained[k]; }
      }
    }
  }

  lemma GrantFacts(w: World, id: Id, a: Action, w': World)
    requires Inv(w) && Step(w, id, a, w') && a.Connect? && a.got.Got?
    ensures id in w.sessions && !w.sessions[id].held && w.sessions[id].group < |w.groups|
    ensures GroupsOk(w) && Counted(w) && SessionOk(w, w.sessions[id])
    ensures var s := w.sessions[id];
      var g := s.group + a.got.depth;
      && Taken(w.single, w.groups, s.group, s.tried, w.now, g, a.got.peer, w'.groups, a.tried')
      && w'.sessions == w.sessions[id := Granted(s, g, a.got.peer, a.tried')]
    ensures w'.single == w.single && w'.tries == w.tries && w'.now == w.now
  {
    hide GroupsOk, Counted, SessionOk, Taken;
  }

  lemma GrantCounted(w: World, id: Id, s': Session, w': World)
    requires Counted(w) && id in w.sessions && !w.sessions[id].held && s'.held
    requires w'.sessions == w.sessions[id := s'] && |w'.groups| == |w.groups|
    requires forall k :: 0 <= k < |w.groups| ==> |w'.groups[k]| == |w.groups[k]|
    requires forall k, i :: 0 <= k < |w.groups| && 0 <= i < |w.groups[k]| ==>
      w'.groups[k][i].conns == w.groups[k][i].conns + if k == s'.group && i == s'.current then 1 else 0
    ensures Counted(w')
  {
    forall h, i | 0 <= h < |w'.groups| && 0 <= i < |w'.groups[h]|
      ensures w'.groups[h][i].conns == |Holders(w'.sessions, h, i)|
    {
      HoldersAdd(w.sessions, id, s', h, i);
    }
  }

  lemma GrantKeeps(w: World, id: Id, a: Action, w': World)
    requires Inv(w) && Step(w, id, a, w') && a.Connect? && a.got.Got?
    ensures Inv(w')
  {
    hide Step, GroupsOk, Counted, SessionOk, Taken, Holders, CurrentSum;
    GrantFacts(w, id, a, w');
    var s := w.sessions[id];
    var g, b := s.group + a.got.depth, a.got.peer;
    var s' := Granted(s, g, b, a.tried');
    TakenKeeps(w, s.group, s.tried, g, b, w', a.tried');
    GrantedOk(w, s, g, b, a.tried', w'.groups);
    GrantCounted(w, id, s', w');
    SessionsKept(w, w', s');
    forall k | k in w'.sessions ensures SessionOk(w', w'.sessions[k]) {
      if k != id { SessionsKept(w, w', w.sessions[k]); }
    }
  }

  lemma StepKeeps(w: World, id: Id, a: Action, w': World)
    requires Inv(w) && Step(w, id, a, w')
    ensures Inv(w')
  {
    hide Inv, Step;
    match a
    case Open(_) => OpenKeeps(w, id, a, w');
    case Connect(got, _, _) => if got == Busy { BusyKeeps(w, id, a, w'); } else { GrantKeeps(w, id, a, w'); }
    case Retry => RetryKeeps(w, id, a, w');
    case Close(_) => CloseKeeps(w, id, a, w');
    case Notify => NotifyKeeps(w, id, a, w');
    case Tick(_) => TickKeeps(w, id, a, w');
  }
}
