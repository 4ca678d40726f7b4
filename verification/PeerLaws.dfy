/** What a get gives and what it leaves behind, in the fields of the peers. */
module PeerLaws {
  import opened Peers
  import opened RoundRobin
  import opened Choosers
  import opened Probing
  import opened HashRing
  import opened ConsistentHash
  import opened Options

  /** The peer is up, below its connection limit, and not disabled by failures that are too recent. */
  predicate MayTake(p: Peer, now: int) {
    && !p.down && (p.maxConns == 0 || p.conns < p.maxConns)
    && (p.maxFails == 0 || p.fails < p.maxFails || now - p.checked > p.failTimeout)
  }

  /** The session has had the peer from this group: its bit is set in the word that holds it. */
  predicate Had(tried: seq<Word>, i: nat) { i / 64 < |tried| && i % 64 in tried[i / 64] }

  lemma WantedMeans(ps: seq<Peer>, tried: seq<Word>, now: int, i: nat)
    requires i < |ps|
    ensures Wanted(ps, tried, now)[i] <==> MayTake(ps[i], now) && !Had(tried, i)
  {
  }

  lemma ClearedHas(tried: seq<Word>, n: nat, i: nat)
    requires InBitset(tried, n) && i < n
    ensures !Had(Cleared(tried, n), i)
  {
    assert !IsTried(Cleared(tried, n), i);
  }

  /** A get gives up only if every peer, in the backup group too, has been tried or may not be taken. */
  lemma BusyMeans(m: Method, gs: seq<seq<Peer>>, tried: seq<Word>, now: int, gs': seq<seq<Peer>>, tried': seq<Word>)
    requires 0 < |gs| <= 2 && GetBy(m, false, gs, tried, now, Busy, gs', tried')
    ensures gs' == gs
    ensures forall i :: 0 <= i < |gs[0]| ==> Had(tried, i) || !MayTake(gs[0][i], now)
    ensures |gs| == 2 ==> forall i :: 0 <= i < |gs[1]| ==> !MayTake(gs[1][i], now)
  {
    hide MayTake, Had;
    forall i | 0 <= i < |gs[0]| ensures Had(tried, i) || !MayTake(gs[0][i], now) {
      WantedMeans(gs[0], tried, now, i);
    }
    if |gs| == 2 {
      var marks := Cleared(tried, |gs[1]|);
      assert gs[1..] == [gs[1]] && gs'[1..] == [gs'[1]];
      assert NoneWanted(Wanted(gs[1], marks, now));
      forall i | 0 <= i < |gs[1]| ensures !MayTake(gs[1][i], now) {
        WantedMeans(gs[1], marks, now, i);
        ClearedHas(tried, |gs[1]|, i);
      }
    }
  }

  /** Which group a get takes its peer from: the current one while it has any to take. */
  lemma GotFrom(m: Method, gs: seq<seq<Peer>>, tried: seq<Word>, now: int, got: Got,
                gs': seq<seq<Peer>>, tried': seq<Word>) returns (marks: seq<Word>)
    requires 0 < |gs| <= 2 && GetBy(m, false, gs, tried, now, got, gs', tried') && got.Got?
    ensures got.depth < |gs| == |gs'| && got.peer / 64 < |marks|
    ensures got.depth == 0 ==> marks == tried
    ensures got.depth == 1 ==>
      && (forall i :: 0 <= i < |gs[0]| ==> Had(tried, i) || !MayTake(gs[0][i], now))
      && (forall i :: 0 <= i < |gs[1]| ==> !Had(marks, i))
    ensures Takes(m, gs[got.depth], Wanted(gs[got.depth], marks, now), got.peer, now, gs'[got.depth])
    ensures tried' == marks[got.peer / 64 := marks[got.peer / 64] + {got.peer % 64}]
    ensures forall g :: 0 <= g < |gs| && g != got.depth ==> gs'[g] == gs[g]
  {
    hide MayTake, Had, Takes;
    if !NoneWanted(Wanted(gs[0], tried, now)) {
      marks := tried;
      assert |gs| == 2 ==> gs'[1] == gs'[1..][0] == gs[1..][0];
    } else {
      forall i | 0 <= i < |gs[0]| ensures Had(tried, i) || !MayTake(gs[0][i], now) {
        WantedMeans(gs[0], tried, now, i);
      }
      marks := Cleared(tried, |gs[1]|);
      assert gs[1..] == [gs[1]] && gs'[1..] == [gs'[1]];
      forall i | 0 <= i < |gs[1]| ensures !Had(marks, i) {
        ClearedHas(tried, |gs[1]|, i);
      }
    }
  }

  /** The peers whose current weights a get compares: for least_conn those as lightly loaded as the one taken. */
  ghost predicate Competes(m: Method, ps: seq<Peer>, marks: seq<Word>, now: int, b: nat, i: nat) {
    && b < |ps| && i < |ps| && MayTake(ps[i], now) && !Had(marks, i)
    && (m.ByConns? ==> ps[i].conns * ps[b].weight == ps[b].conns * ps[i].weight)
  }

  /** Only the taken peer of all that could be taken would have done as well. */
  ghost predicate Unrivalled(m: Method, ps: seq<Peer>, marks: seq<Word>, now: int, b: nat) {
    m.ByConns? && forall i :: 0 <= i < |ps| && Competes(m, ps, marks, now, b, i) ==> i == b
  }

  lemma CompetesMeans(m: Method, ps: seq<Peer>, marks: seq<Word>, now: int, b: nat, i: nat)
    requires b < |ps| && i < |ps|
    ensures Competes(m, ps, marks, now, b, i) <==>
      if m.ByWeight? then Wanted(ps, marks, now)[i] else Ties(ps, Wanted(ps, marks, now), b)[i]
  {
    WantedMeans(ps, marks, now, i);
  }

  /** What is taken may be taken and is the best; for least_conn no other is less loaded. */
  lemma TakenIsBest(m: Method, ps: seq<Peer>, marks: seq<Word>, now: int, b: nat, qs: seq<Peer>)
    requires Takes(m, ps, Wanted(ps, marks, now), b, now, qs)
    ensures b < |ps| && MayTake(ps[b], now) && !Had(marks, b)
    ensures m.ByConns? ==> forall i :: 0 <= i < |ps| && MayTake(ps[i], now) && !Had(marks, i) ==>
      ps[b].conns * ps[i].weight <= ps[i].conns * ps[b].weight
    ensures forall i :: 0 <= i < |ps| && Competes(m, ps, marks, now, b, i) ==>
      var best, other := ps[b].current + ps[b].effective, ps[i].current + ps[i].effective;
      if Unrivalled(m, ps, marks, now, b) then i == b else if i < b then other < best else other <= best
  {
    hide MayTake, Had, Competes;
    var want := Wanted(ps, marks, now);
    WantedMeans(ps, marks, now, b);
    forall i | 0 <= i < |ps|
      ensures want[i] <==> MayTake(ps[i], now) && !Had(marks, i)
      ensures Competes(m, ps, marks, now, b, i) <==> if m.ByWeight? then want[i] else Ties(ps, want, b)[i]
    {
      WantedMeans(ps, marks, now, i);
      CompetesMeans(m, ps, marks, now, b, i);
    }
  }

  /** What a get does to the peers of the group it takes from. */
  lemma TakenLeaves(m: Method, ps: seq<Peer>, marks: seq<Word>, now: int, b: nat, qs: seq<Peer>)
    requires Takes(m, ps, Wanted(ps, marks, now), b, now, qs)
    ensures b < |ps| == |qs| && CurrentSum(qs, |qs|) == CurrentSum(ps, |ps|)
    ensures qs[b].conns == ps[b].conns + 1
    ensures qs[b].checked == if now - ps[b].checked > ps[b].failTimeout then now else ps[b].checked
    ensures forall i :: 0 <= i < |ps| ==>
      && SameConfig(ps[i], qs[i]) && qs[i].fails == ps[i].fails && qs[i].accessed == ps[i].accessed
      && (i != b ==> qs[i].conns == ps[i].conns && qs[i].checked == ps[i].checked)
      && if Unrivalled(m, ps, marks, now, b) || !Competes(m, ps, marks, now, b, i)
         then qs[i].effective == ps[i].effective && qs[i].current == ps[i].current
         else
           && qs[i].effective == (if ps[i].effective < ps[i].weight then ps[i].effective + 1 else ps[i].effective)
           && (i != b ==> qs[i].current == ps[i].current + ps[i].effective)
  {
    hide MayTake, Had, Competes;
    var want := Wanted(ps, marks, now);
    WantedMeans(ps, marks, now, b);
    var part := if m.ByWeight? then want else Ties(ps, want, b);
    forall i | 0 <= i < |ps| ensures Competes(m, ps, marks, now, b, i) <==> part[i] {
      CompetesMeans(m, ps, marks, now, b, i);
    }
    if m.ByConns? && OnlyOne(part, b) {
      PlainPickIsPick(ps, marks, b, now);
    } else {
      WeightedPickIsPick(ps, part, marks, b, now);
      SweptWeights(ps, part);
    }
  }

  /** A group of one peer keeps no failures: only its being up and its connection limit matter. */
  lemma SingleMeans(m: Method, gs: seq<seq<Peer>>, tried: seq<Word>, now: int, got: Got,
                    gs': seq<seq<Peer>>, tried': seq<Word>)
    requires GetBy(m, true, gs, tried, now, got, gs', tried')
    ensures |gs| == |gs'| == 1 && |gs[0]| == |gs'[0]| == 1 && tried' == tried
    ensures var p := gs[0][0];
      if !p.down && (p.maxConns == 0 || p.conns < p.maxConns) then
        got == Got(0, 0) && gs'[0][0] == p.(conns := p.conns + 1)
      else got == Busy && gs' == gs
  {
  }

  // ----- the probing methods -----

  function ProbeSum(h: nat -> nat, k: nat): nat { if k == 0 then 0 else ProbeSum(h, k - 1) + h(k - 1) }

  lemma WrappedSum(a: nat, b: nat)
    ensures (a % 0x1_0000_0000 + b) % 0x1_0000_0000 == (a + b) % 0x1_0000_0000
  {
  }

  lemma {:induction false} HashIsSum(h: nat -> nat, k: nat)
    ensures RunningHash(h, k) == ProbeSum(h, k) % 0x1_0000_0000
  {
    if k > 0 {
      HashIsSum(h, k - 1);
      WrappedSum(ProbeSum(h, k - 1), h(k - 1));
    }
  }

  /** A probe looks at the peer in whose share of the total weight the sum of all probes falls. */
  lemma CandidateMeans(ps: seq<Peer>, h: nat -> nat, r: nat)
    requires 0 < TotalWeight(ps, |ps|)
    ensures var p := Candidate(ps, h, r);
      TotalWeight(ps, p) <= ProbeSum(h, r + 1) % 0x1_0000_0000 % TotalWeight(ps, |ps|) < TotalWeight(ps, p + 1)
  {
    HashIsSum(h, r + 1);
    hide RunningHash, TotalWeight, ProbeSum;
  }

  lemma DrawnMeans(ps: seq<Peer>, draws: nat -> nat, r: nat)
    requires 0 < TotalWeight(ps, |ps|)
    ensures var p := Drawn(ps, draws, r);
      TotalWeight(ps, p) <= draws(r) % TotalWeight(ps, |ps|) < TotalWeight(ps, p + 1)
  {
    hide TotalWeight;
  }

  /** What a probing method takes, and what it leaves behind. */
  lemma ProbedMeans(gs: seq<seq<Peer>>, tried: seq<Word>, now: int, b: nat, gs': seq<seq<Peer>>, tried': seq<Word>)
    requires ProbedGet(gs, tried, now, b, gs', tried')
    ensures 0 < |gs| == |gs'| && b < |gs[0]| && MayTake(gs[0][b], now) && !Had(tried, b)
    ensures b / 64 < |tried| && tried' == tried[b / 64 := tried[b / 64] + {b % 64}]
    ensures forall g :: 0 < g < |gs| ==> gs'[g] == gs[g]
    ensures var p := gs[0][b];
      gs'[0] == gs[0][b := p.(conns := p.conns + 1,
                              checked := if now - p.checked > p.failTimeout then now else p.checked)]
  {
    WantedMeans(gs[0], tried, now, b);
    hide MayTake, Had;
    assert forall g :: 0 < g < |gs| ==> gs'[g] == gs'[1..][g - 1] && gs[g] == gs[1..][g - 1];
  }

  /** Of two peers that were drawn the one that is not more loaded is taken. */
  lemma DrawMeans(ps: seq<Peer>, want: seq<bool>, draws: nat -> nat, two: bool, from: nat, to: nat, b: nat)
    requires |want| == |ps| && 0 < TotalWeight(ps, |ps|) && DrawEnds(ps, want, draws, two, from, to, Some(b))
    ensures from < to && b < |ps| && want[b]
    ensures var last := Drawn(ps, draws, to - 1);
      if !two then
        b == last && forall r: nat :: from <= r < to - 1 ==> !want[Drawn(ps, draws, r)]
      else exists first: nat ::
        && first < |ps| && first != last && (b == first || b == last) && want[first] && want[last]
        && (exists r: nat :: from <= r < to - 1 && Drawn(ps, draws, r) == first)
        && (forall r: nat :: from <= r < to - 1 && want[Drawn(ps, draws, r)] ==> Drawn(ps, draws, r) == first)
        && var other := if b == first then last else first;
          ps[b].conns * ps[other].weight <= ps[other].conns * ps[b].weight
  {
    hide Drawn, TotalWeight;
    if two {
      var last := Drawn(ps, draws, to - 1);
      var first: nat :|
        && Drew(ps, want, draws, from, to - 1, Some(first)) && first != last
        && b == if LessLoaded(ps[first], ps[last]) then first else last;
    }
  }

  /** What consistent hashing takes: the best of the peers of the server it came to. */
  lemma RingMeans(gs: seq<seq<Peer>>, tried: seq<Word>, now: int, server: nat, b: nat,
                  gs': seq<seq<Peer>>, tried': seq<Word>)
    requires RingGet(gs, tried, now, server, b, gs', tried')
    ensures 0 < |gs| == |gs'| && b < |gs[0]| == |gs'[0]| && gs[0][b].server == server
    ensures MayTake(gs[0][b], now) && !Had(tried, b)
    ensures forall i :: 0 <= i < |gs[0]| && MayTake(gs[0][i], now) && !Had(tried, i) && gs[0][i].server == server ==>
      var best, other := gs[0][b].current + gs[0][b].effective, gs[0][i].current + gs[0][i].effective;
      if i < b then other < best else other <= best
    ensures b / 64 < |tried| && tried' == tried[b / 64 := tried[b / 64] + {b % 64}]
    ensures gs'[0][b].conns == gs[0][b].conns + 1
    ensures forall i :: 0 <= i < |gs[0]| && i != b ==> gs'[0][i].conns == gs[0][i].conns
    ensures forall g :: 0 < g < |gs| ==> gs'[g] == gs[g]
  {
    hide MayTake, Had;
    var ps := gs[0];
    var want := Matching(ps, Wanted(ps, tried, now), server);
    forall i | 0 <= i < |ps|
      ensures want[i] <==> MayTake(ps[i], now) && !Had(tried, i) && ps[i].server == server
    {
      WantedMeans(ps, tried, now, i);
    }
    WeightedPickIsPick(ps, want, tried, b, now);
    assert forall g :: 0 < g < |gs| ==> gs'[g] == gs'[1..][g - 1] && gs[g] == gs[1..][g - 1];
  }

  /** The servers at the ring positions it passed on the way there had no peer to take. */
  lemma WalkMeans(ps: seq<Peer>, tried: seq<Word>, now: int, ring: seq<Point>, start: nat, n: nat, k: nat, i: nat)
    requires 0 < |ring| && AllBusy(ps, Wanted(ps, tried, now), ring, start, n) && k < n && i < |ps|
    requires ps[i].server == ring[(start + k) % 0x1_0000_0000 % |ring|].server
    ensures Had(tried, i) || !MayTake(ps[i], now)
  {
    hide MayTake, Had;
    WantedMeans(ps, tried, now, i);
    assert NoneWanted(Matching(ps, Wanted(ps, tried, now), ServerAt(ring, Place(start, k))));
  }
}
