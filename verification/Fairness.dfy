/**
 * Smooth weighted round robin is exactly fair as long as every peer stays eligible at its full
 * weight, whatever else happens to the peers' bookkeeping between the picks.
 */
module Fairness {
  import opened Peers
  import opened RoundRobin

  /** Two states of a group that differ in nothing the weights are computed from. */
  ghost predicate SameWeights(ps: seq<Peer>, qs: seq<Peer>) {
    && |ps| == |qs|
    && forall i :: 0 <= i < |ps| ==>
         ps[i].weight == qs[i].weight && ps[i].current == qs[i].current && ps[i].effective == qs[i].effective
  }

  ghost predicate AllWanted(want: seq<bool>) {
    forall i :: 0 <= i < |want| ==> want[i]
  }

  /**
   * A session takes peer `b` when all are eligible; between two picks connections may come and go,
   * checks may succeed and time may pass (`rs` is the state the pick finds).
   */
  ghost predicate FairStep(ps: seq<Peer>, b: nat, qs: seq<Peer>) {
    exists rs: seq<Peer>, tried: seq<Word>, now: int ::
      && SameWeights(ps, rs)
      && AllWanted(Wanted(rs, tried, now))
      && Takes(ByWeight, rs, Wanted(rs, tried, now), b, now, qs)
  }

  function Total(ps: seq<Peer>): int { TotalWeight(ps, |ps|) }

  /** Peers at full effective weight. */
  ghost predicate FullWeight(ps: seq<Peer>) {
    forall i :: 0 <= i < |ps| ==> ps[i].effective == ps[i].weight && 0 < ps[i].weight
  }

  ghost predicate AtRest(ps: seq<Peer>) {
    0 < |ps| && FullWeight(ps) && forall i :: 0 <= i < |ps| ==> ps[i].current == 0
  }

  lemma {:induction false} FullShare(ps: seq<Peer>, rs: seq<Peer>, want: seq<bool>, k: nat)
    requires FullWeight(ps) && SameWeights(ps, rs) && |want| == |ps| && AllWanted(want) && k <= |ps|
    ensures Share(rs, want, k) == TotalWeight(ps, k)
  {
    if k > 0 { FullShare(ps, rs, want, k - 1); }
  }

  /** What one pick does to the current weights. */
  lemma StepEffect(ps: seq<Peer>, b: nat, qs: seq<Peer>)
    requires FullWeight(ps) && FairStep(ps, b, qs)
    ensures b < |ps| == |qs| && FullWeight(qs)
    ensures forall i :: 0 <= i < |ps| ==>
      && qs[i].weight == ps[i].weight
      && qs[i].current == ps[i].current + ps[i].weight - (if i == b then Total(ps) else 0)
      && ps[i].current + ps[i].weight <= ps[b].current + ps[b].weight
  {
    var rs: seq<Peer>, tried: seq<Word>, now: int :|
      && SameWeights(ps, rs)
      && AllWanted(Wanted(rs, tried, now))
      && Takes(ByWeight, rs, Wanted(rs, tried, now), b, now, qs);
    FullShare(ps, rs, Wanted(rs, tried, now), |ps|);
    hide Wanted, Share, TotalWeight;
  }

  // ----- runs -----

  ghost predicate FairRun(states: seq<seq<Peer>>, picks: seq<nat>) {
    && |states| == |picks| + 1 && AtRest(states[0])
    && forall t :: 0 <= t < |picks| ==> FairStep(states[t], picks[t], states[t + 1])
  }

  /** How often peer `i` is among the first `t` picks. */
  function Chosen(picks: seq<nat>, t: nat, i: nat): nat
    requires t <= |picks|
  {
    if t == 0 then 0 else Chosen(picks, t - 1, i) + if picks[t - 1] == i then 1 else 0
  }

  /** Peers, weights and effective weights stay what they were at the start. */
  lemma {:induction false} RunKeepsWeights(states: seq<seq<Peer>>, picks: seq<nat>, t: nat)
    requires FairRun(states, picks) && t <= |picks|
    ensures |states[t]| == |states[0]| && FullWeight(states[t])
    ensures forall i :: 0 <= i < |states[0]| ==> states[t][i].weight == states[0][i].weight
    ensures Total(states[t]) == Total(states[0])
  {
    if t > 0 {
      RunKeepsWeights(states, picks, t - 1);
      StepEffect(states[t - 1], picks[t - 1], states[t]);
      TotalWeightSame(states[0], states[t], |states[0]|);
    }
  }

  /** A product that the solver does not multiply out. */
  function Times(a: int, b: int): int { a * b }

  lemma OneMore(a: int, b: int)
    ensures Times(a + 1, b) == Times(a, b) + b
  {
  }

  lemma TimesZero(b: int)
    ensures Times(0, b) == 0
  {
  }

  /** The current weight of a peer is its due share minus what it got. */
  lemma {:induction false} Balance(states: seq<seq<Peer>>, picks: seq<nat>, t: nat, i: nat)
    requires FairRun(states, picks) && t <= |picks| && i < |states[0]|
    ensures |states[t]| == |states[0]|
    ensures states[t][i].current ==
            Times(t, states[0][i].weight) - Times(Chosen(picks, t, i), Total(states[0]))
  {
    hide Times, FairStep, FullWeight, Total;
    RunKeepsWeights(states, picks, t);
    TimesZero(states[0][i].weight);
    TimesZero(Total(states[0]));
    if t > 0 {
      Balance(states, picks, t - 1, i);
      RunKeepsWeights(states, picks, t - 1);
      StepEffect(states[t - 1], picks[t - 1], states[t]);
      OneMore(t - 1, states[0][i].weight);
      OneMore(Chosen(picks, t - 1, i), Total(states[0]));
    }
  }

  lemma {:induction false} SomePositive(ps: seq<Peer>, k: nat, m: int)
    requires k <= |ps| && FullWeight(ps)
    requires forall i :: 0 <= i < k ==> ps[i].current + ps[i].weight <= m
    requires 0 < CurrentSum(ps, k) + TotalWeight(ps, k)
    ensures 0 < m
  {
    if ps[k - 1].current + ps[k - 1].weight <= 0 {
      SomePositive(ps, k - 1, m);
    }
  }

  lemma {:induction false} TotalPositive(ps: seq<Peer>, k: nat)
    requires 0 < k <= |ps| && FullWeight(ps)
    ensures 0 < TotalWeight(ps, k)
  {
    if k > 1 { TotalPositive(ps, k - 1); }
  }

  /** The sum of the current weights stays zero. */
  lemma {:induction false} SumStaysZero(states: seq<seq<Peer>>, picks: seq<nat>, t: nat)
    requires FairRun(states, picks) && t <= |picks|
    ensures CurrentSum(states[t], |states[t]|) == 0
  {
    if t == 0 {
      SumZero(states[0], |states[0]|);
    } else {
      SumStaysZero(states, picks, t - 1);
      var ps, b, qs := states[t - 1], picks[t - 1], states[t];
      hide WeightedPick, Usable, Share, Total, CurrentSum;
      var rs: seq<Peer>, tried: seq<Word>, now: int :|
        && SameWeights(ps, rs)
        && AllWanted(Wanted(rs, tried, now))
        && Takes(ByWeight, rs, Wanted(rs, tried, now), b, now, qs);
      WeightedPickIsPick(rs, Wanted(rs, tried, now), tried, b, now);
      CurrentSumSame(ps, rs, |ps|);
    }
  }

  /** The chosen peer's new weight before the total is taken back is positive. */
  lemma ChosenPositive(ps: seq<Peer>, b: nat, qs: seq<Peer>)
    requires FullWeight(ps) && FairStep(ps, b, qs) && 0 < Total(ps) && CurrentSum(ps, |ps|) == 0
    ensures b < |ps| && 0 < ps[b].current + ps[b].weight
  {
    StepEffect(ps, b, qs);
    SomePositive(ps, |ps|, ps[b].current + ps[b].weight);
  }

  /** No current weight falls to minus the total weight. */
  lemma {:induction false} AboveMinusTotal(states: seq<seq<Peer>>, picks: seq<nat>, t: nat, i: nat)
    requires FairRun(states, picks) && t <= |picks| && i < |states[0]|
    ensures |states[t]| == |states[0]| && 0 < Total(states[0])
    ensures 0 - Total(states[0]) < states[t][i].current
  {
    RunKeepsWeights(states, picks, t);
    TotalPositive(states[0], |states[0]|);
    if t > 0 {
      AboveMinusTotal(states, picks, t - 1, i);
      RunKeepsWeights(states, picks, t - 1);
      SumStaysZero(states, picks, t - 1);
      StepEffect(states[t - 1], picks[t - 1], states[t]);
      ChosenPositive(states[t - 1], picks[t - 1], states[t]);
    }
  }

  /** After any number of picks no peer is a whole pick or more ahead of its share. */
  lemma NeverAhead(states: seq<seq<Peer>>, picks: seq<nat>, t: nat, i: nat)
    requires FairRun(states, picks) && t <= |picks| && i < |states[0]|
    ensures Chosen(picks, t, i) * Total(states[0]) < t * states[0][i].weight + Total(states[0])
  {
    hide FairRun, Total, Chosen;
    Balance(states, picks, t, i);
    AboveMinusTotal(states, picks, t, i);
  }

  lemma {:induction false} ZeroTerms(ps: seq<Peer>, k: nat, i: nat)
    requires i < k <= |ps| && forall j :: 0 <= j < k ==> 0 <= ps[j].current
    ensures 0 <= CurrentSum(ps, k) && ps[i].current <= CurrentSum(ps, k)
  {
    if k > 1 {
      ZeroTerms(ps, k - 1, if i < k - 1 then i else 0);
    }
  }

  lemma Regroup(cycles: nat, total: nat, w: nat, n: nat)
    ensures Times(cycles * total, w) - Times(n, total) == Times(cycles * w - n, total)
  {
    assert cycles * total * w == cycles * w * total;
    assert (cycles * w - n) * total == cycles * w * total - n * total;
  }

  lemma MultipleSign(d: int, total: nat)
    requires 0 < total
    ensures 0 - total < Times(d, total) ==> 0 <= Times(d, total)
    ensures Times(d, total) == 0 ==> d == 0
  {
    if d < 0 { assert d * total <= -1 * total; }
    if d > 0 { assert d * total >= total; }
  }

  lemma RunShape(states: seq<seq<Peer>>, picks: seq<nat>)
    requires FairRun(states, picks)
    ensures |states| == |picks| + 1
  {
  }

  lemma WholeCycles(current: int, t: nat, cycles: nat, total: nat, w: nat, n: nat)
    requires t == Times(cycles, total) && 0 < total && 0 - total < current
    requires current == Times(t, w) - Times(n, total)
    ensures 0 <= current == Times(Times(cycles, w) - n, total)
  {
    Regroup(cycles, total, w, n);
    MultipleSign(cycles * w - n, total);
  }

  /** After whole cycles every current weight is a nonnegative multiple of the total weight. */
  lemma CycleBalance(states: seq<seq<Peer>>, picks: seq<nat>, cycles: nat, t: nat, i: nat)
    requires FairRun(states, picks) && i < |states[0]| && t == Times(cycles, Total(states[0])) && t <= |picks|
    ensures |states[t]| == |states[0]| && 0 <= states[t][i].current && 0 < Total(states[0])
    ensures states[t][i].current ==
            Times(Times(cycles, states[0][i].weight) - Chosen(picks, t, i), Total(states[0]))
  {
    hide *;
    RunShape(states, picks);
    AboveMinusTotal(states, picks, t, i);
    Balance(states, picks, t, i);
    WholeCycles(states[t][i].current, t, cycles, Total(states[0]), states[0][i].weight, Chosen(picks, t, i));
  }

  lemma CycleRest(states: seq<seq<Peer>>, picks: seq<nat>, cycles: nat, t: nat, i: nat)
    requires FairRun(states, picks) && i < |states[0]| && t == Times(cycles, Total(states[0])) && t <= |picks|
    ensures |states[t]| == |states[0]| && states[t][i].current == 0
    ensures Chosen(picks, t, i) == Times(cycles, states[0][i].weight)
  {
    hide Times, Total, Chosen, FairStep;
    assert |states[0]| > 0;
    forall j | 0 <= j < |states[0]| ensures |states[t]| == |states[0]| && 0 <= states[t][j].current {
      CycleBalance(states, picks, cycles, t, j);
    }
    SumStaysZero(states, picks, t);
    ZeroTerms(states[t], |states[t]|, i);
    CycleBalance(states, picks, cycles, t, i);
    MultipleSign(Times(cycles, states[0][i].weight) - Chosen(picks, t, i), Total(states[0]));
  }

  /** After every full cycle each peer has had exactly its weight in picks, and all is as at the start. */
  lemma ExactlyFair(states: seq<seq<Peer>>, picks: seq<nat>, cycles: nat)
    requires FairRun(states, picks) && 0 <= cycles * Total(states[0]) <= |picks|
    ensures var t := cycles * Total(states[0]);
      && AtRest(states[t])
      && forall i :: 0 <= i < |states[0]| ==> Chosen(picks, t, i) == cycles * states[0][i].weight
  {
    var t := cycles * Total(states[0]);
    assert t == Times(cycles, Total(states[0]));
    RunKeepsWeights(states, picks, t);
    forall i | 0 <= i < |states[0]|
      ensures states[t][i].current == 0 && Chosen(picks, t, i) == cycles * states[0][i].weight
    {
      CycleRest(states, picks, cycles, t, i);
    }
  }

  /** The round robin get of a session that finds every peer eligible is such a step. */
  lemma GetIsFairStep(gs: seq<seq<Peer>>, tried: seq<Word>, now: int, got: Got, gs': seq<seq<Peer>>, tried': seq<Word>)
    requires GetBy(ByWeight, false, gs, tried, now, got, gs', tried')
    requires 0 < |gs[0]| && AllWanted(Wanted(gs[0], tried, now))
    ensures got.Got? && got.depth == 0 && FairStep(gs[0], got.peer, gs'[0])
  {
    assert Wanted(gs[0], tried, now)[0];
    assert SameWeights(gs[0], gs[0]);
  }
}
