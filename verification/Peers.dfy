/**
 * Upstream peers, what makes one usable, and what a pick does to a group of them.
 * Every balancing method of the stream module ends in one of the picks described here.
 */
module Peers {
  import opened Options

  /** `server` stands for the configured server name a peer was resolved from. */
  datatype Peer = Peer(
    server: nat, weight: nat, current: int, effective: int,
    conns: nat, maxConns: nat,
    fails: nat, maxFails: nat, failTimeout: int, accessed: int, checked: int,
    down: bool)

  predicate Disabled(p: Peer) { 0 < p.maxFails <= p.fails }

  predicate Resting(p: Peer, now: int) { Disabled(p) && now - p.checked <= p.failTimeout }

  predicate Full(p: Peer) { 0 < p.maxConns <= p.conns }

  predicate Usable(p: Peer, now: int) { !p.down && !Resting(p, now) && !Full(p) }

  // ----- the tried bitset -----

  /** A machine word of the bitset, as the set of its bits that are 1. */
  type Word = set<nat>

  const WORD_BITS := 64

  function WordsFor(n: nat): nat { (n + (WORD_BITS - 1)) / WORD_BITS }

  predicate InBitset(tried: seq<Word>, n: nat) { WordsFor(n) <= |tried| }

  lemma WordInside(tried: seq<Word>, n: nat, i: nat)
    requires InBitset(tried, n) && i < n
    ensures i / WORD_BITS < |tried|
  {
  }

  predicate IsTried(tried: seq<Word>, i: nat) {
    i / WORD_BITS < |tried| && i % WORD_BITS in tried[i / WORD_BITS]
  }

  function Mark(tried: seq<Word>, i: nat): seq<Word>
    requires i / WORD_BITS < |tried|
  {
    tried[i / WORD_BITS := tried[i / WORD_BITS] + {i % WORD_BITS}]
  }

  lemma MarkTried(tried: seq<Word>, i: nat, j: nat)
    requires i / WORD_BITS < |tried|
    ensures IsTried(Mark(tried, i), j) <==> i == j || IsTried(tried, j)
  {
    if i / WORD_BITS == j / WORD_BITS && i % WORD_BITS == j % WORD_BITS {
      assert i == WORD_BITS * (i / WORD_BITS) + i % WORD_BITS;
      assert j == WORD_BITS * (j / WORD_BITS) + j % WORD_BITS;
    }
  }

  /** The words that cover a group of `n` peers are zeroed when the session moves to that group. */
  function Cleared(tried: seq<Word>, n: nat): (r: seq<Word>)
    requires InBitset(tried, n)
    ensures |r| == |tried|
    ensures forall i: nat :: i < n ==> !IsTried(r, i)
  {
    seq(|tried|, k requires 0 <= k < |tried| => if k < WordsFor(n) then {} else tried[k])
  }

  // ----- weights -----

  /** What a smooth round robin sweep does to a peer that takes part. */
  function Bump(p: Peer): Peer {
    p.(current := p.current + p.effective,
       effective := if p.effective < p.weight then p.effective + 1 else p.effective)
  }

  function BumpAll(ps: seq<Peer>, want: seq<bool>): (r: seq<Peer>)
    requires |ps| == |want|
    ensures |r| == |ps|
    ensures forall i :: 0 <= i < |ps| ==> r[i] == if want[i] then Bump(ps[i]) else ps[i]
  {
    seq(|ps|, i requires 0 <= i < |ps| => if want[i] then Bump(ps[i]) else ps[i])
  }

  /** The total of the effective weights taking part among the first `k` peers. */
  function Share(ps: seq<Peer>, want: seq<bool>, k: nat): int
    requires k <= |ps| == |want|
  {
    if k == 0 then 0 else Share(ps, want, k - 1) + if want[k - 1] then ps[k - 1].effective else 0
  }

  lemma ShareStep(ps: seq<Peer>, want: seq<bool>, k: nat)
    requires k < |ps| == |want|
    ensures Share(ps, want, k + 1) == Share(ps, want, k) + if want[k] then ps[k].effective else 0
  {
  }

  function CurrentSum(ps: seq<Peer>, k: nat): int
    requires k <= |ps|
  {
    if k == 0 then 0 else CurrentSum(ps, k - 1) + ps[k - 1].current
  }

  function TotalWeight(ps: seq<Peer>, k: nat): nat
    requires k <= |ps|
  {
    if k == 0 then 0 else TotalWeight(ps, k - 1) + ps[k - 1].weight
  }

  lemma {:induction false} TotalWeightSame(ps: seq<Peer>, qs: seq<Peer>, k: nat)
    requires k <= |ps| == |qs| && forall i :: 0 <= i < |ps| ==> ps[i].weight == qs[i].weight
    ensures TotalWeight(ps, k) == TotalWeight(qs, k)
  {
    if k > 0 { TotalWeightSame(ps, qs, k - 1); }
  }

  lemma {:induction false} TotalWeightGrows(ps: seq<Peer>, j: nat, k: nat)
    requires j <= k <= |ps|
    ensures TotalWeight(ps, j) <= TotalWeight(ps, k)
    decreases k - j
  {
    if j < k { TotalWeightGrows(ps, j, k - 1); }
  }

  lemma {:induction false} SumZero(ps: seq<Peer>, k: nat)
    requires k <= |ps| && forall i :: 0 <= i < |ps| ==> ps[i].current == 0
    ensures CurrentSum(ps, k) == 0
  {
    if k > 0 { SumZero(ps, k - 1); }
  }

  lemma {:induction false} BumpSum(ps: seq<Peer>, want: seq<bool>, k: nat)
    requires k <= |ps| == |want|
    ensures CurrentSum(BumpAll(ps, want), k) == CurrentSum(ps, k) + Share(ps, want, k)
  {
    if k > 0 { BumpSum(ps, want, k - 1); }
  }

  lemma {:induction false} CurrentSumUpdate(ps: seq<Peer>, b: nat, p: Peer, k: nat)
    requires b < |ps| && k <= |ps|
    ensures CurrentSum(ps[b := p], k) == CurrentSum(ps, k) + if b < k then p.current - ps[b].current else 0
  {
    if k > 0 { CurrentSumUpdate(ps, b, p, k - 1); }
  }

  lemma {:induction false} CurrentSumSame(ps: seq<Peer>, qs: seq<Peer>, k: nat)
    requires k <= |ps| == |qs|
    requires forall i :: 0 <= i < k ==> ps[i].current == qs[i].current
    ensures CurrentSum(ps, k) == CurrentSum(qs, k)
  {
    if k > 0 { CurrentSumSame(ps, qs, k - 1); }
  }

  /** The first of the peers taking part, among the first `k`, with the largest current weight after the sweep. */
  ghost predicate BestAmong(ps: seq<Peer>, want: seq<bool>, k: nat, best: Option<nat>)
    requires k <= |ps| == |want|
  {
    match best
    case None => forall j :: 0 <= j < k ==> !want[j]
    case Some(b) =>
      && b < k && want[b]
      && forall j :: 0 <= j < k && want[j] ==>
           var q, p := Bump(ps[j]).current, Bump(ps[b]).current;
           if j < b then q < p else q <= p
  }

  ghost predicate IsBest(ps: seq<Peer>, want: seq<bool>, b: nat)
    requires |ps| == |want|
  {
    BestAmong(ps, want, |ps|, Some(b))
  }

  lemma BestStep(ps: seq<Peer>, want: seq<bool>, k: nat, best: Option<nat>)
    requires k < |ps| == |want| && BestAmong(ps, want, k, best)
    ensures BestAmong(ps, want, k + 1,
      if want[k] && (best == None || Bump(ps[k]).current > Bump(ps[best.value]).current) then Some(k) else best)
  {
  }

  /** A sweep that has done the first `i` peers; `best` is among them as they are now. */
  ghost predicate Sweeping(qs: seq<Peer>, ps: seq<Peer>, want: seq<bool>, i: nat, best: Option<nat>, total: int) {
    && i <= |ps| == |want| == |qs|
    && (forall j :: 0 <= j < i ==> qs[j] == if want[j] then Bump(ps[j]) else ps[j])
    && (forall j :: i <= j < |ps| ==> qs[j] == ps[j])
    && total == Share(ps, want, i) && BestAmong(ps, want, i, best)
  }

  lemma SweepBegin(ps: seq<Peer>, want: seq<bool>)
    requires |ps| == |want|
    ensures Sweeping(ps, ps, want, 0, None, 0)
  {
  }

  /** What the sweep does to the next peer if it takes part, and if it does not. */
  lemma SweepTurn(qs: seq<Peer>, ps: seq<Peer>, want: seq<bool>, i: nat, best: Option<nat>, total: int)
    requires Sweeping(qs, ps, want, i, best, total) && i < |ps|
    ensures |qs| == |want| == |ps| && qs[i] == ps[i] && (best.Some? ==> best.value < i)
    ensures !want[i] ==> Sweeping(qs, ps, want, i + 1, best, total)
    ensures want[i] ==>
      Sweeping(qs[i := Bump(qs[i])], ps, want, i + 1,
               if best == None || Bump(qs[i]).current > qs[best.value].current then Some(i) else best,
               total + qs[i].effective)
  {
    BestStep(ps, want, i, best);
    ShareStep(ps, want, i);
    hide Share, Bump;
  }

  lemma SweepEnd(qs: seq<Peer>, ps: seq<Peer>, want: seq<bool>, best: Option<nat>, total: int)
    requires Sweeping(qs, ps, want, |ps|, best, total)
    ensures |want| == |ps| && qs == BumpAll(ps, want)
    ensures BestAmong(ps, want, |ps|, best) && total == Share(ps, want, |ps|)
  {
  }

  /** The configured fields, which no operation changes. */
  predicate SameConfig(p: Peer, q: Peer) {
    && p.server == q.server && p.weight == q.weight && p.maxConns == q.maxConns
    && p.maxFails == q.maxFails && p.failTimeout == q.failTimeout && p.down == q.down
  }

  /** Each peer taking part gains its effective weight, and one of what failures took from that. */
  lemma SweptWeights(ps: seq<Peer>, want: seq<bool>)
    requires |ps| == |want|
    ensures forall i :: 0 <= i < |ps| && want[i] ==>
      && BumpAll(ps, want)[i].current == ps[i].current + ps[i].effective
      && BumpAll(ps, want)[i].effective ==
         if ps[i].effective < ps[i].weight then ps[i].effective + 1 else ps[i].effective
    ensures forall i :: 0 <= i < |ps| && !want[i] ==> BumpAll(ps, want)[i] == ps[i]
    ensures forall i :: 0 <= i < |ps| ==> SameConfig(ps[i], BumpAll(ps, want)[i])
  {
  }

  /** The tests of a sweep, one by one. */
  lemma SweepTests(ps: seq<Peer>, tried: seq<Word>, i: nat, now: int)
    requires InBitset(tried, |ps|) && i < |ps|
    ensures WORD_BITS == 64 && i / WORD_BITS < |tried|
    ensures !IsTried(tried, i) && Usable(ps[i], now) <==>
      i % WORD_BITS !in tried[i / WORD_BITS] && !ps[i].down && !Resting(ps[i], now) && !Full(ps[i])
  {
    WordInside(tried, |ps|, i);
  }

  ghost predicate NoneWanted(want: seq<bool>) {
    forall i :: 0 <= i < |want| ==> !want[i]
  }

  /** The check time of a peer that has just been picked. */
  function Touched(p: Peer, now: int): int {
    if now - p.checked > p.failTimeout then now else p.checked
  }

  /** A weighted pick: the sweep, and the whole share taken back from the chosen peer. */
  function WeightedPick(ps: seq<Peer>, want: seq<bool>, b: nat, now: int): seq<Peer>
    requires b < |ps| == |want|
  {
    var swept := BumpAll(ps, want);
    swept[b := swept[b].(
      current := swept[b].current - Share(ps, want, |ps|),
      checked := Touched(ps[b], now),
      conns := ps[b].conns + 1)]
  }

  /** A pick that leaves the weights alone. */
  function PlainPick(ps: seq<Peer>, b: nat, now: int): seq<Peer>
    requires b < |ps|
  {
    ps[b := ps[b].(checked := Touched(ps[b], now), conns := ps[b].conns + 1)]
  }

  // ----- what every pick has in common -----

  ghost predicate PeerAfterPick(p: Peer, q: Peer, chosen: bool, now: int) {
    && SameConfig(p, q) && q.fails == p.fails && q.accessed == p.accessed
    && q.conns == (if chosen then p.conns + 1 else p.conns)
    && q.checked == (if chosen then Touched(p, now) else p.checked)
    && p.effective <= q.effective && (q.effective == p.effective || q.effective <= p.weight)
  }

  /** From `ps` a usable, untried peer `b` is picked at time `now`, giving `qs`. */
  ghost predicate Pick(ps: seq<Peer>, tried: seq<Word>, b: nat, now: int, qs: seq<Peer>) {
    && b < |ps| == |qs|
    && !IsTried(tried, b) && Usable(ps[b], now)
    && CurrentSum(qs, |qs|) == CurrentSum(ps, |ps|)
    && forall j :: 0 <= j < |ps| ==> PeerAfterPick(ps[j], qs[j], j == b, now)
  }

  lemma WeightedPickIsPick(ps: seq<Peer>, want: seq<bool>, tried: seq<Word>, b: nat, now: int)
    requires b < |ps| == |want| && want[b]
    requires !IsTried(tried, b) && Usable(ps[b], now)
    ensures Pick(ps, tried, b, now, WeightedPick(ps, want, b, now))
  {
    BumpSum(ps, want, |ps|);
    var swept := BumpAll(ps, want);
    CurrentSumUpdate(swept, b, WeightedPick(ps, want, b, now)[b], |ps|);
  }

  lemma PlainPickIsPick(ps: seq<Peer>, tried: seq<Word>, b: nat, now: int)
    requires b < |ps| && !IsTried(tried, b) && Usable(ps[b], now)
    ensures Pick(ps, tried, b, now, PlainPick(ps, b, now))
  {
    CurrentSumUpdate(ps, b, PlainPick(ps, b, now)[b], |ps|);
  }

  // ----- giving a peer back -----

  /** A failed attempt, or a failed connection, on a group of several peers. */
  function Failed(p: Peer, now: int): Peer {
    var e := if p.maxFails > 0 then p.effective - p.weight / p.maxFails else p.effective;
    p.(fails := p.fails + 1, accessed := now, checked := now, effective := if e < 0 then 0 else e)
  }

  /** A check that passed makes the peer live again. */
  function Revived(p: Peer): Peer {
    if p.accessed < p.checked then p.(fails := 0) else p
  }

  function Released(p: Peer, single: bool, failed: bool, now: int): Peer
    requires 0 < p.conns
  {
    var q := if single then p else if failed then Failed(p, now) else Revived(p);
    q.(conns := p.conns - 1)
  }
}
