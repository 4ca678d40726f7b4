/** The two ways a weighted peer is found from a residue: prefix sums and subtraction. */
module Choosers {
  import opened Peers

  /** Peer `p` owns residue `x`: it lies in the peer's slice of the total weight. */
  ghost predicate Owns(ps: seq<Peer>, p: nat, x: int) {
    p < |ps| && TotalWeight(ps, p) <= x < TotalWeight(ps, p + 1)
  }

  /** A residue has only one owner, so the two choosers agree. */
  lemma OneOwner(ps: seq<Peer>, p: nat, q: nat, x: int)
    requires Owns(ps, p, x) && Owns(ps, q, x)
    ensures p == q
  {
    if p < q { TotalWeightGrows(ps, p + 1, q); }
    if q < p { TotalWeightGrows(ps, q + 1, p); }
  }

  /** The owner of a residue among the first `k` peers. */
  function OwnerOf(ps: seq<Peer>, k: nat, x: nat): (p: nat)
    requires k <= |ps| && x < TotalWeight(ps, k)
    ensures Owns(ps, p, x)
  {
    if TotalWeight(ps, k - 1) <= x then k - 1 else OwnerOf(ps, k - 1, x)
  }

  function Slice(lo: int, n: nat): (r: set<int>)
    ensures forall x :: x in r <==> lo <= x < lo + n
    ensures |r| == n
  {
    if n == 0 then {} else Slice(lo, n - 1) + {lo + n - 1}
  }

  /** Each peer owns exactly as many residues as its weight. */
  lemma OwnedResidues(ps: seq<Peer>, p: nat)
    requires p < |ps|
    ensures |set x: int | 0 <= x < TotalWeight(ps, |ps|) && Owns(ps, p, x)| == ps[p].weight
  {
    var slice := Slice(TotalWeight(ps, p), ps[p].weight);
    TotalWeightGrows(ps, p + 1, |ps|);
    assert TotalWeight(ps, p + 1) == TotalWeight(ps, p) + ps[p].weight;
    assert (set x: int | 0 <= x < TotalWeight(ps, |ps|) && Owns(ps, p, x)) == slice;
  }

  /** The hash module's walk; it never runs off the list. */
  method SubtractAndWalk(peers: array<Peer>, residue: nat) returns (p: nat)
    requires residue < TotalWeight(peers[..], peers.Length)
    ensures Owns(peers[..], p, residue)
  {
    ghost var ps := peers[..];
    var w := residue;
    p := 0;
    while w >= peers[p].weight
      invariant p < |ps| && 0 <= w && w + TotalWeight(ps, p) == residue
      decreases |ps| - p
    {
      w := w - peers[p].weight;
      p := p + 1;
    }
  }

  lemma WeightStep(ps: seq<Peer>)
    ensures TotalWeight(ps, 0) == 0
    ensures forall i :: 0 <= i < |ps| ==> TotalWeight(ps, i + 1) == TotalWeight(ps, i) + ps[i].weight
  {
  }

  /** The prefix sums the random module searches. */
  method BuildRanges(peers: array<Peer>) returns (ranges: array<nat>)
    ensures ranges.Length == peers.Length && fresh(ranges)
    ensures forall k :: 0 <= k < ranges.Length ==> ranges[k] == TotalWeight(peers[..], k)
  {
    hide TotalWeight;
    ghost var ps := peers[..];
    WeightStep(ps);
    ranges := new nat[peers.Length];
    var total := 0;
    for i := 0 to peers.Length
      invariant peers[..] == ps && total == TotalWeight(ps, i)
      invariant forall k :: 0 <= k < i ==> ranges[k] == TotalWeight(ps, k)
    {
      ranges[i] := total;
      assert TotalWeight(ps, i + 1) == TotalWeight(ps, i) + ps[i].weight;
      total := total + peers[i].weight;
    }
  }

  /** The random module's binary search. */
  method SearchRanges(ranges: array<nat>, ghost ps: seq<Peer>, x: nat) returns (i: nat)
    requires ranges.Length == |ps| && forall k :: 0 <= k < |ps| ==> ranges[k] == TotalWeight(ps, k)
    requires x < TotalWeight(ps, |ps|)
    ensures Owns(ps, i, x)
  {
    i := 0;
    var j := ranges.Length;
    while j - i > 1
      invariant i < j <= |ps|
      invariant TotalWeight(ps, i) <= x < TotalWeight(ps, j)
    {
      var k := (i + j) / 2;
      if x < ranges[k] {
        j := k;
      } else {
        i := k;
      }
    }
  }
}
