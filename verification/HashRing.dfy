/** The consistent-hash ring: its points, its construction and the owner of a key. */
module HashRing {
  import opened Peers

  datatype Point = Point(hash: nat, server: nat)

  const POINTS_PER_WEIGHT := 160

  // ----- the points -----

  /**
   * Point number `j` of a server: `crc(server, prev)` stands for the checksum of the server's host
   * and port followed by the previous point's hash.
   */
  function PointHash(crc: (nat, nat) -> nat, server: nat, j: nat): nat {
    crc(server, if j == 0 then 0 else PointHash(crc, server, j - 1))
  }

  function ServerPoints(crc: (nat, nat) -> nat, server: nat, n: nat): (r: seq<Point>)
    ensures |r| == n
    ensures forall j :: 0 <= j < n ==> r[j] == Point(PointHash(crc, server, j), server)
  {
    if n == 0 then [] else ServerPoints(crc, server, n - 1) + [Point(PointHash(crc, server, n - 1), server)]
  }

  function PeerPoints(crc: (nat, nat) -> nat, p: Peer): seq<Point> {
    ServerPoints(crc, p.server, p.weight * POINTS_PER_WEIGHT)
  }

  /** The points of the first `k` peers. */
  function Points(crc: (nat, nat) -> nat, ps: seq<Peer>, k: nat): (r: seq<Point>)
    requires k <= |ps|
    ensures |r| == TotalWeight(ps, k) * POINTS_PER_WEIGHT
  {
    if k == 0 then [] else Points(crc, ps, k - 1) + PeerPoints(crc, ps[k - 1])
  }

  // ----- what the points are, place by place -----

  /** Place `k` belongs to peer `p`. */
  predicate InPart(ps: seq<Peer>, p: nat, k: nat)
    requires p < |ps|
  {
    160 * TotalWeight(ps, p) <= k < 160 * TotalWeight(ps, p + 1)
  }

  /**
   * 160 points for each unit of a peer's weight, one peer after the other: a peer's first point
   * comes from its server alone, every other one from the server and the point before it.
   */
  ghost predicate Chained(crc: (nat, nat) -> nat, ps: seq<Peer>, points: seq<Point>) {
    && |points| == 160 * TotalWeight(ps, |ps|)
    && (forall p :: 0 <= p < |ps| && 0 < ps[p].weight ==>
          && 160 * TotalWeight(ps, p) < |points|
          && points[160 * TotalWeight(ps, p)] == Point(crc(ps[p].server, 0), ps[p].server))
    && forall p, k: nat :: 0 <= p < |ps| && InPart(ps, p, k) && InPart(ps, p, k + 1) ==>
         k + 1 < |points| && points[k + 1] == Point(crc(ps[p].server, points[k].hash), ps[p].server)
  }

  lemma {:induction false} PointAt(crc: (nat, nat) -> nat, ps: seq<Peer>, n: nat, p: nat, j: nat)
    requires p < n <= |ps| && j < 160 * ps[p].weight
    ensures 160 * TotalWeight(ps, p) + j < |Points(crc, ps, n)|
    ensures Points(crc, ps, n)[160 * TotalWeight(ps, p) + j] == Point(PointHash(crc, ps[p].server, j), ps[p].server)
  {
    hide PointHash;
    assert Points(crc, ps, n) == Points(crc, ps, n - 1) + PeerPoints(crc, ps[n - 1]);
    if p < n - 1 { PointAt(crc, ps, n - 1, p, j); }
  }

  lemma HashStep(crc: (nat, nat) -> nat, server: nat, j: nat)
    ensures PointHash(crc, server, 0) == crc(server, 0)
    ensures PointHash(crc, server, j + 1) == crc(server, PointHash(crc, server, j))
  {
  }

  /** The points are such a list, */
  lemma PointsChained(crc: (nat, nat) -> nat, ps: seq<Peer>)
    ensures Chained(crc, ps, Points(crc, ps, |ps|))
  {
    hide PointHash, Points;
    var points := Points(crc, ps, |ps|);
    forall p | 0 <= p < |ps| && 0 < ps[p].weight
      ensures 160 * TotalWeight(ps, p) < |points|
      ensures points[160 * TotalWeight(ps, p)] == Point(crc(ps[p].server, 0), ps[p].server)
    {
      PointAt(crc, ps, |ps|, p, 0);
      HashStep(crc, ps[p].server, 0);
    }
    forall p, k: nat | 0 <= p < |ps| && InPart(ps, p, k) && InPart(ps, p, k + 1)
      ensures k + 1 < |points| && points[k + 1] == Point(crc(ps[p].server, points[k].hash), ps[p].server)
    {
      var j := k - 160 * TotalWeight(ps, p);
      assert TotalWeight(ps, p + 1) == TotalWeight(ps, p) + ps[p].weight;
      PointAt(crc, ps, |ps|, p, j);
      PointAt(crc, ps, |ps|, p, j + 1);
      HashStep(crc, ps[p].server, j);
    }
  }

  lemma {:induction false} ChainAt(crc: (nat, nat) -> nat, ps: seq<Peer>, points: seq<Point>, p: nat, j: nat)
    requires Chained(crc, ps, points) && p < |ps| && j < 160 * ps[p].weight
    ensures 160 * TotalWeight(ps, p) + j < |points|
    ensures points[160 * TotalWeight(ps, p) + j] == Point(PointHash(crc, ps[p].server, j), ps[p].server)
  {
    if j == 0 {
      HashStep(crc, ps[p].server, 0);
    } else {
      ChainAt(crc, ps, points, p, j - 1);
      HashStep(crc, ps[p].server, j - 1);
      assert TotalWeight(ps, p + 1) == TotalWeight(ps, p) + ps[p].weight;
      assert InPart(ps, p, 160 * TotalWeight(ps, p) + j - 1) && InPart(ps, p, 160 * TotalWeight(ps, p) + (j - 1) + 1);
    }
  }

  /** The peer a place belongs to. */
  function PartOf(ps: seq<Peer>, n: nat, k: nat): (p: nat)
    requires n <= |ps| && k < 160 * TotalWeight(ps, n)
    ensures p < n && InPart(ps, p, k)
  {
    if 160 * TotalWeight(ps, n - 1) <= k then n - 1 else PartOf(ps, n - 1, k)
  }

  /** and the only one. */
  lemma ChainedOnce(crc: (nat, nat) -> nat, ps: seq<Peer>, points: seq<Point>)
    requires Chained(crc, ps, points)
    ensures points == Points(crc, ps, |ps|)
  {
    hide PointHash, Points;
    PointsChained(crc, ps);
    var qs := Points(crc, ps, |ps|);
    forall k | 0 <= k < |points| ensures points[k] == qs[k] {
      var p := PartOf(ps, |ps|, k);
      assert TotalWeight(ps, p + 1) == TotalWeight(ps, p) + ps[p].weight;
      ChainAt(crc, ps, points, p, k - 160 * TotalWeight(ps, p));
      ChainAt(crc, ps, qs, p, k - 160 * TotalWeight(ps, p));
    }
  }

  predicate Nondecreasing(s: seq<Point>) {
    forall i, j :: 0 <= i < j < |s| ==> s[i].hash <= s[j].hash
  }

  ghost predicate Increasing(s: seq<Point>) {
    forall i, j :: 0 <= i < j < |s| ==> s[i].hash < s[j].hash
  }

  ghost predicate HasHash(s: seq<Point>, hash: nat) {
    exists k :: 0 <= k < |s| && s[k].hash == hash
  }

  /** A ring of some points: in increasing order, one of them for every hash among them. */
  ghost predicate IsRing(points: seq<Point>, ring: seq<Point>) {
    && 0 < |ring| && Increasing(ring)
    && (forall k :: 0 <= k < |ring| ==> ring[k] in points)
    && (forall k :: 0 <= k < |points| ==> HasHash(ring, points[k].hash))
  }

  // ----- construction -----

  method FillPeer(crc: (nat, nat) -> nat, ghost ps: seq<Peer>, ghost i: nat, peer: Peer,
                  points: array<Point>, start: nat) returns (number: nat)
    requires i < |ps| && ps[i] == peer && points.Length == TotalWeight(ps, |ps|) * POINTS_PER_WEIGHT
    requires start <= points.Length && points[..start] == Points(crc, ps, i)
    modifies points
    ensures number <= points.Length && points[..number] == Points(crc, ps, i + 1)
  {
    var prev := 0;
    number := start;
    TotalWeightGrows(ps, i + 1, |ps|);
    for j := 0 to peer.weight * POINTS_PER_WEIGHT
      invariant number == start + j && number <= points.Length
      invariant prev == if j == 0 then 0 else PointHash(crc, peer.server, j - 1)
      invariant points[..number] == Points(crc, ps, i) + ServerPoints(crc, peer.server, j)
    {
      var hash := crc(peer.server, prev);
      points[number] := Point(hash, peer.server);
      number := number + 1;
      prev := hash;
    }
  }

  /** The point loop of `init_chash`. */
  method FillPoints(crc: (nat, nat) -> nat, peers: array<Peer>, total: nat) returns (points: array<Point>)
    requires total == TotalWeight(peers[..], peers.Length)
    ensures fresh(points) && points[..] == Points(crc, peers[..], peers.Length)
    ensures Chained(crc, peers[..], points[..])
  {
    ghost var ps := peers[..];
    points := new Point[total * POINTS_PER_WEIGHT];
    var number: nat := 0;
    assert points[..0] == [];
    for i := 0 to peers.Length
      invariant peers[..] == ps && 0 <= number <= points.Length && points[..number] == Points(crc, ps, i)
    {
      hide *;
      number := FillPeer(crc, ps, i, peers[i], points, number);
    }
    assert |Points(crc, ps, |ps|)| == points.Length;
    PointsChained(crc, ps);
  }

  lemma IncreasingPush(ring: seq<Point>, q: Point)
    requires 0 < |ring| && Increasing(ring) && ring[|ring| - 1].hash < q.hash
    ensures Increasing(ring + [q])
  {
    var ring' := ring + [q];
    forall i, j | 0 <= i < j < |ring'| ensures ring'[i].hash < ring'[j].hash {
      if j == |ring| && i < |ring| - 1 { assert ring[i].hash < ring[|ring| - 1].hash; }
    }
  }

  lemma KeepsHash(ring: seq<Point>, q: Point, h: nat)
    requires HasHash(ring, h) || h == q.hash
    ensures HasHash(ring + [q], h)
  {
    if HasHash(ring, h) {
      var m :| 0 <= m < |ring| && ring[m].hash == h;
      assert (ring + [q])[m].hash == h;
    } else {
      assert (ring + [q])[|ring|].hash == h;
    }
  }

  lemma RingPush(s: seq<Point>, ring: seq<Point>, q: Point)
    requires IsRing(s, ring) && ring[|ring| - 1].hash < q.hash
    ensures IsRing(s + [q], ring + [q])
  {
    IncreasingPush(ring, q);
    hide Increasing;
    forall k | 0 <= k < |s + [q]| ensures HasHash(ring + [q], (s + [q])[k].hash) {
      hide HasHash;
      KeepsHash(ring, q, (s + [q])[k].hash);
    }
  }

  lemma RingSkip(s: seq<Point>, ring: seq<Point>, q: Point)
    requires IsRing(s, ring) && ring[|ring| - 1].hash == q.hash
    ensures IsRing(s + [q], ring)
  {
    hide Increasing;
    assert HasHash(ring, q.hash);
    hide HasHash;
  }

  lemma CompactStep(s: seq<Point>, j: nat, ring: seq<Point>)
    requires 0 < j < |s| && Nondecreasing(s) && IsRing(s[..j], ring)
    requires ring[|ring| - 1].hash == s[j - 1].hash
    ensures IsRing(s[..j + 1], if ring[|ring| - 1].hash != s[j].hash then ring + [s[j]] else ring)
  {
    assert s[j - 1].hash <= s[j].hash && |ring| > 0;
    hide *;
    assert s[..j + 1] == s[..j] + [s[j]];
    if ring[|ring| - 1].hash != s[j].hash {
      RingPush(s[..j], ring, s[j]);
    } else {
      RingSkip(s[..j], ring, s[j]);
    }
  }

  lemma RingOfOne(q: Point)
    ensures IsRing([q], [q])
  {
    assert [q][0] == q;
  }

  /** Moves point `j` down to place `i`. */
  method Keep(points: array<Point>, i: nat, j: nat)
    requires i <= j < points.Length
    modifies points
    ensures points[..i + 1] == old(points[..i]) + [old(points[j])]
    ensures points[i] == old(points[j]) && points[j + 1..] == old(points[j + 1..])
  {
    points[i] := points[j];
  }

  /** The compaction of `init_chash`: of several sorted points with one hash the first is kept. */
  method Compact(points: array<Point>) returns (number: nat)
    requires 0 < points.Length && Nondecreasing(points[..])
    modifies points
    ensures number <= points.Length && IsRing(old(points[..]), points[..number])
  {
    hide *;
    ghost var s := points[..];
    var i := 0;
    RingOfOne(s[0]);
    assert points[..1] == s[..1] == [s[0]];
    for j := 1 to points.Length
      invariant 0 <= i < j && points[i].hash == s[j - 1].hash
      invariant points[j..] == s[j..]
      invariant IsRing(s[..j], points[..i + 1])
    {
      ghost var ring := points[..i + 1];
      assert points[j] == points[j..][0] == s[j] && points[j + 1..] == points[j..][1..] == s[j + 1..];
      CompactStep(s, j, ring);
      if points[i].hash != points[j].hash {
        i := i + 1;
        Keep(points, i, j);
      }
    }
    number := i + 1;
    assert s[..points.Length] == s;
  }

  // ----- the sorted order -----

  /** What sorting may leave: the same points in an order of their hashes, equal hashes in any order. */
  predicate SortedFrom(points: seq<Point>, sorted: seq<Point>) {
    multiset(sorted) == multiset(points) && Nondecreasing(sorted)
  }

  /** The place of `q` in a sorted list. */
  function PlaceOf(s: seq<Point>, q: Point): (k: nat)
    ensures k <= |s| && (forall i :: 0 <= i < k ==> s[i].hash <= q.hash) && (k < |s| ==> q.hash <= s[k].hash)
  {
    if s == [] || q.hash <= s[0].hash then 0 else
      var k := PlaceOf(s[1..], q);
      assert forall i :: 0 < i < k + 1 ==> s[i] == s[1..][i - 1];
      k + 1
  }

  /** Where an element of the widened list comes from. */
  lemma Widened(sorted: seq<Point>, q: Point, i: nat)
    requires i <= |sorted|
    ensures var k := PlaceOf(sorted, q);
      (sorted[..k] + [q] + sorted[k..])[i] == if i < k then sorted[i] else if i == k then q else sorted[i - 1]
  {
  }

  lemma Inserted(points: seq<Point>, sorted: seq<Point>, q: Point)
    requires SortedFrom(points, sorted)
    ensures var k := PlaceOf(sorted, q);
      SortedFrom([q] + points, sorted[..k] + [q] + sorted[k..])
  {
    hide PlaceOf;
    var k := PlaceOf(sorted, q);
    var s := sorted[..k] + [q] + sorted[k..];
    assert sorted == sorted[..k] + sorted[k..];
    assert multiset(sorted) == multiset(sorted[..k]) + multiset(sorted[k..]);
    forall i, j | 0 <= i < j < |s| ensures s[i].hash <= s[j].hash {
      Widened(sorted, q, i);
      Widened(sorted, q, j);
    }
  }

  lemma SortFacts(points: seq<Point>, sorted: seq<Point>)
    requires SortedFrom(points, sorted)
    ensures |sorted| == |points| && Nondecreasing(sorted) && multiset(sorted) == multiset(points)
  {
    assert |multiset(sorted)| == |multiset(points)|;
  }

  /** Any list of points can be sorted. */
  lemma {:induction false} CanSort(points: seq<Point>) returns (sorted: seq<Point>)
    ensures SortedFrom(points, sorted)
  {
    if points == [] {
      sorted := [];
    } else {
      var rest := CanSort(points[1..]);
      Inserted(points[1..], rest, points[0]);
      var k := PlaceOf(rest, points[0]);
      sorted := rest[..k] + [points[0]] + rest[k..];
      assert [points[0]] + points[1..] == points;
    }
  }

  /** A ring of the sorted points is a ring of the points, in whatever order they were filled in. */
  lemma RingOfSorted(points: seq<Point>, sorted: seq<Point>, ring: seq<Point>)
    requires multiset(sorted) == multiset(points) && IsRing(sorted, ring)
    ensures IsRing(points, ring)
  {
    forall k | 0 <= k < |points| ensures HasHash(ring, points[k].hash) {
      assert points[k] in multiset(sorted);
      var j :| 0 <= j < |sorted| && sorted[j] == points[k];
    }
    forall k | 0 <= k < |ring| ensures ring[k] in points {
      assert ring[k] in multiset(sorted);
    }
  }

  /** `ngx_qsort` with the module's comparison; which order equal hashes end in is not determined. */
  method Sort(points: array<Point>)
    modifies points
    ensures SortedFrom(old(points[..]), points[..])
  {
    ghost var s := CanSort(points[..]);
    var sorted :| SortedFrom(points[..], sorted);
    SortFacts(points[..], sorted);
    forall i | 0 <= i < points.Length { points[i] := sorted[i]; }
    assert points[..] == sorted;
  }

  lemma SomePoint(total: nat)
    requires 0 < total
    ensures 0 < total * POINTS_PER_WEIGHT
  {
  }

  /**
   * `init_chash`: the points of all peers, sorted and compacted, are a ring of exactly these points.
   */
  method InitChash(crc: (nat, nat) -> nat, peers: array<Peer>, total: nat)
    returns (points: array<Point>, number: nat, ghost filled: seq<Point>)
    requires 0 < total == TotalWeight(peers[..], peers.Length)
    ensures fresh(points) && number <= points.Length
    ensures Chained(crc, peers[..], filled) && IsRing(filled, points[..number])
    ensures IsRing(Points(crc, peers[..], peers.Length), points[..number])
  {
    hide *;
    points := FillPoints(crc, peers, total);
    filled := points[..];
    Sort(points);
    ghost var sorted := points[..];
    SortFacts(filled, sorted);
    SomePoint(total);
    number := Compact(points);
    RingOfSorted(filled, sorted, points[..number]);
  }

  function LowerBound(ring: seq<Point>, hash: nat): (i: nat)
    ensures i <= |ring|
    ensures i < |ring| ==> hash <= ring[i].hash
    ensures forall k :: 0 <= k < i ==> ring[k].hash < hash
  {
    if ring == [] || hash <= ring[0].hash then 0 else LowerBound(ring[1..], hash) + 1
  }

  lemma BoundIs(ring: seq<Point>, hash: nat, i: nat)
    requires i <= |ring| && Increasing(ring)
    requires forall k :: 0 <= k < i ==> ring[k].hash < hash
    requires i < |ring| ==> hash <= ring[i].hash
    ensures LowerBound(ring, hash) == i
  {
  }

  /** `find_chash_point`: the index of the first point not below the hash. */
  method FindPoint(points: array<Point>, number: nat, hash: nat) returns (i: nat)
    requires number <= points.Length && Increasing(points[..number])
    ensures i == LowerBound(points[..number], hash)
  {
    ghost var ring := points[..number];
    i := 0;
    var j := number;
    while i < j
      invariant i <= j <= number
      invariant forall k :: 0 <= k < i ==> ring[k].hash < hash
      invariant forall k :: j <= k < number ==> hash <= ring[k].hash
    {
      var k := (i + j) / 2;
      assert points[k] == ring[k];
      if hash > points[k].hash {
        i := k + 1;
      } else if hash < points[k].hash {
        j := k;
      } else {
        BoundIs(ring, hash, k);
        return k;
      }
    }
    BoundIs(ring, hash, i);
  }

  // ----- the owner of a key -----

  /** The point a key lands on: the first one not below it, wrapping around past the last. */
  function OwnerPoint(ring: seq<Point>, key: nat): Point
    requires 0 < |ring|
  {
    ring[LowerBound(ring, key) % |ring|]
  }

  /** `h` is the hash a key lands on among the hashes of `points`. */
  ghost predicate Lands(points: seq<Point>, key: nat, h: nat) {
    && HasHash(points, h)
    && if key <= h then forall k :: 0 <= k < |points| && key <= points[k].hash ==> h <= points[k].hash
       else forall k :: 0 <= k < |points| ==> points[k].hash < key && h <= points[k].hash
  }

  lemma Wraps(l: nat, n: nat)
    requires 0 < n && l <= n
    ensures l % n == if l == n then 0 else l
  {
  }

  /** Where the owner is, seen from any point of the ring. */
  lemma OwnerAmongRing(ring: seq<Point>, key: nat, m: nat)
    requires m < |ring| && Increasing(ring)
    ensures var q := OwnerPoint(ring, key);
      if key <= q.hash then key <= ring[m].hash ==> q.hash <= ring[m].hash
      else ring[m].hash < key && q.hash <= ring[m].hash
  {
    hide LowerBound;
    var l := LowerBound(ring, key);
    Wraps(l, |ring|);
    var o := if l == |ring| then 0 else l;
    assert OwnerPoint(ring, key) == ring[o];
    if o < m { assert ring[o].hash < ring[m].hash; }
  }

  lemma OwnerLands(points: seq<Point>, ring: seq<Point>, key: nat)
    requires IsRing(points, ring)
    ensures OwnerPoint(ring, key) in points && Lands(points, key, OwnerPoint(ring, key).hash)
  {
    var q := OwnerPoint(ring, key);
    assert q in points;
    hide OwnerPoint;
    forall k | 0 <= k < |points|
      ensures if key <= q.hash then key <= points[k].hash ==> q.hash <= points[k].hash
              else points[k].hash < key && q.hash <= points[k].hash
    {
      assert HasHash(ring, points[k].hash);
      var m :| 0 <= m < |ring| && ring[m].hash == points[k].hash;
      OwnerAmongRing(ring, key, m);
    }
  }

  lemma LandsOnce(points: seq<Point>, key: nat, h: nat, h': nat)
    requires Lands(points, key, h) && Lands(points, key, h')
    ensures h == h'
  {
    var k :| 0 <= k < |points| && points[k].hash == h;
    var k' :| 0 <= k' < |points| && points[k'].hash == h';
  }

  // ----- removing a server -----

  /** No two servers put points on the same hash. */
  ghost predicate NoCollision(points: seq<Point>) {
    forall i, j :: 0 <= i < |points| && 0 <= j < |points| && points[i].hash == points[j].hash ==>
      points[i].server == points[j].server
  }

  function Without(ps: seq<Peer>, server: nat): seq<Peer> {
    if ps == [] then []
    else if ps[0].server == server then Without(ps[1..], server)
    else [ps[0]] + Without(ps[1..], server)
  }

  lemma {:induction false} WithoutIs(ps: seq<Peer>, server: nat, p: Peer)
    ensures p in Without(ps, server) <==> p in ps && p.server != server
  {
    if ps != [] { WithoutIs(ps[1..], server, p); }
  }

  /** A point is on the list exactly if some peer puts it there, and it names that peer's server. */
  lemma {:induction false} PointsFrom(crc: (nat, nat) -> nat, ps: seq<Peer>, k: nat, q: Point)
    requires k <= |ps|
    ensures q in Points(crc, ps, k) <==> exists i :: 0 <= i < k && q in PeerPoints(crc, ps[i])
  {
    if k > 0 {
      PointsFrom(crc, ps, k - 1, q);
      assert Points(crc, ps, k) == Points(crc, ps, k - 1) + PeerPoints(crc, ps[k - 1]);
    }
  }

  lemma RemainingPoints(crc: (nat, nat) -> nat, ps: seq<Peer>, server: nat, q: Point)
    ensures var qs := Without(ps, server);
      q in Points(crc, qs, |qs|) <==> q in Points(crc, ps, |ps|) && q.server != server
  {
    var qs := Without(ps, server);
    PointsFrom(crc, ps, |ps|, q);
    PointsFrom(crc, qs, |qs|, q);
    if q in Points(crc, qs, |qs|) {
      var i :| 0 <= i < |qs| && q in PeerPoints(crc, qs[i]);
      WithoutIs(ps, server, qs[i]);
      var j :| 0 <= j < |ps| && ps[j] == qs[i];
      assert q in PeerPoints(crc, ps[j]);
    }
    if q in Points(crc, ps, |ps|) && q.server != server {
      var i :| 0 <= i < |ps| && q in PeerPoints(crc, ps[i]);
      WithoutIs(ps, server, ps[i]);
      var j :| 0 <= j < |qs| && qs[j] == ps[i];
      assert q in PeerPoints(crc, qs[j]);
    }
  }

  lemma LandsInSubset(points: seq<Point>, points': seq<Point>, key: nat, q: Point)
    requires Lands(points, key, q.hash) && q in points'
    requires forall k :: 0 <= k < |points'| ==> points'[k] in points
    ensures Lands(points', key, q.hash)
  {
  }

  /**
   * Removing a server moves only its own keys: whatever order the points were sorted in, a key that
   * another server owns keeps its owner.
   */
  lemma RemovalMovesOnlyItsKeys(
      crc: (nat, nat) -> nat, ps: seq<Peer>, server: nat, ring: seq<Point>, ring': seq<Point>, key: nat)
    requires NoCollision(Points(crc, ps, |ps|))
    requires IsRing(Points(crc, ps, |ps|), ring)
    requires var qs := Without(ps, server); IsRing(Points(crc, qs, |qs|), ring')
    requires OwnerPoint(ring, key).server != server
    ensures OwnerPoint(ring', key).server == OwnerPoint(ring, key).server
  {
    var qs := Without(ps, server);
    var points, points' := Points(crc, ps, |ps|), Points(crc, qs, |qs|);
    var q, q' := OwnerPoint(ring, key), OwnerPoint(ring', key);
    OwnerLands(points, ring, key);
    OwnerLands(points', ring', key);
    RemainingPoints(crc, ps, server, q);
    RemainingPoints(crc, ps, server, q');
    forall k | 0 <= k < |points'| ensures points'[k] in points {
      RemainingPoints(crc, ps, server, points'[k]);
    }
    hide Points, OwnerPoint, IsRing, Without;
    LandsInSubset(points, points', key, q);
    LandsOnce(points', key, q.hash, q'.hash);
  }
}
