/** Connection limits: counters by zone and key, taken all together or not at all. */
module LimitConn {
  type Key = seq<int>

  /** A node of a zone's tree. */
  datatype Cell = Cell(zone: nat, key: Key)

  /** The `conn` counters of all nodes of all zones. */
  type Zones = map<Cell, nat>

  /** A cleanup record of a connection pool; the pool's newest record comes first. */
  datatype Record = Other | Held(cell: Cell)

  datatype Limit = Limit(zone: nat, conn: nat)

  datatype Verdict = Declined | Unavailable

  datatype Status = Unset | Passed | Rejected | RejectedDryRun

  const MAX_KEY := 255

  function Conn(z: Zones, c: Cell): nat { if c in z then z[c] else 0 }

  /** A node is there only while somebody is counted in it. */
  ghost predicate NoEmptyNodes(z: Zones) { forall c :: c in z ==> z[c] > 0 }

  lemma SameZones(y: Zones, z: Zones)
    requires NoEmptyNodes(y) && NoEmptyNodes(z) && forall c :: Conn(y, c) == Conn(z, c)
    ensures y == z
  {
    forall c ensures c in y <==> c in z {
      assert Conn(y, c) == Conn(z, c);
    }
    forall c | c in y ensures y[c] == z[c] {
      assert Conn(y, c) == Conn(z, c);
    }
  }

  /** How many of the records are for node `c`. */
  function Count(rs: seq<Record>, c: Cell): nat {
    if rs == [] then 0 else (if rs[0] == Held(c) then 1 else 0) + Count(rs[1..], c)
  }

  lemma {:induction false} CountJoin(a: seq<Record>, b: seq<Record>, c: Cell)
    ensures Count(a + b, c) == Count(a, c) + Count(b, c)
  {
    if a == [] {
      assert a + b == b;
    } else {
      assert (a + b)[1..] == a[1..] + b;
      CountJoin(a[1..], b, c);
    }
  }

  lemma {:induction false} CountNone(rs: seq<Record>, c: Cell)
    ensures Count(rs, c) == 0 <==> Held(c) !in rs
  {
    if rs != [] {
      CountNone(rs[1..], c);
      assert rs == [rs[0]] + rs[1..];
    }
  }

  /** The records of this module on top of the pool, which `cleanup_all` takes off. */
  function Top(pool: seq<Record>): seq<Record> {
    if pool != [] && pool[0].Held? then [pool[0]] + Top(pool[1..]) else []
  }

  /** What it leaves. */
  function Below(pool: seq<Record>): seq<Record> {
    if pool != [] && pool[0].Held? then Below(pool[1..]) else pool
  }

  ghost predicate AllHeld(rs: seq<Record>) { forall i :: 0 <= i < |rs| ==> rs[i].Held? }

  ghost predicate NoneHeld(rs: seq<Record>) { forall i :: 0 <= i < |rs| ==> rs[i].Other? }

  lemma {:induction false} TopSplit(pool: seq<Record>)
    ensures pool == Top(pool) + Below(pool) && AllHeld(Top(pool))
    ensures Below(pool) != [] ==> Below(pool)[0].Other?
  {
    if pool != [] && pool[0].Held? { TopSplit(pool[1..]); }
  }

  lemma {:induction false} TopJoin(a: seq<Record>, b: seq<Record>)
    requires AllHeld(a)
    ensures Top(a + b) == a + Top(b) && Below(a + b) == Below(b)
  {
    if a == [] {
      assert a + b == b && [] + Top(b) == Top(b);
    } else {
      assert (a + b)[1..] == a[1..] + b;
      TopJoin(a[1..], b);
    }
  }

  /** No foreign record lies above one of this module. */
  ghost predicate Contiguous(pool: seq<Record>) {
    forall i, j :: 0 <= i < j < |pool| && pool[j].Held? ==> pool[i].Held?
  }

  lemma ContiguousTail(pool: seq<Record>)
    requires pool != [] && pool[0].Held?
    ensures Contiguous(pool) <==> Contiguous(pool[1..])
  {
    var rest := pool[1..];
    if Contiguous(rest) {
      forall i, j | 0 <= i < j < |pool| && pool[j].Held? ensures pool[i].Held? {
        assert pool[j] == rest[j - 1];
        if i > 0 { assert pool[i] == rest[i - 1]; }
      }
    }
    if Contiguous(pool) {
      forall i, j | 0 <= i < j < |rest| && rest[j].Held? ensures rest[i].Held? {
        assert rest[j] == pool[j + 1] && rest[i] == pool[i + 1];
      }
    }
  }

  /** `cleanup_all` gives back everything exactly if the records are contiguous at the head. */
  lemma {:induction false} ClearsAll(pool: seq<Record>)
    ensures NoneHeld(Below(pool)) <==> Contiguous(pool)
  {
    if pool == [] {
    } else if pool[0].Held? {
      ClearsAll(pool[1..]);
      ContiguousTail(pool);
    } else if Contiguous(pool) {
      assert forall j :: 0 < j < |pool| && pool[j].Held? ==> pool[0].Held?;
    }
  }

  // ----- one reservation and its undoing -----

  lemma CountOne(c: Cell)
    ensures forall d :: Count([Held(c)], d) == if c == d then 1 else 0
  {
    forall d ensures Count([Held(c)], d) == if c == d then 1 else 0 {
      assert [Held(c)][1..] == [];
    }
  }

  /** A new node starts at 1, one that is there goes up. */
  function Reserve(z: Zones, c: Cell): (r: Zones)
    ensures NoEmptyNodes(z) ==> NoEmptyNodes(r)
    ensures forall d :: Conn(r, d) == Conn(z, d) + Count([Held(c)], d)
  {
    CountOne(c);
    if c in z then z[c := z[c] + 1] else z[c := 1]
  }

  /** The count goes down, and the node goes away at 0. */
  function Release(z: Zones, c: Cell): (r: Zones)
    requires c in z && z[c] > 0
    ensures NoEmptyNodes(z) ==> NoEmptyNodes(r)
    ensures forall d :: Conn(r, d) == Conn(z, d) - Count([Held(c)], d)
  {
    CountOne(c);
    if z[c] - 1 == 0 then z - {c} else z[c := z[c] - 1]
  }

  lemma UndoesReserve(z: Zones, c: Cell)
    requires NoEmptyNodes(z)
    ensures Release(Reserve(z, c), c) == z
  {
    SameZones(Release(Reserve(z, c), c), z);
  }

  // ----- the handler -----

  /** A key that is empty or too long is not limited. */
  predicate Usable(key: Key) { 0 < |key| <= MAX_KEY }

  /** Limit `l` lets one more connection with this key in; a new node needs memory. */
  predicate Room(z: Zones, l: Limit, key: Key, memory: bool) {
    var c := Cell(l.zone, key);
    !Usable(key) || if c in z then z[c] < l.conn else memory
  }

  /** A zone is named by one limit only, and limits are positive. */
  ghost predicate LimitsOk(limits: seq<Limit>) {
    && (forall i, j :: 0 <= i < j < |limits| ==> limits[i].zone != limits[j].zone)
    && (forall i :: 0 <= i < |limits| ==> 1 <= limits[i].conn <= 0xffff)
  }

  ghost predicate AllRoom(z: Zones, limits: seq<Limit>, keys: seq<Key>, memory: seq<bool>)
    requires |limits| == |keys| == |memory|
  {
    forall i :: 0 <= i < |limits| ==> Room(z, limits[i], keys[i], memory[i])
  }

  /** The records of the first `n` limits, newest first. */
  function Records(limits: seq<Limit>, keys: seq<Key>, n: nat): (rs: seq<Record>)
    requires n <= |limits| == |keys|
    ensures AllHeld(rs)
  {
    if n == 0 then []
    else
      var rs := Records(limits, keys, n - 1);
      if Usable(keys[n - 1]) then [Held(Cell(limits[n - 1].zone, keys[n - 1]))] + rs else rs
  }

  lemma {:induction false} OtherZones(limits: seq<Limit>, keys: seq<Key>, n: nat, c: Cell)
    requires n <= |limits| == |keys| && forall i :: 0 <= i < n ==> limits[i].zone != c.zone
    ensures Count(Records(limits, keys, n), c) == 0
  {
    if n > 0 {
      OtherZones(limits, keys, n - 1, c);
      if Usable(keys[n - 1]) {
        assert Records(limits, keys, n)[1..] == Records(limits, keys, n - 1);
      }
    }
  }

  /** Earlier reservations of the same session do not change whether a limit has room. */
  lemma RoomUnchanged(z: Zones, y: Zones, limits: seq<Limit>, keys: seq<Key>, n: nat, memory: bool)
    requires n < |limits| == |keys| && LimitsOk(limits) && NoEmptyNodes(z) && NoEmptyNodes(y)
    requires forall c :: Conn(y, c) == Conn(z, c) + Count(Records(limits, keys, n), c)
    ensures Room(y, limits[n], keys[n], memory) <==> Room(z, limits[n], keys[n], memory)
  {
    var c := Cell(limits[n].zone, keys[n]);
    OtherZones(limits, keys, n, c);
    assert Conn(y, c) == Conn(z, c);
  }

  /** The counters cover the records of the pool. */
  ghost predicate Covers(z: Zones, pool: seq<Record>) {
    NoEmptyNodes(z) && forall c :: Count(pool, c) <= Conn(z, c)
  }

  /** The handler's loop with the first `n` limits taken. */
  ghost predicate Reserving(z: Zones, pool: seq<Record>, s: Status, z0: Zones, p0: seq<Record>, s0: Status,
                            limits: seq<Limit>, keys: seq<Key>, memory: seq<bool>, n: nat) {
    && n <= |limits| == |keys| == |memory| && LimitsOk(limits) && NoEmptyNodes(z) && Covers(z0, p0)
    && var rs := Records(limits, keys, n);
      && pool == rs + p0 && s == (if rs == [] then s0 else Passed)
      && (forall c :: Conn(z, c) == Conn(z0, c) + Count(rs, c))
      && (forall j :: 0 <= j < n ==> Room(z0, limits[j], keys[j], memory[j]))
  }

  lemma Begin(z0: Zones, p0: seq<Record>, s0: Status, limits: seq<Limit>, keys: seq<Key>, memory: seq<bool>)
    requires |limits| == |keys| == |memory| && LimitsOk(limits) && Covers(z0, p0)
    ensures Reserving(z0, p0, s0, z0, p0, s0, limits, keys, memory, 0)
  {
    assert [] + p0 == p0;
  }

  lemma Unlimited(z: Zones, pool: seq<Record>, s: Status, z0: Zones, p0: seq<Record>, s0: Status,
                  limits: seq<Limit>, keys: seq<Key>, memory: seq<bool>, n: nat)
    requires Reserving(z, pool, s, z0, p0, s0, limits, keys, memory, n) && n < |limits|
    requires |keys[n]| == 0 || |keys[n]| > MAX_KEY
    ensures Reserving(z, pool, s, z0, p0, s0, limits, keys, memory, n + 1)
  {
  }

  /** The reservation of one more limit, on top of those before it. */
  lemma Counted(z: Zones, z0: Zones, c: Cell, rs: seq<Record>)
    requires NoEmptyNodes(z) && forall d :: Conn(z, d) == Conn(z0, d) + Count(rs, d)
    ensures forall d :: Conn(Reserve(z, c), d) == Conn(z0, d) + Count([Held(c)] + rs, d)
  {
    forall d ensures Conn(Reserve(z, c), d) == Conn(z0, d) + Count([Held(c)] + rs, d) {
      CountJoin([Held(c)], rs, d);
    }
  }

  lemma RecordsStep(limits: seq<Limit>, keys: seq<Key>, n: nat)
    requires n < |limits| == |keys| && Usable(keys[n])
    ensures var rs := Records(limits, keys, n);
      Records(limits, keys, n + 1) == [Held(Cell(limits[n].zone, keys[n]))] + rs && AllHeld(rs)
  {
  }

  lemma Taken(z: Zones, pool: seq<Record>, s: Status, z0: Zones, p0: seq<Record>, s0: Status,
              limits: seq<Limit>, keys: seq<Key>, memory: seq<bool>, n: nat)
    requires Reserving(z, pool, s, z0, p0, s0, limits, keys, memory, n) && n < |limits|
    requires Usable(keys[n]) && Room(z, limits[n], keys[n], memory[n])
    ensures var c := Cell(limits[n].zone, keys[n]);
      Reserving(if c in z then z[c := z[c] + 1] else z[c := 1], [Held(c)] + pool, Passed,
                z0, p0, s0, limits, keys, memory, n + 1)
  {
    var c, rs := Cell(limits[n].zone, keys[n]), Records(limits, keys, n);
    RoomUnchanged(z0, z, limits, keys, n, memory[n]);
    RecordsStep(limits, keys, n);
    assert Reserve(z, c) == if c in z then z[c := z[c] + 1] else z[c := 1];
    hide Count, Conn, Covers, Records, LimitsOk, NoEmptyNodes, Reserve, Room, Usable;
    Counted(z, z0, c, rs);
    assert [Held(c)] + pool == Records(limits, keys, n + 1) + p0;
  }

  /** A usable key either finds no room, now and at the start, or is counted and recorded. */
  lemma Decided(z: Zones, pool: seq<Record>, s: Status, z0: Zones, p0: seq<Record>, s0: Status,
                limits: seq<Limit>, keys: seq<Key>, memory: seq<bool>, n: nat)
    requires Reserving(z, pool, s, z0, p0, s0, limits, keys, memory, n) && n < |limits|
    requires !(|keys[n]| == 0 || |keys[n]| > MAX_KEY)
    ensures var c, rs := Cell(limits[n].zone, keys[n]), Records(limits, keys, n);
      && AllHeld(rs) && pool == rs + p0 && Covers(z0, p0) && NoEmptyNodes(z)
      && (forall d :: Conn(z, d) == Conn(z0, d) + Count(rs, d))
      && if (if c in z then z[c] < limits[n].conn else memory[n]) then
          Reserving(if c in z then z[c := z[c] + 1] else z[c := 1], [Held(c)] + pool, Passed,
                    z0, p0, s0, limits, keys, memory, n + 1)
        else
          !AllRoom(z0, limits, keys, memory)
  {
    if Room(z, limits[n], keys[n], memory[n]) {
      Taken(z, pool, s, z0, p0, s0, limits, keys, memory, n);
    } else {
      RoomUnchanged(z0, z, limits, keys, n, memory[n]);
    }
    hide Count, Conn, Covers, Records, LimitsOk, NoEmptyNodes, Reserve;
  }

  lemma End(z: Zones, pool: seq<Record>, s: Status, z0: Zones, p0: seq<Record>, s0: Status,
            limits: seq<Limit>, keys: seq<Key>, memory: seq<bool>)
    requires Reserving(z, pool, s, z0, p0, s0, limits, keys, memory, |limits|)
    ensures AllRoom(z0, limits, keys, memory) && NoEmptyNodes(z)
    ensures var rs := Records(limits, keys, |limits|);
      && pool == rs + p0 && s == (if rs == [] then s0 else Passed)
      && forall c :: Conn(z, c) == Conn(z0, c) + Count(rs, c)
  {
  }

  lemma TakesOne(z: Zones, pool: seq<Record>)
    requires pool != [] && pool[0].Held? && Covers(z, pool)
    ensures var c := pool[0].cell;
      && c in z && z[c] > 0
      && Below(pool) == Below(pool[1..])
      && forall d :: Count(pool, d) == Count([Held(c)], d) + Count(pool[1..], d)
                     && Count(Top(pool), d) == Count([Held(c)], d) + Count(Top(pool[1..]), d)
  {
    var c := pool[0].cell;
    assert Count(pool, c) >= 1;
    forall d
      ensures Count(pool, d) == Count([Held(c)], d) + Count(pool[1..], d)
      ensures Count(Top(pool), d) == Count([Held(c)], d) + Count(Top(pool[1..]), d)
    {
      assert pool == [Held(c)] + pool[1..];
      CountJoin([Held(c)], pool[1..], d);
      CountJoin([Held(c)], Top(pool[1..]), d);
    }
  }

  /** A rejected session that came without records leaves the zones and its pool as it found them. */
  lemma RejectionRestores(z: Zones, y: Zones, pool: seq<Record>)
    requires NoEmptyNodes(z) && NoEmptyNodes(y)
    requires forall c :: Conn(y, c) == Conn(z, c) - Count(Top(pool), c)
    ensures y == z && Below(pool) == pool <==> pool == [] || pool[0].Other?
  {
    if pool == [] || pool[0].Other? {
      SameZones(y, z);
    } else {
      TopSplit(pool);
      var c := pool[0].cell;
      assert Count(Top(pool), c) >= 1;
      assert Conn(y, c) != Conn(z, c);
    }
  }

  // ----- the handler's outcome, limit by limit -----

  lemma RoomMeans(z: Zones, limits: seq<Limit>, keys: seq<Key>, memory: seq<bool>)
    requires |limits| == |keys| == |memory|
    ensures AllRoom(z, limits, keys, memory) <==> forall i :: 0 <= i < |limits| ==>
      var c := Cell(limits[i].zone, keys[i]);
      |keys[i]| == 0 || |keys[i]| > 255 || if c in z then z[c] < limits[i].conn else memory[i]
  {
  }

  lemma {:induction false} RecordsMean(limits: seq<Limit>, keys: seq<Key>, n: nat, c: Cell)
    requires n <= |limits| == |keys| && LimitsOk(limits)
    ensures Count(Records(limits, keys, n), c) ==
      if exists i :: 0 <= i < n && 0 < |keys[i]| <= 255 && c == Cell(limits[i].zone, keys[i]) then 1 else 0
  {
    if n > 0 {
      RecordsMean(limits, keys, n - 1, c);
      if Usable(keys[n - 1]) {
        assert Records(limits, keys, n)[1..] == Records(limits, keys, n - 1);
        assert c == Cell(limits[n - 1].zone, keys[n - 1]) ==>
          forall i :: 0 <= i < n - 1 ==> limits[i].zone != c.zone;
      }
    }
  }

  lemma {:induction false} AnyRecord(limits: seq<Limit>, keys: seq<Key>, n: nat)
    requires n <= |limits| == |keys|
    ensures Records(limits, keys, n) != [] <==> exists i :: 0 <= i < n && 0 < |keys[i]| <= 255
  {
    if n > 0 { AnyRecord(limits, keys, n - 1); }
  }

  lemma Granted(z0: Zones, z: Zones, limits: seq<Limit>, keys: seq<Key>)
    requires |limits| == |keys| && LimitsOk(limits) && NoEmptyNodes(z0) && NoEmptyNodes(z)
    requires forall c :: Conn(z, c) == Conn(z0, c) + Count(Records(limits, keys, |limits|), c)
    ensures forall i :: 0 <= i < |limits| && 0 < |keys[i]| <= 255 ==>
      var c := Cell(limits[i].zone, keys[i]);
      c in z && z[c] == 1 + if c in z0 then z0[c] else 0
    ensures forall c :: (forall i :: 0 <= i < |limits| && 0 < |keys[i]| <= 255 ==>
                           c != Cell(limits[i].zone, keys[i])) ==>
      (c in z <==> c in z0) && (c in z ==> z[c] == z0[c])
  {
    hide Records, Count;
    forall i | 0 <= i < |limits| && 0 < |keys[i]| <= 255
      ensures var c := Cell(limits[i].zone, keys[i]); c in z && z[c] == 1 + if c in z0 then z0[c] else 0
    {
      var c := Cell(limits[i].zone, keys[i]);
      RecordsMean(limits, keys, |limits|, c);
      assert Conn(z, c) == Conn(z0, c) + 1;
    }
    forall c | forall i :: 0 <= i < |limits| && 0 < |keys[i]| <= 255 ==> c != Cell(limits[i].zone, keys[i])
      ensures (c in z <==> c in z0) && (c in z ==> z[c] == z0[c])
    {
      RecordsMean(limits, keys, |limits|, c);
      assert Conn(z, c) == Conn(z0, c);
    }
  }

  lemma Refused(z0: Zones, z: Zones, pool: seq<Record>)
    requires Covers(z0, pool) && NoEmptyNodes(z)
    requires forall c :: Conn(z, c) == Conn(z0, c) - Count(Top(pool), c)
    ensures pool == [] || pool[0].Other? ==> z == z0 && Below(pool) == pool
  {
    RejectionRestores(z0, z, pool);
  }

  lemma CoversMeans(z: Zones, pool: seq<Record>)
    requires Covers(z, pool)
    ensures NoEmptyNodes(z)
  {
  }

  /** The shared zones, as seen from one session, and that session. */
  class Session {
    var zones: Zones
    var pool: seq<Record>
    var status: Status

    constructor (zones: Zones, pool: seq<Record>)
      ensures this.zones == zones && this.pool == pool && status == Unset
    {
      this.zones, this.pool, status := zones, pool, Unset;
    }

    /** `limit_conn_cleanup`: one connection less in the record's node. */
    method Cleanup(c: Cell)
      requires c in zones && zones[c] > 0
      modifies this`zones
      ensures NoEmptyNodes(old(zones)) ==> NoEmptyNodes(zones)
      ensures forall d :: Conn(zones, d) == old(Conn(zones, d)) - Count([Held(c)], d)
    {
      ghost var before := zones;
      zones := zones[c := zones[c] - 1];
      if zones[c] == 0 {
        zones := zones - {c};
      }
      assert zones == Release(before, c) by {
        assert before[c := before[c] - 1] - {c} == before - {c};
      }
    }

    /** `limit_conn_cleanup_all`: this module's records come off the head of the pool. */
    method CleanupAll()
      requires Covers(zones, pool)
      modifies this`zones, this`pool
      ensures pool == Below(old(pool)) && NoEmptyNodes(zones)
      ensures forall c :: Conn(zones, c) == old(Conn(zones, c)) - Count(Top(old(pool)), c)
    {
      ghost var z0 := zones;
      var cln := pool;
      while cln != [] && cln[0].Held?
        invariant pool == old(pool) && Covers(zones, cln) && Below(cln) == Below(pool)
        invariant forall c :: Conn(zones, c) - Count(Top(cln), c) == Conn(z0, c) - Count(Top(pool), c)
        decreases |cln|
      {
        TakesOne(zones, cln);
        Cleanup(cln[0].cell);
        cln := cln[1..];
      }
      pool := cln;
    }

    method Reject(dryRun: bool, ghost z0: Zones, ghost p0: seq<Record>, ghost rs: seq<Record>) returns (v: Verdict)
      requires AllHeld(rs) && pool == rs + p0 && Covers(z0, p0) && NoEmptyNodes(zones)
      requires forall c :: Conn(zones, c) == Conn(z0, c) + Count(rs, c)
      modifies this
      ensures v == (if dryRun then Declined else Unavailable)
      ensures status == (if dryRun then RejectedDryRun else Rejected)
      ensures pool == Below(p0) && NoEmptyNodes(zones)
      ensures forall c :: Conn(zones, c) == Conn(z0, c) - Count(Top(p0), c)
    {
      TopJoin(rs, p0);
      forall c ensures Count(rs + p0, c) == Count(rs, c) + Count(p0, c) {
        CountJoin(rs, p0, c);
      }
      forall c ensures Count(rs + Top(p0), c) == Count(rs, c) + Count(Top(p0), c) {
        CountJoin(rs, Top(p0), c);
      }
      CleanupAll();
      if dryRun {
        status := RejectedDryRun;
        return Declined;
      }
      status := Rejected;
      return Unavailable;
    }

    /**
     * The preaccess handler: with room in every limit each usable key is counted once and recorded;
     * otherwise what was reserved on the way, and any older record above it, is given back.
     */
    method Handle(limits: seq<Limit>, keys: seq<Key>, memory: seq<bool>, dryRun: bool) returns (v: Verdict)
      requires |limits| == |keys| == |memory| && LimitsOk(limits) && Covers(zones, pool)
      modifies this
      ensures AllRoom(old(zones), limits, keys, memory) ==>
        && v == Declined && pool == Records(limits, keys, |limits|) + old(pool)
        && (forall c :: Conn(zones, c) == old(Conn(zones, c)) + Count(Records(limits, keys, |limits|), c))
        && status == (if Records(limits, keys, |limits|) == [] then old(status) else Passed)
      ensures !AllRoom(old(zones), limits, keys, memory) ==>
        && v == (if dryRun then Declined else Unavailable)
        && status == (if dryRun then RejectedDryRun else Rejected)
        && pool == Below(old(pool))
        && forall c :: Conn(zones, c) == old(Conn(zones, c)) - Count(Top(old(pool)), c)
      ensures NoEmptyNodes(zones)
      ensures
        (forall i :: 0 <= i < |limits| ==>
           var c := Cell(limits[i].zone, keys[i]);
           |keys[i]| == 0 || |keys[i]| > 255 || if c in old(zones) then old(zones)[c] < limits[i].conn else memory[i])
        ==>
          && v == Declined
          && status == (if exists i :: 0 <= i < |limits| && 0 < |keys[i]| <= 255 then Passed else old(status))
          && (forall i :: 0 <= i < |limits| && 0 < |keys[i]| <= 255 ==>
                var c := Cell(limits[i].zone, keys[i]);
                c in zones && zones[c] == 1 + if c in old(zones) then old(zones)[c] else 0)
          && (forall c :: (forall i :: 0 <= i < |limits| && 0 < |keys[i]| <= 255 ==>
                             c != Cell(limits[i].zone, keys[i])) ==>
                (c in zones <==> c in old(zones)) && (c in zones ==> zones[c] == old(zones)[c]))
      ensures
        (exists i :: 0 <= i < |limits| && 0 < |keys[i]| <= 255 &&
           var c := Cell(limits[i].zone, keys[i]);
           if c in old(zones) then old(zones)[c] >= limits[i].conn else !memory[i])
        ==>
          && v == (if dryRun then Declined else Unavailable)
          && (old(pool) == [] || old(pool)[0].Other? ==> zones == old(zones) && pool == old(pool))
    {
      hide *;
      ghost var z0, p0, s0 := zones, pool, status;
      RoomMeans(z0, limits, keys, memory);
      CoversMeans(z0, p0);
      Begin(z0, p0, s0, limits, keys, memory);
      for i := 0 to |limits|
        invariant Reserving(zones, pool, status, z0, p0, s0, limits, keys, memory, i)
      {
        if |keys[i]| == 0 || |keys[i]| > MAX_KEY {
          Unlimited(zones, pool, status, z0, p0, s0, limits, keys, memory, i);
          continue;
        }
        ghost var s := status;
        status := Passed;
        var c := Cell(limits[i].zone, keys[i]);
        Decided(zones, pool, s, z0, p0, s0, limits, keys, memory, i);
        if c !in zones {
          if !memory[i] {
            v := Reject(dryRun, z0, p0, Records(limits, keys, i));
            Refused(z0, zones, p0);
            return;
          }
          zones := zones[c := 1];
        } else {
          if zones[c] >= limits[i].conn {
            v := Reject(dryRun, z0, p0, Records(limits, keys, i));
            Refused(z0, zones, p0);
            return;
          }
          zones := zones[c := zones[c] + 1];
        }
        pool := [Held(c)] + pool;
      }
      End(zones, pool, status, z0, p0, s0, limits, keys, memory);
      Granted(z0, zones, limits, keys);
      AnyRecord(limits, keys, |limits|);
      v := Declined;
    }
  }
}
