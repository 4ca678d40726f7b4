/** Connection limits with any number of sessions interleaved at every lock of a zone. */
module LimitRuns {
  import opened LimitConn

  /**
   * Where a session is: before the handler, at limit `i`, at limit `i` with the node counted and
   * the record still to be made, taking its records off after a rejection, past the handler, or
   * having its pool destroyed.
   */
  datatype Phase =
    | Fresh
    | Checking(i: nat)
    | Recording(i: nat, cell: Cell)
    | Undoing
    | Over(rejected: bool)
    | Closing

  /** `mixed` remembers that a foreign record was put above one of this module. */
  datatype Session = Session(limits: seq<Limit>, pool: seq<Record>, phase: Phase, mixed: bool)

  datatype World = World(zones: Zones, sessions: seq<Session>)

  datatype Action =
    | Enter(s: nat)                                // the handler is entered
    | Check(s: nat, key: Key, memory: bool)        // one turn of its loop, under the zone's lock
    | Note(s: nat)                                 // the cleanup record is made
    | Foreign(s: nat)                              // some other module registers a cleanup
    | Undo(s: nat)                                 // one turn of `cleanup_all`, or its end
    | Close(s: nat)                                // the connection ends, maybe at a key that has no value
    | Destroy(s: nat)                              // one cleanup while its pool is destroyed

  // ----- the steps -----

  function Set(w: World, z: Zones, s: nat, x: Session): World
    requires s < |w.sessions|
  {
    World(z, w.sessions[s := x])
  }

  predicate Enabled(w: World, a: Action) {
    && a.s < |w.sessions|
    && var x := w.sessions[a.s];
      match a
      case Enter(_) => x.phase.Fresh?
      case Check(_, _, _) => x.phase.Checking?
      case Note(_) => x.phase.Recording?
      case Foreign(_) => x.phase.Fresh? || x.phase.Checking? || x.phase.Over?
      case Undo(_) => x.phase.Undoing?
      case Close(_) => x.phase.Fresh? || x.phase.Checking? || x.phase.Over?
      case Destroy(_) => x.phase.Closing? && x.pool != []
  }

  function Checked(w: World, s: nat, x: Session, i: nat, key: Key, memory: bool): World
    requires s < |w.sessions|
  {
    if i >= |x.limits| then Set(w, w.zones, s, x.(phase := Over(false)))
    else if !Usable(key) then Set(w, w.zones, s, x.(phase := Checking(i + 1)))
    else if !Room(w.zones, x.limits[i], key, memory) then Set(w, w.zones, s, x.(phase := Undoing))
    else
      var c := Cell(x.limits[i].zone, key);
      Set(w, Reserve(w.zones, c), s, x.(phase := Recording(i, c)))
  }

  /** The record goes away, and its node's count with it. */
  function Dropped(w: World, s: nat, x: Session): World
    requires s < |w.sessions| && x.pool != []
  {
    match x.pool[0]
    case Other => Set(w, w.zones, s, x.(pool := x.pool[1..]))
    case Held(c) =>
      Set(w, if c in w.zones && w.zones[c] > 0 then Release(w.zones, c) else w.zones, s, x.(pool := x.pool[1..]))
  }

  predicate HasHeld(pool: seq<Record>) { exists i :: 0 <= i < |pool| && pool[i].Held? }

  function Step(w: World, a: Action): World
    requires Enabled(w, a)
  {
    var x := w.sessions[a.s];
    match a
    case Enter(s) => Set(w, w.zones, s, x.(phase := Checking(0)))
    case Check(s, key, memory) => Checked(w, s, x, x.phase.i, key, memory)
    case Note(s) =>
      Set(w, w.zones, s, x.(pool := [Held(x.phase.cell)] + x.pool, phase := Checking(x.phase.i + 1)))
    case Foreign(s) =>
      Set(w, w.zones, s, x.(pool := [Other] + x.pool, mixed := x.mixed || HasHeld(x.pool)))
    case Undo(s) =>
      if x.pool != [] && x.pool[0].Held? then Dropped(w, s, x) else Set(w, w.zones, s, x.(phase := Over(true)))
    case Close(s) => Set(w, w.zones, s, x.(phase := Closing))
    case Destroy(s) => Dropped(w, s, x)
  }

  // ----- the invariant -----

  /** What a session is counted for: its records, and the one it is about to make. */
  function Holds(x: Session): seq<Record> {
    if x.phase.Recording? then [Held(x.phase.cell)] + x.pool else x.pool
  }

  function Total(ss: seq<Session>, c: Cell): nat {
    if ss == [] then 0 else Count(Holds(ss[0]), c) + Total(ss[1..], c)
  }

  lemma {:induction false} TotalUpdate(ss: seq<Session>, i: nat, x: Session, c: Cell)
    requires i < |ss|
    ensures Total(ss[i := x], c) == Total(ss, c) - Count(Holds(ss[i]), c) + Count(Holds(x), c)
    ensures Count(Holds(ss[i]), c) <= Total(ss, c)
  {
    if i == 0 {
      assert ss[i := x][1..] == ss[1..];
    } else {
      assert ss[i := x][1..] == ss[1..][i - 1 := x];
      TotalUpdate(ss[1..], i - 1, x, c);
    }
  }

  ghost predicate LimitsWithin(limits: seq<Limit>, top: nat -> nat) {
    forall i :: 0 <= i < |limits| ==> 1 <= limits[i].conn <= top(limits[i].zone)
  }

  /** Foreign records lie above this module's exactly if that happened; a rejected session is cleared down to one. */
  ghost predicate Shape(x: Session) {
    && (x.phase.Fresh? ==> NoneHeld(x.pool))
    && (!x.phase.Closing? && x.phase != Over(false) ==> (Contiguous(x.pool) <==> !x.mixed))
    && (x.phase == Over(true) && x.pool != [] ==> x.pool[0].Other?)
  }

  ghost predicate Inv(w: World, top: nat -> nat) {
    && NoEmptyNodes(w.zones)
    && (forall c :: Conn(w.zones, c) == Total(w.sessions, c))
    && (forall c :: Conn(w.zones, c) <= top(c.zone))
    && (forall s :: 0 <= s < |w.sessions| ==> LimitsWithin(w.sessions[s].limits, top) && Shape(w.sessions[s]))
  }

  /** What a step of session `s` must do to the zones: exactly what it does to the session's own count. */
  lemma SetKeeps(w: World, top: nat -> nat, z: Zones, s: nat, x: Session)
    requires Inv(w, top) && s < |w.sessions| && NoEmptyNodes(z)
    requires LimitsWithin(x.limits, top) && Shape(x)
    requires forall c :: Conn(z, c) == Conn(w.zones, c) - Count(Holds(w.sessions[s]), c) + Count(Holds(x), c)
    requires forall c :: Conn(z, c) <= Conn(w.zones, c) || Conn(z, c) <= top(c.zone)
    ensures Inv(Set(w, z, s, x), top)
  {
    forall c
      ensures Conn(z, c) == Total(w.sessions[s := x], c)
      ensures Conn(z, c) <= top(c.zone)
    {
      TotalUpdate(w.sessions, s, x, c);
    }
  }

  /** A reservation stays within the zone's largest limit. */
  lemma Grows(z: Zones, top: nat -> nat, l: Limit, key: Key, memory: bool)
    requires NoEmptyNodes(z) && Usable(key) && Room(z, l, key, memory) && 1 <= l.conn <= top(l.zone)
    ensures var c := Cell(l.zone, key);
      forall d :: Conn(Reserve(z, c), d) <= Conn(z, d) || Conn(Reserve(z, c), d) <= top(d.zone)
  {
    CountOne(Cell(l.zone, key));
  }

  lemma GrantKeeps(w: World, top: nat -> nat, s: nat, key: Key, memory: bool)
    requires Inv(w, top) && Enabled(w, Check(s, key, memory))
    requires var x := w.sessions[s];
      x.phase.i < |x.limits| && Usable(key) && Room(w.zones, x.limits[x.phase.i], key, memory)
    ensures Inv(Checked(w, s, w.sessions[s], w.sessions[s].phase.i, key, memory), top)
  {
    var x := w.sessions[s];
    var i := x.phase.i;
    var c := Cell(x.limits[i].zone, key);
    Grows(w.zones, top, x.limits[i], key, memory);
    forall d ensures Count([Held(c)] + x.pool, d) == Count([Held(c)], d) + Count(x.pool, d) {
      CountJoin([Held(c)], x.pool, d);
    }
    SetKeeps(w, top, Reserve(w.zones, c), s, x.(phase := Recording(i, c)));
  }

  lemma CheckKeeps(w: World, top: nat -> nat, s: nat, key: Key, memory: bool)
    requires Inv(w, top) && Enabled(w, Check(s, key, memory))
    ensures Inv(Checked(w, s, w.sessions[s], w.sessions[s].phase.i, key, memory), top)
  {
    hide Reserve, Room;
    var x := w.sessions[s];
    var i := x.phase.i;
    if i >= |x.limits| {
      SetKeeps(w, top, w.zones, s, x.(phase := Over(false)));
    } else if !Usable(key) {
      SetKeeps(w, top, w.zones, s, x.(phase := Checking(i + 1)));
    } else if Room(w.zones, x.limits[i], key, memory) {
      GrantKeeps(w, top, s, key, memory);
    } else {
      SetKeeps(w, top, w.zones, s, x.(phase := Undoing));
    }
  }

  lemma DropKeeps(w: World, top: nat -> nat, s: nat)
    requires Inv(w, top) && s < |w.sessions|
    requires var x := w.sessions[s];
      x.pool != [] && (x.phase.Closing? || (x.phase.Undoing? && x.pool[0].Held?))
    ensures Inv(Dropped(w, s, w.sessions[s]), top)
  {
    var x := w.sessions[s];
    var y := x.(pool := x.pool[1..]);
    match x.pool[0]
    case Other =>
      SetKeeps(w, top, w.zones, s, y);
    case Held(c) =>
      TotalUpdate(w.sessions, s, x, c);
      assert Count(x.pool, c) >= 1;
      assert Conn(w.zones, c) >= 1;
      ContiguousTail(x.pool);
      forall d ensures Count(x.pool, d) == Count([Held(c)], d) + Count(y.pool, d) {
        CountOne(c);
      }
      SetKeeps(w, top, Release(w.zones, c), s, y);
  }

  lemma ForeignKeeps(w: World, top: nat -> nat, s: nat)
    requires Inv(w, top) && Enabled(w, Foreign(s))
    ensures Inv(Step(w, Foreign(s)), top)
  {
    var x := w.sessions[s];
    var pool := [Other] + x.pool;
    forall c ensures Count(pool, c) == Count(x.pool, c) {
      assert pool[1..] == x.pool;
    }
    assert Contiguous(pool) <==> !HasHeld(x.pool) by {
      assert forall i :: 0 <= i < |x.pool| ==> pool[i + 1] == x.pool[i];
      if HasHeld(x.pool) {
        var i :| 0 <= i < |x.pool| && x.pool[i].Held?;
        assert pool[i + 1].Held? && !pool[0].Held?;
      }
    }
    assert !HasHeld(x.pool) ==> Contiguous(x.pool);
    SetKeeps(w, top, w.zones, s, x.(pool := pool, mixed := x.mixed || HasHeld(x.pool)));
  }

  lemma NoteKeeps(w: World, top: nat -> nat, s: nat)
    requires Inv(w, top) && Enabled(w, Note(s))
    ensures Inv(Step(w, Note(s)), top)
  {
    var x := w.sessions[s];
    var pool := [Held(x.phase.cell)] + x.pool;
    assert pool[1..] == x.pool;
    ContiguousTail(pool);
    SetKeeps(w, top, w.zones, s, x.(pool := pool, phase := Checking(x.phase.i + 1)));
  }

  /** Every step keeps the accounting. */
  lemma StepKeeps(w: World, top: nat -> nat, a: Action)
    requires Inv(w, top) && Enabled(w, a)
    ensures Inv(Step(w, a), top)
  {
    var x := w.sessions[a.s];
    match a
    case Enter(s) => SetKeeps(w, top, w.zones, s, x.(phase := Checking(0)));
    case Check(s, key, memory) => CheckKeeps(w, top, s, key, memory);
    case Note(s) => NoteKeeps(w, top, s);
    case Foreign(s) => ForeignKeeps(w, top, s);
    case Undo(s) =>
      if x.pool != [] && x.pool[0].Held? {
        DropKeeps(w, top, s);
      } else {
        SetKeeps(w, top, w.zones, s, x.(phase := Over(true)));
      }
    case Close(s) => SetKeeps(w, top, w.zones, s, x.(phase := Closing));
    case Destroy(s) => DropKeeps(w, top, s);
  }

  // ----- runs -----

  /** No node yet, and every session before its handler with an empty pool. */
  ghost predicate Initial(w: World, top: nat -> nat) {
    && w.zones == map[]
    && forall s :: 0 <= s < |w.sessions| ==>
        var x := w.sessions[s];
        x.pool == [] && x.phase == Fresh && !x.mixed && LimitsWithin(x.limits, top)
  }

  ghost predicate IsRun(w: World, acts: seq<Action>, w': World)
    decreases |acts|
  {
    if acts == [] then w' == w else Enabled(w, acts[0]) && IsRun(Step(w, acts[0]), acts[1..], w')
  }

  lemma {:induction false} NobodyHolds(ss: seq<Session>, c: Cell)
    requires forall s :: 0 <= s < |ss| ==> NoneHeld(Holds(ss[s]))
    ensures Total(ss, c) == 0
  {
    if ss != [] {
      CountNone(Holds(ss[0]), c);
      NobodyHolds(ss[1..], c);
    }
  }

  lemma {:induction false} RunKeeps(w: World, acts: seq<Action>, w': World, top: nat -> nat)
    requires Inv(w, top) && IsRun(w, acts, w')
    ensures Inv(w', top)
    decreases |acts|
  {
    if acts != [] {
      StepKeeps(w, top, acts[0]);
      RunKeeps(Step(w, acts[0]), acts[1..], w', top);
    }
  }

  lemma Always(w: World, acts: seq<Action>, w': World, top: nat -> nat)
    requires Initial(w, top) && IsRun(w, acts, w')
    ensures Inv(w', top)
  {
    forall c ensures Total(w.sessions, c) == 0 {
      NobodyHolds(w.sessions, c);
    }
    RunKeeps(w, acts, w', top);
  }

  /**
   * In every run each counter is the number of reservations outstanding, its node is there exactly
   * while there are any, and it never exceeds the zone's largest limit.
   */
  lemma Accounting(w: World, acts: seq<Action>, w': World, top: nat -> nat, c: Cell)
    requires Initial(w, top) && IsRun(w, acts, w')
    ensures Conn(w'.zones, c) == Total(w'.sessions, c) <= top(c.zone)
    ensures c in w'.zones <==> Total(w'.sessions, c) > 0
  {
    Always(w, acts, w', top);
    assert Conn(w'.zones, c) == Total(w'.sessions, c);
  }

  lemma Cleared(x: Session)
    requires Shape(x) && x.phase == Over(true)
    ensures !x.mixed <==> NoneHeld(x.pool)
    ensures Holds(x) == x.pool
  {
    ClearsAll(x.pool);
    assert Below(x.pool) == x.pool;
  }

  lemma HoldsNone(pool: seq<Record>)
    ensures NoneHeld(pool) <==> forall c :: Count(pool, c) == 0
  {
    if NoneHeld(pool) {
      forall c ensures Count(pool, c) == 0 {
        CountNone(pool, c);
      }
    } else {
      var i :| 0 <= i < |pool| && !pool[i].Other?;
      CountNone(pool, pool[i].cell);
      assert pool[i] == Held(pool[i].cell);
    }
  }

  /**
   * A rejected session, dry run or not, holds nothing any more exactly if no foreign record was
   * put above one of its own.
   */
  lemma RejectedHoldsNothing(w: World, acts: seq<Action>, w': World, top: nat -> nat, s: nat)
    requires Initial(w, top) && IsRun(w, acts, w') && s < |w'.sessions| && w'.sessions[s].phase == Over(true)
    ensures !w'.sessions[s].mixed <==> forall c :: Count(Holds(w'.sessions[s]), c) == 0
  {
    Always(w, acts, w', top);
    var x := w'.sessions[s];
    assert Shape(x);
    hide *;
    Cleared(x);
    HoldsNone(x.pool);
  }

  /** A world of one session under two limits. */
  function One(z: Zones, pool: seq<Record>, phase: Phase, mixed: bool): World {
    World(z, [Session([Limit(0, 1), Limit(1, 1)], pool, phase, mixed)])
  }

  lemma SetOne()
    ensures forall w: World, z, x :: |w.sessions| == 1 ==> Set(w, z, 0, x) == World(z, [x])
  {
    forall w: World, z, x | |w.sessions| == 1 ensures Set(w, z, 0, x) == World(z, [x]) {
      assert w.sessions[0 := x] == [x];
    }
  }

  lemma FirstSteps(key: Key)
    requires Usable(key)
    ensures var c := Cell(0, key);
      var w0, w1, w2 := One(map[], [], Fresh, false), One(map[], [], Checking(0), false),
          One(map[c := 1], [], Recording(0, c), false);
      && Enabled(w0, Enter(0)) && Step(w0, Enter(0)) == w1
      && Enabled(w1, Check(0, key, true)) && Step(w1, Check(0, key, true)) == w2
      && Enabled(w2, Note(0)) && Step(w2, Note(0)) == One(map[c := 1], [Held(c)], Checking(1), false)
  {
    SetOne();
    var c := Cell(0, key);
    var none: seq<Record> := [];
    assert Reserve(map[], c) == map[c := 1] && [Held(c)] + none == [Held(c)];
  }

  lemma LastSteps(key: Key)
    requires Usable(key)
    ensures var c := Cell(0, key);
      var w3 := One(map[c := 1], [Held(c)], Checking(1), false);
      var w4 := One(map[c := 1], [Other, Held(c)], Checking(1), true);
      var w5 := One(map[c := 1], [Other, Held(c)], Undoing, true);
      && Enabled(w3, Foreign(0)) && Step(w3, Foreign(0)) == w4
      && Enabled(w4, Check(0, key, false)) && Step(w4, Check(0, key, false)) == w5
      && Enabled(w5, Undo(0)) && Step(w5, Undo(0)) == One(map[c := 1], [Other, Held(c)], Over(true), true)
  {
    var c := Cell(0, key);
    SetOne();
    assert [Other] + [Held(c)] == [Other, Held(c)];
    assert HasHeld([Held(c)]) by { assert [Held(c)][0].Held?; }
  }

  lemma RunBack(w: World, a: Action, acts: seq<Action>, w': World)
    requires Enabled(w, a) && IsRun(Step(w, a), acts, w')
    ensures IsRun(w, [a] + acts, w')
  {
    assert ([a] + acts)[1..] == acts;
  }

  /** A rejected session that keeps a reservation: a foreign record came between its two limits. */
  lemma MixedKeeps(key: Key) returns (w': World)
    requires Usable(key)
    ensures
      var acts := [Enter(0), Check(0, key, true), Note(0), Foreign(0), Check(0, key, false), Undo(0)];
      IsRun(One(map[], [], Fresh, false), acts, w')
    ensures w'.sessions == [Session([Limit(0, 1), Limit(1, 1)], [Other, Held(Cell(0, key))], Over(true), true)]
    ensures Conn(w'.zones, Cell(0, key)) == 1
  {
    hide Step, Enabled;
    var c := Cell(0, key);
    w' := One(map[c := 1], [Other, Held(c)], Over(true), true);
    FirstSteps(key);
    LastSteps(key);
    assert IsRun(w', [], w');
    RunBack(One(map[c := 1], [Other, Held(c)], Undoing, true), Undo(0), [], w');
    var acts := [Undo(0)];
    RunBack(One(map[c := 1], [Other, Held(c)], Checking(1), true), Check(0, key, false), acts, w');
    acts := [Check(0, key, false)] + acts;
    RunBack(One(map[c := 1], [Held(c)], Checking(1), false), Foreign(0), acts, w');
    acts := [Foreign(0)] + acts;
    RunBack(One(map[c := 1], [], Recording(0, c), false), Note(0), acts, w');
    acts := [Note(0)] + acts;
    RunBack(One(map[], [], Checking(0), false), Check(0, key, true), acts, w');
    acts := [Check(0, key, true)] + acts;
    RunBack(One(map[], [], Fresh, false), Enter(0), acts, w');
    assert [Enter(0)] + acts ==
           [Enter(0), Check(0, key, true), Note(0), Foreign(0), Check(0, key, false), Undo(0)];
  }

  /** When every pool is gone, so is every node. */
  lemma NothingLeft(w: World, acts: seq<Action>, w': World, top: nat -> nat)
    requires Initial(w, top) && IsRun(w, acts, w')
    requires forall s :: 0 <= s < |w'.sessions| ==> w'.sessions[s].pool == [] && !w'.sessions[s].phase.Recording?
    ensures w'.zones == map[]
  {
    Always(w, acts, w', top);
    forall c ensures c !in w'.zones {
      NobodyHolds(w'.sessions, c);
      assert Conn(w'.zones, c) == Total(w'.sessions, c);
    }
  }
}
