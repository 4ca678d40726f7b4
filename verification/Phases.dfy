/** The phase engine: phases of handlers flattened into one table, and the loop that drives a session over it. */
module Phases {
  type Handler = nat

  /** What a handler answers; every other code ends the session. */
  datatype Verdict = Ok | Declined | Again | Done | Other(code: int)

  datatype Checker = Generic | Preread | Content | Null

  datatype Entry = Entry(checker: Checker, handler: Handler, next: nat)

  const CONTENT := Entry(Content, 0, 0)
  const END := Entry(Null, 0, 0)

  // ----- the nested reading -----

  function Reverse(hs: seq<Handler>): (r: seq<Handler>)
    ensures |r| == |hs|
  {
    if hs == [] then [] else Reverse(hs[1..]) + [hs[0]]
  }

  /** The handlers of the current phase still to come, and the phases after it; content comes last. */
  datatype Place = Place(now: seq<Handler>, later: seq<seq<Handler>>)

  datatype Why = Suspended | Served | Finalized

  /** Where a run of the engine stopped, how many answers it took, and whom it asked. */
  datatype Stop<P> = Stop(at: P, calls: nat, why: Why, asked: seq<Handler>)

  function Ask<P>(h: Handler, s: Stop<P>): Stop<P> { s.(asked := [h] + s.asked) }

  function LeftIn(later: seq<seq<Handler>>): nat {
    if later == [] then 0 else 1 + |later[0]| + LeftIn(later[1..])
  }

  function Left(p: Place): nat { |p.now| + LeftIn(p.later) }

  /**
   * The phases in order, in each the handler registered last first: OK goes to the next phase,
   * DECLINED to the next handler, AGAIN and DONE wait here, anything else ends the session.
   */
  function Walk(p: Place, answer: nat -> Verdict, n: nat): Stop<Place>
    decreases Left(p)
  {
    if p.now == [] then
      if p.later == [] then Stop(p, n, Served, []) else Walk(Place(Reverse(p.later[0]), p.later[1..]), answer, n)
    else
      match answer(n)
      case Ok => Ask(p.now[0], Walk(Place([], p.later), answer, n + 1))
      case Declined => Ask(p.now[0], Walk(Place(p.now[1..], p.later), answer, n + 1))
      case Again => Stop(p, n + 1, Suspended, [p.now[0]])
      case Done => Stop(p, n + 1, Suspended, [p.now[0]])
      case Other(_) => Stop(p, n + 1, Finalized, [p.now[0]])
  }

  // ----- the table -----

  /** The entries of handlers of one phase, whose successor phase starts at `next`. */
  function Entries(c: Checker, hs: seq<Handler>, next: nat): (r: seq<Entry>)
    ensures |r| == |hs|
  {
    if hs == [] then [] else [Entry(c, hs[0], next)] + Entries(c, hs[1..], next)
  }

  /** The table from index `k` on: the handlers of later phases, `preread` phases before the last of them. */
  function FlatLater(later: seq<seq<Handler>>, k: nat): seq<Entry>
    decreases |later|
  {
    if later == [] then [CONTENT, END]
    else
      var next := k + |later[0]|;
      Entries(if |later| == 1 then Preread else Generic, Reverse(later[0]), next) + FlatLater(later[1..], next)
  }

  /** The table seen from a place at index `k`. */
  ghost predicate Flat(t: seq<Entry>, k: nat, p: Place) {
    && k + |p.now| <= |t|
    && (forall j :: k <= j < k + |p.now| ==>
        && t[j].handler == p.now[j - k] && t[j].next == k + |p.now|
        && (t[j].checker == Generic || t[j].checker == Preread))
    && t[k + |p.now|..] == FlatLater(p.later, k + |p.now|)
  }

  lemma {:induction false} EntriesAt(c: Checker, hs: seq<Handler>, next: nat, i: nat)
    requires i < |hs|
    ensures Entries(c, hs, next)[i] == Entry(c, hs[i], next)
  {
    if i > 0 { EntriesAt(c, hs[1..], next, i - 1); }
  }

  /** At the end of a phase the table goes on with the next one, last handler first. */
  lemma NextPhase(t: seq<Entry>, k: nat, later: seq<seq<Handler>>)
    requires Flat(t, k, Place([], later)) && later != []
    ensures Flat(t, k, Place(Reverse(later[0]), later[1..]))
  {
    var now := Reverse(later[0]);
    var c := if |later| == 1 then Preread else Generic;
    var es := Entries(c, now, k + |now|);
    var tail := t[k..];
    assert tail == es + FlatLater(later[1..], k + |now|);
    forall j | k <= j < k + |now|
      ensures t[j].handler == now[j - k] && t[j].next == k + |now|
      ensures t[j].checker == Generic || t[j].checker == Preread
    {
      EntriesAt(c, now, k + |now|, j - k);
      assert t[j] == tail[j - k] == es[j - k];
    }
    assert t[k + |now|..] == tail[|now|..];
  }

  lemma NextHandler(t: seq<Entry>, k: nat, p: Place)
    requires Flat(t, k, p) && p.now != []
    ensures Flat(t, k + 1, Place(p.now[1..], p.later))
    ensures Flat(t, k + |p.now|, Place([], p.later)) && t[k].next == k + |p.now|
    ensures k < |t| && t[k].handler == p.now[0] && (t[k].checker == Generic || t[k].checker == Preread)
  {
  }

  lemma AtContent(t: seq<Entry>, k: nat)
    requires Flat(t, k, Place([], []))
    ensures k + 2 == |t| && t[k] == CONTENT
  {
    assert t[k..][0] == t[k];
  }

  /** The place the engine is at, once it has left a finished phase behind. */
  function Settle(p: Place): Place
    decreases |p.later|
  {
    if p.now == [] && p.later != [] then Settle(Place(Reverse(p.later[0]), p.later[1..])) else p
  }

  lemma {:induction false} SettleFlat(t: seq<Entry>, k: nat, p: Place)
    requires Flat(t, k, p)
    ensures Flat(t, k, Settle(p)) && (Settle(p).now == [] ==> Settle(p).later == [])
    decreases |p.later|
  {
    if p.now == [] && p.later != [] {
      NextPhase(t, k, p.later);
      SettleFlat(t, k, Place(Reverse(p.later[0]), p.later[1..]));
    }
  }

  lemma {:induction false} SettleWalk(p: Place, answer: nat -> Verdict, n: nat)
    ensures Walk(p, answer, n) == Walk(Settle(p), answer, n)
    decreases |p.later|
  {
    if p.now == [] && p.later != [] { SettleWalk(Place(Reverse(p.later[0]), p.later[1..]), answer, n); }
  }

  // ----- building the table -----

  function Sum(phases: seq<seq<Handler>>): nat {
    if phases == [] then 0 else |phases[0]| + Sum(phases[1..])
  }

  lemma {:induction false} SumNext(phases: seq<seq<Handler>>, i: nat)
    requires i < |phases|
    ensures Sum(phases[..i + 1]) == Sum(phases[..i]) + |phases[i]| <= Sum(phases)
    decreases i
  {
    if i == 0 {
      assert phases[..1][1..] == [];
    } else {
      assert phases[..i + 1][1..] == phases[1..][..i] && phases[..i][1..] == phases[1..][..i - 1];
      SumNext(phases[1..], i - 1);
    }
  }

  lemma {:induction false} ReverseAt(hs: seq<Handler>, i: nat)
    requires i < |hs|
    ensures Reverse(hs)[i] == hs[|hs| - 1 - i]
  {
    if i < |hs| - 1 { ReverseAt(hs[1..], i); }
  }

  /** The entries of one phase, from its last handler down to its first. */
  method FillPhase(ph: array<Entry>, p: nat, checker: Checker, hs: seq<Handler>, n: nat)
    requires p + |hs| <= ph.Length
    modifies ph
    ensures ph[..p + |hs|] == old(ph[..p]) + Entries(checker, Reverse(hs), n)
    ensures ph[p + |hs|..] == old(ph[p + |hs|..])
  {
    ghost var es := Entries(checker, Reverse(hs), n);
    var j, k := |hs|, p;
    while j > 0
      invariant 0 <= j <= |hs| && k == p + |hs| - j
      invariant ph[..k] == old(ph[..p]) + es[..|hs| - j]
      invariant ph[k..] == old(ph[k..])
    {
      j := j - 1;
      ReverseAt(hs, |hs| - 1 - j);
      EntriesAt(checker, Reverse(hs), n, |hs| - 1 - j);
      ghost var rest := ph[k + 1..];
      ph[k] := Entry(checker, hs[j], n);
      assert ph[k + 1..] == rest;
      k := k + 1;
      assert es[..|hs| - j] == es[..|hs| - j - 1] + [es[|hs| - j - 1]];
    }
    assert es[..|hs|] == es;
  }

  ghost predicate Blank(ph: seq<Entry>, p: nat) { forall k :: p <= k < |ph| ==> ph[k] == END }

  lemma Build(done: seq<Entry>, phases: seq<seq<Handler>>, i: nat, p: nat)
    requires i < |phases|
    ensures var c := if i == |phases| - 1 then Preread else Generic;
      var n := p + |phases[i]|;
      done + FlatLater(phases[i..], p) ==
      done + Entries(c, Reverse(phases[i]), n) + FlatLater(phases[i + 1..], n)
  {
    assert phases[i..][0] == phases[i] && phases[i..][1..] == phases[i + 1..];
  }

  lemma Finish(ph: seq<Entry>, p: nat, phases: seq<seq<Handler>>)
    requires |ph| == p + 2 && ph[p] == CONTENT && ph[p + 1] == END
    requires ph[..p] + FlatLater([], p) == FlatLater(phases, 0)
    ensures Flat(ph, 0, Place([], phases))
  {
    assert ph[..p] + [CONTENT, END] == ph && ph[0..] == ph;
  }

  /** `init_phase_handlers`: one pass over the phases, with the index of the next phase running along. */
  method InitPhaseHandlers(phases: seq<seq<Handler>>) returns (ph: array<Entry>)
    ensures fresh(ph) && Flat(ph[..], 0, Place([], phases))
  {
    hide FlatLater, Entries, Reverse;
    var n := 1;
    for i := 0 to |phases|
      invariant n == 1 + Sum(phases[..i])
    {
      SumNext(phases, i);
      n := n + |phases[i]|;
    }
    assert phases[..|phases|] == phases && phases[0..] == phases;
    ph := new Entry[n + 1](_ => END);
    n := 0;
    var p := 0;
    for i := 0 to |phases|
      invariant n == p == Sum(phases[..i]) <= Sum(phases) && ph.Length == 2 + Sum(phases)
      invariant ph[..p] + FlatLater(phases[i..], p) == FlatLater(phases, 0)
      invariant Blank(ph[..], p)
    {
      SumNext(phases, i);
      Build(ph[..p], phases, i, p);
      var checker := if i == |phases| - 1 then Preread else Generic;
      n := n + |phases[i]|;
      ghost var rest := ph[n..];
      assert forall k :: n <= k < ph.Length ==> ph[k] == rest[k - n];
      FillPhase(ph, p, checker, phases[i], n);
      assert forall k :: n <= k < ph.Length ==> ph[k] == ph[n..][k - n];
      p := n;
    }
    assert phases[|phases|..] == [];
    ghost var done := ph[..p];
    ph[p] := CONTENT;
    assert ph[..p] == done;
    Finish(ph[..], p, phases);
  }

  // ----- the table, entry by entry -----

  lemma FirstAt(t: seq<Entry>, k: nat, later: seq<seq<Handler>>, j: nat)
    requires Flat(t, k, Place([], later)) && later != [] && j < |later[0]|
    ensures k + |later[0]| <= |t|
    ensures t[k + j] ==
      Entry(if |later| == 1 then Preread else Generic, later[0][|later[0]| - 1 - j], k + |later[0]|)
  {
    var now := Reverse(later[0]);
    var c := if |later| == 1 then Preread else Generic;
    var es := Entries(c, now, k + |now|);
    assert t[k..] == es + FlatLater(later[1..], k + |now|);
    hide Flat, FlatLater, Entries, Reverse;
    ReverseAt(later[0], j);
    EntriesAt(c, now, k + |now|, j);
    assert t[k + j] == t[k..][j] == es[j];
  }

  lemma AfterFirst(t: seq<Entry>, k: nat, later: seq<seq<Handler>>)
    requires Flat(t, k, Place([], later)) && later != []
    ensures Flat(t, k + |later[0]|, Place([], later[1..]))
  {
    NextPhase(t, k, later);
  }

  /** The entries of phase `i` start behind those of all earlier phases. */
  lemma {:induction false} FlatAt(t: seq<Entry>, k: nat, later: seq<seq<Handler>>, i: nat, j: nat)
    requires Flat(t, k, Place([], later)) && i < |later| && j < |later[i]|
    ensures k + Sum(later[..i]) + |later[i]| <= |t|
    ensures t[k + Sum(later[..i]) + j] ==
      Entry(if i == |later| - 1 then Preread else Generic, later[i][|later[i]| - 1 - j],
            k + Sum(later[..i]) + |later[i]|)
    decreases i
  {
    hide Flat;
    if i == 0 {
      FirstAt(t, k, later, j);
      assert Sum(later[..0]) == 0;
    } else {
      AfterFirst(t, k, later);
      FlatAt(t, k + |later[0]|, later[1..], i - 1, j);
      assert later[..i][1..] == later[1..][..i - 1] && later[..i][0] == later[0];
    }
  }

  lemma {:induction false} FlatEnd(t: seq<Entry>, k: nat, later: seq<seq<Handler>>)
    requires Flat(t, k, Place([], later))
    ensures |t| == k + Sum(later) + 2
    ensures t[k + Sum(later)] == Entry(Content, 0, 0) && t[k + Sum(later) + 1] == Entry(Null, 0, 0)
    decreases |later|
  {
    if later == [] {
      assert t[k..][0] == t[k] && t[k..][1] == t[k + 1];
    } else {
      AfterFirst(t, k, later);
      FlatEnd(t, k + |later[0]|, later[1..]);
    }
  }

  // ----- driving a session -----

  function AskAll<P>(asked: seq<Handler>, s: Stop<P>): Stop<P> { s.(asked := asked + s.asked) }

  ghost predicate Path(t: seq<Entry>, from: nat, to: nat, asked: seq<Handler>, path: seq<nat>) {
    && |path| == |asked|
    && (forall i :: 0 <= i < |path| ==> path[i] < |t| && t[path[i]].handler == asked[i] && from <= path[i] <= to)
    && (forall i, j :: 0 <= i < j < |path| ==> path[i] < path[j])
  }

  /** The loop at index `k`: what is left of the walk is the walk from the place there. */
  ghost predicate Driving(t: seq<Entry>, from: nat, k: nat, p: Place, at: Place, answer: nat -> Verdict,
                          n: nat, calls: nat, asked: seq<Handler>, path: seq<nat>) {
    && Flat(t, k, at) && (at.now == [] ==> at.later == []) && from <= k
    && Walk(p, answer, n) == AskAll(asked, Walk(at, answer, calls))
    && Path(t, from, k, asked, path) && (path != [] ==> path[|path| - 1] < k)
  }

  /** A settled place is at a handler, or at content. */
  lemma Standing(t: seq<Entry>, k: nat, p: Place)
    requires Flat(t, k, p) && (p.now == [] ==> p.later == [])
    ensures Settle(p) == p && k < |t| && t[k].checker != Null && (t[k].checker == Content <==> p.now == [])
  {
    if p.now == [] {
      AtContent(t, k);
    } else {
      assert t[k].handler == p.now[0];
    }
  }

  lemma DriveBegin(t: seq<Entry>, k: nat, p: Place, answer: nat -> Verdict, n: nat)
    requires Flat(t, k, p)
    ensures Driving(t, k, k, p, Settle(p), answer, n, n, [], [])
    ensures k < |t| && t[k].checker != Null
  {
    SettleFlat(t, k, p);
    SettleWalk(p, answer, n);
    Standing(t, k, Settle(p));
    var s := Walk(p, answer, n);
    assert [] + s.asked == s.asked;
  }

  /** Asking one handler: the walk stops there, or goes on from the next place. */
  lemma WalkOn(at: Place, answer: nat -> Verdict, calls: nat)
    requires at.now != []
    ensures var h := at.now[0];
      match answer(calls)
      case Ok => Walk(at, answer, calls) == Ask(h, Walk(Settle(Place([], at.later)), answer, calls + 1))
      case Declined => Walk(at, answer, calls) == Ask(h, Walk(Settle(Place(at.now[1..], at.later)), answer, calls + 1))
      case Again => Walk(at, answer, calls) == Stop(at, calls + 1, Suspended, [h])
      case Done => Walk(at, answer, calls) == Stop(at, calls + 1, Suspended, [h])
      case Other(_) => Walk(at, answer, calls) == Stop(at, calls + 1, Finalized, [h])
  {
    SettleWalk(Place([], at.later), answer, calls + 1);
    SettleWalk(Place(at.now[1..], at.later), answer, calls + 1);
  }

  lemma AskMore<P>(asked: seq<Handler>, h: Handler, s: Stop<P>)
    ensures AskAll(asked, Ask(h, s)) == AskAll(asked + [h], s)
  {
    assert asked + ([h] + s.asked) == asked + [h] + s.asked;
  }

  lemma PathGrows(t: seq<Entry>, from: nat, k: nat, to: nat, asked: seq<Handler>, path: seq<nat>)
    requires Path(t, from, k, asked, path) && (path != [] ==> path[|path| - 1] < k) && from <= k <= to && k < |t|
    ensures Path(t, from, to, asked + [t[k].handler], path + [k])
  {
    forall i | 0 <= i < |path| ensures path[i] < k {
      if i < |path| - 1 { assert path[i] < path[|path| - 1]; }
    }
  }

  lemma DriveTurn(t: seq<Entry>, from: nat, k: nat, p: Place, at: Place, answer: nat -> Verdict,
                  n: nat, calls: nat, asked: seq<Handler>, path: seq<nat>)
    requires Driving(t, from, k, p, at, answer, n, calls, asked, path)
    ensures k < |t| && t[k].checker != Null && Flat(t, k, at) && Path(t, from, k, asked, path)
    ensures t[k].checker == Content ==> Walk(p, answer, n) == Stop(at, calls, Served, asked)
    ensures t[k].checker != Content ==>
      && at.now != [] && k < t[k].next <= |t|
      && var asked', path' := asked + [t[k].handler], path + [k];
        && Path(t, from, k, asked', path')
        && match answer(calls)
           case Ok => Driving(t, from, t[k].next, p, Settle(Place([], at.later)), answer, n, calls + 1, asked', path')
           case Declined =>
             Driving(t, from, k + 1, p, Settle(Place(at.now[1..], at.later)), answer, n, calls + 1, asked', path')
           case Again => Walk(p, answer, n) == Stop(at, calls + 1, Suspended, asked')
           case Done => Walk(p, answer, n) == Stop(at, calls + 1, Suspended, asked')
           case Other(_) => Walk(p, answer, n) == Stop(at, calls + 1, Finalized, asked')
  {
    hide Path, Settle;
    Standing(t, k, at);
    if t[k].checker == Content {
      assert asked + [] == asked;
    } else {
      NextHandler(t, k, at);
      WalkOn(at, answer, calls);
      var ok, declined := Place([], at.later), Place(at.now[1..], at.later);
      SettleFlat(t, t[k].next, ok);
      SettleFlat(t, k + 1, declined);
      hide Walk, Flat;
      PathGrows(t, from, k, k, asked, path);
      PathGrows(t, from, k, k + 1, asked, path);
      PathGrows(t, from, k, t[k].next, asked, path);
      AskMore(asked, at.now[0], Walk(Settle(ok), answer, calls + 1));
      AskMore(asked, at.now[0], Walk(Settle(declined), answer, calls + 1));
    }
  }

  /** After the answer `v` at `k` the engine goes to the next phase on OK, to the next entry on DECLINED. */
  predicate Follows(t: seq<Entry>, v: Verdict, k: nat, next: nat) {
    k < |t| && ((v == Ok && next == t[k].next) || (v == Declined && next == k + 1))
  }

  /** The indices visited, from each to the one its answer leads to. */
  ghost predicate Course(t: seq<Entry>, answer: nat -> Verdict, n: nat, from: nat, path: seq<nat>) {
    && path != [] && path[0] == from
    && forall i :: 0 <= i < |path| - 1 ==> Follows(t, answer(n + i), path[i], path[i + 1])
  }

  lemma CourseBegin(t: seq<Entry>, answer: nat -> Verdict, n: nat, k: nat)
    ensures Course(t, answer, n, k, [] + [k])
  {
  }

  lemma CourseMore(t: seq<Entry>, answer: nat -> Verdict, n: nat, from: nat, path: seq<nat>, k: nat, next: nat)
    requires Course(t, answer, n, from, path + [k]) && k < |t|
    requires (answer(n + |path|) == Ok && next == t[k].next) || (answer(n + |path|) == Declined && next == k + 1)
    ensures Course(t, answer, n, from, path + [k] + [next])
  {
    assert Follows(t, answer(n + |path|), k, next);
    hide Follows;
    var before, all := path + [k], path + [k] + [next];
    assert all[0] == before[0];
    forall i | 0 <= i < |all| - 1 ensures Follows(t, answer(n + i), all[i], all[i + 1]) {
      assert all[i] == before[i];
      if i < |path| { assert all[i + 1] == before[i + 1]; }
    }
  }

  class Session {
    var phaseHandler: nat

    constructor ()
      ensures phaseHandler == 0
    {
      phaseHandler := 0;
    }

    /**
     * `run_phases`: on the flat table the session asks the handlers the nested reading asks, in
     * that order, and stops where it stops. No index is visited twice before the session waits.
     */
    method RunPhases(t: seq<Entry>, answer: nat -> Verdict, n: nat, ghost p: Place)
      returns (calls: nat, why: Why, asked: seq<Handler>, ghost at: Place, ghost path: seq<nat>)
      requires Flat(t, phaseHandler, p)
      modifies this
      ensures Walk(p, answer, n) == Stop(at, calls, why, asked)
      ensures Flat(t, phaseHandler, at)
      ensures Path(t, old(phaseHandler), phaseHandler, asked, path)
      ensures why == Served ==>
        && Course(t, answer, n, old(phaseHandler), path + [phaseHandler]) && calls == n + |path|
        && phaseHandler < |t| && t[phaseHandler].checker == Content
      ensures why != Served ==>
        && Course(t, answer, n, old(phaseHandler), path) && calls == n + |path|
        && path[|path| - 1] == phaseHandler
        && match answer(calls - 1)
           case Ok => false
           case Declined => false
           case Again => why == Suspended
           case Done => why == Suspended
           case Other(_) => why == Finalized
    {
      hide *;
      calls, asked, at, path := n, [], Settle(p), [];
      DriveBegin(t, phaseHandler, p, answer, n);
      CourseBegin(t, answer, n, phaseHandler);
      while t[phaseHandler].checker != Null
        invariant Driving(t, old(phaseHandler), phaseHandler, p, at, answer, n, calls, asked, path)
        invariant phaseHandler < |t| && t[phaseHandler].checker != Null
        invariant calls == n + |path| && Course(t, answer, n, old(phaseHandler), path + [phaseHandler])
        decreases |t| - phaseHandler
      {
        DriveTurn(t, old(phaseHandler), phaseHandler, p, at, answer, n, calls, asked, path);
        if t[phaseHandler].checker == Content {
          why := Served;
          return;
        }
        ghost var before, k := path, phaseHandler;
        path := path + [phaseHandler];
        asked := asked + [t[phaseHandler].handler];
        var rc := answer(calls);
        calls := calls + 1;
        match rc {
          case Ok =>
            phaseHandler := t[phaseHandler].next;
            CourseMore(t, answer, n, old(phaseHandler), before, k, phaseHandler);
            at := Settle(Place([], at.later));
          case Declined =>
            phaseHandler := phaseHandler + 1;
            CourseMore(t, answer, n, old(phaseHandler), before, k, phaseHandler);
            at := Settle(Place(at.now[1..], at.later));
          case Again =>
            why := Suspended;
            return;
          case Done =>
            why := Suspended;
            return;
          case Other(_) =>
            why := Finalized;
            return;
        }
        DriveTurn(t, old(phaseHandler), phaseHandler, p, at, answer, n, calls, asked, path);
      }
    }
  }
}
