/** A peer that keeps failing is left alone for a while, in every run of the sessions of an upstream. */
module FailureRuns {
  import opened Peers
  import opened RoundRobin
  import opened Sessions
  import opened SessionRuns

  ghost predicate HoldsPeer(w: World, id: Id, g: nat, b: nat) {
    id in w.sessions && w.sessions[id].held && w.sessions[id].group == g && w.sessions[id].current == b
  }

  /** The step gives peer `b` of group `g` back as failed. */
  ghost predicate Fails(w: World, id: Id, a: Action, g: nat, b: nat) {
    HoldsPeer(w, id, g, b) && (a.Retry? || (a.Close? && a.failed))
  }

  /** The step reports that the peer works: it was connected, or is given back without a failure. */
  ghost predicate Works(w: World, id: Id, a: Action, g: nat, b: nat) {
    HoldsPeer(w, id, g, b) && (a.Notify? || (a.Close? && !a.failed))
  }

  /** How often the peer failed in the steps from `t` up to `u`. */
  ghost function Failures(ws: seq<World>, ids: seq<Id>, acts: seq<Action>, t: nat, u: nat, g: nat, b: nat): nat
    requires t <= u <= |acts| == |ids| && |acts| < |ws|
    decreases u
  {
    if t == u then 0
    else Failures(ws, ids, acts, t, u - 1, g, b) + if Fails(ws[u - 1], ids[u - 1], acts[u - 1], g, b) then 1 else 0
  }

  lemma TakenFails(w: World, id: Id, a: Action, w': World, g: nat, b: nat)
    requires Inv(w) && Step(w, id, a, w') && a.Connect? && a.got.Got? && !w.single
    requires g < |w.groups| && b < |w.groups[g]|
    ensures |w'.groups| == |w.groups| && |w'.groups[g]| == |w.groups[g]|
    ensures w'.groups[g][b].fails == w.groups[g][b].fails && w'.groups[g][b].maxFails == w.groups[g][b].maxFails
  {
    hide Step, SessionOk, Counted, CurrentSum, GroupsOk;
    GrantFacts(w, id, a, w');
    var s := w.sessions[id];
    if s.group + a.got.depth == g {
      var marks := if g == s.group then s.tried else Cleared(s.tried, |w.groups[g]|);
      assert Pick(w.groups[g], marks, a.got.peer, w.now, w'.groups[g]);
      assert PeerAfterPick(w.groups[g][b], w'.groups[g][b], b == a.got.peer, w.now);
    }
  }

  /** Each failure counts, at the time it happens, and only a sign of life takes a count back. */
  lemma StepFails(w: World, id: Id, a: Action, w': World, g: nat, b: nat)
    requires Inv(w) && Step(w, id, a, w') && !w.single && g < |w.groups| && b < |w.groups[g]|
    ensures !w'.single && |w'.groups| == |w.groups| && |w'.groups[g]| == |w.groups[g]|
    ensures w'.groups[g][b].maxFails == w.groups[g][b].maxFails
    ensures Fails(w, id, a, g, b) ==>
      w'.groups[g][b].fails == w.groups[g][b].fails + 1 && w'.groups[g][b].checked == w.now == w'.now
    ensures !Fails(w, id, a, g, b) && !Works(w, id, a, g, b) ==> w'.groups[g][b].fails == w.groups[g][b].fails
  {
    if a.Connect? && a.got.Got? { TakenFails(w, id, a, w', g, b); }
  }

  lemma {:induction false} CountedFails(ws: seq<World>, ids: seq<Id>, acts: seq<Action>, t: nat, u: nat, g: nat, b: nat)
    requires IsRun(ws, ids, acts) && t <= u <= |acts| && !ws[t].single
    requires g < |ws[t].groups| && b < |ws[t].groups[g]|
    requires forall k :: t <= k < u ==> !Works(ws[k], ids[k], acts[k], g, b)
    ensures !ws[u].single && |ws[u].groups| == |ws[t].groups| && |ws[u].groups[g]| == |ws[t].groups[g]|
    ensures ws[u].groups[g][b].maxFails == ws[t].groups[g][b].maxFails
    ensures Failures(ws, ids, acts, t, u, g, b) <= ws[u].groups[g][b].fails
    decreases u
  {
    hide Initial, Step, Inv, Fails, Works;
    if t < u {
      CountedFails(ws, ids, acts, t, u - 1, g, b);
      Always(ws, ids, acts, u - 1);
      StepFails(ws[u - 1], ids[u - 1], acts[u - 1], ws[u], g, b);
    }
  }

  /**
   * Once a peer has failed as often as `max_fails` says with no sign of life between, no session of
   * an upstream of several peers is given it until more than `fail_timeout` after each failure.
   */
  lemma LeftAlone(ws: seq<World>, ids: seq<Id>, acts: seq<Action>, from: nat, t: nat, u: nat, g: nat, b: nat)
    requires IsRun(ws, ids, acts) && from <= t < u < |acts| && !ws[from].single
    requires g < |ws[from].groups| && b < |ws[from].groups[g]|
    requires forall k :: from <= k < u ==> !Works(ws[k], ids[k], acts[k], g, b)
    requires 0 < ws[from].groups[g][b].maxFails <= Failures(ws, ids, acts, from, u, g, b)
    requires Fails(ws[t], ids[t], acts[t], g, b) && PicksPeer(ws[u], ids[u], acts[u], g, b)
    ensures g < |ws[u].groups| && b < |ws[u].groups[g]|
    ensures ws[u].now - ws[t].now > ws[u].groups[g][b].failTimeout
  {
    CountedFails(ws, ids, acts, from, u, g, b);
    CountedFails(ws, ids, acts, from, t, g, b);
    Always(ws, ids, acts, t);
    Always(ws, ids, acts, u);
    StepFails(ws[t], ids[t], acts[t], ws[t + 1], g, b);
    CheckedGrows(ws, ids, acts, t + 1, u, g, b);
    hide Initial, Step, Inv, Fails, Works, PicksPeer, Failures;
    DisabledPick(ws[u], ids[u], acts[u], ws[u + 1], g, b);
  }
}
