/** What holds in every run of the sessions of an upstream. */
module SessionRuns {
  import opened Peers
  import opened RoundRobin
  import opened Sessions

  /** An upstream as configured: nothing picked, nothing failed, no session open. */
  ghost predicate Initial(w: World) {
    && 0 < |w.groups| <= 2 && 0 <= w.now && w.sessions == map[]
    && (w.single ==> |w.groups| == 1 && |w.groups[0]| == 1)
    && w.tries == UpCounts(w.groups)
    && forall g, i :: 0 <= g < |w.groups| && 0 <= i < |w.groups[g]| ==>
         var p := w.groups[g][i];
         && 0 < p.weight && p.current == 0 && p.effective == p.weight
         && p.conns == 0 && p.fails == 0 && p.accessed == 0 && p.checked == 0 && 0 <= p.failTimeout
  }

  ghost predicate IsRun(ws: seq<World>, ids: seq<Id>, acts: seq<Action>) {
    && |ws| == |acts| + 1 && |ids| == |acts| && Initial(ws[0])
    && forall t :: 0 <= t < |acts| ==> Step(ws[t], ids[t], acts[t], ws[t + 1])
  }

  lemma InitialInv(w: World)
    requires Initial(w)
    ensures Inv(w)
  {
    forall g | 0 <= g < |w.groups| ensures CurrentSum(w.groups[g], |w.groups[g]|) == 0 {
      SumZero(w.groups[g], |w.groups[g]|);
    }
    forall g: nat, i: nat ensures |Holders(w.sessions, g, i)| == 0 {
      assert Holders(w.sessions, g, i) == {};
    }
  }

  lemma {:induction false} Always(ws: seq<World>, ids: seq<Id>, acts: seq<Action>, t: nat)
    requires IsRun(ws, ids, acts) && t <= |acts|
    ensures Inv(ws[t])
  {
    hide Initial, Step, Inv;
    if t == 0 {
      InitialInv(ws[0]);
    } else {
      Always(ws, ids, acts, t - 1);
      StepKeeps(ws[t - 1], ids[t - 1], acts[t - 1], ws[t]);
    }
  }

  /** A peer's connection count is the number of sessions holding it, and never above its limit. */
  lemma ConnectionAccounting(ws: seq<World>, ids: seq<Id>, acts: seq<Action>, t: nat, g: nat, i: nat)
    requires IsRun(ws, ids, acts) && t <= |acts| && g < |ws[t].groups| && i < |ws[t].groups[g]|
    ensures var p := ws[t].groups[g][i];
      && p.conns == |Holders(ws[t].sessions, g, i)|
      && (p.maxConns > 0 ==> p.conns <= p.maxConns)
  {
    hide Initial, Step;
    Always(ws, ids, acts, t);
    assert PeerOk(ws[t].groups[g][i], ws[t].now);
  }

  /** Once all sessions are gone no connection is counted anywhere. */
  lemma NothingLeaks(ws: seq<World>, ids: seq<Id>, acts: seq<Action>, t: nat, g: nat, i: nat)
    requires IsRun(ws, ids, acts) && t <= |acts| && g < |ws[t].groups| && i < |ws[t].groups[g]|
    requires ws[t].sessions == map[]
    ensures ws[t].groups[g][i].conns == 0
  {
    ConnectionAccounting(ws, ids, acts, t, g, i);
    assert Holders(ws[t].sessions, g, i) == {};
  }

  /** The current weights of a group always cancel out, and effective weights stay in range. */
  lemma WeightsStayBalanced(ws: seq<World>, ids: seq<Id>, acts: seq<Action>, t: nat, g: nat)
    requires IsRun(ws, ids, acts) && t <= |acts| && g < |ws[t].groups|
    ensures var ps := ws[t].groups[g];
      && CurrentSum(ps, |ps|) == 0
      && forall i :: 0 <= i < |ps| ==> 0 <= ps[i].effective <= ps[i].weight
  {
    hide Initial, Step;
    Always(ws, ids, acts, t);
    assert forall i :: 0 <= i < |ws[t].groups[g]| ==> PeerOk(ws[t].groups[g][i], ws[t].now);
  }

  /** A session is never given the same peer twice, nor more peers than it had tries. */
  lemma NoPeerTwice(ws: seq<World>, ids: seq<Id>, acts: seq<Action>, t: nat, id: Id)
    requires IsRun(ws, ids, acts) && t <= |acts| && id in ws[t].sessions
    ensures var s := ws[t].sessions[id];
      && Distinct(s.obtained) && |s.obtained| <= s.budget
      && (forall g :: 0 <= g < |ws[t].groups| ==> InBitset(s.tried, |ws[t].groups[g]|))
  {
    hide Initial, Step, GroupsOk, Counted;
    Always(ws, ids, acts, t);
    assert SessionOk(ws[t], ws[t].sessions[id]);
  }

  // ----- disabled peers -----

  /** The step gives peer `b` of group `g` to its session. */
  ghost predicate PicksPeer(w: World, id: Id, a: Action, g: nat, b: nat) {
    && a.Connect? && a.got.Got? && id in w.sessions
    && g == w.sessions[id].group + a.got.depth && b == a.got.peer
  }

  lemma TakenChecked(w: World, id: Id, a: Action, w': World, g: nat, i: nat)
    requires Inv(w) && Step(w, id, a, w') && a.Connect? && a.got.Got?
    requires g < |w.groups| && i < |w.groups[g]|
    ensures |w'.groups| == |w.groups| && |w'.groups[g]| == |w.groups[g]|
    ensures w.groups[g][i].checked <= w'.groups[g][i].checked
    ensures w.groups[g][i].failTimeout == w'.groups[g][i].failTimeout
  {
    hide Step, SessionOk, Counted, CurrentSum;
    GrantFacts(w, id, a, w');
    var s := w.sessions[id];
    var h := s.group + a.got.depth;
    if h == g {
      assert PeersOk(w.groups[g], w.now);
      if w.single {
        SinglePickKeeps(w.groups[g], w.now, w'.groups[g]);
      } else {
        var marks := if g == s.group then s.tried else Cleared(s.tried, |w.groups[g]|);
        PickKeeps(w.groups[g], marks, a.got.peer, w.now, w'.groups[g]);
      }
    }
  }

  lemma StepChecked(w: World, id: Id, a: Action, w': World, g: nat, i: nat)
    requires Inv(w) && Step(w, id, a, w') && g < |w.groups| && i < |w.groups[g]|
    ensures w.now <= w'.now && |w'.groups| == |w.groups| && |w'.groups[g]| == |w.groups[g]|
    ensures w.groups[g][i].checked <= w'.groups[g][i].checked
    ensures w.groups[g][i].failTimeout == w'.groups[g][i].failTimeout
  {
    if a.Connect? && a.got.Got? {
      TakenChecked(w, id, a, w', g, i);
    } else if a.Retry? || (a.Close? && w.sessions[id].held) {
      var s := w.sessions[id];
      var p := w.groups[s.group][s.current];
      assert PeerOk(p, w.now);
      ReleasedOk(p, w.single, a.Retry? || a.failed, w.now);
    }
  }

  lemma {:induction false} CheckedGrows(ws: seq<World>, ids: seq<Id>, acts: seq<Action>, t: nat, u: nat, g: nat, i: nat)
    requires IsRun(ws, ids, acts) && t <= u <= |acts| && g < |ws[t].groups| && i < |ws[t].groups[g]|
    ensures ws[t].now <= ws[u].now && |ws[u].groups| == |ws[t].groups| && |ws[u].groups[g]| == |ws[t].groups[g]|
    ensures ws[t].groups[g][i].checked <= ws[u].groups[g][i].checked
    ensures ws[t].groups[g][i].failTimeout == ws[u].groups[g][i].failTimeout
  {
    hide Initial, Step, Inv;
    if t < u {
      CheckedGrows(ws, ids, acts, t, u - 1, g, i);
      Always(ws, ids, acts, u - 1);
      StepChecked(ws[u - 1], ids[u - 1], acts[u - 1], ws[u], g, i);
    }
  }

  /** A disabled peer of a group of several is only picked when its last check is old enough. */
  lemma DisabledPick(w: World, id: Id, a: Action, w': World, g: nat, b: nat)
    requires Inv(w) && Step(w, id, a, w') && PicksPeer(w, id, a, g, b) && !w.single
    ensures g < |w.groups| == |w'.groups| && b < |w.groups[g]| == |w'.groups[g]|
    ensures Disabled(w.groups[g][b]) ==>
      && w.now - w.groups[g][b].checked > w.groups[g][b].failTimeout
      && w'.groups[g][b].checked == w.now
  {
    hide Step, SessionOk, Counted, CurrentSum, GroupsOk;
    GrantFacts(w, id, a, w');
    var s := w.sessions[id];
    var marks := if g == s.group then s.tried else Cleared(s.tried, |w.groups[g]|);
    assert Pick(w.groups[g], marks, b, w.now, w'.groups[g]);
    assert PeerAfterPick(w.groups[g][b], w'.groups[g][b], true, w.now);
  }

  /** Two picks that find a peer disabled are more than its fail_timeout apart. */
  lemma DisabledSpacing(ws: seq<World>, ids: seq<Id>, acts: seq<Action>, t: nat, u: nat, g: nat, b: nat)
    requires IsRun(ws, ids, acts) && t < u < |acts| && !ws[t].single && !ws[u].single
    requires PicksPeer(ws[t], ids[t], acts[t], g, b) && PicksPeer(ws[u], ids[u], acts[u], g, b)
    requires g < |ws[t].groups| && b < |ws[t].groups[g]| && Disabled(ws[t].groups[g][b])
    requires g < |ws[u].groups| && b < |ws[u].groups[g]| && Disabled(ws[u].groups[g][b])
    ensures ws[u].now - ws[t].now > ws[u].groups[g][b].failTimeout
  {
    hide Initial, Step, Inv, PicksPeer, Disabled;
    Always(ws, ids, acts, t);
    Always(ws, ids, acts, u);
    DisabledPick(ws[t], ids[t], acts[t], ws[t + 1], g, b);
    DisabledPick(ws[u], ids[u], acts[u], ws[u + 1], g, b);
    CheckedGrows(ws, ids, acts, t + 1, u, g, b);
  }
}
