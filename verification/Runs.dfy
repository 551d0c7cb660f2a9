/** Event sequences that continue a run of the protocol. */
module Runs {
  import opened Types
  import opened Protocol
  import opened Fund

  ghost predicate AllEnabled(cfg: Config, s: State, es: seq<Event>)
    decreases |es|
  {
    es == [] || (Enabled(s, es[0]) && AllEnabled(cfg, Apply(cfg, s, es[0]), es[1..]))
  }

  ghost function After(cfg: Config, s: State, es: seq<Event>): State
    requires AllEnabled(cfg, s, es)
    decreases |es|
  {
    if es == [] then s else After(cfg, Apply(cfg, s, es[0]), es[1..])
  }

  predicate KillFree(es: seq<Event>) {
    forall e <- es :: !e.Killed?
  }

  lemma OneMoreEvent(cfg: Config, states: seq<State>, events: seq<Event>, e: Event, s': State)
    requires IsRun(cfg, states, events) && Enabled(states[|events|], e)
    requires s' == Apply(cfg, states[|events|], e)
    ensures IsRun(cfg, states + [s'], events + [e])
  {
    var ss, es := states + [s'], events + [e];
    assert forall i :: 0 <= i < |events| ==> ss[i] == states[i] && es[i] == events[i];
  }

  lemma {:induction false} EventsExtendRun(cfg: Config, states: seq<State>, events: seq<Event>, es: seq<Event>)
    returns (states': seq<State>)
    requires IsRun(cfg, states, events) && AllEnabled(cfg, states[|events|], es)
    ensures IsRun(cfg, states', events + es) && states <= states'
    ensures states'[|events + es|] == After(cfg, states[|events|], es)
    decreases |es|
  {
    if es == [] {
      assert events + es == events;
      states' := states;
    } else {
      var s' := Apply(cfg, states[|events|], es[0]);
      OneMoreEvent(cfg, states, events, es[0], s');
      states' := EventsExtendRun(cfg, states + [s'], events + [es[0]], es[1..]);
      assert events + [es[0]] + es[1..] == events + es;
    }
  }

  /** A run continued without a kill is gentle if it was. */
  lemma KillFreeIsGentle(
    cfg: Config, states: seq<State>, events: seq<Event>, states': seq<State>, es: seq<Event>, rising: bool)
    requires IsRun(cfg, states, events) && IsRun(cfg, states', events + es) && states <= states'
    requires Gentle(states, events, rising) && KillFree(es) && (rising ==> ClockRises(states', events + es))
    ensures Gentle(states', events + es, rising)
  {
    forall i | 0 <= i < |events + es| ensures GentleEvent(states'[i], (events + es)[i], rising) {
      if i < |events| {
        assert GentleEvent(states[i], events[i], rising) && states'[i] == states[i];
      } else {
        assert es[i - |events|] in es;
      }
    }
  }

  lemma {:induction false} AfterJoined(cfg: Config, s: State, es: seq<Event>, more: seq<Event>)
    requires AllEnabled(cfg, s, es) && AllEnabled(cfg, After(cfg, s, es), more)
    ensures AllEnabled(cfg, s, es + more)
    ensures After(cfg, s, es + more) == After(cfg, After(cfg, s, es), more)
    decreases |es|
  {
    if es == [] {
      assert es + more == more;
    } else {
      AfterJoined(cfg, Apply(cfg, s, es[0]), es[1..], more);
      assert (es + more)[1..] == es[1..] + more;
    }
  }

  /** Some number is not used yet. */
  lemma {:induction false} Fresh(used: set<nat>) returns (i: nat)
    ensures i !in used && forall k <- used :: k < i
  {
    if used == {} {
      i := 0;
    } else {
      var k :| k in used;
      var j := Fresh(used - {k});
      i := if k < j then j else k + 1;
      assert forall m <- used :: m == k || m in used - {k};
    }
  }

  // ---- Events at the gateway ----

  /** Neither kills nor settings of the clock. */
  predicate Calm(es: seq<Event>) {
    forall e <- es :: !e.Killed? && !e.Clock?
  }

  function AsServe(gs: seq<GatewayEvent>): (es: seq<Event>)
    ensures KillFree(es) && Calm(es)
  {
    if gs == [] then [] else [Serve(gs[0])] + AsServe(gs[1..])
  }

  lemma {:induction false} ServeRuns(cfg: Config, s: State, gs: seq<GatewayEvent>)
    requires CanServeAll(cfg, s.clock, s.gateway, gs)
    ensures AllEnabled(cfg, s, AsServe(gs))
    ensures After(cfg, s, AsServe(gs)) == s.(gateway := ServeAll(cfg, s.clock, s.gateway, gs))
    decreases |gs|
  {
    if gs == [] {
    } else {
      ServeRuns(cfg, Apply(cfg, s, Serve(gs[0])), gs[1..]);
      assert AsServe(gs)[1..] == AsServe(gs[1..]);
    }
  }
}
