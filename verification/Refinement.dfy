/** The imperative pull runs inside the protocol: its trail is a run of the
 transition system, whatever else happens between its steps, and what it hands
 over is a hand-over of that run. So the protocol's safety theorems speak about
 every point at which it can be killed and about its outcome. */
module Refinement {
  import opened Types
  import opened WrapperSteps
  import opened Sessions
  import opened Flow
  import opened Protocol
  import opened ProtocolSafety
  import opened Runs

  ghost predicate Path(now: U64, ls: seq<Local>) {
    forall i :: 0 <= i < |ls| - 1 ==> LocalStep(now, ls[i], ls[i + 1])
  }

  /** What the rest of the world must grant one step: the clock is what the pull
      read, a key drawn is new, and a saved token was answered by the gateway. */
  ghost predicate Granted(s: State, now: U64, l: Local, l': Local) {
    && (l.proc.Opened? ==> s.clock == now)
    && match ActOf(l, l')
       case Some(Generated(a)) => a !in s.home
       case Some(Obtained(c, t)) => t.Dcap? && AnsweredTo(s.gateway.answered, c, t.grant)
       case _ => true
  }

  /** What a step adds to the hand-overs. */
  function HandedBy(l: Local): set<Handover> {
    if l.proc.Ready? then {Handover(l.dir.keystore, l.dir.capability)} else {}
  }

  /** One step of a pull is a step of the protocol, at any time after it became
      due: only the expiry check depends on the clock. */
  lemma PullRefinesProtocol(cfg: Config, s: State, h: nat, now: U64, l: Local, l': Local)
    requires h in s.sessions && s.sessions[h] == l
    requires LocalStep(now, l, l') && Granted(s, now, l, l')
    ensures Enabled(s, Wrapper(h, l'))
    ensures var s' := Apply(cfg, s, Wrapper(h, l'));
      && s'.clock == s.clock && s'.gateway == s.gateway && s'.sessions == s.sessions[h := l']
      && s'.handed == s.handed + HandedBy(l)
      && s'.home == (match ActOf(l, l') case Some(Generated(a)) => s.home[a := h] case _ => s.home)
  {
  }

  // ---- A whole pull among other events ----

  predicate ByOthers(h: nat, es: seq<Event>) {
    forall e <- es :: e.Wrapper? || e.Killed? ==> e.h != h
  }

  lemma {:induction false} OthersLeaveSession(cfg: Config, s: State, h: nat, es: seq<Event>)
    requires AllEnabled(cfg, s, es) && ByOthers(h, es) && h in s.sessions
    ensures var s' := After(cfg, s, es);
      h in s'.sessions && s'.sessions[h] == s.sessions[h] && s.handed <= s'.handed
    decreases |es|
  {
    if es == [] {
    } else {
      assert es[0] in es;
      OthersLeaveSession(cfg, Apply(cfg, s, es[0]), h, es[1..]);
    }
  }

  /** The pull's steps along `ls`, with `gaps[i]` happening before its i-th step. */
  function Woven(h: nat, ls: seq<Local>, gaps: seq<seq<Event>>): seq<Event>
    requires |ls| == |gaps| + 1
    decreases |ls|
  {
    if gaps == [] then [] else gaps[0] + [Wrapper(h, ls[1])] + Woven(h, ls[1..], gaps[1..])
  }

  /** The others can make their steps in the gaps, and the pull's steps are granted. */
  ghost predicate Permits(cfg: Config, s: State, h: nat, now: U64, ls: seq<Local>, gaps: seq<seq<Event>>)
    requires |ls| == |gaps| + 1
    decreases |ls|
  {
    gaps == [] || (
      && ByOthers(h, gaps[0]) && AllEnabled(cfg, s, gaps[0])
      && var s1 := After(cfg, s, gaps[0]);
      && h in s1.sessions
      && Granted(s1, now, ls[0], ls[1])
      && Permits(cfg, WrapperStep(s1, h, ls[1]), h, now, ls[1..], gaps[1..]))
  }

  /** One step of a pull, after whatever the others did before it. */
  lemma PullStepExtendsRun(
    cfg: Config, states: seq<State>, events: seq<Event>, h: nat, now: U64, l: Local, l': Local, gap: seq<Event>)
    returns (states': seq<State>)
    requires IsRun(cfg, states, events)
    requires h in states[|events|].sessions && states[|events|].sessions[h] == l
    requires ByOthers(h, gap) && AllEnabled(cfg, states[|events|], gap)
    requires LocalStep(now, l, l') && Granted(After(cfg, states[|events|], gap), now, l, l')
    ensures var s, s1 := states[|events|], After(cfg, states[|events|], gap);
      && h in s1.sessions
      && IsRun(cfg, states', events + gap + [Wrapper(h, l')]) && states <= states'
      && states'[|events + gap| + 1] == WrapperStep(s1, h, l')
      && states'[|events + gap| + 1].sessions == s1.sessions[h := l']
      && s.handed + HandedBy(l) <= states'[|events + gap| + 1].handed
  {
    OthersLeaveSession(cfg, states[|events|], h, gap);
    var ss := EventsExtendRun(cfg, states, events, gap);
    var s1 := After(cfg, states[|events|], gap);
    PullRefinesProtocol(cfg, s1, h, now, l, l');
    var s2 := Apply(cfg, s1, Wrapper(h, l'));
    OneMoreEvent(cfg, ss, events + gap, Wrapper(h, l'), s2);
    states' := ss + [s2];
  }

  /** A run of the protocol, continued by a pull with anything the others may do
      between its steps, is a run, and contains the pull's hand-overs. */
  lemma {:induction false} PullExtendsRun(
    cfg: Config, states: seq<State>, events: seq<Event>,
    h: nat, now: U64, ls: seq<Local>, gaps: seq<seq<Event>>)
    returns (states': seq<State>)
    requires IsRun(cfg, states, events) && |ls| == |gaps| + 1
    requires h in states[|events|].sessions && states[|events|].sessions[h] == ls[0]
    requires Path(now, ls) && Permits(cfg, states[|events|], h, now, ls, gaps)
    ensures var events' := events + Woven(h, ls, gaps);
      && IsRun(cfg, states', events') && states <= states'
      && var s' := states'[|events'|];
      && h in s'.sessions && s'.sessions[h] == ls[|ls| - 1]
      && states[|events|].handed <= s'.handed
      && forall i :: 0 <= i < |gaps| ==> HandedBy(ls[i]) <= s'.handed
    decreases |ls|
  {
    if gaps == [] {
      assert events + Woven(h, ls, gaps) == events;
      states' := states;
    } else {
      assert LocalStep(now, ls[0], ls[1]);
      var ss := PullStepExtendsRun(cfg, states, events, h, now, ls[0], ls[1], gaps[0]);
      var es := events + gaps[0] + [Wrapper(h, ls[1])];
      states' := PullExtendsRun(cfg, ss, es, h, now, ls[1..], gaps[1..]);
      assert es + Woven(h, ls[1..], gaps[1..]) == events + Woven(h, ls, gaps);
      var handed := states'[|events + Woven(h, ls, gaps)|].handed;
      forall i | 0 <= i < |gaps| ensures HandedBy(ls[i]) <= handed {
        assert i > 0 ==> ls[i] == ls[1..][i - 1];
      }
    }
  }

  lemma {:induction false} WovenKillFree(h: nat, ls: seq<Local>, gaps: seq<seq<Event>>)
    requires |ls| == |gaps| + 1 && forall gap <- gaps :: KillFree(gap)
    ensures KillFree(Woven(h, ls, gaps))
    decreases |ls|
  {
    if gaps == [] {
    } else {
      assert gaps[0] in gaps;
      WovenKillFree(h, ls[1..], gaps[1..]);
    }
  }

  // ---- The imperative pull ----

  function Locals(trail: seq<Moment>): (ls: seq<Local>)
    ensures |ls| == |trail| && forall i :: 0 <= i < |ls| ==> ls[i] == trail[i].at
  {
    seq(|trail|, i requires 0 <= i < |trail| => trail[i].at)
  }

  /** Whatever a pull has started was ready at some moment of its trail. */
  lemma {:induction false} StartedWasReady(now: U64, trail: seq<Moment>, n: nat, key: File<Key>, capability: File<Grant>)
    requires n < |trail| && Steps(now, trail) && trail[0].acts == []
    requires Started(key, capability) in trail[n].acts
    ensures exists i :: 0 <= i < n && HandedBy(trail[i].at) == {Handover(key, capability)}
  {
    if n == 0 {
    } else {
      assert Step(now, trail[n - 1], trail[n]);
      if Started(key, capability) in trail[n - 1].acts {
        StartedWasReady(now, trail, n - 1, key, capability);
      } else {
        assert HandedBy(trail[n - 1].at) == {Handover(key, capability)};
      }
    }
  }

  /** What a pull does tells its outcome. */
  lemma ActsTellOutcome(d: Dir, w: World)
    requires Polling.Paced(w.link)
    ensures var o, acts := Pulled(d, w), PullActs([], d, w);
      && (forall key, capability :: Started(key, capability) in acts <==>
            o.Handed? && o.key == key && o.capability == capability)
      && (forall a :: Generated(a) in acts ==>
            a == w.address && (o.Handed? ==> o.key == Whole(Key(a, w.secret))))
      && (forall c, t :: Obtained(c, t) in acts ==> Fetch(w).0 == Some(t))
  {
  }

  /** `Flow.Pull` on a session whose directory is that of session `h` (its contract
      gives the trail's first and last moment and its steps): the run goes on by
      its trail, and its outcome is a hand-over of that run, hence genuine, and in
      gentle runs the key's own and only capability. */
  lemma OutcomeIsHandedOver(
    cfg: Config, states: seq<State>, events: seq<Event>,
    h: nat, trail: seq<Moment>, gaps: seq<seq<Event>>, d: Dir, w: World, rising: bool)
    returns (states': seq<State>, events': seq<Event>)
    requires Polling.Paced(w.link) && IsRun(cfg, states, events) && |trail| == |gaps| + 1
    requires h in states[|events|].sessions && states[|events|].sessions[h] == Local(Idle, d)
    requires trail[0] == Moment(Local(Idle, d), []) && Steps(w.now, trail)
    requires trail[|gaps|].acts == PullActs([], d, w)
    requires Permits(cfg, states[|events|], h, w.now, Locals(trail), gaps)
    ensures IsRun(cfg, states', events') && states <= states'
    ensures events' == events + Woven(h, Locals(trail), gaps)
    ensures Gentle(states, events, rising) && (forall gap <- gaps :: KillFree(gap))
            && (rising ==> ClockRises(states', events'))
            ==> Gentle(states', events', rising)
    ensures var o, s' := Pulled(d, w), states'[|events'|];
      && h in s'.sessions && s'.sessions[h] == trail[|gaps|].at
      && (o.Handed? ==>
            && Handover(o.key, o.capability) in s'.handed
            && o.key.Whole? && o.capability.Whole?
            && SignedByGateway(s'.gateway.signed, o.capability.value)
            && (Gentle(states', events', rising) ==>
                  && o.capability.value.signer == o.key.value.address
                  && forall p <- s'.handed :: p.key.Whole? && p.key.value.address == o.key.value.address
                       ==> p.capability == o.capability))
  {
    var ls, n := Locals(trail), |gaps|;
    assert Path(w.now, ls) by {
      forall i | 0 <= i < |ls| - 1 ensures LocalStep(w.now, ls[i], ls[i + 1]) {
        assert Step(w.now, trail[i], trail[i + 1]);
      }
    }
    states' := PullExtendsRun(cfg, states, events, h, w.now, ls, gaps);
    events' := events + Woven(h, ls, gaps);
    if Gentle(states, events, rising) && (forall gap <- gaps :: KillFree(gap))
       && (rising ==> ClockRises(states', events')) {
      WovenKillFree(h, ls, gaps);
      KillFreeIsGentle(cfg, states, events, states', Woven(h, ls, gaps), rising);
    }
    var o, last := Pulled(d, w), |events'|;
    if o.Handed? {
      ActsTellOutcome(d, w);
      StartedWasReady(w.now, trail, n, o.key, o.capability);
      var p := Handover(o.key, o.capability);
      var i :| 0 <= i < n && HandedBy(trail[i].at) == {p};
      assert HandedBy(ls[i]) <= states'[last].handed;
      HandoversAreGenuine(cfg, states', events', last, p);
      if Gentle(states', events', rising) {
        forall q | q in states'[last].handed
          ensures o.capability.value.signer == o.key.value.address
          ensures q.key.Whole? && q.key.value.address == o.key.value.address ==> q.capability == o.capability
        {
          OneCapabilityPerKey(cfg, states', events', last, p, q, rising);
        }
      }
    }
  }
}
