/** Two whole runs with a single kill, inside a discard: the run-level theorems do
 need their premise, and runs that hand over do exist. Every step is one that the
 gateway and the wrapper take: a key is generated, its address is funded, the
 answer is saved. */
module StrandedRun {
  import opened Types
  import opened WrapperSteps
  import opened Protocol
  import opened ProtocolSafety
  import opened Runs
  import opened Refinement
  import opened SoloRun
  import opened Residues
  import opened Fund

  // ---- The first pull ----

  const SEALED: Dir := Dir(Whole(Key(1, 7)), Whole(7), Missing)

  const START: State :=
    State(0, Gateway(map[], map[], map[], map[], [], {}), map[0 := Local(Idle, EMPTY)], map[], {})

  /** From an empty directory to the first request. */
  const TO_ASKING: seq<Local> :=
    [ Local(Idle, EMPTY), Local(Opened, EMPTY), Local(Keying, EMPTY), Local(Generating, EMPTY),
      Local(Typing(7), Dir(Missing, Garbled, Missing)), Local(Minting(7), Dir(Missing, Whole(7), Missing)),
      Local(Keyed(1), SEALED), Local(Asking(1), SEALED) ]

  lemma FollowsToAsking()
    ensures CanFollow(START, 0, TO_ASKING, 1, 5)
  {
  }

  lemma AsksFirst(cfg: Config) returns (es: seq<Event>)
    ensures KillFree(es) && AllEnabled(cfg, START, es)
    ensures var s := After(cfg, START, es);
      && s.clock == 0 && s.home.Keys <= {1} && s.gateway == START.gateway
      && s.sessions == map[0 := Local(Asking(1), SEALED)]
  {
    es := AsWrapper(0, TO_ASKING);
    FollowsToAsking();
    WrapperRuns(cfg, START, 0, TO_ASKING, 1, 5);
  }

  lemma AnswerIsHanded(cfg: Config, s: State, g: Grant)
    requires s.sessions == map[0 := Local(Asking(1), SEALED)] && AnsweredTo(s.gateway.answered, 1, g)
    ensures AllEnabled(cfg, s, AsWrapper(0, ToRunning(SEALED, 1, g)))
    ensures var s' := After(cfg, s, AsWrapper(0, ToRunning(SEALED, 1, g)));
      && s'.clock == s.clock && s'.gateway == s.gateway && s'.home.Keys <= s.home.Keys + {1}
      && s'.sessions == map[0 := Local(Running, SEALED.(capability := Whole(g)))]
      && s.handed + {Handover(Whole(Key(1, 7)), Whole(g))} <= s'.handed
  {
    var ls := ToRunning(SEALED, 1, g);
    RunningFollows(s, 0, SEALED, 1, g);
    WrapperRuns(cfg, s, 0, ls, 1, -1);
    WrapperHands(cfg, s, 0, ls, 1, -1, 3);
  }

  /** Address 1 is funded while session 0 asks, and what a GET answers is handed over. */
  lemma IsFunded(cfg: Config, s: State, signature: nat) returns (es: seq<Event>)
    requires s.sessions == map[0 := Local(Asking(1), SEALED)] && !Holds(s.gateway.table, 1, s.clock)
    ensures KillFree(es) && AllEnabled(cfg, s, es)
    ensures var g, s' := Issue(cfg, 1, s.clock, signature), After(cfg, s, es);
      && s'.clock == s.clock && s'.home.Keys <= s.home.Keys + {1}
      && s'.sessions == map[0 := Local(Running, SEALED.(capability := Whole(g)))]
      && s'.gateway.table == s.gateway.table[1 := GrantRecord(cfg.cap, g.expiry, s.clock, g)]
      && (s.clock < g.expiry ==> AnsweredByGet(s'.gateway.answered, 1, g))
      && s.handed + {Handover(Whole(Key(1, 7)), Whole(g))} <= s'.handed
  {
    var g := Issue(cfg, 1, s.clock, signature);
    var funding := Funds(cfg, s, 1, signature);
    var running := AsWrapper(0, ToRunning(SEALED, 1, g));
    AnswerIsHanded(cfg, After(cfg, s, funding), g);
    AfterJoined(cfg, s, funding, running);
    es := funding + running;
  }

  /** Key 1 is generated, funded and handed over with its capability. */
  lemma FirstHandOver(cfg: Config) returns (es: seq<Event>)
    ensures KillFree(es) && AllEnabled(cfg, START, es)
    ensures var g, s := Issue(cfg, 1, 0, 0), After(cfg, START, es);
      && s.clock == 0 && s.home.Keys <= {1}
      && s.sessions == map[0 := Local(Running, SEALED.(capability := Whole(g)))]
      && s.gateway.table == map[1 := GrantRecord(cfg.cap, g.expiry, 0, g)]
      && (0 < cfg.ttl ==> AnsweredByGet(s.gateway.answered, 1, g))
      && Handover(Whole(Key(1, 7)), Whole(g)) in s.handed
  {
    var asks := AsksFirst(cfg);
    var rest := IsFunded(cfg, After(cfg, START, asks), 0);
    AfterJoined(cfg, START, asks, rest);
    es := asks + rest;
  }

  // ---- Runs with one kill ----

  /** The run's only kill cuts a discard short. */
  ghost predicate OneCut(states: seq<State>, events: seq<Event>) {
    && |states| == |events| + 1
    && exists cut :: 0 <= cut < |events| && CutsDiscard(states[cut], events[cut])
         && KillFree(events[..cut]) && KillFree(events[cut + 1..])
  }

  /** A whole run around a kill of session 0. */
  lemma WithKill(cfg: Config, before: seq<Event>, after: seq<Event>) returns (states: seq<State>, events: seq<Event>)
    requires KillFree(before) && KillFree(after) && AllEnabled(cfg, START, before)
    requires var s := After(cfg, START, before);
      && 0 in s.sessions && (s.sessions[0].proc.Rotating? || s.sessions[0].proc.Finishing?)
      && AllEnabled(cfg, Apply(cfg, s, Killed(0)), after)
    ensures IsRun(cfg, states, events) && OneCut(states, events) && !DiscardsComplete(states, events)
    ensures states[|events|] == After(cfg, Apply(cfg, After(cfg, START, before), Killed(0)), after)
  {
    var ss := EventsExtendRun(cfg, [START], [], before);
    assert [] + before == before;
    var s, cut := ss[|before|], |before|;
    OneMoreEvent(cfg, ss, before, Killed(0), Apply(cfg, s, Killed(0)));
    states := EventsExtendRun(cfg, ss + [Apply(cfg, s, Killed(0))], before + [Killed(0)], after);
    events := before + [Killed(0)] + after;
    assert states[cut] == s && CutsDiscard(states[cut], events[cut]);
    assert events[..cut] == before && events[cut + 1..] == after;
  }

  // ---- A capability without its key ----

  function ToCutDiscard(g: Grant): seq<Local> {
    var complete := SEALED.(capability := Whole(g));
    [ Local(Running, complete), Local(Finishing, complete), Local(Finishing, complete.(keystore := Missing)) ]
  }

  /** Up to the kill: the keystore is gone. */
  lemma DiscardStarts(cfg: Config) returns (es: seq<Event>)
    ensures KillFree(es) && AllEnabled(cfg, START, es)
    ensures var g, s := Issue(cfg, 1, 0, 0), After(cfg, START, es);
      && s.clock == 0 && s.home.Keys <= {1}
      && s.sessions == map[0 := Local(Finishing, Dir(Missing, Whole(7), Whole(g)))]
      && (0 < cfg.ttl ==> AnsweredByGet(s.gateway.answered, 1, g))
      && Handover(Whole(Key(1, 7)), Whole(g)) in s.handed
  {
    var g := Issue(cfg, 1, 0, 0);
    var first := FirstHandOver(cfg);
    var s := After(cfg, START, first);
    assert CanFollow(s, 0, ToCutDiscard(g), 1, -1);
    WrapperRuns(cfg, s, 0, ToCutDiscard(g), 1, -1);
    AfterJoined(cfg, START, first, AsWrapper(0, ToCutDiscard(g)));
    es := first + AsWrapper(0, ToCutDiscard(g));
  }

  /** The next pull finds the capability and generates another key for it. */
  lemma NewKeyIsHanded(cfg: Config, s: State, g: Grant) returns (es: seq<Event>)
    requires s.sessions == map[0 := Local(Idle, Dir(Missing, Whole(7), Whole(g)))]
    requires s.clock == 0 && s.home.Keys <= {1} && g.expiry > EXPIRY_MARGIN_SECS
    ensures KillFree(es) && AllEnabled(cfg, s, es)
    ensures s.handed + {Handover(Whole(Key(2, 0)), Whole(g))} <= After(cfg, s, es).handed
    ensures After(cfg, s, es).gateway == s.gateway
  {
    var found := Dir(Missing, Whole(7), Whole(g));
    NewKeyFollows(s, 0, found, 2);
    WrapperRuns(cfg, s, 0, WithNewKey(found, 2), 2, 5);
    WrapperHands(cfg, s, 0, WithNewKey(found, 2), 2, 5, 7);
    es := AsWrapper(0, WithNewKey(found, 2));
  }

  /** With the default lifetime, or any above the margin: the discard after the
      first pull is killed once the keystore is gone, and key 2 is handed over with
      the capability of key 1. */
  lemma DiscardCutShortMismatches(cfg: Config) returns (states: seq<State>, events: seq<Event>)
    requires cfg.ttl > EXPIRY_MARGIN_SECS
    ensures IsRun(cfg, states, events) && OneCut(states, events) && !DiscardsComplete(states, events)
    ensures exists p <- states[|events|].handed, q <- states[|events|].handed ::
      && p.key.Whole? && p.key.value.address == 1 && p.capability.Whole? && p.capability.value.signer == 1
      && q.key.Whole? && q.key.value.address == 2 && q.capability == p.capability
      && AnsweredByGet(states[|events|].gateway.answered, 1, p.capability.value)
  {
    var g := Issue(cfg, 1, 0, 0);
    var before := DiscardStarts(cfg);
    var after := NewKeyIsHanded(cfg, Apply(cfg, After(cfg, START, before), Killed(0)), g);
    states, events := WithKill(cfg, before, after);
    var p, q := Handover(Whole(Key(1, 7)), Whole(g)), Handover(Whole(Key(2, 0)), Whole(g));
    assert p in states[|events|].handed && q in states[|events|].handed;
  }

  // ---- A key without its capability ----

  /** The pull fails. */
  function ToFailure(g: Grant): seq<Local> {
    [Local(Running, SEALED.(capability := Whole(g))), Local(Idle, SEALED.(capability := Whole(g)))]
  }

  /** The next one starts a rotation, which removes the capability first. */
  function ToCutRotation(g: Grant): seq<Local> {
    var complete := SEALED.(capability := Whole(g));
    [Local(Idle, complete), Local(Opened, complete), Local(Rotating, complete), Local(Rotating, SEALED)]
  }

  /** The first pull fails, and time passes to the token's expiry. */
  lemma FirstPullFails(cfg: Config) returns (es: seq<Event>)
    ensures KillFree(es) && AllEnabled(cfg, START, es)
    ensures var g, s := Issue(cfg, 1, 0, 0), After(cfg, START, es);
      && s.clock == g.expiry && s.home.Keys <= {1}
      && s.sessions == map[0 := Local(Idle, SEALED.(capability := Whole(g)))]
      && s.gateway.table == map[1 := GrantRecord(cfg.cap, g.expiry, 0, g)]
      && (0 < cfg.ttl ==> AnsweredByGet(s.gateway.answered, 1, g))
      && Handover(Whole(Key(1, 7)), Whole(g)) in s.handed
  {
    var g := Issue(cfg, 1, 0, 0);
    var first := FirstHandOver(cfg);
    var s := After(cfg, START, first);
    assert CanFollow(s, 0, ToFailure(g), 1, -1);
    WrapperRuns(cfg, s, 0, ToFailure(g), 1, -1);
    AfterJoined(cfg, START, first, AsWrapper(0, ToFailure(g)));
    es := first + AsWrapper(0, ToFailure(g));
    var s1 := After(cfg, START, es);
    assert After(cfg, s1, [Clock(g.expiry)]) == After(cfg, Apply(cfg, s1, Clock(g.expiry)), []);
    AfterJoined(cfg, START, es, [Clock(g.expiry)]);
    es := es + [Clock(g.expiry)];
  }

  /** Up to the kill: the rotation has removed the capability. */
  lemma RotationStarts(cfg: Config) returns (es: seq<Event>)
    ensures KillFree(es) && AllEnabled(cfg, START, es)
    ensures var g, s := Issue(cfg, 1, 0, 0), After(cfg, START, es);
      && s.clock == g.expiry && s.home.Keys <= {1}
      && s.sessions == map[0 := Local(Rotating, SEALED)]
      && s.gateway.table == map[1 := GrantRecord(cfg.cap, g.expiry, 0, g)]
      && (0 < cfg.ttl ==> AnsweredByGet(s.gateway.answered, 1, g))
      && Handover(Whole(Key(1, 7)), Whole(g)) in s.handed
  {
    var g := Issue(cfg, 1, 0, 0);
    es := FirstPullFails(cfg);
    var s := After(cfg, START, es);
    assert CanFollow(s, 0, ToCutRotation(g), 1, -1);
    WrapperRuns(cfg, s, 0, ToCutRotation(g), 1, -1);
    AfterJoined(cfg, START, es, AsWrapper(0, ToCutRotation(g)));
    es := es + AsWrapper(0, ToCutRotation(g));
  }

  /** A rotation killed once the capability is gone lets the old key go on: the
      gateway re-issues for it, and it is handed over with a second capability. */
  lemma RotationCutShortRepeatsKey(cfg: Config) returns (states: seq<State>, events: seq<Event>)
    requires 0 < cfg.ttl < U64_MAX
    ensures IsRun(cfg, states, events) && OneCut(states, events) && !DiscardsComplete(states, events)
    ensures exists p <- states[|events|].handed, q <- states[|events|].handed ::
      && p.key.Whole? && p.key.value.address == 1 && p.key == q.key
      && p.capability.Whole? && q.capability.Whole?
      && p.capability.value.signer == q.capability.value.signer == 1
      && p.capability.value.expiry < q.capability.value.expiry
      && AnsweredByGet(states[|events|].gateway.answered, 1, p.capability.value)
      && AnsweredByGet(states[|events|].gateway.answered, 1, q.capability.value)
  {
    var g := Issue(cfg, 1, 0, 0);
    var before := RotationStarts(cfg);
    var s := Apply(cfg, After(cfg, START, before), Killed(0));
    var again := AsksAndRuns(cfg, s, 0, SEALED, 1, 1);
    states, events := WithKill(cfg, before, again);
    var p := Handover(Whole(Key(1, 7)), Whole(g));
    var q := Handover(Whole(Key(1, 7)), Whole(Issue(cfg, 1, g.expiry, 1)));
    assert p in states[|events|].handed && q in states[|events|].handed;
  }
}
