/** Which removals may be cut short: exactly those that leave a harmless residue. A
 kill at any other point has a continuation, without any further kill, that hands
 over a key with a capability of another one, or with a second one. */
module Residues {
  import opened Types
  import opened WrapperSteps
  import opened Protocol
  import opened ProtocolSafety
  import opened Runs
  import opened Refinement
  import opened SoloRun
  import opened Fund

  /** The run goes on with a kill of session `h` and then gently. */
  ghost predicate GoesOn(
    cfg: Config, states: seq<State>, events: seq<Event>, h: nat, rising: bool,
    states': seq<State>, events': seq<Event>)
  {
    && IsRun(cfg, states', events') && states <= states' && events + [Killed(h)] <= events'
    && forall i :: |events| < i < |events'| ==> GentleEvent(states'[i], events'[i], rising)
  }

  /** Whatever happens after the kill, keys and capabilities stay paired. */
  ghost predicate Survives(cfg: Config, states: seq<State>, events: seq<Event>, h: nat, rising: bool) {
    forall states': seq<State>, events': seq<Event> ::
      GoesOn(cfg, states, events, h, rising, states', events') ==> Consistent(states'[|events'|].handed)
  }

  // ---- Harmless residues ----

  lemma HarmlessIsGentle(
    cfg: Config, states: seq<State>, events: seq<Event>, h: nat, rising: bool,
    states': seq<State>, events': seq<Event>)
    requires IsRun(cfg, states, events) && Gentle(states, events, rising)
    requires GentleEvent(states[|events|], Killed(h), rising)
    requires GoesOn(cfg, states, events, h, rising, states', events')
    ensures Consistent(states'[|events'|].handed)
  {
    forall i | 0 <= i < |events'| ensures GentleEvent(states'[i], events'[i], rising) {
      if i < |events| {
        assert states'[i] == states[i] && events'[i] == (events + [Killed(h)])[i] == events[i];
      } else if i == |events| {
        assert states'[i] == states[i] && events'[i] == (events + [Killed(h)])[i];
      }
    }
    GentleRunInv(cfg, states', events', |events'|, rising);
  }

  // ---- Continuing after a kill ----

  /** After the kill the clock is set to `time`, and then calm events follow. */
  lemma GoesOnCalmly(
    cfg: Config, states: seq<State>, events: seq<Event>, h: nat, rising: bool, time: U64, es: seq<Event>)
    returns (states': seq<State>, events': seq<Event>)
    requires IsRun(cfg, states, events) && h in states[|events|].sessions && Calm(es)
    requires rising ==> states[|events|].clock <= time
    requires AllEnabled(cfg, Resumed(states[|events|], h, time), es)
    ensures GoesOn(cfg, states, events, h, rising, states', events')
    ensures states'[|events'|] == After(cfg, Resumed(states[|events|], h, time), es)
  {
    var s := states[|events|];
    var s1 := Apply(cfg, s, Killed(h));
    OneMoreEvent(cfg, states, events, Killed(h), s1);
    var ss, es1 := states + [s1], events + [Killed(h)];
    OneMoreEvent(cfg, ss, es1, Clock(time), Resumed(s, h, time));
    ss, es1 := ss + [Resumed(s, h, time)], es1 + [Clock(time)];
    states' := EventsExtendRun(cfg, ss, es1, es);
    events' := es1 + es;
    assert ss <= states' && ss[|events| + 1] == s1;
    forall i | |events| < i < |events'| ensures GentleEvent(states'[i], events'[i], rising) {
      if i > |events| + 1 { assert events'[i] == es[i - |es1|] && es[i - |es1|] in es; }
    }
  }

  function Resumed(s: State, h: nat, time: U64): State
    requires h in s.sessions
  {
    s.(clock := time, sessions := s.sessions[h := Local(Idle, s.sessions[h].dir)])
  }

  lemma CalmJoins(a: seq<Event>, b: seq<Event>)
    requires Calm(a) && Calm(b)
    ensures Calm(a + b) && KillFree(a + b)
  {
  }

  // ---- A capability without its key ----

  /** From a capability without a key to decdn, with a new key `a`. */
  function WithNewKey(d: Dir, a: Address): seq<Local> {
    var complete := Dir(Whole(Key(a, 0)), Whole(0), d.capability);
    [ Local(Idle, d), Local(Opened, d), Local(Keying, d), Local(Generating, d),
      Local(Typing(0), d.(password := Garbled)), Local(Minting(0), d.(password := Whole(0))),
      Local(Keyed(a), complete), Local(Ready, complete), Local(Running, complete) ]
  }

  lemma NewKeyFollows(s: State, h: nat, d: Dir, a: Address)
    requires h in s.sessions && s.sessions[h] == Local(Idle, d) && a !in s.home
    requires d.keystore.Missing? && d.capability.Whole? && !Expiring(d.capability.value, s.clock)
    ensures CanFollow(s, h, WithNewKey(d, a), a, 5)
    ensures HandedBy(WithNewKey(d, a)[7]) == {Handover(Whole(Key(a, 0)), d.capability)}
  {
  }

  /** It is handed over with a key of another address. */
  lemma StrandedCapability(cfg: Config, states: seq<State>, events: seq<Event>, h: nat, rising: bool)
    returns (states': seq<State>, events': seq<Event>)
    requires IsRun(cfg, states, events) && h in states[|events|].sessions
    requires var s := states[|events|]; var d := s.sessions[h].dir;
      && d.keystore.Missing? && d.capability.Whole?
      && !Expiring(d.capability.value, Earliest(rising, s))
    ensures GoesOn(cfg, states, events, h, rising, states', events')
    ensures exists p <- states'[|events'|].handed ::
      p.key.Whole? && p.capability.Whole? && p.capability.value.signer != p.key.value.address
  {
    var s := states[|events|];
    var d, s1 := s.sessions[h].dir, Resumed(s, h, Earliest(rising, s));
    var a := Fresh(s.home.Keys + {d.capability.value.signer});
    NewKeyFollows(s1, h, d, a);
    WrapperHands(cfg, s1, h, WithNewKey(d, a), a, 5, 7);
    states', events' := GoesOnCalmly(
      cfg, states, events, h, rising, Earliest(rising, s), AsWrapper(h, WithNewKey(d, a)));
    var p := Handover(Whole(Key(a, 0)), d.capability);
    assert p in states'[|events'|].handed;
  }

  // ---- A key without its capability ----

  /** From a key without a capability to the request for one. */
  function ToAsking(d: Dir, client: Address): seq<Local> {
    [Local(Idle, d), Local(Opened, d), Local(Keying, d), Local(Keyed(client), d), Local(Asking(client), d)]
  }

  /** From an answer to decdn. */
  function ToRunning(d: Dir, client: Address, g: Grant): seq<Local> {
    [ Local(Asking(client), d), Local(Saving(client, Dcap(g)), d),
      Local(Writing(client, Dcap(g)), d.(capability := Garbled)),
      Local(Ready, d.(capability := Whole(g))), Local(Running, d.(capability := Whole(g))) ]
  }

  lemma AskingFollows(s: State, h: nat, d: Dir, client: Address)
    requires h in s.sessions && s.sessions[h] == Local(Idle, d)
    requires d.keystore.Whole? && d.keystore.value.address == client && d.password.Exists()
    requires !d.capability.Whole? && !d.capability.Unreadable?
    ensures CanFollow(s, h, ToAsking(d, client), client, -1)
  {
  }

  lemma RunningFollows(s: State, h: nat, d: Dir, client: Address, g: Grant)
    requires h in s.sessions && s.sessions[h] == Local(Asking(client), d)
    requires AnsweredTo(s.gateway.answered, client, g)
    ensures CanFollow(s, h, ToRunning(d, client, g), client, -1)
    ensures HandedBy(ToRunning(d, client, g)[3]) == {Handover(d.keystore, Whole(g))}
  {
  }

  /** `client` is funded by a whole `POST /fund`, and asked about by a whole
      `GET /capability`, which answers if the token lasts at all. */
  lemma Funds(cfg: Config, s: State, client: Address, signature: nat) returns (es: seq<Event>)
    requires !Holds(s.gateway.table, client, s.clock)
    ensures Calm(es) && KillFree(es) && AllEnabled(cfg, s, es)
    ensures var g, s' := Issue(cfg, client, s.clock, signature), After(cfg, s, es);
      && s' == s.(gateway := s'.gateway) && AnsweredTo(s'.gateway.answered, client, g)
      && s'.gateway.table == s.gateway.table[client := GrantRecord(cfg.cap, g.expiry, s.clock, g)]
      && s'.gateway.posts == s.gateway.posts && s'.gateway.gets == s.gateway.gets
      && s.gateway.answered <= s'.gateway.answered
      && (s.clock < g.expiry ==> Answer(GetCapability, client, g, s.clock) in s'.gateway.answered)
  {
    var i := Fresh(s.gateway.posts.Keys + s.gateway.passed.Keys);
    var j := Fresh(s.gateway.gets.Keys);
    var g := Issue(cfg, client, s.clock, signature);
    var post := Submission(Some(client), Pass, s.clock, true, Some(signature), true);
    var posting := HandlerSteps(s.gateway.table, i, post);
    SerialIsUninterrupted(cfg, s.gateway, i, post);
    ServeRuns(cfg, s, posting);
    var s1 := After(cfg, s, AsServe(posting));
    assert Answer(PostFund, client, g, s.clock) in s1.gateway.answered;
    var getting := [GetLooksUp(j, client), GetAnswers(j)];
    GetIsUninterrupted(cfg, s1.clock, s1.gateway, j, client);
    ServeRuns(cfg, s1, getting);
    AfterJoined(cfg, s, AsServe(posting), AsServe(getting));
    CalmJoins(AsServe(posting), AsServe(getting));
    es := AsServe(posting) + AsServe(getting);
    assert AnsweredTo(After(cfg, s, es).gateway.answered, client, g);
  }

  /** A key that is asked for once more gets another capability. */
  lemma AsksAndRuns(cfg: Config, s: State, h: nat, d: Dir, client: Address, signature: nat) returns (es: seq<Event>)
    requires h in s.sessions && s.sessions[h] == Local(Idle, d)
    requires d.keystore.Whole? && d.keystore.value.address == client && d.password.Exists()
    requires !d.capability.Whole? && !d.capability.Unreadable? && !Holds(s.gateway.table, client, s.clock)
    ensures Calm(es) && KillFree(es) && AllEnabled(cfg, s, es)
    ensures var g, s' := Issue(cfg, client, s.clock, signature), After(cfg, s, es);
      && s.handed + {Handover(d.keystore, Whole(g))} <= s'.handed
      && s.gateway.answered <= s'.gateway.answered
      && (s.clock < g.expiry ==> Answer(GetCapability, client, g, s.clock) in s'.gateway.answered)
  {
    var g := Issue(cfg, client, s.clock, signature);
    var asking := AsWrapper(h, ToAsking(d, client));
    AskingFollows(s, h, d, client);
    WrapperRuns(cfg, s, h, ToAsking(d, client), client, -1);
    var s1 := After(cfg, s, asking);
    var funding := Funds(cfg, s1, client, signature);
    var s2 := After(cfg, s1, funding);
    var running := AsWrapper(h, ToRunning(d, client, g));
    RunningFollows(s2, h, d, client, g);
    WrapperRuns(cfg, s2, h, ToRunning(d, client, g), client, -1);
    WrapperHands(cfg, s2, h, ToRunning(d, client, g), client, -1, 3);
    AfterJoined(cfg, s1, funding, running);
    AfterJoined(cfg, s, asking, funding + running);
    CalmJoins(funding, running);
    CalmJoins(asking, funding + running);
    es := asking + (funding + running);
  }

  ghost predicate AnsweredByGet(answered: set<Answer>, a: Address, g: Grant) {
    exists at: U64 :: Answer(GetCapability, a, g, at) in answered
  }

  /** When the token has expired, here and in the table. */
  function Late(s: State, client: Address, g: Grant): (time: U64)
    ensures time >= s.clock && time >= g.expiry && !Holds(s.gateway.table, client, time)
  {
    var later := if s.clock < g.expiry then g.expiry else s.clock;
    if client in s.gateway.table && later < s.gateway.table[client].expiry
    then s.gateway.table[client].expiry else later
  }

  /** A key that was handed over with `g` is handed over with another capability; one
      of a later expiry, where there is a later one, and answered by a GET, where
      there is time left. */
  lemma StrandedKey(cfg: Config, states: seq<State>, events: seq<Event>, h: nat, rising: bool, p: Handover)
    returns (states': seq<State>, events': seq<Event>)
    requires IsRun(cfg, states, events) && h in states[|events|].sessions && p in states[|events|].handed
    requires var s := states[|events|]; var d := s.sessions[h].dir;
      && d.keystore.Whole? && d.password.Exists() && !d.capability.Whole?
      && p.key.Whole? && p.key.value.address == d.keystore.value.address
    ensures GoesOn(cfg, states, events, h, rising, states', events')
    ensures var k := states[|events|].sessions[h].dir.keystore;
      exists q <- states'[|events'|].handed ::
        && p in states'[|events'|].handed && q.key == k && q.capability != p.capability
        && p.capability.Whole? && q.capability.Whole?
        && (0 < cfg.ttl && p.capability.value.expiry < U64_MAX ==>
              p.capability.value.expiry < q.capability.value.expiry)
        && (0 < cfg.ttl && Late(states[|events|], p.key.value.address, p.capability.value) < U64_MAX ==>
              AnsweredByGet(states'[|events'|].gateway.answered, p.key.value.address, q.capability.value))
  {
    var s := states[|events|];
    RunInv(cfg, states, events, |events|);
    assert SessionInv(s.home, s.gateway.answered, h, s.sessions[h]);
    var d, g := s.sessions[h].dir, p.capability.value;
    var client := d.keystore.value.address;
    var time := Late(s, client, g);
    var s1 := Resumed(s, h, time);
    var es := AsksAndRuns(cfg, s1, h, d, client, g.signature + 1);
    states', events' := GoesOnCalmly(cfg, states, events, h, rising, time, es);
    var q := Handover(d.keystore, Whole(Issue(cfg, client, time, g.signature + 1)));
    assert q in states'[|events'|].handed;
  }

  // ---- Both ----

  lemma HarmfulBreaks(cfg: Config, states: seq<State>, events: seq<Event>, h: nat, rising: bool)
    returns (states': seq<State>, events': seq<Event>)
    requires IsRun(cfg, states, events) && h in states[|events|].sessions
    requires var s := states[|events|];
      !HarmlessResidue(s.handed, s.sessions[h].dir, Earliest(rising, s))
    ensures GoesOn(cfg, states, events, h, rising, states', events')
    ensures !Consistent(states'[|events'|].handed)
  {
    var s := states[|events|];
    var d := s.sessions[h].dir;
    if d.keystore.Missing? {
      states', events' := StrandedCapability(cfg, states, events, h, rising);
    } else {
      var p :| p in s.handed && p.key.Whole? && p.key.value.address == d.keystore.value.address;
      states', events' := StrandedKey(cfg, states, events, h, rising, p);
    }
  }

  /** In a gentle run, a removal may be cut short now, without keys and capabilities
      ever coming apart in what follows gently, if and only if it leaves a harmless
      residue. */
  lemma HarmlessExactly(cfg: Config, states: seq<State>, events: seq<Event>, h: nat, rising: bool)
    requires IsRun(cfg, states, events) && Gentle(states, events, rising)
    requires h in states[|events|].sessions && Removing(states[|events|].sessions[h].proc)
    ensures var s := states[|events|];
      Survives(cfg, states, events, h, rising) <==>
      HarmlessResidue(s.handed, s.sessions[h].dir, Earliest(rising, s))
  {
    var s := states[|events|];
    if HarmlessResidue(s.handed, s.sessions[h].dir, Earliest(rising, s)) {
      forall states': seq<State>, events': seq<Event> |
        GoesOn(cfg, states, events, h, rising, states', events')
        ensures Consistent(states'[|events'|].handed)
      {
        HarmlessIsGentle(cfg, states, events, h, rising, states', events');
      }
    } else {
      var states', events' := HarmfulBreaks(cfg, states, events, h, rising);
    }
  }
}
