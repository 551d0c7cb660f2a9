/** When tokens of one signer stay a lifetime apart although handlers interleave:
 exactly, by what can be seen at the moment of a store. */
module Spacing {
  import opened Types
  import opened Protocol
  import opened ProtocolSafety
  import opened Runs
  import opened InterleavedIssue
  import opened Fund

  /** The run goes on with a rising clock, and the event at `q` stores for `a`, by a
      handler that was not past its lookup yet when it went on. */
  ghost predicate LaterStore(
    cfg: Config, states: seq<State>, events: seq<Event>, states': seq<State>, events': seq<Event>, q: nat, a: Address)
  {
    && |states| == |events| + 1
    && IsRun(cfg, states', events') && ClockRises(states', events')
    && states <= states' && events <= events'
    && |events| <= q < |events'|
    && StoresFor(states'[q], events'[q], a) && events'[q].g.i !in InFlight(states[|events|], a)
  }

  /** However the run goes on, whoever looks up from now on stores nothing that was
      read before `due`. */
  ghost predicate StaysSpaced(cfg: Config, states: seq<State>, events: seq<Event>, a: Address, due: U64) {
    forall states': seq<State>, events': seq<Event>, q: nat ::
      LaterStore(cfg, states, events, states', events', q, a) ==>
        ReadingOf(states'[q], events'[q], a) >= due
  }

  /** The handler has read its clock and is about to look `a` up. */
  predicate AtLookup(p: Post, a: Address) {
    p.Timed? && p.signer == a
  }

  /** With a record of that expiry in the table, nobody who looks up misses before
      `due`: the record stands until then; or the clock is already past `due`, and of
      those who had read it before, none reaches the expiry. */
  ghost predicate Covers(s: State, a: Address, due: U64, expiry: U64) {
    || expiry >= due
    || (s.clock >= due && forall j <- s.gateway.posts :: AtLookup(s.gateway.posts[j], a) ==>
          s.gateway.posts[j].now >= due || s.gateway.posts[j].now < expiry)
  }

  /** Every handler past its lookup would leave such a record. */
  ghost predicate InFlightCovers(cfg: Config, s: State, a: Address, due: U64) {
    forall i <- InFlight(s, a) :: Covers(s, a, due, SaturatingAdd(s.gateway.posts[i].now, cfg.ttl))
  }

  /** Every handler past its lookup would store a token that lasts until `due`. */
  ghost predicate NoneExpiresBefore(cfg: Config, s: State, a: Address, due: U64) {
    forall i <- InFlight(s, a) :: SaturatingAdd(s.gateway.posts[i].now, cfg.ttl) >= due
  }

  // ---- Enough ----

  ghost predicate PostKept(cfg: Config, s0: State, i: nat, p: Post, a: Address, due: U64) {
    && (AtLookup(p, a) ==>
          p.now >= s0.clock || (i in s0.gateway.posts && s0.gateway.posts[i] == p))
    && (PastLookup(p, a) ==>
          p.now >= due || (i in InFlight(s0, a) && Covers(s0, a, due, SaturatingAdd(p.now, cfg.ttl))))
  }

  /** What every step from `s0` on keeps. */
  ghost predicate Kept(cfg: Config, s0: State, s: State, a: Address, due: U64) {
    && s0.clock <= s.clock
    && a in s.gateway.table && Covers(s0, a, due, s.gateway.table[a].expiry)
    && forall i <- s.gateway.posts :: PostKept(cfg, s0, i, s.gateway.posts[i], a, due)
  }

  lemma MissKept(cfg: Config, s0: State, s: State, i: nat, a: Address, due: U64)
    requires Kept(cfg, s0, s, a, due) && i in s.gateway.posts && AtLookup(s.gateway.posts[i], a)
    ensures s.gateway.posts[i].now >= s.gateway.table[a].expiry ==> s.gateway.posts[i].now >= due
  {
    assert PostKept(cfg, s0, i, s.gateway.posts[i], a, due);
  }

  lemma KeptStep(cfg: Config, s0: State, s: State, e: Event, a: Address, due: U64)
    requires GatewayInv(cfg, s.gateway) && Kept(cfg, s0, s, a, due) && Enabled(s, e)
    requires e.Clock? ==> s.clock <= e.time
    ensures Kept(cfg, s0, Apply(cfg, s, e), a, due)
  {
    var s' := Apply(cfg, s, e);
    forall i | i in s'.gateway.posts ensures PostKept(cfg, s0, i, s'.gateway.posts[i], a, due) {
      assert i in s.gateway.posts ==> PostKept(cfg, s0, i, s.gateway.posts[i], a, due);
      if i in s.gateway.posts && AtLookup(s.gateway.posts[i], a) { MissKept(cfg, s0, s, i, a, due); }
    }
    if e.Serve? && e.g.Stores? {
      var w := s.gateway;
      assert PostOk(cfg, w.passed, w.signed, e.g.i, w.posts[e.g.i]);
      assert PostKept(cfg, s0, e.g.i, w.posts[e.g.i], a, due);
    }
  }

  lemma {:induction false} KeptAlong(
    cfg: Config, states: seq<State>, events: seq<Event>, p: nat, n: nat, a: Address, due: U64)
    requires IsRun(cfg, states, events) && ClockRises(states, events) && p <= n <= |events|
    requires Kept(cfg, states[p], states[p], a, due)
    ensures Kept(cfg, states[p], states[n], a, due)
  {
    if n == p {
    } else {
      KeptAlong(cfg, states, events, p, n - 1, a, due);
      RunInv(cfg, states, events, n - 1);
      KeptStep(cfg, states[p], states[n - 1], events[n - 1], a, due);
      assert states[n] == Apply(cfg, states[n - 1], events[n - 1]);
    }
  }

  // ---- Needed ----

  /** A handler past its lookup finishes, and one that has read its clock since looks
      up what that leaves. */
  lemma WaitingStores(cfg: Config, states: seq<State>, events: seq<Event>, i: nat, j: nat, a: Address)
    returns (states': seq<State>, events': seq<Event>, q: nat)
    requires IsRun(cfg, states, events) && ClockRises(states, events)
    requires i in InFlight(states[|events|], a) && j in states[|events|].gateway.posts
    requires var posts := states[|events|].gateway.posts;
      AtLookup(posts[j], a) && SaturatingAdd(posts[i].now, cfg.ttl) <= posts[j].now
    ensures LaterStore(cfg, states, events, states', events', q, a)
    ensures ReadingOf(states'[q], events'[q], a) == states[|events|].gateway.posts[j].now
  {
    var m;
    states', events', m := StoresNow(cfg, states, events, i, a);
    var now := states[|events|].gateway.posts[j].now;
    assert states'[|events'|].gateway.posts[j] == Timed(a, now);
    states', events' := OneServes(cfg, states', events', LooksUp(j));
    assert states'[|events'|].gateway.posts[j] == Missed(a, now);
    states', events', q := StoresNow(cfg, states', events', j, a);
  }

  /** A handler past its lookup finishes, time passes to the expiry of its token, and
      a new handler looks up. */
  lemma NewcomerStores(cfg: Config, states: seq<State>, events: seq<Event>, i: nat, a: Address, due: U64)
    returns (states': seq<State>, events': seq<Event>, q: nat)
    requires IsRun(cfg, states, events) && ClockRises(states, events)
    requires i in InFlight(states[|events|], a) && states[|events|].clock < due
    requires SaturatingAdd(states[|events|].gateway.posts[i].now, cfg.ttl) < due
    ensures LaterStore(cfg, states, events, states', events', q, a)
    ensures ReadingOf(states'[q], events'[q], a) < due
  {
    var s := states[|events|];
    var expiry, m := SaturatingAdd(s.gateway.posts[i].now, cfg.ttl), 0;
    var k := Fresh(s.gateway.posts.Keys + s.gateway.passed.Keys);
    states', events', m := StoresNow(cfg, states, events, i, a);
    states', events' := TimePasses(cfg, states', events', if expiry < s.clock then s.clock else expiry);
    states', events' := MissesNow(cfg, states', events', k, a);
    states', events', q := StoresNow(cfg, states', events', k, a);
  }

  /** After a store for `a` whose token expires at `due`, all tokens stored for `a` by
      handlers not yet past their lookup stay a lifetime apart from it, however the
      run goes on with a rising clock, if and only if every handler past its lookup
      leaves a record that covers `due`. While the clock is before `due`, that is one
      that does not expire before. */
  lemma SpacedExactly(cfg: Config, states: seq<State>, events: seq<Event>, a: Address)
    requires IsRun(cfg, states, events) && ClockRises(states, events) && events != []
    requires var p := |events| - 1; StoresFor(states[p], events[p], a)
    ensures var p := |events| - 1;
      var due := SaturatingAdd(ReadingOf(states[p], events[p], a), cfg.ttl);
      StaysSpaced(cfg, states, events, a, due) <==> InFlightCovers(cfg, states[p + 1], a, due)
  {
    var p := |events| - 1;
    var s, due := states[p + 1], SaturatingAdd(ReadingOf(states[p], events[p], a), cfg.ttl);
    if InFlightCovers(cfg, s, a, due) {
      StoreIsKept(cfg, states, events, a, due);
      forall states': seq<State>, events': seq<Event>, q: nat |
        LaterStore(cfg, states, events, states', events', q, a)
        ensures ReadingOf(states'[q], events'[q], a) >= due
      {
        KeptAlong(cfg, states', events', p + 1, q, a, due);
        assert PostKept(cfg, s, events'[q].g.i, states'[q].gateway.posts[events'[q].g.i], a, due);
      }
    } else {
      var i :| i in InFlight(s, a) && !Covers(s, a, due, SaturatingAdd(s.gateway.posts[i].now, cfg.ttl));
      var states', events', q := Breaks(cfg, states, events, i, a, due);
    }
  }

  /** The same while the token just stored is unexpired: all handlers past their
      lookup must have read the clock late enough to expire no earlier. */
  lemma SpacedBeforeExpiry(cfg: Config, states: seq<State>, events: seq<Event>, a: Address)
    requires IsRun(cfg, states, events) && ClockRises(states, events) && events != []
    requires var p := |events| - 1; StoresFor(states[p], events[p], a)
    requires var p := |events| - 1;
      states[p + 1].clock < SaturatingAdd(ReadingOf(states[p], events[p], a), cfg.ttl)
    ensures var p := |events| - 1;
      var due := SaturatingAdd(ReadingOf(states[p], events[p], a), cfg.ttl);
      StaysSpaced(cfg, states, events, a, due) <==> NoneExpiresBefore(cfg, states[p + 1], a, due)
  {
    SpacedExactly(cfg, states, events, a);
  }

  lemma StoreIsKept(cfg: Config, states: seq<State>, events: seq<Event>, a: Address, due: U64)
    requires IsRun(cfg, states, events) && events != []
    requires var p := |events| - 1;
      StoresFor(states[p], events[p], a) && due == SaturatingAdd(ReadingOf(states[p], events[p], a), cfg.ttl)
    requires InFlightCovers(cfg, states[|events|], a, due)
    ensures Kept(cfg, states[|events|], states[|events|], a, due)
  {
    var p := |events| - 1;
    RunInv(cfg, states, events, p);
    var w, i := states[p].gateway, events[p].g.i;
    assert PostOk(cfg, w.passed, w.signed, i, w.posts[i]);
    assert states[p + 1] == Apply(cfg, states[p], events[p]);
  }

  lemma Breaks(cfg: Config, states: seq<State>, events: seq<Event>, i: nat, a: Address, due: U64)
    returns (states': seq<State>, events': seq<Event>, q: nat)
    requires IsRun(cfg, states, events) && ClockRises(states, events)
    requires var s := states[|events|];
      i in InFlight(s, a) && !Covers(s, a, due, SaturatingAdd(s.gateway.posts[i].now, cfg.ttl))
    ensures LaterStore(cfg, states, events, states', events', q, a)
    ensures ReadingOf(states'[q], events'[q], a) < due
  {
    var s := states[|events|];
    if s.clock < due {
      states', events', q := NewcomerStores(cfg, states, events, i, a, due);
    } else {
      var posts := s.gateway.posts;
      var j :| j in posts && AtLookup(posts[j], a)
        && SaturatingAdd(posts[i].now, cfg.ttl) <= posts[j].now < due;
      states', events', q := WaitingStores(cfg, states, events, i, j, a);
    }
  }
}
