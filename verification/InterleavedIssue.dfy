/** Spacing and number of live tokens when any number of handlers interleave and
 the clock does not go back. */
module InterleavedIssue {
  import opened Types
  import opened Protocol
  import opened ProtocolSafety
  import opened Runs
  import opened Fund

  /** The event stores a token for `a`. */
  predicate StoresFor(s: State, e: Event, a: Address) {
    e.Serve? && e.g.Stores? && CanServe(s.gateway, e.g) && s.gateway.posts[e.g.i].signer == a
  }

  /** The clock reading of the handler that stores. */
  function ReadingOf(s: State, e: Event, a: Address): U64
    requires StoresFor(s, e, a)
  {
    s.gateway.posts[e.g.i].now
  }

  predicate HasReading(p: Post) {
    p.Timed? || p.Missed? || p.Holding?
  }

  /** The handlers that have looked `a` up, found nothing unexpired, and not stored yet. */
  ghost function InFlight(s: State, a: Address): set<nat> {
    set i | i in s.gateway.posts && PastLookup(s.gateway.posts[i], a)
  }

  predicate PastLookup(p: Post, a: Address) {
    (p.Missed? || p.Holding?) && p.signer == a
  }

  // ---- Spacing ----

  /** The store at `m` overwrites what the one at `p` left, with an older reading. */
  predicate Overtakes(states: seq<State>, events: seq<Event>, p: nat, m: nat, a: Address)
    requires |states| == |events| + 1
  {
    && p < m < |events|
    && StoresFor(states[p], events[p], a) && StoresFor(states[m], events[m], a)
    && ReadingOf(states[m], events[m], a) < ReadingOf(states[p], events[p], a)
  }

  /** Since the store at `p`, with reading `t`, the record of `a` is no older, and
      whoever looked up since then read a clock past its expiry. */
  ghost predicate Since(cfg: Config, s: State, earlier: set<nat>, a: Address, t: U64) {
    && a in s.gateway.table && s.gateway.table[a].issuedUnix >= t
    && forall i <- InFlight(s, a) :: i in earlier || s.gateway.posts[i].now >= SaturatingAdd(t, cfg.ttl)
  }

  lemma SinceStep(cfg: Config, s: State, e: Event, earlier: set<nat>, a: Address, t: U64)
    requires GatewayInv(cfg, s.gateway) && Enabled(s, e) && Since(cfg, s, earlier, a, t)
    requires StoresFor(s, e, a) ==> ReadingOf(s, e, a) >= t
    ensures Since(cfg, Apply(cfg, s, e), earlier, a, t)
  {
    var s' := Apply(cfg, s, e);
    assert RecordFor(cfg, a, s.gateway.table[a]);
    forall i | i in InFlight(s', a)
      ensures i in earlier || s'.gateway.posts[i].now >= SaturatingAdd(t, cfg.ttl)
    {
      assert i in InFlight(s, a) || (e.Serve? && e.g == LooksUp(i));
    }
  }

  /** The n-th step, with the reading of the store at `p`. */
  lemma SinceNext(
    cfg: Config, states: seq<State>, events: seq<Event>, p: nat, n: nat, earlier: set<nat>, a: Address, t: U64)
    requires IsRun(cfg, states, events) && p < n < |events|
    requires StoresFor(states[p], events[p], a) && t == ReadingOf(states[p], events[p], a)
    requires !Overtakes(states, events, p, n, a) && Since(cfg, states[n], earlier, a, t)
    ensures Since(cfg, states[n + 1], earlier, a, t)
  {
    RunInv(cfg, states, events, n);
    SinceStep(cfg, states[n], events[n], earlier, a, t);
  }

  lemma SinceStart(cfg: Config, states: seq<State>, events: seq<Event>, p: nat, a: Address)
    requires IsRun(cfg, states, events) && p < |events| && StoresFor(states[p], events[p], a)
    ensures Since(cfg, states[p + 1], InFlight(states[p + 1], a), a, ReadingOf(states[p], events[p], a))
  {
    assert Enabled(states[p], events[p]) && states[p + 1] == Apply(cfg, states[p], events[p]);
  }

  lemma {:induction false} SinceStore(
    cfg: Config, states: seq<State>, events: seq<Event>, p: nat, n: nat, a: Address, t: U64)
    requires IsRun(cfg, states, events) && p < n <= |events|
    requires StoresFor(states[p], events[p], a) && t == ReadingOf(states[p], events[p], a)
    requires forall m: nat :: p < m < n ==> !Overtakes(states, events, p, m, a)
    ensures Since(cfg, states[n], InFlight(states[p + 1], a), a, t)
  {
    if n == p + 1 {
      SinceStart(cfg, states, events, p, a);
    } else {
      SinceStore(cfg, states, events, p, n - 1, a, t);
      SinceNext(cfg, states, events, p, n - 1, InFlight(states[p + 1], a), a, t);
    }
  }

  /** Two tokens stored for one signer, the second by a handler that looked up after
      the first store, are a lifetime apart, unless a third handler overwrote the
      first with an older reading in between. */
  lemma SpacedUnlessOvertaken(
    cfg: Config, states: seq<State>, events: seq<Event>, p: nat, q: nat, a: Address)
    requires IsRun(cfg, states, events) && p < q < |events|
    requires StoresFor(states[p], events[p], a) && StoresFor(states[q], events[q], a)
    requires events[q].g.i !in InFlight(states[p + 1], a)
    ensures || ReadingOf(states[q], events[q], a)
               >= SaturatingAdd(ReadingOf(states[p], events[p], a), cfg.ttl)
            || exists m: nat :: m < q && Overtakes(states, events, p, m, a)
  {
    if forall m: nat :: p < m < q ==> !Overtakes(states, events, p, m, a) {
      SinceStore(cfg, states, events, p, q, a, ReadingOf(states[p], events[p], a));
      assert events[q].g.i in InFlight(states[q], a);
    }
  }

  // ---- Who can overtake ----

  lemma {:induction false} ClockIsMonotone(
    cfg: Config, states: seq<State>, events: seq<Event>, i: nat, j: nat)
    requires IsRun(cfg, states, events) && ClockRises(states, events) && i <= j <= |events|
    ensures states[i].clock <= states[j].clock
  {
    if i == j {
    } else {
      ClockIsMonotone(cfg, states, events, i, j - 1);
      assert Enabled(states[j - 1], events[j - 1]) && states[j] == Apply(cfg, states[j - 1], events[j - 1]);
    }
  }

  lemma {:induction false} ReadingsArePast(cfg: Config, states: seq<State>, events: seq<Event>, n: nat, i: nat)
    requires IsRun(cfg, states, events) && ClockRises(states, events) && n <= |events|
    requires i in states[n].gateway.posts && HasReading(states[n].gateway.posts[i])
    ensures states[n].gateway.posts[i].now <= states[n].clock
  {
    if n == 0 {
    } else {
      var s, e := states[n - 1], events[n - 1];
      assert Enabled(s, e) && states[n] == Apply(cfg, s, e);
      if i in s.gateway.posts && HasReading(s.gateway.posts[i]) { ReadingsArePast(cfg, states, events, n - 1, i); }
    }
  }

  /** Handler `i` has its clock reading in both. */
  predicate SameReading(posts: map<nat, Post>, posts': map<nat, Post>, i: nat) {
    && i in posts && HasReading(posts[i])
    && i in posts' && HasReading(posts'[i])
    && posts[i].now == posts'[i].now && posts[i].signer == posts'[i].signer
  }

  lemma ReadingIsKept(cfg: Config, states: seq<State>, events: seq<Event>, n: nat, i: nat)
    requires IsRun(cfg, states, events) && n < |events|
    requires i in states[n + 1].gateway.posts && HasReading(states[n + 1].gateway.posts[i])
    requires states[n + 1].gateway.posts[i].now < states[n].clock
    ensures SameReading(states[n].gateway.posts, states[n + 1].gateway.posts, i)
  {
    assert Enabled(states[n], events[n]) && states[n + 1] == Apply(cfg, states[n], events[n]);
  }

  /** A reading below an earlier clock was taken before that moment. */
  lemma {:induction false} OlderReadingWasOpen(
    cfg: Config, states: seq<State>, events: seq<Event>, p: nat, n: nat, i: nat)
    requires IsRun(cfg, states, events) && ClockRises(states, events) && p <= n <= |events|
    requires i in states[n].gateway.posts && HasReading(states[n].gateway.posts[i])
    requires states[n].gateway.posts[i].now < states[p].clock
    ensures SameReading(states[p].gateway.posts, states[n].gateway.posts, i)
  {
    if n == p {
    } else {
      ClockIsMonotone(cfg, states, events, p, n - 1);
      var m := n - 1;
      ReadingIsKept(cfg, states, events, m, i);
      assert SameReading(states[m].gateway.posts, states[n].gateway.posts, i);
      assert states[m].gateway.posts[i].now < states[p].clock;
      OlderReadingWasOpen(cfg, states, events, p, m, i);
    }
  }

  /** Whoever overtakes a store had read its clock before, and was open all the
      while: only a handler that overlaps the first one can. */
  lemma OvertakerWasOpen(
    cfg: Config, states: seq<State>, events: seq<Event>, p: nat, m: nat, a: Address)
    requires IsRun(cfg, states, events) && ClockRises(states, events)
    requires Overtakes(states, events, p, m, a)
    ensures var i, posts := events[m].g.i, states[p].gateway.posts;
      && i in posts && i != events[p].g.i && HasReading(posts[i]) && posts[i].signer == a
      && posts[i].now == ReadingOf(states[m], events[m], a)
  {
    ReadingsArePast(cfg, states, events, p, events[p].g.i);
    OlderReadingWasOpen(cfg, states, events, p, m, events[m].g.i);
  }

  // ---- Live tokens ----

  /** No token for `a` overwrites one of a later reading. */
  ghost predicate InOrder(states: seq<State>, events: seq<Event>, a: Address) {
    |states| == |events| + 1 &&
    forall p: nat, m: nat :: p < |events| && m < |events| ==> !Overtakes(states, events, p, m, a)
  }

  /** The stores for `a` before moment `n` whose tokens are then unexpired. */
  ghost function LiveStores(cfg: Config, states: seq<State>, events: seq<Event>, n: nat, a: Address): set<nat>
    requires |states| == |events| + 1 && n <= |events|
  {
    set q: nat | q < n && LiveStore(cfg, states, events, n, a, q)
  }

  predicate LiveStore(cfg: Config, states: seq<State>, events: seq<Event>, n: nat, a: Address, q: nat)
    requires |states| == |events| + 1 && q < n <= |events|
  {
    && StoresFor(states[q], events[q], a)
    && states[n].clock < SaturatingAdd(ReadingOf(states[q], events[q], a), cfg.ttl)
  }

  lemma GoneStaysGone(cfg: Config, states: seq<State>, events: seq<Event>, n: nat, i: nat)
    requires IsRun(cfg, states, events) && n < |events|
    requires i !in states[n].gateway.posts && i in states[n].gateway.passed
    ensures i !in states[n + 1].gateway.posts && i in states[n + 1].gateway.passed
  {
    assert Enabled(states[n], events[n]) && states[n + 1] == Apply(cfg, states[n], events[n]);
  }

  lemma GoesByStoring(cfg: Config, states: seq<State>, events: seq<Event>, p: nat, a: Address)
    requires IsRun(cfg, states, events) && p < |events| && StoresFor(states[p], events[p], a)
    ensures events[p].g.i !in states[p + 1].gateway.posts && events[p].g.i in states[p + 1].gateway.passed
    ensures InFlight(states[p + 1], a) <= InFlight(states[p], a)
  {
    RunInv(cfg, states, events, p);
    var w, i := states[p].gateway, events[p].g.i;
    assert PostOk(cfg, w.passed, w.signed, i, w.posts[i]);
    assert Enabled(states[p], events[p]) && states[p + 1] == Apply(cfg, states[p], events[p]);
  }

  /** A handler stores at most once. */
  lemma {:induction false} StoredIsGone(
    cfg: Config, states: seq<State>, events: seq<Event>, p: nat, n: nat, a: Address)
    requires IsRun(cfg, states, events) && p < n <= |events| && StoresFor(states[p], events[p], a)
    ensures events[p].g.i !in states[n].gateway.posts && events[p].g.i in states[n].gateway.passed
  {
    if n == p + 1 {
      GoesByStoring(cfg, states, events, p, a);
    } else {
      StoredIsGone(cfg, states, events, p, n - 1, a);
      GoneStaysGone(cfg, states, events, n - 1, events[p].g.i);
    }
  }

  /** In an orderly run, of two live tokens the later was already in flight when the
      earlier was stored. */
  lemma LaterWasInFlight(
    cfg: Config, states: seq<State>, events: seq<Event>, n: nat, a: Address, p: nat, q: nat)
    requires IsRun(cfg, states, events) && ClockRises(states, events) && InOrder(states, events, a)
    requires n <= |events| && p < q < n
    requires LiveStore(cfg, states, events, n, a, p) && LiveStore(cfg, states, events, n, a, q)
    ensures events[q].g.i in InFlight(states[p], a) && events[q].g.i != events[p].g.i
  {
    ReadingsArePast(cfg, states, events, q, events[q].g.i);
    ClockIsMonotone(cfg, states, events, q, n);
    StoredIsGone(cfg, states, events, p, q, a);
    GoesByStoring(cfg, states, events, p, a);
    if events[q].g.i !in InFlight(states[p + 1], a) {
      SpacedUnlessOvertaken(cfg, states, events, p, q, a);
    }
  }

  lemma {:induction false} First(live: set<nat>) returns (p: nat)
    requires live != {}
    ensures p in live && forall q <- live :: p <= q
  {
    var top :| top in live;
    var below := set q | q in live && q < top;
    if below == {} {
      p := top;
      assert forall q <- live :: q !in below;
    } else {
      assert top !in below;
      p := First(below);
      assert forall q <- live :: q < top ==> q in below;
    }
  }

  lemma {:induction false} HandlersDiffer(events: seq<Event>, live: set<nat>, handlers: set<nat>)
    requires forall q <- live :: q < |events| && events[q].Serve? && events[q].g.Stores?
    requires forall q <- live :: events[q].g.i in handlers
    requires forall p <- live, q <- live :: p < q ==> events[p].g.i != events[q].g.i
    ensures |live| <= |handlers|
  {
    if live == {} {
    } else {
      var p :| p in live;
      HandlersDiffer(events, live - {p}, handlers - {events[p].g.i});
    }
  }

  /** With a clock that does not go back and stores in the order of their readings,
      the unexpired tokens stored for a signer are at most the handlers that were
      past their lookup for it when the first of these was stored. */
  lemma LiveTokensWereInFlight(cfg: Config, states: seq<State>, events: seq<Event>, n: nat, a: Address)
    returns (p: nat)
    requires IsRun(cfg, states, events) && ClockRises(states, events) && InOrder(states, events, a)
    requires n <= |events| && LiveStores(cfg, states, events, n, a) != {}
    ensures p in LiveStores(cfg, states, events, n, a)
    ensures |LiveStores(cfg, states, events, n, a)| <= |InFlight(states[p], a)|
  {
    var live := LiveStores(cfg, states, events, n, a);
    p := First(live);
    forall q | q in live ensures events[q].g.i in InFlight(states[p], a) {
      assert LiveStore(cfg, states, events, n, a, q);
      if q != p { LaterWasInFlight(cfg, states, events, n, a, p, q); }
    }
    forall q, r | q in live && r in live && q < r ensures events[q].g.i != events[r].g.i {
      LaterWasInFlight(cfg, states, events, n, a, q, r);
    }
    HandlersDiffer(events, live, InFlight(states[p], a));
  }

  // ---- A run that is not in order ----

  /** `states'` and `events'` continue a run with a rising clock, and end in `s`. */
  ghost predicate Continues(
    cfg: Config, states: seq<State>, events: seq<Event>, states': seq<State>, events': seq<Event>, s: State)
  {
    && IsRun(cfg, states', events') && ClockRises(states', events')
    && states <= states' && events <= events' && states'[|events'|] == s
  }

  lemma OneServes(cfg: Config, states: seq<State>, events: seq<Event>, g: GatewayEvent)
    returns (states': seq<State>, events': seq<Event>)
    requires IsRun(cfg, states, events) && ClockRises(states, events)
    requires CanServe(states[|events|].gateway, g)
    ensures var s := states[|events|];
      Continues(cfg, states, events, states', events', s.(gateway := ServeStep(cfg, s.clock, s.gateway, g)))
    ensures events' == events + [Serve(g)]
  {
    var s' := Apply(cfg, states[|events|], Serve(g));
    OneMoreEvent(cfg, states, events, Serve(g), s');
    states', events' := states + [s'], events + [Serve(g)];
  }

  lemma TimePasses(cfg: Config, states: seq<State>, events: seq<Event>, time: U64)
    returns (states': seq<State>, events': seq<Event>)
    requires IsRun(cfg, states, events) && ClockRises(states, events)
    requires states[|events|].clock <= time
    ensures Continues(cfg, states, events, states', events', states[|events|].(clock := time))
  {
    var s' := Apply(cfg, states[|events|], Clock(time));
    OneMoreEvent(cfg, states, events, Clock(time), s');
    states', events' := states + [s'], events + [Clock(time)];
  }

  /** A new handler comes as far as its lookup, and finds nothing unexpired. */
  lemma MissesNow(cfg: Config, states: seq<State>, events: seq<Event>, i: nat, a: Address)
    returns (states': seq<State>, events': seq<Event>)
    requires IsRun(cfg, states, events) && ClockRises(states, events)
    requires var s := states[|events|];
      i !in s.gateway.posts && i !in s.gateway.passed && !Holds(s.gateway.table, a, s.clock)
    ensures var s := states[|events|]; var w := s.gateway;
      Continues(cfg, states, events, states', events',
        s.(gateway := w.(posts := w.posts[i := Missed(a, s.clock)], passed := w.passed[i := a])))
  {
    var s, w := states[|events|], states[|events|].gateway;
    states', events' := OneServes(cfg, states, events, PostArrives(i, a));
    states', events' := OneServes(cfg, states', events', CaptchaPasses(i));
    assert states'[|events'|].gateway == w.(posts := w.posts[i := Passed(a)], passed := w.passed[i := a]);
    states', events' := OneServes(cfg, states', events', ReadsClock(i));
    assert states'[|events'|].gateway == w.(posts := w.posts[i := Timed(a, s.clock)], passed := w.passed[i := a]);
    states', events' := OneServes(cfg, states', events', LooksUp(i));
    assert states'[|events'|].gateway == w.(posts := w.posts[i := Missed(a, s.clock)], passed := w.passed[i := a]);
  }

  /** A handler past its lookup signs, unless it has, and at the end `n` of the
      events so far it stores. */
  lemma StoresNow(cfg: Config, states: seq<State>, events: seq<Event>, i: nat, a: Address)
    returns (states': seq<State>, events': seq<Event>, n: nat)
    requires IsRun(cfg, states, events) && ClockRises(states, events)
    requires i in InFlight(states[|events|], a)
    ensures IsRun(cfg, states', events') && ClockRises(states', events')
    ensures states <= states' && events <= events' && |events| <= n == |events'| - 1
    ensures events'[n] == Serve(Stores(i)) && StoresFor(states'[n], events'[n], a)
    ensures var s, s' := states[|events|], states'[|events'|]; var now := s.gateway.posts[i].now;
      && ReadingOf(states'[n], events'[n], a) == now
      && s'.clock == s.clock && s'.gateway.posts == s.gateway.posts - {i}
      && s'.gateway.passed == s.gateway.passed
      && s'.gateway.table.Keys == s.gateway.table.Keys + {a}
      && s'.gateway.table[a].expiry == SaturatingAdd(now, cfg.ttl)
  {
    var w := states[|events|].gateway;
    RunInv(cfg, states, events, |events|);
    assert PostOk(cfg, w.passed, w.signed, i, w.posts[i]);
    states', events' := states, events;
    if w.posts[i].Missed? { states', events' := OneServes(cfg, states, events, Signs(i, i)); }
    n := |events'|;
    var w' := states'[n].gateway;
    assert w'.posts[i].Holding? && w'.posts[i].token.expiry == SaturatingAdd(w.posts[i].now, cfg.ttl);
    assert w'.posts - {i} == w.posts - {i};
    states', events' := OneServes(cfg, states', events', Stores(i));
  }

  /** Up to a store that overtakes: handler 0 looks up first and stores last. */
  lemma OvertakingRun(cfg: Config)
    returns (states: seq<State>, events: seq<Event>, p: nat, m: nat)
    requires 0 < cfg.ttl
    ensures IsRun(cfg, states, events) && ClockRises(states, events)
    ensures p < m < |events| && Overtakes(states, events, p, m, 1)
    ensures ReadingOf(states[p], events[p], 1) == 1 && states[p + 1].gateway.posts.Keys == {0}
    ensures var s := states[|events|];
      && s.clock == 1 && s.gateway.posts == map[] && s.gateway.passed == map[0 := 1, 1 := 1]
      && s.gateway.table.Keys == {1} && s.gateway.table[1].expiry == cfg.ttl
  {
    states, events := [State(0, Gateway(map[], map[], map[], map[], [], {}), map[], map[], {})], [];
    states, events := MissesNow(cfg, states, events, 0, 1);
    states, events := TimePasses(cfg, states, events, 1);
    states, events := MissesNow(cfg, states, events, 1, 1);
    states, events, p := StoresNow(cfg, states, events, 1, 1);
    assert states[p + 1].gateway.posts == map[0 := Missed(1, 0)];
    states, events, m := StoresNow(cfg, states, events, 0, 1);
    assert states[|events|].gateway.posts == map[];
  }

  /** The premise of the spacing is needed: a run with a rising clock in which two
      handlers that do not overlap store tokens for one signer less than a lifetime
      apart, so that both are live at once, because a third, slower one stored in
      between. */
  lemma OvertakingBreaksSpacing(cfg: Config)
    returns (states: seq<State>, events: seq<Event>, p: nat, m: nat, q: nat)
    requires 0 < cfg.ttl < U64_MAX
    ensures IsRun(cfg, states, events) && ClockRises(states, events)
    ensures p < m < q < |events| && Overtakes(states, events, p, m, 1)
    ensures LiveStore(cfg, states, events, |events|, 1, p) && LiveStore(cfg, states, events, |events|, 1, q)
    ensures events[q].g.i !in states[p + 1].gateway.posts
    ensures ReadingOf(states[q], events[q], 1)
            < SaturatingAdd(ReadingOf(states[p], events[p], 1), cfg.ttl)
  {
    states, events, p, m := OvertakingRun(cfg);
    var ss, es := states, events;
    states, events := TimePasses(cfg, states, events, cfg.ttl);
    states, events := MissesNow(cfg, states, events, 2, 1);
    states, events, q := StoresNow(cfg, states, events, 2, 1);
    assert states[p] == ss[p] && states[p + 1] == ss[p + 1] && states[m] == ss[m];
    assert events[p] == es[p] && events[m] == es[m];
  }
}
