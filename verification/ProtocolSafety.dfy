/** Safety of the sponsorship protocol over every run. */
module ProtocolSafety {
  import opened Types
  import opened WrapperSteps
  import opened Protocol

  // ---- The gateway's side ----

  /** `g` is a token this gateway signs for `signer`. */
  predicate TokenFor(cfg: Config, signer: Address, g: Grant) {
    g.signer == signer && g.poolId == cfg.poolId && g.spendingCap == cfg.cap && g.owner == cfg.owner
  }

  predicate RecordFor(cfg: Config, signer: Address, r: Record) {
    && TokenFor(cfg, signer, r.token)
    && r.spendingCap == cfg.cap
    && r.token.expiry == r.expiry == SaturatingAdd(r.issuedUnix, cfg.ttl)
  }

  predicate SignedByGateway(signed: seq<Signing>, g: Grant) {
    exists k :: 0 <= k < |signed| && signed[k].token == g
  }

  /** Handler `i` has signed nothing yet. */
  predicate Unsigned(signed: seq<Signing>, i: nat) {
    forall k :: 0 <= k < |signed| ==> signed[k].handler != i
  }

  predicate PostOk(cfg: Config, passed: map<nat, Address>, signed: seq<Signing>, i: nat, p: Post) {
    match p
    case Arrived(_) => i !in passed && Unsigned(signed, i)
    case Holding(signer, now, token) =>
      && i in passed && passed[i] == signer
      && SignedByGateway(signed, token)
      && TokenFor(cfg, signer, token) && token.expiry == SaturatingAdd(now, cfg.ttl)
    case _ => i in passed && passed[i] == p.signer && Unsigned(signed, i)
  }

  ghost predicate TableOk(cfg: Config, signed: seq<Signing>, table: map<Address, Record>) {
    forall a <- table :: RecordFor(cfg, a, table[a]) && SignedByGateway(signed, table[a].token)
  }

  ghost predicate GetsOk(cfg: Config, signed: seq<Signing>, gets: map<nat, Lookup>) {
    forall j <- gets :: gets[j].found.Some? ==>
      && RecordFor(cfg, gets[j].signer, gets[j].found.value)
      && SignedByGateway(signed, gets[j].found.value.token)
  }

  ghost predicate PostsOk(
    cfg: Config, passed: map<nat, Address>, signed: seq<Signing>, posts: map<nat, Post>) {
    forall i <- posts :: PostOk(cfg, passed, signed, i, posts[i])
  }

  ghost predicate AnsweredOk(cfg: Config, signed: seq<Signing>, answered: set<Answer>) {
    forall p <- answered :: AnswerOk(cfg, signed, p)
  }

  /** The token answered is the signer's own, signed here, and unexpired at the
      reading the handler decided on, or issued for a whole lifetime from it. */
  predicate AnswerOk(cfg: Config, signed: seq<Signing>, p: Answer) {
    && TokenFor(cfg, p.signer, p.token)
    && SignedByGateway(signed, p.token)
    && (p.at < p.token.expiry || (p.source.PostFund? && p.token.expiry == SaturatingAdd(p.at, cfg.ttl)))
  }

  /** Each token is signed by a handler of its own, whose captcha was passed for
      the token's signer, for one lifetime from the handler's clock reading. */
  ghost predicate SignedOk(cfg: Config, passed: map<nat, Address>, signed: seq<Signing>) {
    && (forall k :: 0 <= k < |signed| ==>
          && signed[k].handler in passed && passed[signed[k].handler] == signed[k].token.signer
          && signed[k].token.expiry == SaturatingAdd(signed[k].at, cfg.ttl))
    && (forall j, k :: 0 <= j < k < |signed| ==> signed[j].handler != signed[k].handler)
  }

  ghost predicate GatewayInv(cfg: Config, w: Gateway) {
    && TableOk(cfg, w.signed, w.table)
    && GetsOk(cfg, w.signed, w.gets)
    && PostsOk(cfg, w.passed, w.signed, w.posts)
    && AnsweredOk(cfg, w.signed, w.answered)
    && SignedOk(cfg, w.passed, w.signed)
  }

  lemma SignedGrows(signed: seq<Signing>, more: Signing, g: Grant)
    ensures SignedByGateway(signed, g) || g == more.token ==> SignedByGateway(signed + [more], g)
  {
    var signed' := signed + [more];
    if g == more.token {
      assert signed'[|signed|].token == g;
    } else if SignedByGateway(signed, g) {
      var k :| 0 <= k < |signed| && signed[k].token == g;
      assert signed'[k].token == g;
    }
  }

  lemma GatewayInvSign(cfg: Config, clock: U64, w: Gateway, i: nat, signature: nat)
    requires GatewayInv(cfg, w) && CanServe(w, Signs(i, signature))
    ensures GatewayInv(cfg, ServeStep(cfg, clock, w, Signs(i, signature)))
  {
    var w' := ServeStep(cfg, clock, w, Signs(i, signature));
    assert PostOk(cfg, w.passed, w.signed, i, w.posts[i]);
    var more := Signing(i, w'.posts[i].token, w.posts[i].now);
    assert w'.signed == w.signed + [more];
    forall g ensures SignedByGateway(w.signed, g) || g == more.token ==> SignedByGateway(w'.signed, g) {
      SignedGrows(w.signed, more, g);
    }
  }

  lemma GatewayInvStore(cfg: Config, clock: U64, w: Gateway, i: nat)
    requires GatewayInv(cfg, w) && CanServe(w, Stores(i))
    ensures GatewayInv(cfg, ServeStep(cfg, clock, w, Stores(i)))
  {
    assert PostOk(cfg, w.passed, w.signed, i, w.posts[i]);
  }

  lemma GatewayInvPost(cfg: Config, clock: U64, w: Gateway, e: GatewayEvent)
    requires GatewayInv(cfg, w) && CanServe(w, e)
    requires e.PostArrives? || e.CaptchaPasses? || e.ReadsClock? || e.LooksUp? || e.PostEnds?
    ensures GatewayInv(cfg, ServeStep(cfg, clock, w, e))
  {
    if e.i in w.posts { assert PostOk(cfg, w.passed, w.signed, e.i, w.posts[e.i]); }
  }

  lemma GatewayInvStep(cfg: Config, clock: U64, w: Gateway, e: GatewayEvent)
    requires GatewayInv(cfg, w) && CanServe(w, e)
    ensures GatewayInv(cfg, ServeStep(cfg, clock, w, e))
  {
    match e
    case Signs(i, signature) => GatewayInvSign(cfg, clock, w, i, signature);
    case Stores(i) => GatewayInvStore(cfg, clock, w, i);
    case GetLooksUp(_, _) =>
    case GetAnswers(_) =>
    case _ => GatewayInvPost(cfg, clock, w, e);
  }

  // ---- A session's side, with the wrapper killed anywhere ----

  /** Holds of every session at every moment. It mentions only history that grows. */
  ghost predicate SessionInv(home: map<Address, nat>, answered: set<Answer>, h: nat, l: Local) {
    var d := l.dir;
    && !d.keystore.Garbled? && !d.keystore.Unreadable? && !d.capability.Unreadable?
    && (d.keystore.Whole? ==>
          && d.keystore.value.address in home && home[d.keystore.value.address] == h
          && (d.password == Missing || d.password == Whole(d.keystore.value.password)))
    && (d.capability.Whole? ==> AnsweredTo(answered, d.capability.value.signer, d.capability.value))
    && ProcOk(answered, l)
  }

  /** What each program point knows about the directory. */
  ghost predicate ProcOk(answered: set<Answer>, l: Local) {
    var d := l.dir;
    match l.proc
    case Clearing => d.keystore == Missing && d.password == Missing
    case Generating => d.keystore == Missing
    case Typing(_) => d.keystore == Missing && d.password == Garbled
    case Minting(secret) => d.keystore == Missing && d.password == Whole(secret)
    case Keyed(c) => KeyedTo(d, c)
    case Asking(c) => KeyedTo(d, c) && !d.capability.Whole?
    case Saving(c, t) => KeyedTo(d, c) && !d.capability.Whole? && t.Dcap? && AnsweredTo(answered, c, t.grant)
    case Writing(c, t) => KeyedTo(d, c) && d.capability == Garbled && t.Dcap? && AnsweredTo(answered, c, t.grant)
    case Ready => d.keystore.Whole? && d.password.Exists() && d.capability.Whole?
    case Running => d.keystore.Whole? && d.password.Exists() && d.capability.Whole?
    case _ => true
  }

  predicate KeyedTo(d: Dir, c: Address) {
    d.keystore.Whole? && d.keystore.value.address == c && d.password == Whole(d.keystore.value.password)
  }

  ghost predicate HandedInv(home: map<Address, nat>, answered: set<Answer>, handed: set<Handover>) {
    forall p <- handed ::
      && p.key.Whole? && p.key.value.address in home
      && p.capability.Whole? && AnsweredTo(answered, p.capability.value.signer, p.capability.value)
  }

  ghost predicate SessionsInv(s: State) {
    && (forall h <- s.sessions :: SessionInv(s.home, s.gateway.answered, h, s.sessions[h]))
    && HandedInv(s.home, s.gateway.answered, s.handed)
  }

  /** A step that touches no keystore and asks for nothing new. */
  lemma LocalInvStep(cfg: Config, s: State, h: nat, next: Local)
    requires AnsweredOk(cfg, s.gateway.signed, s.gateway.answered) && SessionsInv(s) && Enabled(s, Wrapper(h, next))
    requires var p := s.sessions[h].proc; !(p.Minting? && next.proc.Keyed?)
    ensures SessionInv(s.home, s.gateway.answered, h, next)
  {
    assert SessionInv(s.home, s.gateway.answered, h, s.sessions[h]);
  }

  lemma SessionsInvWrapper(cfg: Config, s: State, h: nat, next: Local)
    requires AnsweredOk(cfg, s.gateway.signed, s.gateway.answered)
    requires SessionsInv(s) && Enabled(s, Wrapper(h, next))
    ensures SessionsInv(Apply(cfg, s, Wrapper(h, next)))
  {
    var s' := Apply(cfg, s, Wrapper(h, next));
    var l := s.sessions[h];
    assert SessionInv(s.home, s.gateway.answered, h, l);
    if l.proc.Minting? {
      forall k | k in s'.sessions && k != h ensures SessionInv(s'.home, s'.gateway.answered, k, s'.sessions[k]) {
        assert SessionInv(s.home, s.gateway.answered, k, s.sessions[k]);
      }
    } else {
      LocalInvStep(cfg, s, h, next);
    }
  }

  lemma AnsweredGrows(cfg: Config, clock: U64, w: Gateway, e: GatewayEvent)
    requires CanServe(w, e)
    ensures w.answered <= ServeStep(cfg, clock, w, e).answered
  {
  }

  lemma SessionsInvStep(cfg: Config, s: State, e: Event)
    requires AnsweredOk(cfg, s.gateway.signed, s.gateway.answered) && SessionsInv(s) && Enabled(s, e)
    ensures SessionsInv(Apply(cfg, s, e))
  {
    var s' := Apply(cfg, s, e);
    if e.Wrapper? {
      SessionsInvWrapper(cfg, s, e.h, e.next);
    } else if e.Killed? {
      assert SessionInv(s.home, s.gateway.answered, e.h, s.sessions[e.h]);
    } else {
      if e.Serve? { AnsweredGrows(cfg, s.clock, s.gateway, e.g); }
      forall h | h in s.sessions ensures SessionInv(s.home, s'.gateway.answered, h, s.sessions[h]) {
        assert SessionInv(s.home, s.gateway.answered, h, s.sessions[h]);
      }
    }
  }

  // ---- A session's side, in gentle runs ----

  ghost predicate OnlyWith(handed: set<Handover>, a: Address, g: Grant) {
    forall p <- handed :: p.key.Whole? && p.key.value.address == a ==> p.capability == Whole(g)
  }

  /** The key and the capability of a session belong together; a capability without
      its key is about to be removed. */
  ghost predicate GentleInv(handed: set<Handover>, l: Local, earliest: U64) {
    var d := l.dir;
    && (d.keystore.Whole? && d.capability.Whole? ==>
          && d.capability.value.signer == d.keystore.value.address
          && OnlyWith(handed, d.keystore.value.address, d.capability.value))
    && (!Removing(l.proc) && d.keystore.Missing? && d.capability.Whole? ==>
          (l.proc.Idle? || l.proc.Opened?) && Expiring(d.capability.value, earliest))
    && (!Removing(l.proc) && Usable(d) && d.keystore.Whole? && !d.capability.Whole? ==>
          Unused(handed, d.keystore.value.address))
  }

  ghost predicate Consistent(handed: set<Handover>) {
    && (forall p <- handed :: p.key.Whole? && p.capability.Whole? ==>
          p.capability.value.signer == p.key.value.address)
    && (forall p <- handed, q <- handed ::
          p.key.Whole? && q.key.Whole? && p.key.value.address == q.key.value.address
          ==> p.capability == q.capability)
  }

  ghost predicate PairsInv(s: State, rising: bool) {
    && (forall h <- s.sessions :: GentleInv(s.handed, s.sessions[h], Earliest(rising, s)))
    && Consistent(s.handed)
  }

  lemma GentleLocalStep(cfg: Config, s: State, h: nat, next: Local, rising: bool)
    requires AnsweredOk(cfg, s.gateway.signed, s.gateway.answered)
    requires SessionsInv(s) && PairsInv(s, rising) && Enabled(s, Wrapper(h, next))
    ensures GentleInv(Apply(cfg, s, Wrapper(h, next)).handed, next, Earliest(rising, s))
  {
    assert SessionInv(s.home, s.gateway.answered, h, s.sessions[h]);
    assert GentleInv(s.handed, s.sessions[h], Earliest(rising, s));
  }

  /** Other sessions hold other keys, so a hand-over of `h` does not concern them. */
  lemma HandoverFrame(cfg: Config, s: State, h: nat, next: Local, k: nat, rising: bool)
    requires SessionsInv(s) && PairsInv(s, rising) && Enabled(s, Wrapper(h, next))
    requires k in s.sessions && k != h
    ensures GentleInv(Apply(cfg, s, Wrapper(h, next)).handed, s.sessions[k], Earliest(rising, s))
  {
    assert SessionInv(s.home, s.gateway.answered, h, s.sessions[h]);
    assert SessionInv(s.home, s.gateway.answered, k, s.sessions[k]);
    assert GentleInv(s.handed, s.sessions[k], Earliest(rising, s));
  }

  lemma HandoverConsistent(cfg: Config, s: State, h: nat, next: Local, rising: bool)
    requires SessionsInv(s) && PairsInv(s, rising) && Enabled(s, Wrapper(h, next))
    ensures Consistent(Apply(cfg, s, Wrapper(h, next)).handed)
  {
    assert SessionInv(s.home, s.gateway.answered, h, s.sessions[h]);
    assert GentleInv(s.handed, s.sessions[h], Earliest(rising, s));
  }

  lemma PairsInvWrapper(cfg: Config, s: State, h: nat, next: Local, rising: bool)
    requires AnsweredOk(cfg, s.gateway.signed, s.gateway.answered)
    requires SessionsInv(s) && PairsInv(s, rising) && Enabled(s, Wrapper(h, next))
    ensures PairsInv(Apply(cfg, s, Wrapper(h, next)), rising)
  {
    var s' := Apply(cfg, s, Wrapper(h, next));
    assert s'.sessions == s.sessions[h := next];
    HandoverConsistent(cfg, s, h, next, rising);
    forall k | k in s'.sessions ensures GentleInv(s'.handed, s'.sessions[k], Earliest(rising, s')) {
      if k == h {
        GentleLocalStep(cfg, s, h, next, rising);
      } else {
        HandoverFrame(cfg, s, h, next, k, rising);
      }
    }
  }

  lemma PairsInvStep(cfg: Config, s: State, e: Event, rising: bool)
    requires AnsweredOk(cfg, s.gateway.signed, s.gateway.answered)
    requires SessionsInv(s) && PairsInv(s, rising) && Enabled(s, e) && GentleEvent(s, e, rising)
    ensures PairsInv(Apply(cfg, s, e), rising)
  {
    var s' := Apply(cfg, s, e);
    if e.Wrapper? {
      PairsInvWrapper(cfg, s, e.h, e.next, rising);
    } else if e.Killed? {
      assert GentleInv(s.handed, s.sessions[e.h], Earliest(rising, s));
    }
  }

  // ---- Runs whose discards complete ----

  /** No kill inside `discard`: once started, it completes. */
  predicate DiscardsComplete(states: seq<State>, events: seq<Event>) {
    |states| == |events| + 1 &&
    forall i :: 0 <= i < |events| ==> !CutsDiscard(states[i], events[i])
  }

  predicate CutsDiscard(s: State, e: Event) {
    e.Killed? && e.h in s.sessions && (s.sessions[e.h].proc.Rotating? || s.sessions[e.h].proc.Finishing?)
  }

  /** A keystore keeps its password, so the repair in `ensure_key` is never needed. */
  ghost predicate Paired(l: Local) {
    && !l.proc.Clearing?
    && (l.proc.Rotating? || l.proc.Finishing? || !l.dir.keystore.Exists() || l.dir.password.Exists())
  }

  lemma PairedStep(s: State, h: nat, next: Local)
    requires SessionsInv(s) && CanStep(s, h, next) && Paired(s.sessions[h])
    ensures Paired(next)
  {
    assert SessionInv(s.home, s.gateway.answered, h, s.sessions[h]);
  }

  lemma CompleteRunStep(cfg: Config, states: seq<State>, events: seq<Event>, n: nat, h: nat)
    requires IsRun(cfg, states, events) && DiscardsComplete(states, events) && n < |events|
    requires h in states[n].sessions && Paired(states[n].sessions[h])
    ensures h in states[n + 1].sessions && Paired(states[n + 1].sessions[h])
  {
    var s, e := states[n], events[n];
    assert Enabled(s, e) && states[n + 1] == Apply(cfg, s, e) && !CutsDiscard(s, e);
    RunInv(cfg, states, events, n);
    if e.Wrapper? && e.h == h { PairedStep(s, h, e.next); }
  }

  lemma SessionsPersist(cfg: Config, states: seq<State>, events: seq<Event>, n: nat)
    requires IsRun(cfg, states, events) && n < |events|
    ensures states[n + 1].sessions.Keys == states[n].sessions.Keys
  {
    assert Enabled(states[n], events[n]) && states[n + 1] == Apply(cfg, states[n], events[n]);
  }

  lemma {:induction false} CompleteRunInv(
    cfg: Config, states: seq<State>, events: seq<Event>, n: nat, h: nat)
    requires IsRun(cfg, states, events) && DiscardsComplete(states, events) && n < |states|
    requires h in states[n].sessions
    ensures Paired(states[n].sessions[h])
  {
    if n == 0 {
    } else {
      SessionsPersist(cfg, states, events, n - 1);
      CompleteRunInv(cfg, states, events, n - 1, h);
      CompleteRunStep(cfg, states, events, n - 1, h);
    }
  }

  /** Runs whose discards complete are gentle, wherever else they are killed. */
  lemma DiscardsCompleteIsGentle(cfg: Config, states: seq<State>, events: seq<Event>, rising: bool)
    requires IsRun(cfg, states, events) && DiscardsComplete(states, events)
    requires rising ==> ClockRises(states, events)
    ensures Gentle(states, events, rising)
  {
    forall i | 0 <= i < |events| ensures GentleEvent(states[i], events[i], rising) {
      var s, e := states[i], events[i];
      assert Enabled(s, e) && !CutsDiscard(s, e);
      if e.Killed? { CompleteRunInv(cfg, states, events, i, e.h); }
    }
  }

  // ---- Over whole runs ----

  lemma {:induction false} RunInv(cfg: Config, states: seq<State>, events: seq<Event>, n: nat)
    requires IsRun(cfg, states, events) && n < |states|
    ensures GatewayInv(cfg, states[n].gateway) && SessionsInv(states[n])
  {
    if n == 0 {
    } else {
      RunInv(cfg, states, events, n - 1);
      var s, e := states[n - 1], events[n - 1];
      assert Enabled(s, e) && states[n] == Apply(cfg, s, e);
      if e.Serve? { GatewayInvStep(cfg, s.clock, s.gateway, e.g); }
      SessionsInvStep(cfg, s, e);
    }
  }

  lemma GentleRunStep(cfg: Config, states: seq<State>, events: seq<Event>, n: nat, rising: bool)
    requires IsRun(cfg, states, events) && Gentle(states, events, rising) && n < |events|
    requires PairsInv(states[n], rising)
    ensures PairsInv(states[n + 1], rising)
  {
    RunInv(cfg, states, events, n);
    assert Enabled(states[n], events[n]) && GentleEvent(states[n], events[n], rising);
    PairsInvStep(cfg, states[n], events[n], rising);
  }

  lemma {:induction false} GentleRunInv(cfg: Config, states: seq<State>, events: seq<Event>, n: nat, rising: bool)
    requires IsRun(cfg, states, events) && Gentle(states, events, rising) && n < |states|
    ensures PairsInv(states[n], rising)
  {
    if n == 0 {
    } else {
      GentleRunInv(cfg, states, events, n - 1, rising);
      GentleRunStep(cfg, states, events, n - 1, rising);
    }
  }

  /** The token was signed for one lifetime from some handler's clock reading. */
  ghost predicate SignedAt(cfg: Config, signed: seq<Signing>, g: Grant) {
    exists k :: 0 <= k < |signed| && signed[k].token == g && g.expiry == SaturatingAdd(signed[k].at, cfg.ttl)
  }

  /** Every stored record and every 200 answer is for its signer, however the
      handlers interleave: the last-writer-wins race is benign. */
  lemma RacingHandlersAreBenign(cfg: Config, states: seq<State>, events: seq<Event>, n: nat)
    requires IsRun(cfg, states, events) && n < |states|
    ensures forall a <- states[n].gateway.table :: RecordFor(cfg, a, states[n].gateway.table[a])
    ensures forall p <- states[n].gateway.answered ::
      && AnswerOk(cfg, states[n].gateway.signed, p)
      && SignedAt(cfg, states[n].gateway.signed, p.token)
  {
    RunInv(cfg, states, events, n);
    forall p | p in states[n].gateway.answered
      ensures AnswerOk(cfg, states[n].gateway.signed, p) && SignedAt(cfg, states[n].gateway.signed, p.token)
    {
      var k :| 0 <= k < |states[n].gateway.signed| && states[n].gateway.signed[k].token == p.token;
    }
  }

  /** How many tokens were signed for `a`. */
  function TokensFor(signed: seq<Signing>, a: Address): nat {
    if signed == [] then 0 else
      TokensFor(signed[..|signed| - 1], a) + if signed[|signed| - 1].token.signer == a then 1 else 0
  }

  ghost function PassesFor(w: Gateway, a: Address): set<nat> {
    set i | i in w.passed && w.passed[i] == a
  }

  /** Signatures by distinct handlers out of `passes` are no more than `passes`. */
  lemma {:induction false} DistinctHandlers(signed: seq<Signing>, a: Address, passes: set<nat>)
    requires forall j, k :: 0 <= j < k < |signed| ==> signed[j].handler != signed[k].handler
    requires forall k :: 0 <= k < |signed| && signed[k].token.signer == a ==> signed[k].handler in passes
    ensures TokensFor(signed, a) <= |passes|
  {
    if signed == [] {
    } else {
      var last := signed[|signed| - 1];
      if last.token.signer == a {
        DistinctHandlers(signed[..|signed| - 1], a, passes - {last.handler});
      } else {
        DistinctHandlers(signed[..|signed| - 1], a, passes);
      }
    }
  }

  /** Tokens signed for a signer never outnumber the captchas passed for it. */
  lemma TokensNeverOutnumberCaptchas(
    cfg: Config, states: seq<State>, events: seq<Event>, n: nat, a: Address)
    requires IsRun(cfg, states, events) && n < |states|
    ensures TokensFor(states[n].gateway.signed, a) <= |PassesFor(states[n].gateway, a)|
  {
    RunInv(cfg, states, events, n);
    DistinctHandlers(states[n].gateway.signed, a, PassesFor(states[n].gateway, a));
  }

  /** Wherever the wrapper is killed: a keystore beside a complete password file
      was sealed under exactly that password, and a password file that is present
      beside a keystore is complete. */
  lemma PasswordOpensKeystore(cfg: Config, states: seq<State>, events: seq<Event>, n: nat, h: nat)
    requires IsRun(cfg, states, events) && n < |states| && h in states[n].sessions
    ensures var d := states[n].sessions[h].dir;
      d.keystore.Exists() && d.password.Exists() ==>
        d.keystore.Whole? && d.password == Whole(d.keystore.value.password)
  {
    RunInv(cfg, states, events, n);
    assert SessionInv(states[n].home, states[n].gateway.answered, h, states[n].sessions[h]);
  }

  /** Wherever the wrapper is killed: `decdn` is only ever started with a complete
      keystore and a decodable capability that the gateway signed for its own
      pool and cap. */
  lemma HandoversAreGenuine(cfg: Config, states: seq<State>, events: seq<Event>, n: nat, p: Handover)
    requires IsRun(cfg, states, events) && n < |states| && p in states[n].handed
    ensures p.key.Whole? && p.capability.Whole?
    ensures TokenFor(cfg, p.capability.value.signer, p.capability.value)
    ensures SignedByGateway(states[n].gateway.signed, p.capability.value)
  {
    RunInv(cfg, states, events, n);
  }

  /** In gentle runs a session's keystore and decodable capability agree. */
  lemma KeyAndCapabilityAgree(
    cfg: Config, states: seq<State>, events: seq<Event>, n: nat, h: nat, rising: bool)
    requires IsRun(cfg, states, events) && Gentle(states, events, rising)
    requires n < |states| && h in states[n].sessions
    ensures var d := states[n].sessions[h].dir;
      d.keystore.Exists() && d.capability.Whole? ==>
        && d.keystore.Whole?
        && TokenFor(cfg, d.keystore.value.address, d.capability.value)
        && SignedByGateway(states[n].gateway.signed, d.capability.value)
  {
    RunInv(cfg, states, events, n);
    assert SessionInv(states[n].home, states[n].gateway.answered, h, states[n].sessions[h]);
    GentleRunInv(cfg, states, events, n, rising);
    assert GentleInv(states[n].handed, states[n].sessions[h], Earliest(rising, states[n]));
  }

  /** In gentle runs each throwaway key is handed over with at most one
      capability in its whole life, and it is the key's own. */
  lemma OneCapabilityPerKey(
    cfg: Config, states: seq<State>, events: seq<Event>, n: nat, p: Handover, q: Handover, rising: bool)
    requires IsRun(cfg, states, events) && Gentle(states, events, rising) && n < |states|
    requires p in states[n].handed && q in states[n].handed
    ensures p.key.Whole? && p.capability.Whole?
    ensures p.capability.value.signer == p.key.value.address
    ensures q.key.Whole? && p.key.value.address == q.key.value.address ==> p.capability == q.capability
  {
    RunInv(cfg, states, events, n);
    GentleRunInv(cfg, states, events, n, rising);
  }

  // ---- Resuming ----

  /** Program points of a run that neither rotates, nor generates, nor asks. */
  predicate Resumes(p: Proc) {
    p.Idle? || p.Opened? || p.Keying? || p.Keyed? || p.Ready? || p.Running?
  }

  /** The event is not a success of session `h`, and not an expiry check of it within
      the margin of `g`. */
  predicate LeavesAlone(s: State, e: Event, h: nat, g: Grant)
    requires h in s.sessions
  {
    e.Wrapper? && e.h == h ==>
      && !e.next.proc.Finishing?
      && (s.sessions[h].proc.Opened? ==> !Expiring(g, s.clock))
  }

  predicate Complete(d: Dir) {
    d.keystore.Whole? && d.password.Exists() && d.capability.Whole?
  }

  /** A complete directory outside the margin survives any number of failed or killed
      runs as it is, and the gateway is never asked. */
  lemma {:induction false} CompleteDirectoryStays(
    cfg: Config, states: seq<State>, events: seq<Event>, m: nat, n: nat, h: nat)
    requires IsRun(cfg, states, events) && m <= n <= |events| && h in states[m].sessions
    requires Complete(states[m].sessions[h].dir) && Resumes(states[m].sessions[h].proc)
    requires forall i :: m <= i < n && h in states[i].sessions ==>
      LeavesAlone(states[i], events[i], h, states[m].sessions[h].dir.capability.value)
    ensures h in states[n].sessions
    ensures states[n].sessions[h].dir == states[m].sessions[h].dir && Resumes(states[n].sessions[h].proc)
  {
    if n == m {
    } else {
      CompleteDirectoryStays(cfg, states, events, m, n - 1, h);
      var s, e := states[n - 1], events[n - 1];
      assert Enabled(s, e) && states[n] == Apply(cfg, s, e);
      assert LeavesAlone(s, e, h, states[m].sessions[h].dir.capability.value);
    }
  }
}
