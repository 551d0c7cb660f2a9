/**
 The sponsorship protocol as one transition system: any number of `POST /fund`
 and `GET /capability` handlers interleave at the gateway while any number of
 wrapper sessions run, and are killed, beside it.
 */
module Protocol {
  import opened Types
  import opened WrapperSteps

  /** A `POST /fund` handler between two of its steps. */
  datatype Post =
    | Arrived(signer: Address)                           // next: verify the captcha
    | Passed(signer: Address)                            // next: read the clock
    | Timed(signer: Address, now: U64)                   // next: look the signer up
    | Missed(signer: Address, now: U64)                  // next: sign
    | Holding(signer: Address, now: U64, token: Grant)   // next: put the record

  /** What `decdn` is started with: the contents of the files it is pointed at. */
  datatype Handover = Handover(key: File<Key>, capability: File<Grant>)

  /** A `GET /capability` handler that has looked its signer up. */
  datatype Lookup = Lookup(signer: Address, found: Option<Record>)

  datatype Endpoint = PostFund | GetCapability

  /** A 200 answer: who gave it, the signer asked for, the token given, and the clock
      reading the decision was made on. */
  datatype Answer = Answer(source: Endpoint, signer: Address, token: Grant, at: U64)

  /** One signature, the handler that made it, and its clock reading. */
  datatype Signing = Signing(handler: nat, token: Grant, at: U64)

  datatype Gateway = Gateway(
    table: map<Address, Record>,
    posts: map<nat, Post>,
    gets: map<nat, Lookup>,
    // history
    passed: map<nat, Address>,         // captcha passes: handler -> signer
    signed: seq<Signing>,              // every signature made, in order
    answered: set<Answer>)

  datatype State = State(
    clock: U64,
    gateway: Gateway,
    sessions: map<nat, Local>,
    // history
    home: map<Address, nat>,           // every key ever generated -> its session
    handed: set<Handover>)

  /** A step of some handler at the gateway. */
  datatype GatewayEvent =
    | PostArrives(i: nat, signer: Address)
    | CaptchaPasses(i: nat)
    | ReadsClock(i: nat)
    | LooksUp(i: nat)
    | Signs(i: nat, signature: nat)
    | Stores(i: nat)
    | PostEnds(i: nat)                // captcha refused, an error, or the handler dropped
    | GetLooksUp(j: nat, signer: Address)
    | GetAnswers(j: nat)

  datatype Event =
    | Clock(time: U64)                // the shared clock may be set to anything
    | Serve(g: GatewayEvent)
    | Wrapper(h: nat, next: Local)
    | Killed(h: nat)                  // also: an I/O or network error ends the run

  /** `Issuer::issue`. */
  function Issue(cfg: Config, delegate: Address, now: U64, signature: nat): Grant {
    Grant(delegate, cfg.poolId, cfg.cap, SaturatingAdd(now, cfg.ttl), cfg.owner, signature)
  }

  /** `Store::get_grant`. */
  function GetGrant(table: map<Address, Record>, signer: Address): Option<Record> {
    if signer in table then Some(table[signer]) else None
  }

  predicate Init(s: State) {
    && s.gateway == Gateway(map[], map[], map[], map[], [], {})
    && (forall h <- s.sessions :: s.sessions[h] == Local(Idle, EMPTY))
    && s.home == map[] && s.handed == {}
  }

  predicate CanServe(w: Gateway, e: GatewayEvent) {
    match e
    case PostArrives(i, _) => i !in w.posts && i !in w.passed
    case CaptchaPasses(i) => i in w.posts && w.posts[i].Arrived?
    case ReadsClock(i) => i in w.posts && w.posts[i].Passed?
    case LooksUp(i) => i in w.posts && w.posts[i].Timed?
    case Signs(i, _) => i in w.posts && w.posts[i].Missed?
    case Stores(i) => i in w.posts && w.posts[i].Holding?
    case PostEnds(i) => i in w.posts
    case GetLooksUp(j, _) => j !in w.gets
    case GetAnswers(j) => j in w.gets
  }

  function ServeStep(cfg: Config, clock: U64, w: Gateway, e: GatewayEvent): Gateway
    requires CanServe(w, e)
  {
    match e
    case PostArrives(i, signer) => w.(posts := w.posts[i := Arrived(signer)])
    case CaptchaPasses(i) =>
      var signer := w.posts[i].signer;
      w.(posts := w.posts[i := Passed(signer)], passed := w.passed[i := signer])
    case ReadsClock(i) => w.(posts := w.posts[i := Timed(w.posts[i].signer, clock)])
    case LooksUp(i) =>
      var p := w.posts[i];
      var found := GetGrant(w.table, p.signer);
      if found.Some? && p.now < found.value.expiry then
        w.(posts := w.posts - {i}, answered := w.answered + {Answer(PostFund, p.signer, found.value.token, p.now)})
      else
        w.(posts := w.posts[i := Missed(p.signer, p.now)])
    case Signs(i, signature) =>
      var p := w.posts[i];
      var token := Issue(cfg, p.signer, p.now, signature);
      w.(posts := w.posts[i := Holding(p.signer, p.now, token)], signed := w.signed + [Signing(i, token, p.now)])
    case Stores(i) =>
      var p := w.posts[i];
      w.(posts := w.posts - {i},
         table := w.table[p.signer := GrantRecord(cfg.cap, p.token.expiry, p.now, p.token)],
         answered := w.answered + {Answer(PostFund, p.signer, p.token, p.now)})
    case PostEnds(i) => w.(posts := w.posts - {i})
    case GetLooksUp(j, signer) => w.(gets := w.gets[j := Lookup(signer, GetGrant(w.table, signer))])
    case GetAnswers(j) =>
      var g := w.gets[j];
      var w' := w.(gets := w.gets - {j});
      if g.found.Some? && clock < g.found.value.expiry then
        w'.(answered := w.answered + {Answer(GetCapability, g.signer, g.found.value.token, clock)})
      else w'
  }

  /** `g` was answered to someone asking about `a`, by either endpoint, at some time. */
  ghost predicate AnsweredTo(answered: set<Answer>, a: Address, g: Grant) {
    exists source: Endpoint, at: U64 :: Answer(source, a, g, at) in answered
  }

  /** A wrapper step of session `h`, within what the rest of the world allows. */
  ghost predicate CanStep(s: State, h: nat, next: Local) {
    && h in s.sessions
    && var l := s.sessions[h];
    && LocalStep(s.clock, l, next)
    // a generated key is new
    && (l.proc.Minting? && next.proc.Keyed? ==> next.proc.client !in s.home)
    // a saved text is one the gateway answered for this client, at any earlier time
    && (l.proc.Asking? && next.proc.Saving? ==>
          next.proc.text.Dcap? && AnsweredTo(s.gateway.answered, next.proc.client, next.proc.text.grant))
  }

  function WrapperStep(s: State, h: nat, next: Local): State
    requires h in s.sessions
  {
    var l := s.sessions[h];
    s.(sessions := s.sessions[h := next],
       home := if l.proc.Minting? && next.proc.Keyed? then s.home[next.proc.client := h] else s.home,
       handed :=
         if l.proc.Ready? then s.handed + {Handover(l.dir.keystore, l.dir.capability)} else s.handed)
  }

  ghost predicate Enabled(s: State, e: Event) {
    match e
    case Clock(_) => true
    case Serve(g) => CanServe(s.gateway, g)
    case Wrapper(h, next) => CanStep(s, h, next)
    case Killed(h) => h in s.sessions
  }

  ghost function Apply(cfg: Config, s: State, e: Event): State
    requires Enabled(s, e)
  {
    match e
    case Clock(time) => s.(clock := time)
    case Serve(g) => s.(gateway := ServeStep(cfg, s.clock, s.gateway, g))
    case Wrapper(h, next) => WrapperStep(s, h, next)
    case Killed(h) => s.(sessions := s.sessions[h := Local(Idle, s.sessions[h].dir)])
  }

  /** A run from the initial state. */
  ghost predicate IsRun(cfg: Config, states: seq<State>, events: seq<Event>) {
    && |states| == |events| + 1
    && Init(states[0])
    && forall i :: 0 <= i < |events| ==>
         Enabled(states[i], events[i]) && states[i + 1] == Apply(cfg, states[i], events[i])
  }

  // ---- Gentle runs ----

  /** The clock never goes back. */
  predicate ClockRises(states: seq<State>, events: seq<Event>) {
    |states| == |events| + 1 &&
    forall n :: 0 <= n < |events| && events[n].Clock? ==> states[n].clock <= events[n].time
  }

  /** The key was never handed over. */
  ghost predicate Unused(handed: set<Handover>, a: Address) {
    forall p <- handed :: !(p.key.Whole? && p.key.value.address == a)
  }

  /** The earliest time at which the clock can still be read, if it may be set to
      anything, or only forward. */
  function Earliest(rising: bool, s: State): U64 {
    if rising then s.clock else 0
  }

  /** What a removal cut short may leave behind without harm: no usable key that was
      handed over and has lost its capability, and no capability that has lost its key,
      unless every later run finds it expiring. */
  ghost predicate HarmlessResidue(handed: set<Handover>, d: Dir, earliest: U64) {
    && (Usable(d) && d.keystore.Whole? && !d.capability.Whole? ==>
          Unused(handed, d.keystore.value.address))
    && (d.keystore.Missing? && d.capability.Whole? ==> Expiring(d.capability.value, earliest))
  }

  /** No removal is cut short at a harmful point; and, if `rising`, the clock does not
      go back. */
  ghost predicate GentleEvent(s: State, e: Event, rising: bool) {
    && (e.Killed? && e.h in s.sessions && Removing(s.sessions[e.h].proc) ==>
          HarmlessResidue(s.handed, s.sessions[e.h].dir, Earliest(rising, s)))
    && (rising && e.Clock? ==> s.clock <= e.time)
  }

  ghost predicate Gentle(states: seq<State>, events: seq<Event>, rising: bool) {
    |states| == |events| + 1 && forall i :: 0 <= i < |events| ==> GentleEvent(states[i], events[i], rising)
  }
}
