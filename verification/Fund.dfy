/** `POST /fund` and `GET /capability`, served one request at a time. */
module Fund {
  import opened Types
  import P = Protocol

  datatype Verdict = Pass | Refused | Broken

  /** What one `POST /fund` meets: the parsed client, the captcha's verdict, the
      clock, and whether the lookup, the signing and the put succeed. */
  datatype Submission = Submission(
    client: Option<Address>, verdict: Verdict, now: U64,
    finds: bool, signature: Option<nat>, stores: bool)

  datatype Reply =
    | Answered(token: Grant)
    | NoContent
    | BadRequest
    | CaptchaFailed
    | Internal

  type Table = map<Address, Record>

  predicate Holds(table: Table, a: Address, now: U64) {
    a in table && now < table[a].expiry
  }

  /** The table and the reply after one submission. */
  function Submitted(cfg: Config, table: Table, s: Submission): (Table, Reply) {
    if s.client.None? then (table, BadRequest)
    else if s.verdict.Refused? then (table, CaptchaFailed)
    else if s.verdict.Broken? || !s.finds then (table, Internal)
    else if Holds(table, s.client.value, s.now) then (table, Answered(table[s.client.value].token))
    else if s.signature.None? || !s.stores then (table, Internal)
    else
      var token := P.Issue(cfg, s.client.value, s.now, s.signature.value);
      (table[s.client.value := GrantRecord(cfg.cap, token.expiry, s.now, token)], Answered(token))
  }

  function Fetched(table: Table, client: Option<Address>, now: U64, finds: bool): Reply {
    if client.None? then BadRequest
    else if !finds then Internal
    else if Holds(table, client.value, now) then Answered(table[client.value].token)
    else NoContent
  }

  class Server {
    const cfg: Config
    var table: Table

    constructor (cfg: Config)
      ensures this.cfg == cfg && table == map[]
    {
      this.cfg := cfg;
      table := map[];
    }

    method Submit(s: Submission) returns (r: Reply)
      modifies this
      ensures (table, r) == Submitted(cfg, old(table), s)
    {
      if s.client.None? { return BadRequest; }
      var client := s.client.value;
      match s.verdict {
        case Pass =>
        case Refused => return CaptchaFailed;
        case Broken => return Internal;
      }
      if !s.finds { return Internal; }
      if client in table {
        var rec := table[client];
        if s.now < rec.expiry { return Answered(rec.token); }
      }
      if s.signature.None? { return Internal; }
      var token := P.Issue(cfg, client, s.now, s.signature.value);
      var rec := GrantRecord(cfg.cap, token.expiry, s.now, token);
      if !s.stores { return Internal; }
      table := table[client := rec];
      return Answered(token);
    }

    method Get(client: Option<Address>, now: U64, finds: bool) returns (r: Reply)
      ensures r == Fetched(table, client, now, finds)
    {
      if client.None? { return BadRequest; }
      if !finds { return Internal; }
      if client.value !in table { return NoContent; }
      var rec := table[client.value];
      if now >= rec.expiry { return NoContent; }
      return Answered(rec.token);
    }
  }

  /** A submission that gets as far as a reply with a token. */
  predicate Completes(s: Submission) {
    s.client.Some? && s.verdict.Pass? && s.finds && s.signature.Some? && s.stores
  }

  // ---- The protocol's handler, with nothing between its steps ----

  /** From the signing on. */
  function StepsFromMiss(i: nat, s: Submission): seq<P.GatewayEvent> {
    if s.signature.None? then [P.PostEnds(i)]
    else [P.Signs(i, s.signature.value), if s.stores then P.Stores(i) else P.PostEnds(i)]
  }

  /** From the lookup on. */
  function StepsFromLookup(table: Table, i: nat, a: Address, s: Submission): seq<P.GatewayEvent> {
    if !s.finds then [P.PostEnds(i)]
    else [P.LooksUp(i)] + if Holds(table, a, s.now) then [] else StepsFromMiss(i, s)
  }

  /** All steps of the handler that serves `s`; a body that names no client ends
      in the parser, before there is a handler. */
  function HandlerSteps(table: Table, i: nat, s: Submission): seq<P.GatewayEvent> {
    if s.client.None? then []
    else if !s.verdict.Pass? then [P.PostArrives(i, s.client.value), P.PostEnds(i)]
    else [P.PostArrives(i, s.client.value), P.CaptchaPasses(i), P.ReadsClock(i)]
         + StepsFromLookup(table, i, s.client.value, s)
  }

  predicate CanServeAll(cfg: Config, clock: U64, w: P.Gateway, es: seq<P.GatewayEvent>)
    decreases |es|
  {
    es == [] ||
    (P.CanServe(w, es[0]) && CanServeAll(cfg, clock, P.ServeStep(cfg, clock, w, es[0]), es[1..]))
  }

  function ServeAll(cfg: Config, clock: U64, w: P.Gateway, es: seq<P.GatewayEvent>): P.Gateway
    requires CanServeAll(cfg, clock, w, es)
    decreases |es|
  {
    if es == [] then w else ServeAll(cfg, clock, P.ServeStep(cfg, clock, w, es[0]), es[1..])
  }

  /** What a reply adds to the 200 answers given. */
  function AnswersOf(s: Submission, reply: Reply): set<P.Answer> {
    if s.client.Some? && reply.Answered? then {P.Answer(P.PostFund, s.client.value, reply.token, s.now)} else {}
  }

  /** The gateway after `s` was answered with `reply`, handler `i` being gone. */
  predicate Served(cfg: Config, w: P.Gateway, w': P.Gateway, i: nat, a: Address, s: Submission) {
    var (table', reply) := Submitted(cfg, w.table, s);
    && w'.table == table' && w'.posts == w.posts - {i} && w'.gets == w.gets && w'.passed == w.passed
    && w'.answered == w.answered + AnswersOf(s, reply)
    && w'.signed == w.signed + (
         if s.finds && !Holds(w.table, a, s.now) && s.signature.Some?
         then [P.Signing(i, P.Issue(cfg, a, s.now, s.signature.value), s.now)] else [])
  }

  lemma ServesNext(cfg: Config, clock: U64, w: P.Gateway, e: P.GatewayEvent, rest: seq<P.GatewayEvent>)
    requires P.CanServe(w, e) && CanServeAll(cfg, clock, P.ServeStep(cfg, clock, w, e), rest)
    ensures CanServeAll(cfg, clock, w, [e] + rest)
    ensures ServeAll(cfg, clock, w, [e] + rest) == ServeAll(cfg, clock, P.ServeStep(cfg, clock, w, e), rest)
  {
    assert ([e] + rest)[1..] == rest;
  }

  lemma ServesLast(cfg: Config, clock: U64, w: P.Gateway, e: P.GatewayEvent)
    requires P.CanServe(w, e)
    ensures CanServeAll(cfg, clock, w, [e])
    ensures ServeAll(cfg, clock, w, [e]) == P.ServeStep(cfg, clock, w, e)
  {
    var w' := P.ServeStep(cfg, clock, w, e);
    assert CanServeAll(cfg, clock, w', []) && ServeAll(cfg, clock, w', []) == w';
    assert [e][1..] == [];
  }

  lemma ServesFromMiss(cfg: Config, w: P.Gateway, i: nat, a: Address, s: Submission)
    requires s.client == Some(a) && s.verdict.Pass? && s.finds && !Holds(w.table, a, s.now)
    requires i in w.posts && w.posts[i] == P.Missed(a, s.now)
    ensures CanServeAll(cfg, s.now, w, StepsFromMiss(i, s))
    ensures Served(cfg, w, ServeAll(cfg, s.now, w, StepsFromMiss(i, s)), i, a, s)
  {
    if s.signature.None? {
      ServesLast(cfg, s.now, w, P.PostEnds(i));
    } else {
      var signs, last := P.Signs(i, s.signature.value), if s.stores then P.Stores(i) else P.PostEnds(i);
      var w1 := P.ServeStep(cfg, s.now, w, signs);
      ServesLast(cfg, s.now, w1, last);
      ServesNext(cfg, s.now, w, signs, [last]);
      assert StepsFromMiss(i, s) == [signs] + [last];
      assert w1.posts - {i} == w.posts - {i};
    }
  }

  lemma ServesFromLookup(cfg: Config, w: P.Gateway, i: nat, a: Address, s: Submission)
    requires s.client == Some(a) && s.verdict.Pass?
    requires i in w.posts && w.posts[i] == P.Timed(a, s.now)
    ensures CanServeAll(cfg, s.now, w, StepsFromLookup(w.table, i, a, s))
    ensures Served(cfg, w, ServeAll(cfg, s.now, w, StepsFromLookup(w.table, i, a, s)), i, a, s)
  {
    if !s.finds {
      ServesLast(cfg, s.now, w, P.PostEnds(i));
    } else if Holds(w.table, a, s.now) {
      ServesLast(cfg, s.now, w, P.LooksUp(i));
      assert StepsFromLookup(w.table, i, a, s) == [P.LooksUp(i)];
    } else {
      var w1 := P.ServeStep(cfg, s.now, w, P.LooksUp(i));
      ServesFromMiss(cfg, w1, i, a, s);
      ServesNext(cfg, s.now, w, P.LooksUp(i), StepsFromMiss(i, s));
      assert w1.posts - {i} == w.posts - {i};
    }
  }

  /** A new handler's steps up to its lookup. */
  lemma ServesAdmission(cfg: Config, w: P.Gateway, i: nat, a: Address, s: Submission)
    requires i !in w.posts && i !in w.passed && s.client == Some(a) && s.verdict.Pass?
    ensures CanServeAll(cfg, s.now, w, HandlerSteps(w.table, i, s))
    ensures
      var w' := w.(posts := w.posts[i := P.Timed(a, s.now)], passed := w.passed[i := a]);
      Served(cfg, w', ServeAll(cfg, s.now, w, HandlerSteps(w.table, i, s)), i, a, s)
  {
    var arrives, passes, timed := P.PostArrives(i, a), P.CaptchaPasses(i), P.ReadsClock(i);
    var w1 := P.ServeStep(cfg, s.now, w, arrives);
    var w2 := P.ServeStep(cfg, s.now, w1, passes);
    assert w2.posts == w.posts[i := P.Passed(a)];
    var w3 := P.ServeStep(cfg, s.now, w2, timed);
    assert w3 == w.(posts := w.posts[i := P.Timed(a, s.now)], passed := w.passed[i := a]);
    var rest := StepsFromLookup(w.table, i, a, s);
    ServesFromLookup(cfg, w3, i, a, s);
    ServesNext(cfg, s.now, w2, timed, rest);
    ServesNext(cfg, s.now, w1, passes, [timed] + rest);
    ServesNext(cfg, s.now, w, arrives, [passes] + ([timed] + rest));
    assert HandlerSteps(w.table, i, s) == [arrives] + ([passes] + ([timed] + rest));
  }

  /** Serial requests are the interleaved protocol with one handler at a time:
      whatever the submission meets, the handler's steps are enabled one after the
      other, and leave the table and the answer that serving it leaves. */
  lemma SerialIsUninterrupted(cfg: Config, w: P.Gateway, i: nat, s: Submission)
    requires i !in w.posts && i !in w.passed
    ensures CanServeAll(cfg, s.now, w, HandlerSteps(w.table, i, s))
    ensures
      var w' := ServeAll(cfg, s.now, w, HandlerSteps(w.table, i, s));
      var (table', reply) := Submitted(cfg, w.table, s);
      && w'.table == table' && w'.posts == w.posts && w'.gets == w.gets
      && w'.answered == w.answered + AnswersOf(s, reply)
      && w'.passed == if s.client.Some? && s.verdict.Pass? then w.passed[i := s.client.value] else w.passed
  {
    if s.client.None? {
    } else if s.verdict.Pass? {
      ServesAdmission(cfg, w, i, s.client.value, s);
      assert w.posts[i := P.Timed(s.client.value, s.now)] - {i} == w.posts;
    } else {
      var arrives := P.PostArrives(i, s.client.value);
      var w1 := P.ServeStep(cfg, s.now, w, arrives);
      ServesLast(cfg, s.now, w1, P.PostEnds(i));
      ServesNext(cfg, s.now, w, arrives, [P.PostEnds(i)]);
      assert w1.posts - {i} == w.posts;
      assert HandlerSteps(w.table, i, s) == [arrives] + [P.PostEnds(i)];
    }
  }

  /** What a `GET /capability` adds to the 200 answers given. */
  function AnswersOfGet(a: Address, clock: U64, reply: Reply): set<P.Answer> {
    if reply.Answered? then {P.Answer(P.GetCapability, a, reply.token, clock)} else {}
  }

  /** The same for `GET /capability`: its two steps are enabled one after the other,
      change nothing but the answers, and give the answer that serving it gives. */
  lemma GetIsUninterrupted(cfg: Config, clock: U64, w: P.Gateway, j: nat, a: Address)
    requires j !in w.gets
    ensures CanServeAll(cfg, clock, w, [P.GetLooksUp(j, a), P.GetAnswers(j)])
    ensures
      var w' := ServeAll(cfg, clock, w, [P.GetLooksUp(j, a), P.GetAnswers(j)]);
      var reply := Fetched(w.table, Some(a), clock, true);
      && w' == w.(answered := w.answered + AnswersOfGet(a, clock, reply))
      && (reply == NoContent || reply.Answered?)
  {
    var w1 := P.ServeStep(cfg, clock, w, P.GetLooksUp(j, a));
    ServesLast(cfg, clock, w1, P.GetAnswers(j));
    ServesNext(cfg, clock, w, P.GetLooksUp(j, a), [P.GetAnswers(j)]);
    assert [P.GetLooksUp(j, a)] + [P.GetAnswers(j)] == [P.GetLooksUp(j, a), P.GetAnswers(j)];
    assert w1.gets - {j} == w.gets;
  }

  // ---- Replies, one by one ----

  /** The status a reply is sent with. */
  function Status(r: Reply): nat {
    match r
    case Answered(_) => 200
    case NoContent => 204
    case BadRequest => 400
    case CaptchaFailed => 403
    case Internal => 500
  }

  /** The status of each submission, and that only a new signature changes the table. */
  lemma SubmitReplies(cfg: Config, table: Table, s: Submission)
    ensures
      var (table', reply) := Submitted(cfg, table, s);
      && (Status(reply) == 400 <==> s.client.None?)
      && (Status(reply) == 403 <==> s.client.Some? && s.verdict == Refused)
      && (Status(reply) == 500 <==>
            && s.client.Some? && s.verdict != Refused
            && (s.verdict == Broken || !s.finds
                || (!(s.client.value in table && s.now < table[s.client.value].expiry)
                    && (s.signature.None? || !s.stores))))
      && (Status(reply) == 200 || Status(reply) >= 400)
      && (Status(reply) != 200 ==> table' == table)
      && (Status(reply) == 200 ==>
            s.client.Some? && s.client.value in table' && reply == Answered(table'[s.client.value].token))
  {
  }

  /** The status of each GET. */
  lemma GetReplies(table: Table, client: Option<Address>, now: U64, finds: bool)
    ensures
      var reply := Fetched(table, client, now, finds);
      && (Status(reply) == 400 <==> client.None?)
      && (Status(reply) == 500 <==> client.Some? && !finds)
      && (Status(reply) == 204 <==>
            client.Some? && finds && (client.value in table ==> table[client.value].expiry <= now))
      && (Status(reply) in {200, 204, 400, 500})
      && (Status(reply) == 200 ==> client.value in table && reply == Answered(table[client.value].token))
  {
  }
}
