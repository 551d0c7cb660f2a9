/** Rates, stability and exposure when requests are served one at a time. */
module SerialIssue {
  import opened Types
  import opened Arithmetic
  import opened Fund
  import P = Protocol

  /** The table after the first `n` submissions. */
  function After(cfg: Config, t: Table, ops: seq<Submission>, n: nat): Table
    requires n <= |ops|
  {
    if n == 0 then t else Submitted(cfg, After(cfg, t, ops, n - 1), ops[n - 1]).0
  }

  /** The n-th submission signs and stores a token for `a`. */
  predicate Stores(cfg: Config, t: Table, ops: seq<Submission>, n: nat, a: Address)
    requires n < |ops|
  {
    Completes(ops[n]) && ops[n].client.value == a && !Holds(After(cfg, t, ops, n), a, ops[n].now)
  }

  predicate Ordered(ops: seq<Submission>) {
    forall i, j :: 0 <= i < j < |ops| ==> ops[i].now <= ops[j].now
  }

  lemma OneStep(cfg: Config, t: Table, ops: seq<Submission>, n: nat, a: Address)
    requires n < |ops|
    ensures var before, after := After(cfg, t, ops, n), After(cfg, t, ops, n + 1);
      if Stores(cfg, t, ops, n, a) then
        a in after && after[a].expiry == SaturatingAdd(ops[n].now, cfg.ttl)
                   && after[a].issuedUnix == ops[n].now && after[a].token.signer == a
      else
        P.GetGrant(after, a) == P.GetGrant(before, a)
  {
  }

  /** Once stored, a signer's expiry never falls below its first one. */
  lemma {:induction false} ExpiryHolds(cfg: Config, t: Table, ops: seq<Submission>, p: nat, q: nat, a: Address)
    requires Ordered(ops) && p < q <= |ops| && Stores(cfg, t, ops, p, a)
    ensures a in After(cfg, t, ops, q)
    ensures After(cfg, t, ops, q)[a].expiry >= SaturatingAdd(ops[p].now, cfg.ttl)
  {
    OneStep(cfg, t, ops, q - 1, a);
    if p == q - 1 {
    } else {
      ExpiryHolds(cfg, t, ops, p, q - 1, a);
    }
  }

  /** Two stored issues for one signer are a whole lifetime apart. */
  lemma IssuesAreSpaced(cfg: Config, t: Table, ops: seq<Submission>, p: nat, q: nat, a: Address)
    requires Ordered(ops) && p < q < |ops|
    requires Stores(cfg, t, ops, p, a) && Stores(cfg, t, ops, q, a)
    ensures ops[q].now >= SaturatingAdd(ops[p].now, cfg.ttl)
  {
    ExpiryHolds(cfg, t, ops, p, q, a);
  }

  /** A stored token stands until its expiry, whatever is submitted in between:
      every reply for its signer is that token. */
  lemma {:induction false} StoredTokenStands(
    cfg: Config, t: Table, ops: seq<Submission>, p: nat, n: nat, a: Address, now: U64)
    requires Ordered(ops) && p < n <= |ops| && Stores(cfg, t, ops, p, a)
    requires ops[n - 1].now <= now < SaturatingAdd(ops[p].now, cfg.ttl)
    ensures var stored := After(cfg, t, ops, p + 1)[a].token;
      && Fetched(After(cfg, t, ops, n), Some(a), now, true) == Answered(stored)
      && forall s: Submission ::
           s.client == Some(a) && s.verdict.Pass? && s.finds && s.now == now ==>
           Submitted(cfg, After(cfg, t, ops, n), s) == (After(cfg, t, ops, n), Answered(stored))
  {
    OneStep(cfg, t, ops, n - 1, a);
    if p == n - 1 {
    } else {
      StoredTokenStands(cfg, t, ops, p, n - 1, a, now);
    }
  }

  /** From its expiry on, GET answers 204 until a submission re-issues. */
  lemma {:induction false} ExpiredTokenIsAbsent(
    cfg: Config, t: Table, ops: seq<Submission>, p: nat, n: nat, a: Address, now: U64)
    requires p < n <= |ops| && Stores(cfg, t, ops, p, a)
    requires forall q: nat :: p < q < n ==> !Stores(cfg, t, ops, q, a)
    requires now >= SaturatingAdd(ops[p].now, cfg.ttl)
    ensures Fetched(After(cfg, t, ops, n), Some(a), now, true) == NoContent
  {
    OneStep(cfg, t, ops, n - 1, a);
    if p == n - 1 {
    } else {
      ExpiredTokenIsAbsent(cfg, t, ops, p, n - 1, a, now);
    }
  }

  /** GET answers 204 exactly when a captcha-passing POST would sign, that is,
      answer with the signature it drew and not with an earlier one. */
  lemma EmptyExactlyWhenSigning(cfg: Config, table: Table, a: Address, s: Submission)
    requires Completes(s) && s.client == Some(a)
    requires a in table ==> table[a].token.signature != s.signature.value
    ensures Fetched(table, Some(a), s.now, true) == NoContent <==>
            Submitted(cfg, table, s).1 == Answered(P.Issue(cfg, a, s.now, s.signature.value))
    ensures Fetched(table, Some(a), s.now, true) != NoContent ==>
            Submitted(cfg, table, s) == (table, Fetched(table, Some(a), s.now, true))
  {
  }

  // ---- Rate ----

  /** When tokens for `a` were stored, among the first `n` submissions. */
  function IssueTimes(cfg: Config, t: Table, ops: seq<Submission>, n: nat, a: Address): seq<U64>
    requires n <= |ops|
  {
    if n == 0 then [] else
      IssueTimes(cfg, t, ops, n - 1, a) + if Stores(cfg, t, ops, n - 1, a) then [ops[n - 1].now] else []
  }

  predicate Spaced(times: seq<U64>, gap: nat) {
    forall i, j :: 0 <= i < j < |times| ==> times[i] + gap <= times[j]
  }

  lemma {:induction false} IssueTimesCame(
    cfg: Config, t: Table, ops: seq<Submission>, n: nat, a: Address, j: nat) returns (p: nat)
    requires n <= |ops| && j < |IssueTimes(cfg, t, ops, n, a)|
    ensures p < n && Stores(cfg, t, ops, p, a) && IssueTimes(cfg, t, ops, n, a)[j] == ops[p].now
  {
    if j < |IssueTimes(cfg, t, ops, n - 1, a)| {
      p := IssueTimesCame(cfg, t, ops, n - 1, a, j);
    } else {
      p := n - 1;
    }
  }

  lemma {:induction false} IssueTimesSpaced(cfg: Config, t: Table, ops: seq<Submission>, n: nat, a: Address)
    requires Ordered(ops) && n <= |ops|
    requires forall s <- ops :: s.now + cfg.ttl <= U64_MAX
    ensures Spaced(IssueTimes(cfg, t, ops, n, a), cfg.ttl)
  {
    if n == 0 {
    } else {
      IssueTimesSpaced(cfg, t, ops, n - 1, a);
      var earlier := IssueTimes(cfg, t, ops, n - 1, a);
      if Stores(cfg, t, ops, n - 1, a) {
        forall j | 0 <= j < |earlier| ensures earlier[j] + cfg.ttl <= ops[n - 1].now {
          var p := IssueTimesCame(cfg, t, ops, n - 1, a, j);
          IssuesAreSpaced(cfg, t, ops, p, n - 1, a);
          assert ops[p] in ops;
        }
      }
    }
  }

  lemma {:induction false} SpacedSpan(times: seq<U64>, gap: nat, i: nat, j: nat)
    requires Spaced(times, gap) && i <= j < |times|
    ensures times[j] - times[i] >= (j - i) * gap
  {
    if i == j {
    } else {
      SpacedSpan(times, gap, i, j - 1);
      assert times[j - 1] + gap <= times[j];
    }
  }

  /** Any window of length `window` holds at most window / ttl + 1 issues per signer. */
  lemma IssueRate(
    cfg: Config, t: Table, ops: seq<Submission>, a: Address, i: nat, j: nat, window: nat)
    requires Ordered(ops) && cfg.ttl > 0
    requires forall s <- ops :: s.now + cfg.ttl <= U64_MAX
    requires i <= j < |IssueTimes(cfg, t, ops, |ops|, a)|
    requires IssueTimes(cfg, t, ops, |ops|, a)[j] - IssueTimes(cfg, t, ops, |ops|, a)[i] <= window
    ensures j - i + 1 <= window / cfg.ttl + 1
  {
    IssueTimesSpaced(cfg, t, ops, |ops|, a);
    SpacedSpan(IssueTimes(cfg, t, ops, |ops|, a), cfg.ttl, i, j);
    QuotientBound(j - i, cfg.ttl, window);
  }

  // ---- Exposure ----

  predicate StoresLive(cfg: Config, t: Table, ops: seq<Submission>, n: nat, at: U64)
    requires n < |ops|
  {
    && Completes(ops[n]) && Stores(cfg, t, ops, n, ops[n].client.value)
    && ops[n].now <= at < SaturatingAdd(ops[n].now, cfg.ttl)
  }

  /** The issues whose stored tokens are unexpired at `at`. */
  function Live(cfg: Config, t: Table, ops: seq<Submission>, at: U64): set<nat> {
    set n: nat | n < |ops| && StoresLive(cfg, t, ops, n, at)
  }

  function Signers(ops: seq<Submission>): set<Address> {
    set n: nat | n < |ops| && ops[n].client.Some? :: ops[n].client.value
  }

  lemma OneLiveTokenPerSigner(cfg: Config, t: Table, ops: seq<Submission>, at: U64, p: nat, q: nat)
    requires Ordered(ops) && p in Live(cfg, t, ops, at) && q in Live(cfg, t, ops, at)
    requires ops[p].client == ops[q].client
    ensures p == q
  {
    if p < q {
      IssuesAreSpaced(cfg, t, ops, p, q, ops[p].client.value);
    } else if q < p {
      IssuesAreSpaced(cfg, t, ops, q, p, ops[p].client.value);
    }
  }

  lemma {:induction false} DistinctClients(ops: seq<Submission>, live: set<nat>, signers: set<Address>)
    requires forall p <- live :: p < |ops| && ops[p].client.Some? && ops[p].client.value in signers
    requires forall p <- live, q <- live :: ops[p].client == ops[q].client ==> p == q
    ensures |live| <= |signers|
  {
    if live == {} {
    } else {
      var p :| p in live;
      DistinctClients(ops, live - {p}, signers - {ops[p].client.value});
    }
  }

  /** What the table holds for the client of submission `n` once it is served. */
  function StoredBy(cfg: Config, t: Table, ops: seq<Submission>, n: nat): (g: Grant)
    requires n < |ops| && ops[n].client.Some? && Stores(cfg, t, ops, n, ops[n].client.value)
    ensures g.expiry == SaturatingAdd(ops[n].now, cfg.ttl) && g.spendingCap == cfg.cap
  {
    OneStep(cfg, t, ops, n, ops[n].client.value);
    After(cfg, t, ops, n + 1)[ops[n].client.value].token
  }

  /** The spending caps, added up, of all tokens stored by the first `n` submissions
      and unexpired at `at`. */
  function LiveWorth(cfg: Config, t: Table, ops: seq<Submission>, at: U64, n: nat): nat
    requires n <= |ops|
  {
    if n == 0 then 0 else
      LiveWorth(cfg, t, ops, at, n - 1) +
      if ops[n - 1].client.Some? && Stores(cfg, t, ops, n - 1, ops[n - 1].client.value)
         && ops[n - 1].now <= at < StoredBy(cfg, t, ops, n - 1).expiry
      then StoredBy(cfg, t, ops, n - 1).spendingCap else 0
  }

  function LiveUpTo(cfg: Config, t: Table, ops: seq<Submission>, at: U64, n: nat): set<nat>
    requires n <= |ops|
  {
    set i: nat | i < n && StoresLive(cfg, t, ops, i, at)
  }

  lemma OneMoreWorth(cfg: Config, t: Table, ops: seq<Submission>, at: U64, n: nat)
    requires n < |ops|
    ensures LiveWorth(cfg, t, ops, at, n + 1)
         == LiveWorth(cfg, t, ops, at, n) + if StoresLive(cfg, t, ops, n, at) then cfg.cap else 0
  {
  }

  lemma OneMoreLive(cfg: Config, t: Table, ops: seq<Submission>, at: U64, n: nat)
    requires n < |ops|
    ensures LiveUpTo(cfg, t, ops, at, n + 1)
         == LiveUpTo(cfg, t, ops, at, n) + if StoresLive(cfg, t, ops, n, at) then {n} else {}
  {
  }

  lemma {:induction false} WorthOfLive(cfg: Config, t: Table, ops: seq<Submission>, at: U64, n: nat)
    requires n <= |ops|
    ensures LiveWorth(cfg, t, ops, at, n) == |LiveUpTo(cfg, t, ops, at, n)| * cfg.cap
  {
    if n == 0 {
    } else {
      var k := n - 1;
      WorthOfLive(cfg, t, ops, at, k);
      OneMoreWorth(cfg, t, ops, at, k);
      OneMoreLive(cfg, t, ops, at, k);
      Product(|LiveUpTo(cfg, t, ops, at, k)|, cfg.cap);
    }
  }

  /** At every instant the unexpired tokens in circulation since the table was empty
      are worth, all together, at most the cap times the number of signers that
      ever asked. */
  lemma LiveExposure(cfg: Config, ops: seq<Submission>, at: U64)
    requires Ordered(ops)
    ensures LiveWorth(cfg, map[], ops, at, |ops|) <= |Signers(ops)| * cfg.cap
  {
    var live := Live(cfg, map[], ops, at);
    forall p, q | p in live && q in live && ops[p].client == ops[q].client ensures p == q {
      OneLiveTokenPerSigner(cfg, map[], ops, at, p, q);
    }
    DistinctClients(ops, live, Signers(ops));
    WorthOfLive(cfg, map[], ops, at, |ops|);
    assert LiveUpTo(cfg, map[], ops, at, |ops|) == live;
    ProductGrows(|live|, |Signers(ops)|, cfg.cap);
  }
}
