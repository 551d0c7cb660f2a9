/** `installer.rs` and the captcha page: configuration values put into templates. */
module Installer {
  import Types
  import opened ReleaseTag
  import opened Templates
  import opened Numerals

  /** The configuration values `render` uses; addresses as they are printed. */
  datatype ServerConfig = ServerConfig(
    decdnRelease: ReleasePin, wrapperRelease: ReleasePin,
    publicUrl: string, rpcUrl: string,
    paymentPool: string, capacityBond: string, chainId: nat)

  function Substitutions(cfg: ServerConfig): seq<(string, string)> {
    [ ("DECDN_RELEASE", cfg.decdnRelease.tag),
      ("DECDN_SUMS_SHA256", cfg.decdnRelease.sumsSha256),
      ("WRAPPER_RELEASE", cfg.wrapperRelease.tag),
      ("WRAPPER_SUMS_SHA256", cfg.wrapperRelease.sumsSha256),
      ("GATEWAY_BASE", cfg.publicUrl),
      ("RPC_URL", cfg.rpcUrl),
      ("PAYMENT_POOL", cfg.paymentPool),
      ("CAPACITY_BOND", cfg.capacityBond),
      ("CHAIN_ID", Decimal(cfg.chainId)) ]
  }

  function Render(template: string, cfg: ServerConfig): string {
    Passes(template, Substitutions(cfg))
  }

  predicate IsAddressText(s: string) {
    |s| == 42 && s[..2] == "0x" && forall c <- s[2..] :: IsHexDigit(c)
  }

  /** Pins come from `ReleasePin::new`; only the two URLs are free text. */
  predicate Configured(cfg: ServerConfig) {
    && Accepts(cfg.decdnRelease.tag, cfg.decdnRelease.sumsSha256)
    && Accepts(cfg.wrapperRelease.tag, cfg.wrapperRelease.sumsSha256)
    && IsAddressText(cfg.paymentPool) && IsAddressText(cfg.capacityBond)
  }

  lemma NamesAreBraceless(cfg: ServerConfig, i: nat)
    requires i < 9
    ensures Braceless(Substitutions(cfg)[i].0)
  {
  }

  /** Which configuration value stands for which placeholder, as documented. */
  predicate Documented(cfg: ServerConfig, values: map<string, string>) {
    && Maps(values, "GATEWAY_BASE", cfg.publicUrl)
    && Maps(values, "RPC_URL", cfg.rpcUrl)
    && Maps(values, "PAYMENT_POOL", cfg.paymentPool)
    && Maps(values, "CAPACITY_BOND", cfg.capacityBond)
    && "CHAIN_ID" in values && Denotes(values["CHAIN_ID"], cfg.chainId)
    && Maps(values, "DECDN_RELEASE", cfg.decdnRelease.tag)
    && Maps(values, "DECDN_SUMS_SHA256", cfg.decdnRelease.sumsSha256)
    && Maps(values, "WRAPPER_RELEASE", cfg.wrapperRelease.tag)
    && Maps(values, "WRAPPER_SUMS_SHA256", cfg.wrapperRelease.sumsSha256)
  }

  lemma NamesDiffer(cfg: ServerConfig, i: nat, j: nat)
    requires i < j < 9
    ensures Substitutions(cfg)[i].0 != Substitutions(cfg)[j].0
  {
  }

  lemma SubstitutionsAreDistinct(cfg: ServerConfig)
    ensures DistinctNames(Substitutions(cfg))
  {
    forall i, j | 0 <= i < j < 9 ensures Substitutions(cfg)[i].0 != Substitutions(cfg)[j].0 {
      NamesDiffer(cfg, i, j);
    }
  }

  lemma NthValue(cfg: ServerConfig, i: nat, name: string, value: string)
    requires i < 9 && Substitutions(cfg)[i] == (name, value)
    ensures Maps(Values(Substitutions(cfg)), name, value)
  {
    SubstitutionsAreDistinct(cfg);
    assert Substitutions(cfg)[i] in Substitutions(cfg);
    ValuesAreMembers(Substitutions(cfg), name, value);
  }

  lemma ValuesAreDocumented(cfg: ServerConfig)
    ensures Documented(cfg, Values(Substitutions(cfg)))
  {
    NthValue(cfg, 0, "DECDN_RELEASE", cfg.decdnRelease.tag);
    NthValue(cfg, 1, "DECDN_SUMS_SHA256", cfg.decdnRelease.sumsSha256);
    NthValue(cfg, 2, "WRAPPER_RELEASE", cfg.wrapperRelease.tag);
    NthValue(cfg, 3, "WRAPPER_SUMS_SHA256", cfg.wrapperRelease.sumsSha256);
    NthValue(cfg, 4, "GATEWAY_BASE", cfg.publicUrl);
    NthValue(cfg, 5, "RPC_URL", cfg.rpcUrl);
    NthValue(cfg, 6, "PAYMENT_POOL", cfg.paymentPool);
    NthValue(cfg, 7, "CAPACITY_BOND", cfg.capacityBond);
    NthValue(cfg, 8, "CHAIN_ID", Decimal(cfg.chainId));
    DecimalDenotes(cfg.chainId);
  }

  // ---- When rendering is one simultaneous substitution ----

  /** The condition on the two URLs: what a later pass looks for is neither in them
      nor begun at their end; or it is the RPC URL's own placeholder, configured to
      stand for itself. */
  predicate UrlsSettle(publicUrl: string, rpcUrl: string) {
    && (Inert(publicUrl, "RPC_URL") || rpcUrl == Mark("RPC_URL"))
    && Inert(publicUrl, "PAYMENT_POOL") && Inert(rpcUrl, "PAYMENT_POOL")
    && Inert(publicUrl, "CAPACITY_BOND") && Inert(rpcUrl, "CAPACITY_BOND")
    && Inert(publicUrl, "CHAIN_ID") && Inert(rpcUrl, "CHAIN_ID")
  }

  /** Rendering any template puts each value in its place. */
  ghost predicate RendersAll(cfg: ServerConfig) {
    forall ps :: IsTemplate(ps) ==> RendersOne(cfg, ps)
  }

  predicate RendersOne(cfg: ServerConfig, ps: seq<Piece>) {
    Render(Flatten(ps), cfg) == Flatten(FillAll(ps, Values(Substitutions(cfg))))
  }

  /** All values but the two URLs are free of braces. */
  lemma OtherValuesAreBracefree(cfg: ServerConfig, i: nat)
    requires Configured(cfg) && i < 9 && i != 4 && i != 5
    ensures '{' !in Substitutions(cfg)[i].1
  {
    PinIsInert(cfg.decdnRelease.tag, cfg.decdnRelease.sumsSha256);
    PinIsInert(cfg.wrapperRelease.tag, cfg.wrapperRelease.sumsSha256);
    assert cfg.paymentPool == "0x" + cfg.paymentPool[2..];
    assert cfg.capacityBond == "0x" + cfg.capacityBond[2..];
  }

  lemma LaterSettles(cfg: ServerConfig, i: nat, j: nat)
    requires Configured(cfg) && UrlsSettle(cfg.publicUrl, cfg.rpcUrl) && i < j < 9
    ensures Settles(Substitutions(cfg)[i].1, Substitutions(cfg)[j])
  {
    if i != 4 && i != 5 {
      OtherValuesAreBracefree(cfg, i);
      BracefreeIsInert(Substitutions(cfg)[i].1, Substitutions(cfg)[j].0);
    }
  }

  lemma SubstitutionsAreSettled(cfg: ServerConfig)
    requires Configured(cfg) && UrlsSettle(cfg.publicUrl, cfg.rpcUrl)
    ensures Settled(Substitutions(cfg))
  {
    var subs := Substitutions(cfg);
    forall s | s in subs ensures Braceless(s.0) {
      var i: nat :| i < |subs| && subs[i] == s;
      NamesAreBraceless(cfg, i);
    }
    forall i, j | 0 <= i < j < |subs| ensures Settles(subs[i].1, subs[j]) {
      LaterSettles(cfg, i, j);
    }
  }

  /** The passes before that for the `h`-th name leave its placeholder alone. */
  lemma EarlierPassesMiss(cfg: ServerConfig, h: nat, rest: string)
    requires h < 9 && Plain(rest)
    ensures var ps := [Hole(Substitutions(cfg)[h].0), Lit(rest)];
      IsTemplate(ps) && Passes(Flatten(ps), Substitutions(cfg)[..h]) == Flatten(ps)
  {
    var subs := Substitutions(cfg);
    var ps := [Hole(subs[h].0), Lit(rest)];
    NamesAreBraceless(cfg, h);
    forall s | s in subs[..h] ensures Braceless(s.0) && Hole(s.0) !in ps {
      var i: nat :| i < h && subs[i] == s;
      NamesAreBraceless(cfg, i);
      NamesDiffer(cfg, i, h);
    }
    PassesMiss(ps, subs[..h]);
  }

  /** The template for a URL, followed by text. */
  lemma UrlReaches(cfg: ServerConfig, h: nat, rest: string)
    requires h < 9 && Plain(rest)
    ensures var name, v := Substitutions(cfg)[h].0, Substitutions(cfg)[h].1;
      var ps := [Hole(name), Lit(rest)];
      && IsTemplate(ps)
      && Render(Flatten(ps), cfg) == Passes(v + rest, Substitutions(cfg)[h + 1..])
      && Flatten(FillAll(ps, Values(Substitutions(cfg)))) == v + rest
  {
    var subs := Substitutions(cfg);
    var (name, v) := subs[h];
    var ps := [Hole(name), Lit(rest)];
    NamesAreBraceless(cfg, h);
    EarlierPassesMiss(cfg, h, rest);
    PassesJoin(Flatten(ps), subs[..h], subs[h..]);
    assert subs[..h] + subs[h..] == subs && subs[h..][1..] == subs[h + 1..];
    ReplaceAnyIsFill(ps, name, v);
    NthValue(cfg, h, name, v);
    TwoPieces(name, v, rest, Values(subs));
  }

  lemma TwoPieces(name: string, v: string, rest: string, values: map<string, string>)
    requires Maps(values, name, v)
    ensures var ps := [Hole(name), Lit(rest)];
      Flatten(Fill(ps, name, v)) == v + rest && Flatten(FillAll(ps, values)) == v + rest
  {
    var ps := [Hole(name), Lit(rest)];
    assert ps[1..] == [Lit(rest)] && ps[1..][1..] == [];
    var filled := [Lit(v), Lit(rest)];
    assert Fill(ps, name, v) == filled && FillAll(ps, values) == filled;
    assert filled[1..] == [Lit(rest)] && filled[1..][1..] == [];
    assert Flatten([Lit(rest)]) == rest + "" == rest;
  }

  lemma NthHasNoDigits(cfg: ServerConfig, i: nat)
    requires 6 <= i < 9
    ensures Digits(Mark(Substitutions(cfg)[i].0)) == 0
  {
    NoDigits(Mark(Substitutions(cfg)[i].0));
  }

  lemma NthAddsDigits(cfg: ServerConfig, i: nat)
    requires Configured(cfg) && 6 <= i < 9
    ensures Digits(Substitutions(cfg)[i].1) > 0
  {
    var v := Substitutions(cfg)[i].1;
    assert v[0] in v;
    SomeDigit(v);
  }

  /** The last three passes insert digits, and their placeholders have none. */
  lemma LastPassesAddDigits(cfg: ServerConfig)
    requires Configured(cfg)
    ensures AddDigits(Substitutions(cfg)[6..])
  {
    var last := Substitutions(cfg)[6..];
    forall s | s in last ensures Digits(Mark(s.0)) == 0 && Digits(s.1) > 0 {
      var i: nat :| i < |last| && last[i] == s;
      NthHasNoDigits(cfg, i + 6);
      NthAddsDigits(cfg, i + 6);
    }
  }

  lemma {:induction false} NoDigits(s: string)
    requires forall c <- s :: !IsDigit(c)
    ensures Digits(s) == 0
  {
    if s == "" {
    } else {
      assert s[0] in s && forall c <- s[1..] :: c in s;
      NoDigits(s[1..]);
    }
  }

  lemma SomeDigit(s: string)
    requires s != "" && IsDigit(s[0])
    ensures Digits(s) > 0
  {
  }

  /** If a URL is not inert for one of the last three names, some template shows it. */
  lemma LastThreeShow(cfg: ServerConfig, h: nat, m: nat) returns (ps: seq<Piece>)
    requires Configured(cfg) && h < 6 <= m < 9
    requires h == 4 || h == 5
    requires !Inert(Substitutions(cfg)[h].1, Substitutions(cfg)[m].0)
    ensures IsTemplate(ps) && !RendersOne(cfg, ps)
  {
    var subs := Substitutions(cfg);
    var (name, v) := subs[h];
    NamesAreBraceless(cfg, m);
    var rest := Completion(v, subs[m].0);
    ps := [Hole(name), Lit(rest)];
    UrlReaches(cfg, h, rest);
    LastPassesAddDigits(cfg);
    assert subs[m] in subs[6..] by { assert subs[6..][m - 6] == subs[m]; }
    if h == 5 {
      DigitsTell(v + rest, subs[6..]);
    } else {
      RpcThenLast(cfg, v + rest);
      ReplaceAddsDigits(v + rest, Mark("RPC_URL"), cfg.rpcUrl);
      DigitsTell(Replace(v + rest, Mark("RPC_URL"), cfg.rpcUrl), subs[6..]);
    }
  }

  lemma RpcThenLast(cfg: ServerConfig, s: string)
    ensures Passes(s, Substitutions(cfg)[5..])
         == Passes(Replace(s, Mark("RPC_URL"), cfg.rpcUrl), Substitutions(cfg)[6..])
    ensures Digits(Mark("RPC_URL")) == 0
  {
    assert Substitutions(cfg)[5..][1..] == Substitutions(cfg)[6..];
    NoDigits(Mark("RPC_URL"));
  }

  /** So does a public URL that is not inert for the RPC URL's placeholder. */
  lemma RpcShows(cfg: ServerConfig) returns (ps: seq<Piece>)
    requires Configured(cfg) && !Inert(cfg.publicUrl, "RPC_URL") && cfg.rpcUrl != Mark("RPC_URL")
    ensures IsTemplate(ps) && !RendersOne(cfg, ps)
  {
    var subs := Substitutions(cfg);
    NamesAreBraceless(cfg, 5);
    var rest := Completion(cfg.publicUrl, "RPC_URL");
    ps := [Hole("GATEWAY_BASE"), Lit(rest)];
    var s := cfg.publicUrl + rest;
    UrlReaches(cfg, 4, rest);
    LastPassesAddDigits(cfg);
    RpcThenLast(cfg, s);
    ReplaceChanges(s, Mark("RPC_URL"), cfg.rpcUrl);
    ReplaceAddsDigits(s, Mark("RPC_URL"), cfg.rpcUrl);
    DigitsTell(Replace(s, Mark("RPC_URL"), cfg.rpcUrl), subs[6..]);
  }

  /** Rendering puts each documented value in its place, whatever the template, if
      and only if the URLs settle. */
  lemma RenderIsSimultaneous(cfg: ServerConfig)
    requires Configured(cfg)
    ensures Documented(cfg, Values(Substitutions(cfg)))
    ensures RendersAll(cfg) <==> UrlsSettle(cfg.publicUrl, cfg.rpcUrl)
  {
    ValuesAreDocumented(cfg);
    if UrlsSettle(cfg.publicUrl, cfg.rpcUrl) {
      SubstitutionsAreSettled(cfg);
      forall ps | IsTemplate(ps) ensures RendersOne(cfg, ps) {
        PassesAreSimultaneous(ps, Substitutions(cfg));
      }
    } else if !Inert(cfg.publicUrl, "RPC_URL") && cfg.rpcUrl != Mark("RPC_URL") {
      var ps := RpcShows(cfg);
    } else {
      var (h, m) := Unsettled(cfg);
      var ps := LastThreeShow(cfg, h, m);
    }
  }

  /** Which URL is not inert for which of the last three names. */
  function Unsettled(cfg: ServerConfig): (hm: (nat, nat))
    requires !UrlsSettle(cfg.publicUrl, cfg.rpcUrl)
    requires Inert(cfg.publicUrl, "RPC_URL") || cfg.rpcUrl == Mark("RPC_URL")
    ensures (hm.0 == 4 || hm.0 == 5) && 6 <= hm.1 < 9
    ensures !Inert(Substitutions(cfg)[hm.0].1, Substitutions(cfg)[hm.1].0)
  {
    if !Inert(cfg.publicUrl, "PAYMENT_POOL") then (4, 6)
    else if !Inert(cfg.publicUrl, "CAPACITY_BOND") then (4, 7)
    else if !Inert(cfg.publicUrl, "CHAIN_ID") then (4, 8)
    else if !Inert(cfg.rpcUrl, "PAYMENT_POOL") then (5, 6)
    else if !Inert(cfg.rpcUrl, "CAPACITY_BOND") then (5, 7)
    else (5, 8)
  }

  lemma {:induction false} ValuesComeFrom(subs: seq<(string, string)>, n: string)
    requires n in Values(subs)
    ensures (n, Values(subs)[n]) in subs
  {
    if n == subs[0].0 {
    } else {
      ValuesComeFrom(subs[1..], n);
    }
  }

  /** With URLs in which no two opening braces meet, no placeholder with a value is
      left, and no other pair of opening braces appears. */
  lemma NoPlaceholderIsLeft(ps: seq<Piece>, cfg: ServerConfig)
    requires IsTemplate(ps) && Configured(cfg) && Plain(cfg.publicUrl) && Plain(cfg.rpcUrl)
    requires forall p <- ps :: p.Hole? ==> p.name in Values(Substitutions(cfg))
    ensures RendersOne(cfg, ps) && NoDouble(Render(Flatten(ps), cfg))
  {
    var subs := Substitutions(cfg);
    forall i: nat | i < 9 ensures Inert(cfg.publicUrl, subs[i].0) && Inert(cfg.rpcUrl, subs[i].0) {
      PlainIsInert(cfg.publicUrl, subs[i].0);
      PlainIsInert(cfg.rpcUrl, subs[i].0);
    }
    assert UrlsSettle(cfg.publicUrl, cfg.rpcUrl) by {
      assert subs[5].0 == "RPC_URL" && subs[6].0 == "PAYMENT_POOL";
      assert subs[7].0 == "CAPACITY_BOND" && subs[8].0 == "CHAIN_ID";
    }
    RenderIsSimultaneous(cfg);
    forall n | n in Values(subs) ensures Plain(Values(subs)[n]) {
      ValuesComeFrom(subs, n);
      var i: nat :| i < 9 && subs[i] == (n, Values(subs)[n]);
      if i != 4 && i != 5 {
        OtherValuesAreBracefree(cfg, i);
        BracefreeIsInert(subs[i].1, n);
      }
    }
    NothingLeft(ps, Values(subs));
  }

  /** All placeholders of the template have a value. */
  ghost predicate Known(cfg: ServerConfig, ps: seq<Piece>) {
    IsTemplate(ps) && forall p <- ps :: p.Hole? ==> p.name in Values(Substitutions(cfg))
  }

  ghost predicate LeavesNone(cfg: ServerConfig) {
    forall ps :: Known(cfg, ps) ==> NoDouble(Render(Flatten(ps), cfg))
  }

  /** Some template text makes two opening braces of a value that is not plain. */
  lemma DoubleShows(v: string) returns (rest: string)
    requires !Plain(v)
    ensures Plain(rest) && !NoDouble(v + rest)
  {
    if NoDouble(v) {
      rest := "{x";
      assert (v + rest)[|v| - 1] == '{' && (v + rest)[|v|] == '{';
    } else {
      rest := "";
      assert v + rest == v;
    }
  }

  lemma UrlIsKnown(cfg: ServerConfig, h: nat, name: string, rest: string)
    requires h < 9 && Substitutions(cfg)[h].0 == name && Plain(rest)
    ensures Known(cfg, [Hole(name), Lit(rest)])
  {
    NamesAreBraceless(cfg, h);
    NthValue(cfg, h, name, Substitutions(cfg)[h].1);
  }

  lemma UrlShows(cfg: ServerConfig, h: nat) returns (ps: seq<Piece>)
    requires Configured(cfg) && UrlsSettle(cfg.publicUrl, cfg.rpcUrl)
    requires h < 9 && !Plain(Substitutions(cfg)[h].1)
    ensures Known(cfg, ps) && !NoDouble(Render(Flatten(ps), cfg))
  {
    var (name, v) := Substitutions(cfg)[h];
    var rest := DoubleShows(v);
    ps := [Hole(name), Lit(rest)];
    UrlIsKnown(cfg, h, name, rest);
    UrlReaches(cfg, h, rest);
    SettledRenders(cfg, ps);
  }

  lemma SettledRenders(cfg: ServerConfig, ps: seq<Piece>)
    requires Configured(cfg) && UrlsSettle(cfg.publicUrl, cfg.rpcUrl) && IsTemplate(ps)
    ensures RendersOne(cfg, ps)
  {
    SubstitutionsAreSettled(cfg);
    PassesAreSimultaneous(ps, Substitutions(cfg));
  }

  /** When rendering is one substitution, it leaves no two opening braces in a row in
      any template whose placeholders all have a value, if and only if neither URL has
      two in a row or ends in one. */
  lemma NoneIsLeftExactly(cfg: ServerConfig)
    requires Configured(cfg) && UrlsSettle(cfg.publicUrl, cfg.rpcUrl)
    ensures LeavesNone(cfg) <==> Plain(cfg.publicUrl) && Plain(cfg.rpcUrl)
  {
    if Plain(cfg.publicUrl) && Plain(cfg.rpcUrl) {
      forall ps | Known(cfg, ps) ensures NoDouble(Render(Flatten(ps), cfg)) { NoPlaceholderIsLeft(ps, cfg); }
    } else {
      var ps := UrlShows(cfg, if Plain(cfg.publicUrl) then 5 else 4);
    }
  }

  // ---- The order of the nine passes ----

  /** `subs` is the nine names and values in some order. */
  ghost predicate Rearranged(subs: seq<(string, string)>, cfg: ServerConfig) {
    DistinctNames(subs) && forall s :: s in subs <==> s in Substitutions(cfg)
  }

  /** Any rearrangement of the nine passes that is settled renders the same. */
  lemma RenderOrderIsFree(ps: seq<Piece>, cfg: ServerConfig, subs: seq<(string, string)>)
    requires IsTemplate(ps) && Configured(cfg) && UrlsSettle(cfg.publicUrl, cfg.rpcUrl)
    requires Rearranged(subs, cfg) && Settled(subs)
    ensures Passes(Flatten(ps), subs) == Render(Flatten(ps), cfg)
  {
    SubstitutionsAreSettled(cfg);
    SubstitutionsAreDistinct(cfg);
    PassOrderIsFree(ps, Substitutions(cfg), subs);
  }

  /** With URLs that are inert for all nine names, every rearrangement is settled. */
  lemma EveryOrderIsSettled(cfg: ServerConfig, subs: seq<(string, string)>)
    requires Configured(cfg) && Rearranged(subs, cfg)
    requires forall s <- subs :: Inert(cfg.publicUrl, s.0) && Inert(cfg.rpcUrl, s.0)
    ensures Settled(subs)
  {
    forall i, j | 0 <= i < |subs| && 0 <= j < |subs|
      ensures Braceless(subs[i].0) && Settles(subs[i].1, subs[j])
    {
      assert subs[i] in subs && subs[j] in subs;
      InertInAnyOrder(cfg, subs[i], subs[j]);
    }
  }

  lemma InertInAnyOrder(cfg: ServerConfig, s: (string, string), t: (string, string))
    requires Configured(cfg) && s in Substitutions(cfg)
    requires Inert(cfg.publicUrl, t.0) && Inert(cfg.rpcUrl, t.0)
    ensures Braceless(s.0) && Settles(s.1, t)
  {
    var i: nat :| i < 9 && Substitutions(cfg)[i] == s;
    NamesAreBraceless(cfg, i);
    if i != 4 && i != 5 {
      OtherValuesAreBracefree(cfg, i);
      BracefreeIsInert(s.1, t.0);
    }
  }

  // ---- A placeholder in a URL ----

  lemma ChainIsMissed(cfg: ServerConfig)
    ensures Passes(Mark("CHAIN_ID"), Substitutions(cfg)[5..8]) == Mark("CHAIN_ID")
  {
    var ps, subs := [Hole("CHAIN_ID")], Substitutions(cfg)[5..8];
    assert ps[1..] == [] && Flatten(ps) == Mark("CHAIN_ID") + "" == Mark("CHAIN_ID");
    forall s | s in subs ensures Braceless(s.0) && Hole(s.0) !in ps {
      var i: nat :| i < 3 && subs[i] == s;
      NamesAreBraceless(cfg, i + 5);
      NamesDiffer(cfg, i + 5, 8);
    }
    PassesMiss(ps, subs);
  }

  lemma ChainIsFilled(cfg: ServerConfig)
    ensures Passes(Mark("CHAIN_ID"), Substitutions(cfg)[5..]) == Decimal(cfg.chainId)
  {
    var subs := Substitutions(cfg);
    ChainIsMissed(cfg);
    PassesJoin(Mark("CHAIN_ID"), subs[5..8], subs[8..]);
    assert subs[5..8] + subs[8..] == subs[5..] && subs[8..][1..] == [];
    ReplaceFillsHole("CHAIN_ID", "", Decimal(cfg.chainId));
    assert Mark("CHAIN_ID") + "" == Mark("CHAIN_ID") && Decimal(cfg.chainId) + "" == Decimal(cfg.chainId);
  }

  /** A placeholder inside a value is replaced by a later pass. */
  lemma PlaceholderIsReplacedAgain(cfg: ServerConfig)
    requires cfg.publicUrl == Mark("CHAIN_ID")
    ensures !UrlsSettle(cfg.publicUrl, cfg.rpcUrl)
    ensures var ps := [Hole("GATEWAY_BASE"), Lit("")];
      && IsTemplate(ps)
      && Render(Flatten(ps), cfg) == Decimal(cfg.chainId)
      && Flatten(FillAll(ps, Values(Substitutions(cfg)))) == Mark("CHAIN_ID")
  {
    UrlReaches(cfg, 4, "");
    assert Mark("CHAIN_ID") + "" == Mark("CHAIN_ID") == Mark("CHAIN_ID")[0..];
    ChainIsFilled(cfg);
  }

  const ZERO_PIN: ReleasePin := ReleasePin("v0.0.0", seq(64, _ => '0'))
  const ZERO_ADDRESS: string := "0x" + seq(40, _ => '0')

  /** Accepted by the gateway, with a placeholder in its public URL. */
  const PLACEHOLDER_URL: ServerConfig :=
    ServerConfig(ZERO_PIN, ZERO_PIN, Mark("CHAIN_ID"), "https://rpc", ZERO_ADDRESS, ZERO_ADDRESS, 1)

  lemma PlaceholderUrlIsConfigured()
    ensures Configured(PLACEHOLDER_URL)
  {
    var v := Version("0", "0", "0", Types.None);
    assert v.Wf() && v.Print() == "v0.0.0";
    PrintedIsAccepted(v);
    assert IsDigest(ZERO_PIN.sumsSha256);
    assert ZERO_ADDRESS[..2] == "0x" && ZERO_ADDRESS[2..] == seq(40, _ => '0');
  }

  lemma OneIsOne()
    ensures Decimal(1) == "1" && Mark("CHAIN_ID") == "{{CHAIN_ID}}"
    ensures Flatten([Hole("GATEWAY_BASE"), Lit("")]) == "{{GATEWAY_BASE}}"
  {
    var ps := [Hole("GATEWAY_BASE"), Lit("")];
    assert ps[1..] == [Lit("")] && ps[1..][1..] == [];
    assert Flatten(ps[1..]) == "" + "" == "";
  }

  /** The page that should name the gateway names the chain. */
  lemma PlaceholderInUrlIsReplacedAgain()
    ensures Configured(PLACEHOLDER_URL)
    ensures !UrlsSettle(PLACEHOLDER_URL.publicUrl, PLACEHOLDER_URL.rpcUrl)
    ensures var ps := [Hole("GATEWAY_BASE"), Lit("")];
      && IsTemplate(ps) && Flatten(ps) == "{{GATEWAY_BASE}}"
      && Render(Flatten(ps), PLACEHOLDER_URL) == "1"
      && Flatten(FillAll(ps, Values(Substitutions(PLACEHOLDER_URL)))) == "{{CHAIN_ID}}"
  {
    OneIsOne();
    PlaceholderUrlIsConfigured();
    PlaceholderIsReplacedAgain(PLACEHOLDER_URL);
  }

  // ---- The captcha page ----

  /** Digits and letters of either case, by their ranges. */
  predicate HexRange(c: char) {
    '0' <= c <= '9' || 'a' <= c <= 'f' || 'A' <= c <= 'F'
  }

  lemma HexByIndex(s: string, n: nat)
    ensures HexDigits(s, n) <==> |s| == n && forall i :: 0 <= i < n ==> HexRange(s[i])
  {
    if HexDigits(s, n) {
      forall i | 0 <= i < n ensures HexRange(s[i]) { assert s[i] in s; }
    }
  }

  /** The clients the page admits: 40 hex characters, bare or after `0x`. */
  lemma AdmitsExactly(client: string)
    ensures IsHexOfLen(client, 40) <==>
      || (|client| == 40 && forall i :: 0 <= i < 40 ==> HexRange(client[i]))
      || (|client| == 42 && client[0] == '0' && client[1] == 'x'
          && forall i :: 2 <= i < 42 ==> HexRange(client[i]))
  {
    assert |client| >= 2 ==> client[..2] == [client[0], client[1]];
    if "0x" <= client {
      var digits := client[2..];
      HexByIndex(digits, 40);
      assert client[0] == '0' && client[1] == 'x' && !HexRange(client[1]);
      assert forall i :: 0 <= i < |digits| ==> digits[i] == client[i + 2];
      assert forall i :: 2 <= i < |client| ==> client[i] == digits[i - 2];
    } else {
      HexByIndex(client, 40);
    }
  }

  predicate HexDigits(digits: string, n: nat) {
    |digits| == n && forall c <- digits :: IsHexDigit(c)
  }

  /** `is_hex_of_len`: the page's only guard on the client it embeds. */
  predicate IsHexOfLen(s: string, n: nat) {
    HexDigits(if "0x" <= s then s[2..] else s, n)
  }

  function PageSubstitutions(sitekey: string, client: string): seq<(string, string)> {
    [("SITEKEY", sitekey), ("CLIENT", client)]
  }

  predicate PageIsFilled(sitekey: string, client: string, ps: seq<Piece>) {
    var subs := PageSubstitutions(sitekey, client);
    Passes(Flatten(ps), subs) == Flatten(FillAll(ps, Values(subs)))
  }

  lemma ClientIsBracefree(client: string)
    requires IsHexOfLen(client, 40)
    ensures '{' !in client
  {
    if "0x" <= client { assert client == "0x" + client[2..]; }
  }

  /** A sitekey that is not inert for the client's placeholder is shown by some page. */
  lemma PageShows(sitekey: string, client: string) returns (ps: seq<Piece>)
    requires !Inert(sitekey, "CLIENT") && '{' !in client
    ensures IsTemplate(ps) && !PageIsFilled(sitekey, client, ps)
  {
    var subs := PageSubstitutions(sitekey, client);
    var rest := Completion(sitekey, "CLIENT");
    ps := [Hole("SITEKEY"), Lit(rest)];
    assert Maps(Values(subs), "SITEKEY", sitekey);
    TwoPieces("SITEKEY", sitekey, rest, Values(subs));
    ReplaceAnyIsFill(ps, "SITEKEY", sitekey);
    assert Mark("CLIENT")[0] == '{';
    ReplaceChanges(sitekey + rest, Mark("CLIENT"), client);
    TwoPasses(Flatten(ps), subs[0], subs[1]);
  }

  /** `GET /fund`: for every client its guard admits, the two passes are one
      substitution, whatever the page, if and only if the sitekey contains no
      placeholder for the client and does not end in the start of one. */
  lemma FundPageIsSimultaneous(sitekey: string, client: string)
    requires IsHexOfLen(client, 40)
    ensures (forall ps :: IsTemplate(ps) ==> PageIsFilled(sitekey, client, ps)) <==> Inert(sitekey, "CLIENT")
    ensures var values := Values(PageSubstitutions(sitekey, client));
      Maps(values, "SITEKEY", sitekey) && Maps(values, "CLIENT", client)
  {
    ValuesOfTwo(("SITEKEY", sitekey), ("CLIENT", client));
    ClientIsBracefree(client);
    if Inert(sitekey, "CLIENT") {
      forall ps | IsTemplate(ps) ensures PageIsFilled(sitekey, client, ps) {
        PassesAreSimultaneous(ps, PageSubstitutions(sitekey, client));
      }
    } else {
      var ps := PageShows(sitekey, client);
    }
  }

  /** The other order of the two passes is one substitution for every sitekey. */
  lemma FundPageSwapped(ps: seq<Piece>, sitekey: string, client: string)
    requires IsTemplate(ps) && IsHexOfLen(client, 40)
    ensures Passes(Flatten(ps), [("CLIENT", client), ("SITEKEY", sitekey)])
         == Flatten(FillAll(ps, Values(PageSubstitutions(sitekey, client))))
  {
    var swapped := [("CLIENT", client), ("SITEKEY", sitekey)];
    ClientIsBracefree(client);
    BracefreeIsInert(client, "SITEKEY");
    PassesAreSimultaneous(ps, swapped);
    ValuesSwap(("SITEKEY", sitekey), ("CLIENT", client));
  }

  lemma ValuesSwap(p: (string, string), q: (string, string))
    requires p.0 != q.0
    ensures Values([p, q]) == Values([q, p])
  {
    ValuesOfTwo(p, q);
    ValuesOfTwo(q, p);
  }

  lemma ValuesOfTwo(p: (string, string), q: (string, string))
    ensures Values([p, q]) == map[q.0 := q.1][p.0 := p.1]
  {
    assert [p, q][1..] == [q] && [q][1..] == [];
    assert Values([q]) == map[q.0 := q.1];
  }
}
