/** One session taking a given list of steps while nothing else happens. */
module SoloRun {
  import opened Types
  import opened WrapperSteps
  import opened Protocol
  import opened Runs
  import opened Refinement

  function AsWrapper(h: nat, ls: seq<Local>): (es: seq<Event>)
    requires ls != []
    ensures KillFree(es) && Calm(es)
  {
    if |ls| == 1 then [] else [Wrapper(h, ls[1])] + AsWrapper(h, ls[1..])
  }

  /** The steps of `ls` are granted in `s`; they generate at most key `a`, at step `k`. */
  ghost predicate CanFollow(s: State, h: nat, ls: seq<Local>, a: Address, k: int) {
    && ls != [] && h in s.sessions && s.sessions[h] == ls[0] && Path(s.clock, ls)
    && (forall i: nat :: i < |ls| - 1 ==> Granted(s, s.clock, ls[i], ls[i + 1]))
    && (forall i: nat :: i < |ls| - 1 && ls[i].proc.Minting? ==> i == k && ls[i + 1].proc.client == a)
  }

  lemma FollowsOne(cfg: Config, s: State, h: nat, ls: seq<Local>, a: Address, k: int)
    requires CanFollow(s, h, ls, a, k) && |ls| > 1
    ensures Enabled(s, Wrapper(h, ls[1]))
    ensures var s1 := Apply(cfg, s, Wrapper(h, ls[1]));
      && CanFollow(s1, h, ls[1..], a, k - 1)
      && s1.clock == s.clock && s1.gateway == s.gateway && s1.home.Keys <= s.home.Keys + {a}
      && s1.sessions == s.sessions[h := ls[1]]
      && s1.handed == s.handed + HandedBy(ls[0])
  {
    assert Granted(s, s.clock, ls[0], ls[1]) && LocalStep(s.clock, ls[0], ls[1]);
    PullRefinesProtocol(cfg, s, h, s.clock, ls[0], ls[1]);
    var s1, rest := Apply(cfg, s, Wrapper(h, ls[1])), ls[1..];
    forall i: nat | i < |rest| - 1
      ensures Granted(s1, s.clock, rest[i], rest[i + 1])
      ensures LocalStep(s.clock, rest[i], rest[i + 1])
      ensures rest[i].proc.Minting? ==> i == k - 1 && rest[i + 1].proc.client == a
    {
      assert Granted(s, s.clock, ls[i + 1], ls[i + 2]) && LocalStep(s.clock, ls[i + 1], ls[i + 2]);
    }
  }

  /** Session `h` alone takes them. */
  lemma {:induction false} WrapperRuns(cfg: Config, s: State, h: nat, ls: seq<Local>, a: Address, k: int)
    requires CanFollow(s, h, ls, a, k)
    ensures AllEnabled(cfg, s, AsWrapper(h, ls))
    ensures var s' := After(cfg, s, AsWrapper(h, ls));
      && s'.clock == s.clock && s'.gateway == s.gateway && s'.home.Keys <= s.home.Keys + {a}
      && s'.sessions == s.sessions[h := ls[|ls| - 1]]
      && s.handed <= s'.handed
    decreases |ls|
  {
    if |ls| == 1 {
    } else {
      FollowsOne(cfg, s, h, ls, a, k);
      WrapperRuns(cfg, Apply(cfg, s, Wrapper(h, ls[1])), h, ls[1..], a, k - 1);
      assert AsWrapper(h, ls)[1..] == AsWrapper(h, ls[1..]);
    }
  }

  /** Its hand-over at step `i` is recorded. */
  lemma {:induction false} WrapperHands(cfg: Config, s: State, h: nat, ls: seq<Local>, a: Address, k: int, i: nat)
    requires CanFollow(s, h, ls, a, k) && i < |ls| - 1
    ensures AllEnabled(cfg, s, AsWrapper(h, ls)) && HandedBy(ls[i]) <= After(cfg, s, AsWrapper(h, ls)).handed
    decreases |ls|
  {
    FollowsOne(cfg, s, h, ls, a, k);
    var s1 := Apply(cfg, s, Wrapper(h, ls[1]));
    WrapperRuns(cfg, s1, h, ls[1..], a, k - 1);
    assert AsWrapper(h, ls)[1..] == AsWrapper(h, ls[1..]);
    if i == 0 {
    } else {
      assert ls[i] == ls[1..][i - 1];
      WrapperHands(cfg, s1, h, ls[1..], a, k - 1, i - 1);
    }
  }
}
