/** `pool_watch.rs` and the pool operations of `treasury.rs` it drives: a loop
 that reads a balance others are draining and tops it up afterwards. */
module PoolWatch {
  import opened Types
  import opened Arithmetic

  /** The pool's counters, the hot wallet's balance, and how many top-ups have been
      sent, reported as failed, and not yet mined. */
  datatype Funds = Funds(deposit: U64, redeemed: U64, treasury: nat, pending: nat) {
    /** `deposit.saturating_sub(totalRedeemed)` */
    function Remaining(): U64 {
      if redeemed <= deposit then deposit - redeemed else 0
    }

    predicate Solvent() {
      redeemed <= deposit
    }
  }

  /** What came of a `top_up`: the amount credited and reported, credited although
      an error was reported, sent although an error was reported and perhaps mined
      later, or not credited at all. */
  datatype TopUp = Credited | CreditedWithError | Late | Uncredited

  /** What happens on the chain beside the sweep: buyers redeem, and a late top-up
      is mined. */
  datatype Event = Redeem(amount: nat) | Land

  /** What one tick meets: events before the read, whether the read succeeds,
      events between the read and the top-up, and the top-up's fate. */
  datatype Tick = Tick(before: seq<Event>, readable: bool, between: seq<Event>, topUp: TopUp)

  datatype Watch = Watch(lowWater: U64, refill: U64)

  predicate NeedsRefill(remaining: U64, lowWater: U64) {
    remaining < lowWater
  }

  /** Buyers redeem up to `amount`; the pool never pays more than it holds. */
  function Redeemed(f: Funds, amount: nat): Funds {
    f.(redeemed := f.redeemed + if amount <= f.Remaining() then amount else f.Remaining())
  }

  /** What the pool can still pay: the rest of the deposit, and never less than none. */
  lemma RemainingSaturates(f: Funds)
    ensures f.redeemed <= f.deposit ==> f.Remaining() + f.redeemed == f.deposit
    ensures f.redeemed >= f.deposit ==> f.Remaining() == 0
  {
  }

  /** A redemption takes what is asked for out of the balance, or all there is, and
      touches nothing else. */
  lemma RedeemingDrains(f: Funds, amount: nat)
    requires f.Solvent()
    ensures var g := Redeemed(f, amount);
      && g.Solvent() && g.deposit == f.deposit && g.treasury == f.treasury && g.pending == f.pending
      && f.deposit - f.redeemed == f.Remaining() && g.deposit - g.redeemed == g.Remaining()
      && (amount <= f.Remaining() ==> g.Remaining() == f.Remaining() - amount)
      && (amount >= f.Remaining() ==> g.Remaining() == 0)
  {
  }

  /** A transfer of `amount` into the pool does not revert. */
  predicate Fits(f: Funds, amount: U64) {
    amount <= f.treasury && f.deposit + amount <= U64_MAX
  }

  function Paid(f: Funds, amount: U64): Funds {
    if Fits(f, amount) then f.(deposit := f.deposit + amount, treasury := f.treasury - amount) else f
  }

  /** A late top-up is mined, if there is one; it may still revert. */
  function Landed(f: Funds, amount: U64): Funds {
    if f.pending == 0 then f else Paid(f.(pending := f.pending - 1), amount)
  }

  function Happened(w: Watch, f: Funds, e: Event): Funds {
    match e
    case Redeem(amount) => Redeemed(f, amount)
    case Land => Landed(f, w.refill)
  }

  /** The funds after the first `n` events. */
  function Drained(w: Watch, f: Funds, es: seq<Event>, n: nat): Funds
    requires n <= |es|
  {
    if n == 0 then f else Happened(w, Drained(w, f, es, n - 1), es[n - 1])
  }

  /** A late top-up that is mined is no longer pending, whether it moved its amount
      from the wallet to the pool or reverted; without one nothing happens. */
  lemma LandingSettles(f: Funds, amount: U64)
    ensures var g := Landed(f, amount);
      && g.redeemed == f.redeemed && g.deposit + g.treasury == f.deposit + f.treasury
      && (f.pending == 0 ==> g == f)
      && (f.pending > 0 ==> g.pending + 1 == f.pending)
      && (f.pending > 0 && amount <= f.treasury && f.deposit + amount <= 0xFFFF_FFFF_FFFF_FFFF ==>
            g.deposit == f.deposit + amount)
      && (amount > f.treasury || f.deposit + amount > 0xFFFF_FFFF_FFFF_FFFF ==> g.deposit == f.deposit)
  {
  }

  /** Whether a top-up of `amount` can and does go through at once. */
  predicate GoesThrough(f: Funds, amount: U64, topUp: TopUp) {
    (topUp.Credited? || topUp.CreditedWithError?) && Fits(f, amount)
  }

  function ToppedUp(f: Funds, amount: U64, topUp: TopUp): Funds {
    match topUp
    case Late => f.(pending := f.pending + 1)
    case Uncredited => f
    case _ => Paid(f, amount)
  }

  function Seen(w: Watch, f: Funds, t: Tick): Funds {
    Drained(w, f, t.before, |t.before|)
  }

  /** The funds when the tick tops up. */
  function AtTopUp(w: Watch, f: Funds, t: Tick): Funds {
    Drained(w, Seen(w, f, t), t.between, |t.between|)
  }

  /** The tick reads a balance below the mark. */
  predicate Wants(w: Watch, f: Funds, t: Tick) {
    t.readable && NeedsRefill(Seen(w, f, t).Remaining(), w.lowWater)
  }

  /** And its top-up is credited at once. */
  predicate Credits(w: Watch, f: Funds, t: Tick) {
    Wants(w, f, t) && GoesThrough(AtTopUp(w, f, t), w.refill, t.topUp)
  }

  function Ticked(w: Watch, f: Funds, t: Tick): Funds {
    if Wants(w, f, t) then ToppedUp(AtTopUp(w, f, t), w.refill, t.topUp) else AtTopUp(w, f, t)
  }

  /** The funds after the first `n` ticks. */
  function After(w: Watch, f: Funds, ticks: seq<Tick>, n: nat): Funds
    requires n <= |ticks|
  {
    if n == 0 then f else Ticked(w, After(w, f, ticks, n - 1), ticks[n - 1])
  }

  /** The contract's counters and the wallet, changed in place. */
  class Pool {
    var deposit: U64
    var redeemed: U64
    var treasury: nat
    var pending: nat

    function State(): Funds
      reads this
    {
      Funds(deposit, redeemed, treasury, pending)
    }

    constructor (f: Funds)
      ensures State() == f
    {
      deposit, redeemed, treasury, pending := f.deposit, f.redeemed, f.treasury, f.pending;
    }

    method Redeem(amount: nat)
      modifies this`redeemed
      ensures State() == Redeemed(old(State()), amount)
    {
      var remaining := State().Remaining();
      redeemed := redeemed + if amount <= remaining then amount else remaining;
    }

    method Land(amount: U64)
      modifies this`deposit, this`treasury, this`pending
      ensures State() == Landed(old(State()), amount)
    {
      if pending == 0 { return; }
      pending := pending - 1;
      if amount > treasury || deposit + amount > U64_MAX { return; }
      deposit, treasury := deposit + amount, treasury - amount;
    }

    /** Whatever others do to the pool meanwhile. */
    method Meet(w: Watch, es: seq<Event>)
      modifies this
      ensures State() == Drained(w, old(State()), es, |es|)
    {
      for i := 0 to |es|
        invariant State() == Drained(w, old(State()), es, i)
      {
        match es[i] {
          case Redeem(amount) => Redeem(amount);
          case Land => Land(w.refill);
        }
      }
    }

    method Remaining() returns (r: U64)
      ensures r == State().Remaining()
    {
      return if redeemed <= deposit then deposit - redeemed else 0;
    }

    method TopUp(amount: U64, topUp: TopUp) returns (credited: Option<U64>)
      modifies this`deposit, this`treasury, this`pending
      ensures State() == ToppedUp(old(State()), amount, topUp)
      ensures credited == Some(amount) <==>
              topUp == Credited && amount <= old(treasury) && old(deposit) + amount <= 0xFFFF_FFFF_FFFF_FFFF
      ensures credited.Some? ==> credited.value == amount && State().deposit == old(State()).deposit + amount
    {
      if topUp.Late? { pending := pending + 1; }
      if topUp.Late? || topUp.Uncredited? || amount > treasury || deposit + amount > U64_MAX { return None; }
      deposit, treasury := deposit + amount, treasury - amount;
      return if topUp.Credited? then Some(amount) else None;
    }
  }

  /** The sweep, for as many ticks as are given; a failed tick is just retried. */
  method Run(pool: Pool, w: Watch, ticks: seq<Tick>)
    modifies pool
    ensures pool.State() == After(w, old(pool.State()), ticks, |ticks|)
  {
    ghost var start := pool.State();
    for i := 0 to |ticks|
      invariant pool.State() == After(w, start, ticks, i)
    {
      var tick := ticks[i];
      pool.Meet(w, tick.before);
      var remaining := pool.Remaining();
      pool.Meet(w, tick.between);
      if tick.readable {
        if NeedsRefill(remaining, w.lowWater) {
          var credited := pool.TopUp(w.refill, tick.topUp);
        }
      }
    }
  }

  // ---- Bounds ----

  function Max(a: int, b: int): int {
    if a < b then b else a
  }

  /** The highest balance the watcher can bring about without late credits. */
  function Ceiling(w: Watch, f: Funds): int {
    if w.lowWater == 0 then f.Remaining() else Max(f.Remaining(), w.lowWater - 1 + w.refill)
  }

  function Outflow(w: Watch, f: Funds, ticks: seq<Tick>, n: nat): int
    requires n <= |ticks|
  {
    f.treasury - After(w, f, ticks, n).treasury
  }

  /** How many of the first `n` ticks were credited. */
  function CreditCount(w: Watch, f: Funds, ticks: seq<Tick>, n: nat): nat
    requires n <= |ticks|
  {
    if n == 0 then 0 else
      CreditCount(w, f, ticks, n - 1) + if Credits(w, After(w, f, ticks, n - 1), ticks[n - 1]) then 1 else 0
  }

  /** What one tick credits. */
  function Credit(w: Watch, f: Funds, t: Tick): nat {
    if Credits(w, f, t) then w.refill else 0
  }

  /** What one event credits: a refill, if it is a late top-up that goes through. */
  function LateCredit(w: Watch, f: Funds, e: Event): nat {
    if e.Land? && f.pending > 0 && Fits(f, w.refill) then w.refill else 0
  }

  /** What the first `n` events credited. */
  function LateIn(w: Watch, f: Funds, es: seq<Event>, n: nat): nat
    requires n <= |es|
  {
    if n == 0 then 0 else LateIn(w, f, es, n - 1) + LateCredit(w, Drained(w, f, es, n - 1), es[n - 1])
  }

  function LateInTick(w: Watch, f: Funds, t: Tick): nat {
    LateIn(w, f, t.before, |t.before|) + LateIn(w, Seen(w, f, t), t.between, |t.between|)
  }

  /** What was credited late during the first `n` ticks, one refill at a time. */
  function LateAmount(w: Watch, f: Funds, ticks: seq<Tick>, n: nat): nat
    requires n <= |ticks|
  {
    if n == 0 then 0 else
      LateAmount(w, f, ticks, n - 1) + LateInTick(w, After(w, f, ticks, n - 1), ticks[n - 1])
  }

  /** `g` comes of `f` by redemptions and by payments of `paid` from the wallet. */
  predicate Flowed(f: Funds, g: Funds, paid: int) {
    && f.redeemed <= g.redeemed <= g.deposit
    && g.deposit == f.deposit + paid
    && g.treasury == f.treasury - paid
  }

  lemma {:induction false} EventsFlow(w: Watch, f: Funds, es: seq<Event>, n: nat)
    requires f.Solvent() && n <= |es|
    ensures Flowed(f, Drained(w, f, es, n), LateIn(w, f, es, n))
  {
    if n == 0 {
    } else {
      EventsFlow(w, f, es, n - 1);
    }
  }

  /** What one tick does to the funds. */
  lemma TickFlows(w: Watch, f: Funds, t: Tick)
    requires f.Solvent()
    ensures AtTopUp(w, f, t).Solvent()
    ensures Flowed(f, Ticked(w, f, t), LateInTick(w, f, t) + Credit(w, f, t))
  {
    EventsFlow(w, f, t.before, |t.before|);
    EventsFlow(w, Seen(w, f, t), t.between, |t.between|);
  }

  lemma {:induction false} TicksFlow(w: Watch, f: Funds, ticks: seq<Tick>, n: nat) returns (paid: nat)
    requires f.Solvent() && n <= |ticks|
    ensures paid == CreditCount(w, f, ticks, n) * w.refill
    ensures Flowed(f, After(w, f, ticks, n), paid + LateAmount(w, f, ticks, n))
  {
    if n == 0 {
      paid := 0;
    } else {
      var earlier := TicksFlow(w, f, ticks, n - 1);
      TickFlows(w, After(w, f, ticks, n - 1), ticks[n - 1]);
      Product(CreditCount(w, f, ticks, n - 1), w.refill);
      paid := earlier + Credit(w, After(w, f, ticks, n - 1), ticks[n - 1]);
    }
  }

  /** Wallet, pool and payouts add up to the same sum at every moment, and the
      wallet has paid one refill for each credit, timely or late. */
  lemma FundsAreConserved(w: Watch, f: Funds, ticks: seq<Tick>, n: nat)
    requires f.Solvent() && n <= |ticks|
    ensures var g := After(w, f, ticks, n);
      && g.treasury + g.Remaining() + g.redeemed == f.treasury + f.Remaining() + f.redeemed
      && g.redeemed >= f.redeemed
      && f.treasury - g.treasury == CreditCount(w, f, ticks, n) * w.refill + LateAmount(w, f, ticks, n)
  {
    var paid := TicksFlow(w, f, ticks, n);
  }

  lemma {:induction false} EventsUnderBound(w: Watch, f: Funds, es: seq<Event>, n: nat, bound: int)
    requires f.Solvent() && f.Remaining() <= bound && n <= |es|
    ensures Drained(w, f, es, n).Remaining() <= bound + LateIn(w, f, es, n)
  {
    if n == 0 {
    } else {
      EventsUnderBound(w, f, es, n - 1, bound);
      EventsFlow(w, f, es, n - 1);
    }
  }

  /** A tick that is credited leaves less than the mark, its refill and what landed
      after its read. */
  lemma CreditedUnder(w: Watch, f: Funds, t: Tick)
    requires f.Solvent() && Credits(w, f, t)
    ensures Ticked(w, f, t).Remaining() <= w.lowWater - 1 + w.refill + LateInTick(w, f, t)
  {
    EventsFlow(w, f, t.before, |t.before|);
    EventsFlow(w, Seen(w, f, t), t.between, |t.between|);
    EventsUnderBound(w, Seen(w, f, t), t.between, |t.between|, w.lowWater - 1);
  }

  lemma TickUnderBound(w: Watch, f: Funds, t: Tick, bound: int)
    requires f.Solvent() && f.Remaining() <= bound
    requires w.lowWater > 0 ==> w.lowWater - 1 + w.refill <= bound
    ensures Ticked(w, f, t).Remaining() <= bound + LateInTick(w, f, t)
  {
    if Credits(w, f, t) {
      CreditedUnder(w, f, t);
    } else {
      EventsFlow(w, f, t.before, |t.before|);
      EventsUnderBound(w, f, t.before, |t.before|, bound);
      EventsUnderBound(w, Seen(w, f, t), t.between, |t.between|, bound + LateIn(w, f, t.before, |t.before|));
    }
  }

  lemma {:induction false} TicksUnderCeiling(w: Watch, f: Funds, ticks: seq<Tick>, n: nat)
    requires f.Solvent() && n <= |ticks|
    ensures After(w, f, ticks, n).Solvent()
    ensures After(w, f, ticks, n).Remaining() <= Ceiling(w, f) + LateAmount(w, f, ticks, n)
  {
    if n == 0 {
    } else {
      TicksUnderCeiling(w, f, ticks, n - 1);
      var g := After(w, f, ticks, n - 1);
      TickFlows(w, g, ticks[n - 1]);
      TickUnderBound(w, g, ticks[n - 1], Ceiling(w, f) + LateAmount(w, f, ticks, n - 1));
    }
  }

  /** At every moment (after any ticks, and any events since the last one) the
      balance is under the ceiling and one refill for each late credit. */
  lemma BalanceUnderCeiling(w: Watch, f: Funds, ticks: seq<Tick>, n: nat, es: seq<Event>, k: nat)
    requires f.Solvent() && n <= |ticks| && k <= |es|
    ensures var g := After(w, f, ticks, n);
      Drained(w, g, es, k).Remaining()
      <= Ceiling(w, f) + LateAmount(w, f, ticks, n) + LateIn(w, g, es, k)
  {
    TicksUnderCeiling(w, f, ticks, n);
    EventsUnderBound(w, After(w, f, ticks, n), es, k, Ceiling(w, f) + LateAmount(w, f, ticks, n));
  }

  /** Once anything was credited in time, the wallet has paid strictly less than the
      mark, one refill, one for each late credit and what was redeemed, less the
      initial balance. */
  lemma {:induction false} OutflowIsBounded(w: Watch, f: Funds, ticks: seq<Tick>, n: nat)
    requires f.Solvent() && n <= |ticks| && CreditCount(w, f, ticks, n) > 0
    ensures Outflow(w, f, ticks, n)
            < w.lowWater + w.refill + LateAmount(w, f, ticks, n)
              + (After(w, f, ticks, n).redeemed - f.redeemed) - f.Remaining()
  {
    var g, t := After(w, f, ticks, n - 1), ticks[n - 1];
    var earlier := TicksFlow(w, f, ticks, n - 1);
    TickFlows(w, g, t);
    if Credits(w, g, t) {
      CreditedUnder(w, g, t);
    } else {
      OutflowIsBounded(w, f, ticks, n - 1);
    }
  }

  // ---- The bound is reached ----

  /** The balance is just below the mark, and the wallet holds `k + 1` refills. */
  function JustBelow(w: Watch, k: nat): Funds
    requires w.lowWater > 0
  {
    Funds(w.lowWater - 1, 0, k * w.refill + w.refill, 0)
  }

  const LATE: Tick := Tick([], true, [], Late)

  /** The tick reads, then `k` late top-ups are mined, then its own is credited. */
  function Overtaken(k: nat): Tick {
    Tick([], true, seq(k, _ => Land), Credited)
  }

  lemma {:induction false} LateTicksPend(w: Watch, f: Funds, ticks: seq<Tick>, n: nat)
    requires f.Remaining() < w.lowWater && n <= |ticks| && forall i :: 0 <= i < n ==> ticks[i] == LATE
    ensures After(w, f, ticks, n) == f.(pending := f.pending + n)
    ensures LateAmount(w, f, ticks, n) == 0 && CreditCount(w, f, ticks, n) == 0
  {
    if n == 0 {
    } else {
      LateTicksPend(w, f, ticks, n - 1);
    }
  }

  lemma {:induction false} AllLand(w: Watch, f: Funds, es: seq<Event>, n: nat, paid: nat)
    requires n <= |es| && n <= f.pending && forall i :: 0 <= i < n ==> es[i] == Land
    requires paid == n * w.refill && paid <= f.treasury && f.deposit + paid <= U64_MAX
    ensures Drained(w, f, es, n)
            == f.(deposit := f.deposit + paid, treasury := f.treasury - paid, pending := f.pending - n)
    ensures LateIn(w, f, es, n) == paid
  {
    if n == 0 {
    } else {
      Product(n - 1, w.refill);
      AllLand(w, f, es, n - 1, paid - w.refill);
    }
  }

  /** For every `k`: `k` top-ups credited only after they were reported as failed
      bring the balance to exactly `k` refills above the ceiling, all of them mined
      before the one that is sent last. */
  lemma LateCreditsPassCeiling(w: Watch, k: nat, ticks: seq<Tick>)
    requires 0 < w.lowWater && w.lowWater - 1 + k * w.refill + w.refill <= U64_MAX
    requires ticks == seq(k, _ => LATE) + [Overtaken(k)]
    ensures var f := JustBelow(w, k); var g := After(w, f, ticks, k + 1);
      && g.pending == 0 && CreditCount(w, f, ticks, k + 1) == 1
      && LateAmount(w, f, ticks, k + 1) == k * w.refill
      && g.Remaining() == Ceiling(w, f) + k * w.refill
  {
    var f := JustBelow(w, k);
    LateTicksPend(w, f, ticks, k);
    assert ticks[k] == Overtaken(k);
    AllLand(w, After(w, f, ticks, k), ticks[k].between, k, k * w.refill);
  }

  // ---- Convergence ----

  /** Nothing else happens to the pool. */
  predicate Quiet(ticks: seq<Tick>) {
    forall t <- ticks :: t.before == [] && t.between == []
  }

  /** ceil((lowWater - remaining) / refill), or 0 if already there. */
  function Needed(w: Watch, f: Funds): nat
    requires w.refill > 0
  {
    if f.Remaining() >= w.lowWater then 0
    else (w.lowWater - f.Remaining() + w.refill - 1) / w.refill
  }

  /** The tick reads, and its top-up, if one is due, is mined in time. */
  predicate Works(t: Tick) {
    t.readable && (t.topUp.Credited? || t.topUp.CreditedWithError?)
  }

  function Working(ticks: seq<Tick>, n: nat): nat
    requires n <= |ticks|
  {
    if n == 0 then 0 else Working(ticks, n - 1) + if Works(ticks[n - 1]) then 1 else 0
  }

  lemma CreditsReachMark(w: Watch, f: Funds, k: nat)
    requires w.refill > 0
    ensures f.Remaining() + k * w.refill >= w.lowWater <==> k >= Needed(w, f)
  {
    if f.Remaining() < w.lowWater { StepsCover(k, w.refill, w.lowWater - f.Remaining()); }
  }

  lemma QuietTick(w: Watch, f: Funds, t: Tick)
    requires f.Solvent() && t.before == [] && t.between == []
    ensures AtTopUp(w, f, t) == f && LateInTick(w, f, t) == 0
    ensures Ticked(w, f, t).redeemed == f.redeemed
    ensures Credits(w, f, t) <==>
            t.readable && f.Remaining() < w.lowWater && GoesThrough(f, w.refill, t.topUp)
  {
  }

  lemma {:induction false} QuietRedeemsNothing(w: Watch, f: Funds, ticks: seq<Tick>, n: nat)
    requires f.Solvent() && Quiet(ticks) && n <= |ticks|
    ensures After(w, f, ticks, n).redeemed == f.redeemed && LateAmount(w, f, ticks, n) == 0
  {
    if n == 0 {
    } else {
      QuietRedeemsNothing(w, f, ticks, n - 1);
      var paid := TicksFlow(w, f, ticks, n - 1);
      assert ticks[n - 1] in ticks;
      QuietTick(w, After(w, f, ticks, n - 1), ticks[n - 1]);
    }
  }

  lemma QuietBalance(w: Watch, f: Funds, ticks: seq<Tick>, n: nat)
    requires f.Solvent() && Quiet(ticks) && n <= |ticks|
    ensures var g, k := After(w, f, ticks, n), CreditCount(w, f, ticks, n);
      && g.Solvent()
      && g.Remaining() == f.Remaining() + k * w.refill
      && g.deposit == f.deposit + k * w.refill
      && g.treasury == f.treasury - k * w.refill
  {
    var paid := TicksFlow(w, f, ticks, n);
    QuietRedeemsNothing(w, f, ticks, n);
  }

  /** Once the pool is quiet, the balance reaches the mark with exactly `Needed`
      credits: it is there if and only if that many ticks have been credited,
      and there are never more. */
  lemma {:induction false} QuietCredits(w: Watch, f: Funds, ticks: seq<Tick>, n: nat)
    requires f.Solvent() && Quiet(ticks) && w.refill > 0 && n <= |ticks|
    ensures CreditCount(w, f, ticks, n) <= Needed(w, f)
    ensures After(w, f, ticks, n).Remaining() >= w.lowWater <==> CreditCount(w, f, ticks, n) == Needed(w, f)
  {
    QuietBalance(w, f, ticks, n);
    CreditsReachMark(w, f, CreditCount(w, f, ticks, n));
    if n == 0 {
    } else {
      QuietCredits(w, f, ticks, n - 1);
      QuietBalance(w, f, ticks, n - 1);
      assert ticks[n - 1] in ticks;
      QuietTick(w, After(w, f, ticks, n - 1), ticks[n - 1]);
    }
  }

  lemma OneMoreFits(k: nat, needed: nat, refill: nat, budget: nat)
    requires k < needed && needed * refill <= budget
    ensures k * refill + refill <= budget
  {
    ProductGrows(k + 1, needed, refill);
    Product(k, refill);
  }

  /** Before the mark there is still room for one more refill. */
  lemma OneMoreIsAffordable(w: Watch, f: Funds, ticks: seq<Tick>, n: nat)
    requires f.Solvent() && Quiet(ticks) && w.refill > 0 && n <= |ticks|
    requires Needed(w, f) * w.refill <= f.treasury
    requires f.deposit + Needed(w, f) * w.refill <= U64_MAX
    requires CreditCount(w, f, ticks, n) < Needed(w, f)
    ensures var g := After(w, f, ticks, n); w.refill <= g.treasury && g.deposit + w.refill <= U64_MAX
  {
    QuietBalance(w, f, ticks, n);
    OneMoreFits(CreditCount(w, f, ticks, n), Needed(w, f), w.refill, f.treasury);
    OneMoreFits(CreditCount(w, f, ticks, n), Needed(w, f), w.refill, U64_MAX - f.deposit);
  }

  /** With enough in the wallet, the credits are the working ticks, up to `Needed`:
      a working tick is never wasted before the mark and never spent after it. */
  lemma {:induction false} WorkingTicksConverge(w: Watch, f: Funds, ticks: seq<Tick>, n: nat)
    requires f.Solvent() && Quiet(ticks) && w.refill > 0 && n <= |ticks|
    requires Needed(w, f) * w.refill <= f.treasury
    requires f.deposit + Needed(w, f) * w.refill <= U64_MAX
    ensures CreditCount(w, f, ticks, n) ==
            if Working(ticks, n) <= Needed(w, f) then Working(ticks, n) else Needed(w, f)
  {
    if n == 0 {
    } else {
      WorkingTicksConverge(w, f, ticks, n - 1);
      QuietCredits(w, f, ticks, n - 1);
      QuietBalance(w, f, ticks, n - 1);
      assert ticks[n - 1] in ticks;
      QuietTick(w, After(w, f, ticks, n - 1), ticks[n - 1]);
      if CreditCount(w, f, ticks, n - 1) < Needed(w, f) { OneMoreIsAffordable(w, f, ticks, n - 1); }
    }
  }

  // ---- Convergence while late top-ups land ----

  /** Nobody redeems; late top-ups may be mined at any time. */
  predicate Still(ticks: seq<Tick>) {
    forall t <- ticks :: OnlyLands(t.before) && OnlyLands(t.between)
  }

  predicate OnlyLands(es: seq<Event>) {
    forall e <- es :: e.Land?
  }

  lemma {:induction false} LandsRedeemNothing(w: Watch, f: Funds, es: seq<Event>, n: nat)
    requires f.Solvent() && OnlyLands(es) && n <= |es|
    ensures Drained(w, f, es, n).redeemed == f.redeemed
    ensures Drained(w, f, es, n).Remaining() == f.Remaining() + LateIn(w, f, es, n)
  {
    if n == 0 {
    } else {
      LandsRedeemNothing(w, f, es, n - 1);
      EventsFlow(w, f, es, n - 1);
      assert es[n - 1] in es;
    }
  }

  lemma StillTick(w: Watch, f: Funds, t: Tick)
    requires f.Solvent() && OnlyLands(t.before) && OnlyLands(t.between)
    ensures Ticked(w, f, t).redeemed == f.redeemed
    ensures f.Remaining() <= Seen(w, f, t).Remaining()
    ensures AtTopUp(w, f, t).Remaining() == f.Remaining() + LateInTick(w, f, t)
    ensures AtTopUp(w, f, t).Solvent()
  {
    LandsRedeemNothing(w, f, t.before, |t.before|);
    EventsFlow(w, f, t.before, |t.before|);
    LandsRedeemNothing(w, Seen(w, f, t), t.between, |t.between|);
    EventsFlow(w, Seen(w, f, t), t.between, |t.between|);
  }

  /** The balance is the initial one and a refill for each credit, timely or late. */
  lemma {:induction false} StillBalance(w: Watch, f: Funds, ticks: seq<Tick>, n: nat)
    requires f.Solvent() && Still(ticks) && n <= |ticks|
    ensures var g := After(w, f, ticks, n);
      && g.Solvent() && g.redeemed == f.redeemed
      && g.Remaining() == f.Remaining() + CreditCount(w, f, ticks, n) * w.refill + LateAmount(w, f, ticks, n)
  {
    var paid := TicksFlow(w, f, ticks, n);
    if n == 0 {
    } else {
      StillBalance(w, f, ticks, n - 1);
      assert ticks[n - 1] in ticks;
      StillTick(w, After(w, f, ticks, n - 1), ticks[n - 1]);
    }
  }

  /** Without redemptions no more than `Needed` ticks are ever credited in time,
      however many late top-ups land beside them. */
  lemma {:induction false} StillCredits(w: Watch, f: Funds, ticks: seq<Tick>, n: nat)
    requires f.Solvent() && Still(ticks) && w.refill > 0 && n <= |ticks|
    ensures CreditCount(w, f, ticks, n) <= Needed(w, f)
  {
    if n == 0 {
    } else {
      StillCredits(w, f, ticks, n - 1);
      StillBalance(w, f, ticks, n - 1);
      assert ticks[n - 1] in ticks;
      StillTick(w, After(w, f, ticks, n - 1), ticks[n - 1]);
      CreditsReachMark(w, f, CreditCount(w, f, ticks, n - 1));
    }
  }

  /** A working tick is credited, or the mark is reached. */
  lemma StillTickWorks(w: Watch, f: Funds, t: Tick)
    requires f.Solvent() && OnlyLands(t.before) && OnlyLands(t.between)
    requires Works(t) && Fits(AtTopUp(w, f, t), w.refill)
    ensures Credits(w, f, t) || Ticked(w, f, t).Remaining() >= w.lowWater
  {
    StillTick(w, f, t);
    EventsFlow(w, f, t.before, |t.before|);
    LandsRedeemNothing(w, Seen(w, f, t), t.between, |t.between|);
  }

  /** There is room for `Needed` refills beside all that lands late. */
  predicate Affordable(w: Watch, f: Funds, ticks: seq<Tick>, n: nat)
    requires w.refill > 0 && n <= |ticks|
  {
    && Needed(w, f) * w.refill + LateAmount(w, f, ticks, n) <= f.treasury
    && f.deposit + Needed(w, f) * w.refill + LateAmount(w, f, ticks, n) <= U64_MAX
  }

  lemma AtTopUpFlows(w: Watch, f: Funds, t: Tick)
    requires f.Solvent()
    ensures Flowed(f, AtTopUp(w, f, t), LateInTick(w, f, t))
  {
    EventsFlow(w, f, t.before, |t.before|);
    EventsFlow(w, Seen(w, f, t), t.between, |t.between|);
  }

  lemma FlowsOn(f: Funds, g: Funds, h: Funds, paid: int, more: int)
    requires Flowed(f, g, paid) && Flowed(g, h, more)
    ensures Flowed(f, h, paid + more)
  {
  }

  lemma StillFits(w: Watch, f: Funds, g: Funds, t: Tick, count: nat, late: nat, needed: nat)
    requires f.Solvent() && Flowed(f, g, count * w.refill + late) && count < needed
    requires needed * w.refill + late + LateInTick(w, g, t) <= f.treasury
    requires f.deposit + needed * w.refill + late + LateInTick(w, g, t) <= U64_MAX
    ensures Fits(AtTopUp(w, g, t), w.refill)
  {
    AtTopUpFlows(w, g, t);
    OneMoreFits(count, needed, w.refill, needed * w.refill);
    FlowsOn(f, g, AtTopUp(w, g, t), count * w.refill + late, LateInTick(w, g, t));
  }

  lemma StillTickConverges(w: Watch, f: Funds, ticks: seq<Tick>, n: nat)
    requires f.Solvent() && Still(ticks) && w.refill > 0 && n < |ticks| && Affordable(w, f, ticks, n + 1)
    requires Works(ticks[n]) && CreditCount(w, f, ticks, n) < Needed(w, f)
    ensures var g := After(w, f, ticks, n);
      Credits(w, g, ticks[n]) || Ticked(w, g, ticks[n]).Remaining() >= w.lowWater
  {
    var g, t, count, late := After(w, f, ticks, n), ticks[n], CreditCount(w, f, ticks, n), LateAmount(w, f, ticks, n);
    var paid := TicksFlow(w, f, ticks, n);
    assert t in ticks;
    StillFits(w, f, g, t, count, late, Needed(w, f));
    StillTickWorks(w, g, t);
  }

  /** With enough in the wallet every working tick is credited until the mark is
      reached, and then it stays reached, while late top-ups land beside them. */
  lemma {:induction false} StillWorking(w: Watch, f: Funds, ticks: seq<Tick>, n: nat)
    requires f.Solvent() && Still(ticks) && w.refill > 0 && n <= |ticks| && Affordable(w, f, ticks, n)
    ensures After(w, f, ticks, n).Remaining() >= w.lowWater || CreditCount(w, f, ticks, n) == Working(ticks, n)
  {
    if n == 0 {
    } else {
      StillWorking(w, f, ticks, n - 1);
      StillBalance(w, f, ticks, n - 1);
      assert ticks[n - 1] in ticks;
      StillTick(w, After(w, f, ticks, n - 1), ticks[n - 1]);
      CreditsReachMark(w, f, CreditCount(w, f, ticks, n - 1));
      if Works(ticks[n - 1]) && CreditCount(w, f, ticks, n - 1) < Needed(w, f) {
        StillTickConverges(w, f, ticks, n - 1);
      }
    }
  }

  /** So `Needed` working ticks reach it. */
  lemma StillConverges(w: Watch, f: Funds, ticks: seq<Tick>, n: nat)
    requires f.Solvent() && Still(ticks) && w.refill > 0 && n <= |ticks| && Affordable(w, f, ticks, n)
    ensures CreditCount(w, f, ticks, n) <= Needed(w, f)
    ensures After(w, f, ticks, n).Remaining() >= w.lowWater || CreditCount(w, f, ticks, n) == Working(ticks, n)
    ensures Working(ticks, n) >= Needed(w, f) ==> After(w, f, ticks, n).Remaining() >= w.lowWater
  {
    StillCredits(w, f, ticks, n);
    StillWorking(w, f, ticks, n);
    StillBalance(w, f, ticks, n);
    CreditsReachMark(w, f, CreditCount(w, f, ticks, n));
  }
}
