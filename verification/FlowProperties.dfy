/** What one pull, and a series of pulls, guarantee from any directory contents. */
module FlowProperties {
  import opened Types
  import opened WrapperSteps
  import opened Polling
  import opened Sessions
  import opened Flow
  import opened Fund
  import opened ProtocolSafety

  /** The address the pull asks the gateway about. */
  function ClientOf(d: Dir, w: World): Option<Address> {
    EnsuredKey(if IsExpiring(d, w.now) then EMPTY else d, w.secret, w.address).1
  }

  /** The gateway answers only tokens for the client it is asked about. */
  ghost predicate Honest(d: Dir, w: World) {
    && (w.first.Token? ==> For(w.first.text, ClientOf(d, w)))
    && (forall i: nat :: w.link.answer(i).Token? ==> For(w.link.answer(i).text, ClientOf(d, w)))
  }

  predicate For(t: Text, c: Option<Address>) {
    t.Dcap? && c == Some(t.grant.signer)
  }

  /** A gateway whose table holds each signer's own tokens, as every table of a
      run does, is honest: the first GET meets table 0, the polls the later ones. */
  lemma GatewayIsHonest(cfg: Config, d: Dir, w: World, client: Address, table: nat -> Table, unix: nat -> U64)
    requires ClientOf(d, w) == Some(client)
    requires forall i: nat :: client in table(i) ==> RecordFor(cfg, client, table(i)[client])
    requires w.first == Reading(Fetched(table(0), Some(client), unix(0), true))
    requires AsksGateway(w.link, client, (i: nat) => table(i + 1), (i: nat) => unix(i + 1))
    ensures Honest(d, w)
  {
    forall i: nat | w.link.answer(i).Token? ensures For(w.link.answer(i).text, Some(client)) {
      assert w.link.answer(i) == Reading(Fetched(table(i + 1), Some(client), unix(i + 1), true));
    }
  }

  /** The address drawn occurs nowhere in `d`. */
  predicate FreshFor(d: Dir, w: World) {
    && (d.keystore.Whole? ==> d.keystore.value.address != w.address)
    && (d.capability.Whole? ==> d.capability.value.signer != w.address)
  }

  predicate Mismatched(o: Outcome) {
    && o.Handed? && o.key.Whole? && o.capability.Whole?
    && o.capability.value.signer != o.key.value.address
  }

  predicate Matched(o: Outcome) {
    && o.Handed? && o.key.Whole? && o.capability.Whole?
    && o.capability.value.signer == o.key.value.address
  }

  lemma FetchedIsForClient(d: Dir, w: World)
    requires Paced(w.link) && Honest(d, w)
    ensures Fetch(w).0.Some? ==> For(Fetch(w).0.value, ClientOf(d, w))
  {
    if w.first.Empty? {
      var r := Poll(w.link, w.start + POLL_TIMEOUT_MS, 0);
      assert w.link.answer(r.requests - 1).Token? || !r.Got?;
    }
  }

  /** From any directory contents, a pull that reaches decdn hands over a key and
      its own capability, except exactly when it began with a decodable capability
      outside the margin and no keystore, or a usable keystore of another address. */
  lemma MismatchExactly(d: Dir, w: World)
    requires Paced(w.link) && Honest(d, w) && FreshFor(d, w)
    ensures var o := Pulled(d, w);
      && (Mismatched(o) <==>
            && d.capability.Whole? && !Expiring(d.capability.value, w.now)
            && (|| d.keystore.Missing?
                || (&& d.keystore.Whole? && d.password.Exists()
                    && d.keystore.value.address != d.capability.value.signer)))
      && (o.Handed? && !Mismatched(o) ==> Matched(o))
  {
    FetchedIsForClient(d, w);
  }

  /** A run started within the margin of expiry leaves the old key behind and
      restores agreement. */
  lemma ExpiryRestoresAgreement(d: Dir, w: World)
    requires Paced(w.link) && Honest(d, w) && IsExpiring(d, w.now)
    ensures var o := Pulled(d, w);
      o.Handed? ==> Matched(o) && o.key == Whole(Key(w.address, w.secret))
  {
    FetchedIsForClient(d, w);
  }

  /** A pull makes at most 302 requests: one, and then 301 polls. */
  lemma RequestsPerPull(d: Dir, w: World)
    requires Paced(w.link) && w.link.at(0) >= w.start
    ensures Pulled(d, w).requests <= 302
  {
    RequestsAreBounded(w.link, w.start, POLL_TIMEOUT_MS);
  }

  /** A success leaves nothing behind; a failure leaves exactly what was handed
      over; and a pull that stops for want of a capability keeps its key, so the
      next run asks about the same client. */
  lemma StateLeftBehind(d: Dir, w: World, w': World)
    requires Paced(w.link) && Paced(w'.link)
    ensures var o := Pulled(d, w);
      match o
      case Handed(key, capability, _, left) =>
        if w.succeeds then left == EMPTY
        else left.keystore == key && left.capability == capability && Usable(left)
      case Stopped(requests, left) =>
        && (requests > 0 ==> left.keystore.Whole? && ClientOf(d, w) == Some(left.keystore.value.address))
        && (requests > 0 ==> ClientOf(left, w') == ClientOf(d, w) && !left.capability.Whole?)
        && (requests == 0 ==> left == d || left == EMPTY)
  {
  }

  // ---- What a pull does, without its parts ----

  /** The key a pull works with: the one in the directory if it has a password,
      otherwise the one drawn; and what is then left of the directory. */
  predicate WorksWith(d: Dir, w: World, left: Dir) {
    if d.keystore != Missing && d.password != Missing then left == d
    else
      && left.keystore == Whole(Key(w.address, w.secret)) && left.password == Whole(w.secret)
      && left.capability == if d.keystore == Missing then d.capability else Missing
  }

  /** What a saved answer reads back as. */
  predicate SavedAs(t: Text, f: File<Grant>) {
    match t
    case Dcap(g) => f == Whole(g)
    case Junk => f == Garbled
  }

  /** decdn gets the key and the answer; a success leaves nothing, a failure leaves
      what decdn got. */
  predicate HandsOver(o: Outcome, left: Dir, t: Text, requests: nat, succeeds: bool) {
    && o.Handed? && o.key == left.keystore && SavedAs(t, o.capability) && o.requests == requests
    && o.dir == if succeeds then Dir(Missing, Missing, Missing) else left.(capability := o.capability)
  }

  /** The first `n` polls were answered 204, within ten minutes of the first. */
  ghost predicate Undecided(w: World, n: nat) {
    forall j: nat :: j < n ==> w.link.answer(j) == Empty && w.link.at(j) < w.start + 600_000
  }

  /** The directory has no capability to go on with, and its key, if any, is legible. */
  predicate MustAsk(d: Dir) {
    && (d.capability == Missing || d.capability == Garbled)
    && (d.password != Missing ==> d.keystore.Whole? || d.keystore == Missing)
  }

  /** A pull without a decodable capability asks once; a token or an error decides. */
  lemma FirstAnswerDecides(d: Dir, w: World, left: Dir)
    requires Paced(w.link) && MustAsk(d) && WorksWith(d, w, left)
    ensures w.first.Token? ==> HandsOver(Pulled(d, w), left, w.first.text, 1, w.succeeds)
    ensures w.first.Failed? ==> Pulled(d, w) == Stopped(1, left)
  {
  }

  lemma PollStops(l: Link, deadline: nat, n: nat)
    requires Paced(l) && AllEmpty(l, deadline, n)
    ensures match l.answer(n)
      case Token(t) => Poll(l, deadline, 0) == Got(t, n + 1)
      case Failed => Poll(l, deadline, 0) == Broke(n + 1)
      case Empty => l.at(n) >= deadline ==> Poll(l, deadline, 0) == TimedOut(n + 1)
  {
    if l.answer(n) != Empty || l.at(n) >= deadline {
      var r := match l.answer(n)
        case Token(t) => Got(t, n + 1)
        case Failed => Broke(n + 1)
        case Empty => TimedOut(n + 1);
      FirstStopDecides(l, deadline, n, r);
    }
  }

  lemma PollDecides(w: World, n: nat)
    requires Paced(w.link) && w.first.Empty? && AllEmpty(w.link, w.start + 600_000, n)
    ensures match w.link.answer(n)
      case Token(t) => Fetch(w) == (Some(t), n + 2)
      case Failed => Fetch(w) == (None, n + 2)
      case Empty => w.link.at(n) >= w.start + 600_000 ==> Fetch(w) == (None, n + 2)
  {
    PollStops(w.link, w.start + 600_000, n);
  }

  /** After a 204 it goes on asking until the first request that decides. */
  lemma AsksUntilDecided(d: Dir, w: World, left: Dir, n: nat)
    requires Paced(w.link) && MustAsk(d) && WorksWith(d, w, left)
    requires w.first.Empty? && Undecided(w, n)
    ensures match w.link.answer(n)
      case Token(t) => HandsOver(Pulled(d, w), left, t, n + 2, w.succeeds)
      case Failed => Pulled(d, w) == Stopped(n + 2, left)
      case Empty => w.link.at(n) >= w.start + 600_000 ==> Pulled(d, w) == Stopped(n + 2, left)
  {
    assert AllEmpty(w.link, w.start + 600_000, n);
    PollDecides(w, n);
  }

  /** Some request decides, unless the first answer already did. */
  lemma {:induction false} SomeRequestDecides(w: World, i: nat) returns (n: nat)
    requires Paced(w.link) && Undecided(w, i)
    ensures Undecided(w, n) && (w.link.answer(n) != Empty || w.link.at(n) >= w.start + 600_000)
    decreases w.start + 600_000 - w.link.at(i)
  {
    if w.link.answer(i) != Empty || w.link.at(i) >= w.start + 600_000 {
      n := i;
    } else {
      assert w.link.at(i) + BACKOFF_MS <= w.link.at(i + 1);
      n := SomeRequestDecides(w, i + 1);
    }
  }

  /** From a complete directory a pull hands over the old pair at once, if and only if
      it expires more than five minutes after the clock; otherwise the key it hands
      over is a new one. Past the end of time less five minutes everything expires. */
  lemma KeepsExactly(d: Dir, w: World)
    requires Paced(w.link) && d.keystore.Whole? && d.password.Exists() && d.capability.Whole?
    ensures
      var o, expiry := Pulled(d, w), d.capability.value.expiry;
      && (w.now + 300 < expiry <==>
            o == Handed(d.keystore, d.capability, 0, if w.succeeds then Dir(Missing, Missing, Missing) else d))
      && (expiry <= w.now + 300 && o.Handed? ==> o.key == Whole(Key(w.address, w.secret)) && o.requests >= 1)
      && (w.now + 300 > 0xFFFF_FFFF_FFFF_FFFF ==> expiry <= w.now + 300)
  {
  }

  /** Too close to expiry means within five minutes, also at the end of time. */
  lemma MarginIsFiveMinutes(g: Grant, now: U64)
    ensures Expiring(g, now) <==> g.expiry <= now + 300
  {
  }

  /** A pull from an expiring capability goes on as from an empty directory. */
  lemma ExpiringStartsAfresh(d: Dir, w: World)
    requires Paced(w.link) && d.capability.Whole? && d.capability.value.expiry <= w.now + 300
    ensures Pulled(d, w) == Pulled(Dir(Missing, Missing, Missing), w)
  {
  }

  /** Files that are there but cannot be read end a pull before any request: an
      unreadable capability at once, an unreadable keystore once nothing expires. */
  lemma UnreadableStops(d: Dir, w: World)
    requires Paced(w.link)
    requires d.capability == Unreadable
          || (!(d.capability.Whole? && d.capability.value.expiry <= w.now + 300)
              && d.keystore != Missing && !d.keystore.Whole? && d.password != Missing)
    ensures Pulled(d, w) == Stopped(0, d)
  {
  }

  /** From a capability outside the margin and no usable key: it is kept beside the new
      key if there was no keystore, and a new one is asked for if there was. */
  lemma KeyWithoutPassword(d: Dir, w: World)
    requires Paced(w.link) && d.capability.Whole? && w.now + 300 < d.capability.value.expiry
    requires d.keystore == Missing || d.password == Missing
    ensures d.keystore == Missing ==>
      var left := Dir(Whole(Key(w.address, w.secret)), Whole(w.secret), d.capability);
      Pulled(d, w) == Handed(left.keystore, d.capability, 0, if w.succeeds then Dir(Missing, Missing, Missing) else left)
    ensures d.keystore != Missing ==> Pulled(d, w) == Pulled(Dir(Missing, Missing, Missing), w)
  {
  }

  // ---- Re-running the same command ----

  ghost function Reruns(d: Dir, ws: seq<World>): (os: seq<Outcome>)
    requires forall w <- ws :: Paced(w.link)
    ensures |os| == |ws|
    decreases |ws|
  {
    if ws == [] then [] else
      var o := Pulled(d, ws[0]);
      [o] + Reruns(o.dir, ws[1..])
  }

  /** While the saved capability is outside the margin, any number of failed
      re-runs hand over the same key and capability, and never ask the gateway. */
  lemma {:induction false} ResumeNeedsNoGateway(d: Dir, ws: seq<World>)
    requires forall w <- ws :: Paced(w.link) && !w.succeeds
    requires d.keystore.Whole? && d.password.Exists() && d.capability.Whole?
    requires forall w <- ws :: w.now + EXPIRY_MARGIN_SECS < d.capability.value.expiry
    ensures forall o <- Reruns(d, ws) :: o == Handed(d.keystore, d.capability, 0, d)
    decreases |ws|
  {
    if ws == [] {
    } else {
      assert ws[0] in ws;
      assert Pulled(d, ws[0]) == Handed(d.keystore, d.capability, 0, d);
      ResumeNeedsNoGateway(d, ws[1..]);
    }
  }

  // ---- A removal cut short ----

  /** `r` is what a removal of everything in `d` may leave when it is cut short. */
  predicate ResidueOf(r: Dir, d: Dir) {
    && (r.keystore == d.keystore || r.keystore == Missing)
    && (r.password == d.password || r.password == Missing)
    && (r.capability == d.capability || r.capability == Missing)
  }

  /** decdn gets the old pair again, or a fresh key with its own capability. */
  predicate KeepsPairing(d: Dir, w: World, o: Outcome) {
    || (o.Handed? && o.key == d.keystore && o.capability == d.capability)
    || (Matched(o) && o.key == Whole(Key(w.address, w.secret)))
  }

  /** A token that is replaced in the table does not come back to it. */
  ghost predicate StaysReplaced(table: nat -> Table, client: Address, g: Grant) {
    forall i: nat :: HoldsToken(table(i), client, g) ==> HoldsToken(table(0), client, g)
  }

  predicate HoldsToken(table: Table, client: Address, g: Grant) {
    client in table && table[client].token == g
  }

  /** `g` is answered to the pull exactly when the gateway still has it, unexpired,
      at the first request. */
  lemma RepeatsExactly(
    cfg: Config, w: World, client: Address, g: Grant, table: nat -> Table, unix: nat -> U64)
    requires Paced(w.link) && StaysReplaced(table, client, g)
    requires forall i: nat :: client in table(i) ==> RecordFor(cfg, client, table(i)[client])
    requires forall i: nat :: unix(i) >= unix(0)
    requires w.first == Reading(Fetched(table(0), Some(client), unix(0), true))
    requires AsksGateway(w.link, client, (i: nat) => table(i + 1), (i: nat) => unix(i + 1))
    ensures Fetch(w).0 == Some(Dcap(g)) <==> HoldsToken(table(0), client, g) && unix(0) < g.expiry
  {
    forall i: nat | w.link.answer(i) == Token(Dcap(g)) ensures w.first == Token(Dcap(g)) {
      assert w.link.answer(i) == Reading(Fetched(table(i + 1), Some(client), unix(i + 1), true));
      assert HoldsToken(table(i + 1), client, g) && unix(i + 1) < g.expiry;
    }
  }

  /** A discard promises that a replaced capability takes its key with it. Cut
      short, it keeps that promise exactly when neither a usable key has lost its
      capability (unless the gateway still has that one unexpired), nor an
      unexpired capability has lost its keystore. */
  lemma InterruptedDiscard(
    cfg: Config, d: Dir, r: Dir, w: World, client: Address, table: nat -> Table, unix: nat -> U64)
    requires d.keystore.Whole? && d.password.Whole? && d.capability.Whole? && ResidueOf(r, d)
    requires d.capability.value.signer == d.keystore.value.address
    requires Paced(w.link) && FreshFor(d, w) && ClientOf(r, w) == Some(client)
    requires forall i: nat :: client in table(i) ==> RecordFor(cfg, client, table(i)[client])
    requires forall i: nat :: unix(i) >= unix(0)
    requires StaysReplaced(table, client, d.capability.value)
    requires w.first == Reading(Fetched(table(0), Some(client), unix(0), true))
    requires AsksGateway(w.link, client, (i: nat) => table(i + 1), (i: nat) => unix(i + 1))
    requires Pulled(r, w).Handed?
    ensures KeepsPairing(d, w, Pulled(r, w)) <==>
      && (Usable(r) && r.capability.Missing? ==>
            && HoldsToken(table(0), d.keystore.value.address, d.capability.value)
            && unix(0) < d.capability.value.expiry)
      && (r.capability.Whole? && r.keystore.Missing? ==> Expiring(d.capability.value, w.now))
  {
    GatewayIsHonest(cfg, r, w, client, table, unix);
    FetchedIsForClient(r, w);
    RepeatsExactly(cfg, w, client, d.capability.value, table, unix);
  }

  // ---- One call ----

  /** Program points in the order a pull passes them; waiting and removing stay put. */
  function Rank(p: Proc): nat {
    match p
    case Idle => 15
    case Opened => 1
    case Rotating => 2
    case Keying => 3
    case Clearing => 4
    case Generating => 5
    case Typing(_) => 6
    case Minting(_) => 7
    case Keyed(_) => 8
    case Asking(_) => 9
    case Saving(_, _) => 10
    case Writing(_, _) => 11
    case Ready => 12
    case Running => 13
    case Finishing => 14
  }

  lemma {:induction false} RankRises(now: U64, trail: seq<Moment>, i: nat, j: nat)
    requires Steps(now, trail) && i < j < |trail|
    requires forall k :: i <= k < j ==> trail[k].at.proc != Idle
    ensures Rank(trail[i].at.proc) < Rank(trail[j].at.proc)
         || (trail[i].at.proc == trail[j].at.proc && (Removing(trail[i].at.proc) || trail[i].at.proc.Asking?))
  {
    assert Step(now, trail[j - 1], trail[j]);
    if i == j - 1 {
    } else {
      RankRises(now, trail, i, j - 1);
    }
  }

  /** One call generates at most one key and discards for expiry at most once:
      between two such moments the process has ended. */
  lemma OneRotationPerCall(now: U64, trail: seq<Moment>, i: nat, j: nat)
    requires Steps(now, trail) && i < j < |trail|
    requires forall k :: i <= k < j ==> trail[k].at.proc != Idle
    ensures !(trail[i].at.proc.Minting? && trail[j].at.proc.Minting?)
    ensures !(trail[i].at.proc.Keying? && trail[j].at.proc.Rotating?)
    ensures !(trail[i].at.proc.Running? && trail[j].at.proc.Running?)
  {
    RankRises(now, trail, i, j);
  }
}
