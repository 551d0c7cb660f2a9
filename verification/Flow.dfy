/** `flow::pull`: the wrapper's client state machine. */
module Flow {
  import opened Types
  import opened WrapperSteps
  import opened Polling
  import opened Sessions

  /** Everything one `pull` learns from outside its directory. */
  datatype World = World(
    now: U64,            // the clock, read once
    secret: Password,    // the password drawn, if a key is generated
    address: Address,    // the address drawn, if a key is generated
    first: Answer,       // the answer to the first GET /capability
    link: Link,          // what polling would see after a 204
    start: nat,          // the monotonic clock when polling starts
    succeeds: bool)      // decdn's exit status

  /** How a pull ends: before decdn, or with what decdn was given; with the
      number of requests made and the directory left behind. */
  datatype Outcome =
    | Stopped(requests: nat, dir: Dir)
    | Handed(key: File<Key>, capability: File<Grant>, requests: nat, dir: Dir)

  predicate IsExpiring(d: Dir, now: U64) {
    d.capability.Whole? && Expiring(d.capability.value, now)
  }

  ghost function Fetch(w: World): (Option<Text>, nat)
    requires Paced(w.link)
  {
    match w.first
    case Token(text) => (Some(text), 1)
    case Failed => (None, 1)
    case Empty =>
      match Poll(w.link, w.start + POLL_TIMEOUT_MS, 0)
      case Got(text, n) => (Some(text), 1 + n)
      case Broke(n) => (None, 1 + n)
      case TimedOut(n) => (None, 1 + n)
  }

  ghost function Hand(d: Dir, requests: nat, succeeds: bool): Outcome {
    Handed(d.keystore, d.capability, requests, if succeeds then EMPTY else d)
  }

  /** The rest of a pull once there is a key. */
  ghost function Delivered(d: Dir, w: World): Outcome
    requires Paced(w.link)
  {
    if d.capability.Whole? then Hand(d, 0, w.succeeds)
    else
      var (text, requests) := Fetch(w);
      if text.None? then Stopped(requests, d)
      else Hand(d.(capability := Written(text.value)), requests, w.succeeds)
  }

  ghost function DeliveryActs(earlier: seq<Act>, d: Dir, client: Address, w: World): seq<Act>
    requires Paced(w.link)
  {
    if d.capability.Whole? then Then(earlier, Some(Started(d.keystore, d.capability)))
    else
      var text := Fetch(w).0;
      if text.None? then earlier
      else Then(Then(earlier, Some(Obtained(client, text.value))), Some(Started(d.keystore, Written(text.value))))
  }

  /** An uninterrupted pull from directory contents `d`. */
  ghost function Pulled(d: Dir, w: World): Outcome
    requires Paced(w.link)
  {
    if d.capability.Unreadable? then Stopped(0, d)
    else
      var (d1, client) := EnsuredKey(if IsExpiring(d, w.now) then EMPTY else d, w.secret, w.address);
      if client.None? then Stopped(0, d1) else Delivered(d1, w)
  }

  /** What it does to the world outside its directory, in order. */
  ghost function PullActs(earlier: seq<Act>, d: Dir, w: World): seq<Act>
    requires Paced(w.link)
  {
    if d.capability.Unreadable? then earlier
    else
      var d0 := if IsExpiring(d, w.now) then EMPTY else d;
      var (d1, client) := EnsuredKey(d0, w.secret, w.address);
      var keyed := Then(earlier, if Usable(d0) then None else Some(Generated(w.address)));
      if client.None? then keyed else DeliveryActs(keyed, d1, client.value, w)
  }

  /** The text of a capability for `client`, if the gateway gave one. */
  method Obtain(ghost client: Address, w: World) returns (text: Option<Text>, requests: nat)
    requires Paced(w.link)
    ensures (text, requests) == Fetch(w)
  {
    match w.first {
      case Token(t) => return Some(t), 1;
      case Failed => return None, 1;
      case Empty =>
        var polled := PollCapability(w.link, w.start, POLL_TIMEOUT_MS);
        match polled {
          case Got(t, n) => return Some(t), 1 + n;
          case Broke(n) => return None, 1 + n;
          case TimedOut(n) => return None, 1 + n;
        }
    }
  }

  /** The expiry check: an expiring capability takes its key down with it. */
  method Rotate(session: Session, now: U64)
    requires session.Valid(now) && session.At() == Opened && !session.capability.Unreadable?
    modifies session
    ensures session.Valid(now) && session.At() == Keying && old(session.trail) <= session.trail
    ensures session.Files() ==
            if IsExpiring(old(session.Files()), now) then EMPTY else old(session.Files())
    ensures
      var d := old(session.Files());
      && (d.capability.Whole? && d.capability.value.expiry <= now + 300 ==> session.Files() == EMPTY)
      && (d.capability.Whole? && now + 300 < d.capability.value.expiry ==> session.Files() == d)
      && (d.capability.Whole? && now + 300 > 0xFFFF_FFFF_FFFF_FFFF ==> session.Files() == EMPTY)
      && (!d.capability.Whole? ==> session.Files() == d)
    ensures session.Acts() == old(session.Acts())
  {
    if session.capability.Whole? && Expiring(session.capability.value, now) {
      session.Mark(now, Rotating);
      session.Discard(now);
    } else {
      session.Mark(now, Keying);
    }
  }

  /** Make sure the key has a capability; `ok` is false when the gateway gave none. */
  method EnsureCapability(session: Session, client: Address, w: World) returns (ok: bool, requests: nat)
    requires Paced(w.link)
    requires session.Valid(w.now) && session.At() == Keyed(client) && !session.capability.Unreadable?
    modifies session
    ensures old(session.capability).Whole? ==> ok && requests == 0 && session.Files() == old(session.Files())
    ensures !old(session.capability).Whole? ==>
      && requests == Fetch(w).1 && ok == Fetch(w).0.Some?
      && session.Files() == if ok then old(session.Files()).(capability := Written(Fetch(w).0.value))
                                  else old(session.Files())
    ensures session.Valid(w.now) && old(session.trail) <= session.trail
    ensures session.At() == if ok then Ready else Idle
    ensures session.Acts() == Then(old(session.Acts()),
              if ok && !old(session.capability).Whole? then Some(Obtained(client, Fetch(w).0.value)) else None)
  {
    if session.capability.Whole? {
      session.Mark(w.now, Ready);
      return true, 0;
    }
    session.Mark(w.now, Asking(client));
    var text;
    text, requests := Obtain(client, w);
    ok := text.Some?;
    if ok {
      session.Mark(w.now, Saving(client, text.value), Some(Obtained(client, text.value)));
      session.SaveCapability(w.now, client, text.value);
    } else {
      session.Mark(w.now, Idle);
    }
  }

  /** Run decdn on the three files; a success deletes the state. */
  method Run(session: Session, now: U64, requests: nat, succeeds: bool) returns (o: Outcome)
    requires session.Valid(now) && session.At() == Ready
    modifies session
    ensures o == Hand(old(session.Files()), requests, succeeds)
    ensures session.Files() == o.dir
    ensures session.Valid(now) && session.At() == Idle && old(session.trail) <= session.trail
    ensures session.Acts() == Then(old(session.Acts()), Some(Started(o.key, o.capability)))
  {
    var key, capability := session.keystore, session.capability;
    session.Mark(now, Running, Some(Started(key, capability)));
    if succeeds {
      session.Mark(now, Finishing);
      session.Discard(now);
    } else {
      session.Mark(now, Idle);
    }
    return Handed(key, capability, requests, session.Files());
  }

  /** A capability for the key, and decdn. */
  method Deliver(session: Session, client: Address, w: World) returns (o: Outcome)
    requires Paced(w.link)
    requires session.Valid(w.now) && session.At() == Keyed(client) && !session.capability.Unreadable?
    modifies session
    ensures o == Delivered(old(session.Files()), w)
    ensures session.Files() == o.dir
    ensures session.Valid(w.now) && session.At() == Idle && old(session.trail) <= session.trail
    ensures session.Acts() == DeliveryActs(old(session.Acts()), old(session.Files()), client, w)
  {
    var ok, requests := EnsureCapability(session, client, w);
    if !ok { return Stopped(requests, session.Files()); }
    o := Run(session, w.now, requests, w.succeeds);
  }

  /** The pull itself. Its trail records every moment at which it could have been
      killed, is a path of the wrapper's atomic steps, and does what `PullActs` says. */
  method Pull(session: Session, w: World) returns (o: Outcome)
    requires Paced(w.link)
    requires session.Valid(w.now) && session.At() == Idle
    modifies session
    ensures o == Pulled(old(session.Files()), w)
    ensures session.Files() == o.dir
    ensures session.Valid(w.now) && session.At() == Idle && old(session.trail) <= session.trail
    ensures session.Acts() == PullActs(old(session.Acts()), old(session.Files()), w)
  {
    session.Mark(w.now, Opened);
    if session.capability.Unreadable? {
      session.Mark(w.now, Idle);
      return Stopped(0, session.Files());
    }
    Rotate(session, w.now);
    var client := session.EnsureKey(w.now, w.secret, w.address);
    if client.None? { return Stopped(0, session.Files()); }
    o := Deliver(session, client.value, w);
  }
}
