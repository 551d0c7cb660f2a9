/** `session.rs`: one download's state directory, changed one file at a time. */
module Sessions {
  import opened Types
  import opened WrapperSteps

  /** What the world outside the directory sees of a process: a key drawn, a
      gateway's answer taken, `decdn` started on the files it is pointed at. */
  datatype Act =
    | Generated(address: Address)
    | Obtained(client: Address, text: Text)
    | Started(key: File<Key>, capability: File<Grant>)

  function ActOf(l: Local, l': Local): Option<Act> {
    if l.proc.Minting? && l'.proc.Keyed? then Some(Generated(l'.proc.client))
    else if l.proc.Asking? && l'.proc.Saving? then Some(Obtained(l'.proc.client, l'.proc.text))
    else if l.proc.Ready? then Some(Started(l.dir.keystore, l.dir.capability))
    else None
  }

  function Then(acts: seq<Act>, a: Option<Act>): seq<Act> {
    match a
    case None => acts
    case Some(act) => acts + [act]
  }

  /** A moment of a process, with all it has done so far. */
  datatype Moment = Moment(at: Local, acts: seq<Act>)

  ghost predicate Step(now: U64, m: Moment, m': Moment) {
    LocalStep(now, m.at, m'.at) && m'.acts == Then(m.acts, ActOf(m.at, m'.at))
  }

  /** Every consecutive pair of moments is one atomic step. */
  ghost predicate Steps(now: U64, trail: seq<Moment>) {
    forall i :: 0 <= i < |trail| - 1 ==> Step(now, trail[i], trail[i + 1])
  }

  /** What `ensure_key` makes of `d`: the new contents and the client address,
      `None` when the keystore cannot be read. */
  function EnsuredKey(d: Dir, secret: Password, address: Address): (Dir, Option<Address>) {
    if Usable(d) then
      (d, if d.keystore.Whole? then Some(d.keystore.value.address) else None)
    else
      (Dir(Whole(Key(address, secret)), Whole(secret), if d.keystore.Exists() then Missing else d.capability),
       Some(address))
  }

  class Session {
    var keystore: File<Key>
    var password: File<Password>
    var capability: File<Grant>
    /** Every moment at which the process could have been killed. */
    ghost var trail: seq<Moment>

    function Files(): Dir
      reads this
    {
      Dir(keystore, password, capability)
    }

    ghost function At(): Proc
      requires trail != []
      reads this
    {
      trail[|trail| - 1].at.proc
    }

    /** Everything done so far. */
    ghost function Acts(): seq<Act>
      requires trail != []
      reads this
    {
      trail[|trail| - 1].acts
    }

    ghost predicate Valid(now: U64)
      reads this
    {
      && trail != []
      && trail[|trail| - 1].at.dir == Files()
      && Steps(now, trail)
    }

    /** The directory as some earlier run, or anything else, left it. */
    constructor (d: Dir)
      ensures Files() == d && trail == [Moment(Local(Idle, d), [])]
      ensures forall now :: Valid(now)
    {
      keystore, password, capability := d.keystore, d.password, d.capability;
      trail := [Moment(Local(Idle, d), [])];
    }

    /** Record that the process has reached `p`, one step after the last record. */
    ghost method Mark(now: U64, p: Proc, act: Option<Act> := None)
      requires trail != [] && Steps(now, trail)
      requires LocalStep(now, trail[|trail| - 1].at, Local(p, Files()))
      requires act == ActOf(trail[|trail| - 1].at, Local(p, Files()))
      modifies this`trail
      ensures trail == old(trail) + [Moment(Local(p, Files()), Then(old(Acts()), act))]
      ensures Valid(now)
    {
      trail := trail + [Moment(Local(p, Files()), Then(Acts(), act))];
    }

    /** The key's address, generating the key on first use. */
    method EnsureKey(ghost now: U64, secret: Password, address: Address) returns (client: Option<Address>)
      requires Valid(now) && At() == Keying
      modifies this
      ensures Valid(now) && old(trail) <= trail
      ensures (Files(), client) == EnsuredKey(old(Files()), secret, address)
      ensures At() == if client.Some? then Keyed(client.value) else Idle
      ensures Acts() == Then(old(Acts()), if Usable(old(Files())) then None else Some(Generated(address)))
    {
      if keystore.Exists() {
        if password.Exists() {
          if keystore.Whole? {
            Mark(now, Keyed(keystore.value.address));
            return Some(keystore.value.address);
          }
          Mark(now, Idle);
          return None;
        }
        keystore := Missing;
        Mark(now, Clearing);
        capability := Missing;
      }
      Mark(now, Generating);
      Generate(now, secret, address);
      return Some(address);
    }

    /** A password, and the keystore sealed under it. */
    method Generate(ghost now: U64, secret: Password, address: Address)
      requires Valid(now) && At() == Generating
      modifies this
      ensures Valid(now) && old(trail) <= trail && At() == Keyed(address)
      ensures Files() == old(Files()).(keystore := Whole(Key(address, secret)), password := Whole(secret))
      ensures Acts() == Then(old(Acts()), Some(Generated(address)))
    {
      WritePassword(now, secret);
      keystore := Whole(Key(address, secret));
      Mark(now, Keyed(address), Some(Generated(address)));
    }

    /** `write_private` on the password file: truncate, then write. */
    method WritePassword(ghost now: U64, secret: Password)
      requires Valid(now) && At() == Generating
      modifies this
      ensures Valid(now) && old(trail) <= trail && At() == Minting(secret)
      ensures Files() == old(Files()).(password := Whole(secret))
      ensures Acts() == old(Acts())
    {
      password := Garbled;
      Mark(now, Typing(secret));
      password := Whole(secret);
      Mark(now, Minting(secret));
    }

    /** `write_private` on the capability file: truncate, then write. */
    method SaveCapability(ghost now: U64, client: Address, text: Text)
      requires Valid(now) && At() == Saving(client, text)
      modifies this
      ensures Valid(now) && old(trail) <= trail && At() == Ready
      ensures Files() == old(Files()).(capability := Written(text))
      ensures Acts() == old(Acts())
    {
      capability := Garbled;
      Mark(now, Writing(client, text));
      capability := match text case Dcap(g) => Whole(g) case Junk => Garbled;
      Mark(now, Ready);
    }

    /** `remove_dir_all`: the files go one by one, in whatever order. */
    method Discard(ghost now: U64)
      requires Valid(now) && (At() == Rotating || At() == Finishing)
      modifies this
      ensures Valid(now) && old(trail) <= trail
      ensures Files() == EMPTY
      ensures At() == if old(At()) == Rotating then Keying else Idle
      ensures Acts() == old(Acts())
    {
      ghost var removing := At();
      while
        invariant Valid(now) && old(trail) <= trail && At() == removing
        invariant Acts() == old(Acts())
        decreases keystore.Exists(), password.Exists(), capability.Exists()
      {
        case keystore.Exists() =>
          keystore := Missing;
          Mark(now, removing);
        case password.Exists() =>
          password := Missing;
          Mark(now, removing);
        case capability.Exists() =>
          capability := Missing;
          Mark(now, removing);
      }
      Mark(now, if removing == Rotating then Keying else Idle);
    }
  }
}
