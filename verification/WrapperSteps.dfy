/**
 One download's state directory and the wrapper process that works on it, cut
 into atomic file operations. A process may be killed between any two of them.
 */
module WrapperSteps {
  import opened Types

  /** `Garbled`: readable, but not a complete value (a truncated write leaves
      this behind). `Unreadable`: present, but reading it is an error. */
  datatype File<+T> = Missing | Garbled | Unreadable | Whole(value: T) {
    predicate Exists() { !Missing? }
  }

  type Password = nat

  /** A keystore: the address it signs for and the password it was sealed under. */
  datatype Key = Key(address: Address, password: Password)

  datatype Dir = Dir(keystore: File<Key>, password: File<Password>, capability: File<Grant>)

  const EMPTY: Dir := Dir(Missing, Missing, Missing)

  /** The text of a 200 answer: a token, or anything else. */
  datatype Text = Dcap(grant: Grant) | Junk

  /** What the capability file holds once `t` is completely written. */
  function Written(t: Text): File<Grant> {
    match t
    case Dcap(g) => Whole(g)
    case Junk => Garbled
  }

  const EXPIRY_MARGIN_SECS: U64 := 300

  /** Too close to expiry to start another pull with. */
  predicate Expiring(g: Grant, now: U64) {
    g.expiry <= SaturatingAdd(now, EXPIRY_MARGIN_SECS)
  }

  /** Where in the pull the process stands; each value names the next operation. */
  datatype Proc =
    | Idle                                  // no process
    | Opened                                // directory opened; next: expiry check
    | Rotating                              // inside the discard of an expiring capability
    | Keying                                // next: ensure_key
    | Clearing                              // keystore without password removed; next: remove capability
    | Generating                            // next: truncate the password file
    | Typing(secret: Password)              // password file truncated
    | Minting(secret: Password)             // password file complete; next: generate the keystore
    | Keyed(client: Address)                // next: look for a saved capability
    | Asking(client: Address)               // next: a GET /capability
    | Saving(client: Address, text: Text)   // next: truncate the capability file
    | Writing(client: Address, text: Text)  // capability file truncated
    | Ready                                 // next: run decdn
    | Running                               // decdn has been handed the files
    | Finishing                             // inside the discard after a successful pull

  datatype Local = Local(proc: Proc, dir: Dir)

  /** One file of `d` removed; the order of removal is the file system's. */
  predicate RemovedOne(d: Dir, d': Dir) {
    || (d.keystore.Exists() && d' == d.(keystore := Missing))
    || (d.password.Exists() && d' == d.(password := Missing))
    || (d.capability.Exists() && d' == d.(capability := Missing))
  }

  /** One step of the wrapper; `now` is the run's clock reading. The secret, the
      generated address and the gateway's answer are free here. */
  ghost predicate LocalStep(now: U64, l: Local, l': Local) {
    var d, d' := l.dir, l'.dir;
    match l.proc
    case Idle => l' == Local(Opened, d)
    case Opened =>
      l' == Local(
        if d.capability.Unreadable? then Idle
        else if d.capability.Whole? && Expiring(d.capability.value, now) then Rotating
        else Keying, d)
    case Rotating =>
      if d == EMPTY then l' == Local(Keying, d) else l'.proc == Rotating && RemovedOne(d, d')
    case Keying =>
      if !d.keystore.Exists() then l' == Local(Generating, d)
      else if !d.password.Exists() then l' == Local(Clearing, d.(keystore := Missing))
      else if d.keystore.Whole? then l' == Local(Keyed(d.keystore.value.address), d)
      else l' == Local(Idle, d)
    case Clearing => l' == Local(Generating, d.(capability := Missing))
    case Generating => l'.proc.Typing? && d' == d.(password := Garbled)
    case Typing(secret) => l' == Local(Minting(secret), d.(password := Whole(secret)))
    case Minting(secret) =>
      l'.proc.Keyed? && d' == d.(keystore := Whole(Key(l'.proc.client, secret)))
    case Keyed(client) =>
      l' == Local(
        if d.capability.Unreadable? then Idle
        else if d.capability.Whole? then Ready
        else Asking(client), d)
    case Asking(client) =>
      && d' == d
      && (l'.proc == Asking(client) || l'.proc == Idle || (l'.proc.Saving? && l'.proc.client == client))
    case Saving(client, text) => l' == Local(Writing(client, text), d.(capability := Garbled))
    case Writing(client, text) => l' == Local(Ready, d.(capability := Written(text)))
    case Ready => l' == Local(Running, d)
    case Running => d' == d && (l'.proc == Idle || l'.proc == Finishing)
    case Finishing =>
      if d == EMPTY then l' == Local(Idle, d) else l'.proc == Finishing && RemovedOne(d, d')
  }

  /** The directory holds a key that `ensure_key` would reuse. */
  predicate Usable(d: Dir) {
    d.keystore.Exists() && d.password.Exists()
  }

  /** The process is part-way through removing files. */
  predicate Removing(p: Proc) {
    p.Rotating? || p.Finishing? || p.Clearing?
  }
}
