/** `Api::poll_capability`: a deadline loop over `GET /capability`. */
module Polling {
  import opened Types
  import opened WrapperSteps
  import opened Fund

  /** `Api::get_capability`: 204, 200 with a body, or anything else. */
  datatype Answer = Empty | Token(text: Text) | Failed

  /** What the loop will see: the answer to its i-th request, and the monotonic
      clock, in milliseconds, read after that answer. */
  datatype Link = Link(answer: nat -> Answer, at: nat -> nat)

  datatype Polled =
    | Got(text: Text, requests: nat)
    | Broke(requests: nat)
    | TimedOut(requests: nat)

  const BACKOFF_MS: nat := 2000
  const POLL_TIMEOUT_MS: nat := 600_000

  /** Requests are at least one sleep apart. */
  ghost predicate Paced(l: Link) {
    forall i: nat, j: nat :: j == i + 1 ==> l.at(i) + BACKOFF_MS <= l.at(j)
  }

  /** One sleep is two seconds. */
  lemma PacedExactly(l: Link)
    ensures Paced(l) <==> forall i: nat, j: nat :: j == i + 1 ==> l.at(i) + 2000 <= l.at(j)
  {
  }

  /** The outcome of the loop from its i-th request on. */
  ghost function Poll(l: Link, deadline: nat, i: nat): (r: Polled)
    requires Paced(l)
    ensures r.requests > i
    ensures forall j: nat :: i <= j < r.requests - 1 ==> l.answer(j) == Empty && l.at(j) < deadline
    ensures match r
      case Got(text, n) => l.answer(n - 1) == Token(text)
      case Broke(n) => l.answer(n - 1) == Failed
      case TimedOut(n) => l.answer(n - 1) == Empty && l.at(n - 1) >= deadline
    decreases deadline - l.at(i)
  {
    match l.answer(i)
    case Token(text) => Got(text, i + 1)
    case Failed => Broke(i + 1)
    case Empty =>
      if l.at(i) >= deadline then TimedOut(i + 1)
      else assert l.at(i) + BACKOFF_MS <= l.at(i + 1); Poll(l, deadline, i + 1)
  }

  /** The first `n` requests were answered 204, before the deadline. */
  ghost predicate AllEmpty(l: Link, deadline: nat, n: nat) {
    forall j: nat :: j < n ==> l.answer(j) == Empty && l.at(j) < deadline
  }

  method PollCapability(l: Link, start: nat, timeout: nat) returns (r: Polled)
    requires Paced(l)
    ensures r == Poll(l, start + timeout, 0)
  {
    r := PollUntil(l, start + timeout);
  }

  /** `loop`, left by whichever request decides. */
  method PollUntil(l: Link, deadline: nat) returns (r: Polled)
    requires Paced(l)
    ensures r == Poll(l, deadline, 0)
  {
    var i := 0;
    while true
      invariant AllEmpty(l, deadline, i)
      decreases deadline - l.at(i)
    {
      var answer := l.answer(i);
      if answer.Token? {
        r := Got(answer.text, i + 1);
        break;
      }
      if answer.Failed? {
        r := Broke(i + 1);
        break;
      }
      if l.at(i) >= deadline {
        r := TimedOut(i + 1);
        break;
      }
      assert l.at(i) + BACKOFF_MS <= l.at(i + 1);
      i := i + 1;
    }
    FirstStopDecides(l, deadline, i, r);
  }

  /** The request `n` decides, with outcome `r`. */
  predicate Stops(l: Link, deadline: nat, n: nat, r: Polled) {
    match l.answer(n)
    case Token(text) => r == Got(text, n + 1)
    case Failed => r == Broke(n + 1)
    case Empty => l.at(n) >= deadline && r == TimedOut(n + 1)
  }

  /** The loop stops at the first request that is not "empty, before the deadline". */
  lemma FirstStopDecides(l: Link, deadline: nat, n: nat, r: Polled)
    requires Paced(l)
    requires AllEmpty(l, deadline, n)
    requires Stops(l, deadline, n, r)
    ensures Poll(l, deadline, 0) == r
  {
    var last: nat := Poll(l, deadline, 0).requests - 1;
    assert last < n ==> l.answer(last) == Empty && l.at(last) < deadline;
    assert n < last ==> l.answer(n) == Empty && l.at(n) < deadline;
  }

  lemma {:induction false} ClockAdvances(l: Link, i: nat)
    requires Paced(l)
    ensures l.at(i) >= l.at(0) + i * BACKOFF_MS
  {
    if i == 0 {
    } else {
      ClockAdvances(l, i - 1);
      assert l.at(i - 1) + BACKOFF_MS <= l.at(i);
    }
  }

  /** At least one and at most ceil(timeout / 2 s) + 1 requests. */
  lemma RequestsAreBounded(l: Link, start: nat, timeout: nat)
    requires Paced(l) && l.at(0) >= start
    ensures var n := Poll(l, start + timeout, 0).requests;
      1 <= n <= (timeout + 1999) / 2000 + 1
  {
    var n := Poll(l, start + timeout, 0).requests;
    if n >= 2 { ClockAdvances(l, n - 2); }
  }

  /** `Api::get_capability`'s reading of the gateway's reply. */
  function Reading(r: Reply): Answer {
    match r
    case Answered(token) => Token(Dcap(token))
    case NoContent => Empty
    case _ => Failed
  }

  /** It goes by the status: 200 carries the token, 204 says there is none, and
      everything else is an error. */
  lemma ReadsTheStatus(r: Reply)
    ensures Status(r) == 200 <==> Reading(r).Token?
    ensures Status(r) == 204 <==> Reading(r) == Empty
    ensures Status(r) != 200 && Status(r) != 204 <==> Reading(r) == Failed
    ensures r.Answered? ==> Reading(r) == Token(Dcap(r.token))
  {
  }

  /** So the wrapper takes a malformed client or a failed lookup for an error, and an
      expired record for none. */
  lemma WrapperReadsGet(table: Table, client: Option<Address>, now: U64, finds: bool)
    ensures
      var read := Reading(Fetched(table, client, now, finds));
      && (read == Failed <==> client == None || !finds)
      && (read == Empty <==>
            client != None && finds && (client.value in table ==> table[client.value].expiry <= now))
      && (read.Token? ==> client.value in table && read.text == Dcap(table[client.value].token))
  {
  }

  /** The i-th request meets the grant table `table(i)` at the gateway's time
      `unix(i)`, and is answered on the spot. */
  ghost predicate AsksGateway(l: Link, client: Address, table: nat -> Table, unix: nat -> U64) {
    forall i: nat :: l.answer(i) == Reading(Fetched(table(i), Some(client), unix(i), true))
  }

  /** A grant stored by the deadline is not missed: if the first request made
      after it was stored finds it there, still unexpired, the loop ends with a
      token at that request or before. */
  lemma StoredGrantIsNeverMissed(
    l: Link, deadline: nat, client: Address, table: nat -> Table, unix: nat -> U64, stored: nat, n: nat)
    requires Paced(l) && AsksGateway(l, client, table, unix) && stored <= deadline
    requires forall i: nat :: i < n ==> l.at(i) < stored
    requires client in table(n) && unix(n) < table(n)[client].expiry
    ensures var r := Poll(l, deadline, 0);
      && r.Got? && r.requests <= n + 1
      && (r.requests == n + 1 ==> r.text == Dcap(table(n)[client].token))
  {
    var last: nat := Poll(l, deadline, 0).requests - 1;
    assert l.answer(n) == Token(Dcap(table(n)[client].token));
    assert last < n ==> l.at(last) < stored;
    assert l.answer(last) == Reading(Fetched(table(last), Some(client), unix(last), true));
  }
}
