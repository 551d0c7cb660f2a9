/** `GET /capability` with anything happening between its lookup and its answer. */
module InterleavedGet {
  import opened Types
  import opened Protocol

  /** The GET handler `j` does not answer at any of these events. */
  predicate Silent(events: seq<Event>, j: nat, p: nat, n: nat)
    requires p <= n <= |events|
  {
    forall i :: p < i < n ==> events[i] != Serve(GetAnswers(j))
  }

  lemma LookupStaysOnce(cfg: Config, states: seq<State>, events: seq<Event>, n: nat, j: nat)
    requires IsRun(cfg, states, events) && n < |events|
    requires j in states[n].gateway.gets && events[n] != Serve(GetAnswers(j))
    ensures j in states[n + 1].gateway.gets && states[n + 1].gateway.gets[j] == states[n].gateway.gets[j]
  {
    assert Enabled(states[n], events[n]) && states[n + 1] == Apply(cfg, states[n], events[n]);
  }

  lemma LookupFinds(cfg: Config, states: seq<State>, events: seq<Event>, n: nat, j: nat, a: Address)
    requires IsRun(cfg, states, events) && n < |events| && events[n] == Serve(GetLooksUp(j, a))
    ensures j in states[n + 1].gateway.gets && states[n + 1].gateway.gets[j].signer == a
    ensures var table, found := states[n].gateway.table, states[n + 1].gateway.gets[j].found;
      if a in table then found == Some(table[a]) else found == None
  {
    assert Enabled(states[n], events[n]) && states[n + 1] == Apply(cfg, states[n], events[n]);
  }

  /** What was looked up stands, and the handler can answer at any time after it. */
  lemma {:induction false} LookupStands(
    cfg: Config, states: seq<State>, events: seq<Event>, p: nat, n: nat, j: nat, a: Address)
    requires IsRun(cfg, states, events) && p < n <= |events|
    requires events[p] == Serve(GetLooksUp(j, a)) && Silent(events, j, p, n)
    ensures Enabled(states[n], Serve(GetAnswers(j)))
    ensures states[n].gateway.gets[j].signer == a
    ensures var table, found := states[p].gateway.table, states[n].gateway.gets[j].found;
      if a in table then found == Some(table[a]) else found == None
  {
    if n == p + 1 {
      LookupFinds(cfg, states, events, p, j, a);
    } else {
      LookupStands(cfg, states, events, p, n - 1, j, a);
      LookupStaysOnce(cfg, states, events, n - 1, j);
    }
  }

  /** The answer is the record found at the lookup, whatever became of it since, if it
      is unexpired on the clock at the answer; otherwise there is none. The table and
      all other handlers are left alone. */
  lemma GetAnswersWhatItFound(
    cfg: Config, states: seq<State>, events: seq<Event>, p: nat, q: nat, j: nat, a: Address)
    requires IsRun(cfg, states, events) && p < q < |events| && Silent(events, j, p, q)
    requires events[p] == Serve(GetLooksUp(j, a)) && events[q] == Serve(GetAnswers(j))
    ensures var table, clock, w, w' :=
        states[p].gateway.table, states[q].clock, states[q].gateway, states[q + 1].gateway;
      && w'.answered == (
           if a in table && clock < table[a].expiry
           then w.answered + {Answer(GetCapability, a, table[a].token, clock)} else w.answered)
      && w'.table == w.table && w'.posts == w.posts && w'.gets == w.gets - {j}
  {
    LookupStands(cfg, states, events, p, q, j, a);
    assert states[q + 1] == Apply(cfg, states[q], events[q]);
  }
}
