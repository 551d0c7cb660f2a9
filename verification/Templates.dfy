/** Templates with named placeholders, filled by successive `str::replace` passes. */
module Templates {
  import opened ReleaseTag

  /** Rust's `str::replace` with a non-empty pattern: the leftmost
      non-overlapping matches. */
  function Replace(s: string, from: string, to: string): string
    requires from != ""
  {
    if |s| < |from| then s
    else if from <= s then to + Replace(s[|from|..], from, to)
    else [s[0]] + Replace(s[1..], from, to)
  }

  /** Successive passes, one for each name and value. */
  function Passes(s: string, subs: seq<(string, string)>): string
    decreases |subs|
  {
    if subs == [] then s else Passes(Replace(s, Mark(subs[0].0), subs[0].1), subs[1..])
  }

  /** The placeholder for `name`. */
  function Mark(name: string): string {
    "{{" + name + "}}"
  }

  datatype Piece = Lit(text: string) | Hole(name: string) {
    function Text(): string {
      match this
      case Lit(text) => text
      case Hole(name) => Mark(name)
    }
  }

  function Flatten(ps: seq<Piece>): string {
    if ps == [] then "" else ps[0].Text() + Flatten(ps[1..])
  }

  /** No two opening braces in a row. */
  predicate NoDouble(s: string) {
    forall i, j :: 0 <= i && j == i + 1 < |s| ==> !(s[i] == '{' && s[j] == '{')
  }

  predicate EndsOpen(s: string) {
    s != "" && s[|s| - 1] == '{'
  }

  /** Literal text that cannot take part in the start of a placeholder. */
  predicate Plain(s: string) {
    NoDouble(s) && !EndsOpen(s)
  }

  predicate Braceless(s: string) {
    '{' !in s && '}' !in s
  }

  predicate PieceOk(p: Piece) {
    match p
    case Lit(text) => Plain(text)
    case Hole(name) => Braceless(name)
  }

  /** Literals and placeholders in any order. */
  predicate IsTemplate(ps: seq<Piece>) {
    forall p <- ps :: PieceOk(p)
  }

  /** One pass, on pieces. */
  function Fill(ps: seq<Piece>, name: string, value: string): (r: seq<Piece>)
    ensures |r| == |ps|
  {
    if ps == [] then [] else
      [if ps[0] == Hole(name) then Lit(value) else ps[0]] + Fill(ps[1..], name, value)
  }

  /** All placeholders at once. */
  function FillAll(ps: seq<Piece>, values: map<string, string>): (r: seq<Piece>)
    ensures |r| == |ps|
  {
    if ps == [] then [] else
      [if ps[0].Hole? && ps[0].name in values then Lit(values[ps[0].name]) else ps[0]]
      + FillAll(ps[1..], values)
  }

  function Values(subs: seq<(string, string)>): map<string, string> {
    if subs == [] then map[] else Values(subs[1..])[subs[0].0 := subs[0].1]
  }

  // ---- One pass ----

  /** `v` contains no placeholder for `name`, and does not end in the start of one. */
  predicate Inert(v: string, name: string) {
    forall i :: 0 <= i < |v| ==> !(v[i..] <= Mark(name)) && !(Mark(name) <= v[i..])
  }

  lemma PlainIsInert(t: string, name: string)
    requires Plain(t)
    ensures Inert(t, name)
  {
    forall i | 0 <= i < |t| ensures !(t[i..] <= Mark(name)) && !(Mark(name) <= t[i..]) {
      var s := t[i..];
      assert Mark(name)[0] == '{' && Mark(name)[1] == '{';
      assert s[0] == t[i] && (|s| > 1 ==> s[1] == t[i + 1]);
      assert |s| == 1 ==> i == |t| - 1;
    }
  }

  lemma BracefreeIsInert(v: string, name: string)
    requires '{' !in v
    ensures Plain(v) && Inert(v, name)
  {
    PlainIsInert(v, name);
  }

  lemma InertTail(t: string, name: string)
    requires Inert(t, name) && t != ""
    ensures Inert(t[1..], name)
  {
    forall i | 0 <= i < |t[1..]| ensures t[1..][i..] == t[i + 1..] {
    }
  }

  /** A pass runs through inert text without a match, also at the seam. */
  lemma {:induction false} ReplaceSkipsInert(t: string, rest: string, name: string, v: string)
    requires Inert(t, name)
    ensures Replace(t + rest, Mark(name), v) == t + Replace(rest, Mark(name), v)
  {
    var s := t + rest;
    if t == "" {
      assert s == rest;
    } else if |s| >= |Mark(name)| {
      assert t[0..] == t;
      assert Mark(name) <= s && |t| <= |Mark(name)| ==> t <= Mark(name);
      assert Mark(name) <= s && |t| > |Mark(name)| ==> Mark(name) <= t;
      assert s[1..] == t[1..] + rest;
      InertTail(t, name);
      ReplaceSkipsInert(t[1..], rest, name, v);
    }
  }

  /** Two placeholders with different names do not match, even as a prefix. */
  lemma MarksDiffer(m: string, name: string, rest: string)
    requires Braceless(m) && Braceless(name) && m != name
    ensures !(Mark(name) <= Mark(m) + rest)
  {
    var s := Mark(m) + rest;
    if |m| == |name| {
      var i :| 0 <= i < |m| && m[i] != name[i];
      assert Mark(name)[2 + i] == name[i] && s[2 + i] == m[i];
    } else if |m| < |name| {
      assert name[|m|] in name;
      assert Mark(name)[2 + |m|] == name[|m|] && s[2 + |m|] == '}';
    } else {
      assert m[|name|] in m;
      assert Mark(name)[2 + |name|] == '}' && s[2 + |name|] == m[|name|];
    }
  }

  /** What is left of a placeholder after its first characters opens nothing. */
  lemma MarkTailIsPlain(m: string, k: nat)
    requires Braceless(m) && 0 < k <= |Mark(m)|
    ensures Plain(Mark(m)[k..])
  {
    var tail := Mark(m)[k..];
    forall j | 1 <= j < |tail| ensures tail[j] != '{' {
      assert tail[j] == Mark(m)[k + j];
      assert k + j - 2 < |m| ==> tail[j] == m[k + j - 2] && m[k + j - 2] in m;
    }
    if |tail| == 1 { assert tail[0] == Mark(m)[|Mark(m)| - 1] == '}'; }
  }

  lemma ReplaceSkipsHole(m: string, rest: string, name: string, v: string)
    requires Braceless(m) && Braceless(name) && m != name
    ensures Replace(Mark(m) + rest, Mark(name), v) == Mark(m) + Replace(rest, Mark(name), v)
  {
    var tail := Mark(m)[1..];
    var s := Mark(m) + rest;
    assert s[1..] == tail + rest && Mark(m) == ['{'] + tail;
    MarkTailIsPlain(m, 1);
    PlainIsInert(tail, name);
    ReplaceSkipsInert(tail, rest, name, v);
    MarksDiffer(m, name, rest);
  }

  lemma ReplaceFillsHole(name: string, rest: string, v: string)
    ensures Replace(Mark(name) + rest, Mark(name), v) == v + Replace(rest, Mark(name), v)
  {
    assert (Mark(name) + rest)[|Mark(name)|..] == rest;
  }

  /** Pieces in which a pass for `name` finds nothing but its own placeholders. */
  predicate Skips(p: Piece, name: string) {
    match p
    case Lit(text) => Inert(text, name)
    case Hole(m) => Braceless(m)
  }

  /** One pass fills exactly its own placeholders: no match in literals, at seams
      or in other placeholders. */
  lemma {:induction false} ReplaceIsFill(ps: seq<Piece>, name: string, v: string)
    requires Braceless(name) && forall p <- ps :: Skips(p, name)
    ensures Replace(Flatten(ps), Mark(name), v) == Flatten(Fill(ps, name, v))
  {
    if ps == [] {
    } else {
      assert Skips(ps[0], name);
      ReplaceIsFill(ps[1..], name, v);
      match ps[0]
      case Lit(text) => ReplaceSkipsInert(text, Flatten(ps[1..]), name, v);
      case Hole(m) =>
        if m == name {
          ReplaceFillsHole(name, Flatten(ps[1..]), v);
        } else {
          ReplaceSkipsHole(m, Flatten(ps[1..]), name, v);
        }
    }
  }

  lemma {:induction false} ReplaceByItself(s: string, from: string)
    requires from != ""
    ensures Replace(s, from, from) == s
  {
    if |s| < |from| {
    } else if from <= s {
      ReplaceByItself(s[|from|..], from);
      assert s == from + s[|from|..];
    } else {
      ReplaceByItself(s[1..], from);
    }
  }

  lemma {:induction false} FillByItself(ps: seq<Piece>, name: string)
    ensures Flatten(Fill(ps, name, Mark(name))) == Flatten(ps)
  {
    if ps == [] {
    } else {
      FillByItself(ps[1..], name);
      assert Fill(ps, name, Mark(name))[1..] == Fill(ps[1..], name, Mark(name));
    }
  }

  // ---- All passes ----

  /** The pass for `later` leaves `v` alone: it finds nothing in it, or replaces its
      placeholder by itself. */
  predicate Settles(v: string, later: (string, string)) {
    Inert(v, later.0) || later.1 == Mark(later.0)
  }

  predicate Settled(subs: seq<(string, string)>) {
    && (forall s <- subs :: Braceless(s.0))
    && (forall i, j :: 0 <= i < j < |subs| ==> Settles(subs[i].1, subs[j]))
  }

  predicate SettledPiece(p: Piece, subs: seq<(string, string)>) {
    match p
    case Lit(text) => forall s <- subs :: Settles(text, s)
    case Hole(m) => Braceless(m)
  }

  lemma {:induction false} FillThenAll(ps: seq<Piece>, name: string, v: string, values: map<string, string>)
    ensures FillAll(Fill(ps, name, v), values) == FillAll(ps, values[name := v])
  {
    if ps == [] {
    } else {
      FillThenAll(ps[1..], name, v, values);
      assert Fill(ps, name, v)[1..] == Fill(ps[1..], name, v);
    }
  }

  lemma {:induction false} FillKeeps(ps: seq<Piece>, name: string, v: string, subs: seq<(string, string)>)
    requires forall p <- ps :: SettledPiece(p, subs)
    requires SettledPiece(Lit(v), subs)
    ensures forall p <- Fill(ps, name, v) :: SettledPiece(p, subs)
  {
    if ps == [] {
    } else {
      assert ps[0] in ps;
      FillKeeps(ps[1..], name, v, subs);
    }
  }

  lemma {:induction false} FillNone(ps: seq<Piece>)
    ensures FillAll(ps, map[]) == ps
  {
    if ps == [] {
    } else {
      FillNone(ps[1..]);
    }
  }

  lemma OnePass(ps: seq<Piece>, sub: (string, string))
    requires Braceless(sub.0) && forall p <- ps :: SettledPiece(p, [sub])
    ensures Replace(Flatten(ps), Mark(sub.0), sub.1) == Flatten(Fill(ps, sub.0, sub.1))
  {
    if sub.1 == Mark(sub.0) {
      ReplaceByItself(Flatten(ps), sub.1);
      FillByItself(ps, sub.0);
    } else {
      forall p | p in ps ensures Skips(p, sub.0) {
        assert SettledPiece(p, [sub]) && sub in [sub];
      }
      ReplaceIsFill(ps, sub.0, sub.1);
    }
  }

  lemma FewerPasses(p: Piece, subs: seq<(string, string)>)
    requires subs != [] && SettledPiece(p, subs)
    ensures SettledPiece(p, [subs[0]]) && SettledPiece(p, subs[1..])
  {
    assert forall s <- subs[1..] :: s in subs;
  }

  lemma {:induction false} PassesAreFillAll(ps: seq<Piece>, subs: seq<(string, string)>)
    requires Settled(subs) && forall p <- ps :: SettledPiece(p, subs)
    ensures Passes(Flatten(ps), subs) == Flatten(FillAll(ps, Values(subs)))
    decreases |subs|
  {
    if subs == [] {
      FillNone(ps);
    } else {
      var (name, v) := subs[0];
      forall p | p in ps ensures SettledPiece(p, [subs[0]]) && SettledPiece(p, subs[1..]) {
        FewerPasses(p, subs);
      }
      assert subs[0] in subs;
      OnePass(ps, subs[0]);
      forall s | s in subs[1..] ensures Settles(v, s) {
        var j :| 0 <= j < |subs[1..]| && subs[1..][j] == s;
        assert subs[j + 1] == s;
      }
      FillKeeps(ps, name, v, subs[1..]);
      assert Settled(subs[1..]) by { assert forall s <- subs[1..] :: s in subs; }
      PassesAreFillAll(Fill(ps, name, v), subs[1..]);
      FillThenAll(ps, name, v, Values(subs[1..]));
    }
  }

  lemma TemplateIsSettled(ps: seq<Piece>, subs: seq<(string, string)>)
    requires IsTemplate(ps)
    ensures forall p <- ps :: SettledPiece(p, subs)
  {
    forall p | p in ps ensures SettledPiece(p, subs) {
      assert PieceOk(p);
      if p.Lit? {
        forall s | s in subs ensures Settles(p.text, s) { PlainIsInert(p.text, s.0); }
      }
    }
  }

  /** Successive passes are one simultaneous substitution, if each value is left
      alone by the later passes. */
  lemma PassesAreSimultaneous(ps: seq<Piece>, subs: seq<(string, string)>)
    requires IsTemplate(ps) && Settled(subs)
    ensures Passes(Flatten(ps), subs) == Flatten(FillAll(ps, Values(subs)))
  {
    TemplateIsSettled(ps, subs);
    PassesAreFillAll(ps, subs);
  }

  predicate DistinctNames(subs: seq<(string, string)>) {
    forall i, j :: 0 <= i < j < |subs| ==> subs[i].0 != subs[j].0
  }

  predicate Maps(m: map<string, string>, n: string, v: string) {
    n in m && m[n] == v
  }

  lemma {:induction false} ValuesAreMembers(subs: seq<(string, string)>, n: string, v: string)
    requires DistinctNames(subs)
    ensures (n, v) in subs <==> Maps(Values(subs), n, v)
  {
    if subs == [] {
    } else {
      ValuesAreMembers(subs[1..], n, v);
      assert subs == [subs[0]] + subs[1..];
      assert forall j :: 0 <= j < |subs[1..]| ==> subs[1..][j].0 != subs[0].0;
    }
  }

  lemma SameValues(a: map<string, string>, b: map<string, string>)
    requires forall n, v :: Maps(a, n, v) <==> Maps(b, n, v)
    ensures a == b
  {
    forall n | n in a ensures n in b && a[n] == b[n] {
      assert Maps(a, n, a[n]);
    }
    forall n | n in b ensures n in a {
      assert Maps(b, n, b[n]);
    }
  }

  /** Of all orders of the passes, those that are settled give the same text. */
  lemma PassOrderIsFree(ps: seq<Piece>, subs: seq<(string, string)>, subs': seq<(string, string)>)
    requires IsTemplate(ps) && Settled(subs) && Settled(subs')
    requires DistinctNames(subs) && DistinctNames(subs')
    requires forall s :: s in subs <==> s in subs'
    ensures Passes(Flatten(ps), subs) == Passes(Flatten(ps), subs')
  {
    PassesAreSimultaneous(ps, subs);
    PassesAreSimultaneous(ps, subs');
    forall n, v ensures Maps(Values(subs), n, v) <==> Maps(Values(subs'), n, v) {
      ValuesAreMembers(subs, n, v);
      ValuesAreMembers(subs', n, v);
    }
    SameValues(Values(subs), Values(subs'));
  }

  /** No placeholder survives when every one has a value. */
  lemma {:induction false} NothingLeft(ps: seq<Piece>, values: map<string, string>)
    requires IsTemplate(ps)
    requires forall p <- ps :: p.Hole? ==> p.name in values && Plain(values[p.name])
    ensures Plain(Flatten(FillAll(ps, values)))
  {
    if ps == [] {
    } else {
      NothingLeft(ps[1..], values);
      assert PieceOk(ps[0]) && ps[0] in ps;
      var head := FillAll(ps, values)[0].Text();
      var rest := Flatten(FillAll(ps[1..], values));
      assert FillAll(ps, values)[1..] == FillAll(ps[1..], values);
      assert Flatten(FillAll(ps, values)) == head + rest;
      assert Plain(head);
      PlainJoins(head, rest);
    }
  }

  lemma PlainJoins(a: string, b: string)
    requires Plain(a) && Plain(b)
    ensures Plain(a + b)
  {
    var s := a + b;
    forall i, j | 0 <= i && j == i + 1 < |s| ensures !(s[i] == '{' && s[j] == '{') {
      assert j < |a| ==> s[i] == a[i] && s[j] == a[j];
      assert i >= |a| ==> s[i] == b[i - |a|] && s[j] == b[j - |a|];
    }
  }

  // ---- Passes that do change something ----

  predicate Occurs(m: string, s: string) {
    exists k :: 0 <= k <= |s| && m <= s[k..]
  }

  lemma OccursLater(m: string, s: string)
    requires Occurs(m, s) && !(m <= s) && s != ""
    ensures Occurs(m, s[1..])
  {
    var k :| 0 <= k <= |s| && m <= s[k..];
    assert s[0..] == s;
    assert s[1..][k - 1..] == s[k..];
  }

  lemma OccursEarlier(m: string, s: string)
    requires s != ""
    ensures Occurs(m, s[1..]) ==> Occurs(m, s)
  {
    if Occurs(m, s[1..]) {
      var k :| 0 <= k <= |s[1..]| && m <= s[1..][k..];
      assert s[1..][k..] == s[k + 1..];
    }
  }

  lemma {:induction false} ReplaceMisses(s: string, from: string, to: string)
    requires from != "" && !Occurs(from, s)
    ensures Replace(s, from, to) == s
  {
    if |s| < |from| {
    } else {
      assert s[0..] == s;
      OccursEarlier(from, s);
      ReplaceMisses(s[1..], from, to);
    }
  }

  lemma {:induction false} ReplaceLength(s: string, from: string, to: string)
    requires from != ""
    ensures |to| >= |from| ==> |Replace(s, from, to)| >= |s|
    ensures |to| <= |from| ==> |Replace(s, from, to)| <= |s|
  {
    if |s| < |from| {
    } else if from <= s {
      ReplaceLength(s[|from|..], from, to);
    } else {
      ReplaceLength(s[1..], from, to);
    }
  }

  /** A pass that finds something to replace by something else changes the text. */
  lemma {:induction false} ReplaceChanges(s: string, from: string, to: string)
    requires from != "" && Occurs(from, s) && to != from
    ensures Replace(s, from, to) != s
  {
    if |s| < |from| {
      assert false;
    } else if from <= s {
      ReplaceLength(s[|from|..], from, to);
      var s' := Replace(s, from, to);
      assert |to| == |from| ==> s'[..|from|] == to;
      assert s[..|from|] == from;
    } else {
      OccursLater(from, s);
      ReplaceChanges(s[1..], from, to);
      var s' := Replace(s, from, to);
      assert s'[1..] == Replace(s[1..], from, to);
    }
  }

  function Digits(s: string): nat {
    if s == "" then 0 else (if IsDigit(s[0]) then 1 else 0) + Digits(s[1..])
  }

  lemma {:induction false} DigitsJoin(a: string, b: string)
    ensures Digits(a + b) == Digits(a) + Digits(b)
  {
    if a == "" {
      assert a + b == b;
    } else {
      DigitsJoin(a[1..], b);
      assert (a + b)[1..] == a[1..] + b;
    }
  }

  /** Replacing a text without digits adds those of what is inserted. */
  lemma {:induction false} ReplaceAddsDigits(s: string, from: string, to: string)
    requires from != "" && Digits(from) == 0
    ensures Digits(Replace(s, from, to)) >= Digits(s)
    ensures Occurs(from, s) && Digits(to) > 0 ==> Digits(Replace(s, from, to)) > Digits(s)
  {
    if |s| < |from| {
    } else if from <= s {
      var rest := s[|from|..];
      ReplaceAddsDigits(rest, from, to);
      assert s == from + rest;
      DigitsJoin(from, rest);
      DigitsJoin(to, Replace(rest, from, to));
    } else {
      ReplaceAddsDigits(s[1..], from, to);
      if Occurs(from, s) { OccursLater(from, s); }
      DigitsJoin([s[0]], Replace(s[1..], from, to));
      assert s == [s[0]] + s[1..];
      DigitsJoin([s[0]], s[1..]);
    }
  }

  /** Passes that insert digits, for placeholders without any. */
  predicate AddDigits(subs: seq<(string, string)>) {
    forall s <- subs :: Digits(Mark(s.0)) == 0 && Digits(s.1) > 0
  }

  /** Such passes change every text in which one of them finds its placeholder, and
      no later one changes it back. */
  lemma {:induction false} DigitsTell(s: string, subs: seq<(string, string)>)
    requires AddDigits(subs)
    ensures Digits(Passes(s, subs)) >= Digits(s)
    ensures Digits(Passes(s, subs)) > Digits(s) || (Passes(s, subs) == s && forall p <- subs :: !Occurs(Mark(p.0), s))
    decreases |subs|
  {
    if subs == [] {
    } else {
      assert subs[0] in subs;
      var m := Mark(subs[0].0);
      var s1 := Replace(s, m, subs[0].1);
      ReplaceAddsDigits(s, m, subs[0].1);
      assert AddDigits(subs[1..]) by { assert forall p <- subs[1..] :: p in subs; }
      DigitsTell(s1, subs[1..]);
      if Occurs(m, s) {
      } else {
        ReplaceMisses(s, m, subs[0].1);
        assert subs == [subs[0]] + subs[1..];
      }
    }
  }

  lemma {:induction false} PassesJoin(s: string, subs: seq<(string, string)>, more: seq<(string, string)>)
    ensures Passes(s, subs + more) == Passes(Passes(s, subs), more)
    decreases |subs|
  {
    if subs == [] {
      assert subs + more == more;
    } else {
      assert (subs + more)[1..] == subs[1..] + more;
      PassesJoin(Replace(s, Mark(subs[0].0), subs[0].1), subs[1..], more);
    }
  }

  lemma TwoPasses(s: string, p: (string, string), q: (string, string))
    ensures Passes(s, [p, q]) == Replace(Replace(s, Mark(p.0), p.1), Mark(q.0), q.1)
  {
    var s1 := Replace(s, Mark(p.0), p.1);
    assert [p, q][1..] == [q] && [q][1..] == [];
    assert Passes(s, [p, q]) == Passes(s1, [q]);
  }

  /** With a placeholder in a value the order matters: what one pass inserts, a
      later one replaces. */
  lemma BracesInValuesAreReplacedAgain(name: string, other: string, v: string)
    requires Braceless(name) && Braceless(other) && name != other && '{' !in v
    ensures Passes(Mark(name), [(name, Mark(other)), (other, v)]) == v
    ensures Passes(Mark(name), [(other, v), (name, Mark(other))]) == Mark(other)
    ensures v != Mark(other)
  {
    assert Mark(name) + "" == Mark(name) && Mark(other) + "" == Mark(other) && v + "" == v;
    ReplaceFillsHole(name, "", Mark(other));
    ReplaceFillsHole(other, "", v);
    ReplaceSkipsHole(name, "", other, v);
    TwoPasses(Mark(name), (name, Mark(other)), (other, v));
    TwoPasses(Mark(name), (other, v), (name, Mark(other)));
    assert Mark(other)[0] == '{';
  }

  /** Passes for names that a template does not use change nothing. */
  lemma {:induction false} PassesMiss(ps: seq<Piece>, subs: seq<(string, string)>)
    requires IsTemplate(ps) && forall s <- subs :: Braceless(s.0) && Hole(s.0) !in ps
    ensures Passes(Flatten(ps), subs) == Flatten(ps)
    decreases |subs|
  {
    if subs == [] {
    } else {
      var (name, v) := subs[0];
      assert subs[0] in subs;
      ReplaceAnyIsFill(ps, name, v);
      FillMisses(ps, name, v);
      PassesMiss(ps, subs[1..]);
    }
  }

  lemma ReplaceAnyIsFill(ps: seq<Piece>, name: string, v: string)
    requires IsTemplate(ps) && Braceless(name)
    ensures Replace(Flatten(ps), Mark(name), v) == Flatten(Fill(ps, name, v))
  {
    forall p | p in ps ensures Skips(p, name) {
      assert PieceOk(p);
      if p.Lit? { PlainIsInert(p.text, name); }
    }
    ReplaceIsFill(ps, name, v);
  }

  lemma {:induction false} FillMisses(ps: seq<Piece>, name: string, v: string)
    requires Hole(name) !in ps
    ensures Fill(ps, name, v) == ps
  {
    if ps == [] {
    } else {
      FillMisses(ps[1..], name, v);
    }
  }

  // ---- Values that are not inert ----

  /** Some template text completes `v` to a text with a placeholder in it. */
  lemma Completion(v: string, name: string) returns (rest: string)
    requires Braceless(name) && !Inert(v, name)
    ensures Plain(rest) && Occurs(Mark(name), v + rest)
  {
    var i :| 0 <= i < |v| && (v[i..] <= Mark(name) || Mark(name) <= v[i..]);
    rest := "";
    if v[i..] <= Mark(name) {
      MarkTailIsPlain(name, |v| - i);
      rest := Mark(name)[|v| - i..];
      assert v[i..] + rest == Mark(name);
    }
    assert (v + rest)[i..] == v[i..] + rest;
  }
}
