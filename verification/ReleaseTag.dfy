/** `config.rs`: the shape a pinned release is held to. */
module ReleaseTag {
  import opened Types

  datatype ReleasePin = ReleasePin(tag: string, sumsSha256: string)

  predicate IsDigit(c: char) {
    '0' <= c <= '9'
  }

  predicate IsHexDigit(c: char) {
    IsDigit(c) || 'a' <= c <= 'f' || 'A' <= c <= 'F'
  }

  predicate IsAlphanumeric(c: char) {
    IsDigit(c) || 'a' <= c <= 'z' || 'A' <= c <= 'Z'
  }

  /** `str::split_once`: what is before and after the first `sep`. */
  function SplitOnce(s: string, sep: char): (r: Option<(string, string)>)
    ensures r.None? ==> sep !in s
    ensures r.Some? ==> s == r.value.0 + [sep] + r.value.1 && sep !in r.value.0
  {
    if s == "" then None
    else if s[0] == sep then Some(("", s[1..]))
    else
      match SplitOnce(s[1..], sep)
      case None => None
      case Some((a, b)) => Some(([s[0]] + a, b))
  }

  /** `str::split`: the parts between occurrences of `sep`. */
  function Split(s: string, sep: char): (parts: seq<string>)
    ensures |parts| >= 1
    ensures forall p <- parts :: sep !in p
    ensures Join(parts, sep) == s
    decreases |s|
  {
    match SplitOnce(s, sep)
    case None => assert Join([s], sep) == s; [s]
    case Some((a, b)) =>
      var rest := Split(b, sep);
      assert ([a] + rest)[1..] == rest;
      [a] + rest
  }

  function Join(parts: seq<string>, sep: char): string
    requires |parts| >= 1
  {
    if |parts| == 1 then parts[0] else parts[0] + [sep] + Join(parts[1..], sep)
  }

  predicate IsNumber(s: string) {
    s != "" && forall c <- s :: IsDigit(c)
  }

  predicate IsSuffix(s: string) {
    s != "" && forall c <- s :: IsAlphanumeric(c) || c == '.' || c == '-'
  }

  /** The version split at its first `-`. */
  function Halves(version: string): (r: (string, Option<string>))
    ensures version == r.0 + if r.1.Some? then "-" + r.1.value else ""
  {
    match SplitOnce(version, '-')
    case Some((core, pre)) => (core, Some(pre))
    case None => (version, None)
  }

  predicate IsReleaseTag(tag: string) {
    "v" <= tag &&
    var (core, pre) := Halves(tag[1..]);
    var parts := Split(core, '.');
    && |parts| == 3
    && (forall p <- parts :: IsNumber(p))
    && (pre.Some? ==> IsSuffix(pre.value))
  }

  predicate IsDigest(s: string) {
    |s| == 64 && forall c <- s :: IsDigit(c) || 'a' <= c <= 'f'
  }

  /** `ReleasePin::new` succeeds. */
  predicate Accepts(tag: string, sumsSha256: string) {
    IsReleaseTag(tag) && IsDigest(sumsSha256)
  }

  // ---- The grammar, independently ----

  datatype Version = Version(major: string, minor: string, patch: string, suffix: Option<string>) {
    predicate Wf() {
      && IsNumber(major) && IsNumber(minor) && IsNumber(patch)
      && (suffix.Some? ==> IsSuffix(suffix.value))
    }

    function Core(): string {
      major + "." + minor + "." + patch
    }

    /** v MAJOR . MINOR . PATCH [ - SUFFIX ] */
    function Print(): string {
      "v" + Core() + if suffix.Some? then "-" + suffix.value else ""
    }
  }

  lemma {:induction false} SplitOnceFinds(a: string, sep: char, b: string)
    requires sep !in a
    ensures SplitOnce(a + [sep] + b, sep) == Some((a, b))
  {
    var s := a + [sep] + b;
    if a == "" {
      assert s[1..] == b;
    } else {
      assert s[1..] == a[1..] + [sep] + b;
      SplitOnceFinds(a[1..], sep, b);
      assert [a[0]] + a[1..] == a;
    }
  }

  lemma SplitOnceMisses(s: string, sep: char)
    requires sep !in s
    ensures SplitOnce(s, sep) == None
  {
  }

  /** Splitting undoes joining. */
  lemma {:induction false} SplitJoin(parts: seq<string>, sep: char)
    requires |parts| >= 1 && forall p <- parts :: sep !in p
    ensures Split(Join(parts, sep), sep) == parts
  {
    assert parts[0] in parts;
    if |parts| == 1 {
      SplitOnceMisses(parts[0], sep);
    } else {
      SplitOnceFinds(parts[0], sep, Join(parts[1..], sep));
      SplitJoin(parts[1..], sep);
    }
  }

  lemma JoinThree(parts: seq<string>, sep: char)
    requires |parts| == 3
    ensures Join(parts, sep) == parts[0] + [sep] + parts[1] + [sep] + parts[2]
  {
    var rest := parts[1..];
    assert rest == [parts[1], parts[2]] && rest[1..] == [parts[2]];
    assert Join(rest, sep) == parts[1] + [sep] + parts[2];
  }

  /** The recogniser reads a printed version back, part by part. */
  lemma CoreParts(v: Version)
    requires v.Wf()
    ensures '-' !in v.Core() && Split(v.Core(), '.') == [v.major, v.minor, v.patch]
  {
    var parts := [v.major, v.minor, v.patch];
    JoinThree(parts, '.');
    SplitJoin(parts, '.');
  }

  lemma PrintedIsAccepted(v: Version)
    requires v.Wf()
    ensures IsReleaseTag(v.Print())
  {
    CoreParts(v);
    var version := v.Print()[1..];
    match v.suffix
    case None =>
      assert version == v.Core();
      SplitOnceMisses(version, '-');
    case Some(suffix) =>
      assert version == v.Core() + ['-'] + suffix;
      SplitOnceFinds(v.Core(), '-', suffix);
  }

  function Parsed(tag: string): (v: Version)
    requires IsReleaseTag(tag)
    ensures v.Wf() && v.Print() == tag
  {
    var (core, suffix) := Halves(tag[1..]);
    var parts := Split(core, '.');
    JoinThree(parts, '.');
    var v := Version(parts[0], parts[1], parts[2], suffix);
    assert v.Core() == core;
    assert tag == "v" + tag[1..];
    v
  }

  /** The accepted tags are exactly the printed versions. */
  lemma AcceptsExactlyVersions(tag: string)
    ensures IsReleaseTag(tag) <==> exists v: Version :: v.Wf() && v.Print() == tag
  {
    if IsReleaseTag(tag) { assert Parsed(tag).Wf(); }
    if v: Version :| v.Wf() && v.Print() == tag { PrintedIsAccepted(v); }
  }

  // ---- The grammar, character by character ----

  predicate DigitText(s: string) {
    s != "" && forall i :: 0 <= i < |s| ==> '0' <= s[i] <= '9'
  }

  predicate SuffixText(s: string) {
    s != "" && forall i :: 0 <= i < |s| ==>
      '0' <= s[i] <= '9' || 'a' <= s[i] <= 'z' || 'A' <= s[i] <= 'Z' || s[i] == '.' || s[i] == '-'
  }

  predicate DigestText(s: string) {
    |s| == 64 && forall i :: 0 <= i < 64 ==> '0' <= s[i] <= '9' || 'a' <= s[i] <= 'f'
  }

  predicate TagText(tag: string, major: string, minor: string, patch: string, suffix: Option<string>) {
    && DigitText(major) && DigitText(minor) && DigitText(patch)
    && match suffix
       case None => tag == "v" + (major + "." + minor + "." + patch)
       case Some(s) => SuffixText(s) && tag == "v" + (major + "." + minor + "." + patch) + ("-" + s)
  }

  lemma NumberByIndex(s: string)
    ensures IsNumber(s) <==> DigitText(s)
  {
    if IsNumber(s) {
      forall i | 0 <= i < |s| ensures '0' <= s[i] <= '9' { assert s[i] in s; }
    }
  }

  lemma SuffixByIndex(s: string)
    ensures IsSuffix(s) <==> SuffixText(s)
  {
    if IsSuffix(s) {
      forall i | 0 <= i < |s|
        ensures '0' <= s[i] <= '9' || 'a' <= s[i] <= 'z' || 'A' <= s[i] <= 'Z' || s[i] == '.' || s[i] == '-'
      {
        assert s[i] in s;
      }
    }
  }

  lemma DigestByIndex(s: string)
    ensures IsDigest(s) <==> DigestText(s)
  {
    if IsDigest(s) {
      forall i | 0 <= i < 64 ensures '0' <= s[i] <= '9' || 'a' <= s[i] <= 'f' { assert s[i] in s; }
    }
  }

  lemma PrintedText(tag: string, v: Version)
    ensures v.Wf() && v.Print() == tag <==> TagText(tag, v.major, v.minor, v.patch, v.suffix)
  {
    NumberByIndex(v.major);
    NumberByIndex(v.minor);
    NumberByIndex(v.patch);
    match v.suffix
    case None => assert v.Print() == "v" + v.Core();
    case Some(s) => SuffixByIndex(s);
  }

  /** `ReleasePin::new` succeeds exactly on three dotted runs of digits after a `v`,
      with an optional suffix after a `-`, and 64 lower-case hex digits. */
  lemma AcceptsByCharacter(tag: string, sumsSha256: string)
    ensures Accepts(tag, sumsSha256) <==>
      && (exists major, minor, patch, suffix :: TagText(tag, major, minor, patch, suffix))
      && DigestText(sumsSha256)
  {
    AcceptsExactlyVersions(tag);
    DigestByIndex(sumsSha256);
    if v: Version :| v.Wf() && v.Print() == tag { PrintedText(tag, v); }
    if major, minor, patch, suffix :| TagText(tag, major, minor, patch, suffix) {
      var v := Version(major, minor, patch, suffix);
      PrintedText(tag, v);
      assert v.Wf() && v.Print() == tag;
    }
  }

  /** A tag has one decomposition. */
  lemma VersionIsUnique(v: Version, w: Version)
    requires v.Wf() && w.Wf() && v.Print() == w.Print()
    ensures v == w
  {
    CoreParts(v);
    CoreParts(w);
    CoreAndSuffix(v);
    CoreAndSuffix(w);
  }

  lemma CoreAndSuffix(v: Version)
    requires v.Wf()
    ensures SplitOnce(v.Print()[1..], '-') == if v.suffix.Some? then Some((v.Core(), v.suffix.value)) else None
    ensures v.suffix.None? ==> v.Print()[1..] == v.Core()
  {
    CoreParts(v);
    match v.suffix
    case None =>
      assert v.Print()[1..] == v.Core();
      SplitOnceMisses(v.Core(), '-');
    case Some(suffix) =>
      assert v.Print()[1..] == v.Core() + ['-'] + suffix;
      SplitOnceFinds(v.Core(), '-', suffix);
  }

  /** A character no shell or template gives a meaning to. */
  predicate IsInert(c: char) {
    IsAlphanumeric(c) || c == '.' || c == '-'
  }

  /** An accepted pin holds inert characters only: no brace, quote or `$`. */
  lemma PinIsInert(tag: string, sumsSha256: string)
    requires Accepts(tag, sumsSha256)
    ensures forall c <- tag :: IsInert(c)
    ensures forall c <- sumsSha256 :: IsInert(c)
  {
    var v := Parsed(tag);
    assert forall c <- v.Core() :: IsInert(c);
    if v.suffix.Some? { assert tag == "v" + v.Core() + ("-" + v.suffix.value); }
  }
}
