/** `normalize_hash`: which spellings of a BLAKE3 hash share a session directory. */
module HashNames {
  import opened Types
  import opened ReleaseTag

  /** Unicode's White_Space property, which `str::trim` strips. */
  predicate IsSpace(c: char) {
    var n := c as int;
    || 0x09 <= n <= 0x0D || n == 0x20 || n == 0x85 || n == 0xA0 || n == 0x1680
    || 0x2000 <= n <= 0x200A || n == 0x2028 || n == 0x2029 || n == 0x202F || n == 0x205F || n == 0x3000
  }

  function TrimStart(s: string): string {
    if s != "" && IsSpace(s[0]) then TrimStart(s[1..]) else s
  }

  function TrimEnd(s: string): string {
    if s != "" && IsSpace(s[|s| - 1]) then TrimEnd(s[..|s| - 1]) else s
  }

  function Trim(s: string): string {
    TrimEnd(TrimStart(s))
  }

  function LowerChar(c: char): char {
    if 'A' <= c <= 'Z' then c - 'A' + 'a' else c
  }

  function Lower(s: string): (r: string)
    ensures |r| == |s| && forall i :: 0 <= i < |s| ==> r[i] == LowerChar(s[i])
  {
    if s == "" then "" else [LowerChar(s[0])] + Lower(s[1..])
  }

  function StripPrefix(s: string): string {
    if "b3:" <= s then s[3..] else if "0x" <= s then s[2..] else s
  }

  predicate AllHex(s: string) {
    forall i :: 0 <= i < |s| ==> IsHexDigit(s[i])
  }

  /** `None` is the "not a BLAKE3 hash" error. */
  function Normalize(raw: string): Option<string> {
    var hex := Lower(StripPrefix(Trim(raw)));
    if |hex| == 64 && AllHex(hex) then Some(hex) else None
  }

  predicate IsCanonical(s: string) {
    |s| == 64 && forall i :: 0 <= i < |s| ==> IsDigit(s[i]) || 'a' <= s[i] <= 'f'
  }

  // ---- What a spelling denotes, independently ----

  function DigitValue(c: char): int
    requires IsHexDigit(c)
  {
    if IsDigit(c) then c as int - '0' as int
    else if 'a' <= c then c as int - 'a' as int + 10
    else c as int - 'A' as int + 10
  }

  /** The bytes written by pairs of hex digits, in either case. */
  function Bytes(hex: string): seq<nat>
    requires |hex| % 2 == 0 && AllHex(hex)
  {
    if hex == "" then [] else [16 * DigitValue(hex[0]) + DigitValue(hex[1])] + Bytes(hex[2..])
  }

  // ---- Which spellings there are, independently ----

  /** The 25 code points that Unicode calls white space. */
  const WHITE_SPACE: seq<int> :=
    [ 9, 10, 11, 12, 13, 32, 133, 160, 5760,
      8192, 8193, 8194, 8195, 8196, 8197, 8198, 8199, 8200, 8201, 8202,
      8232, 8233, 8239, 8287, 12288 ]

  lemma SpaceIsListed(c: char)
    ensures IsSpace(c) <==> c as int in WHITE_SPACE
  {
  }

  predicate AllSpace(s: string) {
    forall i :: 0 <= i < |s| ==> IsSpace(s[i])
  }

  /** 64 hex digits of either case. */
  predicate HexText(x: string) {
    |x| == 64 && forall i :: 0 <= i < 64 ==>
      '0' <= x[i] <= '9' || 'a' <= x[i] <= 'f' || 'A' <= x[i] <= 'F'
  }

  /** The prefixes the website and others print. */
  predicate IsPrefix(prefix: string) {
    prefix == "" || prefix == "b3:" || prefix == "0x"
  }

  /** `raw` is `x` with one of three prefixes, among white space. */
  predicate Spelling(raw: string, before: string, prefix: string, x: string, behind: string) {
    && AllSpace(before) && AllSpace(behind) && HexText(x)
    && IsPrefix(prefix)
    && raw == before + (prefix + x) + behind
  }

  ghost predicate Spells(raw: string, x: string) {
    HexText(x) && exists before, prefix, behind :: Spelling(raw, before, prefix, x, behind)
  }

  /** `r` is `x` with A to F made a to f. */
  predicate LowerCaseOf(r: string, x: string) {
    |r| == |x| && forall i :: 0 <= i < |x| ==>
      r[i] as int == if 'A' <= x[i] <= 'F' then x[i] as int + 32 else x[i] as int
  }

  // ---- Results ----

  lemma LowerCharHex(c: char)
    ensures IsHexDigit(c) <==> IsHexDigit(LowerChar(c))
    ensures IsHexDigit(c) ==> IsDigit(LowerChar(c)) || 'a' <= LowerChar(c) <= 'f'
    ensures IsDigit(c) || 'a' <= c <= 'f' ==> LowerChar(c) == c
  {
  }

  lemma LowerHex(s: string)
    ensures AllHex(s) <==> AllHex(Lower(s))
    ensures AllHex(s) && |s| == 64 ==> IsCanonical(Lower(s))
  {
    var r := Lower(s);
    assert forall i :: 0 <= i < |s| ==> r[i] == LowerChar(s[i]);
    forall i | 0 <= i < |s|
      ensures IsHexDigit(s[i]) <==> IsHexDigit(r[i])
      ensures IsHexDigit(s[i]) ==> IsDigit(r[i]) || 'a' <= r[i] <= 'f'
    {
      LowerCharHex(s[i]);
    }
    if AllHex(r) {
      forall i | 0 <= i < |s| ensures IsHexDigit(s[i]) { assert IsHexDigit(r[i]); }
    }
  }

  lemma CanonicalIsTrimmed(s: string)
    requires IsCanonical(s)
    ensures Trim(s) == s && StripPrefix(s) == s && Lower(s) == s
  {
    assert !IsSpace(s[0]) && !IsSpace(s[63]);
    assert s[2] != "b3:"[2] && s[1] != "0x"[1];
    forall i | 0 <= i < |s| ensures Lower(s)[i] == s[i] { LowerCharHex(s[i]); }
  }

  // ---- What is trimmed and stripped ----

  lemma {:induction false} TrimsStart(before: string, s: string)
    requires AllSpace(before) && (s != "" ==> !IsSpace(s[0]))
    ensures TrimStart(before + s) == s
  {
    if before == "" {
      assert before + s == s;
    } else {
      assert (before + s)[1..] == before[1..] + s;
      TrimsStart(before[1..], s);
    }
  }

  lemma {:induction false} TrimsEnd(s: string, behind: string)
    requires AllSpace(behind) && (s != "" ==> !IsSpace(s[|s| - 1]))
    ensures TrimEnd(s + behind) == s
  {
    if behind == "" {
      assert s + behind == s;
    } else {
      var init := behind[..|behind| - 1];
      assert (s + behind)[..|s + behind| - 1] == s + init;
      TrimsEnd(s, init);
    }
  }

  lemma {:induction false} StartTrimmed(s: string) returns (before: string)
    ensures AllSpace(before) && s == before + TrimStart(s)
  {
    if s != "" && IsSpace(s[0]) {
      var rest := StartTrimmed(s[1..]);
      before := [s[0]] + rest;
    } else {
      before := "";
    }
  }

  lemma {:induction false} EndTrimmed(s: string) returns (behind: string)
    ensures AllSpace(behind) && s == TrimEnd(s) + behind
  {
    if s != "" && IsSpace(s[|s| - 1]) {
      var rest := EndTrimmed(s[..|s| - 1]);
      behind := rest + [s[|s| - 1]];
    } else {
      behind := "";
    }
  }

  lemma Trims(before: string, s: string, behind: string)
    requires AllSpace(before) && AllSpace(behind)
    requires s != "" && !IsSpace(s[0]) && !IsSpace(s[|s| - 1])
    ensures Trim(before + s + behind) == s
  {
    assert before + s + behind == before + (s + behind) && (s + behind)[0] == s[0];
    TrimsStart(before, s + behind);
    TrimsEnd(s, behind);
  }

  /** A prefix is stripped, and hex digits are not taken for one. */
  lemma Strips(prefix: string, x: string)
    requires IsPrefix(prefix) && HexText(x)
    ensures StripPrefix(prefix + x) == x
    ensures !IsSpace((prefix + x)[0]) && !IsSpace((prefix + x)[|prefix + x| - 1])
  {
    assert x[2] != ':' && x[1] != 'x' && !IsSpace(x[0]) && !IsSpace(x[63]);
    if prefix == "" { assert prefix + x == x; }
  }

  lemma SpelledIsStripped(raw: string, before: string, prefix: string, x: string, behind: string)
    requires Spelling(raw, before, prefix, x, behind)
    ensures StripPrefix(Trim(raw)) == x
  {
    Strips(prefix, x);
    Trims(before, prefix + x, behind);
  }

  /** Whatever is trimmed is white space, and whatever is stripped is a prefix. */
  lemma TrimmedAndStripped(raw: string) returns (before: string, prefix: string, behind: string)
    ensures AllSpace(before) && AllSpace(behind) && IsPrefix(prefix)
    ensures raw == before + (prefix + StripPrefix(Trim(raw))) + behind
  {
    before := StartTrimmed(raw);
    behind := EndTrimmed(TrimStart(raw));
    prefix := Stripped(Trim(raw));
    Associates(before, Trim(raw), behind);
  }

  lemma Stripped(s: string) returns (prefix: string)
    ensures IsPrefix(prefix) && s == prefix + StripPrefix(s)
  {
    prefix := if "b3:" <= s then "b3:" else if "0x" <= s then "0x" else "";
  }

  lemma Associates(a: string, b: string, c: string)
    ensures a + (b + c) == a + b + c
  {
  }

  lemma StrippedIsSpelled(raw: string)
    requires HexText(StripPrefix(Trim(raw)))
    ensures Spells(raw, StripPrefix(Trim(raw)))
  {
    var before, prefix, behind := TrimmedAndStripped(raw);
    assert Spelling(raw, before, prefix, StripPrefix(Trim(raw)), behind);
  }

  lemma LowersExactly(x: string, r: string)
    requires HexText(x)
    ensures LowerCaseOf(r, x) <==> r == Lower(x)
  {
  }

  lemma HexTextExactly(x: string)
    ensures HexText(x) <==> |x| == 64 && AllHex(Lower(x))
  {
    LowerHex(x);
  }

  /** `normalize_hash` accepts exactly 64 hex digits, bare or after one `b3:` or `0x`,
      among white space, and answers them in lower case. */
  lemma NormalizesExactly(raw: string, r: string)
    ensures Normalize(raw) == Some(r) <==> exists x :: Spells(raw, x) && LowerCaseOf(r, x)
  {
    var stripped := StripPrefix(Trim(raw));
    HexTextExactly(stripped);
    if Normalize(raw) == Some(r) {
      StrippedIsSpelled(raw);
      LowersExactly(stripped, r);
    }
    forall x | Spells(raw, x) && LowerCaseOf(r, x) ensures Normalize(raw) == Some(r) {
      var before, prefix, behind :| Spelling(raw, before, prefix, x, behind);
      SpelledIsStripped(raw, before, prefix, x, behind);
      LowersExactly(x, r);
    }
  }

  /** The result is always canonical, and every canonical string is its own result. */
  lemma ImageIsCanonical(raw: string)
    ensures Normalize(raw).Some? <==> exists x :: Spells(raw, x)
    ensures Normalize(raw).Some? ==> IsCanonical(Normalize(raw).value)
    ensures IsCanonical(raw) ==> Normalize(raw) == Some(raw)
  {
    var stripped := StripPrefix(Trim(raw));
    HexTextExactly(stripped);
    LowerHex(stripped);
    if Normalize(raw).Some? { StrippedIsSpelled(raw); }
    forall x | Spells(raw, x) ensures Normalize(raw).Some? {
      var before, prefix, behind :| Spelling(raw, before, prefix, x, behind);
      SpelledIsStripped(raw, before, prefix, x, behind);
    }
    if IsCanonical(raw) {
      CanonicalIsTrimmed(raw);
      LowerHex(raw);
    }
  }

  lemma Idempotent(raw: string)
    requires Normalize(raw).Some?
    ensures Normalize(Normalize(raw).value) == Normalize(raw)
  {
    ImageIsCanonical(raw);
    ImageIsCanonical(Normalize(raw).value);
  }

  lemma DigitRange(c: char)
    requires IsHexDigit(c)
    ensures 0 <= DigitValue(c) < 16
  {
  }

  lemma SameDigit(c: char, d: char)
    requires IsHexDigit(c) && IsHexDigit(d)
    ensures DigitValue(c) == DigitValue(d) <==> LowerChar(c) == LowerChar(d)
  {
  }

  lemma SamePair(a: char, b: char, c: char, d: char)
    requires IsHexDigit(a) && IsHexDigit(b) && IsHexDigit(c) && IsHexDigit(d)
    ensures 16 * DigitValue(a) + DigitValue(b) == 16 * DigitValue(c) + DigitValue(d) <==>
            LowerChar(a) == LowerChar(c) && LowerChar(b) == LowerChar(d)
  {
    DigitRange(a);
    DigitRange(b);
    DigitRange(c);
    DigitRange(d);
    SameDigit(a, c);
    SameDigit(b, d);
  }

  lemma LowerPair(s: string)
    requires |s| >= 2
    ensures Lower(s) == [LowerChar(s[0]), LowerChar(s[1])] + Lower(s[2..])
  {
  }

  lemma {:induction false} SameBytes(s: string, t: string)
    requires |s| == |t| && |s| % 2 == 0 && AllHex(s) && AllHex(t)
    ensures Bytes(s) == Bytes(t) <==> Lower(s) == Lower(t)
  {
    if s == "" {
    } else {
      SameBytes(s[2..], t[2..]);
      SamePair(s[0], s[1], t[0], t[1]);
      LowerPair(s);
      LowerPair(t);
      assert Bytes(s)[1..] == Bytes(s[2..]) && Bytes(t)[1..] == Bytes(t[2..]);
      assert Lower(s)[2..] == Lower(s[2..]) && Lower(t)[2..] == Lower(t[2..]);
      SameHeads(Lower(s), Lower(t));
    }
  }

  lemma SameHeads(s: string, t: string)
    requires |s| >= 2 && |t| >= 2
    ensures s == t <==> s[0] == t[0] && s[1] == t[1] && s[2..] == t[2..]
  {
    assert s == [s[0], s[1]] + s[2..] && t == [t[0], t[1]] + t[2..];
  }

  /** `Session::open`: the directory of a download, under the data directory. */
  function DirectoryOf(root: string, hash: string): seq<string> {
    [root, "downloads", hash]
  }

  lemma SpelledBytes(raw: string, x: string)
    requires Spells(raw, x)
    ensures |x| % 2 == 0 && AllHex(x) && Normalize(raw) == Some(Lower(x))
  {
    var before, prefix, behind :| Spelling(raw, before, prefix, x, behind);
    SpelledIsStripped(raw, before, prefix, x, behind);
    HexTextExactly(x);
  }

  /** The 32 bytes that 64 hex digits write. */
  function HashOf(x: string): seq<nat>
    requires HexText(x)
  {
    Bytes(x)
  }

  /** Both spellings are accepted, and open one directory. */
  predicate SameDirectory(root: string, raw: string, raw': string) {
    && Normalize(raw).Some? && Normalize(raw').Some?
    && DirectoryOf(root, Normalize(raw).value) == DirectoryOf(root, Normalize(raw').value)
  }

  /** Two spellings open the same session directory exactly when they spell the same
      32 bytes. */
  lemma SameDirectoryIffSameHash(root: string, raw: string, raw': string, x: string, x': string)
    requires Spells(raw, x) && Spells(raw', x')
    ensures SameDirectory(root, raw, raw') <==> HashOf(x) == HashOf(x')
  {
    SpelledBytes(raw, x);
    SpelledBytes(raw', x');
    SameBytes(x, x');
    assert DirectoryOf(root, Lower(x))[2] == Lower(x);
  }
}
