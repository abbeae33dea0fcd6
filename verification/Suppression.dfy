/** loadSuppressions and isSuppressed of monitor.go. */
module Suppression {
  import opened Base
  import opened Findings

  function LowerChar(c: char): char {
    if 'A' <= c <= 'Z' then ((c as int) + 32) as char else c
  }

  function Lower(s: string): (r: string)
    ensures |r| == |s|
    ensures forall i :: 0 <= i < |s| ==> r[i] == LowerChar(s[i])
  {
    seq(|s|, i requires 0 <= i < |s| => LowerChar(s[i]))
  }

  /** The characters that strings.TrimSpace removes. */
  predicate IsSpace(c: char) {
    var n := c as int;
    || 9 <= n <= 13 || n == 0x20 || n == 0x85 || n == 0xA0 || n == 0x1680 || 0x2000 <= n <= 0x200A
    || n == 0x2028 || n == 0x2029 || n == 0x202F || n == 0x205F || n == 0x3000
  }

  function Trim(s: string): string {
    if s != [] && IsSpace(s[0]) then Trim(s[1..])
    else if s != [] && IsSpace(s[|s| - 1]) then Trim(s[..|s| - 1])
    else s
  }

  /** The lookup set of loadSuppressions; without a readable ConfigMap nothing is suppressed. */
  function LoadedKeys(data: Option<set<string>>): set<string> {
    if data.None? then {} else set k | k in data.value :: Lower(Trim(k))
  }

  function Key(kind: string, name: string, reason: string): string {
    kind + "/" + (name + "/" + reason)
  }

  /** The seven keys that the lookup tries. */
  function Candidates(kind: string, name: string, reason: string): set<string> {
    { Key(kind, name, reason), Key(kind, name, "*"), Key(kind, "*", reason), Key("*", name, reason),
      Key(kind, "*", "*"), Key("*", "*", reason), Key("*", "*", "*") }
  }

  predicate IsSuppressed(suppressions: set<string>, f: Finding) {
    Candidates(Lower(f.kind), Lower(f.name), Lower(f.reason)) * suppressions != {}
  }

  // ----- the lookup, read field by field -----

  /** The first position of the separator, or the length. */
  function FirstSlash(s: string): (i: nat)
    ensures i <= |s| && '/' !in s[..i] && (i < |s| ==> s[i] == '/')
  {
    if s == [] || s[0] == '/' then 0
    else
      assert forall j: nat :: j <= |s| - 1 ==> s[..1 + j] == [s[0]] + s[1..][..j];
      1 + FirstSlash(s[1..])
  }

  /** One past the last position of the separator, or 0. */
  function AfterLastSlash(s: string): (i: nat)
    ensures i <= |s| && '/' !in s[i..] && (i > 0 ==> s[i - 1] == '/')
  {
    if s == [] || s[|s| - 1] == '/' then |s|
    else
      var i := AfterLastSlash(s[..|s| - 1]);
      assert s[i..] == s[..|s| - 1][i..] + [s[|s| - 1]];
      i
  }

  /** A key read as kind, name and reason: cut at its first and its last slash. A name may hold slashes. */
  function Split(key: string): Option<(string, string, string)> {
    var first, last := FirstSlash(key), AfterLastSlash(key);
    if first + 1 < last then Some((key[..first], key[first + 1..last - 1], key[last..])) else None
  }

  lemma SplitOfKey(kind: string, name: string, reason: string)
    requires '/' !in kind && '/' !in reason
    ensures Split(Key(kind, name, reason)) == Some((kind, name, reason))
  {
    var key := Key(kind, name, reason);
    var first, last := FirstSlash(key), AfterLastSlash(key);
    assert key[|kind|] == '/' && key[|kind| + 1 + |name|] == '/';
    assert key[..|kind|] == kind && key[|kind| + 2 + |name|..] == reason;
    assert forall i :: 0 <= i < |kind| ==> key[i] == kind[i];
    assert forall i :: 0 <= i < |reason| ==> key[|kind| + 2 + |name| + i] == reason[i];
    assert first <= |kind|;
    assert last >= |kind| + 2 + |name|;
    assert key[first + 1..last - 1] == name;
  }

  lemma KeyOfSplit(key: string)
    requires Split(key).Some?
    ensures var (kind, name, reason) := Split(key).value;
      key == Key(kind, name, reason) && '/' !in kind && '/' !in reason
  {
    var first, last := FirstSlash(key), AfterLastSlash(key);
    assert key == key[..first] + "/" + (key[first + 1..last - 1] + "/" + key[last..]);
  }

  /** Each field of the key is the finding's or the wildcard, and the key is not the shape that the lookup skips:
      a name between two wildcards. */
  predicate MatchesFields(key: string, kind: string, name: string, reason: string) {
    Split(key).Some? &&
    var (k, n, r) := Split(key).value;
    && (k == kind || k == "*") && (n == name || n == "*") && (r == reason || r == "*")
    && !(k == "*" && n != "*" && r == "*" && kind != "*" && reason != "*")
  }

  /** The lookup of seven candidates is field-wise matching with wildcards, minus the shape it skips. */
  lemma LookupIsFieldwise(suppressions: set<string>, f: Finding)
    requires '/' !in Lower(f.kind) && '/' !in Lower(f.reason)
    ensures IsSuppressed(suppressions, f) <==>
            exists key :: key in suppressions && MatchesFields(key, Lower(f.kind), Lower(f.name), Lower(f.reason))
  {
    var kind, name, reason := Lower(f.kind), Lower(f.name), Lower(f.reason);
    forall key | key in suppressions
      ensures key in Candidates(kind, name, reason) <==> MatchesFields(key, kind, name, reason)
    {
      CandidateMatches(key, kind, name, reason);
    }
    if IsSuppressed(suppressions, f) {
      var key :| key in Candidates(kind, name, reason) * suppressions;
      assert MatchesFields(key, kind, name, reason);
    }
    if key :| key in suppressions && MatchesFields(key, kind, name, reason) {
      assert key in Candidates(kind, name, reason) * suppressions;
    }
  }

  lemma CandidateMatches(key: string, kind: string, name: string, reason: string)
    requires '/' !in kind && '/' !in reason
    ensures key in Candidates(kind, name, reason) <==> MatchesFields(key, kind, name, reason)
  {
    if key in Candidates(kind, name, reason) {
      CandidateShape(key, kind, name, reason);
    }
    if MatchesFields(key, kind, name, reason) {
      KeyOfSplit(key);
    }
  }

  lemma CandidateShape(key: string, kind: string, name: string, reason: string)
    requires '/' !in kind && '/' !in reason && key in Candidates(kind, name, reason)
    ensures MatchesFields(key, kind, name, reason)
  {
    if key == Key(kind, name, reason) { ShapeMatches(kind, name, reason, kind, name, reason); }
    else if key == Key(kind, name, "*") { ShapeMatches(kind, name, "*", kind, name, reason); }
    else if key == Key(kind, "*", reason) { ShapeMatches(kind, "*", reason, kind, name, reason); }
    else if key == Key("*", name, reason) { ShapeMatches("*", name, reason, kind, name, reason); }
    else if key == Key(kind, "*", "*") { ShapeMatches(kind, "*", "*", kind, name, reason); }
    else if key == Key("*", "*", reason) { ShapeMatches("*", "*", reason, kind, name, reason); }
    else { ShapeMatches("*", "*", "*", kind, name, reason); }
  }

  lemma ShapeMatches(k: string, n: string, r: string, kind: string, name: string, reason: string)
    requires '/' !in k && '/' !in r
    requires (k == kind || k == "*") && (n == name || n == "*") && (r == reason || r == "*")
    requires !(k == "*" && n != "*" && r == "*" && kind != "*" && reason != "*")
    ensures MatchesFields(Key(k, n, r), kind, name, reason)
  {
    SplitOfKey(k, n, r);
  }

  /** A name between two wildcards suppresses nothing, although each of its fields matches. */
  lemma WildcardNameWildcardIsSkipped(f: Finding)
    requires '/' !in Lower(f.kind) && '/' !in Lower(f.reason)
    requires Lower(f.kind) != "*" && Lower(f.name) != "*" && Lower(f.reason) != "*"
    ensures !IsSuppressed({Key("*", Lower(f.name), "*")}, f)
  {
    SplitOfKey("*", Lower(f.name), "*");
    LookupIsFieldwise({Key("*", Lower(f.name), "*")}, f);
  }

  // ----- from the ConfigMap to the lookup -----

  /** Trimming takes white space off both ends and nothing else. */
  lemma {:induction false} TrimMeans(s: string) returns (a: string, b: string)
    ensures s == a + Trim(s) + b
    ensures forall c :: c in a + b ==> IsSpace(c)
    ensures Trim(s) != "" ==> !IsSpace(Trim(s)[0]) && !IsSpace(Trim(s)[|Trim(s)| - 1])
  {
    hide IsSpace;
    a, b := "", "";
    if s != "" && IsSpace(s[0]) {
      var a', b' := TrimMeans(s[1..]);
      a, b := [s[0]] + a', b';
      assert s == [s[0]] + s[1..];
      assert forall c :: c in a + b ==> c == s[0] || c in a' + b';
    } else if s != "" && IsSpace(s[|s| - 1]) {
      var a', b' := TrimMeans(s[..|s| - 1]);
      a, b := a', b' + [s[|s| - 1]];
      assert s == s[..|s| - 1] + [s[|s| - 1]];
      assert forall c :: c in a + b ==> c == s[|s| - 1] || c in a' + b';
    }
  }

  /** Lower-casing maps the letters A to Z and leaves every other character as it is. */
  lemma LowerMeans(s: string, i: nat)
    requires i < |s|
    ensures |Lower(s)| == |s|
    ensures 'A' <= s[i] <= 'Z' ==> Lower(s)[i] as int == s[i] as int + 32 && 'a' <= Lower(s)[i] <= 'z'
    ensures !('A' <= s[i] <= 'Z') ==> Lower(s)[i] == s[i]
  {
  }

  /** A finding is suppressed exactly when some key of the ConfigMap, trimmed and lower-cased, matches its
      lower-cased fields; without a ConfigMap nothing is. */
  lemma SuppressedExactly(data: Option<set<string>>, f: Finding)
    requires '/' !in Lower(f.kind) && '/' !in Lower(f.reason)
    ensures IsSuppressed(LoadedKeys(data), f) <==>
            && data.Some?
            && exists raw ::
                 raw in data.value && MatchesFields(Lower(Trim(raw)), Lower(f.kind), Lower(f.name), Lower(f.reason))
  {
    LookupIsFieldwise(LoadedKeys(data), f);
    if data.Some? {
      if raw :| raw in data.value && MatchesFields(Lower(Trim(raw)), Lower(f.kind), Lower(f.name), Lower(f.reason)) {
        assert Lower(Trim(raw)) in LoadedKeys(data);
      }
    }
  }
}
