/** finding.go: findings, their score bands and their identity. */
module Findings {
  import opened Base

  /** The two statuses the monitor writes, and whatever else a loaded state may hold. */
  datatype Status = Ongoing | Resolved | OtherStatus(text: string)

  datatype Classification =
    | Healthy | Watch | Suspicious | Degraded | IncidentLikely | OtherClass(text: string)

  datatype Severity = Low | Medium | High | Critical

  /** A SHA-256 digest, taken to be injective in the text it hashes. */
  datatype Id = Digest(text: string)

  datatype Finding = Finding(
    id: Id, namespace: string, kind: string, name: string,
    severity: Severity, classification: Classification, score: int,
    check: string, reason: string, status: Status,
    firstSeen: Time, lastSeen: Time,
    evidence: seq<string>, prediction: string, matchingEvent: bool,
    aiTriageRequired: bool, cooldownUntil: Option<Time>)

  function ClampScore(score: int): int {
    if score < 0 then 0 else if score > 100 then 100 else score
  }

  function ClassificationForScore(score: int): Classification {
    var s := ClampScore(score);
    if s >= 80 then IncidentLikely
    else if s >= 60 then Degraded
    else if s >= 40 then Suspicious
    else if s >= 20 then Watch
    else Healthy
  }

  function SeverityForScore(score: int): Severity {
    var s := ClampScore(score);
    if s >= 80 then Critical else if s >= 60 then High else if s >= 40 then Medium else Low
  }

  /** The text that findingID hashes. */
  function CanonicalText(namespace: string, kind: string, name: string, check: string, reason: string): string {
    namespace + "|" + (kind + "|" + (name + "|" + (check + "|" + reason)))
  }

  function FindingId(namespace: string, kind: string, name: string, check: string, reason: string): Id {
    Digest(CanonicalText(namespace, kind, name, check, reason))
  }

  function NewFinding(namespace: string, kind: string, name: string, check: string, reason: string,
                      score: int, evidence: seq<string>): (f: Finding)
    ensures WellMade(namespace, f)
  {
    Finding(FindingId(namespace, kind, name, check, reason), namespace, kind, name,
            SeverityForScore(score), ClassificationForScore(score), ClampScore(score),
            check, reason, Ongoing, ZERO_TIME, ZERO_TIME, evidence, "", false, false, None)
  }

  /** What every finding a check returns satisfies: checks build findings with NewFinding only and
      afterwards set nothing but the prediction and the matching-event flag. */
  predicate WellMade(namespace: string, f: Finding) {
    && f.namespace == namespace
    && f.id == FindingId(namespace, f.kind, f.name, f.check, f.reason)
    && 0 <= f.score <= 100
    && f.classification == ClassificationForScore(f.score)
    && f.severity == SeverityForScore(f.score)
    && !f.aiTriageRequired
    && f.cooldownUntil == None
  }

  /** Scores are taken into 0..100; from 80 on a finding is incident-likely and critical, from 60 on degraded and
      high, from 40 on suspicious and medium, from 20 on to be watched and low, and below that healthy and low. */
  lemma BandsExactly(score: int)
    ensures 0 <= ClampScore(score) <= 100 && (0 <= score <= 100 ==> ClampScore(score) == score)
    ensures score < 0 ==> ClampScore(score) == 0
    ensures score > 100 ==> ClampScore(score) == 100
    ensures ClassificationForScore(score) == IncidentLikely <==> score >= 80
    ensures ClassificationForScore(score) == Degraded <==> 60 <= score < 80
    ensures ClassificationForScore(score) == Suspicious <==> 40 <= score < 60
    ensures ClassificationForScore(score) == Watch <==> 20 <= score < 40
    ensures ClassificationForScore(score) == Healthy <==> score < 20
    ensures SeverityForScore(score) == Critical <==> score >= 80
    ensures SeverityForScore(score) == High <==> 60 <= score < 80
    ensures SeverityForScore(score) == Medium <==> 40 <= score < 60
    ensures SeverityForScore(score) == Low <==> score < 40
  {
  }

  /** A new finding is ongoing and unsent, and holds what it was made of. */
  lemma NewFindingHolds(namespace: string, kind: string, name: string, check: string, reason: string, score: int,
                        evidence: seq<string>)
    ensures var f := NewFinding(namespace, kind, name, check, reason, score, evidence);
      && f.kind == kind && f.name == name && f.check == check && f.reason == reason && f.evidence == evidence
      && f.status == Ongoing && f.prediction == "" && !f.matchingEvent
      && (0 <= score <= 100 ==> f.score == score)
      && f.id == Digest(namespace + "|" + kind + "|" + name + "|" + check + "|" + reason)
  {
    assert CanonicalText(namespace, kind, name, check, reason)
        == namespace + "|" + kind + "|" + name + "|" + check + "|" + reason;
  }

  /** Two scores of one class differ by at most 20 and have one severity. */
  lemma BandsAreNarrow(a: int, b: int)
    requires 0 <= a <= 100 && 0 <= b <= 100
    requires ClassificationForScore(a) == ClassificationForScore(b)
    ensures -20 <= a - b <= 20 && SeverityForScore(a) == SeverityForScore(b)
  {
  }

  /** A separator that does not occur in the two heads splits a text in one way only. */
  lemma SplitsOnce(a: string, x: string, b: string, y: string, sep: char)
    requires sep !in a && sep !in b
    requires a + [sep] + x == b + [sep] + y
    ensures a == b && x == y
  {
    var t := a + [sep] + x;
    assert t[|a|] == sep && t[|b|] == sep;
    assert |a| == |b|;
    assert a == t[..|a|] == t[..|b|] == b;
    assert x == t[|a| + 1..] == y;
  }

  /** The id determines all five parts when the first four are free of the separator; the reason may hold anything. */
  lemma IdentityIsInjective(n1: string, k1: string, m1: string, c1: string, r1: string,
                            n2: string, k2: string, m2: string, c2: string, r2: string)
    requires '|' !in n1 && '|' !in k1 && '|' !in m1 && '|' !in c1
    requires '|' !in n2 && '|' !in k2 && '|' !in m2 && '|' !in c2
    ensures FindingId(n1, k1, m1, c1, r1) == FindingId(n2, k2, m2, c2, r2)
            <==> (n1, k1, m1, c1, r1) == (n2, k2, m2, c2, r2)
  {
    if FindingId(n1, k1, m1, c1, r1) == FindingId(n2, k2, m2, c2, r2) {
      SplitsOnce(n1, k1 + "|" + (m1 + "|" + (c1 + "|" + r1)), n2, k2 + "|" + (m2 + "|" + (c2 + "|" + r2)), '|');
      SplitsOnce(k1, m1 + "|" + (c1 + "|" + r1), k2, m2 + "|" + (c2 + "|" + r2), '|');
      SplitsOnce(m1, c1 + "|" + r1, m2, c2 + "|" + r2, '|');
      SplitsOnce(c1, r1, c2, r2, '|');
    }
  }

  // ----- which ids are shared -----

  /** The five parts an id is made of. */
  datatype Parts = Parts(namespace: string, kind: string, name: string, check: string, reason: string)

  function IdOf(p: Parts): Id {
    FindingId(p.namespace, p.kind, p.name, p.check, p.reason)
  }

  predicate SeparatorFree(p: Parts) {
    '|' !in p.namespace && '|' !in p.kind && '|' !in p.name && '|' !in p.check && '|' !in p.reason
  }

  function Separators(s: string): nat {
    if s == "" then 0 else (if s[0] == '|' then 1 else 0) + Separators(s[1..])
  }

  lemma {:induction false} SeparatorsConcat(a: string, b: string)
    ensures Separators(a + b) == Separators(a) + Separators(b)
  {
    if a == "" {
      assert a + b == b;
    } else {
      assert (a + b)[0] == a[0] && (a + b)[1..] == a[1..] + b;
      SeparatorsConcat(a[1..], b);
    }
  }

  lemma {:induction false} NoSeparators(s: string)
    ensures Separators(s) == 0 <==> '|' !in s
  {
    if s != "" {
      assert s == [s[0]] + s[1..];
      NoSeparators(s[1..]);
    }
  }

  lemma SeparatorsJoined(a: string, b: string)
    ensures Separators(a + "|" + b) == Separators(a) + 1 + Separators(b)
  {
    SeparatorsConcat(a + "|", b);
    SeparatorsConcat(a, "|");
    assert "|"[1..] == "";
  }

  /** The text that is hashed holds four separators besides those of the parts. */
  lemma SeparatorsOfText(p: Parts)
    ensures Separators(CanonicalText(p.namespace, p.kind, p.name, p.check, p.reason))
         == 4 + Separators(p.namespace) + Separators(p.kind) + Separators(p.name) + Separators(p.check)
           + Separators(p.reason)
  {
    var last := p.check + "|" + p.reason;
    SeparatorsJoined(p.check, p.reason);
    SeparatorsJoined(p.name, last);
    SeparatorsJoined(p.kind, p.name + "|" + last);
    SeparatorsJoined(p.namespace, p.kind + "|" + (p.name + "|" + last));
    assert CanonicalText(p.namespace, p.kind, p.name, p.check, p.reason)
        == p.namespace + "|" + (p.kind + "|" + (p.name + "|" + last));
  }

  /** Parts without separators share their id with no others, whatever those hold. */
  lemma PlainIsUnique(p: Parts, q: Parts)
    requires SeparatorFree(p) && IdOf(p) == IdOf(q)
    ensures p == q
  {
    SeparatorsOfText(p);
    SeparatorsOfText(q);
    forall s | s in [p.namespace, p.kind, p.name, p.check, p.reason, q.namespace, q.kind, q.name, q.check, q.reason]
      ensures Separators(s) == 0 <==> '|' !in s
    {
      NoSeparators(s);
    }
    IdentityIsInjective(p.namespace, p.kind, p.name, p.check, p.reason, q.namespace, q.kind, q.name, q.check, q.reason);
  }

  /** The parts up to the first separator of s and behind it. */
  lemma Cut(s: string) returns (a: string, b: string)
    requires '|' in s
    ensures s == a + "|" + b && |a| < |s| && |b| < |s|
  {
    var i :| 0 <= i < |s| && s[i] == '|';
    a, b := s[..i], s[i + 1..];
    assert s == a + [s[i]] + b;
  }

  /** A separator inside any part can be read as one between two parts. */
  lemma OtherReading(p: Parts) returns (q: Parts)
    requires !SeparatorFree(p)
    ensures q != p && IdOf(q) == IdOf(p)
  {
    var last := p.check + "|" + p.reason;
    if '|' in p.namespace {
      var a, b := Cut(p.namespace);
      q := Parts(a, b, p.kind, p.name, last);
    } else if '|' in p.kind {
      var a, b := Cut(p.kind);
      q := Parts(p.namespace, a, b, p.name, last);
    } else if '|' in p.name {
      var a, b := Cut(p.name);
      q := Parts(p.namespace, p.kind, a, b, last);
    } else if '|' in p.check {
      var a, b := Cut(p.check);
      q := Parts(p.namespace, p.kind, p.name, a, b + "|" + p.reason);
    } else {
      var a, b := Cut(p.reason);
      q := Parts(p.namespace, p.kind, p.name, p.check + "|" + a, b);
    }
    assert CanonicalText(q.namespace, q.kind, q.name, q.check, q.reason)
        == CanonicalText(p.namespace, p.kind, p.name, p.check, p.reason);
  }

  /** The parts of a finding share their id with no others exactly when none of them holds the separator. */
  lemma IdentityIsUniqueExactly(p: Parts)
    ensures (forall q :: IdOf(q) == IdOf(p) ==> q == p) <==> SeparatorFree(p)
  {
    if SeparatorFree(p) {
      forall q | IdOf(q) == IdOf(p) ensures q == p { PlainIsUnique(p, q); }
    } else {
      var q := OtherReading(p);
    }
  }

  /** With a separator inside a name two different findings share one id. */
  lemma SeparatorInNameCollides()
    ensures FindingId("ns", "Pod", "a|b", "c", "r") == FindingId("ns", "Pod", "a", "b|c", "r")
  {
    assert CanonicalText("ns", "Pod", "a|b", "c", "r") == "ns|Pod|a|b|c|r";
    assert CanonicalText("ns", "Pod", "a", "b|c", "r") == "ns|Pod|a|b|c|r";
  }
}
