/** Grype's matches as the scan result's summary
    (services/image-scanner/stac_higher_scanner/summary.py).

    Matches arrive decoded: a field the scanner reads as text is text, with the empty
    string for a missing one; numbers keep NaN and the infinities apart. */
module FindingsSummary {
  import opened Basics

  const MAX_TOP: nat := 25
  const MAX_FIELD_CHARS: nat := 256

  datatype Severity = Critical | High | Medium | Low | Negligible | Unknown

  datatype Number = Finite(x: real) | NaN | PosInf | NegInf | NotANumber

  datatype KevRecord = KevRecord(cve: Option<string>) | NotARecord

  datatype Vulnerability = Vulnerability(
    id: string, severity: string, fixState: string, fixVersions: seq<Option<string>>,
    knownExploited: Option<seq<KevRecord>>, epss: seq<Option<Number>>, risk: Number)

  datatype Match =
    | Match(vulnerability: Option<Vulnerability>, package: string, version: string)
    | NotAMatch

  datatype Finding = Finding(
    id: string, severity: Severity, package: string, version: string, fixedIn: Option<string>,
    kev: bool, epss: Option<real>, risk: real, publishedAt: Option<string>)

  datatype Triple = Triple(id: string, package: string, version: string)

  /* ---------------------------------- fields ---------------------------------- */

  function Truncate(s: string): (r: string)
    ensures |r| <= MAX_FIELD_CHARS && r <= s
    ensures r == "" <==> s == ""
  {
    if |s| > MAX_FIELD_CHARS then s[..MAX_FIELD_CHARS] else s
  }

  function LowerChar(c: char): char {
    if 'A' <= c <= 'Z' then (c as int + 32) as char else c
  }

  function SeverityOf(text: string): Severity {
    var s := Map(Strip(if text == "" then "unknown" else text), LowerChar);
    if s == "critical" then Critical
    else if s == "high" then High
    else if s == "medium" then Medium
    else if s == "low" then Low
    else if s == "negligible" then Negligible
    else Unknown
  }

  // `_finite`: a finite number, clamped from below at 0 and from above at `hi`.
  function Clamped(v: Number, hi: Option<real>): (r: Option<real>)
    ensures r.Some? <==> v.Finite?
    ensures r.Some? ==> (hi.Some? && 0.0 <= hi.value ==> 0.0 <= r.value <= hi.value) && (hi.None? ==> r.value >= 0.0)
    ensures v.Finite? && 0.0 <= v.x && (hi.Some? ==> v.x <= hi.value) ==> r == Some(v.x)
    ensures v.Finite? && v.x < 0.0 && (hi.Some? ==> 0.0 <= hi.value) ==> r == Some(0.0)
    ensures v.Finite? && hi.Some? && hi.value < v.x ==> r == hi
  {
    if !v.Finite? then None
    else
      var low := if v.x < 0.0 then 0.0 else v.x;
      Some(if hi.Some? && hi.value < low then hi.value else low)
  }

  function CveIds(records: seq<KevRecord>): (ids: seq<string>)
    ensures forall i :: i in ids ==> i != "" && |i| <= MAX_FIELD_CHARS
  {
    if records == [] then []
    else
      var r, rest := records[0], CveIds(records[1..]);
      if r.KevRecord? && r.cve.Some? && Strip(r.cve.value) != "" then [Truncate(Strip(r.cve.value))] + rest else rest
  }

  function KevIds(v: Vulnerability): seq<string> {
    if v.knownExploited.None? || v.knownExploited.value == [] then []
    else if CveIds(v.knownExploited.value) != [] then CveIds(v.knownExploited.value)
    else [Truncate(Strip(v.id))]
  }

  function NonBlank(versions: seq<Option<string>>): (r: seq<string>)
    ensures forall v :: v in r ==> v != "" && Some(v) in versions
  {
    if versions == [] then []
    else
      var rest := NonBlank(versions[1..]);
      if versions[0].Some? && Strip(versions[0].value) != "" then [versions[0].value] + rest else rest
  }

  predicate BlankVersion(v: Option<string>) {
    v.None? || Strip(v.value) == ""
  }

  // `i` is the place of the first version that is not blank.
  predicate FirstVersion(versions: seq<Option<string>>, i: nat) {
    i < |versions| && !BlankVersion(versions[i]) && forall j :: 0 <= j < i ==> BlankVersion(versions[j])
  }

  // The first version that is not blank, of a fixed match that names one.
  function FixedIn(v: Vulnerability): (r: Option<string>)
    ensures r.Some? ==> r.value != ""
    ensures r.Some? <==> v.fixState == "fixed" && exists i :: 0 <= i < |v.fixVersions| && !BlankVersion(v.fixVersions[i])
    ensures forall i: nat :: FirstVersion(v.fixVersions, i) && v.fixState == "fixed" ==> r == Some(Truncate(v.fixVersions[i].value))
  {
    NonBlankKeeps(v.fixVersions);
    var versions := NonBlank(v.fixVersions);
    if v.fixState == "fixed" && versions != [] then Some(Truncate(versions[0])) else None
  }

  lemma {:induction false} NonBlankKeeps(versions: seq<Option<string>>)
    ensures NonBlank(versions) != [] <==> exists i :: 0 <= i < |versions| && !BlankVersion(versions[i])
    ensures forall i: nat :: FirstVersion(versions, i) ==> NonBlank(versions) != [] && NonBlank(versions)[0] == versions[i].value
  {
    if versions != [] {
      NonBlankKeeps(versions[1..]);
      forall i: nat | FirstVersion(versions, i)
        ensures NonBlank(versions) != [] && NonBlank(versions)[0] == versions[i].value
      {
        if i > 0 {
          assert BlankVersion(versions[0]);
          assert forall j :: 0 <= j < i - 1 ==> versions[1..][j] == versions[j + 1];
          assert FirstVersion(versions[1..], i - 1);
        }
      }
      if exists i :: 0 <= i < |versions[1..]| && !BlankVersion(versions[1..][i]) {
        var i :| 0 <= i < |versions[1..]| && !BlankVersion(versions[1..][i]);
        assert !BlankVersion(versions[i + 1]);
      }
    }
  }

  // The largest finite score, within [0, 1]; none when no score is finite.
  function MaxEpss(epss: seq<Option<Number>>): (r: Option<real>)
    ensures r.Some? ==> 0.0 <= r.value <= 1.0
    ensures forall e :: Some(e) in epss && e.Finite? ==> r.Some? && (e.x <= r.value || r.value == 1.0)
    ensures r.Some? ==> exists e :: Some(e) in epss && Clamped(e, Some(1.0)) == r
  {
    if epss == [] then None
    else
      var rest := MaxEpss(epss[1..]);
      var mine := if epss[0].Some? then Clamped(epss[0].value, Some(1.0)) else None;
      if mine.None? then rest
      else if rest.None? || rest.value < mine.value then mine else rest
  }

  /* ---------------------------------- findings ---------------------------------- */

  predicate Usable(m: Match) {
    m.Match? && m.vulnerability.Some? && Strip(m.vulnerability.value.id) != "" && Strip(m.package) != ""
  }

  function TripleOf(m: Match): Triple
    requires Usable(m)
  {
    Triple(Strip(m.vulnerability.value.id), Strip(m.package), m.version)
  }

  function ToFinding(m: Match): Finding
    requires Usable(m)
  {
    var v := m.vulnerability.value;
    Finding(Truncate(Strip(v.id)), SeverityOf(v.severity), Truncate(Strip(m.package)), Truncate(m.version),
            FixedIn(v), KevIds(v) != [], MaxEpss(v.epss),
            (match Clamped(v.risk, None) case Some(x) => x case None => 0.0), None)
  }

  // The triples the first `n` matches name.
  function Triples(ms: seq<Match>): set<Triple> {
    set m | m in ms && Usable(m) :: TripleOf(m)
  }

  // A usable match whose triple no earlier match has named.
  predicate IsNew(m: Match, earlier: seq<Match>) {
    Usable(m) && TripleOf(m) !in Triples(earlier)
  }

  function Findings(ms: seq<Match>): seq<Finding> {
    if ms == [] then []
    else
      var n := |ms| - 1;
      if IsNew(ms[n], ms[..n]) then Findings(ms[..n]) + [ToFinding(ms[n])] else Findings(ms[..n])
  }

  method FindingsFromGrype(matches: seq<Match>) returns (findings: seq<Finding>)
    ensures findings == Findings(matches)
  {
    var seen: set<Triple> := {};
    findings := [];
    for n := 0 to |matches|
      invariant seen == Triples(matches[..n])
      invariant findings == Findings(matches[..n])
    {
      var m := matches[n];
      TriplesStep(matches[..n], m);
      assert matches[..n + 1] == matches[..n] + [m] && matches[..n + 1][..n] == matches[..n];
      if Usable(m) && TripleOf(m) !in seen {
        seen := seen + {TripleOf(m)};
        findings := findings + [ToFinding(m)];
      }
    }
    assert matches[..|matches|] == matches;
  }

  lemma {:induction false} TriplesStep(ms: seq<Match>, m: Match)
    ensures Triples(ms + [m]) == if Usable(m) then Triples(ms) + {TripleOf(m)} else Triples(ms)
  {
  }

  // The positions at which a usable match names its triple for the first time.
  function FirstOccurrences(ms: seq<Match>): seq<nat> {
    if ms == [] then []
    else
      var n := |ms| - 1;
      if IsNew(ms[n], ms[..n]) then FirstOccurrences(ms[..n]) + [n] else FirstOccurrences(ms[..n])
  }

  lemma {:induction false} FirstOccurrencesInOrder(ms: seq<Match>)
    ensures forall a :: 0 <= a < |FirstOccurrences(ms)| ==> FirstOccurrences(ms)[a] < |ms|
    ensures forall a, b :: 0 <= a < b < |FirstOccurrences(ms)| ==> FirstOccurrences(ms)[a] < FirstOccurrences(ms)[b]
  {
    if ms != [] {
      var n := |ms| - 1;
      var front, first := FirstOccurrences(ms[..n]), FirstOccurrences(ms);
      FirstOccurrencesInOrder(ms[..n]);
      assert first == if IsNew(ms[n], ms[..n]) then front + [n] else front;
      forall a, b | 0 <= a < b < |first|
        ensures first[a] < first[b]
      {
        assert first[a] == front[a] < n;
      }
    }
  }

  lemma {:induction false} FirstOccurrencesExact(ms: seq<Match>, i: nat)
    requires i < |ms|
    ensures i in FirstOccurrences(ms) <==> IsNew(ms[i], ms[..i])
  {
    var n := |ms| - 1;
    FirstOccurrencesInOrder(ms[..n]);
    if i < n {
      FirstOccurrencesExact(ms[..n], i);
      assert ms[..n][..i] == ms[..i];
    }
  }

  lemma {:induction false} FindingsAtFirstOccurrences(ms: seq<Match>, k: nat)
    requires k < |FirstOccurrences(ms)|
    ensures |Findings(ms)| == |FirstOccurrences(ms)|
    ensures var i := FirstOccurrences(ms)[k]; i < |ms| && Usable(ms[i]) && Findings(ms)[k] == ToFinding(ms[i])
  {
    var n := |ms| - 1;
    FindingsPerOccurrence(ms);
    FindingsPerOccurrence(ms[..n]);
    if k < |FirstOccurrences(ms[..n])| {
      FindingsAtFirstOccurrences(ms[..n], k);
    }
  }

  lemma {:induction false} FindingsPerOccurrence(ms: seq<Match>)
    ensures |Findings(ms)| == |FirstOccurrences(ms)| == |Triples(ms)|
  {
    if ms != [] {
      var n := |ms| - 1;
      FindingsPerOccurrence(ms[..n]);
      TriplesCount(ms[..n], ms[n]);
      assert ms == ms[..n] + [ms[n]];
    }
  }

  lemma {:induction false} TriplesCount(ms: seq<Match>, m: Match)
    ensures |Triples(ms + [m])| == |Triples(ms)| + if IsNew(m, ms) then 1 else 0
  {
    TriplesStep(ms, m);
    if Usable(m) && TripleOf(m) in Triples(ms) {
      assert Triples(ms) + {TripleOf(m)} == Triples(ms);
    }
  }

  /** The findings are, in order, exactly the first occurrences of the distinct
      untruncated (id, package, version) triples: one each, no more. */
  lemma {:induction false} FindingsAreFirstOccurrences(ms: seq<Match>)
    ensures |Findings(ms)| == |Triples(ms)|
    ensures forall i: nat :: i < |ms| ==>
              (i in FirstOccurrences(ms) <==> Usable(ms[i]) && forall m :: m in ms[..i] && Usable(m) ==> TripleOf(m) != TripleOf(ms[i]))
    ensures var first := FirstOccurrences(ms);
            && |first| == |Findings(ms)|
            && (forall a, b :: 0 <= a < b < |first| ==> first[a] < first[b])
            && (forall k :: 0 <= k < |first| ==> first[k] < |ms| && Usable(ms[first[k]]) && Findings(ms)[k] == ToFinding(ms[first[k]]))
  {
    FindingsPerOccurrence(ms);
    FirstOccurrencesInOrder(ms);
    forall i: nat | i < |ms|
      ensures i in FirstOccurrences(ms) <==>
                Usable(ms[i]) && forall m :: m in ms[..i] && Usable(m) ==> TripleOf(m) != TripleOf(ms[i])
    {
      FirstOccurrencesExact(ms, i);
    }
    forall k | 0 <= k < |FirstOccurrences(ms)|
      ensures var i := FirstOccurrences(ms)[k]; i < |ms| && Usable(ms[i]) && Findings(ms)[k] == ToFinding(ms[i])
    {
      FindingsAtFirstOccurrences(ms, k);
    }
  }

  /* ---------------------------------- what a finding says ---------------------------------- */

  // `r` is the text, cut after 256 characters.
  ghost predicate CutTo(r: string, s: string) {
    r <= s && |r| == if |s| < 256 then |s| else 256
  }

  // `text` is `name` in any case.
  ghost predicate InAnyCase(text: string, name: string) {
    |text| == |name| && forall i :: 0 <= i < |name| ==> text[i] == name[i] || (text[i] as int + 32 == name[i] as int && 'A' <= text[i] <= 'Z')
  }

  // The severity the text names, around blanks and in any case; unknown for all else.
  ghost predicate SaysSeverity(text: string, s: Severity) {
    exists word :: Stripped(text, word) &&
      match s
      case Critical => InAnyCase(word, "critical")
      case High => InAnyCase(word, "high")
      case Medium => InAnyCase(word, "medium")
      case Low => InAnyCase(word, "low")
      case Negligible => InAnyCase(word, "negligible")
      case Unknown => !InAnyCase(word, "critical") && !InAnyCase(word, "high") && !InAnyCase(word, "medium")
                      && !InAnyCase(word, "low") && !InAnyCase(word, "negligible")
  }

  predicate LowerCase(s: string) {
    forall i :: 0 <= i < |s| ==> 'a' <= s[i] <= 'z'
  }

  lemma {:induction false} LoweredExactly(text: string, name: string)
    requires LowerCase(name)
    ensures Map(text, LowerChar) == name <==> InAnyCase(text, name)
  {
    if InAnyCase(text, name) {
      assert forall i :: 0 <= i < |name| ==> Map(text, LowerChar)[i] == name[i];
    }
  }

  lemma {:induction false} SeverityOfWord(text: string, word: string)
    requires Strip(text) == word && Stripped(text, word)
    ensures (SeverityOf(text) == Critical <==> InAnyCase(word, "critical")) && (SeverityOf(text) == High <==> InAnyCase(word, "high"))
    ensures (SeverityOf(text) == Medium <==> InAnyCase(word, "medium")) && (SeverityOf(text) == Low <==> InAnyCase(word, "low"))
    ensures SeverityOf(text) == Negligible <==> InAnyCase(word, "negligible")
  {
    if text == "" {
      assert Strip("unknown") == "unknown";
    } else {
      LoweredExactly(word, "critical");
      LoweredExactly(word, "high");
      LoweredExactly(word, "medium");
      LoweredExactly(word, "low");
      LoweredExactly(word, "negligible");
    }
  }

  lemma {:induction false} SeverityExactly(text: string, s: Severity)
    ensures SeverityOf(text) == s <==> SaysSeverity(text, s)
  {
    var word := Strip(text);
    forall other
      ensures Stripped(text, other) <==> other == word
    {
      StripExactly(text, other);
    }
    assert Stripped(text, word);
    SeverityOfWord(text, word);
  }

  // The record names this exploited id.
  ghost predicate NamesExploited(r: KevRecord, id: string) {
    r.KevRecord? && r.cve.Some? && exists cve :: Stripped(r.cve.value, cve) && cve != "" && CutTo(id, cve)
  }

  // An id the match contributes to the exploited list: one its records name or, when they
  // name none, its own.
  ghost predicate Exploits(v: Vulnerability, id: string) {
    && v.knownExploited.Some? && v.knownExploited.value != []
    && ((exists r :: r in v.knownExploited.value && NamesExploited(r, id))
        || ((forall r, other :: r in v.knownExploited.value ==> !NamesExploited(r, other))
            && exists own :: Stripped(v.id, own) && CutTo(id, own)))
  }

  lemma {:induction false} CutExactly(s: string, r: string)
    ensures Truncate(s) == r <==> CutTo(r, s)
  {
  }

  lemma {:induction false} NamesExactly(r: KevRecord, id: string)
    ensures NamesExploited(r, id) <==> r.KevRecord? && r.cve.Some? && Strip(r.cve.value) != "" && id == Truncate(Strip(r.cve.value))
  {
    if r.KevRecord? && r.cve.Some? {
      forall cve
        ensures Stripped(r.cve.value, cve) <==> cve == Strip(r.cve.value)
      {
        StripExactly(r.cve.value, cve);
      }
      assert Stripped(r.cve.value, Strip(r.cve.value));
      CutExactly(Strip(r.cve.value), id);
    }
  }

  lemma {:induction false} CveIdsExactly(records: seq<KevRecord>, id: string)
    ensures id in CveIds(records) <==> exists r :: r in records && NamesExploited(r, id)
  {
    if records != [] {
      CveIdsExactly(records[1..], id);
      NamesExactly(records[0], id);
      assert forall x :: x in records <==> x == records[0] || x in records[1..];
    }
  }

  lemma {:induction false} NoCveIds(records: seq<KevRecord>)
    ensures CveIds(records) == [] <==> forall r, other :: r in records ==> !NamesExploited(r, other)
  {
    if CveIds(records) == [] {
      forall r, other | r in records
        ensures !NamesExploited(r, other)
      {
        CveIdsExactly(records, other);
      }
    } else {
      CveIdsExactly(records, CveIds(records)[0]);
    }
  }

  /** The ids a match contributes are the ones its exploitation records name, or its own. */
  lemma {:induction false} KevIdsExactly(v: Vulnerability, id: string)
    ensures id in KevIds(v) <==> Exploits(v, id)
    ensures KevIds(v) != [] <==> v.knownExploited.Some? && v.knownExploited.value != []
  {
    if v.knownExploited.Some? {
      CveIdsExactly(v.knownExploited.value, id);
      NoCveIds(v.knownExploited.value);
    }
    forall own
      ensures Stripped(v.id, own) <==> own == Strip(v.id)
    {
      StripExactly(v.id, own);
    }
    CutExactly(Strip(v.id), id);
  }

  // The finding says what the match does.
  ghost predicate Tells(f: Finding, m: Match) {
    && m.Match? && m.vulnerability.Some?
    && var v := m.vulnerability.value;
    && (exists id :: Stripped(v.id, id) && id != "" && CutTo(f.id, id))
    && (exists package :: Stripped(m.package, package) && package != "" && CutTo(f.package, package))
    && CutTo(f.version, m.version) && SaysSeverity(v.severity, f.severity)
    && f.fixedIn == FixedIn(v) && f.epss == MaxEpss(v.epss) && f.publishedAt.None?
    && (f.kev <==> v.knownExploited.Some? && v.knownExploited.value != [])
    && f.risk == (if v.risk.Finite? && v.risk.x > 0.0 then v.risk.x else 0.0)
  }

  /** Each finding says what the first match of its triple does, field by field. */
  lemma {:induction false} FindingsTellTheirMatches(ms: seq<Match>, k: nat)
    requires k < |Findings(ms)|
    ensures k < |FirstOccurrences(ms)| && FirstOccurrences(ms)[k] < |ms|
    ensures Tells(Findings(ms)[k], ms[FirstOccurrences(ms)[k]])
  {
    FindingsPerOccurrence(ms);
    FindingsAtFirstOccurrences(ms, k);
    ToFindingTells(ms[FirstOccurrences(ms)[k]]);
  }

  lemma {:induction false} ToFindingTells(m: Match)
    requires Usable(m)
    ensures Tells(ToFinding(m), m)
  {
    var v := m.vulnerability.value;
    StripExactly(v.id, Strip(v.id));
    StripExactly(m.package, Strip(m.package));
    CutExactly(Strip(v.id), Truncate(Strip(v.id)));
    CutExactly(Strip(m.package), Truncate(Strip(m.package)));
    CutExactly(m.version, Truncate(m.version));
    SeverityExactly(v.severity, SeverityOf(v.severity));
    KevIdsExactly(v, "");
  }

  /* ---------------------------------- selection ---------------------------------- */

  function Tier(f: Finding): (t: nat)
    ensures t <= 5
  {
    if f.kev then 0
    else if f.severity == Critical then if HasFix(f) then 1 else 2
    else if f.severity == High then if HasFix(f) then 3 else 4
    else 5
  }

  // Python truthiness of `fixed_in`.
  predicate HasFix(f: Finding) {
    f.fixedIn.Some? && f.fixedIn.value != ""
  }

  // Only fixed HIGHs are ranked by EPSS.
  function EpssRank(f: Finding): real {
    if Tier(f) == 3 && f.epss.Some? then -f.epss.value else 0.0
  }

  predicate EmitLe(f: Finding, g: Finding) {
    if f.risk != g.risk then f.risk > g.risk
    else if f.id != g.id then StrLe(f.id, g.id)
    else StrLe(f.package, g.package)
  }

  predicate RankLe(f: Finding, g: Finding) {
    if Tier(f) != Tier(g) then Tier(f) < Tier(g)
    else if EpssRank(f) != EpssRank(g) then EpssRank(f) < EpssRank(g)
    else EmitLe(f, g)
  }

  function Ranked(findings: seq<Finding>): seq<Finding> {
    Sort(findings, RankLe)
  }

  function Chosen(findings: seq<Finding>, limit: nat): seq<Finding> {
    Ranked(findings)[..if limit < |findings| then limit else |findings|]
  }

  function Omitted(findings: seq<Finding>, limit: nat): seq<Finding> {
    Ranked(findings)[if limit < |findings| then limit else |findings|..]
  }

  function SelectTop(findings: seq<Finding>, limit: nat): seq<Finding> {
    Sort(Chosen(findings, limit), EmitLe)
  }

  ghost predicate IsFixed(f: Finding) {
    exists version :: f.fixedIn == Some(version) && version != ""
  }

  // How urgent: exploited, then fixable and other critical ones, then high ones, then the rest.
  ghost predicate Urgency(f: Finding, tier: nat) {
    if f.kev then tier == 0
    else match f.severity
      case Critical => tier == if IsFixed(f) then 1 else 2
      case High => tier == if IsFixed(f) then 3 else 4
      case _ => tier == 5
  }

  // Higher risk first, then by id, then by package.
  ghost predicate Riskier(f: Finding, g: Finding) {
    || f.risk > g.risk
    || (f.risk == g.risk && f.id != g.id && Precedes(f.id, g.id))
    || (f.risk == g.risk && f.id == g.id && Precedes(f.package, g.package))
  }

  // The finding's score, zero when it has none.
  ghost predicate Scores(f: Finding, score: real) {
    f.epss == Some(score) || (f.epss.None? && score == 0.0)
  }

  // More urgent first; among fixable high ones the higher score first; then the riskier.
  ghost predicate RanksBefore(f: Finding, g: Finding) {
    || (exists i: nat, j: nat :: Urgency(f, i) && Urgency(g, j) && i < j)
    || (exists i: nat :: Urgency(f, i) && Urgency(g, i) && i != 3 && Riskier(f, g))
    || (Urgency(f, 3) && Urgency(g, 3)
        && exists a, b :: Scores(f, a) && Scores(g, b) && (a > b || (a == b && Riskier(f, g))))
  }

  lemma {:induction false} TierExactly(f: Finding, tier: nat)
    ensures Tier(f) == tier <==> Urgency(f, tier)
  {
  }

  lemma {:induction false} EmitExactly(f: Finding, g: Finding)
    ensures EmitLe(f, g) <==> Riskier(f, g)
  {
    StrLeExactly(f.id, g.id);
    StrLeExactly(f.package, g.package);
  }

  /** The order findings are chosen by, and the order they are listed in. */
  lemma {:induction false} OrdersExactly(f: Finding, g: Finding)
    ensures RankLe(f, g) <==> RanksBefore(f, g)
    ensures EmitLe(f, g) <==> Riskier(f, g)
  {
    EmitExactly(f, g);
    TierExactly(f, Tier(f));
    TierExactly(g, Tier(g));
    ScoresOf(f);
    ScoresOf(g);
    forall i: nat
      ensures (Tier(f) == i <==> Urgency(f, i)) && (Tier(g) == i <==> Urgency(g, i))
    {
      TierExactly(f, i);
      TierExactly(g, i);
    }
    assert Scores(f, ScoreOf(f)) && Scores(g, ScoreOf(g));
    if Tier(f) == Tier(g) == 3 {
      assert RankLe(f, g) <==> ScoreOf(f) > ScoreOf(g) || (ScoreOf(f) == ScoreOf(g) && Riskier(f, g));
    }
  }

  function ScoreOf(f: Finding): real {
    if f.epss.Some? then f.epss.value else 0.0
  }

  lemma {:induction false} ScoresOf(f: Finding)
    ensures forall score :: Scores(f, score) <==> score == ScoreOf(f)
  {
  }

  lemma {:induction false} EmitTotal(f: Finding, g: Finding)
    ensures EmitLe(f, g) || EmitLe(g, f)
  {
    StrLeTotal(f.id, g.id);
    StrLeTotal(f.package, g.package);
  }

  lemma {:induction false} EmitTransitive(f: Finding, g: Finding, h: Finding)
    requires EmitLe(f, g) && EmitLe(g, h)
    ensures EmitLe(f, h)
  {
    if f.risk == g.risk == h.risk {
      if f.id == g.id == h.id {
        StrLeTransitive(f.package, g.package, h.package);
      } else if f.id != g.id && g.id != h.id {
        StrLeTransitive(f.id, g.id, h.id);
        StrLeTotal(f.id, g.id);
      }
    }
  }

  lemma {:induction false} EmitOrder()
    ensures TotalPreorder(EmitLe)
  {
    forall f, g
      ensures EmitLe(f, g) || EmitLe(g, f)
    {
      EmitTotal(f, g);
    }
    forall f, g, h | EmitLe(f, g) && EmitLe(g, h)
      ensures EmitLe(f, h)
    {
      EmitTransitive(f, g, h);
    }
  }

  lemma {:induction false} RankOrder()
    ensures TotalPreorder(RankLe)
  {
    forall f, g
      ensures RankLe(f, g) || RankLe(g, f)
    {
      EmitTotal(f, g);
    }
    forall f, g, h | RankLe(f, g) && RankLe(g, h)
      ensures RankLe(f, h)
    {
      if EmitLe(f, g) && EmitLe(g, h) {
        EmitTransitive(f, g, h);
      }
    }
  }

  /** The top list: the best `limit` findings by rank, emitted by descending risk, then
      id, then package; chosen and omitted together are the findings, and none omitted
      ranks strictly before one chosen. */
  lemma {:induction false} SelectTopCorrect(findings: seq<Finding>, limit: nat)
    ensures var top := SelectTop(findings, limit);
            && |top| == (if limit < |findings| then limit else |findings|)
            && SortedBy(top, EmitLe)
            && multiset(findings) == multiset(top) + multiset(Omitted(findings, limit))
            && forall c, o :: c in top && o in Omitted(findings, limit) ==> RankLe(c, o)
  {
    RankOrder();
    EmitOrder();
    SortSorts(findings, RankLe);
    var ranked, chosen, omitted := Ranked(findings), Chosen(findings, limit), Omitted(findings, limit);
    assert ranked == chosen + omitted;
    SortSorts(chosen, EmitLe);
    SameElems(SelectTop(findings, limit), chosen);
    forall c, o | c in chosen && o in omitted
      ensures RankLe(c, o)
    {
      ChosenRanksFirst(findings, limit, c, o);
    }
  }

  /** Findings that emit alike keep the order in which they were ranked. */
  lemma {:induction false} SelectTopStable(findings: seq<Finding>, limit: nat, f: Finding)
    ensures Filter(SelectTop(findings, limit), Alike(EmitLe, f)) == Filter(Chosen(findings, limit), Alike(EmitLe, f))
  {
    EmitOrder();
    SortStable(Chosen(findings, limit), EmitLe, f);
  }

  function WithinTier(j: nat): Finding -> bool {
    f => Tier(f) <= j
  }

  lemma {:induction false} InsertCount(x: Finding, s: seq<Finding>, le: (Finding, Finding) -> bool, p: Finding -> bool)
    ensures |Filter(Insert(x, s, le), p)| == |Filter(s, p)| + if p(x) then 1 else 0
  {
    if s == [] {
    } else if le(x, s[0]) {
      assert ([x] + s)[1..] == s;
    } else {
      InsertCount(x, s[1..], le, p);
      assert ([s[0]] + Insert(x, s[1..], le))[1..] == Insert(x, s[1..], le);
    }
  }

  lemma {:induction false} SortCount(s: seq<Finding>, le: (Finding, Finding) -> bool, p: Finding -> bool)
    ensures |Filter(Sort(s, le), p)| == |Filter(s, p)|
  {
    if s != [] {
      SortCount(s[1..], le, p);
      InsertCount(s[0], Sort(s[1..], le), le, p);
    }
  }

  // Were one finding of the tiers left out, everything chosen would be of those tiers
  // too, and there would be more than `limit` of them.
  lemma {:induction false} OmittedAreBeyond(findings: seq<Finding>, limit: nat, j: nat, o: Finding)
    requires |Filter(findings, WithinTier(j))| <= limit
    requires o in Omitted(findings, limit)
    ensures Tier(o) > j
  {
    if Tier(o) <= j {
      var chosen, omitted := Chosen(findings, limit), Omitted(findings, limit);
      ChosenWithinTier(findings, limit, j, o);
      OneTooMany(chosen, omitted, WithinTier(j), o);
      assert Ranked(findings) == chosen + omitted;
      SortCount(findings, RankLe, WithinTier(j));
    }
  }

  lemma {:induction false} OneTooMany(chosen: seq<Finding>, omitted: seq<Finding>, p: Finding -> bool, o: Finding)
    requires (forall c :: c in chosen ==> p(c)) && o in omitted && p(o)
    ensures |Filter(chosen + omitted, p)| > |chosen|
  {
    FilterAll(chosen, p);
    FilterAppend(chosen, omitted, p);
    assert o in Filter(omitted, p);
  }

  lemma {:induction false} ChosenWithinTier(findings: seq<Finding>, limit: nat, j: nat, o: Finding)
    requires o in Omitted(findings, limit) && Tier(o) <= j
    ensures forall c :: c in Chosen(findings, limit) ==> WithinTier(j)(c)
  {
    RankOrder();
    SortSorts(findings, RankLe);
    forall c | c in Chosen(findings, limit)
      ensures WithinTier(j)(c)
    {
      ChosenRanksFirst(findings, limit, c, o);
    }
  }

  lemma {:induction false} ChosenRanksFirst(findings: seq<Finding>, limit: nat, c: Finding, o: Finding)
    requires SortedBy(Ranked(findings), RankLe)
    requires c in Chosen(findings, limit) && o in Omitted(findings, limit)
    ensures RankLe(c, o)
  {
    var ranked, chosen, omitted := Ranked(findings), Chosen(findings, limit), Omitted(findings, limit);
    var i :| 0 <= i < |chosen| && chosen[i] == c;
    var j :| 0 <= j < |omitted| && omitted[j] == o;
    assert ranked[i] == c && ranked[|chosen| + j] == o;
  }

  /** A whole tier is named: when at most `limit` findings have tier at most `j`, every
      one of them, as often as it occurs, is in the top list. */
  lemma {:induction false} TiersThatFitAreComplete(findings: seq<Finding>, limit: nat, j: nat, f: Finding)
    requires |Filter(findings, WithinTier(j))| <= limit
    requires Tier(f) <= j
    ensures multiset(SelectTop(findings, limit))[f] == multiset(findings)[f]
  {
    SelectTopCorrect(findings, limit);
    var omitted := Omitted(findings, limit);
    if f in omitted {
      OmittedAreBeyond(findings, limit, j, f);
    }
    assert multiset(omitted)[f] == 0;
  }

  /* ---------------------------------- the summary ---------------------------------- */

  function WithSeverity(s: Severity): Finding -> bool {
    (f: Finding) => f.severity == s
  }

  function FixedWithSeverity(s: Severity): Finding -> bool {
    (f: Finding) => f.severity == s && HasFix(f)
  }

  function Count(findings: seq<Finding>, p: Finding -> bool): nat {
    |Filter(findings, p)|
  }

  /** Every finding has one severity, so the counts add up to the number of findings,
      and no severity has more fixed findings than findings. */
  lemma {:induction false} CountsConserve(findings: seq<Finding>)
    ensures Count(findings, WithSeverity(Critical)) + Count(findings, WithSeverity(High))
          + Count(findings, WithSeverity(Medium)) + Count(findings, WithSeverity(Low))
          + Count(findings, WithSeverity(Negligible)) + Count(findings, WithSeverity(Unknown)) == |findings|
    ensures forall s :: Count(findings, FixedWithSeverity(s)) <= Count(findings, WithSeverity(s))
  {
    if findings != [] {
      CountsConserve(findings[1..]);
    }
  }

  function MaxRisk(findings: seq<Finding>): real {
    if findings == [] then 0.0
    else if |findings| == 1 then findings[0].risk
    else
      var rest := MaxRisk(findings[1..]);
      if rest < findings[0].risk then findings[0].risk else rest
  }

  lemma {:induction false} MaxRiskBounds(findings: seq<Finding>)
    ensures forall f :: f in findings ==> f.risk <= MaxRisk(findings)
    ensures findings != [] ==> exists f :: f in findings && f.risk == MaxRisk(findings)
  {
    if |findings| == 1 {
      assert findings[0] in findings;
    } else if |findings| > 1 {
      MaxRiskBounds(findings[1..]);
      var f :| f in findings[1..] && f.risk == MaxRisk(findings[1..]);
      assert f in findings && findings[0] in findings;
    }
  }

  /** The reported maximum bounds every risk, and is the first top risk when the list holds all. */
  lemma {:induction false} MaxRiskIsTopRisk(findings: seq<Finding>, limit: nat)
    ensures forall f :: f in SelectTop(findings, limit) ==> f.risk <= MaxRisk(findings)
    ensures 0 < |findings| <= limit ==> SelectTop(findings, limit)[0].risk == MaxRisk(findings)
    ensures findings == [] ==> MaxRisk(findings) == 0.0
  {
    MaxRiskBounds(findings);
    forall f | f in SelectTop(findings, limit)
      ensures f in findings
    {
      TopIsFromFindings(findings, limit, f);
    }
    if 0 < |findings| <= limit {
      var f :| f in findings && f.risk == MaxRisk(findings);
      FirstIsRiskiest(findings, limit, f);
    }
  }

  lemma {:induction false} TopIsFromFindings(findings: seq<Finding>, limit: nat, f: Finding)
    requires f in SelectTop(findings, limit)
    ensures f in findings
  {
    SelectTopCorrect(findings, limit);
    assert f in multiset(SelectTop(findings, limit));
    assert f in multiset(findings);
  }

  lemma {:induction false} FirstIsRiskiest(findings: seq<Finding>, limit: nat, f: Finding)
    requires f in findings && |findings| <= limit
    ensures SelectTop(findings, limit) != [] && SelectTop(findings, limit)[0].risk >= f.risk
    ensures SelectTop(findings, limit)[0] in SelectTop(findings, limit)
  {
    SelectTopCorrect(findings, limit);
    var top := SelectTop(findings, limit);
    assert Omitted(findings, limit) == [];
    assert f in multiset(findings) && f in multiset(top);
    var i :| 0 <= i < |top| && top[i] == f;
    assert i == 0 || EmitLe(top[0], top[i]);
  }

  function MatchKev(m: Match): set<string> {
    if m.Match? && m.vulnerability.Some? then set i | i in KevIds(m.vulnerability.value) && i != "" else {}
  }

  function KevSet(ms: seq<Match>): set<string> {
    set m, i | m in ms && i in MatchKev(m) :: i
  }

  /** Every finding marked known-exploited contributes an id to the list. */
  lemma {:induction false} KevFindingsAreListed(ms: seq<Match>, k: nat)
    requires k < |Findings(ms)| && Findings(ms)[k].kev
    ensures exists m :: m in ms && Usable(m) && ToFinding(m) == Findings(ms)[k] && MatchKev(m) != {} && MatchKev(m) <= KevSet(ms)
  {
    FindingsPerOccurrence(ms);
    FindingsAtFirstOccurrences(ms, k);
    var m := ms[FirstOccurrences(ms)[k]];
    var v := m.vulnerability.value;
    assert KevIds(v)[0] in KevIds(v) && KevIds(v)[0] != "";
    assert KevIds(v)[0] in MatchKev(m);
  }

  // Position `i` holds the first usable match of the triple.
  predicate FirstOf(ms: seq<Match>, i: nat, t: Triple) {
    i < |ms| && Usable(ms[i]) && TripleOf(ms[i]) == t && forall j :: 0 <= j < i && Usable(ms[j]) ==> TripleOf(ms[j]) != t
  }

  // The finding made for the triple is marked known-exploited.
  ghost predicate Marked(ms: seq<Match>, t: Triple) {
    exists k :: 0 <= k < |Findings(ms)| && Findings(ms)[k].kev
      && k < |FirstOccurrences(ms)| && FirstOf(ms, FirstOccurrences(ms)[k], t)
  }

  // The first match of the triple records an exploitation.
  ghost predicate FirstRecords(ms: seq<Match>, t: Triple) {
    exists i: nat :: FirstOf(ms, i, t) && KevIds(ms[i].vulnerability.value) != []
  }

  lemma {:induction false} NewIsFirst(ms: seq<Match>, i: nat)
    requires i < |ms| && Usable(ms[i])
    ensures IsNew(ms[i], ms[..i]) <==> FirstOf(ms, i, TripleOf(ms[i]))
  {
    if IsNew(ms[i], ms[..i]) {
      forall j | 0 <= j < i && Usable(ms[j])
        ensures TripleOf(ms[j]) != TripleOf(ms[i])
      {
        assert ms[..i][j] == ms[j];
      }
    }
  }

  lemma {:induction false} MarkedExactlyFirstRecords(ms: seq<Match>, t: Triple)
    ensures Marked(ms, t) <==> FirstRecords(ms, t)
  {
    FindingsPerOccurrence(ms);
    if Marked(ms, t) {
      var k :| 0 <= k < |Findings(ms)| && Findings(ms)[k].kev && k < |FirstOccurrences(ms)| && FirstOf(ms, FirstOccurrences(ms)[k], t);
      FindingsAtFirstOccurrences(ms, k);
    }
    if FirstRecords(ms, t) {
      var i: nat :| FirstOf(ms, i, t) && KevIds(ms[i].vulnerability.value) != [];
      FirstOccurrencesExact(ms, i);
      NewIsFirst(ms, i);
      var k :| 0 <= k < |FirstOccurrences(ms)| && FirstOccurrences(ms)[k] == i;
      FindingsAtFirstOccurrences(ms, k);
      assert Findings(ms)[k].kev;
    }
  }

  // `m` contributes `id` to the list, and the finding made for it is marked.
  ghost predicate MarkedSource(ms: seq<Match>, m: Match, id: string) {
    m in ms && id in MatchKev(m) && Usable(m) && Marked(ms, TripleOf(m))
  }

  // `m` contributes `id`, names a package, and the first match of its triple records an
  // exploitation.
  ghost predicate RecordedSource(ms: seq<Match>, m: Match, id: string) {
    m in ms && id in MatchKev(m) && Usable(m) && FirstRecords(ms, TripleOf(m))
  }

  /** The converse, exactly: every match that contributes an id has its finding marked if
      and only if each such match is usable and the first of its triple records one; and
      an id has some marked finding if and only if it has some such source. */
  lemma {:induction false} KevListedExactlyMarked(ms: seq<Match>)
    ensures (forall m :: m in ms && MatchKev(m) != {} ==> Usable(m) && Marked(ms, TripleOf(m)))
            <==> forall m :: m in ms && MatchKev(m) != {} ==> Usable(m) && FirstRecords(ms, TripleOf(m))
    ensures forall id :: id in KevSet(ms) ==>
              ((exists m :: MarkedSource(ms, m, id)) <==> exists m :: RecordedSource(ms, m, id))
  {
    forall t
      ensures Marked(ms, t) <==> FirstRecords(ms, t)
    {
      MarkedExactlyFirstRecords(ms, t);
    }
    forall id | id in KevSet(ms)
      ensures (exists m :: MarkedSource(ms, m, id)) <==> exists m :: RecordedSource(ms, m, id)
    {
      forall m
        ensures MarkedSource(ms, m, id) <==> RecordedSource(ms, m, id)
      {
      }
    }
  }

  /** It fails for a repeated match, which counts once, as its first occurrence:
      exploitation recorded only on the repeat is in the list with no finding marked. */
  lemma {:induction false} KevListedButNotMarked(first: Match, second: Match, cve: string)
    requires Usable(first) && Usable(second) && TripleOf(first) == TripleOf(second)
    requires first.vulnerability.value.knownExploited == None
    requires second.vulnerability.value.knownExploited == Some([KevRecord(Some(cve))]) && Strip(cve) != ""
    ensures Truncate(Strip(cve)) in KevSet([first, second])
    ensures |Findings([first, second])| == 1 && !Findings([first, second])[0].kev
  {
    RepeatCountsOnce(first, second);
    RecordIsListed(second.vulnerability.value, cve);
    var ms := [first, second];
    assert second in ms && Truncate(Strip(cve)) in MatchKev(second);
  }

  /** And for a match without a package, which is listed and makes no finding at all. */
  lemma {:induction false} KevListedWithoutFinding(m: Match, cve: string)
    requires m.Match? && m.vulnerability.Some? && Strip(m.package) == ""
    requires m.vulnerability.value.knownExploited == Some([KevRecord(Some(cve))]) && Strip(cve) != ""
    ensures Truncate(Strip(cve)) in KevSet([m]) && Findings([m]) == []
  {
    RecordIsListed(m.vulnerability.value, cve);
    assert m in [m] && Truncate(Strip(cve)) in MatchKev(m);
    assert [m][..0] == [];
  }

  lemma {:induction false} RepeatCountsOnce(first: Match, second: Match)
    requires Usable(first) && Usable(second) && TripleOf(first) == TripleOf(second)
    ensures Findings([first, second]) == [ToFinding(first)]
  {
    assert [first, second][..1] == [first] && [first][..0] == [];
    assert first in [first];
    assert Findings([first]) == [ToFinding(first)];
  }

  lemma {:induction false} RecordIsListed(v: Vulnerability, cve: string)
    requires v.knownExploited == Some([KevRecord(Some(cve))]) && Strip(cve) != ""
    ensures KevIds(v) == [Truncate(Strip(cve))]
  {
    var records := [KevRecord(Some(cve))];
    assert records[1..] == [];
    assert CveIds(records) == [Truncate(Strip(cve))];
  }

  // `r` lists the strings of `s` in order, each once.
  ghost predicate SortedListOf(r: seq<string>, s: set<string>) {
    SortedBy(r, StrLe) && Distinct(r) && Elems(r) == s
  }

  /** Such a list is unique, so it is what `sorted` returns. */
  lemma {:induction false} SortedListUnique(a: seq<string>, b: seq<string>, s: set<string>)
    requires SortedListOf(a, s) && SortedListOf(b, s)
    ensures a == b
    decreases |a|
  {
    EmptyElems(a);
    EmptyElems(b);
    if a != [] {
      assert a[0] in Elems(b) && b[0] in Elems(a);
      StrLeTotal(a[0], b[0]);
      assert a == [a[0]] + a[1..] && b == [b[0]] + b[1..];
      assert Elems(a[1..]) == s - {a[0]} && Elems(b[1..]) == s - {b[0]};
      SortedListUnique(a[1..], b[1..], s - {a[0]});
    }
  }

  lemma {:induction false} InsertKeepsSortedList(x: string, r: seq<string>, s: set<string>)
    requires SortedListOf(r, s) && x !in s
    ensures SortedListOf(Insert(x, r, StrLe), s + {x})
  {
    StringOrder();
    InsertSorts(x, r, StrLe);
    InsertKeepsMembers(x, r, StrLe);
    var t := Insert(x, r, StrLe);
    assert multiset(t) == multiset([x] + r);
    SameElems(t, [x] + r);
    DistinctAsMultiset([x] + r, t);
  }

  method SortStrings(s: set<string>) returns (r: seq<string>)
    ensures SortedListOf(r, s)
  {
    r := [];
    var rest := s;
    while rest != {}
      invariant rest <= s && SortedListOf(r, s - rest)
      decreases rest
    {
      var x :| x in rest;
      InsertKeepsSortedList(x, r, s - rest);
      r := Insert(x, r, StrLe);
      rest := rest - {x};
      assert s - rest == (s - rest - {x}) + {x};
    }
    assert s - rest == s;
  }

  datatype Summary = Summary(
    counts: map<Severity, nat>, fixedCounts: map<Severity, nat>, kev: seq<string>, maxRisk: real, top: seq<Finding>)

  function Dated(f: Finding, published: string -> Option<string>): Finding {
    f.(publishedAt := published(f.id))
  }

  // `counts` is the tally of `findings` by the given test.
  ghost predicate Tally(counts: map<Severity, nat>, findings: seq<Finding>, test: Severity -> (Finding -> bool)) {
    forall s: Severity :: s in counts && counts[s] == Count(findings, test(s))
  }

  lemma {:induction false} TallyHit(counts: map<Severity, nat>, findings: seq<Finding>, f: Finding, test: Severity -> (Finding -> bool), hit: Severity)
    requires Tally(counts, findings, test) && forall s :: test(s)(f) <==> s == hit
    ensures Tally(counts[hit := counts[hit] + 1], findings + [f], test)
  {
    forall s: Severity
      ensures Count(findings + [f], test(s)) == Count(findings, test(s)) + if s == hit then 1 else 0
    {
      FilterLast(findings, f, test(s));
    }
  }

  lemma {:induction false} TallyMiss(counts: map<Severity, nat>, findings: seq<Finding>, f: Finding, test: Severity -> (Finding -> bool))
    requires Tally(counts, findings, test) && forall s :: !test(s)(f)
    ensures Tally(counts, findings + [f], test)
  {
    forall s: Severity
      ensures Count(findings + [f], test(s)) == Count(findings, test(s))
    {
      FilterLast(findings, f, test(s));
    }
  }

  lemma {:induction false} TallyNothing(counts: map<Severity, nat>, test: Severity -> (Finding -> bool))
    requires counts == map[Critical := 0, High := 0, Medium := 0, Low := 0, Negligible := 0, Unknown := 0]
    ensures Tally(counts, [], test)
  {
    forall s: Severity
      ensures s in counts && counts[s] == 0
    {
      match s { case Critical => case High => case Medium => case Low => case Negligible => case Unknown => }
    }
  }

  method CountFindings(findings: seq<Finding>) returns (counts: map<Severity, nat>, fixedCounts: map<Severity, nat>)
    ensures Tally(counts, findings, WithSeverity)
    ensures Tally(fixedCounts, findings, FixedWithSeverity)
  {
    counts := map[Critical := 0, High := 0, Medium := 0, Low := 0, Negligible := 0, Unknown := 0];
    fixedCounts := counts;
    TallyNothing(counts, WithSeverity);
    TallyNothing(counts, FixedWithSeverity);
    assert findings[..0] == [];
    for n := 0 to |findings|
      invariant Tally(counts, findings[..n], WithSeverity)
      invariant Tally(fixedCounts, findings[..n], FixedWithSeverity)
    {
      var f := findings[n];
      assert findings[..n + 1] == findings[..n] + [f];
      TalliesNext(counts, fixedCounts, findings[..n], f);
      counts := counts[f.severity := counts[f.severity] + 1];
      if HasFix(f) {
        fixedCounts := fixedCounts[f.severity := fixedCounts[f.severity] + 1];
      }
    }
    assert findings[..|findings|] == findings;
  }

  lemma {:induction false} TalliesNext(counts: map<Severity, nat>, fixedCounts: map<Severity, nat>, findings: seq<Finding>, f: Finding)
    requires Tally(counts, findings, WithSeverity) && Tally(fixedCounts, findings, FixedWithSeverity)
    ensures f.severity in counts && f.severity in fixedCounts
    ensures Tally(counts[f.severity := counts[f.severity] + 1], findings + [f], WithSeverity)
    ensures Tally(if HasFix(f) then fixedCounts[f.severity := fixedCounts[f.severity] + 1] else fixedCounts, findings + [f], FixedWithSeverity)
  {
    TallyHit(counts, findings, f, WithSeverity, f.severity);
    if HasFix(f) {
      TallyHit(fixedCounts, findings, f, FixedWithSeverity, f.severity);
    } else {
      TallyMiss(fixedCounts, findings, f, FixedWithSeverity);
    }
  }

  method CollectKev(matches: seq<Match>) returns (kev: set<string>)
    ensures kev == KevSet(matches)
  {
    kev := {};
    for n := 0 to |matches|
      invariant kev == KevSet(matches[..n])
    {
      assert matches[..n + 1] == matches[..n] + [matches[n]];
      kev := kev + MatchKev(matches[n]);
    }
    assert matches[..|matches|] == matches;
  }

  method BuildSummary(matches: seq<Match>, published: string -> Option<string>) returns (r: Summary)
    ensures Tally(r.counts, Findings(matches), WithSeverity)
    ensures Tally(r.fixedCounts, Findings(matches), FixedWithSeverity)
    ensures SortedListOf(r.kev, KevSet(matches))
    ensures r.maxRisk == MaxRisk(Findings(matches))
    ensures r.top == Map(SelectTop(Findings(matches), MAX_TOP), f => Dated(f, published))
  {
    var findings := FindingsFromGrype(matches);
    var counts, fixedCounts := CountFindings(findings);
    var kevSet := CollectKev(matches);
    var kev := SortStrings(kevSet);
    var top := SelectTop(findings, MAX_TOP);
    r := Summary(counts, fixedCounts, kev, MaxRisk(findings), Map(top, f => Dated(f, published)));
  }
}
