/**
 Recognition of one line of a feature document: the five patterns of
 generate-test-cases.py (Feature, Evidence, Result, Scenario, step), applied
 to the stripped line in that order, the first match winning.

 Each pattern begins with `^\s*`, which matches the empty string on a
 stripped line; a tag is then a literal prefix, and the captured group is
 `\s*(.*)` followed by `.strip()`.
 */
module Gherkin {
  import opened Wrappers
  import opened Text

  /** The step keywords, in the order the step pattern's alternation tries them. */
  datatype Keyword = Given | When | Then | And | But

  function KeywordName(k: Keyword): string
  {
    match k
    case Given => "Given"
    case When => "When"
    case Then => "Then"
    case And => "And"
    case But => "But"
  }

  /** A step as the parser stores it: the keyword and the stripped step text. */
  datatype Step = Step(keyword: Keyword, text: string)

  /** What a line is, after the first matching pattern. */
  datatype LineKind =
    | FeatureLine(title: string)
    | EvidenceLine(evidence: string)
    | ResultLine(result: string)
    | ScenarioLine(scenarioTitle: string)
    | StepLine(step: Step)
    | Other

  const FeatureTag: string := "Feature:"
  const EvidenceTag: string := "#Evid\U{00EA}ncia:"
  const ResultTag: string := "#Resultado:"
  const ScenarioTag: string := "Scenario:"

  /**
   How `\s*(.*)` and `.strip()` take `r` out of `rest`: the greedy `\s*`
   consumes `rest[..a]`, `(.*)` runs from `a` to the first line feed `e`,
   and stripping leaves `rest[a..b]`, dropping the whitespace `rest[b..e]`.
   */
  predicate CapturedAt(rest: string, r: string, a: nat, b: nat, e: nat)
  {
    && a <= b <= e <= |rest|
    && (forall i :: 0 <= i < a ==> IsSpace(rest[i]))
    && (a == |rest| || !IsSpace(rest[a]))
    && r == rest[a..b]
    && (forall i :: b <= i < e ==> IsSpace(rest[i]))
    && (forall i :: a <= i < e ==> rest[i] != '\n')
    && (e == |rest| || rest[e] == '\n')
  }

  /** The group `\s*(.*)` captures from `rest`, stripped. */
  function Capture(rest: string): (r: string)
    ensures NoNewline(r)
    ensures |r| > 0 ==> !IsSpace(r[0]) && !IsSpace(r[|r| - 1])
    ensures exists a: nat, b: nat, e: nat :: CapturedAt(rest, r, a, b, e)
  {
    var a := SpaceEnd(rest, 0);
    var e := FindChar(rest, '\n', a);
    var r := Strip(rest[a..e]);
    StripRun(rest, a, e);
    r
  }

  /** Stripping the stretch between the skipped whitespace and the line feed leaves a prefix of it. */
  lemma StripRun(rest: string, a: nat, e: nat)
    requires a <= e <= |rest|
    requires forall i :: 0 <= i < a ==> IsSpace(rest[i])
    requires a == |rest| || !IsSpace(rest[a])
    requires forall i :: a <= i < e ==> rest[i] != '\n'
    requires e == |rest| || rest[e] == '\n'
    ensures var r := Strip(rest[a..e]); CapturedAt(rest, r, a, a + |r|, e)
  {
    var line := rest[a..e];
    var r := Strip(line);
    if |line| > 0 {
      assert line[0] == rest[a];
    }
    assert StripStart(line) == 0;
    forall i | a + |r| <= i < e
      ensures IsSpace(rest[i])
    {
      assert rest[i] == line[i - a];
    }
    assert r == rest[a..a + |r|];
  }

  /**
   The capture rule determines the text: any `r` taken out of `rest` as
   `CapturedAt` describes, and not ending in whitespace, is the capture.
   */
  lemma CaptureDetermined(rest: string, r: string, a: nat, b: nat, e: nat)
    requires CapturedAt(rest, r, a, b, e)
    requires |r| > 0 ==> !IsSpace(r[|r| - 1])
    ensures r == Capture(rest)
  {
    var c := Capture(rest);
    var a': nat, b': nat, e': nat :| CapturedAt(rest, c, a', b', e');
    assert a == a';
    assert e == e';
  }

  /** A tag pattern such as `^\s*Feature:\s*(.*)` on a stripped line. */
  function MatchTag(u: string, tag: string): Option<string>
  {
    if tag <= u then Some(Capture(u[|tag|..])) else None
  }

  /** One alternative of `^\s*(Given|When|Then|And|But)\s+(.*)`: the keyword and at least one space. */
  function MatchKeyword(u: string, k: Keyword): (r: Option<Step>)
    ensures r.Some? ==> r.value.keyword == k
  {
    var name := KeywordName(k);
    if name <= u && |u| > |name| && IsSpace(u[|name|])
    then Some(Step(k, Capture(u[|name|..])))
    else None
  }

  /** The step pattern: the first keyword alternative that matches. */
  function MatchStep(u: string): Option<Step>
  {
    var g := MatchKeyword(u, Given);
    if g.Some? then g else
    var w := MatchKeyword(u, When);
    if w.Some? then w else
    var t := MatchKeyword(u, Then);
    if t.Some? then t else
    var a := MatchKeyword(u, And);
    if a.Some? then a else
    MatchKeyword(u, But)
  }

  /** Classifies a raw line: strip it, then try the patterns in the parser's order. */
  function Classify(line: string): LineKind
  {
    ClassifyStripped(Strip(line))
  }

  /** The patterns tried in order on a stripped line `u`. */
  function ClassifyStripped(u: string): (r: LineKind)
    ensures r.ScenarioLine? ==> NoNewline(r.scenarioTitle)
    ensures r.StepLine? ==> NoNewline(r.step.text)
    ensures r.FeatureLine? ==> NoNewline(r.title)
  {
    var feature := MatchTag(u, FeatureTag);
    if feature.Some? then FeatureLine(feature.value) else
    var evidence := MatchTag(u, EvidenceTag);
    if evidence.Some? then EvidenceLine(evidence.value) else
    var result := MatchTag(u, ResultTag);
    if result.Some? then ResultLine(result.value) else
    var scenario := MatchTag(u, ScenarioTag);
    if scenario.Some? then ScenarioLine(scenario.value) else
    var step := MatchStep(u);
    if step.Some? then StepLine(step.value) else
    Other
  }

  function Hit<T>(o: Option<T>): nat
  {
    if o.Some? then 1 else 0
  }

  /** How many of the patterns (and of the five keyword alternatives) match `u`. */
  function PatternHits(u: string): nat
  {
    Hit(MatchTag(u, FeatureTag)) + Hit(MatchTag(u, EvidenceTag)) + Hit(MatchTag(u, ResultTag))
    + Hit(MatchTag(u, ScenarioTag))
    + Hit(MatchKeyword(u, Given)) + Hit(MatchKeyword(u, When)) + Hit(MatchKeyword(u, Then))
    + Hit(MatchKeyword(u, And)) + Hit(MatchKeyword(u, But))
  }

  /**
   At most one pattern matches any line, so the order in which the parser
   tries them never changes the outcome: the tags and keywords begin with
   pairwise distinct characters, except the two comment tags, which differ
   in their second.
   */
  lemma PatternsExclusive(u: string)
    ensures PatternHits(u) <= 1
  {
    if |u| >= 2 {
      assert FeatureTag <= u ==> u[0] == 'F';
      assert EvidenceTag <= u ==> u[0] == '#' && u[1] == 'E';
      assert ResultTag <= u ==> u[0] == '#' && u[1] == 'R';
      assert ScenarioTag <= u ==> u[0] == 'S';
      assert "Given" <= u ==> u[0] == 'G';
      assert "When" <= u ==> u[0] == 'W';
      assert "Then" <= u ==> u[0] == 'T';
      assert "And" <= u ==> u[0] == 'A';
      assert "But" <= u ==> u[0] == 'B';
    }
  }

  /** The step pattern matches exactly when some keyword alternative does, and yields that alternative's step. */
  lemma MatchStepSpec(u: string)
    ensures MatchStep(u).Some? <==> exists k :: MatchKeyword(u, k).Some?
    ensures MatchStep(u).Some? ==> MatchKeyword(u, MatchStep(u).value.keyword) == MatchStep(u)
  {
    if MatchStep(u).None? {
      forall k
        ensures MatchKeyword(u, k).None?
      {
        match k
        case Given =>
        case When =>
        case Then =>
        case And =>
        case But =>
      }
    }
  }

  /**
   Since the patterns exclude each other, a line's kind is the one pattern
   that matches it, with that pattern's capture, and a line is ignored
   exactly when none matches.
   */
  lemma ClassifyUnique(u: string)
    ensures var r := ClassifyStripped(u);
            && (r.FeatureLine? <==> MatchTag(u, FeatureTag).Some?)
            && (r.FeatureLine? ==> Some(r.title) == MatchTag(u, FeatureTag))
            && (r.EvidenceLine? <==> MatchTag(u, EvidenceTag).Some?)
            && (r.EvidenceLine? ==> Some(r.evidence) == MatchTag(u, EvidenceTag))
            && (r.ResultLine? <==> MatchTag(u, ResultTag).Some?)
            && (r.ResultLine? ==> Some(r.result) == MatchTag(u, ResultTag))
            && (r.ScenarioLine? <==> MatchTag(u, ScenarioTag).Some?)
            && (r.ScenarioLine? ==> Some(r.scenarioTitle) == MatchTag(u, ScenarioTag))
            && (r.StepLine? <==> exists k :: MatchKeyword(u, k).Some?)
            && (r.StepLine? ==> Some(r.step) == MatchKeyword(u, r.step.keyword))
            && (r == Other <==> PatternHits(u) == 0)
  {
    PatternsExclusive(u);
    MatchStepSpec(u);
  }

  /** A tag pattern fails on a line that differs from the tag at some position. */
  lemma TagMismatch(u: string, tag: string, i: nat)
    requires i < |tag| && (i >= |u| || u[i] != tag[i])
    ensures MatchTag(u, tag).None?
  {
  }

  /** A keyword alternative fails on a line that differs from the keyword at some position. */
  lemma KeywordMismatch(u: string, k: Keyword, i: nat)
    requires i < |KeywordName(k)| && (i >= |u| || u[i] != KeywordName(k)[i])
    ensures MatchKeyword(u, k).None?
  {
  }

  /** A stripped line that no pattern matches is ignored. */
  lemma Unmatched(u: string)
    requires MatchTag(u, FeatureTag).None? && MatchTag(u, EvidenceTag).None?
    requires MatchTag(u, ResultTag).None? && MatchTag(u, ScenarioTag).None?
    requires MatchKeyword(u, Given).None? && MatchKeyword(u, When).None? && MatchKeyword(u, Then).None?
    requires MatchKeyword(u, And).None? && MatchKeyword(u, But).None?
    ensures ClassifyStripped(u) == Other
  {
  }

  /** A `Scenario Outline:` line is not a Scenario line, nor any other pattern: it is ignored. */
  lemma ScenarioOutlineIgnored(line: string)
    requires "Scenario Outline:" <= Strip(line)
    ensures Classify(line) == Other
  {
    var u := Strip(line);
    assert u[0] == 'S' && u[8] == ' ';
    TagMismatch(u, FeatureTag, 0);
    TagMismatch(u, EvidenceTag, 0);
    TagMismatch(u, ResultTag, 0);
    TagMismatch(u, ScenarioTag, 8);
    KeywordMismatch(u, Given, 0);
    KeywordMismatch(u, When, 0);
    KeywordMismatch(u, Then, 0);
    KeywordMismatch(u, And, 0);
    KeywordMismatch(u, But, 0);
    Unmatched(u);
  }

  /**
   A keyword must be followed by whitespace: a line such as `Andrew ...`,
   `Whenever ...` or a bare `Then` is ignored.
   */
  lemma KeywordNeedsSpace(line: string, k: Keyword)
    requires var u := Strip(line); var n := KeywordName(k);
             n <= u && (|u| == |n| || !IsSpace(u[|n|]))
    ensures Classify(line) == Other
  {
    var u := Strip(line);
    assert u[0] == KeywordName(k)[0];
    TagMismatch(u, FeatureTag, 0);
    TagMismatch(u, EvidenceTag, 0);
    TagMismatch(u, ResultTag, 0);
    TagMismatch(u, ScenarioTag, 0);
    forall k' | k' != k
      ensures MatchKeyword(u, k').None?
    {
      KeywordMismatch(u, k', 0);
    }
    Unmatched(u);
  }
}
