/**
 Consequences of `ParseFeatureFileSpec` stated on the input lines: how many
 records there are and in which order, where each record's Feature title
 and annotations come from, and what its step lists hold.
 */
module ParseProps {
  import opened Text
  import opened Gherkin
  import opened TestCases
  import opened Parser
  import opened ParserSpec

  /** The annotation `a` as a record stores it. */
  function Annotated(tc: TestCase, a: Annotation): string
  {
    match a
    case Evidence => tc.evidence
    case Status => tc.status
  }

  /** Where the lines that can annotate the `k`-th scenario start: just after the previous Scenario line. */
  function SegmentStart(ps: seq<nat>, k: nat): nat
    requires k < |ps|
  {
    if k == 0 then 0 else ps[k - 1] + 1
  }

  // ---------------------------------------------------------------------
  // Line-by-line descriptions, characterised by the line they come from
  // ---------------------------------------------------------------------

  /** The last `a` line after which no Scenario line and no other `a` line occurs gives the pending text. */
  lemma {:induction false} PendingIsLast(kinds: seq<LineKind>, a: Annotation, j: nat)
    requires j < |kinds| && AnnotationText(kinds[j], a).Some?
    requires forall i :: j < i < |kinds| ==> AnnotationText(kinds[i], a).None? && !kinds[i].ScenarioLine?
    ensures Pending(kinds, a) == AnnotationText(kinds[j], a).value
  {
    if j < |kinds| - 1 {
      var init := kinds[..|kinds| - 1];
      assert forall i :: 0 <= i < |init| ==> init[i] == kinds[i];
      PendingIsLast(init, a, j);
    }
  }

  /** Without an `a` line since the start or the last Scenario line, nothing is pending. */
  lemma {:induction false} PendingNone(kinds: seq<LineKind>, a: Annotation, lo: nat)
    requires lo <= |kinds| && (lo == 0 || kinds[lo - 1].ScenarioLine?)
    requires forall i :: lo <= i < |kinds| ==> AnnotationText(kinds[i], a).None?
    ensures Pending(kinds, a) == ""
  {
    if |kinds| > 0 && lo < |kinds| {
      var init := kinds[..|kinds| - 1];
      assert forall i :: 0 <= i < |init| ==> init[i] == kinds[i];
      PendingNone(init, a, lo);
    }
  }

  /** The last Feature line gives the Feature title. */
  lemma {:induction false} LastFeatureIsLast(kinds: seq<LineKind>, j: nat)
    requires j < |kinds| && kinds[j].FeatureLine?
    requires forall i :: j < i < |kinds| ==> !kinds[i].FeatureLine?
    ensures LastFeature(kinds) == kinds[j].title
  {
    if j < |kinds| - 1 {
      var init := kinds[..|kinds| - 1];
      assert forall i :: 0 <= i < |init| ==> init[i] == kinds[i];
      LastFeatureIsLast(init, j);
    }
  }

  /** Without a Feature line the title is empty. */
  lemma {:induction false} LastFeatureNone(kinds: seq<LineKind>)
    requires forall i :: 0 <= i < |kinds| ==> !kinds[i].FeatureLine?
    ensures LastFeature(kinds) == ""
  {
    if |kinds| > 0 {
      var init := kinds[..|kinds| - 1];
      assert forall i :: 0 <= i < |init| ==> init[i] == kinds[i];
      LastFeatureNone(init);
    }
  }

  /** Steps parsed from single lines are single-line. */
  lemma {:induction false} StepsInSingleLine(kinds: seq<LineKind>)
    requires forall i :: 0 <= i < |kinds| && kinds[i].StepLine? ==> NoNewline(kinds[i].step.text)
    ensures SingleLineSteps(StepsIn(kinds))
  {
    if |kinds| > 0 {
      var init := kinds[..|kinds| - 1];
      assert forall i :: 0 <= i < |init| ==> init[i] == kinds[i];
      StepsInSingleLine(init);
    }
  }

  /** No Scenario line lies strictly between two consecutive ones. */
  lemma NoScenarioBetween(kinds: seq<LineKind>, k: nat, i: nat)
    requires var ps := ScenarioPositions(kinds);
             k < |ps| && SegmentStart(ps, k) <= i < ps[k]
    ensures i < |kinds| && !kinds[i].ScenarioLine?
  {
    var ps := ScenarioPositions(kinds);
    ScenarioPositionsSpec(kinds);
    forall m | 0 <= m < |ps| ensures ps[m] != i {
      if m + 1 < k {
        assert ps[m] < ps[k - 1];
      } else if m > k {
        assert ps[k] < ps[m];
      }
    }
  }

  // ---------------------------------------------------------------------
  // The parser's records, stated on the input lines
  // ---------------------------------------------------------------------

  /**
   Records and Scenario lines correspond one to one, in input order: the
   `k`-th record is titled by the `k`-th Scenario line, and every Scenario
   line, the last one included, yields a record.
   */
  lemma RecordPerScenario(lines: seq<string>)
    ensures var tcs := ParseFeatureFile(lines).0;
            var kinds := ClassifyAll(lines);
            var ps := ScenarioPositions(kinds);
            && |tcs| == |ps|
            && (forall k :: 0 <= k < |ps| ==>
                  ps[k] < |kinds| && kinds[ps[k]].ScenarioLine?
                  && tcs[k].testCase == kinds[ps[k]].scenarioTitle)
            && (forall k, m :: 0 <= k < m < |ps| ==> ps[k] < ps[m])
            && (forall i :: 0 <= i < |kinds| && kinds[i].ScenarioLine? ==> i in ps)
  {
    ParseFeatureFileSpec(lines);
    ScenarioPositionsSpec(ClassifyAll(lines));
  }

  /** There are no records exactly when no line is a Scenario line; step lines alone yield nothing. */
  lemma NoScenarioNoRecords(lines: seq<string>)
    ensures var kinds := ClassifyAll(lines);
            ParseFeatureFile(lines).0 == [] <==> forall i :: 0 <= i < |kinds| ==> !kinds[i].ScenarioLine?
  {
    RecordPerScenario(lines);
    var kinds := ClassifyAll(lines);
    var ps := ScenarioPositions(kinds);
    if |ps| > 0 {
      assert kinds[ps[0]].ScenarioLine?;
    }
  }

  /**
   A record's annotation is the text of the last annotation line of its
   kind between the previous Scenario line and its own.
   */
  lemma RecordAnnotation(lines: seq<string>, a: Annotation, k: nat, j: nat)
    requires var kinds := ClassifyAll(lines);
             var ps := ScenarioPositions(kinds);
             && k < |ps| && SegmentStart(ps, k) <= j < ps[k]
             && AnnotationText(kinds[j], a).Some?
             && forall i :: j < i < ps[k] ==> AnnotationText(kinds[i], a).None?
    ensures |ParseFeatureFile(lines).0| == |ScenarioPositions(ClassifyAll(lines))|
            && Annotated(ParseFeatureFile(lines).0[k], a) == AnnotationText(ClassifyAll(lines)[j], a).value
  {
    var kinds := ClassifyAll(lines);
    var ps := ScenarioPositions(kinds);
    var p := ps[k];
    ParseFeatureFileSpec(lines);
    var before := kinds[..p];
    forall i | j < i < |before|
      ensures AnnotationText(before[i], a).None? && !before[i].ScenarioLine?
    {
      NoScenarioBetween(kinds, k, i);
    }
    PendingIsLast(before, a, j);
  }

  /** Without such a line the record's annotation is empty: annotations are reset at each Scenario line. */
  lemma RecordAnnotationNone(lines: seq<string>, a: Annotation, k: nat)
    requires var kinds := ClassifyAll(lines);
             var ps := ScenarioPositions(kinds);
             && k < |ps|
             && forall i :: SegmentStart(ps, k) <= i < ps[k] ==> AnnotationText(kinds[i], a).None?
    ensures |ParseFeatureFile(lines).0| == |ScenarioPositions(ClassifyAll(lines))|
            && Annotated(ParseFeatureFile(lines).0[k], a) == ""
  {
    var kinds := ClassifyAll(lines);
    var ps := ScenarioPositions(kinds);
    var p := ps[k];
    ParseFeatureFileSpec(lines);
    ScenarioPositionsSpec(kinds);
    PendingNone(kinds[..p], a, SegmentStart(ps, k));
  }

  /** A record's `scenario` is the title of the last Feature line before its Scenario line. */
  lemma RecordFeature(lines: seq<string>, k: nat, j: nat)
    requires var kinds := ClassifyAll(lines);
             var ps := ScenarioPositions(kinds);
             && k < |ps| && j < ps[k] && kinds[j].FeatureLine?
             && forall i :: j < i < ps[k] ==> !kinds[i].FeatureLine?
    ensures |ParseFeatureFile(lines).0| == |ScenarioPositions(ClassifyAll(lines))|
            && ParseFeatureFile(lines).0[k].scenario == ClassifyAll(lines)[j].title
  {
    var kinds := ClassifyAll(lines);
    var p := ScenarioPositions(kinds)[k];
    ParseFeatureFileSpec(lines);
    LastFeatureIsLast(kinds[..p], j);
  }

  /** Before any Feature line a record's `scenario` is empty. */
  lemma RecordFeatureNone(lines: seq<string>, k: nat)
    requires var kinds := ClassifyAll(lines);
             var ps := ScenarioPositions(kinds);
             && k < |ps|
             && forall i :: 0 <= i < ps[k] ==> !kinds[i].FeatureLine?
    ensures |ParseFeatureFile(lines).0| == |ScenarioPositions(ClassifyAll(lines))|
            && ParseFeatureFile(lines).0[k].scenario == ""
  {
    var kinds := ClassifyAll(lines);
    var p := ScenarioPositions(kinds)[k];
    ParseFeatureFileSpec(lines);
    LastFeatureNone(kinds[..p]);
  }

  /** The returned Feature title is that of the last Feature line. */
  lemma FeatureName(lines: seq<string>, j: nat)
    requires var kinds := ClassifyAll(lines);
             && j < |kinds| && kinds[j].FeatureLine?
             && forall i :: j < i < |kinds| ==> !kinds[i].FeatureLine?
    ensures ParseFeatureFile(lines).1 == ClassifyAll(lines)[j].title
  {
    ParseFeatureFileSpec(lines);
    LastFeatureIsLast(ClassifyAll(lines), j);
  }

  /** Without a Feature line the returned title is empty. */
  lemma FeatureNameNone(lines: seq<string>)
    requires var kinds := ClassifyAll(lines);
             forall i :: 0 <= i < |kinds| ==> !kinds[i].FeatureLine?
    ensures ParseFeatureFile(lines).1 == ""
  {
    ParseFeatureFileSpec(lines);
    LastFeatureNone(ClassifyAll(lines));
  }

  /** Classified step lines carry single-line texts. */
  lemma ClassifiedStepsSingleLine(lines: seq<string>)
    ensures var kinds := ClassifyAll(lines);
            forall i :: 0 <= i < |kinds| && kinds[i].StepLine? ==> NoNewline(kinds[i].step.text)
  {
    ClassifyAllSpec(lines);
  }

  /**
   A record's step lists split the step lines of its scenario, each in
   exactly one list, and every listed step text is a single line.
   */
  lemma RecordSteps(lines: seq<string>, k: nat)
    requires k < |ParseFeatureFile(lines).0|
    ensures var tc := ParseFeatureFile(lines).0[k];
            var kinds := ClassifyAll(lines);
            var ps := ScenarioPositions(kinds);
            && k < |ps| && ps[k] < SegmentEnd(kinds, ps, k) <= |kinds|
            && var ss := StepsIn(kinds[ps[k] + 1..SegmentEnd(kinds, ps, k)]);
            && StepListsMatch(tc, ss)
            && |tc.preCondition| + |tc.steps| + |tc.expectedResult| == |ss|
            && SingleLineSteps(tc.preCondition) && SingleLineSteps(tc.steps) && SingleLineSteps(tc.expectedResult)
  {
    var kinds := ClassifyAll(lines);
    var ps := ScenarioPositions(kinds);
    ParseFeatureFileSpec(lines);
    ClassifiedStepsSingleLine(lines);
    SegmentSteps(kinds, ps[k], SegmentEnd(kinds, ps, k), ParseFeatureFile(lines).0[k]);
  }

  /** The step lists a segment of single-line step lines determines are single-line and split its steps. */
  lemma SegmentSteps(kinds: seq<LineKind>, p: nat, e: nat, tc: TestCase)
    requires p < e <= |kinds|
    requires forall i :: 0 <= i < |kinds| && kinds[i].StepLine? ==> NoNewline(kinds[i].step.text)
    requires StepListsMatch(tc, StepsIn(kinds[p + 1..e]))
    ensures |tc.preCondition| + |tc.steps| + |tc.expectedResult| == |StepsIn(kinds[p + 1..e])|
    ensures SingleLineSteps(tc.preCondition) && SingleLineSteps(tc.steps) && SingleLineSteps(tc.expectedResult)
  {
    var seg := kinds[p + 1..e];
    assert forall i :: 0 <= i < |seg| ==> seg[i] == kinds[p + 1 + i];
    StepsInSingleLine(seg);
    PartitionCount(StepsIn(seg));
    StepListsSingleLine(tc, StepsIn(seg));
  }
}
