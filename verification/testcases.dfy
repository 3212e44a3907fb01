/**
 The test-case record the parser builds for each Scenario line, and how a
 step line is routed into one of its three step lists.
 */
module TestCases {
  import opened Text
  import opened Gherkin

  /**
   One test case. `scenario` is the Feature title current when the Scenario
   line was read and `testCase` the Scenario title; `hasWhen` records that a
   `When` step has been seen in this scenario.
   */
  datatype TestCase = TestCase(
    id: string,
    scenario: string,
    testCase: string,
    preCondition: seq<Step>,
    steps: seq<Step>,
    expectedResult: seq<Step>,
    evidence: string,
    status: string,
    hasWhen: bool)

  /** A freshly opened record: empty step lists, no `When` seen yet. */
  function Open(id: string, feature: string, title: string, evidence: string, status: string): (r: TestCase)
    ensures r.preCondition == [] && r.steps == [] && r.expectedResult == [] && !r.hasWhen
    ensures r.id == id && r.scenario == feature && r.testCase == title
    ensures r.evidence == evidence && r.status == status
  {
    TestCase(id, feature, title, [], [], [], evidence, status, false)
  }

  /** The three lists a step can land in. */
  datatype Destination = PreCondition | TestSteps | ExpectedResult

  /**
   The routing table: `Then` is always an expected result; `Given` and `And`
   are pre-conditions until a `When` has been seen; everything else (`When`,
   `But`, and `Given`/`And` after a `When`) is a test step.
   */
  function Route(k: Keyword, hasWhen: bool): Destination
  {
    if k == Then then ExpectedResult
    else if (k == Given || k == And) && !hasWhen then PreCondition
    else TestSteps
  }

  function AppendIf(s: seq<Step>, cond: bool, x: Step): seq<Step>
  {
    if cond then s + [x] else s
  }

  /**
   A step line inside an open scenario. A `When` sets the flag before the
   step is routed; the step is appended to exactly the list the routing
   table names for the updated flag, and nothing else changes.
   */
  function AddStep(tc: TestCase, s: Step): (r: TestCase)
    ensures r.hasWhen == (tc.hasWhen || s.keyword == When)
    ensures r.preCondition == AppendIf(tc.preCondition, Route(s.keyword, r.hasWhen) == PreCondition, s)
    ensures r.steps == AppendIf(tc.steps, Route(s.keyword, r.hasWhen) == TestSteps, s)
    ensures r.expectedResult == AppendIf(tc.expectedResult, Route(s.keyword, r.hasWhen) == ExpectedResult, s)
    ensures r.id == tc.id && r.scenario == tc.scenario && r.testCase == tc.testCase
    ensures r.evidence == tc.evidence && r.status == tc.status
  {
    var k := s.keyword;
    var hasWhen := tc.hasWhen || k == When;
    var tc := tc.(hasWhen := hasWhen);
    if (k == Given || k == And) && !hasWhen then
      tc.(preCondition := tc.preCondition + [s])
    else if k == When || k == And || k == But || (k == Given && hasWhen) then
      tc.(steps := tc.steps + [s])
    else if k == Then then
      tc.(expectedResult := tc.expectedResult + [s])
    else
      tc
  }

  /** Once a `When` has been seen the flag stays set and no further pre-condition is recorded. */
  lemma HasWhenMonotone(tc: TestCase, s: Step)
    requires tc.hasWhen
    ensures AddStep(tc, s).hasWhen
    ensures AddStep(tc, s).preCondition == tc.preCondition
  {
  }

  /** Every step lands in exactly one of the three lists. */
  lemma StepLandsOnce(tc: TestCase, s: Step)
    ensures var r := AddStep(tc, s);
            |r.preCondition| + |r.steps| + |r.expectedResult|
            == |tc.preCondition| + |tc.steps| + |tc.expectedResult| + 1
  {
  }

  /** The index of the first `When` in a step stream, or its length if there is none. */
  function FirstWhen(ss: seq<Step>): (w: nat)
    ensures w <= |ss|
  {
    if |ss| == 0 then 0
    else
      var w := FirstWhen(ss[..|ss| - 1]);
      if w < |ss| - 1 || ss[|ss| - 1].keyword == When then w else |ss|
  }

  /** No `When` precedes `FirstWhen(ss)`, and a `When` sits there unless it is the end. */
  lemma {:induction false} FirstWhenSpec(ss: seq<Step>)
    ensures forall i :: 0 <= i < FirstWhen(ss) ==> ss[i].keyword != When
    ensures FirstWhen(ss) < |ss| ==> ss[FirstWhen(ss)].keyword == When
  {
    if |ss| > 0 {
      var init := ss[..|ss| - 1];
      FirstWhenSpec(init);
      assert forall i :: 0 <= i < |init| ==> ss[i] == init[i];
    }
  }

  /** The steps of `ss` whose keyword is in `ks`, in order. */
  function Select(ss: seq<Step>, ks: set<Keyword>): (r: seq<Step>)
    ensures |r| <= |ss|
  {
    if |ss| == 0 then []
    else Select(ss[..|ss| - 1], ks) + (if ss[|ss| - 1].keyword in ks then [ss[|ss| - 1]] else [])
  }

  /** The keywords that are pre-conditions before the first `When`. */
  const PreKeys: set<Keyword> := {Given, And}
  /** The keywords that are test steps from the first `When` on. */
  const ActionKeys: set<Keyword> := {Given, When, And, But}

  /** The pre-conditions a scenario with step stream `ss` ends up with: the `Given`/`And` steps before the first `When`. */
  function PreConditionsOf(ss: seq<Step>): seq<Step>
  {
    Select(ss[..FirstWhen(ss)], PreKeys)
  }

  /** Its test steps: the `But` steps before the first `When`, then every non-`Then` step from it on. */
  function TestStepsOf(ss: seq<Step>): seq<Step>
  {
    var w := FirstWhen(ss);
    Select(ss[..w], {But}) + Select(ss[w..], ActionKeys)
  }

  /** Its expected results: all the `Then` steps. */
  function ExpectedResultsOf(ss: seq<Step>): seq<Step>
  {
    Select(ss, {Then})
  }

  /**
   A record's step lists and flag are those its scenario's whole step
   stream `ss` determines.
   */
  predicate StepListsMatch(tc: TestCase, ss: seq<Step>)
  {
    && tc.preCondition == PreConditionsOf(ss)
    && tc.steps == TestStepsOf(ss)
    && tc.expectedResult == ExpectedResultsOf(ss)
    && tc.hasWhen == (FirstWhen(ss) < |ss|)
  }

  lemma SliceWhole(x: seq<Step>)
    ensures x[..|x|] == x && x[|x|..] == []
  {
  }

  lemma SliceAppend(x: seq<Step>, s: Step, k: nat)
    requires k <= |x|
    ensures (x + [s])[..k] == x[..k]
    ensures (x + [s])[k..] == x[k..] + [s]
  {
  }

  /** Appending a step moves the first `When` only when there was none. */
  lemma FirstWhenAppend(ss: seq<Step>, s: Step)
    ensures FirstWhen(ss + [s]) ==
      if FirstWhen(ss) < |ss| || s.keyword == When then FirstWhen(ss) else |ss| + 1
  {
    SliceAppend(ss, s, |ss|);
    SliceWhole(ss);
  }

  lemma SelectLast(x: seq<Step>, s: Step, ks: set<Keyword>)
    ensures Select(x + [s], ks) == Select(x, ks) + (if s.keyword in ks then [s] else [])
  {
    SliceAppend(x, s, |x|);
    SliceWhole(x);
  }

  lemma ExpectedResultsAppend(ss: seq<Step>, s: Step)
    ensures ExpectedResultsOf(ss + [s]) == ExpectedResultsOf(ss) + (if s.keyword == Then then [s] else [])
  {
    SelectLast(ss, s, {Then});
  }

  lemma PreConditionsAppend(ss: seq<Step>, s: Step)
    ensures PreConditionsOf(ss + [s]) ==
      PreConditionsOf(ss) + (if FirstWhen(ss) == |ss| && s.keyword in PreKeys then [s] else [])
  {
    FirstWhenAppend(ss, s);
    if FirstWhen(ss) == |ss| && s.keyword != When {
      PreConditionsAppendBeforeWhen(ss, s);
    } else {
      PreConditionsAppendAfterWhen(ss, s);
    }
  }

  lemma PreConditionsAppendBeforeWhen(ss: seq<Step>, s: Step)
    requires FirstWhen(ss) == |ss| && FirstWhen(ss + [s]) == |ss| + 1
    ensures PreConditionsOf(ss + [s]) == PreConditionsOf(ss) + (if s.keyword in PreKeys then [s] else [])
  {
    SliceWhole(ss + [s]);
    SliceWhole(ss);
    SelectLast(ss, s, PreKeys);
  }

  lemma PreConditionsAppendAfterWhen(ss: seq<Step>, s: Step)
    requires FirstWhen(ss) < |ss| || s.keyword == When
    requires FirstWhen(ss + [s]) == FirstWhen(ss)
    ensures PreConditionsOf(ss + [s]) ==
      PreConditionsOf(ss) + (if FirstWhen(ss) == |ss| && s.keyword in PreKeys then [s] else [])
  {
    SliceAppend(ss, s, FirstWhen(ss));
    AppendEmpty(PreConditionsOf(ss));
  }

  lemma TestStepsAppend(ss: seq<Step>, s: Step)
    ensures TestStepsOf(ss + [s]) ==
      TestStepsOf(ss) + (if s.keyword == But || ((FirstWhen(ss) < |ss| || s.keyword == When) && s.keyword in ActionKeys)
                         then [s] else [])
  {
    FirstWhenAppend(ss, s);
    if FirstWhen(ss) < |ss| || s.keyword == When {
      TestStepsAppendAfterWhen(ss, s);
    } else {
      TestStepsAppendBeforeWhen(ss, s);
    }
  }

  lemma TestStepsAppendAfterWhen(ss: seq<Step>, s: Step)
    requires FirstWhen(ss + [s]) == FirstWhen(ss)
    ensures TestStepsOf(ss + [s]) == TestStepsOf(ss) + (if s.keyword in ActionKeys then [s] else [])
  {
    var w := FirstWhen(ss);
    SliceAppend(ss, s, w);
    SelectLast(ss[w..], s, ActionKeys);
  }

  lemma TestStepsAppendBeforeWhen(ss: seq<Step>, s: Step)
    requires FirstWhen(ss) == |ss| && FirstWhen(ss + [s]) == |ss| + 1
    ensures TestStepsOf(ss + [s]) == TestStepsOf(ss) + (if s.keyword == But then [s] else [])
  {
    SliceWhole(ss + [s]);
    SliceWhole(ss);
    SelectLast(ss, s, {But});
    NoneSelected(ActionKeys);
    AppendEmpty(Select(ss, {But}));
    AppendEmpty(Select(ss + [s], {But}));
  }

  lemma NoneSelected(ks: set<Keyword>)
    ensures Select([], ks) == []
  {
  }

  lemma AppendEmpty(x: seq<Step>)
    ensures x + [] == x
  {
  }

  /** Adding a step to a record extends its stream by that step. */
  lemma AddStepExtends(tc: TestCase, ss: seq<Step>, s: Step)
    requires StepListsMatch(tc, ss)
    ensures StepListsMatch(AddStep(tc, s), ss + [s])
  {
    FirstWhenAppend(ss, s);
    PreConditionsAppend(ss, s);
    TestStepsAppend(ss, s);
    ExpectedResultsAppend(ss, s);
  }

  /** `Select` keeps steps of `x` only, and only those with a keyword in `ks`. */
  lemma {:induction false} SelectFrom(x: seq<Step>, ks: set<Keyword>)
    ensures forall i :: 0 <= i < |Select(x, ks)| ==> Select(x, ks)[i] in x && Select(x, ks)[i].keyword in ks
  {
    if |x| > 0 {
      var init := x[..|x| - 1];
      SelectFrom(init, ks);
      assert forall s :: s in init ==> s in x;
    }
  }

  /** `Select` keeps every step of `x` when all their keywords are in `ks`. */
  lemma {:induction false} SelectEvery(x: seq<Step>, ks: set<Keyword>)
    requires forall i :: 0 <= i < |x| ==> x[i].keyword in ks
    ensures Select(x, ks) == x
  {
    if |x| > 0 {
      var init := x[..|x| - 1];
      assert forall i :: 0 <= i < |init| ==> init[i] == x[i];
      SelectEvery(init, ks);
      assert x == init + [x[|x| - 1]];
    }
  }

  /** Selecting by two disjoint keyword sets splits the selection by their union. */
  lemma {:induction false} SelectDisjoint(x: seq<Step>, a: set<Keyword>, b: set<Keyword>)
    requires a !! b
    ensures |Select(x, a)| + |Select(x, b)| == |Select(x, a + b)|
  {
    if |x| > 0 {
      SelectDisjoint(x[..|x| - 1], a, b);
    }
  }

  /** Selecting from a concatenation selects from each part. */
  lemma {:induction false} SelectConcat(x: seq<Step>, y: seq<Step>, ks: set<Keyword>)
    ensures Select(x + y, ks) == Select(x, ks) + Select(y, ks)
  {
    if |y| == 0 {
      assert x + y == x;
      NoneSelected(ks);
      AppendEmpty(Select(x, ks));
    } else {
      var init := y[..|y| - 1];
      var last := y[|y| - 1];
      SelectConcat(x, init, ks);
      assert (x + y)[..|x + y| - 1] == x + init;
      assert (x + y)[|x + y| - 1] == last;
    }
  }

  /**
   Every step of a scenario lands in exactly one of the three lists: their
   lengths add up to the number of step lines.
   */
  lemma PartitionCount(ss: seq<Step>)
    ensures |PreConditionsOf(ss)| + |TestStepsOf(ss)| + |ExpectedResultsOf(ss)| == |ss|
  {
    var w := FirstWhen(ss);
    FirstWhenSpec(ss);
    var x, y := ss[..w], ss[w..];
    assert ss == x + y;
    SelectConcat(x, y, {Then});
    BeforeWhenCount(x);
    FromWhenCount(y);
  }

  lemma BeforeWhenCount(x: seq<Step>)
    requires forall i :: 0 <= i < |x| ==> x[i].keyword != When
    ensures |Select(x, PreKeys)| + |Select(x, {But})| + |Select(x, {Then})| == |x|
  {
    SelectDisjoint(x, PreKeys, {But});
    SelectDisjoint(x, PreKeys + {But}, {Then});
    SelectEvery(x, PreKeys + {But} + {Then});
  }

  lemma FromWhenCount(y: seq<Step>)
    ensures |Select(y, ActionKeys)| + |Select(y, {Then})| == |y|
  {
    SelectDisjoint(y, ActionKeys, {Then});
    forall i | 0 <= i < |y| ensures y[i].keyword in ActionKeys + {Then} {
      match y[i].keyword
      case Given => case When => case Then => case And => case But =>
    }
    SelectEvery(y, ActionKeys + {Then});
  }

  /** No step text spans a line break. */
  predicate SingleLineSteps(ss: seq<Step>)
  {
    forall i :: 0 <= i < |ss| ==> NoNewline(ss[i].text)
  }

  /** The lists of a record hold steps of its stream only, so single-line texts stay single-line. */
  lemma StepListsSingleLine(tc: TestCase, ss: seq<Step>)
    requires StepListsMatch(tc, ss) && SingleLineSteps(ss)
    ensures SingleLineSteps(tc.preCondition) && SingleLineSteps(tc.steps) && SingleLineSteps(tc.expectedResult)
  {
    var w := FirstWhen(ss);
    var x, y := ss[..w], ss[w..];
    assert forall s :: s in x ==> s in ss;
    assert forall s :: s in y ==> s in ss;
    SelectFrom(x, PreKeys);
    SelectFrom(x, {But});
    SelectFrom(y, ActionKeys);
    SelectFrom(ss, {Then});
  }
}
