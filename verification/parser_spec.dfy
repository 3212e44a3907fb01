/**
 What `parse_feature_file` computes, stated line by line without the loop
 state: one test case per Scenario line, in order, each with the header
 the preceding lines determine and the step lists the lines up to the next
 Scenario line determine.
 */
module ParserSpec {
  import opened Wrappers
  import opened Gherkin
  import opened TestCases
  import opened TestCaseIds
  import opened Parser


  /** The indices of the Scenario lines, in input order. */
  function ScenarioPositions(kinds: seq<LineKind>): (ps: seq<nat>)
    ensures |ps| <= |kinds|
    ensures forall k :: 0 <= k < |ps| ==> ps[k] < |kinds|
  {
    if |kinds| == 0 then []
    else
      var ps := ScenarioPositions(kinds[..|kinds| - 1]);
      if kinds[|kinds| - 1].ScenarioLine? then ps + [|kinds| - 1] else ps
  }

  /** `ScenarioPositions` lists exactly the Scenario lines, in increasing order. */
  lemma {:induction false} ScenarioPositionsSpec(kinds: seq<LineKind>)
    ensures var ps := ScenarioPositions(kinds);
            && (forall k :: 0 <= k < |ps| ==> ps[k] < |kinds| && kinds[ps[k]].ScenarioLine?)
            && (forall k, j :: 0 <= k < j < |ps| ==> ps[k] < ps[j])
            && (forall i :: 0 <= i < |kinds| && kinds[i].ScenarioLine? ==> i in ps)
  {
    if |kinds| > 0 {
      var init := kinds[..|kinds| - 1];
      ScenarioPositionsSpec(init);
      assert forall i :: 0 <= i < |init| ==> kinds[i] == init[i];
    }
  }

  /** The steps of the step lines among `kinds`, in order. */
  function StepsIn(kinds: seq<LineKind>): (ss: seq<Step>)
    ensures |ss| <= |kinds|
  {
    if |kinds| == 0 then []
    else
      var kind := kinds[|kinds| - 1];
      StepsIn(kinds[..|kinds| - 1]) + (if kind.StepLine? then [kind.step] else [])
  }

  /** The title of the last Feature line, or `""` if there is none. */
  function LastFeature(kinds: seq<LineKind>): string
  {
    if |kinds| == 0 then ""
    else
      var kind := kinds[|kinds| - 1];
      if kind.FeatureLine? then kind.title else LastFeature(kinds[..|kinds| - 1])
  }

  /** The two annotations a Scenario line takes over: `#Evidência:` and `#Resultado:`. */
  datatype Annotation = Evidence | Status

  /** The text a line gives annotation `a`, if it is such an annotation line. */
  function AnnotationText(kind: LineKind, a: Annotation): Option<string>
  {
    match a
    case Evidence => if kind.EvidenceLine? then Some(kind.evidence) else None
    case Status => if kind.ResultLine? then Some(kind.result) else None
  }

  /** The text of the last `a` line after the last Scenario line, or `""` if there is none. */
  function Pending(kinds: seq<LineKind>, a: Annotation): string
  {
    if |kinds| == 0 then ""
    else
      var kind := kinds[|kinds| - 1];
      match AnnotationText(kind, a)
      case Some(text) => text
      case None => if kind.ScenarioLine? then "" else Pending(kinds[..|kinds| - 1], a)
  }

  /** Where the `k`-th scenario's kinds end: at the next Scenario line, or at the end of input. */
  function SegmentEnd(kinds: seq<LineKind>, ps: seq<nat>, k: nat): nat
    requires k < |ps|
  {
    if k + 1 < |ps| then ps[k + 1] else |kinds|
  }

  /**
   `tc` is the test case of the `k`-th Scenario line, at index `ps[k]`:
   its identifier comes from its title or its position `k + 1`, its
   scenario is the Feature title and its evidence and status the pending
   annotations as they stood when that line was read, and its step lists
   are those of the step lines between it and the next Scenario line.
   */
  predicate Describes(kinds: seq<LineKind>, ps: seq<nat>, k: nat, tc: TestCase, idOf: IdRule)
    requires k < |ps|
  {
    var p := ps[k];
    var e := SegmentEnd(kinds, ps, k);
    && p < e <= |kinds|
    && kinds[p].ScenarioLine?
    && var title := kinds[p].scenarioTitle;
    && tc.testCase == title
    && tc.id == idOf(title, k + 1)
    && tc.scenario == LastFeature(kinds[..p])
    && tc.evidence == Pending(kinds[..p], Evidence)
    && tc.status == Pending(kinds[..p], Status)
    && StepListsMatch(tc, StepsIn(kinds[p + 1..e]))
  }

  /** The loop invariant, annotation part: the Feature title and the pending annotations. */
  predicate Header(kinds: seq<LineKind>, st: State)
  {
    && st.featureName == LastFeature(kinds)
    && st.evidence == Pending(kinds, Evidence)
    && st.result == Pending(kinds, Status)
  }

  /** The loop invariant, record part: one record per Scenario line so far, each as `Describes` says. */
  predicate Records(kinds: seq<LineKind>, st: State, idOf: IdRule)
  {
    var ps := ScenarioPositions(kinds);
    var tcs := Opened(st);
    && |tcs| == |ps|
    && (st.current.Some? <==> |ps| > 0)
    && (forall k :: 0 <= k < |ps| ==> Describes(kinds, ps, k, tcs[k], idOf))
  }

  /** The loop invariant: the state after `kinds` agrees with the line-by-line description. */
  predicate Inv(kinds: seq<LineKind>, st: State, idOf: IdRule)
  {
    Header(kinds, st) && Records(kinds, st, idOf)
  }

  /** How each line-by-line description changes with one more line. */
  lemma DescriptionsSnoc(kinds: seq<LineKind>, kind: LineKind)
    ensures var ps := ScenarioPositions(kinds);
            ScenarioPositions(kinds + [kind]) == if kind.ScenarioLine? then ps + [|kinds|] else ps
    ensures LastFeature(kinds + [kind]) == if kind.FeatureLine? then kind.title else LastFeature(kinds)
    ensures Pending(kinds + [kind], Evidence) ==
              if kind.EvidenceLine? then kind.evidence
              else if kind.ScenarioLine? then "" else Pending(kinds, Evidence)
    ensures Pending(kinds + [kind], Status) ==
              if kind.ResultLine? then kind.result
              else if kind.ScenarioLine? then "" else Pending(kinds, Status)
  {
    LinesSnoc(kinds, kind);
  }

  lemma LinesSnoc(kinds: seq<LineKind>, kind: LineKind)
    ensures (kinds + [kind])[..|kinds|] == kinds
    ensures (kinds + [kind])[|kinds|] == kind
  {
  }

  lemma SliceSnoc(kinds: seq<LineKind>, kind: LineKind, a: nat, b: nat)
    requires a <= b <= |kinds|
    ensures (kinds + [kind])[a..b] == kinds[a..b]
    ensures (kinds + [kind])[..b] == kinds[..b]
  {
  }

  /** A record whose lines all lie within `kinds` is described the same way after one more line. */
  lemma DescribesExtend(kinds: seq<LineKind>, kind: LineKind, ps: seq<nat>, ps': seq<nat>, k: nat, tc: TestCase, idOf: IdRule)
    requires k < |ps| <= |ps'|
    requires ps'[k] == ps[k]
    requires SegmentEnd(kinds + [kind], ps', k) == SegmentEnd(kinds, ps, k)
    requires Describes(kinds, ps, k, tc, idOf)
    ensures Describes(kinds + [kind], ps', k, tc, idOf)
  {
    var p := ps[k];
    var e := SegmentEnd(kinds, ps, k);
    SliceSnoc(kinds, kind, p + 1, e);
    SliceSnoc(kinds, kind, p, p);
    assert (kinds + [kind])[p] == kinds[p];
  }

  /** The open record absorbs a non-Scenario line: a step extends its stream, anything else leaves it. */
  lemma DescribesGrow(kinds: seq<LineKind>, kind: LineKind, ps: seq<nat>, tc: TestCase, idOf: IdRule)
    requires |ps| > 0 && !kind.ScenarioLine?
    requires Describes(kinds, ps, |ps| - 1, tc, idOf)
    ensures Describes(kinds + [kind], ps, |ps| - 1, if kind.StepLine? then AddStep(tc, kind.step) else tc, idOf)
  {
    var p := ps[|ps| - 1];
    SliceSnoc(kinds, kind, p, p);
    StepsSnoc(kinds, kind, p + 1);
    if !kind.StepLine? {
      AppendEmpty(StepsIn(kinds[p + 1..|kinds|]));
    }
    if kind.StepLine? {
      DescribesGrowStep(kinds, kind.step, ps, tc, idOf);
    } else {
      DescribesGrowOther(kinds, kind, ps, tc, idOf);
    }
  }

  lemma DescribesGrowOther(kinds: seq<LineKind>, kind: LineKind, ps: seq<nat>, tc: TestCase, idOf: IdRule)
    requires |ps| > 0 && ps[|ps| - 1] < |kinds|
    requires Describes(kinds, ps, |ps| - 1, tc, idOf)
    requires var p := ps[|ps| - 1];
             StepsIn((kinds + [kind])[p + 1..|kinds| + 1]) == StepsIn(kinds[p + 1..|kinds|])
    requires var p := ps[|ps| - 1]; (kinds + [kind])[..p] == kinds[..p] && (kinds + [kind])[p] == kinds[p]
    ensures Describes(kinds + [kind], ps, |ps| - 1, tc, idOf)
  {
  }

  lemma DescribesGrowStep(kinds: seq<LineKind>, s: Step, ps: seq<nat>, tc: TestCase, idOf: IdRule)
    requires |ps| > 0 && ps[|ps| - 1] < |kinds|
    requires Describes(kinds, ps, |ps| - 1, tc, idOf)
    requires var p := ps[|ps| - 1];
             StepsIn((kinds + [StepLine(s)])[p + 1..|kinds| + 1]) == StepsIn(kinds[p + 1..|kinds|]) + [s]
    requires var p := ps[|ps| - 1]; (kinds + [StepLine(s)])[..p] == kinds[..p]
    ensures Describes(kinds + [StepLine(s)], ps, |ps| - 1, AddStep(tc, s), idOf)
  {
    var p := ps[|ps| - 1];
    AddStepExtends(tc, StepsIn(kinds[p + 1..|kinds|]), s);
  }

  /** One more line adds its step, if it is one, to the steps of a trailing segment. */
  lemma StepsSnoc(kinds: seq<LineKind>, kind: LineKind, a: nat)
    requires a <= |kinds|
    ensures StepsIn((kinds + [kind])[a..|kinds| + 1])
            == StepsIn(kinds[a..|kinds|]) + (if kind.StepLine? then [kind.step] else [])
  {
    var seg := (kinds + [kind])[a..|kinds| + 1];
    assert seg[..|seg| - 1] == kinds[a..|kinds|];
    assert seg[|seg| - 1] == kind;
  }

  /** A Scenario line opens a record described by the lines before it. */
  lemma DescribesNew(kinds: seq<LineKind>, kind: LineKind, st: State, idOf: IdRule)
    requires Header(kinds, st) && |Opened(st)| == |ScenarioPositions(kinds)| && kind.ScenarioLine?
    ensures var ps' := ScenarioPositions(kinds + [kind]);
            |ps'| == |ScenarioPositions(kinds)| + 1
            && Describes(kinds + [kind], ps', |ps'| - 1, Advance(st, kind, idOf).current.value, idOf)
  {
    var kinds' := kinds + [kind];
    LinesSnoc(kinds, kind);
    DescriptionsSnoc(kinds, kind);
    assert kinds'[|kinds| + 1..|kinds| + 1] == [];
    assert StepsIn([]) == [];
  }

  /** One iteration keeps the invariant. */
  lemma AdvanceInv(kinds: seq<LineKind>, kind: LineKind, st: State, idOf: IdRule)
    requires Inv(kinds, st, idOf)
    ensures Inv(kinds + [kind], Advance(st, kind, idOf), idOf)
  {
    DescriptionsSnoc(kinds, kind);
    if kind.ScenarioLine? {
      RecordsScenario(kinds, kind, st, idOf);
    } else {
      RecordsOther(kinds, kind, st, idOf);
    }
  }

  lemma RecordsScenario(kinds: seq<LineKind>, kind: LineKind, st: State, idOf: IdRule)
    requires Inv(kinds, st, idOf) && kind.ScenarioLine?
    ensures Records(kinds + [kind], Advance(st, kind, idOf), idOf)
  {
    var kinds' := kinds + [kind];
    var st' := Advance(st, kind, idOf);
    var ps := ScenarioPositions(kinds);
    var tcs := Opened(st);
    DescriptionsSnoc(kinds, kind);
    var ps' := ps + [|kinds|];
    forall k | 0 <= k < |tcs|
      ensures Describes(kinds', ps', k, tcs[k], idOf)
    {
      DescribesKept(kinds, kind, ps, k, tcs[k], idOf);
    }
    DescribesNew(kinds, kind, st, idOf);
    DescriptionsAppend(kinds', ps', tcs, st'.current.value, idOf);
    OpenedScenario(st, kind, idOf);
  }

  /** Descriptions of the records so far and of a new last one describe the extended list. */
  lemma DescriptionsAppend(kinds: seq<LineKind>, ps: seq<nat>, tcs: seq<TestCase>, tc: TestCase, idOf: IdRule)
    requires |ps| == |tcs| + 1
    requires forall k :: 0 <= k < |tcs| ==> Describes(kinds, ps, k, tcs[k], idOf)
    requires Describes(kinds, ps, |tcs|, tc, idOf)
    ensures forall k :: 0 <= k < |ps| ==> Describes(kinds, ps, k, (tcs + [tc])[k], idOf)
  {
    forall k | 0 <= k < |ps|
      ensures Describes(kinds, ps, k, (tcs + [tc])[k], idOf)
    {
      if k < |tcs| {
        assert (tcs + [tc])[k] == tcs[k];
      }
    }
  }

  /** A Scenario line closes the open record, if any, and opens a new one. */
  lemma OpenedScenario(st: State, kind: LineKind, idOf: IdRule)
    requires kind.ScenarioLine?
    ensures Advance(st, kind, idOf).current.Some?
    ensures Opened(Advance(st, kind, idOf)) == Opened(st) + [Advance(st, kind, idOf).current.value]
  {
  }

  /** The records before a new Scenario line keep their descriptions. */
  lemma DescribesKept(kinds: seq<LineKind>, kind: LineKind, ps: seq<nat>, k: nat, tc: TestCase, idOf: IdRule)
    requires kind.ScenarioLine? && ps == ScenarioPositions(kinds) && k < |ps|
    requires Describes(kinds, ps, k, tc, idOf)
    ensures Describes(kinds + [kind], ps + [|kinds|], k, tc, idOf)
  {
    var ps' := ps + [|kinds|];
    assert ps'[k] == ps[k];
    assert SegmentEnd(kinds + [kind], ps', k) == SegmentEnd(kinds, ps, k);
    DescribesExtend(kinds, kind, ps, ps', k, tc, idOf);
  }

  lemma RecordsOther(kinds: seq<LineKind>, kind: LineKind, st: State, idOf: IdRule)
    requires Records(kinds, st, idOf) && !kind.ScenarioLine?
    ensures Records(kinds + [kind], Advance(st, kind, idOf), idOf)
  {
    var kinds' := kinds + [kind];
    var st' := Advance(st, kind, idOf);
    var ps := ScenarioPositions(kinds);
    DescriptionsSnoc(kinds, kind);
    if st.current.Some? {
      var tcs := Opened(st);
      var tcs' := Opened(st');
      var n := |tcs|;
      OpenedGrow(st, kind, idOf);
      forall k | 0 <= k < n
        ensures Describes(kinds', ps, k, tcs'[k], idOf)
      {
        if k < n - 1 {
          DescribesExtend(kinds, kind, ps, ps, k, tcs[k], idOf);
        } else {
          DescribesGrow(kinds, kind, ps, tcs[k], idOf);
        }
      }
    }
  }

  /** A line other than a Scenario line changes at most the open record. */
  lemma OpenedGrow(st: State, kind: LineKind, idOf: IdRule)
    requires st.current.Some? && !kind.ScenarioLine?
    ensures var tcs := Opened(st);
            var tcs' := Opened(Advance(st, kind, idOf));
            var n := |tcs|;
            && n > 0 && |tcs'| == n
            && (forall k :: 0 <= k < n - 1 ==> tcs'[k] == tcs[k])
            && tcs'[n - 1] == (if kind.StepLine? then AddStep(tcs[n - 1], kind.step) else tcs[n - 1])
  {
  }

  lemma {:induction false} RunInv(kinds: seq<LineKind>, idOf: IdRule)
    ensures Inv(kinds, Run(kinds, idOf), idOf)
  {
    if |kinds| > 0 {
      var init := kinds[..|kinds| - 1];
      RunInv(init, idOf);
      assert kinds == init + [kinds[|kinds| - 1]];
      AdvanceInv(init, kinds[|kinds| - 1], Run(init, idOf), idOf);
    }
  }

  /**
   The parser's result, line by line: one test case per Scenario line, in
   input order, the last one included although no Scenario line follows
   it; each described by `Describes`; and the Feature title of the last
   Feature line, or `""`.
   */
  lemma ParseFeatureFileSpec(lines: seq<string>)
    ensures var (tcs, featureName) := ParseFeatureFile(lines);
            var kinds := ClassifyAll(lines);
            var ps := ScenarioPositions(kinds);
            && |tcs| == |ps|
            && (forall k :: 0 <= k < |tcs| ==> Describes(kinds, ps, k, tcs[k], TestCaseId))
            && featureName == LastFeature(kinds)
  {
    RunInv(ClassifyAll(lines), TestCaseId);
  }
}
