/**
 The single pass of `parse_feature_file` over the lines of a feature
 document, as a fold of `Advance` over the lines, and its result.
 */
module Parser {
  import opened Wrappers
  import opened Gherkin
  import opened TestCases
  import opened TestCaseIds

  /**
   The loop's variables: the current Feature title, the pending evidence
   and result annotations, the open scenario (if any) and the test cases
   already closed.
   */
  datatype State = State(
    featureName: string,
    evidence: string,
    result: string,
    current: Option<TestCase>,
    testCases: seq<TestCase>)

  const Initial: State := State("", "", "", None, [])

  /** The test cases opened so far: the closed ones, then the open one. */
  function Opened(st: State): seq<TestCase>
  {
    if st.current.Some? then st.testCases + [st.current.value] else st.testCases
  }

  /**
   How a scenario's identifier is made from its title and its 1-based
   position; the parser uses `TestCaseId`. The loop is stated for any such
   rule, as nothing in it depends on how identifiers are spelled.
   */
  type IdRule = (string, nat) -> string

  /** One iteration of the loop, given what the first matching pattern made of the line. */
  function Advance(st: State, kind: LineKind, idOf: IdRule): State
  {
    match kind
    case FeatureLine(title) => st.(featureName := title)
    case EvidenceLine(text) => st.(evidence := text)
    case ResultLine(text) => st.(result := text)
    case ScenarioLine(title) =>
      var closed := Opened(st);
      var id := idOf(title, |closed| + 1);
      State(st.featureName, "", "", Some(Open(id, st.featureName, title, st.evidence, st.result)), closed)
    case StepLine(step) =>
      if st.current.Some? then st.(current := Some(AddStep(st.current.value, step))) else st
    case Other => st
  }

  /** The state after the loop has consumed lines of the given kinds. */
  function Run(kinds: seq<LineKind>, idOf: IdRule): State
  {
    if |kinds| == 0 then Initial else Advance(Run(kinds[..|kinds| - 1], idOf), kinds[|kinds| - 1], idOf)
  }

  /** `f` applied to each line, in order. */
  function MapLines<T>(f: string -> T, lines: seq<string>): (r: seq<T>)
    ensures |r| == |lines|
  {
    if |lines| == 0 then [] else MapLines(f, lines[..|lines| - 1]) + [f(lines[|lines| - 1])]
  }

  lemma {:induction false} MapLinesSpec<T>(f: string -> T, lines: seq<string>)
    ensures forall i :: 0 <= i < |lines| ==> MapLines(f, lines)[i] == f(lines[i])
  {
    if |lines| > 0 {
      MapLinesSpec(f, lines[..|lines| - 1]);
    }
  }

  /** Each line classified on its own. */
  function ClassifyAll(lines: seq<string>): (kinds: seq<LineKind>)
    ensures |kinds| == |lines|
  {
    MapLines(Classify, lines)
  }

  /** The `i`-th kind is that of the `i`-th line, whatever the other lines are. */
  lemma ClassifyAllSpec(lines: seq<string>)
    ensures forall i :: 0 <= i < |lines| ==> ClassifyAll(lines)[i] == Classify(lines[i])
  {
    MapLinesSpec(Classify, lines);
  }

  /** `parse_feature_file` on the lines already read: the test cases, last one included, and the Feature title. */
  function ParseFeatureFile(lines: seq<string>): (seq<TestCase>, string)
  {
    var st := Run(ClassifyAll(lines), TestCaseId);
    (Opened(st), st.featureName)
  }
}
