/**
 What the sheet shows for a parsed document: every record's row reads back
 to the step lists its scenario's steps determine, one cell line per step.
 */
module ReportProps {
  import opened Wrappers
  import opened Text
  import opened TestCases
  import opened Parser
  import opened ParserSpec
  import opened ParseProps
  import opened Report

  /**
   The row of the `k`-th record: its Pre-Condition, Test Steps and Expected
   Result cells read back to the lists the steps between its Scenario line
   and the next one determine, and each cell has as many lines as its list
   has steps (none when the cell is empty).
   */
  lemma ParsedRowReadBack(lines: seq<string>, k: nat)
    requires k < |ParseFeatureFile(lines).0|
    ensures var tc := ParseFeatureFile(lines).0[k];
            var kinds := ClassifyAll(lines);
            var ps := ScenarioPositions(kinds);
            && k < |ps| && ps[k] < SegmentEnd(kinds, ps, k) <= |kinds|
            && var ss := StepsIn(kinds[ps[k] + 1..SegmentEnd(kinds, ps, k)]);
            && var r := Row(tc);
            && ReadPreConditionCell(r[3]) == Some(PreConditionsOf(ss))
            && ReadNumberedCell(r[4]) == Some(TestStepsOf(ss))
            && ReadNumberedCell(r[5]) == Some(ExpectedResultsOf(ss))
            && (r[3] == "" <==> PreConditionsOf(ss) == [])
            && (r[4] == "" <==> TestStepsOf(ss) == [])
            && (r[5] == "" <==> ExpectedResultsOf(ss) == [])
            && (r[3] != "" ==> |Split(r[3], '\n')| == |PreConditionsOf(ss)|)
            && (r[4] != "" ==> |Split(r[4], '\n')| == |TestStepsOf(ss)|)
            && (r[5] != "" ==> |Split(r[5], '\n')| == |ExpectedResultsOf(ss)|)
  {
    var tc := ParseFeatureFile(lines).0[k];
    RecordSteps(lines, k);
    RowReadBack(tc);
    CellLineCount(tc.preCondition);
    CellLineCount(tc.steps);
    CellLineCount(tc.expectedResult);
  }
}
