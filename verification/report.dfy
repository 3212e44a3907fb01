/**
 One row of the test-case sheet: how a record's three step lists become
 text cells, how those cells read back, and the colour the Status cell gets.

 The Pre-Condition cell holds one `keyword text` line per step; the Test
 Steps and Expected Result cells number their lines from 1 (`1. keyword
 text`). Lines are joined with a line feed, so an empty list is an empty
 cell.
 */
module Report {
  import opened Wrappers
  import opened Text
  import opened Gherkin
  import opened TestCases

  /** The line of a step in the Pre-Condition cell: keyword, one space, text. */
  function PlainLine(s: Step): string
  {
    KeywordName(s.keyword) + " " + s.text
  }

  /** The line of a step in a numbered cell: its 1-based number, a dot and a space, then the plain line. */
  function NumberedLine(n: nat, s: Step): string
  {
    NatToString(n) + ". " + PlainLine(s)
  }

  function PlainLines(ss: seq<Step>): (r: seq<string>)
    ensures |r| == |ss|
  {
    if |ss| == 0 then [] else PlainLines(ss[..|ss| - 1]) + [PlainLine(ss[|ss| - 1])]
  }

  function NumberedLines(ss: seq<Step>): (r: seq<string>)
    ensures |r| == |ss|
  {
    if |ss| == 0 then [] else NumberedLines(ss[..|ss| - 1]) + [NumberedLine(|ss|, ss[|ss| - 1])]
  }

  /** The Pre-Condition cell. */
  function PreConditionCell(ss: seq<Step>): string
  {
    Join(PlainLines(ss), "\n")
  }

  /** The Test Steps and Expected Result cells. */
  function NumberedCell(ss: seq<Step>): string
  {
    Join(NumberedLines(ss), "\n")
  }

  /** Line `i` of the Pre-Condition cell is step `i`. */
  lemma {:induction false} PlainLinesSpec(ss: seq<Step>)
    ensures forall i :: 0 <= i < |ss| ==> PlainLines(ss)[i] == PlainLine(ss[i])
  {
    if |ss| > 0 {
      PlainLinesSpec(ss[..|ss| - 1]);
    }
  }

  /** Line `i` of a numbered cell is step `i`, numbered `i + 1`. */
  lemma {:induction false} NumberedLinesSpec(ss: seq<Step>)
    ensures forall i :: 0 <= i < |ss| ==> NumberedLines(ss)[i] == NumberedLine(i + 1, ss[i])
  {
    if |ss| > 0 {
      NumberedLinesSpec(ss[..|ss| - 1]);
    }
  }

  // Reading cells back

  /** The keyword whose name is `w`, if any. */
  function ParseKeyword(w: string): (k: Option<Keyword>)
    ensures k.Some? ==> KeywordName(k.value) == w
  {
    if w == "Given" then Some(Given)
    else if w == "When" then Some(When)
    else if w == "Then" then Some(Then)
    else if w == "And" then Some(And)
    else if w == "But" then Some(But)
    else None
  }

  lemma ParseKeywordName(k: Keyword)
    ensures ParseKeyword(KeywordName(k)) == Some(k)
  {
  }

  /** Reads a plain line: the keyword is everything before the first space, the text everything after it. */
  function ReadPlain(line: string): Option<Step>
  {
    var sp := FindChar(line, ' ', 0);
    if sp == |line| then None
    else match ParseKeyword(line[..sp])
      case None => None
      case Some(k) => Some(Step(k, line[sp + 1..]))
  }

  /** Reads a numbered line: a run of digits, `". "`, then a plain line. */
  function ReadNumbered(line: string): Option<(nat, Step)>
  {
    var d := DigitRunEnd(line, 0);
    if 0 < d && d + 2 <= |line| && line[d] == '.' && line[d + 1] == ' ' then
      match ReadPlain(line[d + 2..])
      case None => None
      case Some(s) => Some((DigitsValue(line[..d]), s))
    else None
  }

  function ReadPlainLines(lines: seq<string>): Option<seq<Step>>
  {
    if |lines| == 0 then Some([])
    else match (ReadPlainLines(lines[..|lines| - 1]), ReadPlain(lines[|lines| - 1]))
      case (Some(ss), Some(s)) => Some(ss + [s])
      case _ => None
  }

  /** Reads numbered lines, insisting that line `i` carries the number `i + 1`. */
  function ReadNumberedLines(lines: seq<string>): Option<seq<Step>>
  {
    if |lines| == 0 then Some([])
    else match (ReadNumberedLines(lines[..|lines| - 1]), ReadNumbered(lines[|lines| - 1]))
      case (Some(ss), Some((n, s))) => if n == |lines| then Some(ss + [s]) else None
      case _ => None
  }

  /** Reads a Pre-Condition cell: the empty cell is no steps, otherwise one step per line. */
  function ReadPreConditionCell(cell: string): Option<seq<Step>>
  {
    if cell == "" then Some([]) else ReadPlainLines(Split(cell, '\n'))
  }

  function ReadNumberedCell(cell: string): Option<seq<Step>>
  {
    if cell == "" then Some([]) else ReadNumberedLines(Split(cell, '\n'))
  }

  lemma ReadPlainLine(s: Step)
    ensures ReadPlain(PlainLine(s)) == Some(s)
  {
    var line := PlainLine(s);
    var name := KeywordName(s.keyword);
    assert line[|name|] == ' ' && forall i :: 0 <= i < |name| ==> line[i] == name[i] != ' ';
    assert FindChar(line, ' ', 0) == |name|;
    assert line[..|name|] == name;
    ParseKeywordName(s.keyword);
    assert line[|name| + 1..] == s.text;
  }

  lemma ReadNumberedLine(n: nat, s: Step)
    ensures ReadNumbered(NumberedLine(n, s)) == Some((n, s))
  {
    var line := NumberedLine(n, s);
    var d := NatToString(n);
    assert line[|d|] == '.' && line[|d| + 1] == ' ';
    assert forall i :: 0 <= i < |d| ==> line[i] == d[i];
    assert DigitRunEnd(line, 0) == |d|;
    assert line[..|d|] == d;
    assert line[|d| + 2..] == PlainLine(s);
    ReadPlainLine(s);
    NatToStringValue(n);
  }

  lemma ReadPlainLinesSnoc(ss: seq<Step>, s: Step)
    requires ReadPlainLines(PlainLines(ss)) == Some(ss)
    ensures ReadPlainLines(PlainLines(ss + [s])) == Some(ss + [s])
  {
    var ls := PlainLines(ss + [s]);
    assert (ss + [s])[..|ss|] == ss;
    assert ls == PlainLines(ss) + [PlainLine(s)];
    assert ls[..|ss|] == PlainLines(ss);
    ReadPlainLine(s);
  }

  lemma ReadNumberedLinesSnoc(ss: seq<Step>, s: Step)
    requires ReadNumberedLines(NumberedLines(ss)) == Some(ss)
    ensures ReadNumberedLines(NumberedLines(ss + [s])) == Some(ss + [s])
  {
    var ls := NumberedLines(ss + [s]);
    assert (ss + [s])[..|ss|] == ss;
    assert ls == NumberedLines(ss) + [NumberedLine(|ss| + 1, s)];
    assert ls[..|ss|] == NumberedLines(ss);
    ReadNumberedLine(|ss| + 1, s);
  }

  lemma {:induction false} ReadPlainLinesRoundTrip(ss: seq<Step>)
    ensures ReadPlainLines(PlainLines(ss)) == Some(ss)
  {
    if |ss| > 0 {
      var init, last := ss[..|ss| - 1], ss[|ss| - 1];
      assert init + [last] == ss;
      ReadPlainLinesRoundTrip(init);
      ReadPlainLinesSnoc(init, last);
    }
  }

  lemma {:induction false} ReadNumberedLinesRoundTrip(ss: seq<Step>)
    ensures ReadNumberedLines(NumberedLines(ss)) == Some(ss)
  {
    if |ss| > 0 {
      var init, last := ss[..|ss| - 1], ss[|ss| - 1];
      assert init + [last] == ss;
      ReadNumberedLinesRoundTrip(init);
      ReadNumberedLinesSnoc(init, last);
    }
  }

  /** A joined list starts with its first part. */
  lemma JoinStartsWithFirst(parts: seq<string>, sep: string)
    requires |parts| > 0
    ensures parts[0] <= Join(parts, sep)
  {
  }

  lemma PlainLineSingle(s: Step)
    requires NoNewline(s.text)
    ensures '\n' !in PlainLine(s) && |PlainLine(s)| > 0
  {
    var line := PlainLine(s);
    var name := KeywordName(s.keyword);
    assert forall i :: 0 <= i < |line| ==> line[i] != '\n' by {
      forall i | 0 <= i < |line|
        ensures line[i] != '\n'
      {
        if i > |name| {
          assert line[i] == s.text[i - |name| - 1];
        }
      }
    }
  }

  lemma NumberedLineSingle(n: nat, s: Step)
    requires NoNewline(s.text)
    ensures '\n' !in NumberedLine(n, s) && |NumberedLine(n, s)| > 0
  {
    PlainLineSingle(s);
    var d := NatToString(n);
    var line := NumberedLine(n, s);
    assert forall i :: 0 <= i < |line| ==> line[i] != '\n' by {
      forall i | 0 <= i < |line|
        ensures line[i] != '\n'
      {
        if i >= |d| + 2 {
          assert line[i] == PlainLine(s)[i - |d| - 2];
        }
      }
    }
  }

  /**
   A Pre-Condition cell reads back to the list it was made from, provided
   no step text holds a line feed.
   */
  lemma PreConditionCellRoundTrip(ss: seq<Step>)
    requires SingleLineSteps(ss)
    ensures ReadPreConditionCell(PreConditionCell(ss)) == Some(ss)
  {
    var ls := PlainLines(ss);
    ReadPlainLinesRoundTrip(ss);
    if |ss| > 0 {
      PlainLinesSpec(ss);
      forall k | 0 <= k < |ls|
        ensures '\n' !in ls[k] && |ls[k]| > 0
      {
        PlainLineSingle(ss[k]);
      }
      JoinStartsWithFirst(ls, "\n");
      SplitJoin(ls, '\n');
    }
  }

  lemma NumberedCellRoundTrip(ss: seq<Step>)
    requires SingleLineSteps(ss)
    ensures ReadNumberedCell(NumberedCell(ss)) == Some(ss)
  {
    var ls := NumberedLines(ss);
    ReadNumberedLinesRoundTrip(ss);
    if |ss| > 0 {
      NumberedLinesSpec(ss);
      forall k | 0 <= k < |ls|
        ensures '\n' !in ls[k] && |ls[k]| > 0
      {
        NumberedLineSingle(k + 1, ss[k]);
      }
      JoinStartsWithFirst(ls, "\n");
      SplitJoin(ls, '\n');
    }
  }

  /**
   A cell has one line per step: it is empty exactly when the list is, and
   otherwise splits on line feeds into as many lines as the list has steps.
   */
  lemma CellLineCount(ss: seq<Step>)
    requires SingleLineSteps(ss)
    ensures PreConditionCell(ss) == "" <==> |ss| == 0
    ensures NumberedCell(ss) == "" <==> |ss| == 0
    ensures |ss| > 0 ==> |Split(PreConditionCell(ss), '\n')| == |ss|
    ensures |ss| > 0 ==> |Split(NumberedCell(ss), '\n')| == |ss|
  {
    if |ss| > 0 {
      PlainLinesSpec(ss);
      NumberedLinesSpec(ss);
      PlainLineSingle(ss[0]);
      NumberedLineSingle(1, ss[0]);
      JoinStartsWithFirst(PlainLines(ss), "\n");
      JoinStartsWithFirst(NumberedLines(ss), "\n");
      PreConditionCellRoundTrip(ss);
      NumberedCellRoundTrip(ss);
      forall k | 0 <= k < |ss|
        ensures '\n' !in PlainLines(ss)[k] && '\n' !in NumberedLines(ss)[k]
      {
        PlainLineSingle(ss[k]);
        NumberedLineSingle(k + 1, ss[k]);
      }
      SplitJoin(PlainLines(ss), '\n');
      SplitJoin(NumberedLines(ss), '\n');
    }
  }

  // The row

  /** The column headings of the test-case table, in order. */
  const Columns: seq<string> := ["Test Case ID", "Test Scenario", "Test Case", "Pre-Condition",
                                 "Test Steps", "Expected Result", "Evid\U{00EA}ncia", "Status"]

  /** The cells a record fills, one per column. */
  function Row(tc: TestCase): (r: seq<string>)
    ensures |r| == |Columns|
  {
    [tc.id, tc.scenario, tc.testCase, PreConditionCell(tc.preCondition),
     NumberedCell(tc.steps), NumberedCell(tc.expectedResult), tc.evidence, tc.status]
  }

  /** Everything a record holds apart from its `When` flag can be read back from its row. */
  lemma RowReadBack(tc: TestCase)
    requires SingleLineSteps(tc.preCondition) && SingleLineSteps(tc.steps) && SingleLineSteps(tc.expectedResult)
    ensures var r := Row(tc);
            && r[0] == tc.id && r[1] == tc.scenario && r[2] == tc.testCase
            && ReadPreConditionCell(r[3]) == Some(tc.preCondition)
            && ReadNumberedCell(r[4]) == Some(tc.steps)
            && ReadNumberedCell(r[5]) == Some(tc.expectedResult)
            && r[6] == tc.evidence && r[7] == tc.status
  {
    var r := Row(tc);
    assert r[3] == PreConditionCell(tc.preCondition);
    assert r[4] == NumberedCell(tc.steps) && r[5] == NumberedCell(tc.expectedResult);
    PreConditionCellRoundTrip(tc.preCondition);
    NumberedCellRoundTrip(tc.steps);
    NumberedCellRoundTrip(tc.expectedResult);
  }

  // The Status cell's colour

  function UpperChar(c: char): char
  {
    if 'a' <= c <= 'z' then (c as int - 32) as char else c
  }

  /** `str.upper()` on ASCII letters; every other character is left alone. */
  function Upper(s: string): (r: string)
    ensures |r| == |s|
  {
    if |s| == 0 then [] else Upper(s[..|s| - 1]) + [UpperChar(s[|s| - 1])]
  }

  lemma {:induction false} UpperSpec(s: string)
    ensures forall i :: 0 <= i < |s| ==> Upper(s)[i] == UpperChar(s[i])
  {
    if |s| > 0 {
      UpperSpec(s[..|s| - 1]);
    }
  }

  predicate OccursAt(s: string, m: string, i: nat)
  {
    i + |m| <= |s| && s[i..i + |m|] == m
  }

  /** Python's `m in s` for strings. */
  predicate Contains(s: string, m: string)
  {
    exists i: nat :: i <= |s| && OccursAt(s, m, i)
  }

  const SuccessMarker: string := "SUCESSO"
  const FailureMarker: string := "FALHA"

  /** The solid fill a Status cell gets, by its colour. */
  datatype Fill = NoFill | Solid(color: string)

  const SuccessColor: string := "C6EFCE"
  const FailureColor: string := "FFC7CE"

  /** Success wins over failure; a status naming neither keeps the default look. */
  function StatusFill(status: string): Fill
  {
    var u := Upper(status);
    if Contains(u, SuccessMarker) then Solid(SuccessColor)
    else if Contains(u, FailureMarker) then Solid(FailureColor)
    else NoFill
  }

  lemma UpperIdempotent(s: string)
    ensures Upper(Upper(s)) == Upper(s)
  {
    UpperSpec(s);
    UpperSpec(Upper(s));
    assert forall i :: 0 <= i < |s| ==> Upper(Upper(s))[i] == UpperChar(UpperChar(s[i]));
  }

  lemma UpperConcat(a: string, b: string)
    ensures Upper(a + b) == Upper(a) + Upper(b)
  {
    UpperSpec(a);
    UpperSpec(b);
    UpperSpec(a + b);
  }

  /** The fill ignores letter case: a status and its upper-cased form get the same colour. */
  lemma StatusFillIgnoresCase(s: string)
    ensures StatusFill(Upper(s)) == StatusFill(s)
  {
    UpperIdempotent(s);
  }

  lemma ContainsMiddle(a: string, m: string, b: string)
    ensures Contains(a + m + b, m)
  {
    assert OccursAt(a + m + b, m, |a|);
  }

  /** A success marker spelled in any case anywhere in the status makes the cell green. */
  lemma SuccessAnywhere(pre: string, m: string, post: string)
    requires Upper(m) == SuccessMarker
    ensures StatusFill(pre + m + post) == Solid(SuccessColor)
  {
    UpperConcat(pre + m, post);
    UpperConcat(pre, m);
    ContainsMiddle(Upper(pre), SuccessMarker, Upper(post));
  }

  /** A failure marker in any case makes the cell red unless a success marker is present too. */
  lemma FailureAnywhere(pre: string, m: string, post: string)
    requires Upper(m) == FailureMarker
    requires !Contains(Upper(pre + m + post), SuccessMarker)
    ensures StatusFill(pre + m + post) == Solid(FailureColor)
  {
    UpperConcat(pre + m, post);
    UpperConcat(pre, m);
    ContainsMiddle(Upper(pre), FailureMarker, Upper(post));
  }

  lemma UpperSlice(s: string, i: nat, j: nat)
    requires i <= j <= |s|
    ensures Upper(s[i..j]) == Upper(s)[i..j]
  {
    UpperSpec(s);
    UpperSpec(s[i..j]);
    MappedSlice(s, i, j, Upper(s), Upper(s[i..j]));
  }

  /** Upper-casing character by character commutes with taking a slice. */
  lemma MappedSlice(s: string, i: nat, j: nat, u: string, v: string)
    requires i <= j <= |s|
    requires |u| == |s| && forall k :: 0 <= k < |s| ==> u[k] == UpperChar(s[k])
    requires |v| == j - i && forall k :: 0 <= k < j - i ==> v[k] == UpperChar(s[i..j][k])
    ensures v == u[i..j]
  {
    assert forall k :: 0 <= k < |v| ==> v[k] == u[i + k];
  }

  /**
   A status gets no fill exactly when no stretch of it, upper-cased, spells
   either marker: the colouring has no `else` branch.
   */
  lemma NoMarkerNoFill(s: string)
    ensures StatusFill(s) == NoFill <==>
            forall i, j :: 0 <= i <= j <= |s| ==>
              Upper(s[i..j]) != SuccessMarker && Upper(s[i..j]) != FailureMarker
  {
    var u := Upper(s);
    if StatusFill(s) == NoFill {
      forall i, j | 0 <= i <= j <= |s|
        ensures Upper(s[i..j]) != SuccessMarker && Upper(s[i..j]) != FailureMarker
      {
        UpperSlice(s, i, j);
        assert !OccursAt(u, SuccessMarker, i) && !OccursAt(u, FailureMarker, i);
      }
    } else if Contains(u, SuccessMarker) {
      var i: nat :| i <= |u| && OccursAt(u, SuccessMarker, i);
      UpperSlice(s, i, i + |SuccessMarker|);
    } else {
      var i: nat :| i <= |u| && OccursAt(u, FailureMarker, i);
      UpperSlice(s, i, i + |FailureMarker|);
    }
  }

  /** A status that names both outcomes is coloured as a success. */
  lemma BothMarkersExample()
    ensures StatusFill("Falha corrigida: sucesso") == Solid(SuccessColor)
  {
    assert "Falha corrigida: sucesso" == "Falha corrigida: " + "sucesso" + "";
    UpperSpec("sucesso");
    assert Upper("sucesso") == SuccessMarker;
    SuccessAnywhere("Falha corrigida: ", "sucesso", "");
  }
}
