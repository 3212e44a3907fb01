# Feature file to test-case sheet, modelled in Dafny

`generate-test-cases.py` reads a Gherkin `.feature` document and writes a
test-case spreadsheet from it. This project models its pure core:

- `parse_feature_file` is the loop over the document's lines. Each stripped line is tried against five patterns, in order:
  `Feature:`, `#Evidência:`, `#Resultado:`, `Scenario:`, and a step keyword (`Given`, `When`, `Then`, `And`, `But`) followed by whitespace.
- Each `Scenario:` line opens a test-case record and closes the previous one.
- Step lines are routed into the open record's Pre-Condition, Test Steps or Expected Result list. The route depends on a per-record `has_when` flag, which a `When` step sets before it is routed.
- The test-case identifier comes from a number written as `NN)` in the Scenario title. Otherwise it is the scenario's 1-based position, zero-padded to two digits.
- The cell texts of the spreadsheet row: an unnumbered Pre-Condition cell and two numbered cells, each joining its lines with a line feed.
- The colour of the Status cell, and the name of the output file.

Modules:

- `Text`: character classes, `strip`, `split`/`join`, decimal strings and `zfill`.
- `Gherkin`: the line patterns (`Classify`).
- `TestCases`: the record and step routing (`AddStep`), plus the reference definitions `PreConditionsOf`, `TestStepsOf` and `ExpectedResultsOf`.
- `TestCaseIds`: the identifier rule.
- `Parser`: the loop as a fold (`Run`) and `ParseFeatureFile`.
- `ParserSpec`: the loop invariant and the line-by-line description of the result (`Describes`).
- `ParseProps`: the listed properties, stated on the input lines.
- `Report`: the cells, reading them back, the row and the status fill.
- `ReportProps`: cells of parsed records.
- `OutputName`: the file name.

In `Parser`, the fold takes the identifier rule as a parameter, `IdRule`. `ParseFeatureFile` instantiates it with `TestCaseId`. The invariant is proved for any rule, so the identifier's own properties live in `TestCaseIds`.

Three consequences of the code follow from the lemmas below.

**`Scenario Outline:` lines.** They are ignored, so the steps under such a line are added to the record of the preceding `Scenario:`.

**`But` before the first `When`.** It is a test step, not a pre-condition: the source's second routing branch lists `But` unconditionally.

**The default file name.** It is used whenever the Feature title is empty. The code (line 238) tests the title, not whether a Feature line was seen, so a bare `Feature:` line also gets the default name. The model follows the code.

## Model

| member | source | states |
|---|---|---|
| Text.Strip | generate-test-cases.py:29 | `str.strip()`: the result is the stretch of the input left after removing leading and trailing whitespace. It neither starts nor ends with whitespace |
| Gherkin.Capture | generate-test-cases.py:34 | The `\s*(.*)` capture, stripped: the greedy `\s*` skips all leading whitespace, `(.*)` runs from there to the first line feed, and the result is that stretch with its trailing whitespace dropped. It holds no line feed, and neither starts nor ends with whitespace |
| Gherkin.CaptureDetermined | generate-test-cases.py:34 | The capture rule fixes the text: any stretch taken out as that rule describes, and not ending in whitespace, is the capture |
| Gherkin.PatternsExclusive | generate-test-cases.py:14-18 | At most one of the line patterns, and of the five keyword alternatives, matches any stripped line, so the first-match order never changes which pattern a line gets |
| Gherkin.MatchTag | generate-test-cases.py:14-18 | A Feature, Scenario, `#Evidência:` or `#Resultado:` pattern on a stripped line: it matches when the line starts with the tag, capturing the rest; its contract is stated by Gherkin.ClassifyUnique and Gherkin.TagMismatch |
| Gherkin.MatchKeyword | generate-test-cases.py:16 | One keyword alternative of the step pattern: the step it yields carries that keyword |
| Gherkin.MatchStep | generate-test-cases.py:16 | The step pattern; its contract is stated by Gherkin.MatchStepSpec |
| Gherkin.MatchStepSpec | generate-test-cases.py:16 | The step pattern matches exactly when some keyword alternative does, and yields that alternative's step |
| Gherkin.ClassifyUnique | generate-test-cases.py:32-83 | A stripped line is a Feature, Evidence, Result or Scenario line exactly when that tag's pattern matches it, with the tag's capture as its text. It is a step exactly when a keyword alternative matches, with that alternative's step. It is ignored exactly when no pattern matches |
| Gherkin.Classify | generate-test-cases.py:29-83 | A raw line is stripped and then classified as above; its contract is stated by Gherkin.ClassifyUnique and Parser.ClassifyAllSpec |
| Gherkin.ClassifyStripped | generate-test-cases.py:32-101 | The patterns tried in order on a stripped line. The Feature title, Scenario title and step text it captures never contain a line feed, because `(.*)` stops at one; which pattern a line gets is stated by Gherkin.ClassifyUnique |
| Gherkin.ScenarioOutlineIgnored | generate-test-cases.py:15 | A line starting with `Scenario Outline:` matches no pattern, so it is ignored |
| Gherkin.KeywordNeedsSpace | generate-test-cases.py:16 | A line that starts with any of the five keywords but has no whitespace right after it, such as `Andrew ...`, `Whenever ...` or a bare `Then`, is not a step, so the line is ignored |
| Parser.ClassifyAllSpec | generate-test-cases.py:28-29 | Each line is classified on its own, after stripping, whatever the other lines are |
| Parser.Run | generate-test-cases.py:28-101 | The loop as a fold over the classified lines; its contract is stated by ParserSpec.RunInv |
| Parser.Advance | generate-test-cases.py:31-101 | One turn of the loop; its contract is stated by ParserSpec.RunInv, which holds after every line |
| Parser.ParseFeatureFile | generate-test-cases.py:6-107 | `parse_feature_file` on the document's lines; its contract is stated by ParserSpec.ParseFeatureFileSpec |
| TestCases.AddStep | generate-test-cases.py:85-101 | A `When` sets the flag before routing. The step is appended to exactly the one list the routing table names for the updated flag: `Then` goes to results; `Given`/`And` go to pre-conditions until a `When`; everything else goes to steps. Identifier, titles and annotations are unchanged |
| TestCases.HasWhenMonotone | generate-test-cases.py:89-95 | Once the flag is set it stays set, and no further pre-condition is recorded |
| TestCases.StepLandsOnce | generate-test-cases.py:93-101 | Each step adds exactly one entry across the three lists |
| TestCases.AddStepExtends | generate-test-cases.py:89-101 | Suppose a record's lists are those its step stream determines: pre-conditions are the `Given`/`And` steps before the first `When`; test steps are the `But` steps before it plus every non-`Then` step from it on; expected results are all the `Then` steps; and the flag says whether a `When` occurred. Then adding a step keeps this true for the extended stream |
| TestCases.PartitionCount | generate-test-cases.py:93-101 | The three lists a step stream determines have lengths adding up to the stream's length, so every step lands in exactly one list |
| TestCaseIds.TestCaseId | generate-test-cases.py:59-60 | The identifier is at least `TC_` plus two characters long; its full contract is stated by TestCaseIds.TestCaseIdShape and TestCaseIds.TestCaseIdValue |
| TestCaseIds.FirstIdMatch | generate-test-cases.py:59 | The match `re.search` finds is the leftmost position where a non-empty digit run is followed by `)`; there is none before it, and none at all when it reports none |
| TestCaseIds.IdDigitsAreFirstClosedRun | generate-test-cases.py:59 | The captured digits are a whole digit run of the title, immediately followed by `)`; no `(` is required |
| TestCaseIds.TestCaseIdShape | generate-test-cases.py:59-60 | The identifier is `TC_` and then digits only. It ends with the number and is exactly as long as `TC_` plus the larger of 2 and the number's length. Every digit before the number is `0`: padding with zeros, never truncation |
| TestCaseIds.TestCaseIdValue | generate-test-cases.py:59-60 | The identifier's digits have the value of the number in the title if there is one, otherwise the scenario's 1-based position |
| TestCaseIds.ExplicitNumberExample | generate-test-cases.py:59-60 | `03) Do X` as the fifth scenario gets `TC_03`: the title's number wins over the position |
| TestCaseIds.PositionExample | generate-test-cases.py:60 | `Do Y` as the second scenario gets `TC_02` |
| TestCaseIds.IdsCanClash | generate-test-cases.py:59-60 | Identifiers are not made unique: `03) Do X` first and `Do Y` third both get `TC_03` |
| ParserSpec.RunInv | generate-test-cases.py:28-101 | After any prefix of the lines, the loop state holds: the last Feature title; the annotations pending since the last Scenario line; one record per Scenario line so far, each described line by line; and an open record exactly when a Scenario line has been seen |
| ParserSpec.ParseFeatureFileSpec | generate-test-cases.py:28-107 | The result has one record per Scenario line, in order, the last one included. Each record takes its title from its line and its identifier from its title or position. Its Feature title and annotations are those in force at that line, and its step lists are those the step lines up to the next Scenario line determine. The returned title is the last Feature title |
| ParseProps.RecordPerScenario | generate-test-cases.py:49-105 | Records and Scenario lines correspond one to one, in increasing line order. The `k`-th record is titled by the `k`-th Scenario line, and every Scenario line yields a record |
| ParseProps.NoScenarioNoRecords | generate-test-cases.py:84-105 | There are no records exactly when no line is a Scenario line, so steps before any Scenario are dropped |
| ParseProps.RecordAnnotation | generate-test-cases.py:38-79 | A record's evidence or status is the text of the last such annotation line between the previous Scenario line and its own |
| ParseProps.RecordAnnotationNone | generate-test-cases.py:72-79 | Without such a line, the record's evidence or status is empty: annotations are reset at every Scenario line and attach to at most one record |
| ParseProps.RecordFeature | generate-test-cases.py:32-67 | A record's scenario field is the title of the last Feature line before its Scenario line; later Feature lines do not change it |
| ParseProps.RecordFeatureNone | generate-test-cases.py:21-67 | Before any Feature line, a record's scenario field is empty |
| ParseProps.FeatureName | generate-test-cases.py:32-107 | The returned feature name is the title of the last Feature line |
| ParseProps.FeatureNameNone | generate-test-cases.py:21-107 | Without a Feature line, the returned feature name is empty |
| ParseProps.RecordSteps | generate-test-cases.py:83-101 | A record's three lists are those its scenario's step lines determine. Their lengths add up to the number of those step lines, and every listed text is a single line |
| Report.PreConditionCell | generate-test-cases.py:177 | The Pre-Condition cell; its contract is stated by Report.PlainLinesSpec, Report.PreConditionCellRoundTrip and Report.CellLineCount |
| Report.NumberedCell | generate-test-cases.py:180-183 | The Test Steps and Expected Result cells; their contract is stated by Report.NumberedLinesSpec, Report.NumberedCellRoundTrip and Report.CellLineCount |
| Report.PlainLinesSpec | generate-test-cases.py:177 | Line `i` of the Pre-Condition cell is step `i`, as keyword, space, text |
| Report.NumberedLinesSpec | generate-test-cases.py:180-183 | Line `i` of a numbered cell is step `i`, numbered `i + 1` |
| Report.PreConditionCellRoundTrip | generate-test-cases.py:177 | Reading the Pre-Condition cell back, keyword before the first space on each line, gives the list it was made from, when no text holds a line feed |
| Report.NumberedCellRoundTrip | generate-test-cases.py:180-183 | Reading a numbered cell back, with numbers checked to run 1, 2, ..., gives the list it was made from |
| Report.CellLineCount | generate-test-cases.py:177-183 | A cell is empty exactly when its list is; otherwise it splits on line feeds into as many lines as the list has steps |
| Report.Row | generate-test-cases.py:185-194 | A record's row has one cell per column, eight in all; what each cell holds is stated by Report.RowReadBack |
| Report.RowReadBack | generate-test-cases.py:185-194 | The eight cells of a record's row, in column order, give back its identifier, titles, three step lists, evidence and status |
| ReportProps.ParsedRowReadBack | generate-test-cases.py:177-194 | For every parsed record, the row's three step cells read back to the lists its scenario's steps determine, with one cell line per step |
| Report.StatusFill | generate-test-cases.py:204-208 | The Status cell's fill; its contract is stated by Report.SuccessAnywhere, Report.FailureAnywhere and Report.NoMarkerNoFill |
| Report.StatusFillIgnoresCase | generate-test-cases.py:204-208 | A status and its upper-cased form get the same fill |
| Report.SuccessAnywhere | generate-test-cases.py:204-206 | `sucesso` in any letter case anywhere in the status makes the Status cell green (`C6EFCE`) |
| Report.FailureAnywhere | generate-test-cases.py:207-208 | `falha` in any letter case makes the cell red (`FFC7CE`), unless a success marker is present too |
| Report.NoMarkerNoFill | generate-test-cases.py:204-208 | A status gets no fill exactly when no stretch of it, upper-cased, spells `SUCESSO` or `FALHA`: there is no `else` branch |
| Report.BothMarkersExample | generate-test-cases.py:204-208 | A status naming both outcomes is coloured as a success |
| OutputName.OutputFileName | generate-test-cases.py:238 | The output file name; its contract is stated by OutputName.OutputFileNameShape and OutputName.OutputFileNameInjective |
| OutputName.OutputFileNameShape | generate-test-cases.py:238 | The file name has no space and ends in `Casos_de_Teste_v2.xlsx`. A titled document's name is the title with spaces turned into underscores and every other character kept, then `_`, then that suffix; an untitled one gets the bare suffix |
| OutputName.OutputFileNameInjective | generate-test-cases.py:238 | Titles without underscores get different file names |
| OutputName.SpaceAndUnderscoreCollide | generate-test-cases.py:238 | `A B` and `A_B` get the same file name, so that restriction is needed |

## Left out

- Reading the file (generate-test-cases.py:25-26) is I/O. The model takes the list of lines. The trailing line feed that `readlines` keeps is removed by `strip` anyway.
- Workbook construction in `create_excel_sheet` is calls into openpyxl: sheet title, fonts, fills, borders, alignment, the project-information block, merged cells, column widths and `wb.save`. Only the cell values of a record's row and the choice of Status fill colour are modelled. The column headings are a constant, with no property proved about them.
- The command-line block (generate-test-cases.py:221-249) is process plumbing: argument check, messages, the early exit when no test case is found, and exception handling. Only its file-name expression (line 238) is modelled.
- Python's `\s`, `strip()` and `\d` are Unicode-aware. The model uses the ASCII whitespace that `str.isspace` and `\s` share (space, TAB to CR, and 0x1C to 0x1F) and the digits `0` to `9`. Other Unicode spaces and digits are treated as ordinary characters.
- Report.Upper: upper-cases only the ASCII letters `a` to `z`. Python's `str.upper()` applies full Unicode case mapping, and can change a string's length, as `ß` becomes `SS`.
- The `has_when` flag is kept in the record, and its relation to the step stream is proved. It is not part of the row, because the source never writes it out.
