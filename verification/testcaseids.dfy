/**
 The test-case identifier of a Scenario line: `re.search(r"(\d+)\)", title)`
 padded with `zfill(2)`, or else the scenario's 1-based position formatted
 with `:02d`, both behind the prefix `TC_`.
 */
module TestCaseIds {
  import opened Wrappers
  import opened Text

  const IdPrefix: string := "TC_"

  /**
   The search pattern `(\d+)\)` matches at start `i`: the greedy digit run
   from `i` is non-empty and a `)` follows it (backing off to a shorter run
   cannot help, as a digit would then follow).
   */
  predicate IdMatchAt(s: string, i: nat)
  {
    i < |s| && var e := DigitRunEnd(s, i); e > i && e < |s| && s[e] == ')'
  }

  /** The leftmost start at or after `from` where the pattern matches, as `re.search` scans. */
  function FirstIdMatch(s: string, from: nat): (r: Option<nat>)
    requires from <= |s|
    ensures r.Some? ==> from <= r.value < |s| && IdMatchAt(s, r.value)
    ensures r.Some? ==> forall j :: from <= j < r.value ==> !IdMatchAt(s, j)
    ensures r.None? ==> forall j :: from <= j < |s| ==> !IdMatchAt(s, j)
    decreases |s| - from
  {
    if from == |s| then None
    else if IdMatchAt(s, from) then Some(from)
    else FirstIdMatch(s, from + 1)
  }

  /** The captured group: the digits of the first match, if any. */
  function IdDigits(title: string): (r: Option<string>)
    ensures r.Some? ==> |r.value| > 0 && AllDigits(r.value)
  {
    match FirstIdMatch(title, 0)
    case Some(i) => Some(title[i..DigitRunEnd(title, i)])
    case None => None
  }

  /**
   The identifier of a scenario titled `title` that is the `position`-th
   scenario of the document (1-based). Explicit numbers are not checked for
   clashes with positional ones.
   */
  function TestCaseId(title: string, position: nat): (r: string)
    ensures |r| >= |IdPrefix| + 2
  {
    IdPrefix + ZFill(IdNumber(title, position), 2)
  }

  /** The number the identifier carries: the title's digits, else the position. */
  function IdNumber(title: string, position: nat): (d: string)
    ensures |d| > 0 && AllDigits(d)
  {
    match IdDigits(title) case Some(d) => d case None => NatToString(position)
  }

  /**
   The identifier is `TC_` followed by digits only: the number, left-padded
   with zeros to two digits and never cut.
   */
  lemma TestCaseIdShape(title: string, position: nat)
    ensures var r := TestCaseId(title, position);
            var d := IdNumber(title, position);
            && IdPrefix <= r
            && |r| == |IdPrefix| + (if |d| >= 2 then |d| else 2)
            && r[|r| - |d|..] == d
            && AllDigits(r[|IdPrefix|..])
            && forall i :: |IdPrefix| <= i < |r| - |d| ==> r[i] == '0'
  {
    var r := TestCaseId(title, position);
    var d := IdNumber(title, position);
    var padded := ZFill(d, 2);
    ZFillShape(d, 2);
    assert r[|IdPrefix|..] == padded;
    assert r[|r| - |d|..] == padded[|padded| - |d|..];
    forall i | 0 <= i < |padded| ensures IsDigit(padded[i]) {
      if i >= |padded| - |d| {
        assert padded[i] == d[i - (|padded| - |d|)];
      }
    }
  }

  /**
   Reading the identifier's digits back as a number gives the number
   written in the title, or the scenario's position: padding never changes
   the value and never truncates.
   */
  lemma TestCaseIdValue(title: string, position: nat)
    ensures var r := TestCaseId(title, position);
            && AllDigits(r[|IdPrefix|..])
            && DigitsValue(r[|IdPrefix|..]) ==
                 match IdDigits(title) case Some(d) => DigitsValue(d) case None => position
  {
    TestCaseIdShape(title, position);
    var r := TestCaseId(title, position);
    var digits := IdNumber(title, position);
    var padded := ZFill(digits, 2);
    assert r[|IdPrefix|..] == padded;
    if |digits| < 2 {
      LeadingZerosValue(2 - |digits|, digits);
    }
    if IdDigits(title).None? {
      NatToStringValue(position);
    }
  }

  /** A match can only start where a digit run starts. */
  lemma MatchStartsRun(s: string, i: nat)
    requires 0 < i <= |s|
    ensures IsDigit(s[i - 1]) ==> DigitRunEnd(s, i - 1) == DigitRunEnd(s, i)
  {
  }

  /**
   The captured digits are a whole digit run of the title: the first run of
   digits that is immediately followed by `)`.
   */
  lemma IdDigitsAreFirstClosedRun(title: string)
    requires IdDigits(title).Some?
    ensures var i := FirstIdMatch(title, 0).value;
            (i == 0 || !IsDigit(title[i - 1])) && title[DigitRunEnd(title, i)] == ')'
  {
    var i := FirstIdMatch(title, 0).value;
    if i > 0 {
      MatchStartsRun(title, i);
      assert IsDigit(title[i - 1]) ==> IdMatchAt(title, i - 1);
    }
  }

  /** The title's number wins over the position: `03) Do X` is `TC_03` wherever it stands. */
  lemma ExplicitNumberExample()
    ensures TestCaseId("03) Do X", 5) == "TC_03"
  {
    var t := "03) Do X";
    assert DigitRunEnd(t, 2) == 2;
    assert DigitRunEnd(t, 1) == 2;
    assert DigitRunEnd(t, 0) == 2;
    assert IdMatchAt(t, 0);
    assert FirstIdMatch(t, 0) == Some(0);
    assert t[0..2] == "03";
    assert IdDigits(t) == Some("03");
  }

  /** Without a number the position is used: the second scenario `Do Y` is `TC_02`. */
  lemma PositionExample()
    ensures TestCaseId("Do Y", 2) == "TC_02"
  {
    var t := "Do Y";
    assert !IdMatchAt(t, 0) && !IdMatchAt(t, 1) && !IdMatchAt(t, 2) && !IdMatchAt(t, 3);
    assert IdDigits(t) == None;
    assert NatToString(2) == "2";
  }

  /** Identifiers are not made unique: a numbered title can repeat a positional identifier. */
  lemma IdsCanClash()
    ensures TestCaseId("03) Do X", 1) == TestCaseId("Do Y", 3) == "TC_03"
  {
    ExplicitNumberExample();
    var t := "Do Y";
    assert !IdMatchAt(t, 0) && !IdMatchAt(t, 1) && !IdMatchAt(t, 2) && !IdMatchAt(t, 3);
    assert IdDigits(t) == None;
    assert NatToString(3) == "3";
  }
}
