/**
 The name of the workbook written for a feature document: the Feature title
 with its spaces turned into underscores, followed by a fixed suffix; a
 document without a Feature title gets the bare default name.
 */
module OutputName {

  const DefaultFileName: string := "Casos_de_Teste_v2.xlsx"

  /** `s.replace(' ', '_')`: only the ASCII space is replaced. */
  function ReplaceSpaces(s: string): (r: string)
    ensures |r| == |s|
  {
    if |s| == 0 then [] else ReplaceSpaces(s[..|s| - 1]) + [if s[|s| - 1] == ' ' then '_' else s[|s| - 1]]
  }

  lemma {:induction false} ReplaceSpacesSpec(s: string)
    ensures forall i :: 0 <= i < |s| ==> ReplaceSpaces(s)[i] == if s[i] == ' ' then '_' else s[i]
  {
    if |s| > 0 {
      ReplaceSpacesSpec(s[..|s| - 1]);
    }
  }

  function OutputFileName(featureName: string): string
  {
    if featureName == "" then DefaultFileName else ReplaceSpaces(featureName) + "_" + DefaultFileName
  }

  /**
   The name never holds a space and always ends in the default name; a
   titled document's name starts with the title, spaces turned into
   underscores and every other character kept, then one underscore.
   */
  lemma OutputFileNameShape(featureName: string)
    ensures var r := OutputFileName(featureName);
            && ' ' !in r
            && |r| == (if featureName == "" then 0 else |featureName| + 1) + |DefaultFileName|
            && r[|r| - |DefaultFileName|..] == DefaultFileName
            && (featureName != "" ==>
                  r[|featureName|] == '_'
                  && forall i :: 0 <= i < |featureName| ==>
                       r[i] == if featureName[i] == ' ' then '_' else featureName[i])
  {
    var r := OutputFileName(featureName);
    if featureName != "" {
      ReplaceSpacesSpec(featureName);
      var t := ReplaceSpaces(featureName);
      assert r == t + ("_" + DefaultFileName);
      assert forall i :: 0 <= i < |t| ==> r[i] == t[i];
      assert forall i :: 0 <= i < |DefaultFileName| ==> r[|t| + 1 + i] == DefaultFileName[i];
    }
  }

  /** Titles without underscores get different file names. */
  lemma OutputFileNameInjective(a: string, b: string)
    requires '_' !in a && '_' !in b
    requires OutputFileName(a) == OutputFileName(b)
    ensures a == b
  {
    OutputFileNameShape(a);
    OutputFileNameShape(b);
    if a != "" && b != "" {
      forall i | 0 <= i < |a|
        ensures a[i] == b[i]
      {
        assert a[i] != '_' && b[i] != '_';
      }
    }
  }

  /** A title's spaces and underscores are not told apart, so the restriction above is needed. */
  lemma SpaceAndUnderscoreCollide()
    ensures "A B" != "A_B" && OutputFileName("A B") == OutputFileName("A_B")
  {
    var a, b := "A B", "A_B";
    assert a[1] != b[1];
    ReplaceSpacesSpec(a);
    ReplaceSpacesSpec(b);
    assert forall i :: 0 <= i < 3 ==> ReplaceSpaces(a)[i] == ReplaceSpaces(b)[i];
  }
}
