/** `BoulderingScraper._normalize_grade` of `bouldering_agent.py`: Font grades to the V-scale. */
module FontGrades {
  import opened Text

  /** The `grade_map` table. */
  const FontToV: map<string, string> := map[
    "4" := "V0", "4+" := "V0+", "5" := "V1", "5+" := "V1",
    "6A" := "V3", "6A+" := "V3", "6B" := "V4", "6B+" := "V4",
    "6C" := "V5", "6C+" := "V5", "7A" := "V6", "7A+" := "V7",
    "7B" := "V8", "7B+" := "V9", "7C" := "V10", "7C+" := "V11"]

  /** `grade_map.get(grade.upper(), grade)`: an unmapped grade comes back unchanged, not upper-cased. */
  function NormalizeFontGrade(grade: string): (r: string)
    ensures r == grade || r in FontToV.Values
  {
    var key := Upper(grade);
    if key in FontToV then FontToV[key] else grade
  }

  /** Every key of the table starts with a digit. */
  lemma KeysStartWithDigit()
    ensures forall k :: k in FontToV ==> |k| > 0 && IsDigit(k[0])
  {
  }

  /** Every value of the table starts with 'V'. */
  lemma ValuesStartWithV()
    ensures forall k :: k in FontToV ==> |FontToV[k]| > 0 && FontToV[k][0] == 'V'
  {
  }

  /** No value of the table has a lower-case letter. */
  lemma ValuesHaveNoLowerCase()
    ensures forall k :: k in FontToV ==> forall i :: 0 <= i < |FontToV[k]| ==> !IsLower(FontToV[k][i])
  {
  }

  /**
   * The lookup is case-insensitive on its key and a mapped grade becomes a V-scale label
   * of the table; any other grade is returned exactly as given.
   */
  lemma NormalizeFontGradeResult(grade: string)
    ensures Upper(grade) in FontToV ==> NormalizeFontGrade(grade) in FontToV.Values
                                        && NormalizeFontGrade(grade)[0] == 'V'
    ensures Upper(grade) !in FontToV ==> NormalizeFontGrade(grade) == grade
  {
    ValuesStartWithV();
  }

  /** Normalising twice is normalising once: no value of the table is (the upper case of) a key. */
  lemma NormalizeFontGradeIdempotent(grade: string)
    ensures NormalizeFontGrade(NormalizeFontGrade(grade)) == NormalizeFontGrade(grade)
  {
    var key := Upper(grade);
    if key in FontToV {
      var v := FontToV[key];
      KeysStartWithDigit();
      ValuesStartWithV();
      ValuesHaveNoLowerCase();
      UpperFixesNonLower(v);
      assert Upper(v) !in FontToV;
    }
  }

  /** Examples: lower-case Font grades are mapped; a V-grade or an unknown label is kept. */
  lemma NormalizeFontGradeExamples()
    ensures NormalizeFontGrade("6b+") == "V4"
    ensures NormalizeFontGrade("7c+") == "V11"
    ensures NormalizeFontGrade("V5") == "V5"
    ensures NormalizeFontGrade("f6a") == "f6a"
  {
    assert Upper("6b+") == "6B+";
    assert Upper("7c+") == "7C+";
    assert Upper("V5") == "V5";
    assert Upper("f6a") == "F6A";
  }
}
