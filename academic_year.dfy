/**
 * The academic year label of app/lib/google.ts: the school year starts in
 * August (month index 7, counting January as 0), and a date is labelled
 * "Y/Y+1" by the calendar year Y in which its school year started.
 */
module SchoolYear {
  import opened Text

  /** `getAcademicYear(date)` for a date in calendar year `fullYear` and 0-based `month`. */
  function AcademicYear(fullYear: int, month: int): (range: string)
    ensures '/' in range
  {
    if month >= 7 then IntToString(fullYear) + "/" + IntToString(fullYear + 1)
    else IntToString(fullYear - 1) + "/" + IntToString(fullYear)
  }

  /** The calendar year in which the school year containing the date began. */
  function StartYear(fullYear: int, month: int): (start: int)
    ensures fullYear - 1 <= start <= fullYear
    ensures start == fullYear <==> month >= 7
  {
    if month >= 7 then fullYear else fullYear - 1
  }

  /** "S/S+1": the label of the school year that starts in calendar year S. */
  function YearRange(start: int): string {
    IntToString(start) + "/" + IntToString(start + 1)
  }

  /** Every label is the range of the school year the date falls in. */
  lemma AcademicYearIsRange(fullYear: int, month: int)
    ensures AcademicYear(fullYear, month) == YearRange(StartYear(fullYear, month))
  {
  }

  /** Distinct school years have distinct labels. */
  lemma YearRangeInjective(s: int, t: int)
    requires YearRange(s) == YearRange(t)
    ensures s == t
  {
    assert YearRange(s) == IntToString(s) + ['/'] + IntToString(s + 1);
    assert YearRange(t) == IntToString(t) + ['/'] + IntToString(t + 1);
    SplitAtSeparator('/', IntToString(s), IntToString(s + 1), IntToString(t), IntToString(t + 1));
    IntToStringInjective(s, t);
  }

  /** Two dates carry the same label exactly when they fall in the same school year. */
  lemma SameLabelIffSameSchoolYear(y1: int, m1: int, y2: int, m2: int)
    ensures AcademicYear(y1, m1) == AcademicYear(y2, m2)
        <==> StartYear(y1, m1) == StartYear(y2, m2)
  {
    AcademicYearIsRange(y1, m1);
    AcademicYearIsRange(y2, m2);
    if AcademicYear(y1, m1) == AcademicYear(y2, m2) {
      YearRangeInjective(StartYear(y1, m1), StartYear(y2, m2));
    }
  }

  /** July and August of the same calendar year are in different school years. */
  lemma JulyToAugustChangesLabel(fullYear: int)
    ensures AcademicYear(fullYear, 6) != AcademicYear(fullYear, 7)
  {
    SameLabelIffSameSchoolYear(fullYear, 6, fullYear, 7);
  }

  /** August to December of Y and January to July of Y+1 share one label. */
  lemma SchoolYearSpansNewYear(fullYear: int, autumn: int, spring: int)
    requires 7 <= autumn < 12 && 0 <= spring < 7
    ensures AcademicYear(fullYear, autumn) == AcademicYear(fullYear + 1, spring)
  {
  }
}
