/**
 * Letter bands. A teacher's threshold settings are stored as the dictionary
 * A, B, C, D, F in field order; `assign_grade` looks letters up in that
 * dictionary. For an ordered table the grade of a score is the letter of the
 * band that contains its percentage.
 */
module Bands {

  import opened Models
  import opened GradeScale
  import opened Wrappers

  /** The stored dictionary of a settings model, in field order. */
  function ToTable(t: Thresholds): (table: Table)
    ensures |table| == 5
  {
    [Entry("A", t.a), Entry("B", t.b), Entry("C", t.c), Entry("D", t.d), Entry("F", t.f)]
  }

  /** Ordered thresholds give a table already sorted by cutoff. */
  lemma OrderedTableIsSorted(t: Thresholds)
    requires StrictlyDescending(t)
    ensures SortDesc(ToTable(t)) == ToTable(t)
  {
    var table := ToTable(t);
    assert Descending(table);
    SortKeepsDescending(table);
  }

  /** The highest letter whose cutoff the score, as a percentage, reaches; F when it reaches none. */
  function Band(t: Thresholds, score: real): (l: Letter)
    ensures l != F ==> Cutoff(t, l) as real <= score * 100.0
    ensures StrictlyDescending(t) && l != A ==> score * 100.0 < Cutoff(t, Above(l).value) as real
  {
    var percent := score * 100.0;
    if percent >= t.a as real then A
    else if percent >= t.b as real then B
    else if percent >= t.c as real then C
    else if percent >= t.d as real then D
    else F
  }

  /** Sorting a table that is already in descending order leaves it as it is. */
  lemma {:induction false} SortKeepsDescending(l: Table)
    requires Descending(l)
    ensures SortDesc(l) == l
  {
    if l != [] {
      SortKeepsDescending(l[1..]);
      assert l == [l[0]] + l[1..];
    }
  }

  /** Scanning the stored table finds the first letter, in field order, whose cutoff the percentage reaches. */
  lemma {:induction false} FirstFitFindsBand(t: Thresholds, percent: real)
    ensures FirstFit(ToTable(t), percent) ==
      if percent >= t.a as real then Some(Entry("A", t.a))
      else if percent >= t.b as real then Some(Entry("B", t.b))
      else if percent >= t.c as real then Some(Entry("C", t.c))
      else if percent >= t.d as real then Some(Entry("D", t.d))
      else if percent >= t.f as real then Some(Entry("F", t.f))
      else None
  {
    var table := ToTable(t);
    var t1 := table[1..];
    var t2 := t1[1..];
    var t3 := t2[1..];
    var t4 := t3[1..];
    assert t4 == [Entry("F", t.f)];
    assert t4[1..] == [];
    assert FirstFit(t4, percent) == if percent >= t.f as real then Some(t4[0]) else None;
    assert FirstFit(t3, percent) == if percent >= t.d as real then Some(t3[0]) else FirstFit(t4, percent);
    assert FirstFit(t2, percent) == if percent >= t.c as real then Some(t2[0]) else FirstFit(t3, percent);
    assert FirstFit(t1, percent) == if percent >= t.b as real then Some(t1[0]) else FirstFit(t2, percent);
  }

  /**
   * For a strictly descending table the grade of a score is the letter of
   * the band its percentage falls in, the sort changing nothing.
   */
  lemma OrderedTableGradesByBand(t: Thresholds, score: real)
    requires StrictlyDescending(t)
    ensures AssignGrade(score, ToTable(t)) == LetterName(Band(t, score))
  {
    OrderedTableIsSorted(t);
    SortedGrade(score, ToTable(t));
    FitIsBand(t, score);
  }

  /** Reading the stored table as it stands gives the letter of the score's band. */
  lemma FitIsBand(t: Thresholds, score: real)
    ensures ScanGrade(ToTable(t), score * 100.0) == LetterName(Band(t, score))
  {
    ScanFindsBand(t, score * 100.0);
  }

  lemma ScanFindsBand(t: Thresholds, percent: real)
    ensures ScanGrade(ToTable(t), percent) == LetterName(
      if percent >= t.a as real then A
      else if percent >= t.b as real then B
      else if percent >= t.c as real then C
      else if percent >= t.d as real then D
      else F)
  {
    FirstFitFindsBand(t, percent);
  }

  /** Every table the validating settings model accepts grades by band. */
  lemma ValidatedTableGradesByBand(input: map<Letter, int>, score: real)
    requires BuildThresholdsValidated(input).Ok?
    ensures AssignGrade(score, ToTable(BuildThresholdsValidated(input).value))
            == LetterName(Band(BuildThresholdsValidated(input).value, score))
  {
    ValidatedTablesAreOrdered(input);
    OrderedTableGradesByBand(BuildThresholdsValidated(input).value, score);
  }

  /**
   * The table the framework accepts for "A = 50" alone grades a score of
   * 0.75 as "B", although 75% is above the cutoff given for A.
   */
  lemma MisorderedTableMisgrades()
    ensures BuildThresholds(map[A := 50]).Ok?
    ensures AssignGrade(0.75, ToTable(BuildThresholds(map[A := 50]).value)) == "B"
    ensures Band(BuildThresholds(map[A := 50]).value, 0.75) == A
  {
    DefaultsEscapeOrdering();
    var table := ToTable(Thresholds(50, 70, 55, 40, 0));
    assert SortDesc(table) == [table[1], table[2], table[0], table[3], table[4]];
  }
}
