/**
 * Letter grades from a score. A threshold table is a dictionary from grade
 * name to cutoff percentage, kept here in its insertion order. `assign_grade`
 * sorts it by cutoff, highest first, with a stable sort (entries with equal
 * cutoffs keep their insertion order), and returns the first grade whose
 * cutoff the percentage reaches; failing that, the last grade of the sorted
 * table; failing that (an empty table), "F".
 */
module GradeScale {

  import opened Wrappers

  datatype Entry = Entry(grade: string, cutoff: int)

  type Table = seq<Entry>

  predicate Descending(l: Table) {
    forall i, j :: 0 <= i < j < |l| ==> l[i].cutoff >= l[j].cutoff
  }

  /** Stable insertion: `e` goes in front of the first entry whose cutoff is not above its own. */
  function Insert(e: Entry, l: Table): (r: Table)
    ensures |r| == |l| + 1
  {
    if l == [] || e.cutoff >= l[0].cutoff then [e] + l
    else [l[0]] + Insert(e, l[1..])
  }

  /** The table sorted by cutoff, highest first, stably. */
  function SortDesc(t: Table): (r: Table)
    ensures |r| == |t|
  {
    if t == [] then [] else Insert(t[0], SortDesc(t[1..]))
  }

  lemma {:induction false} InsertPermutes(e: Entry, l: Table)
    ensures multiset(Insert(e, l)) == multiset(l) + multiset{e}
  {
    if l != [] && e.cutoff < l[0].cutoff {
      InsertPermutes(e, l[1..]);
      assert l == [l[0]] + l[1..];
    }
  }

  /** Inserting an entry no higher than a bound into a table no higher than it keeps the bound. */
  lemma {:induction false} InsertBounded(e: Entry, l: Table, bound: int)
    requires e.cutoff <= bound
    requires forall i :: 0 <= i < |l| ==> l[i].cutoff <= bound
    ensures forall i :: 0 <= i < |Insert(e, l)| ==> Insert(e, l)[i].cutoff <= bound
  {
    if l != [] && e.cutoff < l[0].cutoff {
      InsertBounded(e, l[1..], bound);
      assert Insert(e, l) == [l[0]] + Insert(e, l[1..]);
    }
  }

  lemma {:induction false} InsertDescending(e: Entry, l: Table)
    requires Descending(l)
    ensures Descending(Insert(e, l))
  {
    if l != [] && e.cutoff < l[0].cutoff {
      var rest := Insert(e, l[1..]);
      InsertDescending(e, l[1..]);
      InsertBounded(e, l[1..], l[0].cutoff);
      var r := [l[0]] + rest;
      assert Insert(e, l) == r;
      forall i, j | 0 <= i < j < |r| ensures r[i].cutoff >= r[j].cutoff {
        assert r[j] == rest[j - 1];
        if i > 0 {
          assert r[i] == rest[i - 1];
        }
      }
    }
  }

  /** Sorting keeps every entry, as often as it occurs. */
  lemma {:induction false} SortDescPermutes(t: Table)
    ensures multiset(SortDesc(t)) == multiset(t)
  {
    if t != [] {
      SortDescPermutes(t[1..]);
      InsertPermutes(t[0], SortDesc(t[1..]));
      assert t == [t[0]] + t[1..];
    }
  }

  /** Sorting orders the cutoffs from highest to lowest. */
  lemma {:induction false} SortDescOrders(t: Table)
    ensures Descending(SortDesc(t))
  {
    if t != [] {
      SortDescOrders(t[1..]);
      InsertDescending(t[0], SortDesc(t[1..]));
    }
  }

  /** The first entry, scanning `l` in order, whose cutoff `percent` reaches. */
  function FirstFit(l: Table, percent: real): (r: Option<Entry>)
    ensures r.Some? ==> r.value in l && r.value.cutoff as real <= percent
    ensures r.None? ==> forall x :: x in l ==> x.cutoff as real > percent
  {
    if l == [] then None
    else if percent >= l[0].cutoff as real then Some(l[0])
    else FirstFit(l[1..], percent)
  }

  /** The entry `assign_grade` picks for `score`, `None` only for an empty table. */
  function AssignEntry(score: real, t: Table): Option<Entry> {
    var sorted := SortDesc(t);
    var fit := FirstFit(sorted, score * 100.0);
    if fit.Some? then fit
    else if sorted == [] then None
    else Some(sorted[|sorted| - 1])
  }

  /** `assign_grade`: the grade name of the chosen entry, "F" for an empty table. */
  function AssignGrade(score: real, t: Table): (g: string)
    ensures t == [] ==> g == "F"
  {
    match AssignEntry(score, t)
    case Some(e) => e.grade
    case None => "F"
  }

  /** A non-empty table's grade is always one of its own grade names. */
  lemma AssignGradeFromTable(score: real, t: Table)
    requires t != []
    ensures exists e :: e in t && e.grade == AssignGrade(score, t)
  {
    SortDescPermutes(t);
    var sorted := SortDesc(t);
    var e := AssignEntry(score, t).value;
    assert e in multiset(sorted);
  }

  /** The grade read off a table as it stands: the first that fits, else the last. */
  function ScanGrade(t: Table, percent: real): string
    requires t != []
  {
    var fit := FirstFit(t, percent);
    if fit.Some? then fit.value.grade else t[|t| - 1].grade
  }

  /** On a table already in descending order the grade is read off the table as it stands. */
  lemma SortedGrade(score: real, t: Table)
    requires SortDesc(t) == t && t != []
    ensures AssignGrade(score, t) == ScanGrade(t, score * 100.0)
  {
  }

  // ------------------------------------------------ reference definition

  /**
   * The earliest entry, in insertion order, among those with the highest
   * cutoff that `percent` reaches.
   */
  function BestFit(t: Table, percent: real): (r: Option<Entry>)
    ensures r.Some? ==> r.value in t && r.value.cutoff as real <= percent
    ensures r.Some? ==> forall x :: x in t && x.cutoff as real <= percent ==> x.cutoff <= r.value.cutoff
    ensures r.None? <==> forall x :: x in t ==> x.cutoff as real > percent
  {
    if t == [] then None
    else
      var rest := BestFit(t[1..], percent);
      assert forall x :: x in t ==> x == t[0] || x in t[1..];
      if t[0].cutoff as real <= percent && (rest.None? || t[0].cutoff >= rest.value.cutoff) then Some(t[0])
      else rest
  }

  /** The latest entry, in insertion order, among those with the lowest cutoff. */
  function Lowest(t: Table): (r: Entry)
    requires t != []
    ensures r in t && forall x :: x in t ==> r.cutoff <= x.cutoff
  {
    if |t| == 1 then t[0]
    else
      var rest := Lowest(t[1..]);
      assert forall x :: x in t ==> x == t[0] || x in t[1..];
      if t[0].cutoff < rest.cutoff then t[0] else rest
  }

  lemma {:induction false} FirstFitInsert(e: Entry, l: Table, percent: real)
    requires Descending(l)
    ensures FirstFit(Insert(e, l), percent) ==
      var f := FirstFit(l, percent);
      if e.cutoff as real <= percent && (f.None? || e.cutoff >= f.value.cutoff) then Some(e) else f
  {
    if l == [] || e.cutoff >= l[0].cutoff {
      assert Insert(e, l) == [e] + l;
      assert ([e] + l)[1..] == l;
    } else {
      var rest := Insert(e, l[1..]);
      assert Insert(e, l) == [l[0]] + rest;
      assert ([l[0]] + rest)[1..] == rest;
      if percent < l[0].cutoff as real {
        FirstFitInsert(e, l[1..], percent);
      }
    }
  }

  lemma {:induction false} LastInsert(e: Entry, l: Table)
    requires Descending(l)
    ensures var r := Insert(e, l);
      r[|r| - 1] == if l == [] || e.cutoff < l[|l| - 1].cutoff then e else l[|l| - 1]
  {
    if l == [] || e.cutoff >= l[0].cutoff {
    } else {
      LastInsert(e, l[1..]);
    }
  }

  lemma {:induction false} SortMatchesBestFit(t: Table, percent: real)
    ensures FirstFit(SortDesc(t), percent) == BestFit(t, percent)
  {
    if t != [] {
      SortMatchesBestFit(t[1..], percent);
      SortDescOrders(t[1..]);
      FirstFitInsert(t[0], SortDesc(t[1..]), percent);
    }
  }

  lemma {:induction false} SortLastIsLowest(t: Table)
    requires t != []
    ensures var s := SortDesc(t); s[|s| - 1] == Lowest(t)
  {
    var rest := SortDesc(t[1..]);
    assert SortDesc(t) == Insert(t[0], rest);
    SortDescOrders(t[1..]);
    LastInsert(t[0], rest);
    if |t| > 1 {
      SortLastIsLowest(t[1..]);
      assert rest[|rest| - 1] == Lowest(t[1..]);
      assert Lowest(t) == if t[0].cutoff < Lowest(t[1..]).cutoff then t[0] else Lowest(t[1..]);
    }
  }

  /**
   * The grade chosen through the sort is the one described without it: the
   * earliest entry with the highest cutoff the percentage reaches, else the
   * latest entry with the lowest cutoff, else nothing for an empty table.
   */
  lemma AssignEntryIsBestFit(score: real, t: Table)
    ensures AssignEntry(score, t) ==
      if BestFit(t, score * 100.0).Some? then BestFit(t, score * 100.0)
      else if t == [] then None
      else Some(Lowest(t))
  {
    var p := score * 100.0;
    var sorted := SortDesc(t);
    SortMatchesBestFit(t, p);
    if t == [] {
      assert sorted == [];
    } else if FirstFit(sorted, p).None? {
      SortLastIsLowest(t);
      assert AssignEntry(score, t) == Some(sorted[|sorted| - 1]);
    }
  }

  /** A higher score never earns an entry with a lower cutoff. */
  lemma AssignEntryMonotone(s1: real, s2: real, t: Table)
    requires s1 <= s2 && t != []
    ensures AssignEntry(s1, t).Some? && AssignEntry(s2, t).Some?
    ensures AssignEntry(s1, t).value.cutoff <= AssignEntry(s2, t).value.cutoff
  {
    AssignEntryIsBestFit(s1, t);
    AssignEntryIsBestFit(s2, t);
    var b1, b2 := BestFit(t, s1 * 100.0), BestFit(t, s2 * 100.0);
    if b2.None? {
      assert b1.None? by {
        forall x | x in t ensures x.cutoff as real > s1 * 100.0 { }
      }
    }
  }
}
