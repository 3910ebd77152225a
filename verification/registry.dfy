/**
 The in-memory intern registry: an insertion-ordered list of records that
 registration appends to, the dashboard counts and the onboarding page lists.
 */
module Registry {
  import opened AsciiText

  /** One entry of the `interns` list. The email is not kept here. */
  datatype Record = Record(name: string, dept: string, status: string)

  /** The status every newly registered intern starts with. */
  const InProgress: string := "In Progress"

  /** What a status must lower to for the intern to count as completed. */
  const CompletedWord: string := "completed"

  /** The three example records the process starts with. */
  const Seed: seq<Record> := [
    Record("June", "Python", "Completed"),
    Record("Vismay", "A360", "In Progress"),
    Record("Saahithi", "Python", "Completed")
  ]

  /**
   The dashboard's test: the status lowers to "completed", which holds exactly
   when it spells "completed" in any mix of cases ("COMPLETED" included).
   */
  predicate IsCompleted(r: Record)
    ensures IsCompleted(r) <==> SpellsIgnoringCase(r.status, CompletedWord)
  {
    LowerEqualsWord(r.status, CompletedWord);
    Lower(r.status) == CompletedWord
  }

  /** The number of records whose status lowers to "completed". */
  function CountCompleted(rs: seq<Record>): (n: nat)
    ensures n <= |rs|
  {
    if rs == [] then 0
    else (if IsCompleted(rs[0]) then 1 else 0) + CountCompleted(rs[1..])
  }

  /** The number of records whose status does not lower to "completed". */
  function CountOthers(rs: seq<Record>): (n: nat)
    ensures n <= |rs|
  {
    if rs == [] then 0
    else (if IsCompleted(rs[0]) then 0 else 1) + CountOthers(rs[1..])
  }

  /** The three figures the dashboard shows. */
  datatype Summary = Summary(total: int, completed: int, inProgress: int)

  /** The dashboard figures of a registry holding `rs`. */
  function Summarize(rs: seq<Record>): (s: Summary)
    ensures s.total == |rs|
    ensures 0 <= s.completed <= s.total
    ensures 0 <= s.inProgress <= s.total
    ensures s.completed + s.inProgress == s.total
  {
    var total := |rs|;
    var completed := CountCompleted(rs);
    Summary(total, completed, total - completed)
  }

  /** Every record is counted exactly once, either as completed or as in progress. */
  lemma {:induction false} CountsPartition(rs: seq<Record>)
    ensures CountCompleted(rs) + CountOthers(rs) == |rs|
  {
    if rs != [] {
      CountsPartition(rs[1..]);
    }
  }

  /** The in-progress figure counts exactly the records that are not completed. */
  lemma {:induction false} InProgressCountsTheRest(rs: seq<Record>)
    ensures Summarize(rs).inProgress == CountOthers(rs)
    ensures Summarize(rs).completed == CountCompleted(rs)
  {
    CountsPartition(rs);
  }

  /** Counting over a list with one record added at the end. */
  lemma {:induction false} CountCompletedSnoc(rs: seq<Record>, r: Record)
    ensures CountCompleted(rs + [r]) == CountCompleted(rs) + (if IsCompleted(r) then 1 else 0)
  {
    if rs != [] {
      assert (rs + [r])[1..] == rs[1..] + [r];
      CountCompletedSnoc(rs[1..], r);
    }
  }

  /**
   Appending one record raises the total by one and raises exactly one of
   the two other figures by one, according to its status.
   */
  lemma SummarizeSnoc(rs: seq<Record>, r: Record)
    ensures var before, after := Summarize(rs), Summarize(rs + [r]);
      after.total == before.total + 1 &&
      (IsCompleted(r) ==> after.completed == before.completed + 1 && after.inProgress == before.inProgress) &&
      (!IsCompleted(r) ==> after.completed == before.completed && after.inProgress == before.inProgress + 1)
  {
    CountCompletedSnoc(rs, r);
  }

  /** "In Progress" never counts as completed. */
  lemma InProgressIsNotCompleted(name: string, dept: string)
    ensures !IsCompleted(Record(name, dept, InProgress))
  {
    assert |Lower(InProgress)| == 11;
  }

  /** The record a registration adds. */
  function Registered(name: string, dept: string): (r: Record)
    ensures r.name == name && r.dept == dept && r.status == InProgress
    ensures !IsCompleted(r)
  {
    InProgressIsNotCompleted(name, dept);
    Record(name, dept, InProgress)
  }

  /**
   Appending records none of which is completed (as every registration's is)
   leaves the completed figure alone and adds one per record to the total
   and to the in-progress figure.
   */
  lemma {:induction false} AppendingInProgress(rs: seq<Record>, more: seq<Record>)
    requires forall i :: 0 <= i < |more| ==> !IsCompleted(more[i])
    ensures var before, after := Summarize(rs), Summarize(rs + more);
      after == Summary(before.total + |more|, before.completed, before.inProgress + |more|)
    decreases |more|
  {
    if more == [] {
      assert rs + more == rs;
    } else {
      var init, last := more[..|more| - 1], more[|more| - 1];
      assert rs + more == (rs + init) + [last];
      AppendingInProgress(rs, init);
      SummarizeSnoc(rs + init, last);
    }
  }

  /** "Completed", as the seed records spell it, counts as completed. */
  lemma CapitalisedCompletedCounts(name: string, dept: string)
    ensures IsCompleted(Record(name, dept, "Completed"))
  {
    assert SpellsIgnoringCase("Completed", CompletedWord);
  }

  /** The seed list shows three interns, two of them completed. */
  lemma SeedSummary()
    ensures Summarize(Seed) == Summary(3, 2, 1)
  {
    CapitalisedCompletedCounts("June", "Python");
    CapitalisedCompletedCounts("Saahithi", "Python");
    InProgressIsNotCompleted("Vismay", "A360");
    assert CountCompleted(Seed[2..]) == 1 by {
      assert Seed[2..][1..] == [];
    }
    assert CountCompleted(Seed[1..]) == 1 by {
      assert Seed[1..][1..] == Seed[2..];
    }
  }

  /**
   Every status in the list is one of the two spellings the application ever
   stores: "Completed" (the seed) or "In Progress" (the seed and every registration).
   */
  predicate TwoSpellings(rs: seq<Record>) {
    forall i :: 0 <= i < |rs| ==> rs[i].status == "Completed" || rs[i].status == InProgress
  }

  /** A registration's record keeps the list to the two stored spellings. */
  lemma TwoSpellingsSnoc(rs: seq<Record>, name: string, dept: string)
    requires TwoSpellings(rs)
    ensures TwoSpellings(rs + [Record(name, dept, InProgress)])
  {
  }

  /** The number of records whose status is exactly "In Progress". */
  function CountInProgress(rs: seq<Record>): (n: nat)
    ensures n <= |rs|
  {
    if rs == [] then 0
    else (if rs[0].status == InProgress then 1 else 0) + CountInProgress(rs[1..])
  }

  /** When only the two stored spellings occur, "not completed" means "In Progress". */
  lemma {:induction false} OthersAreInProgress(rs: seq<Record>)
    requires TwoSpellings(rs)
    ensures CountOthers(rs) == CountInProgress(rs)
  {
    if rs != [] {
      var r := rs[0];
      if r.status == InProgress {
        InProgressIsNotCompleted(r.name, r.dept);
        assert r == Record(r.name, r.dept, InProgress);
      } else {
        CapitalisedCompletedCounts(r.name, r.dept);
        assert r == Record(r.name, r.dept, "Completed");
      }
      OthersAreInProgress(rs[1..]);
    }
  }

  /**
   On a list with only the two stored spellings, the figure the dashboard labels
   "In Progress" is the number of records whose status is "In Progress".
   */
  lemma InProgressFigureCountsInProgress(rs: seq<Record>)
    requires TwoSpellings(rs)
    ensures Summarize(rs).inProgress == CountInProgress(rs)
  {
    InProgressCountsTheRest(rs);
    OthersAreInProgress(rs);
  }

  /** One registration after the seed list: four interns, two completed, two in progress. */
  lemma SeedThenRegister(name: string, dept: string)
    ensures Summarize(Seed + [Record(name, dept, InProgress)]) == Summary(4, 2, 2)
  {
    SeedSummary();
    InProgressIsNotCompleted(name, dept);
    SummarizeSnoc(Seed, Record(name, dept, InProgress));
  }

  /** One table row of the onboarding page: name, department, status. */
  type StatusRow = (string, string, string)

  /** The onboarding rows, one per record, in insertion order. */
  function Listing(rs: seq<Record>): (rows: seq<StatusRow>)
    ensures |rows| == |rs|
    ensures forall i :: 0 <= i < |rs| ==> rows[i] == (rs[i].name, rs[i].dept, rs[i].status)
  {
    if rs == [] then [] else [(rs[0].name, rs[0].dept, rs[0].status)] + Listing(rs[1..])
  }

  /**
   The markup of one row of the onboarding table: the three cells in order,
   unescaped, between 36 characters of fixed tags.
   */
  function RowMarkup(row: StatusRow): (s: string)
    ensures |s| == 36 + |row.0| + |row.1| + |row.2|
    ensures s[..8] == "<tr><td>" && s[|s| - 10..] == "</td></tr>"
    ensures s[8..8 + |row.0|] == row.0
    ensures s[17 + |row.0|..17 + |row.0| + |row.1|] == row.1
    ensures s[26 + |row.0| + |row.1|..|s| - 10] == row.2
  {
    "<tr><td>" + row.0 + "</td><td>" + row.1 + "</td><td>" + row.2 + "</td></tr>"
  }

  /** The rows of the onboarding table joined with no separator. */
  function TableRows(rows: seq<StatusRow>): (s: string)
    ensures |s| >= 36 * |rows|
    ensures s == "" <==> rows == []
  {
    if rows == [] then "" else RowMarkup(rows[0]) + TableRows(rows[1..])
  }

  /** The joined markup of a longer listing extends that of the shorter one by the new row. */
  lemma {:induction false} TableRowsSnoc(rows: seq<StatusRow>, row: StatusRow)
    ensures TableRows(rows + [row]) == TableRows(rows) + RowMarkup(row)
  {
    if rows != [] {
      assert (rows + [row])[1..] == rows[1..] + [row];
      TableRowsSnoc(rows[1..], row);
    }
  }

  /**
   After one record is appended, the onboarding listing is the old listing
   followed by that record's row, and so is the table markup.
   */
  lemma OnboardingAfterAppend(rs: seq<Record>, r: Record)
    ensures Listing(rs + [r]) == Listing(rs) + [(r.name, r.dept, r.status)]
    ensures TableRows(Listing(rs + [r])) == TableRows(Listing(rs)) + RowMarkup((r.name, r.dept, r.status))
  {
    TableRowsSnoc(Listing(rs), (r.name, r.dept, r.status));
  }

  /** The process-wide `interns` list, which registrations append to in place. */
  class InternList {
    var interns: seq<Record>

    /** Every stored status is "Completed" or "In Progress". */
    ghost predicate Valid()
      reads this
    {
      TwoSpellings(interns)
    }

    /** The list as the process starts with it. */
    constructor ()
      ensures Valid() && interns == Seed
    {
      interns := Seed;
    }

    /** Appends the record of a new registration; the email is not part of it. */
    method Register(name: string, dept: string)
      requires Valid()
      modifies this
      ensures Valid()
      ensures interns == old(interns) + [Record(name, dept, InProgress)]
      ensures Summarize(interns) == Summary(
        old(Summarize(interns)).total + 1,
        old(Summarize(interns)).completed,
        old(Summarize(interns)).inProgress + 1)
      ensures Listing(interns) == old(Listing(interns)) + [(name, dept, InProgress)]
    {
      var r := Registered(name, dept);
      TwoSpellingsSnoc(interns, name, dept);
      SummarizeSnoc(interns, r);
      OnboardingAfterAppend(interns, r);
      interns := interns + [r];
    }
  }
}
