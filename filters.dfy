/** The sidebar filter chain: four selections, each either the sentinel "All"
    or a value the rows must equal, applied one after the other. */
module Filters {
  import opened Wrappers
  import opened Seqs
  import opened Donations

  /** The sentinel at the head of every option list. */
  const AllLabel: string := "All"

  /** The year selection: the sentinel, or one of the integer years. */
  datatype YearChoice = AllYears | OnlyYear(year: int)

  /** The four sidebar selections. A text selection equal to "All" constrains nothing. */
  datatype Selection = Selection(
    year: YearChoice,
    ccType: string,
    desinationName: string,
    donationType: string)

  /** `df["year"] == y`: a row whose date is NaT has no year and never matches. */
  function InYear(y: int): Donation -> bool
  {
    (r: Donation) => r.yearMonth.Some? && r.yearMonth.value.year == y
  }

  /** `df[column] == v`: a null cell never matches. */
  function HasLabel(c: Column, v: string): Donation -> bool
  {
    r => LabelOf(r, c) == Some(v)
  }

  function Everything(): Donation -> bool
  {
    r => true
  }

  /** The mask one selection stands for ("All" keeps every row). */
  function YearMask(choice: YearChoice): Donation -> bool
  {
    match choice
    case AllYears => Everything()
    case OnlyYear(y) => InYear(y)
  }

  function LabelMask(c: Column, choice: string): Donation -> bool
  {
    if choice == AllLabel then Everything() else HasLabel(c, choice)
  }

  /** The conjunction of the four masks, in the order the script applies them. */
  function Matches(sel: Selection): Donation -> bool
  {
    Both(Both(Both(YearMask(sel.year), LabelMask(CcTypeColumn, sel.ccType)),
              LabelMask(DesinationNameColumn, sel.desinationName)),
         LabelMask(DonationTypeColumn, sel.donationType))
  }

  /** The rows a selection keeps, in one pass. */
  function Kept(rows: seq<Donation>, sel: Selection): seq<Donation>
  {
    Filter(rows, Matches(sel))
  }

  /** The script's own procedure: start from a copy of the table and narrow it
      once for every selection that is not "All". */
  method ApplyFilters(rows: seq<Donation>, sel: Selection) returns (filtered: seq<Donation>)
    ensures filtered == Kept(rows, sel)
  {
    filtered := rows;
    if sel.year != AllYears {
      filtered := Filter(filtered, InYear(sel.year.year));
    } else {
      FilterAll(filtered, YearMask(sel.year));
    }
    assert filtered == Filter(rows, YearMask(sel.year));
    ghost var afterYear := filtered;
    if sel.ccType != AllLabel {
      filtered := Filter(filtered, HasLabel(CcTypeColumn, sel.ccType));
    } else {
      FilterAll(filtered, LabelMask(CcTypeColumn, sel.ccType));
    }
    assert filtered == Filter(afterYear, LabelMask(CcTypeColumn, sel.ccType));
    ghost var afterCc := filtered;
    if sel.desinationName != AllLabel {
      filtered := Filter(filtered, HasLabel(DesinationNameColumn, sel.desinationName));
    } else {
      FilterAll(filtered, LabelMask(DesinationNameColumn, sel.desinationName));
    }
    assert filtered == Filter(afterCc, LabelMask(DesinationNameColumn, sel.desinationName));
    ghost var afterFund := filtered;
    if sel.donationType != AllLabel {
      filtered := Filter(filtered, HasLabel(DonationTypeColumn, sel.donationType));
    } else {
      FilterAll(filtered, LabelMask(DonationTypeColumn, sel.donationType));
    }
    assert filtered == Filter(afterFund, LabelMask(DonationTypeColumn, sel.donationType));
    FilterFuse(rows, YearMask(sel.year), LabelMask(CcTypeColumn, sel.ccType));
    FilterFuse(rows, Both(YearMask(sel.year), LabelMask(CcTypeColumn, sel.ccType)),
               LabelMask(DesinationNameColumn, sel.desinationName));
    FilterFuse(rows, Both(Both(YearMask(sel.year), LabelMask(CcTypeColumn, sel.ccType)),
                          LabelMask(DesinationNameColumn, sel.desinationName)),
               LabelMask(DonationTypeColumn, sel.donationType));
  }

  /** A row survives exactly when it meets every selection that is not "All". */
  predicate MeetsSelection(sel: Selection, r: Donation)
  {
    && (sel.year != AllYears ==> r.yearMonth.Some? && r.yearMonth.value.year == sel.year.year)
    && (sel.ccType != AllLabel ==> r.ccType == Some(sel.ccType))
    && (sel.desinationName != AllLabel ==> r.desinationName == Some(sel.desinationName))
    && (sel.donationType != AllLabel ==> r.donationType == Some(sel.donationType))
  }

  lemma MatchesMeaning(sel: Selection, r: Donation)
    ensures Matches(sel)(r) == MeetsSelection(sel, r)
  {
  }

  /** The filtered table keeps exactly the rows meeting every active selection,
      each as many times as it occurs in the input, in the input's order. */
  lemma KeptRows(rows: seq<Donation>, sel: Selection)
    ensures forall r :: multiset(Kept(rows, sel))[r] == if MeetsSelection(sel, r) then multiset(rows)[r] else 0
    ensures forall r :: r in Kept(rows, sel) <==> r in rows && MeetsSelection(sel, r)
    ensures IsSubseq(Kept(rows, sel), rows)
  {
    forall r
      ensures multiset(Kept(rows, sel))[r] == if MeetsSelection(sel, r) then multiset(rows)[r] else 0
      ensures r in Kept(rows, sel) <==> r in rows && MeetsSelection(sel, r)
    {
      FilterCount(rows, Matches(sel), r);
      MatchesMeaning(sel, r);
      assert r in Kept(rows, sel) <==> r in multiset(Kept(rows, sel));
      assert r in rows <==> r in multiset(rows);
    }
    FilterIsSubseq(rows, Matches(sel));
  }

  /** With every selection at "All" the table is unchanged. */
  lemma AllSelectedKeepsEverything(rows: seq<Donation>)
    ensures Kept(rows, Selection(AllYears, AllLabel, AllLabel, AllLabel)) == rows
  {
    FilterAll(rows, Matches(Selection(AllYears, AllLabel, AllLabel, AllLabel)));
  }

  /** Filtering an already filtered table with the same selections changes nothing. */
  lemma KeptIdempotent(rows: seq<Donation>, sel: Selection)
    ensures Kept(Kept(rows, sel), sel) == Kept(rows, sel)
  {
    FilterIdempotent(rows, Matches(sel));
  }
}
