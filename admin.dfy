/** The administrator's dashboard: its own copy of the reports, updated one report at a time;
    the search, category and status filters; the per-status counts; and the map markers. */
module Admin {
  import opened Maybe
  import opened Strings
  import opened ReportRecord
  import Seqs

  // ---------------------------------------------------------------- update by id

  /** `reports.map(r => r.id === id ? { ...r, status, action } : r)`. */
  function UpdatedReports(rs: seq<Report>, id: int, status: string, action: string): (r: seq<Report>)
    ensures |r| == |rs|
    ensures forall i :: 0 <= i < |rs| && rs[i].id == id ==> r[i] == rs[i].(status := status, action := action)
    ensures forall i :: 0 <= i < |rs| && rs[i].id != id ==> r[i] == rs[i]
  {
    seq(|rs|, i requires 0 <= i < |rs| => if rs[i].id == id then rs[i].(status := status, action := action) else rs[i])
  }

  /** An update keeps the list's length and order and touches only the status and action: every
      report keeps its id, title, description, category and location. */
  lemma UpdateKeepsIdentity(rs: seq<Report>, id: int, status: string, action: string)
    ensures var r := UpdatedReports(rs, id, status, action);
            forall i :: 0 <= i < |rs| ==>
              && r[i].id == rs[i].id && r[i].title == rs[i].title && r[i].description == rs[i].description
              && r[i].category == rs[i].category && r[i].location == rs[i].location
  {
  }

  /** Updating the same report twice leaves only the second update. */
  lemma UpdateLastWins(rs: seq<Report>, id: int, s1: string, a1: string, s2: string, a2: string)
    ensures UpdatedReports(UpdatedReports(rs, id, s1, a1), id, s2, a2) == UpdatedReports(rs, id, s2, a2)
  {
    var once := UpdatedReports(rs, id, s1, a1);
    var twice := UpdatedReports(once, id, s2, a2);
    var direct := UpdatedReports(rs, id, s2, a2);
    forall i | 0 <= i < |rs| ensures twice[i] == direct[i] {
      if rs[i].id == id {
        assert once[i].id == id;
      }
    }
  }

  /** Updates of two different reports do not interfere: either order gives the same list. */
  lemma UpdatesCommute(rs: seq<Report>, id1: int, s1: string, a1: string, id2: int, s2: string, a2: string)
    requires id1 != id2
    ensures UpdatedReports(UpdatedReports(rs, id1, s1, a1), id2, s2, a2)
         == UpdatedReports(UpdatedReports(rs, id2, s2, a2), id1, s1, a1)
  {
    var x := UpdatedReports(UpdatedReports(rs, id1, s1, a1), id2, s2, a2);
    var y := UpdatedReports(UpdatedReports(rs, id2, s2, a2), id1, s1, a1);
    forall i | 0 <= i < |rs| ensures x[i] == y[i] {
      assert UpdatedReports(rs, id1, s1, a1)[i].id == rs[i].id;
      assert UpdatedReports(rs, id2, s2, a2)[i].id == rs[i].id;
    }
  }

  /** An id that no report carries changes nothing. */
  lemma UpdateAbsentId(rs: seq<Report>, id: int, status: string, action: string)
    requires forall i :: 0 <= i < |rs| ==> rs[i].id != id
    ensures UpdatedReports(rs, id, status, action) == rs
  {
  }

  /** Choosing a status from the report's drop-down keeps every status a display status, so the
      three counts keep adding up to the total. */
  lemma {:induction false} UpdateKeepsDisplayStatuses(rs: seq<Report>, id: int, d: DisplayStatus, action: string)
    requires forall i :: 0 <= i < |rs| ==> ParseDisplay(rs[i].status).Some?
    ensures var r := UpdatedReports(rs, id, DisplayName(d), action);
            var c := DisplayCounts(r);
            c.0 + c.1 + c.2 == |r|
  {
    var r := UpdatedReports(rs, id, DisplayName(d), action);
    forall i | 0 <= i < |r| ensures ParseDisplay(r[i].status).Some? {
      if rs[i].id == id {
        assert r[i].status == DisplayName(d);
      }
    }
    StatusCountsBounded(r);
  }

  // ---------------------------------------------------------------- filter

  /** The dashboard's filter on one report: the lower-cased search text occurs in the
      lower-cased title or description, and the category and status filters are "All" or equal
      to the report's. */
  predicate Matches(r: Report, search: string, category: string, status: string): (b: bool)
    ensures search == "" && category == "All" && status == "All" ==> b
  {
    IncludesEmpty(ToLower(r.title));
    assert ToLower("") == "";
    && (Includes(ToLower(r.title), ToLower(search)) || Includes(ToLower(r.description), ToLower(search)))
    && (category == "All" || r.category == category)
    && (status == "All" || r.status == status)
  }

  function MatchesFilter(search: string, category: string, status: string): Report -> bool
  {
    (r: Report) => Matches(r, search, category, status)
  }

  /** `localReports.filter(...)` with the current search text and filters. */
  function FilteredReports(rs: seq<Report>, search: string, category: string, status: string): (f: seq<Report>)
    ensures |f| <= |rs|
    ensures forall r :: r in f <==> r in rs && Matches(r, search, category, status)
  {
    Seqs.Filter(MatchesFilter(search, category, status), rs)
  }

  /** The filtered list keeps exactly the matching reports, in their original order. */
  lemma FilteredIsOrderedSelection(rs: seq<Report>, search: string, category: string, status: string)
    ensures Seqs.IsSubsequence(FilteredReports(rs, search, category, status), rs)
    ensures forall r :: multiset(FilteredReports(rs, search, category, status))[r] ==
                          if Matches(r, search, category, status) then multiset(rs)[r] else 0
  {
    Seqs.FilterIsSubsequence(MatchesFilter(search, category, status), rs);
    Seqs.FilterMultiset(MatchesFilter(search, category, status), rs);
  }

  /** With the search cleared and both filters on "All", every report is shown. */
  lemma ResetShowsAll(rs: seq<Report>)
    ensures FilteredReports(rs, "", "All", "All") == rs
  {
    forall i | 0 <= i < |rs| ensures Matches(rs[i], "", "All", "All") {
      IncludesEmpty(ToLower(rs[i].title));
      assert ToLower("") == "";
    }
    Seqs.FilterAll(MatchesFilter("", "All", "All"), rs);
  }

  /** Filtering the filtered list again with the same settings changes nothing. */
  lemma FilterIdempotent(rs: seq<Report>, search: string, category: string, status: string)
    ensures var f := FilteredReports(rs, search, category, status);
            FilteredReports(f, search, category, status) == f
  {
    Seqs.FilterIdempotent(MatchesFilter(search, category, status), rs);
  }

  /** The search ignores letter case: a search text and its lower-cased form select the same
      reports. */
  lemma SearchIgnoresCase(rs: seq<Report>, search: string, category: string, status: string)
    ensures FilteredReports(rs, ToLower(search), category, status) == FilteredReports(rs, search, category, status)
  {
    assert ToLower(ToLower(search)) == ToLower(search);
    Seqs.FilterCongruent(MatchesFilter(ToLower(search), category, status), MatchesFilter(search, category, status), rs);
  }

  // ---------------------------------------------------------------- map markers

  function HasLocation(r: Report): bool
  {
    r.location.Some?
  }

  /** The map view: a marker for each filtered report that has a location, in list order. */
  function MapMarkers(filtered: seq<Report>): (m: seq<Report>)
    ensures forall r :: r in m <==> r in filtered && r.location.Some?
    ensures forall r :: multiset(m)[r] == if r.location.Some? then multiset(filtered)[r] else 0
    ensures Seqs.IsSubsequence(m, filtered)
  {
    Seqs.FilterIsSubsequence(HasLocation, filtered);
    Seqs.FilterMultiset(HasLocation, filtered);
    Seqs.Filter(HasLocation, filtered)
  }

  /** The markers are exactly the located reports that pass the filter. */
  lemma MarkersOfFiltered(rs: seq<Report>, search: string, category: string, status: string)
    ensures forall r :: r in MapMarkers(FilteredReports(rs, search, category, status)) <==>
                          r in rs && Matches(r, search, category, status) && r.location.Some?
    ensures forall r :: multiset(MapMarkers(FilteredReports(rs, search, category, status)))[r] ==
                          if Matches(r, search, category, status) && r.location.Some? then multiset(rs)[r] else 0
    ensures Seqs.IsSubsequence(MapMarkers(FilteredReports(rs, search, category, status)),
                               FilteredReports(rs, search, category, status))
  {
    FilteredIsOrderedSelection(rs, search, category, status);
  }

  // ---------------------------------------------------------------- the dashboard's state

  /** The dashboard's state. It starts from the reports it is given, an empty search, both
      filters on "All", and the list view. */
  class Dashboard {
    var localReports: seq<Report>
    var search: string
    var filterCategory: string
    var filterStatus: string
    var mapView: bool

    constructor(reports: seq<Report>)
      ensures localReports == reports && search == "" && filterCategory == "All" && filterStatus == "All"
      ensures !mapView
      ensures Filtered() == reports
    {
      localReports := reports;
      search := "";
      filterCategory := "All";
      filterStatus := "All";
      mapView := false;
      ResetShowsAll(reports);
    }

    /** The reports the list shows. */
    function Filtered(): (f: seq<Report>)
      reads this
      ensures |f| <= |localReports|
      ensures forall r :: r in f <==> r in localReports && Matches(r, search, filterCategory, filterStatus)
    {
      FilteredReports(localReports, search, filterCategory, filterStatus)
    }

    /** The stat cards: Pending, In Progress and Resolved, counted over the whole local list
        (not the filtered one). Together they never exceed the total. */
    function Counts(): (c: (nat, nat, nat))
      reads this
      ensures c.0 + c.1 + c.2 <= |localReports|
      ensures c.0 + c.1 + c.2 == |localReports| <==>
                forall i :: 0 <= i < |localReports| ==> ParseDisplay(localReports[i].status).Some?
    {
      StatusCountsBounded(localReports);
      DisplayCounts(localReports)
    }

    /** The markers the map shows. */
    function Markers(): (m: seq<Report>)
      reads this
      ensures forall r :: r in m <==> r in localReports && Matches(r, search, filterCategory, filterStatus) && r.location.Some?
      ensures forall r :: multiset(m)[r] ==
                if Matches(r, search, filterCategory, filterStatus) && r.location.Some? then multiset(localReports)[r] else 0
      ensures Seqs.IsSubsequence(m, Filtered())
    {
      MarkersOfFiltered(localReports, search, filterCategory, filterStatus);
      MapMarkers(Filtered())
    }

    /** `updateReport(id, status, action)`: the report with that id takes the new status and
        action; nothing else changes. */
    method UpdateReport(id: int, status: string, action: string)
      modifies this
      ensures localReports == UpdatedReports(old(localReports), id, status, action)
      ensures search == old(search) && filterCategory == old(filterCategory) && filterStatus == old(filterStatus)
      ensures mapView == old(mapView)
    {
      localReports := UpdatedReports(localReports, id, status, action);
    }

    /** The parent's reports replace the local copy, discarding local updates. */
    method SyncReports(reports: seq<Report>)
      modifies this
      ensures localReports == reports
      ensures search == old(search) && filterCategory == old(filterCategory) && filterStatus == old(filterStatus)
      ensures mapView == old(mapView)
    {
      localReports := reports;
    }

    method SetSearch(text: string)
      modifies this
      ensures search == text
      ensures localReports == old(localReports) && filterCategory == old(filterCategory)
      ensures filterStatus == old(filterStatus) && mapView == old(mapView)
    {
      search := text;
    }

    method SetFilterCategory(category: string)
      modifies this
      ensures filterCategory == category
      ensures localReports == old(localReports) && search == old(search)
      ensures filterStatus == old(filterStatus) && mapView == old(mapView)
    {
      filterCategory := category;
    }

    method SetFilterStatus(status: string)
      modifies this
      ensures filterStatus == status
      ensures localReports == old(localReports) && search == old(search)
      ensures filterCategory == old(filterCategory) && mapView == old(mapView)
    {
      filterStatus := status;
    }

    method SetMapView(on: bool)
      modifies this
      ensures mapView == on
      ensures localReports == old(localReports) && search == old(search)
      ensures filterCategory == old(filterCategory) && filterStatus == old(filterStatus)
    {
      mapView := on;
    }

    /** The Reset button: search cleared, both filters back to "All", so every report shows. */
    method Reset()
      modifies this
      ensures search == "" && filterCategory == "All" && filterStatus == "All"
      ensures localReports == old(localReports) && mapView == old(mapView)
      ensures Filtered() == localReports
    {
      search := "";
      filterCategory := "All";
      filterStatus := "All";
      ResetShowsAll(localReports);
    }
  }
}
