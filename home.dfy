/** The public home page: the reports sorted newest first, the statistics cards, and the feed
    of report cards with its fallbacks. Coordinates are printed by a parameter standing for
    the three-decimal number format. */
module Home {
  import opened Maybe
  import opened ReportRecord
  import Seqs
  import ReportIssue

  // ---------------------------------------------------------------- newest first

  /** Ordered by id, largest first. */
  predicate NewestFirst(s: seq<Report>)
  {
    forall i, j :: 0 <= i < j < |s| ==> s[i].id >= s[j].id
  }

  /** `r` placed in front of the first report whose id is not larger than its own. */
  function Insert(r: Report, sorted: seq<Report>): (s: seq<Report>)
    requires NewestFirst(sorted)
    ensures NewestFirst(s)
    ensures multiset(s) == multiset(sorted) + multiset{r}
  {
    if sorted == [] || sorted[0].id <= r.id then [r] + sorted
    else
      var rest := Insert(r, sorted[1..]);
      assert sorted == [sorted[0]] + sorted[1..];
      HeadBoundsRest(r, sorted, rest);
      [sorted[0]] + rest
  }

  /** The head of a newest-first list is at least as new as `r` and everything after it, so
      it is at least as new as every report of a reordering of those. */
  lemma HeadBoundsRest(r: Report, sorted: seq<Report>, rest: seq<Report>)
    requires NewestFirst(sorted) && sorted != [] && sorted[0].id > r.id
    requires multiset(rest) == multiset(sorted[1..]) + multiset{r}
    ensures forall k :: 0 <= k < |rest| ==> sorted[0].id >= rest[k].id
  {
    forall k | 0 <= k < |rest| ensures sorted[0].id >= rest[k].id {
      assert rest[k] in multiset(rest);
      if rest[k] != r {
        assert rest[k] in multiset(sorted[1..]);
        var m :| 0 <= m < |sorted[1..]| && sorted[1..][m] == rest[k];
        assert sorted[m + 1] == rest[k];
      }
    }
  }

  /** `[...reports].sort((a, b) => b.id - a.id)`: a reordering of the reports, newest first.
      The argument itself is a value and stays as it was. */
  function SortNewestFirst(rs: seq<Report>): (s: seq<Report>)
    ensures NewestFirst(s)
    ensures multiset(s) == multiset(rs)
  {
    if rs == [] then []
    else
      assert rs == [rs[0]] + rs[1..];
      Insert(rs[0], SortNewestFirst(rs[1..]))
  }

  /** Sorting keeps the number of reports and the set of reports. */
  lemma SortKeepsReports(rs: seq<Report>)
    ensures |SortNewestFirst(rs)| == |rs|
    ensures forall r :: r in SortNewestFirst(rs) <==> r in rs
  {
    var s := SortNewestFirst(rs);
    assert |multiset(s)| == |s| && |multiset(rs)| == |rs|;
    forall r ensures r in s <==> r in rs {
      assert r in s <==> r in multiset(s);
      assert r in rs <==> r in multiset(rs);
    }
  }

  /** Sorting does not change any status count. */
  lemma SortKeepsCounts(rs: seq<Report>, name: string)
    ensures CountWithStatus(SortNewestFirst(rs), name) == CountWithStatus(rs, name)
  {
    Seqs.FilterCountPermutation(HasStatus(name), SortNewestFirst(rs), rs);
  }

  // ---------------------------------------------------------------- statistics

  /** The three cards: the total, "In Progress" and "Resolved" (the latter shown as solved). */
  function HomeCounts(rs: seq<Report>): (c: (nat, nat, nat))
    ensures c.0 == |rs|
    ensures c.1 + c.2 <= c.0
  {
    StatusCountsBounded(rs);
    (|rs|, CountWithStatus(rs, "In Progress"), CountWithStatus(rs, "Resolved"))
  }

  // ---------------------------------------------------------------- the feed

  /** One report card: title, description, category, status, location line, and the admin
      notes line when there is an action. */
  datatype Card = Card(
    id: int,
    title: string,
    description: string,
    category: string,
    status: string,
    location: string,
    notes: Option<string>)

  /** The feed section: the empty-feed message, or the cards. */
  datatype FeedView = NoReportsYet | Cards(cards: seq<Card>)

  const NoReportsMessage: string := "No reports yet. Be the first to contribute!"

  /** The location line: both coordinates to three decimals, or "Not specified". */
  function LocationLabel(loc: Option<Location>, fixed3: real -> string): (line: string)
    ensures loc.None? ==> line == "Not specified"
    ensures loc.Some? ==> line == ReportIssue.SerializeLocation(loc.value, fixed3)
  {
    if loc.Some? then fixed3(loc.value.lat) + ", " + fixed3(loc.value.lng) else "Not specified"
  }

  function CardOf(r: Report, fixed3: real -> string): (c: Card)
    ensures c.id == r.id && c.title == r.title && c.status == r.status
    ensures r.location.None? ==> c.location == "Not specified"
    ensures c.notes.Some? <==> r.action != ""
  {
    Card(r.id, r.title, r.description, r.category, r.status, LocationLabel(r.location, fixed3),
         if r.action != "" then Some(r.action) else None)
  }

  function CardsOf(rs: seq<Report>, fixed3: real -> string): (cs: seq<Card>)
    ensures |cs| == |rs|
    ensures forall i :: 0 <= i < |rs| ==> cs[i] == CardOf(rs[i], fixed3)
  {
    if rs == [] then [] else [CardOf(rs[0], fixed3)] + CardsOf(rs[1..], fixed3)
  }

  /** The feed of the home page: the message when there is no report, otherwise one card per
      report, newest first. */
  function HomeFeed(reports: seq<Report>, fixed3: real -> string): (v: FeedView)
    ensures v.NoReportsYet? <==> reports == []
    ensures v.Cards? ==> |v.cards| == |reports|
    ensures v.Cards? ==> v.cards == CardsOf(SortNewestFirst(reports), fixed3)
    ensures v.Cards? ==> forall i, j :: 0 <= i < j < |v.cards| ==> v.cards[i].id >= v.cards[j].id
  {
    SortKeepsReports(reports);
    var sorted := SortNewestFirst(reports);
    if |sorted| == 0 then NoReportsYet else Cards(CardsOf(sorted, fixed3))
  }

  /** Every report without a location appears in the feed as a card reading "Not specified". */
  lemma UnlocatedReportsShowNotSpecified(reports: seq<Report>, fixed3: real -> string, r: Report)
    requires r in reports && r.location.None?
    ensures HomeFeed(reports, fixed3).Cards?
    ensures exists c :: c in HomeFeed(reports, fixed3).cards && c.id == r.id && c.location == "Not specified"
  {
    SortKeepsReports(reports);
    var sorted := SortNewestFirst(reports);
    var k :| 0 <= k < |sorted| && sorted[k] == r;
    var cards := HomeFeed(reports, fixed3).cards;
    assert cards == CardsOf(sorted, fixed3);
    assert cards[k] in cards;
  }
}
