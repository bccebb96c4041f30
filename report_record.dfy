/** The report as the browser client holds it, the status vocabulary the client works with,
    and the per-status counts shown on the dashboards. */
module ReportRecord {
  import opened Maybe
  import opened PostSchema
  import Seqs

  /** A point picked on the map: latitude and longitude. */
  datatype Location = Location(lat: real, lng: real)

  /** A report in the client's list. `status` is whatever string the report carries; the client
      never checks it against a vocabulary. */
  datatype Report = Report(
    id: int,
    title: string,
    description: string,
    category: string,
    status: string,
    location: Option<Location>,
    action: string)

  /** The statuses the client offers and counts. */
  datatype DisplayStatus = DisplayPending | InProgress | DisplayResolved

  function DisplayName(d: DisplayStatus): string
  {
    match d
    case DisplayPending => "Pending"
    case InProgress => "In Progress"
    case DisplayResolved => "Resolved"
  }

  /** The display status a string denotes, if any. */
  function ParseDisplay(name: string): (r: Option<DisplayStatus>)
    ensures r.Some? ==> DisplayName(r.value) == name
    ensures r.None? <==> forall d :: DisplayName(d) != name
  {
    if name == "Pending" then Some(DisplayPending)
    else if name == "In Progress" then Some(InProgress)
    else if name == "Resolved" then Some(DisplayResolved)
    else None
  }

  /** The two vocabularies share no string: no stored status is a display status, and no
      display status would pass the storage validator. */
  lemma VocabulariesDisjoint()
    ensures forall s: StorageStatus, d: DisplayStatus :: StatusName(s) != DisplayName(d)
    ensures forall s: StorageStatus :: ParseDisplay(StatusName(s)).None?
    ensures forall d: DisplayStatus :: ParseStatus(DisplayName(d)).None?
  {
    forall s: StorageStatus, d: DisplayStatus ensures StatusName(s) != DisplayName(d) {
      assert StatusName(s)[0] != DisplayName(d)[0];
    }
  }

  /** The predicate `r => r.status === name`. */
  function HasStatus(name: string): Report -> bool
  {
    (r: Report) => r.status == name
  }

  /** `reports.filter(r => r.status === name).length`. */
  function CountWithStatus(rs: seq<Report>, name: string): (n: nat)
    ensures n <= |rs|
    ensures n == 0 <==> forall i :: 0 <= i < |rs| ==> rs[i].status != name
  {
    var kept := Seqs.Filter(HasStatus(name), rs);
    assert kept != [] ==> kept[0] in kept;
    assert forall i :: 0 <= i < |rs| ==> rs[i] in rs;
    |kept|
  }

  /** Counting peels off the first report. */
  lemma CountFirst(rs: seq<Report>, name: string)
    requires rs != []
    ensures CountWithStatus(rs, name) == (if rs[0].status == name then 1 else 0) + CountWithStatus(rs[1..], name)
  {
  }

  /** The three display counts side by side: Pending, In Progress, Resolved. */
  function DisplayCounts(rs: seq<Report>): (c: (nat, nat, nat))
    ensures c.0 <= |rs| && c.1 <= |rs| && c.2 <= |rs|
    ensures c.0 == 0 <==> forall i :: 0 <= i < |rs| ==> rs[i].status != "Pending"
  {
    (CountWithStatus(rs, "Pending"), CountWithStatus(rs, "In Progress"), CountWithStatus(rs, "Resolved"))
  }

  /** Each report is counted at most once, so the three counts together never exceed the total;
      they reach it exactly when every report carries one of the three display statuses. */
  lemma {:induction false} StatusCountsBounded(rs: seq<Report>)
    ensures var c := DisplayCounts(rs); c.0 + c.1 + c.2 <= |rs|
    ensures var c := DisplayCounts(rs);
            c.0 + c.1 + c.2 == |rs| <==> forall i :: 0 <= i < |rs| ==> ParseDisplay(rs[i].status).Some?
  {
    if rs != [] {
      var rest := rs[1..];
      StatusCountsBounded(rest);
      CountFirst(rs, "Pending");
      CountFirst(rs, "In Progress");
      CountFirst(rs, "Resolved");
      if forall i :: 0 <= i < |rest| ==> ParseDisplay(rest[i].status).Some? {
        if ParseDisplay(rs[0].status).Some? {
          forall i | 0 <= i < |rs| ensures ParseDisplay(rs[i].status).Some? {
            if i > 0 { assert rs[i] == rest[i - 1]; }
          }
        }
      } else {
        var k :| 0 <= k < |rest| && ParseDisplay(rest[k].status).None?;
        assert rs[k + 1] == rest[k];
      }
    }
  }

  /** A list whose statuses all come from the storage vocabulary scores zero on every
      display count. */
  lemma {:induction false} StorageStatusesCountNothing(rs: seq<Report>)
    requires forall i :: 0 <= i < |rs| ==> ParseStatus(rs[i].status).Some?
    ensures DisplayCounts(rs) == (0, 0, 0)
  {
    VocabulariesDisjoint();
    forall i | 0 <= i < |rs|
      ensures rs[i].status != "Pending" && rs[i].status != "In Progress" && rs[i].status != "Resolved"
    {
      var s := ParseStatus(rs[i].status).value;
      assert rs[i].status == StatusName(s);
      assert StatusName(s) != DisplayName(DisplayPending);
      assert StatusName(s) != DisplayName(InProgress);
      assert StatusName(s) != DisplayName(DisplayResolved);
    }
  }
}
