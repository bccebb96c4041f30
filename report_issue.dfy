/** The report form: title, description, category and the point picked on the map; the guard
    that refuses an incomplete form; the location sent as text; and what the page does with the
    server's answer. The server is a parameter: a function from the request to its reply, or
    `None` when the request fails. */
module ReportIssue {
  import opened Maybe
  import opened Strings
  import opened ReportRecord
  import opened Feed

  /** The categories the form offers, in order; the first is preselected. */
  const Categories: seq<string> := ["Potholes", "Street Lights", "Garbage", "Sewage"]

  const DefaultCategory: string := "Potholes"

  /** `location.join(", ")`, each coordinate written by `show` (the number-to-text conversion). */
  function SerializeLocation(loc: Location, show: real -> string): (text: string)
    ensures text == show(loc.lat) + ", " + show(loc.lng)
  {
    var a, b := show(loc.lat), show(loc.lng);
    assert [a, b][1..] == [b];
    assert Join([b], ", ") == b;
    Join([a, b], ", ")
  }

  /** The text the form sends is read back by the feed's location parser as the same point,
      provided the printed coordinates hold no comma and the number conversion reads them back
      (with the leading space the separator leaves on the second). */
  lemma LocationRoundTrip(loc: Location, show: real -> string, toNumber: string -> Option<real>)
    requires ',' !in show(loc.lat) && ',' !in show(loc.lng)
    requires toNumber(show(loc.lat)) == Some(loc.lat)
    requires toNumber(" " + show(loc.lng)) == Some(loc.lng)
    ensures ParseLocation(Some(SerializeLocation(loc, show)), toNumber) == Some(loc)
  {
    var a, b := show(loc.lat), show(loc.lng);
    var text := SerializeLocation(loc, show);
    assert text == a + "," + (" " + b);
    SplitAround(a, ",", " " + b);
    assert ',' !in " " + b;
    SplitWithout(" " + b, ",");
    assert Split(text, ",") == [a, " " + b];
  }

  /** The body of the request the form sends. */
  datatype ReportRequest = ReportRequest(title: string, description: string, category: string, location: string)

  /** The server's reply: whether it succeeded, the stored post, and an optional error text. */
  datatype SubmitReply = SubmitReply(success: bool, post: Report, error: Option<string>)

  /** What one press of the submit button does: the alert shown, the request sent (if any), the
      post handed to the application (if any), and the page navigated to (if any). */
  datatype SubmitResult = SubmitResult(
    alert: string,
    request: Option<ReportRequest>,
    submitted: Option<Report>,
    navigateTo: Option<string>)

  const IncompleteMessage: string := "Please fill all fields and pick a location on the map"

  /** The report form's state. */
  class ReportForm {
    var title: string
    var description: string
    var category: string
    var location: Option<Location>

    /** The category is always one the drop-down offers. */
    predicate Valid()
      reads this
    {
      category in Categories
    }

    constructor()
      ensures title == "" && description == "" && category == DefaultCategory && location.None?
      ensures Valid()
    {
      title := "";
      description := "";
      category := DefaultCategory;
      location := None;
    }

    method SetTitle(text: string)
      requires Valid()
      modifies this
      ensures Valid()
      ensures title == text
      ensures description == old(description) && category == old(category) && location == old(location)
    {
      title := text;
    }

    method SetDescription(text: string)
      requires Valid()
      modifies this
      ensures Valid()
      ensures description == text
      ensures title == old(title) && category == old(category) && location == old(location)
    {
      description := text;
    }

    /** Choosing from the drop-down, which offers only the listed categories. */
    method SetCategory(choice: string)
      requires choice in Categories
      modifies this
      ensures category == choice && Valid()
      ensures title == old(title) && description == old(description) && location == old(location)
    {
      category := choice;
    }

    /** A click on the map: the clicked point replaces any earlier one. */
    method PickLocation(lat: real, lng: real)
      requires Valid()
      modifies this
      ensures Valid()
      ensures location == Some(Location(lat, lng))
      ensures title == old(title) && description == old(description) && category == old(category)
    {
      location := Some(Location(lat, lng));
    }

    /** `handleSubmit`. An incomplete form (empty title, empty description or no point) only
        raises the alert. Otherwise the request is sent; a successful reply is announced,
        handed to the application and followed by the move to the home page; a failed one is
        announced with its error; a failed request is announced as a connection error. */
    method Submit(show: real -> string, respond: ReportRequest -> Option<SubmitReply>) returns (result: SubmitResult)
      requires Valid()
      ensures result.request.Some? ==> result.request.value.category in Categories
      ensures result.request.None? <==> title == "" || description == "" || location.None?
      ensures result.request.None? ==>
                result.alert == IncompleteMessage && result.submitted.None? && result.navigateTo.None?
      ensures result.request.Some? ==>
                result.request.value == ReportRequest(title, description, category, SerializeLocation(location.value, show))
      ensures result.navigateTo.Some? <==>
                result.request.Some? && respond(result.request.value).Some? && respond(result.request.value).value.success
      ensures result.navigateTo.Some? ==>
                && result.navigateTo == Some("home")
                && result.alert == "Report submitted successfully!"
                && result.submitted == Some(respond(result.request.value).value.post)
      ensures result.navigateTo.None? ==> result.submitted.None?
      ensures result.request.Some? && respond(result.request.value).Some? && !respond(result.request.value).value.success ==>
                result.alert == "Failed to submit report: " + OrDefault(respond(result.request.value).value.error, "Unknown error")
      ensures result.request.Some? && respond(result.request.value).None? ==> result.alert == "Error connecting to server"
    {
      if title == "" || description == "" || location.None? {
        return SubmitResult(IncompleteMessage, None, None, None);
      }
      var request := ReportRequest(title, description, category, SerializeLocation(location.value, show));
      var reply := respond(request);
      if reply.None? {
        return SubmitResult("Error connecting to server", Some(request), None, None);
      }
      if reply.value.success {
        result := SubmitResult("Report submitted successfully!", Some(request), Some(reply.value.post), Some("home"));
      } else {
        result := SubmitResult("Failed to submit report: " + OrDefault(reply.value.error, "Unknown error"), Some(request), None, None);
      }
    }
  }
}
