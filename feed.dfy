/** The application shell: turning the posts of the feed into the client's reports (keep the
    report posts, fill in defaults, pull the description out of the content, parse the
    location), the `reports` list it keeps, and the choice of the page to show. */
module Feed {
  import opened Maybe
  import opened Strings
  import opened PostSchema
  import opened ReportRecord
  import Seqs

  // ---------------------------------------------------------------- the feed's post shape

  /** A post as it arrives in the feed's JSON: the fields the formatter reads. A field the
      document does not hold is `None`. */
  datatype FeedPost = FeedPost(
    id: int,
    isReport: bool,
    content: string,
    reportTitle: Option<string>,
    reportCategory: Option<string>,
    reportStatus: Option<string>,
    reportLocation: Option<string>)

  /** The JSON form of a stored post: the status is always present, under its storage name. */
  function FeedPostOf(p: Post): (f: FeedPost)
    ensures f.reportStatus == Some(StatusName(p.reportStatus))
    ensures f.id == p.id && f.isReport == p.isReport && f.content == p.content
  {
    FeedPost(p.id, p.isReport, p.content, p.reportTitle, p.reportCategory, Some(StatusName(p.reportStatus)),
             p.reportLocation)
  }

  // ---------------------------------------------------------------- one post

  /** `value || fallback` on an optional string: a missing or empty value is replaced. */
  function OrDefault(value: Option<string>, fallback: string): string
  {
    if value.Some? && value.value != "" then value.value else fallback
  }

  /** `content.split("\n\n")[1] || content`: the second paragraph when there is a non-empty
      one, else the whole content. */
  function Description(content: string): (d: string)
    ensures d == content || (d != "" && Includes(content, "\n\n" + d) && !Includes(d, "\n\n"))
  {
    var parts := Split(content, "\n\n");
    if |parts| >= 2 && parts[1] != "" then
      SecondPartFollowsBlankLine(content);
      parts[1]
    else content
  }

  /** The second piece of a split on blank lines follows a blank line in the content. */
  lemma SecondPartFollowsBlankLine(content: string)
    requires |Split(content, "\n\n")| >= 2
    ensures Includes(content, "\n\n" + Split(content, "\n\n")[1])
  {
    var i := IndexOf(content, "\n\n");
    var rest := content[i + 2..];
    var second := Split(rest, "\n\n")[0];
    assert Split(content, "\n\n")[1] == second;
    assert i >= 0 && content[i..i + 2] == "\n\n";
    assert content[i + 2..i + 2 + |second|] == rest[..|second|] == second;
    assert content[i..i + 2 + |second|] == content[i..i + 2] + content[i + 2..i + 2 + |second|];
    IncludesAt(content, "\n\n" + second, i);
  }

  /** The description is the text between the FIRST blank line and the next one (or the end).
      When there is no blank line, or that text is empty, it is the whole content. */
  lemma DescriptionIsFirstSegment(content: string)
    ensures IndexOf(content, "\n\n") < 0 ==> Description(content) == content
    ensures IndexOf(content, "\n\n") >= 0 ==>
              var rest := content[IndexOf(content, "\n\n") + 2..];
              var d := Description(content);
              && (rest == "" || OccursAt(rest, "\n\n", 0) ==> d == content)
              && (rest != "" && !OccursAt(rest, "\n\n", 0) ==>
                    && d != "" && |d| <= |rest| && d == rest[..|d|]
                    && (forall j :: 0 <= j < |d| ==> !OccursAt(rest, "\n\n", j))
                    && (|d| == |rest| || OccursAt(rest, "\n\n", |d|)))
  {
    var i := IndexOf(content, "\n\n");
    if i >= 0 {
      var rest := content[i + 2..];
      assert Split(content, "\n\n") == [content[..i]] + Split(rest, "\n\n");
      var j := IndexOf(rest, "\n\n");
      assert Split(rest, "\n\n")[0] == if j < 0 then rest else rest[..j];
    }
  }

  /** Content of the form title, blank line, description gives back the description, when
      neither part holds a blank line and the title does not end in a line break; both may hold
      single line breaks. */
  lemma DescriptionOfTwoParagraphs(head: string, body: string)
    requires !Includes(head, "\n\n") && (head == [] || head[|head| - 1] != '\n')
    requires !Includes(body, "\n\n") && body != ""
    ensures Description(head + "\n\n" + body) == body
  {
    var content := head + "\n\n" + body;
    assert OccursAt(content, "\n\n", |head|);
    forall j | 0 <= j < |head| ensures !OccursAt(content, "\n\n", j) {
      if j + 2 <= |head| {
        assert !OccursAt(head, "\n\n", j);
        assert content[j..j + 2] == head[j..j + 2];
      } else if j + 2 <= |content| {
        assert content[j..j + 2][0] == head[|head| - 1];
      }
    }
    var i := IndexOf(content, "\n\n");
    assert i == |head|;
    assert content[i + 2..] == body;
    assert !OccursAt(body, "\n\n", IndexOf(body, "\n\n"));
    assert Split(body, "\n\n") == [body];
    assert Split(content, "\n\n") == [content[..i]] + Split(body, "\n\n");
  }

  /** Content without a line break is its own description. */
  lemma DescriptionOfOneParagraph(content: string)
    requires '\n' !in content
    ensures Description(content) == content
  {
    SplitWithout(content, "\n\n");
  }

  /** The location string parsed back into a point: it must be present and non-empty, split on
      `,` into exactly two parts, and both parts must be numbers. `toNumber` is the number
      conversion (`None` for a value that is not a number). */
  function ParseLocation(raw: Option<string>, toNumber: string -> Option<real>): (loc: Option<Location>)
    ensures loc.Some? ==> raw.Some? && raw.value != "" && |Split(raw.value, ",")| == 2
    ensures loc.Some? ==> var parts := Split(raw.value, ",");
                          toNumber(parts[0]) == Some(loc.value.lat) && toNumber(parts[1]) == Some(loc.value.lng)
  {
    if raw.None? || raw.value == "" then None
    else
      var parts := Split(raw.value, ",");
      if |parts| == 2 && toNumber(parts[0]).Some? && toNumber(parts[1]).Some? then
        Some(Location(toNumber(parts[0]).value, toNumber(parts[1]).value))
      else None
  }

  /** A location string is parsed exactly when it has two numeric parts; one with no comma
      never is. */
  lemma ParseLocationDecision(raw: string, toNumber: string -> Option<real>)
    ensures ParseLocation(Some(raw), toNumber).Some? <==>
              raw != "" && |Split(raw, ",")| == 2 &&
              toNumber(Split(raw, ",")[0]).Some? && toNumber(Split(raw, ",")[1]).Some?
    ensures ',' !in raw ==> ParseLocation(Some(raw), toNumber).None?
  {
    if ',' !in raw {
      SplitWithout(raw, ",");
    }
  }

  /** One report post in the client's shape. Title, category and status fall back to
      "Untitled", "General" and "Pending" when missing or empty; a status that is present is
      copied as it is; the admin action starts empty. */
  function FormatPost(p: FeedPost, toNumber: string -> Option<real>): (r: Report)
    ensures r.id == p.id && r.action == ""
    ensures r.title != "" && r.category != "" && r.status != ""
    ensures p.reportTitle.Some? && p.reportTitle.value != "" ==> r.title == p.reportTitle.value
    ensures p.reportTitle.None? || p.reportTitle.value == "" ==> r.title == "Untitled"
    ensures p.reportCategory.Some? && p.reportCategory.value != "" ==> r.category == p.reportCategory.value
    ensures p.reportCategory.None? || p.reportCategory.value == "" ==> r.category == "General"
    ensures p.reportStatus.Some? && p.reportStatus.value != "" ==> r.status == p.reportStatus.value
    ensures p.reportStatus.None? || p.reportStatus.value == "" ==> r.status == "Pending"
    ensures r.description == Description(p.content)
    ensures r.location == ParseLocation(p.reportLocation, toNumber)
  {
    Report(p.id, OrDefault(p.reportTitle, "Untitled"), Description(p.content), OrDefault(p.reportCategory, "General"),
           OrDefault(p.reportStatus, "Pending"), ParseLocation(p.reportLocation, toNumber), "")
  }

  /** A stored post reaches the client under its storage status name, untranslated, so it is
      never shown with one of the client's own statuses. */
  lemma StoredStatusPassesThrough(p: Post, toNumber: string -> Option<real>)
    ensures FormatPost(FeedPostOf(p), toNumber).status == StatusName(p.reportStatus)
    ensures ParseDisplay(FormatPost(FeedPostOf(p), toNumber).status).None?
  {
    VocabulariesDisjoint();
  }

  /** A post created without a status reaches the client as "problemIssued", not as the
      client's "Pending". */
  lemma DefaultStatusShownAsStorageName(id: ObjectId, f: PostFields, now: int, toNumber: string -> Option<real>)
    requires f.reportStatus.None?
    ensures CreatePost(id, f, now).Ok?
    ensures FormatPost(FeedPostOf(CreatePost(id, f, now).value), toNumber).status == "problemIssued"
  {
    StoredStatusPassesThrough(CreatePost(id, f, now).value, toNumber);
  }

  // ---------------------------------------------------------------- the whole feed

  function IsReportPost(p: FeedPost): bool
  {
    p.isReport
  }

  /** `posts.map(format)`, one report per post, in order. */
  function FormatAll(ps: seq<FeedPost>, toNumber: string -> Option<real>): (rs: seq<Report>)
    ensures |rs| == |ps|
    ensures forall i :: 0 <= i < |ps| ==> rs[i] == FormatPost(ps[i], toNumber)
  {
    if ps == [] then [] else [FormatPost(ps[0], toNumber)] + FormatAll(ps[1..], toNumber)
  }

  /** `posts.filter(p => p.isReport).map(format)`. */
  function FormatReports(posts: seq<FeedPost>, toNumber: string -> Option<real>): (rs: seq<Report>)
    ensures |rs| <= |posts|
    ensures (forall i :: 0 <= i < |posts| ==> posts[i].isReport) ==> rs == FormatAll(posts, toNumber)
  {
    OnlyReportPostsKept(posts);
    FormatAll(Seqs.Filter(IsReportPost, posts), toNumber)
  }

  /** A feed made only of report posts passes the report filter whole. */
  lemma OnlyReportPostsKept(posts: seq<FeedPost>)
    ensures (forall i :: 0 <= i < |posts| ==> posts[i].isReport) ==> Seqs.Filter(IsReportPost, posts) == posts
  {
    if forall i :: 0 <= i < |posts| ==> posts[i].isReport {
      Seqs.FilterAll(IsReportPost, posts);
    }
  }

  /** The reports are the formatted report posts, in the order the feed lists them, and no
      plain post yields a report. */
  lemma FormatReportsSelectsReportPosts(posts: seq<FeedPost>, toNumber: string -> Option<real>)
    ensures var kept := Seqs.Filter(IsReportPost, posts);
            && Seqs.IsSubsequence(kept, posts)
            && (forall p :: p in kept <==> p in posts && p.isReport)
            && (forall p :: multiset(kept)[p] == if p.isReport then multiset(posts)[p] else 0)
            && |FormatReports(posts, toNumber)| == |kept|
            && forall i :: 0 <= i < |kept| ==> FormatReports(posts, toNumber)[i] == FormatPost(kept[i], toNumber)
  {
    Seqs.FilterIsSubsequence(IsReportPost, posts);
    Seqs.FilterMultiset(IsReportPost, posts);
  }

  /** Formatting a feed made of two parts formats each part on its own. */
  lemma {:induction false} FormatReportsAppend(a: seq<FeedPost>, b: seq<FeedPost>, toNumber: string -> Option<real>)
    ensures FormatReports(a + b, toNumber) == FormatReports(a, toNumber) + FormatReports(b, toNumber)
  {
    Seqs.FilterAppend(IsReportPost, a, b);
    FormatAllAppend(Seqs.Filter(IsReportPost, a), Seqs.Filter(IsReportPost, b), toNumber);
  }

  lemma FormatAllAppend(a: seq<FeedPost>, b: seq<FeedPost>, toNumber: string -> Option<real>)
    ensures FormatAll(a + b, toNumber) == FormatAll(a, toNumber) + FormatAll(b, toNumber)
  {
  }

  /** A feed without report posts gives no reports. */
  lemma NoReportPostsNoReports(posts: seq<FeedPost>, toNumber: string -> Option<real>)
    requires forall i :: 0 <= i < |posts| ==> !posts[i].isReport
    ensures FormatReports(posts, toNumber) == []
  {
    Seqs.FilterNone(IsReportPost, posts);
  }

  // ---------------------------------------------------------------- pages

  datatype Page = HomePage | LoginPage | RegisterPage | FaqsPage | AboutPage | AdminPage | ReportPage

  /** The value of `currentPage` under which each page is shown. */
  function PageName(p: Page): string
  {
    match p
    case HomePage => "home"
    case LoginPage => "login"
    case RegisterPage => "register"
    case FaqsPage => "faqs"
    case AboutPage => "about"
    case AdminPage => "admin"
    case ReportPage => "report"
  }

  /** The page the shell renders for `currentPage`: the one whose name it equals, or nothing. */
  function RenderedPage(current: string): (r: Option<Page>)
    ensures r.Some? ==> PageName(r.value) == current
    ensures r.None? <==> forall p :: PageName(p) != current
  {
    if current == "home" then Some(HomePage)
    else if current == "login" then Some(LoginPage)
    else if current == "register" then Some(RegisterPage)
    else if current == "faqs" then Some(FaqsPage)
    else if current == "about" then Some(AboutPage)
    else if current == "admin" then Some(AdminPage)
    else if current == "report" then Some(ReportPage)
    else None
  }

  /** Every page has its own name, so at most one page is rendered at a time and navigating to
      a page's name renders that page. */
  lemma PageNamesDistinct()
    ensures forall p, q :: PageName(p) == PageName(q) ==> p == q
    ensures forall p :: RenderedPage(PageName(p)) == Some(p)
  {
    forall p ensures RenderedPage(PageName(p)) == Some(p) {
      match p
      case HomePage =>
      case LoginPage =>
      case RegisterPage =>
      case FaqsPage =>
      case AboutPage => assert "about"[0] != "admin"[1];
      case AdminPage =>
      case ReportPage => assert "report"[0] != "register"[2];
    }
  }

  // ---------------------------------------------------------------- the shell's state

  /** The shell: the page being shown and the list of reports handed to the pages. */
  class App {
    var currentPage: string
    var reports: seq<Report>

    constructor()
      ensures currentPage == "home" && reports == []
    {
      currentPage := "home";
      reports := [];
    }

    /** The page currently rendered. */
    function Rendered(): (p: Option<Page>)
      reads this
      ensures p.Some? <==> exists q :: PageName(q) == currentPage
    {
      RenderedPage(currentPage)
    }

    /** `handleSubmitReport`: the new report goes to the end. */
    method SubmitReport(r: Report)
      modifies this
      ensures reports == old(reports) + [r]
      ensures currentPage == old(currentPage)
    {
      reports := reports + [r];
    }

    /** `handleAddReport`: the new report goes to the front. */
    method AddReport(r: Report)
      modifies this
      ensures reports == [r] + old(reports)
      ensures currentPage == old(currentPage)
    {
      reports := [r] + reports;
    }

    /** `handleNavigate`. */
    method Navigate(page: string)
      modifies this
      ensures currentPage == page && reports == old(reports)
      ensures Rendered().Some? ==> PageName(Rendered().value) == page
    {
      currentPage := page;
    }

    /** The feed's answer: when it carries a `posts` list the reports are replaced by the
        formatted report posts (an empty list included); otherwise, or when the request fails
        (`None`), nothing changes. */
    method ReceiveFeed(posts: Option<seq<FeedPost>>, toNumber: string -> Option<real>)
      modifies this
      ensures posts.Some? ==> reports == FormatReports(posts.value, toNumber)
      ensures posts.None? ==> reports == old(reports)
      ensures currentPage == old(currentPage)
    {
      if posts.Some? {
        reports := FormatReports(posts.value, toNumber);
      }
    }
  }
}
