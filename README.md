# Civic-issue reporting portal — a Dafny model

The portal lets citizens report civic problems (potholes, street lights, garbage, sewage) with a
point on a map, lets an administrator follow them up, and keeps a small social feed of posts.
This project models its core in Dafny:

- the stored records: the post (which doubles as a report) with its `reportStatus` enumeration
  and field defaults, and the user with its per-status report counters, its `posts` list, its
  default profile picture and the unique `anonId` index (`PostSchema`, `UserSchema`);
- the server handlers that change records: the like toggle, appending a new post's id to its
  author, the profile-picture upload, registration with its duplicate-email guard, login,
  logout and the empty-token guard in front of protected routes (`Server`); the handlers'
  paths through a missing document, a missing file, a malformed id or a failed write are
  listed under "Left out";
- the upload configuration: the file filter, the stored file name, the folder and the size
  limit (`Upload`);
- the browser client: the shell that turns feed posts into reports and picks the page
  (`Feed`), the report record and the two status vocabularies (`ReportRecord`), the
  administrator dashboard (`Admin`), the public home page (`Home`), the report form
  (`ReportIssue`), the registration page (`Register`) and the login page (`Login`);
- the JavaScript string and array operations these rely on (`Strings`, `Seqs`), and
  `Option`/`Result` (`Maybe`).

Stateful code is modelled as classes whose methods change their fields: a loaded post or user
document, the user collection, the client's cookie, and the state of the shell, the
dashboard, the report form, the registration page and the login page. The home page's only
state, its sorted copy of the reports, is recomputed from the reports on every change, so it
is modelled as the function `Home.SortNewestFirst`. Pure decisions
are functions. Randomness, the clock, number parsing and printing, and every server reply are
parameters.

Two consequences of the code as written are stated as lemmas rather than hidden:

- The storage layer admits only `problemIssued`, `pending` and `resolved`. The client counts and
  offers only `Pending`, `In Progress` and `Resolved`. The feed formatter copies a stored status
  unchanged, so a report loaded from the server is never counted by any status card
  (`Feed.StoredStatusPassesThrough`, `ReportRecord.StorageStatusesCountNothing`).
- Registration never sets `anonId`, and a non-sparse unique index treats a missing value as
  null. So once one user lacks an `anonId`, every later registration is refused by the index.
  The refusal is a rejected promise inside the hashing callback, out of reach of the request,
  so no answer is sent (`Server.SecondRegistrationRefused`,
  `Server.UserCollection.Register`).

## Model

| member | source | states |
|---|---|---|
| `PostSchema.ParseStatus` | models/post.js:32-36 | the status validator admits a string exactly when it is one of the three status names, and maps it to the status of that name |
| `PostSchema.StatusVocabulary` | models/post.js:34 | exactly `problemIssued`, `pending` and `resolved` are admitted, and each names a different status |
| `PostSchema.CreatePost` | models/post.js:4-36 | creation fails exactly when a given status is outside the enumeration; otherwise the status defaults to `problemIssued`, content to "", `isReport` to false, likes to [], the date to the clock, and the optional fields stay as given |
| `PostSchema.PlainPostDefaults` | models/post.js:13-36 | a post created with only an owner and content is a plain post with no likes and status `problemIssued` |
| `UserSchema.CounterKeysMatchStatuses` | models/user.js:22-35 | the counter keys are exactly the three storage status names, without repetition |
| `UserSchema.NewUser` | models/user.js:4-35 | a new user has every counter at 0, `profilepic` "default.jpg" unless given, no posts, and the given id, email, password and `anonId` |
| `UserSchema.InsertUser` | models/user.js:18-21 | insertion is refused with a duplicate-key error exactly when another user holds the same `anonId` (absence included); otherwise the user is appended, and uniqueness is preserved |
| `UserSchema.AtMostOneWithoutAnonId` | models/user.js:18-21 | under the unique index at most one stored user lacks an `anonId` |
| `Server.ToggledLikes` | app.js:110-116 | a user not among the likes gains one like; a user among them loses exactly one; nobody else's likes change in number |
| `Server.LikeAppendsWhenAbsent` | app.js:110-112 | a user not among the likes is appended at the end |
| `Server.LikeRemovesFirstOccurrence` | app.js:114-116 | a user among the likes loses exactly the first occurrence; the length drops by one and the other entries keep their order |
| `Server.LikeToggleTwiceRestores` | app.js:110-116 | toggling twice from a list without the user restores the list |
| `Server.LikeToggleFlips` | app.js:110-116 | on a duplicate-free list the toggle flips whether the user likes the post |
| `Server.LikeToggleKeepsNoDuplicates` | app.js:110-116 | a duplicate-free likes list stays duplicate-free |
| `Server.LikeToggleKeepsOthers` | app.js:110-116 | every other user's likes are untouched, in order |
| `Server.PostDocument.ToggleLike` | app.js:107-120 | the route replaces `likes` by the toggled list and redirects to the profile |
| `Server.UserDocument.AddPost` | app.js:97 | the new id is appended to `posts`; earlier entries are unchanged |
| `Server.UserDocument.SetProfilePic` | app.js:55 | the profile picture becomes the stored file name |
| `Server.CreatePostRoute` | app.js:88-100 | a plain post owned by the user is created with the submitted content, and exactly its id is appended to the user's posts |
| `Server.UploadRoute` | app.js:52-58 | the uploaded file's stored name becomes the profile picture, then a redirect to the profile |
| `Server.FindByEmail` | app.js:62 | a user is found exactly when some stored user has the email, and the one found has it |
| `Server.Login` | app.js:136-149 | unknown email: status 500 "Something went Wrong"; known email: the token is set and the profile opened exactly when the password matches, otherwise back to login |
| `Server.UserCollection.Register` | app.js:60-82 | an already registered email gets 500 "User already registered" and no user is created; otherwise the new user is inserted and answered "Registered!" with the token, or, when the index refuses it, nothing is stored and nothing answered; after a "Registered!" answer the email is registered; the index invariant is kept |
| `Server.RegisterTwiceRejected` | app.js:62-79 | once a registration has stored its user, the duplicate check finds its email |
| `Server.UserCollection.RegisterTwice` | app.js:60-82 | when a first registration is answered "Registered!", a second one with the same email is answered 500 "User already registered" and the collection holds only the user the first one created |
| `Server.SecondRegistrationRefused` | app.js:69-75 | a registration creates a user without `anonId`, which the unique index refuses once any stored user lacks one |
| `Server.Guard` | app.js:157-165 | the guard redirects to the login page exactly when the token cookie is the empty string; any other value, a missing one included, goes on to verification |
| `Server.Session.Receive` | app.js:78 | a response that sets the token cookie stores it; otherwise the cookie is unchanged |
| `Server.Session.Logout` | app.js:151-154 | after logout the token is "" and the next guarded request is redirected to the login page |
| `Upload.ExtName` | config/multerConfig.js:30 | the extension is empty or starts with its only dot, holds no folder separator, and is a suffix of the name |
| `Upload.ExtNameEmpty` | config/multerConfig.js:30 | the extension is empty exactly when the base name is `..`, has at most one character, or has no dot after its first character |
| `Upload.BaseName` | config/multerConfig.js:30 | the base name is the suffix of the path after its last `/`, holds no `/`, and is the whole path when it has none |
| `Upload.ExtensionMatches` | config/multerConfig.js:29 | the unanchored extension pattern matches only texts of at least three characters (the shortest alternative) |
| `Upload.MimeMatches` | config/multerConfig.js:33 | a matching type starts with `image/` or `video/`; a `video/` type matches exactly when the rest is one of the listed video subtypes |
| `Upload.FileFilter` | config/multerConfig.js:23-41 | a missing name or a matching MIME type is always accepted; a refusal carries "Only images and videos are allowed!" and comes only for a present, non-blank name |
| `Upload.FilterDecision` | config/multerConfig.js:23-41 | a file is accepted exactly when its name is missing or blank, or its lower-cased extension contains a listed token, or its MIME type matches; every refusal carries "Only images and videos are allowed!" |
| `Upload.BlankNameAccepted` | config/multerConfig.js:25-27 | a name made only of white space is accepted whatever the file |
| `Upload.ExtNameOfPlainName` | config/multerConfig.js:30 | the extension of a folder-less name with a proper stem is the part from its last dot |
| `Upload.ExtensionTokenAccepted` | config/multerConfig.js:29-35 | a name whose lower-cased extension contains a listed token is accepted whatever its MIME type |
| `Upload.UnanchoredExtension` | config/multerConfig.js:29-35 | the extension test is unanchored: `photo.jpgx` is accepted |
| `Upload.UpperCaseExtension` | config/multerConfig.js:30 | the extension is lower-cased first: `PHOTO.JPG` is accepted |
| `Upload.MimeAnchoring` | config/multerConfig.js:33 | the image alternative is anchored only at the start (`image/pngx` matches), the video alternative at both ends (`video/mp4x` does not) |
| `Upload.BareNameUsesMime` | config/multerConfig.js:29-40 | for any visible name without dot or folder, the file is accepted exactly when its MIME type matches, and refused with the message otherwise |
| `Upload.MimeDecidesForBareName` | config/multerConfig.js:33-40 | for a name without extension the MIME type alone decides: `image/pngx` accepted, `video/mp4x` refused with the message |
| `Upload.Hex` | config/multerConfig.js:17 | two lower-case hexadecimal digits per byte |
| `Upload.UnhexHex` | config/multerConfig.js:17 | the hexadecimal text of the random bytes determines the bytes |
| `Upload.StoredName` | config/multerConfig.js:13-20 | the stored name is 24 lower-case hex digits that decode to the 12 random bytes, followed by the original extension; a failure to draw the bytes is passed on with no name |
| `Upload.Destination` | config/multerConfig.js:9-11 | every accepted file goes to `./public/images/uploads` |
| `Upload.HandleUpload` | config/multerConfig.js:13-48 | a file is stored exactly when the filter accepts it, it has an original name, the random bytes are drawn and it is at most 52,428,800 bytes; it is refused with the message exactly when the filter refuses it; an accepted file whose bytes cannot be drawn ends in that error, and an accepted file without a name ends with nothing stored, because taking the extension of a missing name throws |
| `ReportRecord.ParseDisplay` | ReactJS/src/Admin.jsx:167-170 | a string is a client status exactly when it is `Pending`, `In Progress` or `Resolved`, and maps to the status of that name |
| `ReportRecord.VocabulariesDisjoint` | ReactJS/src/Admin.jsx:220-222 | no storage status name is a client status name and no client status passes the storage validator |
| `ReportRecord.CountWithStatus` | ReactJS/src/Admin.jsx:122-130 | a status count is at most the number of reports and is zero exactly when no report has that status |
| `ReportRecord.DisplayCounts` | ReactJS/src/Admin.jsx:118-130 | each of the three counts is at most the number of reports, and the Pending count is zero exactly when no report is "Pending" |
| `ReportRecord.StatusCountsBounded` | ReactJS/src/Admin.jsx:118-130 | Pending, In Progress and Resolved counts add up to at most the total, with equality exactly when every status is one of those three |
| `ReportRecord.StorageStatusesCountNothing` | ReactJS/src/App.jsx:50 | reports whose statuses are storage names score zero on every client status count |
| `Feed.FeedPostOf` | ReactJS/src/App.jsx:31-34 | a stored post reaches the client with its status present, under its storage name |
| `Feed.Description` | ReactJS/src/App.jsx:48 | the description is the whole content, or a non-empty text without a blank line that follows a blank line in the content |
| `Feed.DescriptionIsFirstSegment` | ReactJS/src/App.jsx:48 | without a blank line, or with nothing between the first blank line and the next, the description is the whole content; otherwise it is exactly the text after the first blank line up to the next blank line or the end |
| `Feed.DescriptionOfTwoParagraphs` | ReactJS/src/App.jsx:48 | content made of a title, a blank line and a description, neither holding a blank line (single line breaks allowed) and the title not ending in a line break, yields that description |
| `Feed.DescriptionOfOneParagraph` | ReactJS/src/App.jsx:48 | content without a line break is its own description |
| `Feed.ParseLocation` | ReactJS/src/App.jsx:36-43 | a location is produced only from a present, non-empty string that splits on "," into exactly two parts, and its coordinates are those parts' numbers |
| `Feed.ParseLocationDecision` | ReactJS/src/App.jsx:36-43 | a location is parsed exactly when both of exactly two parts are numbers; a string without a comma never is |
| `Feed.FormatPost` | ReactJS/src/App.jsx:45-53 | title, category and status fall back to "Untitled", "General", "Pending" when missing or empty and are copied otherwise; the action is ""; id, description and location come from the post |
| `Feed.StoredStatusPassesThrough` | ReactJS/src/App.jsx:50 | a stored status is shown under its storage name, never as a client status |
| `Feed.DefaultStatusShownAsStorageName` | ReactJS/src/App.jsx:50 | a post created without a status is shown as "problemIssued", not "Pending" |
| `Feed.FormatAll` | ReactJS/src/App.jsx:35-54 | one report per post, in order |
| `Feed.FormatReports` | ReactJS/src/App.jsx:33-54 | at most one report per post, and one per post in order when every post is a report post |
| `Feed.FormatReportsSelectsReportPosts` | ReactJS/src/App.jsx:33-54 | the reports are the formatted `isReport` posts, one per such post and in feed order: the kept posts are an order-preserving subsequence of the feed holding every report post as often as the feed does and no plain post |
| `Feed.FormatReportsAppend` | ReactJS/src/App.jsx:33-54 | formatting a feed in two parts formats each part on its own, in order |
| `Feed.NoReportPostsNoReports` | ReactJS/src/App.jsx:33-34 | a feed without report posts yields no reports |
| `Feed.RenderedPage` | ReactJS/src/App.jsx:73-79 | the page rendered is the one whose name equals `currentPage`; an unknown name renders nothing |
| `Feed.PageNamesDistinct` | ReactJS/src/App.jsx:73-79 | page names are distinct, so at most one page renders, and each page's name renders it |
| `Feed.App.constructor` | ReactJS/src/App.jsx:14-15 | the shell starts on "home" with no reports |
| `Feed.App.Rendered` | ReactJS/src/App.jsx:73-79 | a page is rendered exactly when some page has the current name |
| `Feed.App.SubmitReport` | ReactJS/src/App.jsx:17-19 | the new report is appended; the others are unchanged |
| `Feed.App.AddReport` | ReactJS/src/App.jsx:65-68 | the new report is put in front; the others are unchanged |
| `Feed.App.Navigate` | ReactJS/src/App.jsx:21-23 | `currentPage` becomes the given name and the rendered page is the one of that name |
| `Feed.App.ReceiveFeed` | ReactJS/src/App.jsx:25-63 | a reply with a posts list replaces the reports by the formatted report posts; no list or a failed request changes nothing |
| `Admin.UpdatedReports` | ReactJS/src/Admin.jsx:47-55 | the length is kept; reports with the id take the new status and action, all others are unchanged |
| `Admin.UpdateKeepsIdentity` | ReactJS/src/Admin.jsx:48-54 | every report keeps its position, id, title, description, category and location |
| `Admin.UpdateLastWins` | ReactJS/src/Admin.jsx:47-55 | two updates of the same report leave only the second |
| `Admin.UpdatesCommute` | ReactJS/src/Admin.jsx:47-55 | updates of different reports commute |
| `Admin.UpdateAbsentId` | ReactJS/src/Admin.jsx:47-55 | an id no report carries changes nothing |
| `Admin.UpdateKeepsDisplayStatuses` | ReactJS/src/Admin.jsx:214-223 | a status chosen from the drop-down keeps the three counts adding up to the total when they did before |
| `Admin.Matches` | ReactJS/src/Admin.jsx:58-70 | with the search cleared and both filters "All", every report matches |
| `Admin.FilteredReports` | ReactJS/src/Admin.jsx:58-70 | no more reports than given, and exactly the given reports that match |
| `Admin.FilteredIsOrderedSelection` | ReactJS/src/Admin.jsx:58-70 | the filtered list is an order-preserving subsequence that holds every matching report as often as the list does and no other report; a report matches when its lower-cased title or description contains the lower-cased search and its category and status match or the filter is "All" |
| `Admin.ResetShowsAll` | ReactJS/src/Admin.jsx:174-178 | with the search cleared and both filters "All", every report is shown |
| `Admin.FilterIdempotent` | ReactJS/src/Admin.jsx:58-70 | filtering the filtered list again changes nothing |
| `Admin.SearchIgnoresCase` | ReactJS/src/Admin.jsx:59-61 | a search text and its lower-cased form select the same reports |
| `Admin.MapMarkers` | ReactJS/src/Admin.jsx:280-292 | the markers are an order-preserving subsequence of the given reports holding every located report as often as the list does, and no unlocated one |
| `Admin.MarkersOfFiltered` | ReactJS/src/Admin.jsx:280-292 | the map shows, in list order, each report that passes the filters and has a location, as often as the local list holds it, and nothing else |
| `Admin.Dashboard.constructor` | ReactJS/src/Admin.jsx:36-40 | the dashboard starts from the given reports, an empty search, both filters "All" and the list view, so all reports show |
| `Admin.Dashboard.Filtered` | ReactJS/src/Admin.jsx:58-70 | the list shows no more reports than the local copy holds, and exactly the local reports that match the current search and filters |
| `Admin.Dashboard.Counts` | ReactJS/src/Admin.jsx:118-130 | the three status cards add up to at most the total, with equality exactly when every status is a client status |
| `Admin.Dashboard.Markers` | ReactJS/src/Admin.jsx:280-292 | the markers are an order-preserving subsequence of the shown list holding each local report that matches the filters and has a location, as often as the local list holds it, and nothing else |
| `Admin.Dashboard.UpdateReport` | ReactJS/src/Admin.jsx:47-55 | the local reports become the updated list; the filters and view are unchanged |
| `Admin.Dashboard.SyncReports` | ReactJS/src/Admin.jsx:43-45 | the parent's reports replace the local copy |
| `Admin.Dashboard.SetSearch` | ReactJS/src/Admin.jsx:151 | only the search text changes |
| `Admin.Dashboard.SetFilterCategory` | ReactJS/src/Admin.jsx:155 | only the category filter changes |
| `Admin.Dashboard.SetFilterStatus` | ReactJS/src/Admin.jsx:165 | only the status filter changes |
| `Admin.Dashboard.SetMapView` | ReactJS/src/Admin.jsx:136-141 | only the view changes |
| `Admin.Dashboard.Reset` | ReactJS/src/Admin.jsx:174-178 | search "", both filters "All", and every local report is shown |
| `Home.Insert` | ReactJS/src/HomePage.jsx:25 | inserting into a newest-first list keeps it newest first and adds exactly the one report |
| `Home.SortNewestFirst` | ReactJS/src/HomePage.jsx:24-27 | the sorted copy is a permutation of the reports, ordered by id from largest to smallest |
| `Home.SortKeepsReports` | ReactJS/src/HomePage.jsx:25 | the sorted copy has the same length and the same reports |
| `Home.SortKeepsCounts` | ReactJS/src/HomePage.jsx:25 | sorting changes no status count |
| `Home.HomeCounts` | ReactJS/src/HomePage.jsx:49-57 | the first card is the total, and In Progress plus Resolved never exceed it |
| `Home.LocationLabel` | ReactJS/src/HomePage.jsx:80-81 | an unlocated report reads "Not specified"; a located one shows its point in the same text form the report form sends it, with three-decimal printing |
| `Home.CardOf` | ReactJS/src/HomePage.jsx:70-88 | a card shows the report's id, title and status, "Not specified" when it has no location, and admin notes exactly when the action is non-empty |
| `Home.CardsOf` | ReactJS/src/HomePage.jsx:69-89 | one card per report, in order |
| `Home.HomeFeed` | ReactJS/src/HomePage.jsx:65-91 | the empty-feed message shows exactly when there are no reports; otherwise one card per report, newest first |
| `Home.UnlocatedReportsShowNotSpecified` | ReactJS/src/HomePage.jsx:80-81 | every report without a location appears as a card reading "Not specified" |
| `ReportIssue.SerializeLocation` | ReactJS/src/ReportIssue.jsx:47 | joining the two printed coordinates gives latitude, a comma and a space, then longitude |
| `ReportIssue.LocationRoundTrip` | ReactJS/src/ReportIssue.jsx:47 | the location text the form sends is parsed back by the feed into the same point, given a comma-free number printing that the number conversion reads back |
| `ReportIssue.ReportForm.constructor` | ReactJS/src/ReportIssue.jsx:26-29 | the form starts empty, without a point, on category "Potholes" |
| `ReportIssue.ReportForm.SetTitle` | ReactJS/src/ReportIssue.jsx:84 | only the title changes; the category stays one of the four offered |
| `ReportIssue.ReportForm.SetDescription` | ReactJS/src/ReportIssue.jsx:90 | only the description changes; the category stays one of the four offered |
| `ReportIssue.ReportForm.SetCategory` | ReactJS/src/ReportIssue.jsx:93-98 | the category becomes the choice, always one of the four offered |
| `ReportIssue.ReportForm.PickLocation` | ReactJS/src/ReportIssue.jsx:16-20 | a map click replaces the point, so only the last click counts; the category stays one of the four offered |
| `ReportIssue.ReportForm.Submit` | ReactJS/src/ReportIssue.jsx:31-69 | no request is sent exactly when title, description or point is missing, with the fill-all-fields alert; otherwise the request carries the fields, a category among the four offered, and the joined location; the page goes home and hands on the post exactly on a successful reply; a refusal shows the error or "Unknown error"; a failed request shows the connection error |
| `Register.Pick` | ReactJS/src/RegisterPage.jsx:7-8 | a draw picks a valid index into a list |
| `Register.ThreeDigitNumber` | ReactJS/src/RegisterPage.jsx:9 | the number lies in [100, 999] |
| `Register.AnonymousUsername` | ReactJS/src/RegisterPage.jsx:3-11 | the name is "Anon_", a listed adjective, a listed animal and three digits without leading zero whose value is the drawn number |
| `Register.AadharAccepted` | ReactJS/src/RegisterPage.jsx:26 | an Aadhar number is accepted exactly when it is twelve characters, all digits |
| `Register.OtpCode` | ReactJS/src/RegisterPage.jsx:32 | the code lies in [100000, 999999] and is written with exactly six digits |
| `Register.OtpMatches` | ReactJS/src/RegisterPage.jsx:39 | an accepted entry is a non-empty digit string whose value is the code |
| `Register.OtpMatchExactly` | ReactJS/src/RegisterPage.jsx:39 | the typed code is accepted exactly when it is six digits whose value is the code |
| `Register.RegisterForm.constructor` | ReactJS/src/RegisterPage.jsx:15-23 | the page starts with the generated username, empty fields, no code and nothing sent |
| `Register.RegisterForm.SetFullName` | ReactJS/src/RegisterPage.jsx:85 | only the full name changes |
| `Register.RegisterForm.SetUsername` | ReactJS/src/RegisterPage.jsx:95 | only the username changes |
| `Register.RegisterForm.SetEmail` | ReactJS/src/RegisterPage.jsx:105 | only the email changes |
| `Register.RegisterForm.SetPassword` | ReactJS/src/RegisterPage.jsx:115 | only the password changes |
| `Register.RegisterForm.SetAadhar` | ReactJS/src/RegisterPage.jsx:125 | only the Aadhar field changes |
| `Register.RegisterForm.SetOtp` | ReactJS/src/RegisterPage.jsx:139 | only the typed code changes |
| `Register.RegisterForm.SendOtp` | ReactJS/src/RegisterPage.jsx:25-36 | a rejected Aadhar only sets its message and leaves no code sent; an accepted one stores the drawn code, marks it sent and shows it |
| `Register.RegisterForm.VerifyOtp` | ReactJS/src/RegisterPage.jsx:38-73 | a request is sent exactly when the typed code is the shown one, otherwise "❌ Invalid OTP, try again"; the reply decides the message, and only success asks to return to login |
| `Login.UserLogin` | ReactJS/src/LoginPage.jsx:41-72 | an empty field sends nothing and asks to fill all fields; otherwise the request carries both fields; the report page opens exactly on a successful reply; a refusal shows the server's error or "Invalid User credentials"; a failed request the apology |
| `Login.AdminLogin` | ReactJS/src/LoginPage.jsx:74-86 | no request is sent; the dashboard opens exactly for "admin"/"admin123"; an empty field and any other pair get their own messages |
| `Login.LoginTargetsAreRenderedPages` | ReactJS/src/LoginPage.jsx:64 | the pages the logins open are the report page and the dashboard the shell renders |
| `Login.LoginForm.constructor` | ReactJS/src/LoginPage.jsx:6-10 | the page starts with empty fields and no message |
| `Login.LoginForm.SetUser` | ReactJS/src/LoginPage.jsx:6-7 | only the user fields change |
| `Login.LoginForm.SetAdmin` | ReactJS/src/LoginPage.jsx:8-9 | only the administrator fields change |
| `Login.LoginForm.SubmitUser` | ReactJS/src/LoginPage.jsx:41-72 | the message and the page opened are those of the user login |
| `Login.LoginForm.SubmitAdmin` | ReactJS/src/LoginPage.jsx:74-86 | the message and the page opened are those of the administrator login |
| `Seqs.Filter` | ReactJS/src/App.jsx:34 | `filter` keeps only satisfying elements, exactly the satisfying values of the input, and never lengthens the list |
| `Seqs.FilterMultiset` | ReactJS/src/Admin.jsx:58-70 | `filter` keeps every occurrence of a satisfying element and none of any other |
| `Seqs.FirstIndex` | app.js:110 | `indexOf` gives -1 exactly for an absent element, otherwise the index of its first occurrence |
| `Seqs.RemoveAt` | app.js:115 | `splice(i, 1)` drops exactly the element at `i` and shifts the later ones down |
| `Strings.ToLower` | ReactJS/src/Admin.jsx:60-61 | `toLowerCase` keeps the length, leaves no upper-case ASCII letter and changes no other character |
| `Strings.Includes` | ReactJS/src/Admin.jsx:60-61 | `includes` holds exactly when the text occurs at some position |
| `Strings.Split` | ReactJS/src/App.jsx:39 | `split` gives at least one piece, the first a prefix of the text, and no piece holds the separator |
| `Strings.JoinSplit` | ReactJS/src/ReportIssue.jsx:47 | joining the pieces of a split with the same separator gives back the text |
| `Strings.Trim` | config/multerConfig.js:25 | `trim` never lengthens the text and leaves no white space at either end |
| `Strings.TrimEmpty` | config/multerConfig.js:25 | the trimmed name is empty exactly when it is all white space |

## Left out

- Persistence, Express routing, page rendering, cookies on the wire and every `fetch` are
  input/output. The records a handler loads and the replies a page receives are parameters;
  a request is modelled as a function from its body to the reply, or `None` when it fails.
- Password hashing and token signing and verification are foreign library calls. The hash, the
  comparison result and the signed token are parameters. `isLoggedIn` is modelled up to the
  empty-token test; verification itself, which throws on a missing or forged token, is not.
- `crypto.randomBytes`, `Math.random` and the clock are parameters: the bytes, draws in
  [0, 1), and the timestamp.
- Coordinates are reals. Number parsing and the printing of coordinates (including
  `toFixed(3)`) are function parameters; floating-point rounding is not modelled.
- `toLowerCase` maps ASCII letters only; other Unicode case mappings are not modelled.
- `path.extname` is modelled for the folder separator `/` only; trailing separators and other
  platform rules of Node's path module are not.
- The `useCountUp` animation, GSAP, AOS and the maps are presentation; the navigation bar,
  button and input components hold no logic.
- Home.SortNewestFirst: ids are integers so that the comparator `b.id - a.id` is meaningful,
  while the shell sets `id` to the post's string id, where the comparator would yield NaN.
  That behaviour and the stability of the sort are not modelled.
- Feed.App.SubmitReport: the report form hands on the server's post unformatted, but the model
  types it as a report.
- The shell uses `useEffect` without importing it, and `handleAddReport` is never passed to any
  page; both are modelled as written up to these points.
- Register.RegisterForm.VerifyOtp: success only asks to go back to login, because the shell
  never passes the `onBackToLogin` callback the page calls after its timer.
- The routes the client calls (`/api/feed`, `/api/create-report`, `/api/admin/update-report`,
  `/api/register`, `/api/login`) are not part of app.js. Nothing in the code changes a user's
  report counters or translates between the two status vocabularies, so neither is modelled.
- Server.UserCollection.Register: a missing email in the request body, which the lookup then
  ignores, is not modelled; the email is always a string. Mongoose's casting of field types
  is not modelled either.
- The handlers' failure paths are not modelled: a lookup that finds no post or user (the
  like, post and upload routes then read a field of nothing), an upload without a file, a
  malformed post id, and a rejected database write. Each ends the handler without an answer,
  and the refused insertion in `/register` is a rejection inside the hashing callback, which
  no request handler catches, so current Node versions stop the process. The handlers here
  take a loaded document, a stored file name and a completed insertion as given.
- The `/edit/:id` and `/update/:id` routes only render a post or overwrite its content, and the
  remaining routes only render pages; they are not modelled.
