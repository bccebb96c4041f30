/** The login page: the user login, which asks the server, and the administrator login, which
    compares against fixed credentials in the page itself. The server is a function from the
    request to its reply, or `None` when the request fails. */
module Login {
  import opened Maybe
  import opened Feed

  datatype LoginRequest = LoginRequest(username: string, password: string)

  datatype LoginReply = LoginReply(success: bool, error: Option<string>)

  /** What a login attempt does: the message shown, the request sent (if any) and the page
      navigated to (if any). */
  datatype Outcome = Outcome(message: string, request: Option<LoginRequest>, navigateTo: Option<string>)

  const AdminUsername: string := "admin"
  const AdminPassword: string := "admin123"

  /** `handleUserLogin`: an empty field stops it before any request. Otherwise the request is
      sent; success greets the user and opens the report page, a refusal shows the server's
      error (or a fixed text), and a failed request a generic apology. */
  function UserLogin(username: string, password: string, respond: LoginRequest -> Option<LoginReply>): (o: Outcome)
    ensures o.request.None? <==> username == "" || password == ""
    ensures o.request.None? ==> o.message == "Please fill all fields (User)" && o.navigateTo.None?
    ensures o.request.Some? ==> o.request.value == LoginRequest(username, password)
    ensures o.navigateTo.Some? <==> o.request.Some? && respond(o.request.value).Some? && respond(o.request.value).value.success
    ensures o.navigateTo.Some? ==> o.navigateTo == Some("report") && o.message == "Welcome User!"
    ensures o.request.Some? && respond(o.request.value).Some? && !respond(o.request.value).value.success ==>
              o.message == OrDefault(respond(o.request.value).value.error, "Invalid User credentials")
    ensures o.request.Some? && respond(o.request.value).None? ==>
              o.message == "Something went wrong. Please try again."
  {
    if username == "" || password == "" then Outcome("Please fill all fields (User)", None, None)
    else
      var request := LoginRequest(username, password);
      match respond(request)
      case None => Outcome("Something went wrong. Please try again.", Some(request), None)
      case Some(reply) =>
        if reply.success then Outcome("Welcome User!", Some(request), Some("report"))
        else Outcome(OrDefault(reply.error, "Invalid User credentials"), Some(request), None)
  }

  /** `handleAdminLogin`: never asks the server. It opens the dashboard exactly for the fixed
      credentials; an empty field and any other pair each get their own message. */
  function AdminLogin(username: string, password: string): (o: Outcome)
    ensures o.request.None?
    ensures o.navigateTo.Some? <==> username == "admin" && password == "admin123"
    ensures o.navigateTo.Some? ==> o.navigateTo == Some("admin") && o.message == "Welcome Admin!"
    ensures username == "" || password == "" ==> o.message == "Please fill all fields (Admin)"
    ensures username != "" && password != "" && o.navigateTo.None? ==> o.message == "Invalid Admin credentials"
  {
    if username == "" || password == "" then Outcome("Please fill all fields (Admin)", None, None)
    else if username == AdminUsername && password == AdminPassword then Outcome("Welcome Admin!", None, Some("admin"))
    else Outcome("Invalid Admin credentials", None, None)
  }

  /** The two logins lead to different pages, and the page each opens is one the shell renders. */
  lemma LoginTargetsAreRenderedPages(username: string, password: string, respond: LoginRequest -> Option<LoginReply>)
    ensures UserLogin(username, password, respond).navigateTo.Some? ==>
              RenderedPage(UserLogin(username, password, respond).navigateTo.value) == Some(ReportPage)
    ensures AdminLogin(username, password).navigateTo.Some? ==>
              RenderedPage(AdminLogin(username, password).navigateTo.value) == Some(AdminPage)
  {
    PageNamesDistinct();
    assert PageName(ReportPage) == "report" && PageName(AdminPage) == "admin";
  }

  /** The login page's state: the four fields and the message. */
  class LoginForm {
    var userUsername: string
    var userPassword: string
    var adminUsername: string
    var adminPassword: string
    var message: string

    constructor()
      ensures userUsername == "" && userPassword == "" && adminUsername == "" && adminPassword == ""
      ensures message == ""
    {
      userUsername, userPassword := "", "";
      adminUsername, adminPassword := "", "";
      message := "";
    }

    method SetUser(username: string, password: string)
      modifies this
      ensures userUsername == username && userPassword == password
      ensures adminUsername == old(adminUsername) && adminPassword == old(adminPassword) && message == old(message)
    {
      userUsername, userPassword := username, password;
    }

    method SetAdmin(username: string, password: string)
      modifies this
      ensures adminUsername == username && adminPassword == password
      ensures userUsername == old(userUsername) && userPassword == old(userPassword) && message == old(message)
    {
      adminUsername, adminPassword := username, password;
    }

    /** The user login button: the outcome's message is shown and its page opened. */
    method SubmitUser(respond: LoginRequest -> Option<LoginReply>) returns (navigateTo: Option<string>)
      modifies this
      ensures message == UserLogin(userUsername, userPassword, respond).message
      ensures navigateTo == UserLogin(userUsername, userPassword, respond).navigateTo
      ensures userUsername == old(userUsername) && userPassword == old(userPassword)
      ensures adminUsername == old(adminUsername) && adminPassword == old(adminPassword)
    {
      var o := UserLogin(userUsername, userPassword, respond);
      message := o.message;
      navigateTo := o.navigateTo;
    }

    /** The administrator login button. */
    method SubmitAdmin() returns (navigateTo: Option<string>)
      modifies this
      ensures message == AdminLogin(adminUsername, adminPassword).message
      ensures navigateTo == AdminLogin(adminUsername, adminPassword).navigateTo
      ensures userUsername == old(userUsername) && userPassword == old(userPassword)
      ensures adminUsername == old(adminUsername) && adminPassword == old(adminPassword)
    {
      var o := AdminLogin(adminUsername, adminPassword);
      message := o.message;
      navigateTo := o.navigateTo;
    }
  }
}
