/** The request handlers of the server that change stored records: the like toggle, recording a
    new post on its author, setting the profile picture, registration with its duplicate-email
    guard, login, logout, and the `isLoggedIn` guard in front of protected routes. Persistence,
    password hashing and token signing are outside the model; their results are parameters. */
module Server {
  import opened Maybe
  import opened PostSchema
  import opened UserSchema
  import Seqs

  /** What a handler answers: a body with a status code, a redirect, or nothing at all (when the
      handler fails before it responds). */
  datatype Response = Send(status: int, body: string) | Redirect(location: string) | NoResponse

  // ---------------------------------------------------------------- GET /like/:id

  /** The `likes` list after user `u` toggles a like: appended when absent, otherwise its first
      occurrence is spliced out. */
  function ToggledLikes(likes: seq<ObjectId>, u: ObjectId): (r: seq<ObjectId>)
    ensures u !in likes ==> multiset(r) == multiset(likes) + multiset{u}
    ensures u in likes ==> multiset(r) == multiset(likes) - multiset{u}
    ensures forall v :: v != u ==> multiset(r)[v] == multiset(likes)[v]
  {
    var i := Seqs.FirstIndex(likes, u);
    if i == -1 then likes + [u]
    else
      assert likes == likes[..i] + [u] + likes[i + 1..];
      Seqs.RemoveAt(likes, i)
  }

  /** A user who has not liked the post is added at the end. */
  lemma LikeAppendsWhenAbsent(likes: seq<ObjectId>, u: ObjectId)
    requires u !in likes
    ensures ToggledLikes(likes, u) == likes + [u]
    ensures multiset(ToggledLikes(likes, u)) == multiset(likes) + multiset{u}
  {
  }

  /** A user who has liked the post loses exactly the first of their likes; the list shrinks by
      one and every other entry keeps its position relative to the others. */
  lemma LikeRemovesFirstOccurrence(likes: seq<ObjectId>, u: ObjectId)
    requires u in likes
    ensures |ToggledLikes(likes, u)| == |likes| - 1
    ensures exists i :: 0 <= i < |likes| && likes[i] == u && u !in likes[..i]
                        && ToggledLikes(likes, u) == likes[..i] + likes[i + 1..]
    ensures multiset(ToggledLikes(likes, u)) == multiset(likes) - multiset{u}
  {
    var i := Seqs.FirstIndex(likes, u);
    assert likes == likes[..i] + [u] + likes[i + 1..];
  }

  /** Liking and then unliking, starting from a list without the user, restores the list. */
  lemma {:induction false} LikeToggleTwiceRestores(likes: seq<ObjectId>, u: ObjectId)
    requires u !in likes
    ensures ToggledLikes(ToggledLikes(likes, u), u) == likes
  {
    var once := likes + [u];
    assert once[..|likes|] == likes;
    assert Seqs.FirstIndex(once, u) == |likes|;
    assert once[|likes| + 1..] == [];
  }

  /** The toggle flips whether the user is among the likers, provided nobody likes twice. */
  lemma LikeToggleFlips(likes: seq<ObjectId>, u: ObjectId)
    requires Seqs.NoDuplicates(likes)
    ensures u in ToggledLikes(likes, u) <==> u !in likes
  {
    if u in likes {
      var i := Seqs.FirstIndex(likes, u);
      var r := ToggledLikes(likes, u);
      forall k | 0 <= k < |r| ensures r[k] != u {
        if k < i { assert r[k] == likes[k]; } else { assert r[k] == likes[k + 1]; }
      }
    }
  }

  /** A list in which nobody likes twice stays that way. */
  lemma LikeToggleKeepsNoDuplicates(likes: seq<ObjectId>, u: ObjectId)
    requires Seqs.NoDuplicates(likes)
    ensures Seqs.NoDuplicates(ToggledLikes(likes, u))
  {
    var r := ToggledLikes(likes, u);
    var i := Seqs.FirstIndex(likes, u);
    if i != -1 {
      forall a, b | 0 <= a < b < |r| ensures r[a] != r[b] {
        var a' := if a < i then a else a + 1;
        var b' := if b < i then b else b + 1;
        assert r[a] == likes[a'] && r[b] == likes[b'];
      }
    }
  }

  function IsNot(u: ObjectId): ObjectId -> bool
  {
    v => v != u
  }

  /** The likes of everybody else are untouched, in order. */
  lemma LikeToggleKeepsOthers(likes: seq<ObjectId>, u: ObjectId)
    ensures Seqs.Filter(IsNot(u), ToggledLikes(likes, u)) == Seqs.Filter(IsNot(u), likes)
  {
    var i := Seqs.FirstIndex(likes, u);
    if i == -1 {
      Seqs.FilterAppend(IsNot(u), likes, [u]);
    } else {
      assert likes == likes[..i] + ([u] + likes[i + 1..]);
      Seqs.FilterAppend(IsNot(u), likes[..i], [u] + likes[i + 1..]);
      Seqs.FilterAppend(IsNot(u), likes[..i], likes[i + 1..]);
      assert Seqs.Filter(IsNot(u), [u] + likes[i + 1..]) == Seqs.Filter(IsNot(u), likes[i + 1..]);
    }
  }

  /** A loaded post document, of which the like route changes only `likes`. */
  class PostDocument {
    const id: ObjectId
    var likes: seq<ObjectId>

    constructor (id: ObjectId, likes: seq<ObjectId>)
      ensures this.id == id && this.likes == likes
    {
      this.id := id;
      this.likes := likes;
    }

    /** The body of `GET /like/:id` for the logged-in user `u`. */
    method ToggleLike(u: ObjectId) returns (response: Response)
      modifies this`likes
      ensures likes == ToggledLikes(old(likes), u)
      ensures response == Redirect("/profile")
    {
      var i := Seqs.FirstIndex(likes, u);
      if i == -1 {
        likes := likes + [u];
      } else {
        likes := Seqs.RemoveAt(likes, i);
      }
      response := Redirect("/profile");
    }
  }

  // ---------------------------------------------------------------- POST /post and POST /upload

  /** A loaded user document, of which the handlers change `posts` and `profilepic`. */
  class UserDocument {
    const id: ObjectId
    var posts: seq<ObjectId>
    var profilepic: string

    constructor (u: User)
      ensures id == u.id && posts == u.posts && profilepic == u.profilepic
    {
      id := u.id;
      posts := u.posts;
      profilepic := u.profilepic;
    }

    /** `user.posts.push(postId)`. */
    method AddPost(postId: ObjectId)
      modifies this`posts
      ensures posts == old(posts) + [postId]
    {
      posts := posts + [postId];
    }

    /** `user.profilepic = filename`, with the stored name of the uploaded file. */
    method SetProfilePic(filename: string)
      modifies this`profilepic
      ensures profilepic == filename
    {
      profilepic := filename;
    }
  }

  /** `POST /post`: create a plain post owned by `user` with the submitted content (the new
      document's id is `postId`, the clock reads `now`), then record the id at the end of the
      user's posts. */
  method CreatePostRoute(user: UserDocument, postId: ObjectId, content: Option<string>, now: int)
    returns (post: Post, response: Response)
    modifies user`posts
    ensures post.id == postId && post.user == Some(user.id)
    ensures post.content == OrElse(content, "") && post.date == now
    ensures post.reportStatus == ProblemIssued && !post.isReport && post.likes == []
    ensures user.posts == old(user.posts) + [postId]
    ensures response == Redirect("/profile")
  {
    var fields := PostFields(Some(user.id), None, content, None, None, None, None, None, None, None, None);
    var created := CreatePost(postId, fields, now);
    post := created.value;
    user.AddPost(post.id);
    response := Redirect("/profile");
  }

  /** `POST /upload`: the stored name of the uploaded file becomes the profile picture. */
  method UploadRoute(user: UserDocument, storedName: string) returns (response: Response)
    modifies user`profilepic
    ensures user.profilepic == storedName
    ensures response == Redirect("/profile")
  {
    user.SetProfilePic(storedName);
    response := Redirect("/profile");
  }

  // ---------------------------------------------------------------- POST /register, POST /login

  /** The first stored user whose email equals `email`, as `findOne({email})` returns it. */
  function FindByEmail(users: seq<User>, email: string): (r: Option<User>)
    ensures r.Some? <==> exists i :: 0 <= i < |users| && users[i].email == Some(email)
    ensures r.Some? ==> r.value in users && r.value.email == Some(email)
  {
    if users == [] then None
    else if users[0].email == Some(email) then Some(users[0])
    else
      var r := FindByEmail(users[1..], email);
      assert forall i :: 0 <= i < |users| - 1 ==> users[1..][i] == users[i + 1];
      r
  }

  /** A handler's answer, and the token cookie it sets, if any. */
  datatype Answer = Answer(response: Response, setToken: Option<string>)

  /** The login decision: an unknown email is answered with status 500; a known one with a
      matching password (as the hash comparison reported in `passwordMatches`) gets the signed
      token and goes to the profile; otherwise back to the login page. */
  function Login(users: seq<User>, email: string, passwordMatches: bool, signedToken: string): (a: Answer)
    ensures FindByEmail(users, email).None? ==> a == Answer(Send(500, "Something went Wrong"), None)
    ensures a.setToken.Some? <==> FindByEmail(users, email).Some? && passwordMatches
    ensures a.setToken.Some? ==> a == Answer(Redirect("/profile"), Some(signedToken))
    ensures FindByEmail(users, email).Some? && !passwordMatches ==> a == Answer(Redirect("/login"), None)
  {
    if FindByEmail(users, email).None? then Answer(Send(500, "Something went Wrong"), None)
    else if passwordMatches then Answer(Redirect("/profile"), Some(signedToken))
    else Answer(Redirect("/login"), None)
  }

  /** The user collection with its unique `anonId` index. */
  class UserCollection {
    var users: seq<User>

    ghost predicate Valid()
      reads this
    {
      AnonIdsUnique(users)
    }

    constructor ()
      ensures Valid() && users == []
    {
      users := [];
    }

    /** `POST /register`. An email that is already registered is answered with status 500 and
        nothing is created. Otherwise the user is created from the submitted fields and the hash
        of the password (`passwordHash`) under the id `newId`, and answered with the signed token;
        when the unique index refuses the new document, the handler fails without answering. */
    method Register(email: string, passwordHash: string, username: Option<string>, name: Option<string>,
                    age: Option<int>, newId: ObjectId, signedToken: string) returns (answer: Answer)
      requires Valid()
      modifies this
      ensures Valid()
      ensures FindByEmail(old(users), email).Some? ==>
                answer == Answer(Send(500, "User already registered"), None) && users == old(users)
      ensures FindByEmail(old(users), email).None? ==>
                var created := NewUser(newId, UserFields(username, name, age, Some(email), Some(passwordHash), None, None));
                match InsertUser(old(users), created)
                case Ok(after) => users == after && answer == Answer(Send(200, "Registered!"), Some(signedToken))
                case Err(_) => users == old(users) && answer == Answer(NoResponse, None)
      ensures answer.response == Send(200, "Registered!") ==> FindByEmail(users, email).Some?
    {
      if FindByEmail(users, email).Some? {
        answer := Answer(Send(500, "User already registered"), None);
        return;
      }
      var created := NewUser(newId, UserFields(username, name, age, Some(email), Some(passwordHash), None, None));
      var inserted := InsertUser(users, created);
      if inserted.Ok? {
        RegisterTwiceRejected(users, email, passwordHash, username, name, age, newId, inserted.value);
        users := inserted.value;
        answer := Answer(Send(200, "Registered!"), Some(signedToken));
      } else {
        answer := Answer(NoResponse, None);
      }
    }

    /** The same email registered twice in a row: when the first request is answered
        "Registered!", the second is answered 500 "User already registered", and the collection
        holds exactly the one user the first request created. */
    method RegisterTwice(email: string, passwordHash: string, username: Option<string>, name: Option<string>,
                         age: Option<int>, firstId: ObjectId, secondId: ObjectId, signedToken: string)
      returns (first: Answer, second: Answer)
      requires Valid()
      modifies this
      ensures Valid()
      ensures first.response == Send(200, "Registered!") ==>
                second == Answer(Send(500, "User already registered"), None) &&
                users == old(users) + [NewUser(firstId, UserFields(username, name, age, Some(email), Some(passwordHash), None, None))]
    {
      first := Register(email, passwordHash, username, name, age, firstId, signedToken);
      second := Register(email, passwordHash, username, name, age, secondId, signedToken);
    }
  }

  /** Once a registration has stored its user, the duplicate check finds the email, so a
      second registration with it is answered with status 500 and changes nothing. */
  lemma RegisterTwiceRejected(users: seq<User>, email: string, passwordHash: string, username: Option<string>,
                              name: Option<string>, age: Option<int>, newId: ObjectId, after: seq<User>)
    requires InsertUser(users, NewUser(newId, UserFields(username, name, age, Some(email), Some(passwordHash), None, None))) == Ok(after)
    ensures FindByEmail(after, email).Some?
  {
    var created := NewUser(newId, UserFields(username, name, age, Some(email), Some(passwordHash), None, None));
    assert after[|after| - 1] == created;
  }

  /** Registration never sets `anonId`, and the unique index counts a missing value as null:
      once one user without an `anonId` is stored, every later registration is refused by the
      index, whatever its email. */
  lemma SecondRegistrationRefused(users: seq<User>, email: string, passwordHash: string, username: Option<string>,
                                  name: Option<string>, age: Option<int>, newId: ObjectId)
    requires exists i :: 0 <= i < |users| && users[i].anonId.None?
    ensures var created := NewUser(newId, UserFields(username, name, age, Some(email), Some(passwordHash), None, None));
            InsertUser(users, created).Err?
  {
    var i :| 0 <= i < |users| && users[i].anonId.None?;
    var created := NewUser(newId, UserFields(username, name, age, Some(email), Some(passwordHash), None, None));
    assert users[i].anonId == created.anonId;
  }

  // ---------------------------------------------------------------- isLoggedIn, GET /logout

  /** What `isLoggedIn` does before token verification: redirect to the login page, or hand the
      token to verification, which then calls the protected handler. */
  datatype GuardOutcome = RedirectToLogin | VerifyToken(token: Option<string>)

  /** `isLoggedIn`: only a token cookie that is exactly the empty string redirects; a missing
      cookie goes on to verification like any other value. */
  function Guard(token: Option<string>): (g: GuardOutcome)
    ensures g == RedirectToLogin <==> token == Some("")
    ensures g.VerifyToken? ==> g.token == token
  {
    if token == Some("") then RedirectToLogin else VerifyToken(token)
  }

  /** The client's token cookie. */
  class Session {
    var token: Option<string>

    constructor ()
      ensures token == None
    {
      token := None;
    }

    /** A response that sets the token cookie stores it. */
    method Receive(answer: Answer)
      modifies this
      ensures token == if answer.setToken.Some? then answer.setToken else old(token)
    {
      if answer.setToken.Some? {
        token := answer.setToken;
      }
    }

    /** `GET /logout`: the token cookie becomes empty, so the next guarded request is redirected
        to the login page without reaching its handler. */
    method Logout() returns (response: Response)
      modifies this
      ensures token == Some("")
      ensures Guard(token) == RedirectToLogin
      ensures response == Redirect("/login")
    {
      token := Some("");
      response := Redirect("/login");
    }
  }
}
