/** The authentication routes: `/`, `/login` and `/logout`. */
module Auth {
  import opened Seqs
  import opened Tables
  import opened Web

  /** A request to `/login`. `Get` stands for every request that is not a
      POST and reaches the handler: GET, and HEAD, which the framework adds
      to every GET route and which takes the same branch. */
  datatype Request = Get | Post(form: map<string, string>)

  const LoginTemplate: string := "login.html"
  const LoginFailed: string := "Login gagal. Cek username/password!"

  /** `j` is the first user row named `username` and its stored password is
      exactly `password`: the credential check the login form performs. */
  ghost predicate Authenticates(users: seq<User>, username: string, password: string, j: int)
  {
    IsFirst(users, Named(username), j) && users[j].password == password
  }

  /** The dashboard a role lands on after logging in. */
  function RoleHome(role: string): Endpoint
  {
    if role == "admin" then AdminDashboard
    else if role == "guru" then GuruDashboard
    else SiswaDashboard
  }

  /** `/` always sends the visitor to the login page. */
  function Home(): (r: Reply<()>)
    ensures r.Redirect? && r.to == LoginPage
  {
    Redirect(LoginPage)
  }

  /** `/login`. */
  function Login(req: Request, users: seq<User>, session: Session): (x: Exchange<()>)
    // GET: show the form; nothing is looked up and the session is untouched
    ensures req.Get? ==> x == Exchange(Render(LoginTemplate, ()), session, [])
    // POST without both fields: rejected before any lookup
    ensures req.Post? && ("username" !in req.form || "password" !in req.form) ==>
              x == Exchange(BadRequest, session, [])
    // POST with both fields: success exactly when the first user with that
    // name has exactly that password
    ensures req.Post? && "username" in req.form && "password" in req.form ==>
              (x.reply.Redirect? <==>
                 exists j :: Authenticates(users, req.form["username"], req.form["password"], j))
    // on success that user is logged in and sent to their role's dashboard
    ensures req.Post? && "username" in req.form && "password" in req.form ==>
              forall j :: Authenticates(users, req.form["username"], req.form["password"], j) ==>
                && x.session == LoggedIn(users[j])
                && x.flashed == []
                && (users[j].role == "admin" ==> x.reply == Redirect(AdminDashboard))
                && (users[j].role == "guru" ==> x.reply == Redirect(GuruDashboard))
                && (users[j].role != "admin" && users[j].role != "guru" ==> x.reply == Redirect(SiswaDashboard))
    // on failure the message is flashed, the form shown again, and nobody new is logged in
    ensures req.Post? && "username" in req.form && "password" in req.form &&
            !(exists j :: Authenticates(users, req.form["username"], req.form["password"], j)) ==>
              x == Exchange(Render(LoginTemplate, ()), session, [LoginFailed])
  {
    match req
    case Get => Exchange(Render(LoginTemplate, ()), session, [])
    case Post(form) =>
      if "username" !in form || "password" !in form then
        Exchange(BadRequest, session, [])
      else
        var username := form["username"];
        var password := form["password"];
        FirstWhereSpec(users, Named(username));
        match FirstWhere(users, Named(username))
        case Some(user) =>
          if user.password == password then
            assert exists j :: Authenticates(users, username, password, j) by {
              var j :| IsFirst(users, Named(username), j) && users[j] == user;
              assert Authenticates(users, username, password, j);
            }
            Exchange(Redirect(RoleHome(user.role)), LoggedIn(user), [])
          else
            Exchange(Render(LoginTemplate, ()), session, [LoginFailed])
        case None =>
          Exchange(Render(LoginTemplate, ()), session, [LoginFailed])
  }

  /** When several users share a username only the first one's password is
      consulted: if the first namesake's password differs, a later namesake's
      password does not log anyone in. */
  lemma OnlyFirstNamesakeConsulted(users: seq<User>, i: int, j: int, password: string)
    requires 0 <= i < j < |users|
    requires users[i].username == users[j].username
    requires forall k :: 0 <= k < i ==> users[k].username != users[i].username
    requires users[i].password != password
    ensures var form := map["username" := users[j].username, "password" := password];
            var x := Login(Post(form), users, Anonymous);
            x.reply == Render(LoginTemplate, ()) && x.session == Anonymous && x.flashed == [LoginFailed]
  {
  }

  /** A successful login lands on a dashboard whose role gate the new session passes. */
  lemma LoginLandsOnOwnDashboard(req: Request, users: seq<User>, session: Session)
    requires Login(req, users, session).reply.Redirect?
    ensures var x := Login(req, users, session);
            && x.session.LoggedIn?
            && x.reply.to != LoginPage
            && (x.reply.to == GuruDashboard <==> x.session.user.role == "guru")
            && (x.reply.to == AdminDashboard <==> x.session.user.role == "admin")
  {
  }

  /** `/logout`: whoever was logged in no longer is, and the visitor is sent to
      the login page; an anonymous visitor is turned away by `login_required`. */
  function Logout(session: Session): (x: Exchange<()>)
    ensures x.session == Anonymous
    ensures x.flashed == []
    ensures session.LoggedIn? ==> x.reply == Redirect(LoginPage)
    ensures session.Anonymous? ==> x.reply == LoginRequired
  {
    match session
    case Anonymous => Exchange(LoginRequired, Anonymous, [])
    case LoggedIn(_) => Exchange(Redirect(LoginPage), Anonymous, [])
  }
}
