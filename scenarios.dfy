/** Properties that relate several route handlers of the Learnex server,
    proved from the handlers' contracts alone, as a client of `App` would
    see them. */
module ServerScenarios {

  import opened Wrappers
  import opened LearnexServer

  /** A second registration with the same e-mail is refused and leaves the
      first account as it was. */
  method RegisterTwiceIsRejected(app: App, name: string, email: string, password: string,
                                 other: string, salt: Salt, id1: Id, id2: Id, now: Timestamp)
      returns (first: Response, second: Response)
    requires app.Valid() && email !in app.users
    requires id1 != "" && id2 != "" && !IdTaken(app.users, id1)
    modifies app
    ensures app.Valid()
    ensures first == Redirect(DashboardPath)
    ensures second == Render(RegisterPage(Some(UserAlreadyExists)))
    ensures app.users == old(app.users)[email := User(id1, name, email, app.hash(password, salt), DefaultRole, now)]
    ensures app.session == Some(id1)
  {
    first := app.Register(name, email, password, None, salt, id1, now, false, false);
    second := app.Register(name, email, other, Some("instructor"), salt, id2, now, false, false);
  }

  /** A fresh account can log in with the password it registered with,
      also after logging out. */
  method RegisterLogoutLogin(app: App, name: string, email: string, password: string,
                             role: Option<string>, salt: Salt, id: Id, now: Timestamp)
      returns (r: Response)
    requires app.Valid() && email !in app.users
    requires id != "" && !IdTaken(app.users, id)
    modifies app
    ensures app.Valid()
    ensures r == Redirect(DashboardPath) && app.session == Some(id)
    ensures email in app.users && app.users[email].role == RoleOrDefault(role)
    ensures app.users[email].password == app.hash(password, salt)
  {
    var registered := app.Register(name, email, password, role, salt, id, now, false, false);
    assert registered == Redirect(DashboardPath);
    var loggedOut := app.Logout();
    r := app.Login(email, password, false);
  }

  /** Two enrollments in the same course leave two records, and the
      dashboard lists that course once, as it did after the first. */
  method EnrollTwice(app: App, course: Course, t1: Timestamp, t2: Timestamp)
      returns (r1: Response, r2: Response)
    requires app.Valid() && LoggedIn(app.session) && course in app.courses
    modifies app
    ensures app.Valid() && app.session == old(app.session) && app.courses == old(app.courses)
    ensures r1 == Json(200, JsonSuccess) && r2 == Json(200, JsonSuccess)
    ensures app.enrollments == old(app.enrollments) +
      [Enrollment(app.session.value, course.id, t1, 0), Enrollment(app.session.value, course.id, t2, 0)]
    ensures app.Dashboard(false).Render?
    ensures course in app.Dashboard(false).page.enrolledCourses
    ensures multiset(app.Dashboard(false).page.enrolledCourses)[course] == 1
  {
    r1 := app.Enroll(course.id, t1, false);
    ghost var once := app.enrollments;
    r2 := app.Enroll(course.id, t2, false);
    var uid := app.session.value;
    var e2 := Enrollment(uid, course.id, t2, 0);
    assert once[|once| - 1].userId == uid && once[|once| - 1].courseId == course.id;
    RepeatEnrollmentKeepsDashboard(app.courses, once, e2, uid);
    var shown := app.Dashboard(false).page.enrolledCourses;
    assert course in shown;
    DistinctHasNoRepeats(shown, course);
  }

  lemma DistinctHasNoRepeats(cs: seq<Course>, c: Course)
    requires DistinctCourseIds(cs) && c in cs
    ensures multiset(cs)[c] == 1
  {
    var k :| 0 <= k < |cs| && cs[k] == c;
    assert cs == cs[..k] + [c] + cs[k + 1..];
    assert forall i :: 0 <= i < k ==> cs[..k][i].id != c.id;
    assert forall j :: k < j < |cs| ==> cs[j].id != c.id;
    assert c !in cs[..k] && c !in cs[k + 1..];
    calc {
      multiset(cs)[c];
      multiset(cs[..k])[c] + multiset([c])[c] + multiset(cs[k + 1..])[c];
      1;
    }
  }

  /** After logging out, the guarded routes send the browser to the login
      page and change nothing. */
  method LogoutLocksGuardedRoutes(app: App, courseId: Id, now: Timestamp)
      returns (enrolled: Response)
    requires app.Valid()
    modifies app
    ensures app.Valid() && app.session == None
    ensures enrolled == Redirect(LoginPath)
    ensures app.enrollments == old(app.enrollments) && app.users == old(app.users)
    ensures app.courses == old(app.courses)
    ensures app.Dashboard(false) == Redirect(LoginPath)
  {
    var out := app.Logout();
    enrolled := app.Enroll(courseId, now, false);
  }

  /** Seeding a catalog that already holds courses does nothing, so running
      the start-up seeding twice inserts the sample courses once. */
  method SeedTwice(app: App, samples: seq<Course>)
    requires app.Valid() && app.courses == [] && samples != [] && DistinctCourseIds(samples)
    modifies app
    ensures app.Valid() && app.courses == samples
  {
    app.SeedSampleData(samples, false, false);
    app.SeedSampleData(samples, false, false);
  }
}
