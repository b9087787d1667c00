/** The Learnex web server: a users table keyed by e-mail, a course catalog,
    an append-only list of enrollments and one browser session, with the
    route handlers that read and change them.

    The document store's callbacks become explicit `...Fails` flags, the
    password-hashing library becomes the two function-valued fields `hash`
    and `compare` of `App`, and the clock, the store's id generator and the
    random salt become parameters. */
module LearnexServer {

  import opened Wrappers

  type Id = string
  type Salt = nat
  type Timestamp = int

  datatype User = User(
    id: Id,
    name: string,
    email: string,
    password: string,  // the bcrypt digest, never the plain text
    role: string,
    createdAt: Timestamp)

  datatype Course = Course(
    id: Id,
    title: string,
    description: string,
    instructor: string,
    duration: string,
    level: string,
    price: int,
    image: string,
    category: string,
    lessons: nat,
    students: nat)

  datatype Enrollment = Enrollment(userId: Id, courseId: Id, enrolledAt: Timestamp, progress: nat)

  /** The pages the handlers render, with the data handed to the template. */
  datatype Page =
    | HomePage(courses: seq<Course>, user: Option<User>)
    | CourseListPage(courses: seq<Course>, user: Option<User>)
    | CourseDetailPage(course: Course, user: Option<User>)
    | NotFoundPage                 // rendered with status 404
    | ErrorPage(message: string)   // rendered with status 500
    | LoginPage(error: Option<string>)
    | RegisterPage(error: Option<string>)
    | DashboardPage(user: Option<User>, enrolledCourses: seq<Course>)

  datatype JsonBody = JsonSuccess | JsonError(error: string)

  datatype Response =
    | Redirect(location: string)
    | Render(page: Page)
    | Json(status: nat, body: JsonBody)

  const LoginPath := "/login"
  const DashboardPath := "/dashboard"
  const HomePath := "/"

  const InvalidCredentials := "Invalid credentials"
  const UserAlreadyExists := "User already exists"
  const RegistrationFailed := "Registration failed"
  const EnrollmentFailed := "Enrollment failed"
  const InternalServerError := "Internal server error"

  const DefaultRole := "student"
  /** The landing page shows at most this many courses. */
  const HomeLimit := 6

  // ---------------------------------------------------------------------
  // Session guard

  /** JavaScript truthiness of `req.session.userId`: of the values the
      session can hold, only `undefined` and "" are falsy. */
  predicate LoggedIn(session: Option<Id>) {
    session.Some? && session.value != ""
  }

  /** The `requireAuth` middleware: `None` lets the handler run, otherwise
      the response that is sent instead. */
  function RequireAuth(session: Option<Id>): (denied: Option<Response>)
    ensures denied.None? <==> LoggedIn(session)
    ensures denied.Some? ==> denied.value == Redirect(LoginPath)
  {
    if LoggedIn(session) then None else Some(Redirect(LoginPath))
  }

  // ---------------------------------------------------------------------
  // Password hashing

  /** The one fact assumed of the hashing library: a password matches every
      digest made from it, whatever the salt. */
  ghost predicate HashSound(hash: (string, Salt) -> string, compare: (string, string) -> bool) {
    forall p, s :: compare(p, hash(p, s))
  }

  // ---------------------------------------------------------------------
  // Users table

  /** The unique index on `email`: every record is stored under its e-mail. */
  predicate UsersKeyedByEmail(users: map<string, User>) {
    forall e :: e in users ==> users[e].email == e
  }

  /** The store's unique `_id`. */
  predicate UserIdsUnique(users: map<string, User>) {
    forall e1, e2 :: e1 in users && e2 in users && users[e1].id == users[e2].id ==> e1 == e2
  }

  predicate UserIdsNonEmpty(users: map<string, User>) {
    forall e :: e in users ==> users[e].id != ""
  }

  predicate UsersWellFormed(users: map<string, User>) {
    UsersKeyedByEmail(users) && UserIdsUnique(users) && UserIdsNonEmpty(users)
  }

  predicate IdTaken(users: map<string, User>, id: Id) {
    exists e :: e in users && users[e].id == id
  }

  /** `role || 'student'`: a missing or empty role becomes "student". */
  function RoleOrDefault(role: Option<string>): (r: string)
    ensures r != ""
    ensures role.Some? && role.value != "" ==> r == role.value
    ensures role.None? || role.value == "" ==> r == DefaultRole
  {
    if role.Some? && role.value != "" then role.value else DefaultRole
  }

  /** `getUserById`: the record whose `_id` is `id`, if there is one. */
  function UserById(users: map<string, User>, id: Id): (found: Option<User>)
    requires UserIdsUnique(users)
    ensures found.Some? <==> IdTaken(users, id)
    ensures found.Some? ==> found.value.id == id && found.value in users.Values
    ensures UsersKeyedByEmail(users) && found.Some? ==> users[found.value.email] == found.value
  {
    if IdTaken(users, id) then
      var e :| e in users && users[e].id == id;
      Some(users[e])
    else
      None
  }

  // ---------------------------------------------------------------------
  // Course catalog, in the order the store lists it

  predicate DistinctCourseIds(cs: seq<Course>) {
    forall i, j :: 0 <= i < j < |cs| ==> cs[i].id != cs[j].id
  }

  /** `Course.findOne({ _id: id })`. */
  function FindCourse(cs: seq<Course>, id: Id): (found: Option<Course>)
    ensures found.Some? <==> exists i :: 0 <= i < |cs| && cs[i].id == id
    ensures found.Some? ==> found.value in cs && found.value.id == id
  {
    if cs == [] then None
    else if cs[0].id == id then Some(cs[0])
    else
      var rest := FindCourse(cs[1..], id);
      assert rest.Some? ==> exists i :: 0 <= i < |cs| && cs[i].id == id by {
        if rest.Some? {
          var k :| 0 <= k < |cs| - 1 && cs[1..][k].id == id;
          assert cs[k + 1].id == id;
        }
      }
      rest
  }

  /** `Course.find({ _id: { $in: ids } })`: the catalog's courses whose id
      occurs in `ids`, each once. The store does not specify the order of
      the result; the model lists them in catalog order. */
  function CoursesWithIds(cs: seq<Course>, ids: seq<Id>): (r: seq<Course>)
    ensures forall c :: c in r <==> c in cs && c.id in ids
    ensures |r| <= |cs|
    ensures DistinctCourseIds(cs) ==> DistinctCourseIds(r)
  {
    if cs == [] then []
    else
      var head := if cs[0].id in ids then [cs[0]] else [];
      var rest := CoursesWithIds(cs[1..], ids);
      assert cs == [cs[0]] + cs[1..];
      assert DistinctCourseIds(cs) ==> DistinctCourseIds(head + rest) by {
        if DistinctCourseIds(cs) {
          DistinctAfterHead(cs, head, rest);
        }
      }
      head + rest
  }

  /** Prepending at most the catalog's first course to a result drawn from
      the rest of a catalog with distinct ids keeps the ids distinct. */
  lemma DistinctAfterHead(cs: seq<Course>, head: seq<Course>, rest: seq<Course>)
    requires cs != [] && DistinctCourseIds(cs) && DistinctCourseIds(rest)
    requires head == [] || head == [cs[0]]
    requires forall c :: c in rest ==> c in cs[1..]
    ensures DistinctCourseIds(head + rest)
  {
    forall c | c in rest ensures c.id != cs[0].id {
      var k :| 0 <= k < |cs| - 1 && cs[1..][k] == c;
      assert cs[k + 1] == c;
    }
    DistinctConcat(head, rest);
  }

  lemma DistinctConcat(a: seq<Course>, b: seq<Course>)
    requires DistinctCourseIds(a) && DistinctCourseIds(b)
    requires forall x, y :: x in a && y in b ==> x.id != y.id
    ensures DistinctCourseIds(a + b)
  {
  }

  /** `Enrollment.find({ userId: uid })` followed by `.map(e => e.courseId)`:
      one entry per enrollment record of `uid`, repeats kept. */
  function CourseIdsOf(es: seq<Enrollment>, uid: Id): (ids: seq<Id>)
    ensures |ids| <= |es|
    ensures forall cid :: cid in ids <==>
      exists i :: 0 <= i < |es| && es[i].userId == uid && es[i].courseId == cid
  {
    if es == [] then []
    else
      var rest := CourseIdsOf(es[1..], uid);
      assert es == [es[0]] + es[1..];
      (if es[0].userId == uid then [es[0].courseId] else []) + rest
  }

  /** The dashboard's enrolled courses of user `uid`. */
  function EnrolledCourses(cs: seq<Course>, es: seq<Enrollment>, uid: Id): (r: seq<Course>)
    ensures forall c :: c in r <==>
      c in cs && exists i :: 0 <= i < |es| && es[i].userId == uid && es[i].courseId == c.id
    ensures DistinctCourseIds(cs) ==> DistinctCourseIds(r)
  {
    CoursesWithIds(cs, CourseIdsOf(es, uid))
  }

  /** A new enrollment record adds exactly its course id to the user's list
      (and nothing to anybody else's), even if that id is already there. */
  lemma {:induction false} CourseIdsOfAppend(es: seq<Enrollment>, e: Enrollment, uid: Id)
    ensures CourseIdsOf(es + [e], uid) ==
      CourseIdsOf(es, uid) + (if e.userId == uid then [e.courseId] else [])
  {
    if es != [] {
      assert (es + [e])[1..] == es[1..] + [e];
      CourseIdsOfAppend(es[1..], e, uid);
    } else {
      assert ([] + [e])[1..] == [];
    }
  }

  /** The `$in` query depends only on which ids occur, not how often. */
  lemma {:induction false} CoursesWithSameIds(cs: seq<Course>, a: seq<Id>, b: seq<Id>)
    requires forall x :: x in a <==> x in b
    ensures CoursesWithIds(cs, a) == CoursesWithIds(cs, b)
  {
    if cs != [] {
      CoursesWithSameIds(cs[1..], a, b);
    }
  }

  /** Enrolling again in a course the user is already enrolled in adds a
      record but does not change the dashboard's course list. */
  lemma RepeatEnrollmentKeepsDashboard(cs: seq<Course>, es: seq<Enrollment>, e: Enrollment, uid: Id)
    requires exists i :: 0 <= i < |es| && es[i].userId == e.userId && es[i].courseId == e.courseId
    ensures EnrolledCourses(cs, es + [e], uid) == EnrolledCourses(cs, es, uid)
  {
    CourseIdsOfAppend(es, e, uid);
    var before, after := CourseIdsOf(es, uid), CourseIdsOf(es + [e], uid);
    if e.userId == uid {
      assert e.courseId in before;
    }
    assert forall x :: x in after <==> x in before;
    CoursesWithSameIds(cs, after, before);
  }

  /** Every record counts: a repeated enrollment lengthens the user's
      course-id list by one. */
  lemma EnrollmentRecordsAreNotMerged(es: seq<Enrollment>, e: Enrollment)
    ensures |CourseIdsOf(es + [e], e.userId)| == |CourseIdsOf(es, e.userId)| + 1
  {
    CourseIdsOfAppend(es, e, e.userId);
  }

  // ---------------------------------------------------------------------
  // The server's state and route handlers

  class App {
    const hash: (string, Salt) -> string
    const compare: (string, string) -> bool

    var users: map<string, User>
    var courses: seq<Course>
    var enrollments: seq<Enrollment>
    var session: Option<Id>

    /** The object invariant: the unique e-mail index, unique non-empty
        `_id`s, distinct course ids, and a session that names a stored user. */
    ghost predicate Valid()
      reads this
      ensures Valid() ==> UserIdsUnique(users) && (LoggedIn(session) ==> UserById(users, session.value).Some?)
    {
      && HashSound(hash, compare)
      && UsersWellFormed(users)
      && DistinctCourseIds(courses)
      && (session.Some? ==> IdTaken(users, session.value))
    }

    /** Empty stores and no one logged in. */
    constructor(hash: (string, Salt) -> string, compare: (string, string) -> bool)
      requires HashSound(hash, compare)
      ensures Valid()
      ensures this.hash == hash && this.compare == compare
      ensures users == map[] && courses == [] && enrollments == [] && session == None
    {
      this.hash := hash;
      this.compare := compare;
      users := map[];
      courses := [];
      enrollments := [];
      session := None;
    }

    /** The user shown beside a public page; only looked up when logged in. */
    function CurrentUser(): (u: Option<User>)
      reads this
      requires Valid()
      ensures !LoggedIn(session) ==> u == None
      ensures LoggedIn(session) ==> u.Some? && u.value.id == session.value && u.value in users.Values
    {
      if LoggedIn(session) then UserById(users, session.value) else None
    }

    /** GET `/`: at most `HomeLimit` courses from the front of the catalog;
        any store error renders the page with no courses and no user. */
    function Home(findFails: bool, userFails: bool): (r: Response)
      reads this
      requires Valid()
      ensures r.Render? && r.page.HomePage?
      ensures findFails || (LoggedIn(session) && userFails) ==> r.page == HomePage([], None)
      ensures !findFails && !(LoggedIn(session) && userFails) ==>
        && r.page.courses <= courses
        && |r.page.courses| == (if |courses| < HomeLimit then |courses| else HomeLimit)
        && r.page.user == CurrentUser()
    {
      if findFails || (LoggedIn(session) && userFails) then Render(HomePage([], None))
      else
        var n := if |courses| < HomeLimit then |courses| else HomeLimit;
        Render(HomePage(courses[..n], CurrentUser()))
    }

    /** GET `/courses`: the whole catalog, with the same fallback. */
    function AllCourses(findFails: bool, userFails: bool): (r: Response)
      reads this
      requires Valid()
      ensures r.Render? && r.page.CourseListPage?
      ensures findFails || (LoggedIn(session) && userFails) ==> r.page == CourseListPage([], None)
      ensures !findFails && !(LoggedIn(session) && userFails) ==>
        r.page.courses == courses && r.page.user == CurrentUser()
    {
      if findFails || (LoggedIn(session) && userFails) then Render(CourseListPage([], None))
      else Render(CourseListPage(courses, CurrentUser()))
    }

    /** GET `/course/:id`: 404 when no course has that id, 500 when a store
        call fails, otherwise the detail page of that course. */
    function CourseDetail(id: Id, findFails: bool, userFails: bool): (r: Response)
      reads this
      requires Valid()
      ensures findFails ==> r == Render(ErrorPage(InternalServerError))
      ensures !findFails && (forall c :: c in courses ==> c.id != id) ==> r == Render(NotFoundPage)
      ensures !findFails && (exists c :: c in courses && c.id == id) ==>
        if LoggedIn(session) && userFails then r == Render(ErrorPage(InternalServerError))
        else
          && r.Render? && r.page.CourseDetailPage?
          && r.page.course in courses && r.page.course.id == id
          && r.page.user == CurrentUser()
    {
      if findFails then Render(ErrorPage(InternalServerError))
      else
        match FindCourse(courses, id)
        case None => Render(NotFoundPage)
        case Some(course) =>
          if LoggedIn(session) && userFails then Render(ErrorPage(InternalServerError))
          else Render(CourseDetailPage(course, CurrentUser()))
    }

    /** GET `/dashboard`: behind `requireAuth`; the logged-in user and exactly
        the catalog courses named by that user's enrollment records. Any
        store error redirects to the login page. */
    function Dashboard(storeFails: bool): (r: Response)
      reads this
      requires Valid()
      ensures !LoggedIn(session) || storeFails ==> r == Redirect(LoginPath)
      ensures LoggedIn(session) && !storeFails ==>
        && r.Render? && r.page.DashboardPage?
        && r.page.user == CurrentUser()
        && DistinctCourseIds(r.page.enrolledCourses)
        && forall c :: c in r.page.enrolledCourses <==>
             c in courses &&
             exists i :: 0 <= i < |enrollments| &&
               enrollments[i].userId == session.value && enrollments[i].courseId == c.id
    {
      match RequireAuth(session)
      case Some(denied) => denied
      case None =>
        if storeFails then Redirect(LoginPath)
        else Render(DashboardPage(CurrentUser(), EnrolledCourses(courses, enrollments, session.value)))
    }

    /** POST `/login`: an unknown e-mail, a failed lookup and a wrong password
        all give the same "Invalid credentials" page and keep the session;
        otherwise the session records the user's id. */
    method Login(email: string, password: string, lookupFails: bool) returns (r: Response)
      requires Valid()
      modifies this`session
      ensures Valid()
      ensures var accepted := !lookupFails && email in users && compare(password, users[email].password);
        && (accepted ==> session == Some(users[email].id) && r == Redirect(DashboardPath))
        && (!accepted ==> session == old(session) && r == Render(LoginPage(Some(InvalidCredentials))))
    {
      if lookupFails || email !in users {
        r := Render(LoginPage(Some(InvalidCredentials)));
        return;
      }
      var user := users[email];
      var isValid := compare(password, user.password);
      if !isValid {
        r := Render(LoginPage(Some(InvalidCredentials)));
        return;
      }
      session := Some(user.id);
      r := Redirect(DashboardPath);
    }

    /** POST `/register`. `newId` is the `_id` the store generates for the
        record and `salt` the random salt of `bcrypt.hash`. Inserting fails
        on a store error (`insertFails`). The branch for a `newId` that is
        already taken stands for the store's guarantee of a fresh `_id`: its
        unique `_id` index refuses such an insert, so a generated id never
        displaces an existing user. */
    method Register(name: string, email: string, password: string, role: Option<string>,
                    salt: Salt, newId: Id, now: Timestamp,
                    lookupFails: bool, insertFails: bool) returns (r: Response)
      requires Valid()
      requires newId != ""
      modifies this`users, this`session
      ensures Valid()
      ensures lookupFails ==>
        r == Render(RegisterPage(Some(RegistrationFailed))) &&
        users == old(users) && session == old(session)
      ensures !lookupFails && email in old(users) ==>
        r == Render(RegisterPage(Some(UserAlreadyExists))) &&
        users == old(users) && session == old(session)
      ensures !lookupFails && email !in old(users) && (insertFails || IdTaken(old(users), newId)) ==>
        r == Render(RegisterPage(Some(RegistrationFailed))) &&
        users == old(users) && session == old(session)
      ensures !lookupFails && email !in old(users) && !insertFails && !IdTaken(old(users), newId) ==>
        && users == old(users)[email := User(newId, name, email, hash(password, salt), RoleOrDefault(role), now)]
        && compare(password, users[email].password)
        && session == Some(newId)
        && r == Redirect(DashboardPath)
    {
      if lookupFails {
        r := Render(RegisterPage(Some(RegistrationFailed)));
        return;
      }
      if email in users {
        r := Render(RegisterPage(Some(UserAlreadyExists)));
        return;
      }
      var hashedPassword := hash(password, salt);
      var newUser := User(newId, name, email, hashedPassword, RoleOrDefault(role), now);
      if insertFails || IdTaken(users, newId) {
        r := Render(RegisterPage(Some(RegistrationFailed)));
        return;
      }
      users := users[email := newUser];
      assert users[email].id == newId;
      session := Some(newId);
      r := Redirect(DashboardPath);
    }

    /** POST `/enroll/:courseId`: behind `requireAuth`; appends one record with
        progress 0, without checking for an earlier enrollment or for the
        course's existence. */
    method Enroll(courseId: Id, now: Timestamp, insertFails: bool) returns (r: Response)
      requires Valid()
      modifies this`enrollments
      ensures Valid()
      ensures !LoggedIn(session) ==> r == Redirect(LoginPath) && enrollments == old(enrollments)
      ensures LoggedIn(session) && insertFails ==>
        r == Json(500, JsonError(EnrollmentFailed)) && enrollments == old(enrollments)
      ensures LoggedIn(session) && !insertFails ==>
        r == Json(200, JsonSuccess) &&
        enrollments == old(enrollments) + [Enrollment(session.value, courseId, now, 0)]
    {
      match RequireAuth(session)
      case Some(denied) =>
        r := denied;
      case None =>
        var enrollment := Enrollment(session.value, courseId, now, 0);
        if insertFails {
          r := Json(500, JsonError(EnrollmentFailed));
          return;
        }
        enrollments := enrollments + [enrollment];
        r := Json(200, JsonSuccess);
    }

    /** GET `/logout`: ends the session, whatever it held. */
    method Logout() returns (r: Response)
      requires Valid()
      modifies this`session
      ensures Valid()
      ensures session == None && !LoggedIn(session)
      ensures r == Redirect(HomePath)
    {
      session := None;
      r := Redirect(HomePath);
    }

    /** `initializeSampleData`: the sample courses are inserted only when
        counting succeeds and finds no course; the insert of the whole batch
        either succeeds or changes nothing. */
    method SeedSampleData(samples: seq<Course>, countFails: bool, insertFails: bool)
      requires Valid()
      requires DistinctCourseIds(samples)
      modifies this`courses
      ensures Valid()
      ensures countFails || |old(courses)| > 0 || insertFails ==> courses == old(courses)
      ensures !countFails && |old(courses)| == 0 && !insertFails ==> courses == samples
    {
      if countFails || |courses| > 0 {
        return;
      }
      if !insertFails {
        courses := samples;
      }
    }
  }

  /** The store's `_id`s are never empty, so under the invariant the
      truthiness test of `requireAuth` is the same as "a session user id is
      present". */
  lemma SessionTruthiness(app: App)
    requires app.Valid()
    ensures LoggedIn(app.session) <==> app.session.Some?
  {
  }
}
