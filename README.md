# Learnex server core in Dafny

Learnex is a small server-rendered course-enrollment site. Its server keeps
a users table, a course catalog and a list of enrollment records in a
document store. It also keeps one session per browser, which holds the id
of the logged-in user. This project models that state and the route
handlers that read and change it. It also models the connection-string
normalisation done before the store is contacted.

- `wrappers.dfy`, module `Wrappers`: the `Option` type.
- `config_db.dfy`, module `ConfigDb`: `uri.replace(/\/+$/, '')` as the
  recursive function `StripTrailingSlashes`, plus the URI fallback.
- `server.dfy`, module `LearnexServer`: the records, the `requireAuth`
  guard, the store lookups and the dashboard join as functions, and class
  `App`. `App` holds `users: map<string, User>` (keyed by e-mail),
  `courses: seq<Course>`, `enrollments: seq<Enrollment>` and
  `session: Option<Id>`. Each route handler is a method (state-changing)
  or a function (read-only) of `App` that returns a `Response`: a
  redirect, a rendered page with its data, or JSON.
- `scenarios.dfy`, module `ServerScenarios`: properties that involve
  several handlers, written as client methods of `App`.

Modelling choices:

- Every store callback that can fail gets an explicit boolean flag
  (`lookupFails`, `insertFails`, ...).
- bcrypt becomes the two function-valued fields `App.hash` and
  `App.compare`. They are otherwise unconstrained. The one fact assumed of
  them is `HashSound`: `compare(p, hash(p, s))` holds for every password
  `p` and salt `s`. The constructor requires it and `Valid()` keeps it.
- The clock, the store's `_id` generator and bcrypt's random salt become
  parameters (`now`, `newId`, `salt`).
- The catalog is a sequence in the store's listing order, so `.limit(6)`
  on the home page takes a definite prefix. The store leaves the order of
  a `$in` query's result unspecified; the model lists it in catalog order.
- `App.Valid()` is the object invariant:
  - every user is stored under its own e-mail (the store's unique index on
    `email`, models/database.js:10);
  - user ids are unique and non-empty;
  - course ids are distinct;
  - a session, when present, names an existing user.
- `req.session.userId` is tested with JavaScript truthiness. `LoggedIn`
  therefore means "present and not the empty string".
- Passwords are hashed with bcrypt and checked with `bcrypt.compare`,
  never compared as plain text.
- There is one users table for every kind of account.
- The guard checks only for a user id in the session. The server has no
  admin login, no role guard and no instructor dashboard.

## Model

| member | source | states |
|---|---|---|
| `ConfigDb.ConnectionUri` | config/db.js:5-6 | a set, non-empty `MONGO_URI` is used with its trailing slashes stripped; a missing or empty one gives the default URI unchanged |
| `ConfigDb.StripTrailingSlashes` | config/db.js:6 | the normalised URI is a prefix of the input and never ends in `/` |
| `ConfigDb.StripRemovesOnlySlashes` | config/db.js:6 | input == result + the removed suffix, and that suffix consists only of `/` |
| `ConfigDb.StripCharacterisation` | config/db.js:6 | whenever the input is `p` + a run of `/` and `p` does not end in `/`, the result is exactly `p` (the maximal trailing run is removed) |
| `ConfigDb.StripUnchangedWithoutTrailingSlash` | config/db.js:6 | an input that does not end in `/` is returned unchanged |
| `ConfigDb.StripIdempotent` | config/db.js:6 | normalising twice gives the same result as normalising once |
| `LearnexServer.SessionTruthiness` | server.js:29 | under the invariant, `req.session.userId` is truthy exactly when it is present, because stored `_id`s are never empty |
| `LearnexServer.RequireAuth` | server.js:28-34 | the handler runs exactly when the session holds a truthy user id; otherwise the response is a redirect to `/login` |
| `LearnexServer.RoleOrDefault` | server.js:182 | the given role is kept when it is present and non-empty; otherwise the role is `"student"`; the role is never empty |
| `LearnexServer.UserById` | server.js:262-269 | a user is found exactly when some record has that `_id`; the one found has that id and is stored under its own e-mail |
| `LearnexServer.FindCourse` | server.js:93-100 | a course is found exactly when some catalog entry has that id, and the one found is a catalog entry with that id |
| `LearnexServer.CoursesWithIds` | server.js:221-226 | the `$in` query returns exactly the catalog courses whose id is in the list; it is no longer than the catalog, and has no repeated course when catalog ids are distinct |
| `LearnexServer.CourseIdsOf` | server.js:212-220 | the mapped ids are exactly the course ids of the user's enrollment records, with no more entries than records (the exact per-record count is `CourseIdsOfAppend`) |
| `LearnexServer.EnrolledCourses` | server.js:212-226 | a course is on the dashboard exactly when it is in the catalog and some enrollment record of the user names it; no course is listed twice |
| `LearnexServer.CourseIdsOfAppend` | server.js:212-220 | a new record adds its course id to its owner's list, even when the id is already there, and adds nothing to anyone else's list |
| `LearnexServer.CoursesWithSameIds` | server.js:220-222 | the `$in` result depends only on which ids occur, not on how often |
| `LearnexServer.RepeatEnrollmentKeepsDashboard` | server.js:240-248 | enrolling again in a course already enrolled in adds a record but leaves every user's dashboard course list unchanged |
| `LearnexServer.EnrollmentRecordsAreNotMerged` | server.js:241-248 | a repeated enrollment still lengthens the user's course-id list by one (no deduplication) |
| `LearnexServer.App.constructor` | models/database.js:5-10 | the stores start empty, no one is logged in, and the invariant (including the hashing assumption) holds |
| `LearnexServer.App.Valid` | models/database.js:10 | the object invariant: users are stored under their own e-mail (the unique index), `_id`s are unique and non-empty, course ids are distinct, and a session names a stored user; under it a logged-in session always resolves to a user record |
| `LearnexServer.App.CurrentUser` | server.js:46 | with no truthy session the user is null; otherwise it is the stored user with the session's id |
| `LearnexServer.App.Home` | server.js:37-62 | the landing page shows the first min(6, catalog size) courses of the catalog and the current user; any store error gives an empty list and no user |
| `LearnexServer.App.AllCourses` | server.js:64-89 | the course list page shows the whole catalog and the current user; any store error gives an empty list and no user |
| `LearnexServer.App.CourseDetail` | server.js:91-115 | a failed course lookup renders the 500 page; an absent id renders the 404 page; when the course exists, a failed user lookup renders the 500 page and otherwise the detail page shows that course |
| `LearnexServer.App.Dashboard` | server.js:209-238 | with no truthy session, or on a store error, the response is a redirect to `/login`; otherwise the page shows the current user and exactly the enrolled courses, each once |
| `LearnexServer.App.Login` | server.js:127-145 | login succeeds exactly when the lookup succeeds, the e-mail is known and `compare` accepts the password; success sets the session to that user's id and redirects to `/dashboard`; the three failures give the same "Invalid credentials" page and keep the session; only the session can change |
| `LearnexServer.App.Register` | server.js:157-207 | a failed lookup gives "Registration failed"; an existing e-mail gives "User already exists"; a failed insert (a store error, or a generated `_id` already taken, which the store's unique `_id` index refuses) gives "Registration failed"; in all three cases users and session are unchanged; otherwise exactly one user is added under the e-mail with password `hash(password, salt)`, which `compare` accepts, and role `role` or `"student"`; the session is set to the new id and the response redirects to `/dashboard` |
| `LearnexServer.App.Enroll` | server.js:240-254 | with no truthy session, redirects to `/login` and appends nothing; a store failure gives the 500 JSON error and appends nothing; otherwise exactly one record `{userId: session, courseId, progress: 0}` is appended with no duplicate check and JSON success is returned; users and session never change |
| `LearnexServer.App.Logout` | server.js:256-259 | the session is cleared, whatever it held, and the response redirects to `/` |
| `LearnexServer.App.SeedSampleData` | server.js:272-357 | the sample courses are inserted only when counting succeeds, the count is 0 and the batch insert succeeds; otherwise the catalog is unchanged |
| `ServerScenarios.RegisterTwiceIsRejected` | server.js:162-172 | registering the same e-mail twice: the first call succeeds and the second, with another password and role, is rejected with "User already exists"; the users table holds exactly the first account (its id, name, first password's hash, default role and timestamp) and the session still names it |
| `ServerScenarios.RegisterLogoutLogin` | server.js:127-207 | after registering and logging out, logging in with the same e-mail and password succeeds and sets the session to the new id |
| `ServerScenarios.EnrollTwice` | server.js:240-253 | two enrollments in one course leave two records, and the dashboard lists that course exactly once |
| `ServerScenarios.LogoutLocksGuardedRoutes` | server.js:28-34 | after logout, enroll and dashboard redirect to `/login`; users, catalog and enrollments are unchanged |
| `ServerScenarios.SeedTwice` | server.js:274-275 | running the seeding twice on an empty catalog inserts the sample courses once |

## Left out

- Template rendering (`ejs.renderFile`, `res.render`) is framework I/O. A rendered page is modelled only as a `Page` value carrying the data given to the template. Status codes other than 404 and 500 are not modelled. The "Error rendering page" branches (server.js:119-122, 148-152, 188-192) are not modelled either.
- GET `/login` and GET `/register` are not modelled. They only render empty forms.
- bcrypt internals are not modelled. This covers the cost factor 10 and bcrypt's use of at most 72 bytes of a password. The model keeps only the `HashSound` assumption about `hash` and `compare`.
- `LearnexServer.App.Register`: does not model `bcrypt.hash` throwing, or `name`, `email` or `password` being absent from the request body. Form fields are modelled as strings.
- `LearnexServer.App.Login`: does not model an absent `email` or `password` field, for the same reason.
- NeDB persistence is not modelled: files, autoload, callbacks and the promise wrapping. The stores are in-memory fields, and each handler is one atomic step.
- The check-then-insert race in registration is not modelled. Handlers run one at a time, so the model cannot show two concurrent registrations of one e-mail.
- Only one browser session is modelled. Session-store expiry and cookies are not in the model.
- `createdAt` and `enrolledAt` come from the `now` parameter. The clock itself is not modelled.
- The contents of the sample courses (server.js:277-350) are static seed data. They are passed in as `samples`.
- Mongoose connection handling is network I/O and is not modelled (config/db.js:3-17). Only the URI choice and its normalisation are modelled.
- The Mongoose schemas in models/Student.js and models/Instructor.js are not modelled. They are declarative, and server.js does not use them.
- The client-side script public/js/main.js handles the DOM, `fetch` and timers. It is UI code and is not modelled.
- Logging to the console, and server start-up (`app.listen`), are not modelled.
