# Placement portal: account and drive approval workflow

A Dafny model of the approval workflow of a role-based placement portal.
Students and companies register. An administrator approves companies and
approves or rejects the placement drives that companies create, and can
activate or deactivate users. Access to each route is decided by the role
recorded in the client's session at login.

The model is a sequential state machine:

- `Models` holds the three tables (`User`, `Drive`, `Application`) and their
  column defaults. A `Store` keeps each table as a sequence. Rows are never
  deleted and ids are handed out as 1, 2, 3, …, so the row with id `k` is
  element `k - 1` and the next fresh id is the length plus one. `Valid` is the
  store-validity predicate: emails are unique, there is at most one admin,
  every drive has a known status, and every drive is owned by a company user.
- `Web` holds the `Session` (empty, or the `user_id`/`role`/`approved` triple
  written at login). It also holds the answer of a route (`Redirect`,
  `Render`, `Text` or `BadRequest`, with at most one flashed message) and the
  `Hasher`. The `Hasher` carries the two password functions as uninterpreted
  parameters.
- `Auth`, `Admin`, `Company` and `Student` hold one pure function per route.
  Each returns an `Effect`: the new store, the new session and the answer.
- `Bootstrap` models the startup step that seeds the admin account.
- `Portal` dispatches a `Request` to its route (`Step`) and runs sequences of
  requests (`Run`). It proves the invariants of the whole machine.
- `Scenarios` proves the end-to-end runs: company onboarding, and a student
  who logs in immediately after registering.

Roles are plain strings, as in the source: registration accepts any role
other than `"admin"`, and only `"admin"`, `"company"` and `"student"` have a
meaning for the route guards. A missing form field is a `BadRequest`, because
indexing the form with a missing key aborts the request with status 400.

The non-null columns (user name, email, password and role, drive title and
description) are plain fields of the datatypes, so they always hold a value.
No route checks that a drive's owner exists or is a company. `Valid` states
this as an invariant: `create_drive` takes the owner from a session that login
established for a company user, and roles never change.

The model keeps these behaviours of the code:

- `approve_company` sets `approved` on any existing user. It does not check
  that the user is a company (app.py:44-47).
- `create_drive` checks only the session role, not the approval flag
  (app.py:62-63). Because login never gives an unapproved company a session,
  every company session that login wrote is approved anyway
  (`Portal.ReachableStatesKeepInvariant`). This relies on the session cookie
  not being forged; see "## Left out".
- app.py:4 imports a class `PlacementDrive`, but models.py:17 defines it as
  `Drive`. The model has one `Drive` entity with the columns of models.py:17-27.

## Model

| member | source | states |
|---|---|---|
| `Models.NewUser` | models.py:6-15 | a new user is active, and is approved only when approval is supplied as true (the default is false) |
| `Models.NewDrive` | models.py:17-27 | a new drive starts `Pending`, with no eligibility and no deadline |
| `Models.NewApplication` | models.py:29-37 | a new application starts `Applied` and is stamped with the creation time |
| `Models.FindByEmail` | app.py:102 | the lookup returns the lowest id whose email matches, and nothing exactly when no user holds the email |
| `Models.FindByEmailUnique` | models.py:10 | with unique emails, looking up a user's email finds that user |
| `Models.CountRole` | app.py:168-169 | the count never exceeds the number of users, and is zero exactly when no user has the role |
| `Models.WithRole` | app.py:36 | the filtered list holds exactly the users with the role, and its length is their count |
| `Models.RoleCountsWithinTotal` | app.py:168-170 | the counts of two different roles add up to at most the number of users |
| `Models.CountRoleSameRoles` | app.py:168-170 | the count depends only on the users' roles, so updates of other fields keep it |
| `Web.DashboardFor` | app.py:113-118 | admin goes to the admin dashboard, company to the company dashboard, every other role to the student dashboard |
| `Web.ConsistentUnderExtends` | app.py:109-111 | a session stays valid while the store evolves: users are never deleted, roles never change, approval is never withdrawn |
| `Auth.Register` | app.py:124-154 | an admin role is refused first, then a taken email; both leave the store unchanged. Otherwise exactly one user is appended: the given name, email and role, the digest of the password, approved iff the role is student, active. No existing row changes and the session is untouched |
| `Auth.Authenticate` | app.py:102-104 | credentials identify a user exactly when a user holds the email and the stored digest checks against the password |
| `Auth.Login` | app.py:96-121 | the store never changes. Bad credentials flash "Invalid credentials" and keep the session. An unapproved company is refused and keeps the session. Success sets the session to exactly the user's id, role and approval flag, and redirects to that role's dashboard |
| `Auth.Logout` | app.py:157-160 | the session is cleared whatever it held |
| `Auth.LoginFailuresIndistinguishable` | app.py:102-119 | an unknown email and a wrong password give the same answer, and both leave the session unchanged |
| `Auth.LoginReadsCredentialsOnly` | app.py:102-111 | login reads only the email, password digest, role and approval flag of users: stores that agree on those give the same answer and session |
| `Auth.LoginEstablishesConsistentSession` | app.py:104-111 | every session produced by login matches the store, and a company session has approved = true |
| `Auth.RegisterPreservesValid` | app.py:132-150 | registration keeps emails unique, keeps drives owned and keeps the number of admins |
| `Admin.Dashboard` | app.py:163-175 | a non-admin is redirected to login. Otherwise the students, companies and total counts are shown, with students + companies ≤ total. The store is never changed |
| `Admin.Students` | app.py:88-93 | a non-admin is redirected to login; otherwise exactly the student users are listed |
| `Admin.Companies` | app.py:32-37 | a non-admin is redirected to login; otherwise exactly the company users are listed |
| `Admin.Drives` | app.py:177-183 | a non-admin is redirected to login; otherwise every drive is listed |
| `Admin.ApproveCompany` | app.py:40-48 | a non-admin is redirected to login with nothing changed. A missing id is a no-op. Otherwise only the target's `approved` becomes true, whatever its role. The answer returns to the company list |
| `Admin.ApproveDrive` | app.py:186-196 | a non-admin is redirected to login with nothing changed. A missing id is a no-op. Otherwise only the target drive's status becomes `Approved`, from any status |
| `Admin.RejectDrive` | app.py:198-208 | as approve, with status `Rejected` |
| `Admin.ActivateUser` | app.py:225-234 | a non-admin is redirected to login with nothing changed. A missing id is a no-op. Otherwise only the target's `active` becomes true |
| `Admin.DeactivateUser` | app.py:212-222 | as activate, with `active` false |
| `Admin.ApproveCompanyIdempotent` | app.py:44-47 | approving a company twice has the same effect as approving it once |
| `Admin.DriveStatusLastWriteWins` | app.py:191-206 | approve then reject leaves the drive `Rejected`, and reject then approve leaves it `Approved` |
| `Admin.UserUpdatePreservesValid` | app.py:44-47 | a user update that keeps email and role keeps the store valid and the admin count unchanged |
| `Admin.DriveUpdatePreservesValid` | app.py:191-194 | a status overwrite with a known status keeps the store valid |
| `Admin.ApproveCompanyPreservesValid` | app.py:40-48 | approving a user keeps the store valid and the number of admins unchanged |
| `Admin.ActivateUserPreservesValid` | app.py:225-234 | activating a user keeps the store valid and the number of admins unchanged |
| `Admin.DeactivateUserPreservesValid` | app.py:212-222 | deactivating a user keeps the store valid and the number of admins unchanged |
| `Admin.ApproveDrivePreservesValid` | app.py:186-196 | approving a drive keeps the store valid and leaves the user table as it was |
| `Admin.RejectDrivePreservesValid` | app.py:198-208 | rejecting a drive keeps the store valid and leaves the user table as it was |
| `Company.Dashboard` | app.py:51-57 | a non-company is redirected to login. A company session shows "Waiting for admin approval" exactly when its approval flag is false |
| `Company.CreateDrive` | app.py:60-80 | a non-company is redirected to login with nothing changed. A POST appends exactly one drive: `Pending`, with the session's user id as owner, title and description from the form. Users and existing drives are unchanged |
| `Company.ConsistentCompanyNeverWaits` | app.py:55-56 | a session that matches the store never gets the waiting message |
| `Company.CreateDrivePreservesValid` | app.py:69-76 | a drive created from a session that matches the store is owned by a company user, so the store stays valid |
| `Student.Dashboard` | app.py:237-241 | a non-student is redirected to login; a student sees the dashboard |
| `Bootstrap.SeedAdmin` | app.py:21-27 | the seeded row is an approved, active admin with the seed email and the digest of the seed password |
| `Bootstrap.Startup` | app.py:15-29 | startup adds nothing when an admin exists. Otherwise it appends the seed admin, or fails when the seed email is already held (the unique constraint). After it succeeds, an admin exists |
| `Bootstrap.StartupEstablishesOneAdmin` | app.py:19-29 | startup on a valid store leaves a valid store with exactly one admin |
| `Bootstrap.StartupOnEmptySucceeds` | app.py:19-29 | on a fresh database, startup yields exactly the seed admin |
| `Portal.Step` | app.py:32-241 | no route deletes a row, changes a name, email, password or role, withdraws approval, re-owns a drive or touches an application |
| `Portal.AdminRoutesGuarded` | app.py:32-234 | every admin route, given a session without the admin role, redirects to login and changes nothing |
| `Portal.MissingTargetIsNoOp` | app.py:40-234 | an admin mutation on an id with no row changes nothing and returns to its list page (ids beyond 2^63-1, where the source fails, are treated the same; see "## Left out") |
| `Portal.StepFrames` | app.py:32-241 | only login and logout change the session; only register, create-drive and the admin mutations change the store; no route changes the application table |
| `Portal.ReadOnlyStepKeepsStore` | app.py:32-241 | the home, dashboard, list, login and logout routes leave the store as it was |
| `Portal.StepKeepsStoreValid` | app.py:32-241 | every request keeps the store valid and the number of admins unchanged |
| `Portal.StepPreservesInvariant` | app.py:32-241 | every request keeps the store valid with exactly one admin and the session consistent, and keeps any other client's consistent session consistent |
| `Portal.Run` | app.py:32-241 | a sequence of requests only extends the store |
| `Portal.RunPreservesInvariant` | app.py:32-241 | the invariant holds after any sequence of requests |
| `Portal.FreshStartupSatisfiesInvariant` | app.py:15-29 | startup on a fresh database succeeds and establishes the invariant |
| `Portal.ReachableStatesKeepInvariant` | app.py:15-241 | after startup and any sequence of requests there is exactly one admin, emails are unique, drives are owned and statuses known, and a company session never sees the waiting page |
| `Scenarios.UnapprovedCompanyCannotLogIn` | app.py:104-107 | a freshly registered company with correct credentials is refused until approved |
| `Scenarios.ApprovedCompanyLogsIn` | app.py:40-118 | after the admin approves a registered company, its login yields an approved company session and the company dashboard |
| `Scenarios.DriveApprovalShowsInList` | app.py:60-196 | a created drive is `Pending` and owned by the company; after admin approval the drive list shows it `Approved` |
| `Scenarios.CompanyOnboarding` | app.py:40-196 | register company, approve it, log in, create a drive, approve it: the drive list shows the drive `Approved` |
| `Scenarios.StudentLogsInImmediately` | app.py:141-147 | a registered student logs in at once, with no admin action |
| `Scenarios.DeactivationDoesNotBlockLogin` | app.py:96-121 | login never consults `active`: a deactivated user logs in exactly as before |

## Left out

- Flask routing, templates, URL strings and flash plumbing: each route is a function, and its answer is an `Outcome` value.
- SQLAlchemy and SQLite persistence, and commits: the store is an immutable value and each route is one atomic step.
- Password hashing internals: `Hasher` holds two uninterpreted functions. The scenario lemmas assume only that the digest of the one password they use checks against it. Salted, randomised hashing is not modelled.
- The secret key, `app.run`, template and static folders, and the database URI. Sessions are trusted: the model assumes every session was written by `login` and that the cookie signature cannot be forged. app.py:9 hard-codes the key, so in the program as written a client can mint a cookie such as an unapproved company session. `Company.CreateDrivePreservesValid`, `Portal.StepKeepsStoreValid` and the invariant lemmas require `Consistent(st, s)` for this reason. A forged unapproved company session would let `create_drive` add a drive that breaks `Valid`.
- Portal.MissingTargetIsNoOp: route ids are unbounded `nat`. An id above 2^63-1 is accepted by Flask's `<int:…>` converter (app.py:40, 186, 198, 212, 225), but SQLite refuses it in `query.get` (app.py:44, 191, 203, 217, 230) and the request ends in a server error. The model treats such an id as a missing row: the store is unchanged, as in the source, but the answer is a redirect to the list page. The same holds for the five admin mutations in `Admin`.
- The creation time of an application: `Timestamp` is an opaque number supplied by the caller.
- Concurrent requests and lost updates: the model is a sequential state machine. The invariants quantify over any other client's session, but requests are never interleaved.
- The length limits of the string columns.
- The plain-text home route is modelled only as a read-only step.
- Models.NewApplication: no route creates an application, so nothing calls it. It records the column defaults only.
