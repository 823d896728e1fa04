/** The admin routes: the dashboard counts, the three list pages, and the
    five mutations (approve a company, approve or reject a drive, activate or
    deactivate a user). Every one answers a session without the admin role by
    redirecting to login and touching nothing; every mutation on an id with no
    row is a silent no-op. */
module Admin {
  import opened Wrappers
  import opened Models
  import opened Web

  predicate IsAdmin(s: Session) {
    SessionIs(s, AdminRole)
  }

  /** Replace user `id` by `u`. */
  function SetUser(st: Store, id: nat, u: User): (st': Store)
    requires IsUserId(st, id)
    ensures OnlyUserChanged(st, st', id) && st'.users[id - 1] == u
  {
    st.(users := st.users[id - 1 := u])
  }

  /** Overwrite the status of drive `id`. */
  function SetDriveStatus(st: Store, id: nat, status: string): (st': Store)
    requires IsDriveId(st, id)
    ensures OnlyDriveChanged(st, st', id)
    ensures st'.drives[id - 1] == st.drives[id - 1].(status := status)
  {
    st.(drives := st.drives[id - 1 := st.drives[id - 1].(status := status)])
  }

  /** The dashboard: counts of students, of companies and of all users. */
  function Dashboard(st: Store, s: Session): (r: Effect)
    ensures r.store == st && r.session == s
    ensures !IsAdmin(s) ==> r == Deny(st, s)
    ensures IsAdmin(s) ==> r.outcome.flash.None? && r.outcome.response.Render?
    ensures IsAdmin(s) ==>
              var v := r.outcome.response.view;
              && v.AdminHome?
              && v.students == CountRole(st.users, StudentRole)
              && v.companies == CountRole(st.users, CompanyRole)
              && v.users == |st.users|
              && v.students + v.companies <= v.users
  {
    if !IsAdmin(s) then Deny(st, s)
    else
      RoleCountsWithinTotal(st.users, StudentRole, CompanyRole);
      var view := AdminHome(CountRole(st.users, StudentRole), CountRole(st.users, CompanyRole), |st.users|);
      Effect(st, s, Outcome(None, Render(view)))
  }

  /** The student list page: exactly the users whose role is student. */
  function Students(st: Store, s: Session): (r: Effect)
    ensures r.store == st && r.session == s
    ensures !IsAdmin(s) ==> r == Deny(st, s)
    ensures IsAdmin(s) ==> r.outcome.response.Render? && r.outcome.response.view.UserList?
    ensures IsAdmin(s) ==>
              var rows := r.outcome.response.view.rows;
              && (forall u :: u in rows ==> u in st.users && u.role == StudentRole)
              && (forall k :: 0 <= k < |st.users| && st.users[k].role == StudentRole ==> st.users[k] in rows)
              && |rows| == CountRole(st.users, StudentRole)
  {
    if !IsAdmin(s) then Deny(st, s)
    else Effect(st, s, Outcome(None, Render(UserList(WithRole(st.users, StudentRole)))))
  }

  /** The company list page: exactly the users whose role is company. */
  function Companies(st: Store, s: Session): (r: Effect)
    ensures r.store == st && r.session == s
    ensures !IsAdmin(s) ==> r == Deny(st, s)
    ensures IsAdmin(s) ==> r.outcome.response.Render? && r.outcome.response.view.UserList?
    ensures IsAdmin(s) ==>
              var rows := r.outcome.response.view.rows;
              && (forall u :: u in rows ==> u in st.users && u.role == CompanyRole)
              && (forall k :: 0 <= k < |st.users| && st.users[k].role == CompanyRole ==> st.users[k] in rows)
              && |rows| == CountRole(st.users, CompanyRole)
  {
    if !IsAdmin(s) then Deny(st, s)
    else Effect(st, s, Outcome(None, Render(UserList(WithRole(st.users, CompanyRole)))))
  }

  /** The drive list page: every drive, in id order. */
  function Drives(st: Store, s: Session): (r: Effect)
    ensures r.store == st && r.session == s
    ensures !IsAdmin(s) ==> r == Deny(st, s)
    ensures IsAdmin(s) ==> r.outcome.response == Render(DriveList(st.drives))
  {
    if !IsAdmin(s) then Deny(st, s)
    else Effect(st, s, Outcome(None, Render(DriveList(st.drives))))
  }

  /** Approve user `id`. The route does not check that the user is a company:
      any existing user gets approved = true. */
  function ApproveCompany(st: Store, s: Session, id: nat): (r: Effect)
    ensures r.session == s && Extends(st, r.store)
    ensures !IsAdmin(s) ==> r == Deny(st, s)
    ensures IsAdmin(s) ==> r.outcome == Outcome(None, Redirect(AdminCompaniesPage))
    ensures !IsUserId(st, id) ==> r.store == st
    ensures IsAdmin(s) && IsUserId(st, id) ==>
              && OnlyUserChanged(st, r.store, id)
              && r.store.users[id - 1] == st.users[id - 1].(approved := true)
  {
    if !IsAdmin(s) then Deny(st, s)
    else
      var st' := match GetUser(st, id)
        case Some(u) => SetUser(st, id, u.(approved := true))
        case None => st;
      Effect(st', s, Outcome(None, Redirect(AdminCompaniesPage)))
  }

  /** Set drive `id` to Approved, whatever its status was. */
  function ApproveDrive(st: Store, s: Session, id: nat): (r: Effect)
    ensures r.session == s && Extends(st, r.store)
    ensures !IsAdmin(s) ==> r == Deny(st, s)
    ensures IsAdmin(s) ==> r.outcome == Outcome(None, Redirect(AdminDrivesPage))
    ensures !IsDriveId(st, id) ==> r.store == st
    ensures IsAdmin(s) && IsDriveId(st, id) ==>
              && OnlyDriveChanged(st, r.store, id)
              && r.store.drives[id - 1] == st.drives[id - 1].(status := Approved)
  {
    if !IsAdmin(s) then Deny(st, s)
    else
      var st' := if IsDriveId(st, id) then SetDriveStatus(st, id, Approved) else st;
      Effect(st', s, Outcome(None, Redirect(AdminDrivesPage)))
  }

  /** Set drive `id` to Rejected, whatever its status was. */
  function RejectDrive(st: Store, s: Session, id: nat): (r: Effect)
    ensures r.session == s && Extends(st, r.store)
    ensures !IsAdmin(s) ==> r == Deny(st, s)
    ensures IsAdmin(s) ==> r.outcome == Outcome(None, Redirect(AdminDrivesPage))
    ensures !IsDriveId(st, id) ==> r.store == st
    ensures IsAdmin(s) && IsDriveId(st, id) ==>
              && OnlyDriveChanged(st, r.store, id)
              && r.store.drives[id - 1] == st.drives[id - 1].(status := Rejected)
  {
    if !IsAdmin(s) then Deny(st, s)
    else
      var st' := if IsDriveId(st, id) then SetDriveStatus(st, id, Rejected) else st;
      Effect(st', s, Outcome(None, Redirect(AdminDrivesPage)))
  }

  /** Set `active` of user `id` to true; nothing else about the user changes. */
  function ActivateUser(st: Store, s: Session, id: nat): (r: Effect)
    ensures r.session == s && Extends(st, r.store)
    ensures !IsAdmin(s) ==> r == Deny(st, s)
    ensures IsAdmin(s) ==> r.outcome == Outcome(None, Redirect(AdminStudentsPage))
    ensures !IsUserId(st, id) ==> r.store == st
    ensures IsAdmin(s) && IsUserId(st, id) ==>
              && OnlyUserChanged(st, r.store, id)
              && r.store.users[id - 1] == st.users[id - 1].(active := true)
  {
    if !IsAdmin(s) then Deny(st, s)
    else
      var st' := match GetUser(st, id)
        case Some(u) => SetUser(st, id, u.(active := true))
        case None => st;
      Effect(st', s, Outcome(None, Redirect(AdminStudentsPage)))
  }

  /** Set `active` of user `id` to false; nothing else about the user changes
      (in particular login does not consult the flag). */
  function DeactivateUser(st: Store, s: Session, id: nat): (r: Effect)
    ensures r.session == s && Extends(st, r.store)
    ensures !IsAdmin(s) ==> r == Deny(st, s)
    ensures IsAdmin(s) ==> r.outcome == Outcome(None, Redirect(AdminStudentsPage))
    ensures !IsUserId(st, id) ==> r.store == st
    ensures IsAdmin(s) && IsUserId(st, id) ==>
              && OnlyUserChanged(st, r.store, id)
              && r.store.users[id - 1] == st.users[id - 1].(active := false)
  {
    if !IsAdmin(s) then Deny(st, s)
    else
      var st' := match GetUser(st, id)
        case Some(u) => SetUser(st, id, u.(active := false))
        case None => st;
      Effect(st', s, Outcome(None, Redirect(AdminStudentsPage)))
  }

  /** Approving a company twice is the same as approving it once. */
  lemma ApproveCompanyIdempotent(st: Store, s: Session, id: nat)
    ensures var once := ApproveCompany(st, s, id);
            ApproveCompany(once.store, s, id) == once
  {
  }

  /** Last write wins: approve then reject leaves the drive Rejected, and
      reject then approve leaves it Approved. */
  lemma DriveStatusLastWriteWins(st: Store, s: Session, id: nat)
    requires IsAdmin(s) && IsDriveId(st, id)
    ensures RejectDrive(ApproveDrive(st, s, id).store, s, id).store.drives[id - 1].status == Rejected
    ensures ApproveDrive(RejectDrive(st, s, id).store, s, id).store.drives[id - 1].status == Approved
  {
  }

  /** A user mutation keeps the store valid: emails and roles do not move. */
  lemma UserUpdatePreservesValid(st: Store, st': Store, id: nat)
    requires Valid(st) && IsUserId(st, id)
    requires OnlyUserChanged(st, st', id)
    requires st'.users[id - 1].email == st.users[id - 1].email
    requires st'.users[id - 1].role == st.users[id - 1].role
    ensures Valid(st')
    ensures CountRole(st'.users, AdminRole) == CountRole(st.users, AdminRole)
  {
    CountRoleSameRoles(st.users, st'.users, AdminRole);
    forall i, j | 0 <= i < j < |st'.users|
      ensures st'.users[i].email != st'.users[j].email
    {
      assert st'.users[i].email == st.users[i].email && st'.users[j].email == st.users[j].email;
    }
    forall d | 0 <= d < |st'.drives|
      ensures OwnedByCompany(st', st'.drives[d])
    {
      assert OwnedByCompany(st, st.drives[d]);
    }
  }

  /** A status overwrite with a known status keeps the store valid. */
  lemma DriveUpdatePreservesValid(st: Store, st': Store, id: nat)
    requires Valid(st) && IsDriveId(st, id)
    requires OnlyDriveChanged(st, st', id)
    requires st'.drives[id - 1] == st.drives[id - 1].(status := st'.drives[id - 1].status)
    requires KnownStatus(st'.drives[id - 1].status)
    ensures Valid(st')
  {
    assert OwnedByCompany(st, st.drives[id - 1]);
  }

  /** Each admin mutation keeps the store valid and the admin count fixed. */
  lemma ApproveCompanyPreservesValid(st: Store, s: Session, id: nat)
    requires Valid(st)
    ensures Valid(ApproveCompany(st, s, id).store)
    ensures CountRole(ApproveCompany(st, s, id).store.users, AdminRole) == CountRole(st.users, AdminRole)
  {
    if IsAdmin(s) && IsUserId(st, id) {
      UserUpdatePreservesValid(st, ApproveCompany(st, s, id).store, id);
    }
  }

  lemma ActivateUserPreservesValid(st: Store, s: Session, id: nat)
    requires Valid(st)
    ensures Valid(ActivateUser(st, s, id).store)
    ensures CountRole(ActivateUser(st, s, id).store.users, AdminRole) == CountRole(st.users, AdminRole)
  {
    if IsAdmin(s) && IsUserId(st, id) {
      UserUpdatePreservesValid(st, ActivateUser(st, s, id).store, id);
    }
  }

  lemma DeactivateUserPreservesValid(st: Store, s: Session, id: nat)
    requires Valid(st)
    ensures Valid(DeactivateUser(st, s, id).store)
    ensures CountRole(DeactivateUser(st, s, id).store.users, AdminRole) == CountRole(st.users, AdminRole)
  {
    if IsAdmin(s) && IsUserId(st, id) {
      UserUpdatePreservesValid(st, DeactivateUser(st, s, id).store, id);
    }
  }

  lemma ApproveDrivePreservesValid(st: Store, s: Session, id: nat)
    requires Valid(st)
    ensures Valid(ApproveDrive(st, s, id).store)
    ensures ApproveDrive(st, s, id).store.users == st.users
  {
    if IsAdmin(s) && IsDriveId(st, id) {
      DriveUpdatePreservesValid(st, ApproveDrive(st, s, id).store, id);
    }
  }

  lemma RejectDrivePreservesValid(st: Store, s: Session, id: nat)
    requires Valid(st)
    ensures Valid(RejectDrive(st, s, id).store)
    ensures RejectDrive(st, s, id).store.users == st.users
  {
    if IsAdmin(s) && IsDriveId(st, id) {
      DriveUpdatePreservesValid(st, RejectDrive(st, s, id).store, id);
    }
  }
}
