/** The company routes: the dashboard and drive creation. */
module Company {
  import opened Wrappers
  import opened Models
  import opened Web

  const WaitingMessage: string := "Waiting for admin approval"
  const DriveCreated: string := "Drive created successfully!"

  /** The company dashboard. A company session whose approval flag is false
      gets a plain waiting message instead of a redirect. */
  function Dashboard(st: Store, s: Session): (r: Effect)
    ensures r.store == st && r.session == s
    ensures !SessionIs(s, CompanyRole) ==> r == Deny(st, s)
    ensures SessionIs(s, CompanyRole) ==>
              (r.outcome.response == Text(WaitingMessage) <==> !s.approved)
    ensures SessionIs(s, CompanyRole) && s.approved ==> r.outcome.response == Render(CompanyHome)
  {
    if !SessionIs(s, CompanyRole) then Deny(st, s)
    else if !s.approved then Effect(st, s, Outcome(None, Text(WaitingMessage)))
    else Effect(st, s, Outcome(None, Render(CompanyHome)))
  }

  predicate HasDriveFields(form: Form) {
    "title" in form && "description" in form
  }

  /** The create-drive route. Only the role is checked (not the approval
      flag); the new drive is owned by the session's user and starts Pending. */
  function CreateDrive(st: Store, s: Session, verb: Verb, form: Form): (r: Effect)
    ensures r.session == s && Extends(st, r.store)
    ensures r.store.users == st.users
    ensures !SessionIs(s, CompanyRole) ==> r == Deny(st, s)
    ensures SessionIs(s, CompanyRole) && verb == Get ==> r.store == st && r.outcome == Outcome(None, Render(CreateDriveForm))
    ensures SessionIs(s, CompanyRole) && verb == Post && !HasDriveFields(form) ==>
              r.store == st && r.outcome.response == BadRequest
    ensures r.store != st ==> SessionIs(s, CompanyRole) && verb == Post && HasDriveFields(form)
    ensures SessionIs(s, CompanyRole) && verb == Post && HasDriveFields(form) ==> r.store != st
    ensures r.store != st ==>
              && |r.store.drives| == |st.drives| + 1
              && r.store.drives[..|st.drives|] == st.drives
              && r.store.drives[|st.drives|].companyId == Some(s.userId)
              && r.store.drives[|st.drives|].title == form["title"]
              && r.store.drives[|st.drives|].description == form["description"]
              && r.store.drives[|st.drives|].status == Pending
              && r.outcome == Outcome(Some(DriveCreated), Redirect(CompanyDashboardPage))
  {
    if !SessionIs(s, CompanyRole) then Deny(st, s)
    else if verb == Get then Effect(st, s, Outcome(None, Render(CreateDriveForm)))
    else if !HasDriveFields(form) then Effect(st, s, Outcome(None, BadRequest))
    else
      var d := NewDrive(Some(s.userId), form["title"], form["description"]);
      var drives := st.drives + [d];
      assert drives[..|st.drives|] == st.drives;
      var st' := st.(drives := drives);
      assert verb == Post;
      Effect(st', s, Outcome(Some(DriveCreated), Redirect(CompanyDashboardPage)))
  }

  /** A session that agrees with the store never sees the waiting message:
      login only ever hands a company an approved session. */
  lemma ConsistentCompanyNeverWaits(st: Store, s: Session)
    requires Consistent(st, s)
    ensures Dashboard(st, s).outcome.response != Text(WaitingMessage)
  {
  }

  /** Drive creation by a session that agrees with the store keeps the store
      valid: the owner is an existing company user. */
  lemma CreateDrivePreservesValid(st: Store, s: Session, verb: Verb, form: Form)
    requires Valid(st) && Consistent(st, s)
    ensures Valid(CreateDrive(st, s, verb, form).store)
  {
  }
}
