/** Startup: seed the admin account when the user table has no admin. */
module Bootstrap {
  import opened Wrappers
  import opened Models
  import opened Web

  const SeedName: string := "Admin"
  const SeedEmail: string := "admin@iitm.ac.in"
  const SeedPassword: string := "admin123"

  /** The seeded admin row, with its password digested. */
  function SeedAdmin(h: Hasher): (u: User)
    ensures u.role == AdminRole && u.email == SeedEmail && u.approved && u.active
    ensures u.password == h.hash(SeedPassword)
  {
    NewUser(SeedName, SeedEmail, h.hash(SeedPassword), AdminRole, Some(true))
  }

  /** Startup against an existing store. None means the insert of the seed
      row violates the unique email constraint (another user already holds
      the seed email while no admin exists), which aborts startup. */
  function Startup(st: Store, h: Hasher): (r: Option<Store>)
    ensures AnyWithRole(st.users, AdminRole) ==> r == Some(st)
    ensures !AnyWithRole(st.users, AdminRole) ==> (r.None? <==> EmailTaken(st.users, SeedEmail))
    ensures r.Some? ==> Extends(st, r.value) && AnyWithRole(r.value.users, AdminRole)
    ensures r.Some? && r.value != st ==>
              && r.value.users == st.users + [SeedAdmin(h)]
              && r.value.drives == st.drives && r.value.applications == st.applications
  {
    if AnyWithRole(st.users, AdminRole) then Some(st)
    else if EmailTaken(st.users, SeedEmail) then None
    else
      var users := st.users + [SeedAdmin(h)];
      assert users[|st.users|].role == AdminRole;
      Some(st.(users := users))
  }

  /** After startup on a valid store there is exactly one admin, and the
      store is still valid. */
  lemma StartupEstablishesOneAdmin(st: Store, h: Hasher)
    requires Valid(st)
    requires Startup(st, h).Some?
    ensures Valid(Startup(st, h).value)
    ensures CountRole(Startup(st, h).value.users, AdminRole) == 1
  {
    var st' := Startup(st, h).value;
    if !AnyWithRole(st.users, AdminRole) {
      CountRoleAppend(st.users, SeedAdmin(h), AdminRole);
      forall i, j | 0 <= i < j < |st'.users|
        ensures st'.users[i].email != st'.users[j].email
      {
        if j == |st.users| {
          assert st.users[i].email != SeedEmail;
        }
      }
      forall d | 0 <= d < |st'.drives|
        ensures OwnedByCompany(st', st'.drives[d])
      {
        assert OwnedByCompany(st, st.drives[d]);
      }
    }
  }

  /** On a fresh database startup always succeeds. */
  lemma StartupOnEmptySucceeds(h: Hasher)
    ensures Startup(EmptyStore, h) == Some(Store([SeedAdmin(h)], [], []))
  {
    assert EmptyStore.users + [SeedAdmin(h)] == [SeedAdmin(h)];
  }
}
