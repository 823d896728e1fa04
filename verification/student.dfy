/** The student route. */
module Student {
  import opened Models
  import opened Web
  import opened Wrappers

  function Dashboard(st: Store, s: Session): (r: Effect)
    ensures r.store == st && r.session == s
    ensures !SessionIs(s, StudentRole) ==> r == Deny(st, s)
    ensures SessionIs(s, StudentRole) ==> r.outcome.response == Render(StudentHome)
  {
    if !SessionIs(s, StudentRole) then Deny(st, s)
    else Effect(st, s, Outcome(None, Render(StudentHome)))
  }
}
