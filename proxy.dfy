/**
 * The route guard that runs before every page request: from whether a user
 * is signed in, whether that user has a store-admin record, and the
 * requested path, it either lets the request through or redirects it.
 */
module Proxy {

  datatype Decision = PassThrough | Redirect(target: string)

  const Login: string := "/login"
  const Register: string := "/register"
  const Dashboard: string := "/dashboard"

  /** `pathname.startsWith("/dashboard")`. */
  predicate IsDashboardPath(path: string) { Dashboard <= path }

  /**
   * `hasCompletedRegistration`: false unless there is a user, and then whether
   * the store-admin lookup for that user found a record.
   */
  function HasCompletedRegistration(hasUser: bool, adminRecordFound: bool): (done: bool)
    ensures !hasUser ==> !done
    ensures hasUser ==> (done <==> adminRecordFound)
  {
    if hasUser then adminRecordFound else false
  }

  /** The if-chain of `proxy`, in the order the source tests its conditions. */
  function Decide(hasUser: bool, adminRecordFound: bool, path: string): (d: Decision)
    ensures d.Redirect? ==> d.target in {Login, Register, Dashboard}
  {
    var registered := HasCompletedRegistration(hasUser, adminRecordFound);
    if !hasUser && IsDashboardPath(path) then Redirect(Login)
    else if hasUser && !registered && IsDashboardPath(path) then Redirect(Register)
    else if hasUser && registered && path == Login then Redirect(Dashboard)
    else if hasUser && registered && path == Register then Redirect(Dashboard)
    else if path == "/" then
      if !hasUser then Redirect(Login)
      else if registered then Redirect(Dashboard)
      else Redirect(Register)
    else PassThrough
  }

  /** Where each kind of visitor belongs. */
  function Home(hasUser: bool, registered: bool): string
  {
    if !hasUser then Login else if registered then Dashboard else Register
  }

  /**
   * The guard as a table: the root and the dashboard send a visitor to where
   * they belong unless they already belong there, and a registered user is sent
   * from the login and registration pages to the dashboard; nothing else is redirected.
   */
  lemma DecisionTable(hasUser: bool, adminRecordFound: bool, path: string)
    ensures var registered := HasCompletedRegistration(hasUser, adminRecordFound);
      var home := Home(hasUser, registered);
      Decide(hasUser, adminRecordFound, path) ==
        if path == "/" then Redirect(home)
        else if IsDashboardPath(path) && home != Dashboard then Redirect(home)
        else if registered && (path == Login || path == Register) then Redirect(Dashboard)
        else PassThrough
  {
    assert !IsDashboardPath(Login) && !IsDashboardPath(Register) && !IsDashboardPath("/");
  }

  /** A redirect never points at the page that was requested. */
  lemma RedirectLeavesPath(hasUser: bool, adminRecordFound: bool, path: string)
    requires Decide(hasUser, adminRecordFound, path).Redirect?
    ensures Decide(hasUser, adminRecordFound, path).target != path
  {
    assert IsDashboardPath(Dashboard);
    assert !IsDashboardPath(Login) && !IsDashboardPath(Register);
  }

  /** Following a redirect lands on a page the guard lets through: there are no redirect chains or loops. */
  lemma RedirectSettles(hasUser: bool, adminRecordFound: bool, path: string)
    requires Decide(hasUser, adminRecordFound, path).Redirect?
    ensures Decide(hasUser, adminRecordFound, Decide(hasUser, adminRecordFound, path).target) == PassThrough
  {
    assert IsDashboardPath(Dashboard);
    assert !IsDashboardPath(Login) && !IsDashboardPath(Register);
  }

  /** A registered user is never redirected away from any dashboard page. */
  lemma RegisteredUserKeepsDashboard(path: string)
    requires IsDashboardPath(path)
    ensures Decide(true, true, path) == PassThrough
  {
    assert path != Login && path != Register && path != "/" by {
      assert !IsDashboardPath(Login) && !IsDashboardPath(Register) && !IsDashboardPath("/");
    }
  }
}
