/**
 * The top-level page/session state machine of the front end: which page is
 * shown and which user, if any, is logged in.
 */
module App {
  import opened Wrappers

  datatype Page = Login | Register | Dashboard

  /** A page component the shell renders; the dashboard receives the user's email. */
  datatype View = LoginView | RegisterView | DashboardView(userEmail: string)

  /** The `App` component's two pieces of state and its five transitions. */
  class App {
    var currentPage: Page
    var loggedInUser: Option<string>

    /** The dashboard page is never current without a logged-in user. */
    ghost predicate Valid()
      reads this
    {
      currentPage == Dashboard ==> loggedInUser.Some?
    }

    /** Initial state: the login page, nobody logged in. */
    constructor ()
      ensures Valid()
      ensures currentPage == Login && loggedInUser == None
    {
      currentPage := Login;
      loggedInUser := None;
    }

    /** `handleLogin`: the given user is logged in and sees the dashboard. */
    method HandleLogin(email: string)
      requires Valid()
      modifies this
      ensures Valid()
      ensures loggedInUser == Some(email) && currentPage == Dashboard
    {
      loggedInUser := Some(email);
      currentPage := Dashboard;
    }

    /** `handleRegister`: the same transition as a login, for a just-registered user. */
    method HandleRegister(email: string)
      requires Valid()
      modifies this
      ensures Valid()
      ensures loggedInUser == Some(email) && currentPage == Dashboard
    {
      loggedInUser := Some(email);
      currentPage := Dashboard;
    }

    /**
     * `handleLogout`: nobody is logged in and the login page is shown. The
     * new state does not depend on the old one, so logging out twice is
     * logging out once.
     */
    method HandleLogout()
      requires Valid()
      modifies this
      ensures Valid()
      ensures loggedInUser == None && currentPage == Login
    {
      loggedInUser := None;
      currentPage := Login;
    }

    /** `navigateToRegister`: changes the page only, never the user. */
    method NavigateToRegister()
      requires Valid()
      modifies this
      ensures Valid()
      ensures currentPage == Register && loggedInUser == old(loggedInUser)
    {
      currentPage := Register;
    }

    /** `navigateToLogin`: changes the page only, never the user. */
    method NavigateToLogin()
      requires Valid()
      modifies this
      ensures Valid()
      ensures currentPage == Login && loggedInUser == old(loggedInUser)
    {
      currentPage := Login;
    }

    /**
     * The rendered fragment: three independent conditional branches. At most
     * one renders; the dashboard renders only for a non-empty (truthy)
     * logged-in email and receives exactly that email.
     */
    function Rendered(): (views: seq<View>)
      reads this
      ensures |views| <= 1
      ensures LoginView in views <==> currentPage == Login
      ensures RegisterView in views <==> currentPage == Register
      ensures forall e :: DashboardView(e) in views <==>
        currentPage == Dashboard && loggedInUser == Some(e) && e != ""
      ensures Valid() ==> (views == [] <==> currentPage == Dashboard && loggedInUser == Some(""))
    {
      (if currentPage == Login then [LoginView] else [])
      + (if currentPage == Register then [RegisterView] else [])
      + (if currentPage == Dashboard && loggedInUser.Some? && loggedInUser.value != ""
         then [DashboardView(loggedInUser.value)] else [])
    }
  }
}
