/** The page switch of frontend/src/App.tsx: the active page is restored from
    local storage, written back on every change, guarded on navigation (only
    ABOUT without a session, DRIVER only for drivers), reset to ABOUT when the
    session ends, and rendered as the page or, for a page the user may not see,
    the About page. React's state and effects become the fields of a class whose
    methods run the handler and then the two effects. */
module AppShell {
  import opened Common

  datatype Page = HOME | ABOUT | DRIVER | ORGANIZATIONS | PROFILE

  /** The string the page is stored under in local storage. */
  function PageName(p: Page): (name: string)
    ensures |name| >= 4
  {
    match p
    case HOME => "HOME"
    case ABOUT => "ABOUT"
    case DRIVER => "DRIVER"
    case ORGANIZATIONS => "ORGANIZATIONS"
    case PROFILE => "PROFILE"
  }

  /** The initial state: a saved value that names one of the five pages
      selects it; anything else, or nothing, gives ABOUT. */
  function InitialPage(saved: Option<string>): (p: Page)
    ensures saved.None? ==> p == ABOUT
    ensures p != ABOUT ==> saved == Some(PageName(p))
  {
    if saved == Some("HOME") then HOME
    else if saved == Some("DRIVER") then DRIVER
    else if saved == Some("ORGANIZATIONS") then ORGANIZATIONS
    else if saved == Some("PROFILE") then PROFILE
    else ABOUT
  }

  /** Storing a page and restoring it gives the same page back. */
  lemma {:induction false} RestoreRoundTrip(p: Page)
    ensures InitialPage(Some(PageName(p))) == p
  {
    match p
    case HOME =>
    case ABOUT =>
      assert "ABOUT"[0] == 'A';
    case DRIVER =>
      assert "DRIVER"[0] != "HOME"[0];
    case ORGANIZATIONS =>
      assert "ORGANIZATIONS"[0] != "HOME"[0] && "ORGANIZATIONS"[0] != "DRIVER"[0];
    case PROFILE =>
      assert "PROFILE"[0] != "HOME"[0] && "PROFILE"[0] != "DRIVER"[0] && "PROFILE"[0] != "ORGANIZATIONS"[0];
  }

  /** What renderPage shows. */
  datatype View = Loading | HomeView | AboutView | DriverView | OrganizationsView | ProfileView

  /** The component each page stands for. */
  function PageView(page: Page): (v: View)
    ensures v != Loading
    ensures page == ABOUT <==> v == AboutView
  {
    match page
    case HOME => HomeView
    case ABOUT => AboutView
    case DRIVER => DriverView
    case ORGANIZATIONS => OrganizationsView
    case PROFILE => ProfileView
  }

  /** renderPage: while the session is loading a spinner; otherwise the active page
      if the user may see it, else the About page. */
  function RenderPage(page: Page, isLoading: bool, isAuthenticated: bool, userIsDriver: bool): (v: View)
    ensures isLoading <==> v == Loading
    ensures !isLoading ==>
      v == (if MayNavigate(page, isAuthenticated, Some(userIsDriver)) then PageView(page) else AboutView)
    ensures v == DriverView ==> isAuthenticated && userIsDriver && page == DRIVER
    ensures !isLoading && !isAuthenticated ==> v == AboutView
    ensures !isLoading && page == ABOUT ==> v == AboutView
  {
    if isLoading then Loading
    else match page
      case HOME => if isAuthenticated then HomeView else AboutView
      case ABOUT => AboutView
      case DRIVER => if isAuthenticated && userIsDriver then DriverView else AboutView
      case ORGANIZATIONS => if isAuthenticated then OrganizationsView else AboutView
      case PROFILE => if isAuthenticated then ProfileView else AboutView
  }

  /** handleSetActivePage's guard: without a session only ABOUT; DRIVER only when
      there is a user whose `is_driver` is true. */
  predicate MayNavigate(page: Page, isAuthenticated: bool, user: Option<bool>)
  {
    (isAuthenticated || page == ABOUT) && (page == DRIVER ==> user == Some(true))
  }

  /** The App component: `user` is the session's user, reduced to its `is_driver`
      flag (None for no user); `stored` is local storage's "activePage" entry. */
  class App {
    var activePage: Page
    var isAuthenticated: bool
    var isLoading: bool
    var user: Option<bool>
    var stored: Option<string>

    /** After the effects have run: the stored entry names the active page, and
        without a session the active page is ABOUT. */
    predicate Valid()
      reads this
    {
      stored == Some(PageName(activePage)) && (isAuthenticated || activePage == ABOUT)
    }

    /** Mounting: the state initialiser reads local storage, then the effects run. */
    constructor (saved: Option<string>, isAuthenticated: bool, isLoading: bool, user: Option<bool>)
      ensures Valid()
      ensures this.isAuthenticated == isAuthenticated && this.isLoading == isLoading && this.user == user
      ensures activePage == if isAuthenticated then InitialPage(saved) else ABOUT
    {
      activePage := InitialPage(saved);
      this.isAuthenticated := isAuthenticated;
      this.isLoading := isLoading;
      this.user := user;
      new;
      RunEffects();
    }

    /** The two effects: save the page, and leave a protected page when signed
        out (which saves ABOUT in turn). */
    method RunEffects()
      modifies this
      ensures isAuthenticated == old(isAuthenticated) && isLoading == old(isLoading) && user == old(user)
      ensures activePage == if !isAuthenticated then ABOUT else old(activePage)
      ensures Valid()
    {
      stored := Some(PageName(activePage));
      if !isAuthenticated && activePage != ABOUT {
        activePage := ABOUT;
        stored := Some(PageName(activePage));
      }
    }

    /** handleSetActivePage: a refused navigation leaves the page as it was. */
    method SetActivePage(page: Page)
      requires Valid()
      modifies this
      ensures Valid()
      ensures isAuthenticated == old(isAuthenticated) && isLoading == old(isLoading) && user == old(user)
      ensures activePage == if MayNavigate(page, isAuthenticated, user) then page else old(activePage)
      ensures stored == Some(PageName(activePage))
    {
      if !isAuthenticated && page != ABOUT {
        return;
      }
      if page == DRIVER && (user.None? || !user.value) {
        return;
      }
      activePage := page;
      RunEffects();
    }

    /** The session context changes (sign-in, sign-out, the end of loading): the
        effects then run with the new values. */
    method SessionChanged(isAuthenticated: bool, isLoading: bool, user: Option<bool>)
      requires Valid()
      modifies this
      ensures Valid()
      ensures this.isAuthenticated == isAuthenticated && this.isLoading == isLoading && this.user == user
      ensures activePage == if isAuthenticated then old(activePage) else ABOUT
    {
      this.isAuthenticated := isAuthenticated;
      this.isLoading := isLoading;
      this.user := user;
      RunEffects();
    }

    /** What the component renders for its current state: the page the guard
        lets this user see, else the About page. */
    function View(): (v: View)
      reads this
      ensures isLoading <==> v == Loading
      ensures !isLoading ==> v == (if MayNavigate(activePage, isAuthenticated, user) then PageView(activePage) else AboutView)
      ensures Valid() && !isLoading && !isAuthenticated ==> v == AboutView
      ensures Valid() && !isLoading && isAuthenticated && activePage != DRIVER ==> v == PageView(activePage)
    {
      RenderPage(activePage, isLoading, isAuthenticated, user == Some(true))
    }
  }

  /** No sequence of navigations reaches the driver page's view for a user who is
      not a driver, and a driver on the DRIVER page sees it: the guard and the
      renderer agree. */
  lemma DriverViewNeedsDriver(page: Page, isLoading: bool, isAuthenticated: bool, user: Option<bool>)
    ensures RenderPage(page, isLoading, isAuthenticated, user == Some(true)) == DriverView
      ==> MayNavigate(DRIVER, isAuthenticated, user)
    ensures !isLoading && page == DRIVER && MayNavigate(DRIVER, isAuthenticated, user)
      ==> RenderPage(page, isLoading, isAuthenticated, user == Some(true)) == DriverView
  {
  }

  /** Once loaded, a page other than ABOUT is shown exactly when the navigation
      guard would let this user open it; otherwise the About page is. */
  lemma ShownIffAllowed(page: Page, isAuthenticated: bool, user: Option<bool>)
    requires page != ABOUT
    ensures RenderPage(page, false, isAuthenticated, user == Some(true)) == PageView(page)
        <==> MayNavigate(page, isAuthenticated, user)
    ensures !MayNavigate(page, isAuthenticated, user)
        ==> RenderPage(page, false, isAuthenticated, user == Some(true)) == AboutView
  {
  }
}
