/**
 * The route table: each of the five guarded sections of the application
 * has a layout passing a constant list of allowed roles to the guard. Every
 * page under a section's directory is wrapped by that section's layout;
 * the login page "/" and the other sections are not guarded.
 */
module Layouts {
  import opened Wrappers
  import opened AuthContext
  import opened ProtectedRoute

  datatype Layout = Layout(segment: string, allowedRoles: seq<UserRole>)

  const EmployeeLayout := Layout("employee", [1, 2])
  const ClientLayout := Layout("client", [0, 1])
  const ReportsLayout := Layout("reports", [1])
  const StoreLayout := Layout("store", [0, 1])
  const AdminLayout := Layout("admin", [1])

  const AllLayouts: seq<Layout> := [EmployeeLayout, ClientLayout, ReportsLayout, StoreLayout, AdminLayout]

  /** A path belongs to a section when it is the section's directory or lies below it. */
  predicate Covers(l: Layout, path: string)
  {
    path == "/" + l.segment || "/" + l.segment + "/" <= path
  }

  /** The character after the leading slash of a covered path is the section's initial. */
  lemma CoveredInitial(l: Layout, path: string)
    requires l.segment != [] && Covers(l, path)
    ensures 2 <= |path| && path[1] == l.segment[0]
  {
    var p := "/" + l.segment;
    if path != p {
      assert path[..|p| + 1] == p + "/";
    }
    assert path[1] == p[1];
  }

  /** No path lies in two sections. */
  lemma CoversAtMostOne(a: Layout, b: Layout, path: string)
    requires a in AllLayouts && b in AllLayouts
    requires Covers(a, path) && Covers(b, path)
    ensures a == b
  {
    CoveredInitial(a, path);
    CoveredInitial(b, path);
  }

  /** The layout that wraps a path, if any. */
  function GuardOf(path: string): (g: Option<Layout>)
    ensures g.Some? ==> g.value in AllLayouts && Covers(g.value, path)
    ensures g.None? ==> forall l :: l in AllLayouts ==> !Covers(l, path)
  {
    if Covers(EmployeeLayout, path) then Some(EmployeeLayout)
    else if Covers(ClientLayout, path) then Some(ClientLayout)
    else if Covers(ReportsLayout, path) then Some(ReportsLayout)
    else if Covers(StoreLayout, path) then Some(StoreLayout)
    else if Covers(AdminLayout, path) then Some(AdminLayout)
    else None
  }

  datatype Outcome = Shown | Redirected(target: string)

  /**
   * What a visitor with the given session user gets when opening a path: the
   * page is shown exactly when no layout guards it or its guard admits the
   * user, and a redirect goes where that guard sends the user.
   */
  function Visit(user: Option<User>, path: string): (o: Outcome)
    ensures o == Shown <==> GuardOf(path).None? || RendersChildren(user, GuardOf(path).value.allowedRoles)
    ensures o.Redirected? ==> GuardOf(path).Some? && RedirectTarget(user, GuardOf(path).value.allowedRoles) == Some(o.target)
  {
    match GuardOf(path)
    case None => Shown
    case Some(l) =>
      match RedirectTarget(user, l.allowedRoles)
      case None => Shown
      case Some(target) => Redirected(target)
  }

  lemma GuardOfCovered(l: Layout, path: string)
    requires l in AllLayouts && Covers(l, path)
    ensures GuardOf(path) == Some(l)
  {
    var g := GuardOf(path);
    CoversAtMostOne(g.value, l, path);
  }

  lemma PrefixCovers(l: Layout, rest: string)
    ensures Covers(l, "/" + l.segment + "/" + rest)
  {
    var p := "/" + l.segment + "/";
    assert (p + rest)[..|p|] == p;
  }

  /** A page below a section whose layout admits the user's role is shown to that user. */
  lemma ShownBelow(u: User, l: Layout, rest: string)
    requires l in AllLayouts && u.role in l.allowedRoles
    ensures Visit(Some(u), "/" + l.segment + "/" + rest) == Shown
  {
    PrefixCovers(l, rest);
    GuardOfCovered(l, "/" + l.segment + "/" + rest);
  }

  /** Each role's home lies in a section whose layout admits that role. */
  lemma HomeIsShown(u: User)
    ensures Visit(Some(u), HomeRoute(u)) == Shown
  {
    if u.role == EmployeeRole {
      EmployeeHomeShown(u);
    } else if u.role == AdminRole {
      AdminHomeShown(u);
    } else {
      ClientHomeShown(u);
    }
  }

  lemma EmployeeHomeShown(u: User)
    requires u.role == EmployeeRole
    ensures Visit(Some(u), HomeRoute(u)) == Shown
  {
    assert HomeRoute(u) == "/" + EmployeeLayout.segment + "/" + ("store/" + EventIdText(u.eventId));
    ShownBelow(u, EmployeeLayout, "store/" + EventIdText(u.eventId));
  }

  lemma AdminHomeShown(u: User)
    requires u.role == AdminRole
    ensures Visit(Some(u), HomeRoute(u)) == Shown
  {
    assert HomeRoute(u) == "/" + AdminLayout.segment + "/" + "events";
    ShownBelow(u, AdminLayout, "events");
  }

  lemma ClientHomeShown(u: User)
    requires u.role == ClientRole
    ensures Visit(Some(u), HomeRoute(u)) == Shown
  {
    assert HomeRoute(u) == "/" + ClientLayout.segment + "/" + "events";
    ShownBelow(u, ClientLayout, "events");
  }

  /** Following a redirect never leads to another redirect. */
  lemma NoRedirectLoop(user: Option<User>, path: string)
    ensures Visit(user, path).Redirected? ==> Visit(user, Visit(user, path).target) == Shown
  {
    if Visit(user, path).Redirected? {
      match user
      case None =>
        assert Visit(user, path).target == "/";
        assert GuardOf("/") == None;
      case Some(u) =>
        HomeIsShown(u);
    }
  }

  /** A visitor without a user is sent to the login page from every guarded section, and the login page is not guarded. */
  lemma UnauthenticatedGoesToLogin(path: string)
    ensures GuardOf(path).Some? ==> Visit(None, path) == Redirected("/")
    ensures Visit(None, "/") == Shown
  {
    assert GuardOf("/") == None;
  }

  /** Admins and employees see the employee section; clients are sent to their events. */
  lemma EmployeeSection(user: Option<User>, path: string)
    requires Covers(EmployeeLayout, path)
    ensures user.None? ==> Visit(user, path) == Redirected("/")
    ensures user.Some? && user.value.role == ClientRole ==> Visit(user, path) == Redirected("/client/events")
    ensures user.Some? && user.value.role != ClientRole ==> Visit(user, path) == Shown
  {
    GuardOfCovered(EmployeeLayout, path);
  }

  /** Clients and admins see the client section; employees are sent to their store. */
  lemma ClientSection(user: Option<User>, path: string)
    requires Covers(ClientLayout, path)
    ensures user.None? ==> Visit(user, path) == Redirected("/")
    ensures user.Some? && user.value.role == EmployeeRole ==>
      Visit(user, path) == Redirected("/employee/store/" + EventIdText(user.value.eventId))
    ensures user.Some? && user.value.role != EmployeeRole ==> Visit(user, path) == Shown
  {
    GuardOfCovered(ClientLayout, path);
  }

  /** Only admins see the reports; clients and employees are sent to their homes. */
  lemma ReportsSection(user: Option<User>, path: string)
    requires Covers(ReportsLayout, path)
    ensures user.None? ==> Visit(user, path) == Redirected("/")
    ensures user.Some? && user.value.role == ClientRole ==> Visit(user, path) == Redirected("/client/events")
    ensures user.Some? && user.value.role == EmployeeRole ==>
      Visit(user, path) == Redirected("/employee/store/" + EventIdText(user.value.eventId))
    ensures user.Some? && user.value.role == AdminRole ==> Visit(user, path) == Shown
  {
    GuardOfCovered(ReportsLayout, path);
  }

  /**
   * Clients and admins see the store; an employee is sent to the employee
   * store, which is a different section.
   */
  lemma StoreSection(user: Option<User>, path: string)
    requires Covers(StoreLayout, path)
    ensures user.None? ==> Visit(user, path) == Redirected("/")
    ensures user.Some? && user.value.role == EmployeeRole ==>
      Visit(user, path) == Redirected("/employee/store/" + EventIdText(user.value.eventId)) &&
      !Covers(StoreLayout, "/employee/store/" + EventIdText(user.value.eventId))
    ensures user.Some? && user.value.role != EmployeeRole ==> Visit(user, path) == Shown
  {
    GuardOfCovered(StoreLayout, path);
    if user.Some? && user.value.role == EmployeeRole {
      var t := "/employee/store/" + EventIdText(user.value.eventId);
      assert t[1] == 'e';
    }
  }

  /** Only admins see the admin section; clients and employees are sent to their homes. */
  lemma AdminSection(user: Option<User>, path: string)
    requires Covers(AdminLayout, path)
    ensures user.None? ==> Visit(user, path) == Redirected("/")
    ensures user.Some? && user.value.role == ClientRole ==> Visit(user, path) == Redirected("/client/events")
    ensures user.Some? && user.value.role == EmployeeRole ==>
      Visit(user, path) == Redirected("/employee/store/" + EventIdText(user.value.eventId))
    ensures user.Some? && user.value.role == AdminRole ==> Visit(user, path) == Shown
  {
    GuardOfCovered(AdminLayout, path);
  }

  /** An admin is shown every page. */
  lemma AdminSeesEverything(u: User, path: string)
    requires u.role == AdminRole
    ensures Visit(Some(u), path) == Shown
    ensures forall l :: l in AllLayouts ==> AdminRole in l.allowedRoles
  {
  }

  /** The store and the client section treat every visitor alike. */
  lemma StoreLikeClient(user: Option<User>, p: string, q: string)
    requires Covers(StoreLayout, p) && Covers(ClientLayout, q)
    ensures Visit(user, p) == Visit(user, q)
  {
    GuardOfCovered(StoreLayout, p);
    GuardOfCovered(ClientLayout, q);
  }
}
