/**
 * The authentication context: the logged-in user, the copy of it kept in
 * localStorage under "user", the sessionStorage flag "appSessionActive"
 * that marks a live browser session, and the role-based helpers the pages
 * read from the context.
 */
module AuthContext {
  import opened Wrappers
  import opened JsText

  /** 0: client, 1: admin, 2: employee. */
  type UserRole = r: int | 0 <= r <= 2

  const ClientRole: UserRole := 0
  const AdminRole: UserRole := 1
  const EmployeeRole: UserRole := 2

  /** An employee carries the event whose store they work at. */
  datatype User = User(id: int, name: string, email: string, role: UserRole, eventId: Option<int>)

  /**
   * What localStorage holds under "user": the JSON that `login` wrote for a
   * user (which parses back to that user), or text that JSON.parse rejects.
   */
  datatype StoredUser = Serialized(user: User) | Unparseable(text: string)

  /** `if (localStorage.getItem('user'))`: a stored string is truthy unless it is empty. */
  predicate StoredUserPresent(item: Option<StoredUser>)
    ensures item.None? ==> !StoredUserPresent(item)
    ensures item.Some? && item.value.Serialized? ==> StoredUserPresent(item)
  {
    match item
    case None => false
    case Some(Serialized(_)) => true
    case Some(Unparseable(text)) => text != ""
  }

  /** `sessionStorage.getItem('appSessionActive')` read as a condition. */
  predicate SessionFlagPresent(flag: Option<string>)
    ensures flag == Some(FlagValue) ==> SessionFlagPresent(flag)
    ensures flag.None? ==> !SessionFlagPresent(flag)
  {
    flag.Some? && flag.value != ""
  }

  /** The value the pages write into the session flag. */
  const FlagValue: string := "true"

  datatype StorageState = StorageState(userItem: Option<StoredUser>, sessionFlag: Option<string>)

  /** The browser's two stores, restricted to the two entries the application uses. */
  class Storage {
    var userItem: Option<StoredUser>
    var sessionFlag: Option<string>

    constructor (userItem: Option<StoredUser>, sessionFlag: Option<string>)
      ensures this.userItem == userItem && this.sessionFlag == sessionFlag
    {
      this.userItem := userItem;
      this.sessionFlag := sessionFlag;
    }

    function State(): (s: StorageState)
      reads this
      ensures s.userItem == userItem && s.sessionFlag == sessionFlag
    {
      StorageState(userItem, sessionFlag)
    }
  }

  /** `hasRole(roles)`: false without a user, otherwise whether the user's role is listed. */
  predicate HasRole(user: Option<User>, roles: seq<UserRole>)
    ensures HasRole(user, roles) ==> user.Some?
    ensures user.Some? ==> (HasRole(user, roles) <==> exists i :: 0 <= i < |roles| && roles[i] == user.value.role)
  {
    match user
    case None => false
    case Some(u) => u.role in roles
  }

  /** `isAuthenticated: !!user`: true exactly when some role check can pass. */
  predicate IsAuthenticated(user: Option<User>)
    ensures IsAuthenticated(user) <==> exists roles :: HasRole(user, roles)
  {
    assert user.Some? ==> HasRole(user, [user.value.role]);
    user.Some?
  }

  /** `${eventId}`: the number, or "undefined" when the user has none. */
  function EventIdText(eventId: Option<int>): (r: string)
    ensures eventId.Some? && eventId.value >= 0 ==> AllDigits(r) && DecimalValue(r) == eventId.value
    ensures eventId.None? ==> !AllDigits(r)
  {
    match eventId
    case Some(e) => IntToStringValue(e); IntToString(e)
    case None => assert !IsDigit("undefined"[0]); "undefined"
  }

  /**
   * Where `login` sends a user: the employee's store, the admin's events, or
   * the client's events. Each role's home lies in that role's own section.
   */
  function HomeRoute(u: User): (r: string)
    ensures u.role == EmployeeRole <==> "/employee/store/" <= r
    ensures u.role == EmployeeRole ==> r == "/employee/store/" + EventIdText(u.eventId)
    ensures u.role == AdminRole <==> r == "/admin/events"
    ensures u.role == ClientRole <==> r == "/client/events"
  {
    if u.role == EmployeeRole then "/employee/store/" + EventIdText(u.eventId)
    else if u.role == AdminRole then "/admin/events"
    else "/client/events"
  }

  class AuthProvider {
    const storage: Storage
    var user: Option<User>
    var isLoadingUser: bool

    /** The provider starts with no user and still loading: its children are not rendered yet. */
    constructor (storage: Storage)
      ensures this.storage == storage && user == None && isLoadingUser
      ensures !RendersChildren()
    {
      this.storage := storage;
      user := None;
      isLoadingUser := true;
    }

    /** `{!isLoadingUser && children}`: the children are rendered once loading has ended. */
    predicate RendersChildren()
      reads this
      ensures RendersChildren() <==> !isLoadingUser
    {
      !isLoadingUser
    }

    /**
     * The first effect: a stored user that parses becomes the user; one that
     * does not parse is removed; with nothing stored the user is unchanged.
     * In every case loading ends, so the children are rendered from then on.
     */
    method LoadStoredUser()
      modifies this, storage
      ensures RendersChildren()
      ensures storage.sessionFlag == old(storage.sessionFlag)
      ensures match old(storage.userItem)
        case Some(Serialized(u)) => user == Some(u) && storage.userItem == old(storage.userItem)
        case Some(Unparseable(text)) =>
          user == old(user) && storage.userItem == (if text != "" then None else old(storage.userItem))
        case None => user == old(user) && storage.userItem == None
    {
      var storedUser := storage.userItem;
      if StoredUserPresent(storedUser) {
        match storedUser.value
        case Serialized(u) =>
          user := Some(u);
        case Unparseable(_) =>
          storage.userItem := None;
      }
      isLoadingUser := false;
    }

    /** The second effect: mark the browser session as active. */
    method MarkSessionActive()
      modifies storage
      ensures storage.sessionFlag == Some(FlagValue) && storage.userItem == old(storage.userItem)
    {
      storage.sessionFlag := Some(FlagValue);
    }

    /** `login`: remember the user in state and in localStorage, set the session flag, and go to the role's home. */
    method Login(userData: User) returns (target: string)
      modifies this, storage
      ensures user == Some(userData) && isLoadingUser == old(isLoadingUser)
      ensures storage.userItem == Some(Serialized(userData)) && storage.sessionFlag == Some(FlagValue)
      ensures target == HomeRoute(userData)
      ensures IsAuthenticated(user) && forall roles :: HasRole(user, roles) <==> userData.role in roles
    {
      user := Some(userData);
      storage.userItem := Some(Serialized(userData));
      storage.sessionFlag := Some(FlagValue);
      if userData.role == EmployeeRole {
        target := "/employee/store/" + EventIdText(userData.eventId);
      } else if userData.role == AdminRole {
        target := "/admin/events";
      } else {
        target := "/client/events";
      }
    }

    /** `logout`: forget the user everywhere and go to the login page; no role check can pass afterwards. */
    method Logout() returns (target: string)
      modifies this, storage
      ensures user == None && isLoadingUser == old(isLoadingUser)
      ensures storage.userItem == None && storage.sessionFlag == None
      ensures target == "/"
      ensures !IsAuthenticated(user) && forall roles :: !HasRole(user, roles)
    {
      user := None;
      storage.userItem := None;
      storage.sessionFlag := None;
      target := "/";
    }
  }

  /** Logging in and then out leaves neither the stored user nor the session flag behind. */
  method LoginThenLogout(auth: AuthProvider, u: User) returns (home: string, exit: string)
    modifies auth, auth.storage
    ensures home == HomeRoute(u) && exit == "/"
    ensures auth.storage.userItem == None && auth.storage.sessionFlag == None
    ensures !IsAuthenticated(auth.user)
  {
    home := auth.Login(u);
    exit := auth.Logout();
  }

  /** Every role has a home route, and the three homes are distinct. */
  lemma HomeRoutesDistinct(a: User, b: User)
    ensures a.role != b.role ==> HomeRoute(a) != HomeRoute(b)
  {
    if a.role != b.role {
      var ha, hb := HomeRoute(a), HomeRoute(b);
      assert ha[1] != hb[1];
    }
  }
}
