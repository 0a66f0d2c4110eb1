/**
 * The login page's check for a browser that was closed without logging
 * out: localStorage survives the browser, sessionStorage does not, so a
 * stored user without the session flag is meant to be a stale session and
 * to be dropped. The page renders inside the authentication provider,
 * which sets the flag first, so as assembled the check never drops anything.
 */
module HomePage {
  import opened Wrappers
  import opened AuthContext

  /** The stores after the check. */
  function AfterBrowserCheck(s: StorageState): (t: StorageState)
    ensures t.sessionFlag == Some(FlagValue)
    ensures t.userItem == s.userItem || t.userItem == None
    ensures t.userItem != s.userItem <==> StoredUserPresent(s.userItem) && !SessionFlagPresent(s.sessionFlag)
  {
    var stale := StoredUserPresent(s.userItem) && !SessionFlagPresent(s.sessionFlag);
    StorageState(if stale then None else s.userItem, Some(FlagValue))
  }

  /** The check on the browser's stores. */
  method CheckBrowserClosed(storage: Storage)
    modifies storage
    ensures storage.State() == AfterBrowserCheck(old(storage.State()))
  {
    if StoredUserPresent(storage.userItem) && !SessionFlagPresent(storage.sessionFlag) {
      storage.userItem := None;
    }
    storage.sessionFlag := Some(FlagValue);
  }

  /** With the flag present the stored user is left alone. */
  lemma LiveSessionKeepsUser(s: StorageState)
    requires SessionFlagPresent(s.sessionFlag)
    ensures AfterBrowserCheck(s).userItem == s.userItem
  {
  }

  /** A stored user without the flag is gone after the check, so nothing stored can be loaded. */
  lemma StaleSessionDropsUser(s: StorageState)
    requires !SessionFlagPresent(s.sessionFlag)
    ensures !StoredUserPresent(AfterBrowserCheck(s).userItem)
  {
  }

  /** Running the check a second time changes nothing. */
  lemma BrowserCheckIdempotent(s: StorageState)
    ensures AfterBrowserCheck(AfterBrowserCheck(s)) == AfterBrowserCheck(s)
  {
  }

  /**
   * Once the provider has set the session flag, the check changes nothing:
   * the stored user is kept whatever it is.
   */
  lemma FlagSetDisarmsCheck(s: StorageState)
    requires s.sessionFlag == Some(FlagValue)
    ensures AfterBrowserCheck(s) == s
  {
  }

  /**
   * A browser reopened after being closed without logging out, in the order
   * the application runs: the provider wrapping the login page loads the
   * stored user and sets the session flag before it renders the page, so the
   * page's check finds the flag and the stale user is restored and kept.
   */
  method ReopenAsAssembled(auth: AuthProvider, u: User)
    requires !auth.RendersChildren() && auth.user == None
    requires auth.storage.userItem == Some(Serialized(u)) && auth.storage.sessionFlag == None
    modifies auth, auth.storage
    ensures auth.RendersChildren() && auth.user == Some(u)
    ensures auth.storage.userItem == Some(Serialized(u)) && auth.storage.sessionFlag == Some(FlagValue)
  {
    auth.LoadStoredUser();
    auth.MarkSessionActive();
    CheckBrowserClosed(auth.storage);
  }

  /**
   * The same reopening with the check run before the provider reads the
   * stored user, as the check's purpose requires: no user is restored, none
   * stays stored, and the session is marked live.
   */
  method ReopenCheckedFirst(auth: AuthProvider)
    requires !auth.RendersChildren() && auth.user == None && auth.storage.sessionFlag == None
    modifies auth, auth.storage
    ensures auth.RendersChildren() && auth.user == None
    ensures !StoredUserPresent(auth.storage.userItem) && auth.storage.sessionFlag == Some(FlagValue)
  {
    CheckBrowserClosed(auth.storage);
    auth.LoadStoredUser();
    auth.MarkSessionActive();
  }
}
