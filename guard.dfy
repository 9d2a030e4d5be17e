/**
 * The account the authentication service reports. Which accounts are
 * administrators is decided by an `isAdmin` check that is not part of this
 * model; the components below take it as a parameter.
 */
module Auth {
  datatype User = User(uid: string, email: string)
}

/**
 * `src/components/ProtectedRoute.tsx`: the wrapper of the admin routes. It
 * waits for the first auth callback, then shows its children to an
 * administrator and sends everyone else home with the login modal.
 */
module Guard {
  import opened Wrappers
  import opened Auth

  /** What the wrapper renders: the spinner, a redirect to `/` with the login modal, or the children. */
  datatype Screen = Spinner | RedirectHome(modalOpen: bool) | Children

  /**
   * The render decision: the spinner while loading; the children only for a
   * signed-in administrator; otherwise the redirect, with the modal open as
   * the state says.
   */
  function Render(loading: bool, user: Option<User>, showLoginModal: bool, isAdmin: User -> bool): (s: Screen)
    ensures s == Spinner <==> loading
    ensures s == Children <==> !loading && user.Some? && isAdmin(user.value)
    ensures s.RedirectHome? <==> !loading && (user.None? || !isAdmin(user.value))
    ensures s.RedirectHome? ==> s.modalOpen == showLoginModal
  {
    if loading then Spinner
    else if user.None? || !isAdmin(user.value) then RedirectHome(showLoginModal)
    else Children
  }

  /** Being signed in without admin rights looks exactly like not being signed in. */
  lemma NonAdminLooksSignedOut(u: User, showLoginModal: bool, isAdmin: User -> bool)
    requires !isAdmin(u)
    ensures Render(false, Some(u), showLoginModal, isAdmin) == Render(false, None, showLoginModal, isAdmin)
    ensures Render(false, Some(u), showLoginModal, isAdmin) == RedirectHome(showLoginModal)
  {
  }

  class ProtectedRoute {
    /** The administrator check. */
    const isAdmin: User -> bool
    var user: Option<User>
    var loading: bool
    var showLoginModal: bool

    /** The state before the first auth callback: only the spinner shows. */
    constructor (isAdmin: User -> bool)
      ensures this.isAdmin == isAdmin
      ensures user.None? && loading && !showLoginModal
      ensures View() == Spinner
    {
      this.isAdmin := isAdmin;
      user := None;
      loading := true;
      showLoginModal := false;
    }

    function View(): Screen
      reads this`loading, this`user, this`showLoginModal
    {
      Render(loading, user, showLoginModal, isAdmin)
    }

    /**
     * The auth callback: stores the user and ends loading; a missing or
     * non-admin user opens the login modal, an administrator leaves it as it
     * was. Afterwards the children show exactly for an administrator, and
     * everyone else sees the redirect with the modal open.
     */
    method OnAuthStateChange(u: Option<User>)
      modifies this`user, this`loading, this`showLoginModal
      ensures user == u && !loading
      ensures u.None? || !isAdmin(u.value) ==> showLoginModal
      ensures u.Some? && isAdmin(u.value) ==> showLoginModal == old(showLoginModal)
      ensures View() == if u.Some? && isAdmin(u.value) then Children else RedirectHome(true)
    {
      user := u;
      loading := false;
      if u.None? || !isAdmin(u.value) {
        showLoginModal := true;
      }
    }

    /** `handleLoginSuccess`: closes the modal and nothing else. */
    method HandleLoginSuccess()
      modifies this`showLoginModal
      ensures !showLoginModal
    {
      showLoginModal := false;
    }

    /** `handleLoginClose`: closes the modal and nothing else. */
    method HandleLoginClose()
      modifies this`showLoginModal
      ensures !showLoginModal
    {
      showLoginModal := false;
    }
  }
}
