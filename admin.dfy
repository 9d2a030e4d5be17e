/**
 * `src/components/admin/AdminIntegration.tsx`: an in-page admin area with a
 * hidden trigger, the dashboard and the editor, switched by a view state and
 * guarded by the auth callback.
 */
module Admin {
  import opened Wrappers
  import opened Auth
  import opened Posts

  datatype AdminView = Hidden | DashboardView | EditorView

  /** What the component renders. */
  datatype Screen = Trigger(modalOpen: bool) | ShowDashboard | ShowEditor(post: Option<Entry>) | Nothing

  /**
   * The render decision: the hidden trigger (with the login modal) when
   * nobody is stored and the view is hidden, the dashboard or the editor when
   * a user is stored and the view says so, and nothing in every other case.
   */
  function Render(user: Option<User>, view: AdminView, showLoginModal: bool, editingPost: Option<Entry>): (s: Screen)
    ensures s.Trigger? <==> user.None? && view == Hidden
    ensures s == ShowDashboard <==> user.Some? && view == DashboardView
    ensures s.ShowEditor? <==> user.Some? && view == EditorView
    ensures s.Nothing? <==> (user.Some? && view.Hidden?) || (user.None? && !view.Hidden?)
    ensures s.Trigger? ==> s.modalOpen == showLoginModal
    ensures s.ShowEditor? ==> s.post == editingPost
  {
    if user.None? && view == Hidden then Trigger(showLoginModal)
    else if user.Some? && view == DashboardView then ShowDashboard
    else if user.Some? && view == EditorView then ShowEditor(editingPost)
    else Nothing
  }

  /**
   * The state every handler keeps: a stored user is an administrator, and
   * with a user stored the view is never hidden.
   */
  predicate Consistent(user: Option<User>, view: AdminView, isAdmin: User -> bool)
  {
    user.Some? ==> isAdmin(user.value) && view != Hidden
  }

  /**
   * In a consistent state only an administrator sees the dashboard or the
   * editor, and the screen is blank only between a login and its callback.
   */
  lemma AdminScreensNeedAdmin(user: Option<User>, view: AdminView, showLoginModal: bool, editingPost: Option<Entry>, isAdmin: User -> bool)
    requires Consistent(user, view, isAdmin)
    ensures Render(user, view, showLoginModal, editingPost) == ShowDashboard ==> user.Some? && isAdmin(user.value)
    ensures Render(user, view, showLoginModal, editingPost).ShowEditor? ==> user.Some? && isAdmin(user.value)
    ensures Render(user, view, showLoginModal, editingPost) == Nothing <==> user.None? && view != Hidden
  {
  }

  class AdminIntegration {
    /** The administrator check. */
    const isAdmin: User -> bool
    var user: Option<User>
    var showLoginModal: bool
    var adminView: AdminView
    var editingPost: Option<Entry>

    ghost predicate Valid()
      reads this`user, this`adminView
    {
      Consistent(user, adminView, isAdmin)
    }

    /** The initial state: nobody stored, view hidden, modal closed. */
    constructor (isAdmin: User -> bool)
      ensures this.isAdmin == isAdmin && Valid()
      ensures user.None? && !showLoginModal && adminView == Hidden && editingPost.None?
    {
      this.isAdmin := isAdmin;
      user := None;
      showLoginModal := false;
      adminView := Hidden;
      editingPost := None;
    }

    function View(): Screen
      reads this`user, this`adminView, this`showLoginModal, this`editingPost
    {
      Render(user, adminView, showLoginModal, editingPost)
    }

    /**
     * The auth callback: an administrator is stored and a hidden view turns
     * into the dashboard, an open dashboard or editor stays; anybody else
     * clears the user, hides the admin area and drops the post being edited.
     */
    method OnAuthStateChange(u: Option<User>)
      requires Valid()
      modifies this`user, this`adminView, this`editingPost
      ensures Valid()
      ensures u.Some? && isAdmin(u.value) ==>
        && user == u && editingPost == old(editingPost)
        && adminView == (if old(adminView) == Hidden then DashboardView else old(adminView))
      ensures u.None? || !isAdmin(u.value) ==> user.None? && adminView == Hidden && editingPost.None?
    {
      if u.Some? && isAdmin(u.value) {
        user := u;
        if adminView == Hidden {
          adminView := DashboardView;
        }
      } else {
        user := None;
        adminView := Hidden;
        editingPost := None;
      }
    }

    /** `handleLoginSuccess`: opens the dashboard; the user arrives with the next auth callback. */
    method HandleLoginSuccess()
      requires Valid()
      modifies this`adminView
      ensures Valid() && adminView == DashboardView
    {
      adminView := DashboardView;
    }

    /** `handleLogout`: forgets the user, hides the admin area, drops the post being edited. */
    method HandleLogout()
      requires Valid()
      modifies this`user, this`adminView, this`editingPost
      ensures Valid() && user.None? && adminView == Hidden && editingPost.None?
      ensures View() == Trigger(showLoginModal)
    {
      user := None;
      adminView := Hidden;
      editingPost := None;
    }

    /**
     * `handleLogout` followed by the auth effect it triggers: the effect
     * depends on the view, so hiding the view subscribes again, and the new
     * subscription reports the session's `current` user. Since `handleLogout`
     * does not sign out, an administrator is put back on the dashboard.
     */
    method LogoutAndResubscribe(current: Option<User>)
      requires Valid()
      modifies this`user, this`adminView, this`editingPost
      ensures Valid() && editingPost.None?
      ensures current.Some? && isAdmin(current.value) ==> user == current && adminView == DashboardView
      ensures current.None? || !isAdmin(current.value) ==> user.None? && adminView == Hidden
    {
      HandleLogout();
      OnAuthStateChange(current);
    }

    /** `handleCreatePost`: the editor with an empty form. */
    method HandleCreatePost()
      requires Valid()
      modifies this`editingPost, this`adminView
      ensures Valid() && editingPost.None? && adminView == EditorView
    {
      editingPost := None;
      adminView := EditorView;
    }

    /** `handleEditPost(post)`: the editor with that post. */
    method HandleEditPost(post: Entry)
      requires Valid()
      modifies this`editingPost, this`adminView
      ensures Valid() && editingPost == Some(post) && adminView == EditorView
      ensures user.Some? ==> View() == ShowEditor(Some(post))
    {
      editingPost := Some(post);
      adminView := EditorView;
    }

    /** `handleSavePost`: back to the dashboard, no post being edited. */
    method HandleSavePost()
      requires Valid()
      modifies this`editingPost, this`adminView
      ensures Valid() && editingPost.None? && adminView == DashboardView
    {
      editingPost := None;
      adminView := DashboardView;
    }

    /** `handleCancelEdit`: the same transition as a save. */
    method HandleCancelEdit()
      requires Valid()
      modifies this`editingPost, this`adminView
      ensures Valid() && editingPost.None? && adminView == DashboardView
    {
      editingPost := None;
      adminView := DashboardView;
    }

    /** A click on the hidden trigger: only the third click of a sequence (`detail === 3`) opens the modal. */
    method HandleTriggerClick(detail: int)
      modifies this`showLoginModal
      ensures showLoginModal == (detail == 3 || old(showLoginModal))
    {
      if detail == 3 {
        showLoginModal := true;
      }
    }

    /** The modal's close button. */
    method HandleModalClose()
      modifies this`showLoginModal
      ensures !showLoginModal
    {
      showLoginModal := false;
    }
  }
}
