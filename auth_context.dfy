/**
 * `src/contexts/AuthContext.tsx`: the signed-in user, the session and the
 * user's role, the permissions derived from the role, and the handlers that
 * update them. The backend's answers (the session an auth event carries,
 * the reply to the role query) are parameters of the handlers.
 */
module AuthContext {
  import opened Wrappers

  /** `'admin' | 'user' | 'viewer'` */
  datatype Role = Admin | User | Viewer

  /** `isAdmin`, `isViewer` and `canModify` as the provider exposes them. */
  datatype Permissions = Permissions(isAdmin: bool, isViewer: bool, canModify: bool)

  function PermissionsOf(role: Option<Role>): Permissions {
    Permissions(role == Some(Admin), role == Some(Viewer), role == Some(Admin))
  }

  /**
   * Only an administrator may add, edit or delete products: the `user` and
   * `viewer` roles and the absence of a role may not. No role is both
   * administrator and viewer, and without a role every flag is off.
   */
  lemma OnlyAdminModifies(role: Option<Role>)
    ensures PermissionsOf(role).canModify <==> role == Some(Admin)
    ensures PermissionsOf(role).canModify == PermissionsOf(role).isAdmin
    ensures !(PermissionsOf(role).isAdmin && PermissionsOf(role).isViewer)
    ensures role.None? ==> PermissionsOf(role) == Permissions(false, false, false)
    ensures PermissionsOf(Some(User)) == Permissions(false, false, false)
  {
  }

  /** The outcome of `select("role").eq("user_id", id).maybeSingle()`. */
  datatype RoleReply = RoleRow(role: Role) | NoRow | QueryError

  /** `!error && data ? data.role : 'user'` */
  function RoleFromReply(reply: RoleReply): (r: Role)
    ensures reply.RoleRow? ==> r == reply.role
    ensures !reply.RoleRow? ==> r == User
  {
    if reply.RoleRow? then reply.role else User
  }

  /** A session as the auth events deliver it; its user may be absent. */
  datatype Session = Session(token: string, user: Option<string>)

  /** `currentSession?.user ?? null` */
  function SessionUser(s: Option<Session>): Option<string> {
    if s.Some? then s.value.user else None
  }

  class AuthProvider {
    var user: Option<string>
    var session: Option<Session>
    var userRole: Option<Role>
    var loading: bool

    /** The initial state: nobody signed in, no role, still loading. */
    constructor()
      ensures user == None && session == None && userRole == None && loading
    {
      user := None;
      session := None;
      userRole := None;
      loading := true;
    }

    function Permissions(): Permissions
      reads this
    {
      PermissionsOf(userRole)
    }

    /** `checkUserRole`: the role the reply names, or `User` when the query fails or finds no row. */
    method CheckUserRole(reply: RoleReply)
      modifies this
      ensures userRole == Some(RoleFromReply(reply))
      ensures user == old(user) && session == old(session) && loading == old(loading)
    {
      userRole := Some(RoleFromReply(reply));
    }

    /**
     * The `onAuthStateChange` listener: records the session and its user;
     * with a user, schedules a role check for that user (returned) and keeps
     * the role until it completes; without one, clears the role. Loading ends.
     */
    method OnAuthStateChange(s: Option<Session>) returns (check: Option<string>)
      modifies this
      ensures session == s && user == SessionUser(s) && !loading
      ensures user.None? ==> userRole == None && check == None
      ensures user.Some? ==> userRole == old(userRole) && check == user
    {
      session := s;
      user := SessionUser(s);
      if user.Some? {
        check := user;
      } else {
        userRole := None;
        check := None;
      }
      loading := false;
    }

    /**
     * The `getSession` callback on mount: like the listener, but when there
     * is no user it leaves the role as it is.
     */
    method OnInitialSession(s: Option<Session>) returns (check: Option<string>)
      modifies this
      ensures session == s && user == SessionUser(s) && !loading
      ensures userRole == old(userRole)
      ensures check == user
    {
      session := s;
      user := SessionUser(s);
      check := user;
      loading := false;
    }

    /** `signOut`: user, session and role cleared, then the sign-in page. */
    method SignOut() returns (navigateTo: string)
      modifies this
      ensures user == None && session == None && userRole == None
      ensures loading == old(loading)
      ensures navigateTo == "/auth"
    {
      user := None;
      session := None;
      userRole := None;
      navigateTo := "/auth";
    }
  }

  /** After signing out nobody may modify anything. */
  method SignOutRevokes(a: AuthProvider) returns (p: Permissions)
    modifies a
    ensures p == a.Permissions() && !p.canModify && !p.isAdmin && !p.isViewer
  {
    var _ := a.SignOut();
    p := a.Permissions();
  }
}
