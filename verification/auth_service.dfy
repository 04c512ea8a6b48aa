/** `AuthService`: the signed-in user, kept both in memory and in the browser's storage
    (under `currentUser`, `userId` and `userRole`). */
module AuthService {
  import opened Wrappers
  import opened Storage

  /** The service's state: the store and the in-memory current user (`null` is `None`). */
  datatype Session = Session(store: Store, current: Option<User>)

  /** The role stored for a user: their `rol`, or 'alumno' when it is missing or empty. */
  function RoleOf(u: User): string {
    OrStr(u.rol, Some("alumno")).value
  }

  /** `setCurrentUser`: the user, their id and their role are stored, and the user becomes
      the current one; nothing else in the store changes. */
  function SetCurrentUser(s: Session, u: User): (t: Session)
    ensures t.current == Some(u)
    ensures "currentUser" in t.store && t.store["currentUser"] == UserJson(u)
    ensures "userId" in t.store && t.store["userId"] == Text(IdText(u.id))
    ensures "userRole" in t.store && t.store["userRole"] == Text(RoleOf(u))
    ensures forall k :: k in s.store && k !in {"currentUser", "userId", "userRole"} ==> k in t.store && t.store[k] == s.store[k]
    ensures t.store.Keys == s.store.Keys + {"currentUser", "userId", "userRole"}
  {
    Session(s.store["currentUser" := UserJson(u)]["userId" := Text(IdText(u.id))]["userRole" := Text(RoleOf(u))], Some(u))
  }

  /** `getCurrentUser`. */
  function GetCurrentUser(s: Session): Option<User>
  {
    s.current
  }

  /** `getUserRole`: the stored role when it is a non-empty text, otherwise 'alumno'. */
  function GetUserRole(s: Session): (r: string)
    ensures StoredRole(s.store) ==> r == s.store["userRole"].s
    ensures !StoredRole(s.store) ==> r == "alumno"
    ensures r != ""
  {
    if StoredRole(s.store) then s.store["userRole"].s else "alumno"
  }

  /** A non-empty role text is stored. */
  predicate StoredRole(store: Store) {
    "userRole" in store && store["userRole"].Text? && store["userRole"].s != ""
  }

  /** `loadUser`: a stored user becomes the current one; with none stored the current
      user is kept. */
  function LoadUser(s: Session): (t: Session)
    ensures t.store == s.store
    ensures "currentUser" in s.store && s.store["currentUser"].UserJson? ==> t.current == Some(s.store["currentUser"].user)
    ensures !TruthyItem(s.store, "currentUser") ==> t.current == s.current
  {
    if "currentUser" in s.store && s.store["currentUser"].UserJson? then s.(current := Some(s.store["currentUser"].user))
    else s
  }

  /** `logout`: the user, their id and their role leave the store and there is no current
      user; nothing else in the store changes. */
  function Logout(s: Session): (t: Session)
    ensures t.current.None?
    ensures "currentUser" !in t.store && "userId" !in t.store && "userRole" !in t.store
    ensures forall k :: k in s.store && k !in {"currentUser", "userId", "userRole"} ==> k in t.store && t.store[k] == s.store[k]
  {
    Session(RemoveAll(s.store, {"currentUser", "userId", "userRole"}), None)
  }

  /** `isAuthenticated`: there is a current user. */
  predicate IsAuthenticated(s: Session) {
    s.current.Some?
  }

  /** A new service (no current user) built on the store of a signed-in session restores
      the same user and role: signing in survives a page reload. */
  lemma ReloadRestoresUser(s: Session, u: User)
    ensures var stored := SetCurrentUser(s, u).store;
            && LoadUser(Session(stored, None)) == Session(stored, Some(u))
            && GetUserRole(Session(stored, None)) == RoleOf(u)
  {
    assert RoleOf(u) != "";
  }

  /** Signing in authenticates; signing out always ends authentication, and a reload after
      signing out brings nobody back. */
  lemma SignInOut(s: Session, u: User)
    ensures IsAuthenticated(SetCurrentUser(s, u))
    ensures !IsAuthenticated(Logout(s))
    ensures LoadUser(Session(Logout(s).store, None)).current.None?
    ensures GetUserRole(Logout(s)) == "alumno"
  {
  }
}
