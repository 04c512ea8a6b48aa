/** `ApiService`'s copy of the signed-in user: unlike `AuthService` it stores only the user
    record, and signing out leaves the stored role behind. */
module ApiService {
  import opened Wrappers
  import opened Storage

  datatype Session = Session(store: Store, current: Option<User>)

  /** `setCurrentUser`: only the user record is stored; the user becomes the current one. */
  function SetCurrentUser(s: Session, u: User): (t: Session)
    ensures t.current == Some(u)
    ensures "currentUser" in t.store && t.store["currentUser"] == UserJson(u)
    ensures forall k :: k in s.store && k != "currentUser" ==> k in t.store && t.store[k] == s.store[k]
    ensures t.store.Keys == s.store.Keys + {"currentUser"}
  {
    Session(s.store["currentUser" := UserJson(u)], Some(u))
  }

  /** `getCurrentUser`. */
  function GetCurrentUser(s: Session): Option<User>
  {
    s.current
  }

  /** `loadUser`: a stored user becomes the current one; with none stored the current user
      is kept. */
  function LoadUser(s: Session): (t: Session)
    ensures t.store == s.store
    ensures "currentUser" in s.store && s.store["currentUser"].UserJson? ==> t.current == Some(s.store["currentUser"].user)
    ensures !TruthyItem(s.store, "currentUser") ==> t.current == s.current
  {
    if "currentUser" in s.store && s.store["currentUser"].UserJson? then s.(current := Some(s.store["currentUser"].user))
    else s
  }

  /** `logout`: the user record and the user id leave the store, the role stays, and there
      is no current user. */
  function Logout(s: Session): (t: Session)
    ensures t.current.None?
    ensures "currentUser" !in t.store && "userId" !in t.store
    ensures forall k :: k in s.store && k != "currentUser" && k != "userId" ==> k in t.store && t.store[k] == s.store[k]
  {
    Session(RemoveAll(s.store, {"currentUser", "userId"}), None)
  }

  predicate IsAuthenticated(s: Session) {
    s.current.Some?
  }

  /** The last user set is the one returned, and survives a reload. */
  lemma LastUserWins(s: Session, u: User, v: User)
    ensures GetCurrentUser(SetCurrentUser(SetCurrentUser(s, u), v)) == Some(v)
    ensures LoadUser(Session(SetCurrentUser(SetCurrentUser(s, u), v).store, None)).current == Some(v)
  {
  }

  /** Signing out through this service leaves a stored role behind. */
  lemma LogoutKeepsRole(s: Session)
    requires "userRole" in s.store
    ensures "userRole" in Logout(s).store && Logout(s).store["userRole"] == s.store["userRole"]
    ensures !IsAuthenticated(Logout(s))
  {
  }
}
