/** The browser's `localStorage` as a map from keys to stored values, and the user record
    the session services keep in it. */
module Storage {
  import opened Wrappers
  import opened Text

  /** The signed-in user, as the login answer gives it. */
  datatype User = User(id: Option<int>, rol: Option<string>, nombre: string)

  /** A stored value: a plain text, or the JSON text of a user (`JSON.stringify`), which
      `JSON.parse` reads back as that user. */
  datatype Stored = Text(s: string) | UserJson(user: User)

  type Store = map<string, Stored>

  /** JavaScript truthiness of `localStorage.getItem(k)`: a missing key (`null`) and the
      empty text are falsy; the JSON text of a user is never empty. */
  predicate TruthyItem(store: Store, k: string) {
    k in store && (store[k].Text? ==> store[k].s != "")
  }

  /** `localStorage.removeItem` of several keys: exactly those keys go, the rest stay. */
  function RemoveAll(store: Store, keys: set<string>): (r: Store)
    ensures forall k :: k in keys ==> k !in r
    ensures forall k :: k in store && k !in keys ==> k in r && r[k] == store[k]
    ensures r.Keys <= store.Keys
  {
    store - keys
  }

  /** `String(user.id)`, as `setItem` stores a number; a missing id is stored as the text
      "undefined". */
  function IdText(id: Option<int>): string {
    match id
    case Some(n) => IntToString(n)
    case None => "undefined"
  }
}
