/** The player look-up shared by the court-booking page and the americano-tournament
    page: a case-insensitive substring search over name and user name, capped at five
    suggestions. */
module UserSearch {
  import opened Text
  import Lists

  /** A registered user as the look-up sees it; a missing `nombre` or `usuario` is the
      empty string. For this look-up that is exact: it reads both fields with `?.`, and
      the empty string never contains a non-blank term, as `undefined?.…` never matches.
      The tournament page's partner search reads `nombre` without `?.` and throws on a
      missing one; that throw is not modelled. */
  datatype User = User(id: int, nombre: string, usuario: string)

  /** Most suggestions shown at once. */
  const MaxSuggestions: nat := 5

  /** `u.nombre?.toLowerCase().includes(t) || u.usuario?.toLowerCase().includes(t)`
      with `t` the lower-cased term. */
  predicate Matches(u: User, term: string) {
    ContainsCI(u.nombre, term) || ContainsCI(u.usuario, term)
  }

  /** Every user matching `term`, in list order. */
  function Matching(users: seq<User>, term: string): seq<User> {
    Lists.Filter(users, u => Matches(u, term))
  }

  /** The suggestions for `term`: none for a blank term, otherwise the first five
      matching users in list order. */
  function Search(users: seq<User>, term: string): (r: seq<User>)
    ensures |r| <= MaxSuggestions
    ensures IsBlank(term) ==> r == []
    ensures forall i :: 0 <= i < |r| ==> r[i] in users && Matches(r[i], term)
    ensures !IsBlank(term) && |r| < MaxSuggestions ==>
              forall j :: 0 <= j < |users| && Matches(users[j], term) ==> users[j] in r
    ensures !IsBlank(term) ==> r == Lists.Take(Matching(users, term), MaxSuggestions)
  {
    if IsBlank(term) then []
    else
      var all := Matching(users, term);
      var r := Lists.Take(all, MaxSuggestions);
      assert |r| < MaxSuggestions ==> r == all;
      r
  }

  /** Users further down the list never displace earlier suggestions: once five users
      match, adding users behind them changes nothing, and before that the new matches
      only come after the old ones. */
  lemma LaterUsersComeLast(users: seq<User>, more: seq<User>, term: string)
    ensures |Search(users, term)| == MaxSuggestions ==> Search(users + more, term) == Search(users, term)
    ensures Search(users, term) <= Search(users + more, term)
  {
    Lists.FilterAppend(users, more, u => Matches(u, term));
    var a := Matching(users, term);
    var b := Matching(more, term);
    if !IsBlank(term) {
      assert Matching(users + more, term) == a + b;
      if |a| >= MaxSuggestions {
        assert (a + b)[..MaxSuggestions] == a[..MaxSuggestions];
      }
    }
  }

  /** The suggestions keep the order of the user list. */
  lemma SearchKeepsOrder(users: seq<User>, term: string)
    ensures Lists.Subseq(Search(users, term), users)
  {
    if IsBlank(term) {
      Lists.SubseqOfEmpty(users);
    } else {
      var all := Matching(users, term);
      Lists.FilterIsSubseq(users, u => Matches(u, term));
      TakeIsSubseq(all, MaxSuggestions, users);
    }
  }

  lemma {:induction false} TakeIsSubseq(xs: seq<User>, n: nat, ys: seq<User>)
    requires Lists.Subseq(xs, ys)
    ensures Lists.Subseq(Lists.Take(xs, n), ys)
    decreases |ys|
  {
    if n < |xs| && xs != [] && ys != [] {
      var t := Lists.Take(xs, n);
      if n == 0 {
        Lists.SubseqOfEmpty(ys);
      } else if xs[0] == ys[0] {
        TakeIsSubseq(xs[1..], n - 1, ys[1..]);
        assert t[1..] == Lists.Take(xs[1..], n - 1);
      } else {
        TakeIsSubseq(xs, n, ys[1..]);
      }
    }
  }

  /** A user whose name contains the term in another letter case is still found. */
  lemma CaseDoesNotMatter(u: User, term: string)
    ensures Matches(u, term) <==> Matches(u, Lower(term))
  {
    LowerIdempotent(term);
  }

  lemma LowerIdempotent(s: string)
    ensures Lower(Lower(s)) == Lower(s)
  {
  }
}
