/** `CaseInsensitiveModelBackend` (`authentication_backend.py`), the backend Django's
    `authenticate()` consults: a user is found by username or e-mail, ignoring case. */
module Backend {
  import opened Wrappers
  import opened Text
  import opened Store

  /** A user row the lookup `Q(username__iexact=name) | Q(email__iexact=name)` selects. */
  predicate Selects(users: map<string, User>, u: string, name: string)
    requires u in users
  {
    SameIgnoringCase(u, name) || SameIgnoringCase(users[u].email, name)
  }

  /** The selected users, in primary-key order. */
  function MatchingUsers(order: seq<string>, users: map<string, User>, name: string): (r: seq<string>)
    requires forall k :: 0 <= k < |order| ==> order[k] in users
    ensures forall k :: 0 <= k < |r| ==> r[k] in users && Selects(users, r[k], name)
  {
    if order == [] then []
    else (if Selects(users, order[0], name) then [order[0]] else []) + MatchingUsers(order[1..], users, name)
  }

  /** Every selected user of the order is among the matches. */
  lemma {:induction false} MatchingUsersComplete(order: seq<string>, users: map<string, User>, name: string, k: nat)
    requires forall j :: 0 <= j < |order| ==> order[j] in users
    requires k < |order| && Selects(users, order[k], name)
    ensures order[k] in MatchingUsers(order, users, name)
    decreases k
  {
    if k > 0 {
      MatchingUsersComplete(order[1..], users, name, k - 1);
    }
  }

  /** `u` is the one user the lookup selects for `name`. */
  predicate OnlySelected(users: map<string, User>, u: string, name: string)
  {
    u in users && Selects(users, u, name) && forall v :: v in users && Selects(users, v, name) ==> v == u
  }

  /** Over an order without repeats in which the selected `u` is the only selected key, the matches are `u`
      alone if the order holds it, and nothing otherwise. */
  lemma {:induction false} MatchingOnly(order: seq<string>, users: map<string, User>, name: string, u: string)
    requires forall k :: 0 <= k < |order| ==> order[k] in users
    requires NoRepeats(order) && u in users && Selects(users, u, name)
    requires forall k :: 0 <= k < |order| && Selects(users, order[k], name) ==> order[k] == u
    ensures MatchingUsers(order, users, name) == if u in order then [u] else []
  {
    if order != [] {
      assert NoRepeats(order[1..]);
      MatchingOnly(order[1..], users, name, u);
      assert forall x :: x in order <==> x == order[0] || x in order[1..];
      if order[0] == u {
        assert u !in order[1..];
      }
    }
  }

  /** Under validity, a user the lookup alone selects is the whole list of matches. */
  lemma UniqueMatch(t: Tables, name: string)
    requires Valid(t)
    ensures forall k :: 0 <= k < |t.userOrder| ==> t.userOrder[k] in t.users
    ensures forall u :: OnlySelected(t.users, u, name) ==> MatchingUsers(t.userOrder, t.users, name) == [u]
  {
    forall u | OnlySelected(t.users, u, name)
      ensures MatchingUsers(t.userOrder, t.users, name) == [u]
    {
      assert NoRepeats(t.userOrder);
      MatchingOnly(t.userOrder, t.users, name, u);
    }
  }

  /** `user_can_authenticate`: the user row is active. */
  predicate CanAuthenticate(user: User)
  {
    user.isActive
  }

  /** `authenticate(username=name, password=password)`. `.get` raises DoesNotExist for no match,
      which gives None, and MultipleObjectsReturned for several, which is not caught. A wrong
      password or an inactive user falls off the end: None. */
  function Authenticate(t: Tables, name: string, password: string): (r: Result<Option<string>>)
    requires Valid(t)
    ensures r.Err? <==> |MatchingUsers(t.userOrder, t.users, name)| >= 2
    ensures r.Err? ==> r.error.Crash?
    ensures r.Ok? && r.value.Some? ==>
              (r.value.value in t.users && Selects(t.users, r.value.value, name)
               && t.users[r.value.value].password == password && CanAuthenticate(t.users[r.value.value]))
    ensures r.Ok? && r.value.Some? ==> forall u :: u in t.users && Selects(t.users, u, name) ==> u == r.value.value
    ensures (forall u :: u in t.users ==> !Selects(t.users, u, name)) ==> r == Ok(None)
    ensures forall u :: OnlySelected(t.users, u, name) && t.users[u].password == password && CanAuthenticate(t.users[u])
                        ==> r == Ok(Some(u))
  {
    UniqueMatch(t, name);
    var matches := MatchingUsers(t.userOrder, t.users, name);
    if matches == [] then Ok(None)
    else if |matches| >= 2 then Err(Crash("MultipleObjectsReturned"))
    else
      var u := matches[0];
      if t.users[u].password == password && CanAuthenticate(t.users[u]) then
        SelectedIsMatched(t, name);
        Ok(Some(u))
      else Ok(None)
  }

  /** Under validity, every selected user is among the matches. */
  lemma SelectedIsMatched(t: Tables, name: string)
    requires Valid(t)
    ensures forall k :: 0 <= k < |t.userOrder| ==> t.userOrder[k] in t.users
    ensures forall v :: v in t.users && Selects(t.users, v, name) ==> v in MatchingUsers(t.userOrder, t.users, name)
  {
    forall v | v in t.users && Selects(t.users, v, name)
      ensures v in MatchingUsers(t.userOrder, t.users, name)
    {
      var k :| 0 <= k < |t.userOrder| && t.userOrder[k] == v;
      MatchingUsersComplete(t.userOrder, t.users, name, k);
    }
  }

  /** Two users that the same name selects (one by username, another by e-mail, or two usernames
      differing only in case) make the lookup raise instead of choosing one. */
  lemma AmbiguousNameRaises(t: Tables, name: string, password: string, u: string, v: string)
    requires Valid(t) && u in t.users && v in t.users && u != v
    requires Selects(t.users, u, name) && Selects(t.users, v, name)
    ensures Authenticate(t, name, password) == Err(Crash("MultipleObjectsReturned"))
  {
    SelectedIsMatched(t, name);
    var matches := MatchingUsers(t.userOrder, t.users, name);
    assert u in matches && v in matches;
  }
}
