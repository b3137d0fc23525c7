/** The management commands that fill the access tables: `register_services` (present twice,
    as `api/management/commands/register_services.py` and `management/commands/register_services.py`,
    with the same text) turns the route names of the API router into `ApiService` rows, and
    `add_user_roles` seeds the `UserRole` table. Neither runs inside a transaction: a write made
    before a failure stays. A `CommandError` is a `Crash` whose reason is its message. */
module Registry {
  import opened Wrappers
  import opened Text
  import opened Models
  import opened Store

  /** An entry of `router.urls`: a list of URL patterns, given by their names, or anything
      else, which the command skips. */
  datatype UrlEntry = Patterns(names: seq<string>) | OtherEntry

  /** The names an entry contributes to the scan. */
  function EntryNames(e: UrlEntry): seq<string>
  {
    match e
    case Patterns(names) => names
    case OtherEntry => []
  }

  /** Every pattern name in scan order. */
  function DeclaredNames(urls: seq<UrlEntry>): seq<string>
    decreases |urls|
  {
    if urls == [] then [] else DeclaredNames(urls[..|urls| - 1]) + EntryNames(urls[|urls| - 1])
  }

  /** The scan of consecutive parts of the router is the scan of the parts, one after the other. */
  lemma {:induction false} DeclaredNamesAppend(a: seq<UrlEntry>, b: seq<UrlEntry>)
    ensures DeclaredNames(a + b) == DeclaredNames(a) + DeclaredNames(b)
    decreases |b|
  {
    if b != [] {
      assert (a + b)[..|a + b| - 1] == a + b[..|b| - 1];
      DeclaredNamesAppend(a, b[..|b| - 1]);
    } else {
      assert a + b == a;
    }
  }

  /** Names of the schema and root views, which the command does not register. */
  predicate Excluded(name: string)
  {
    Contains(name, "openapi") || Contains(name, "root")
  }

  /** The names put in the payload, in scan order. */
  function Registrable(names: seq<string>): (r: seq<string>)
    ensures forall n :: n in r <==> n in names && !Excluded(n)
    decreases |names|
  {
    if names == [] then []
    else
      var last := names[|names| - 1];
      assert forall n :: n in names <==> n in names[..|names| - 1] || n == last;
      Registrable(names[..|names| - 1]) + (if Excluded(last) then [] else [last])
  }

  /** The first name the scan meets a second time. */
  function FirstRepeat(names: seq<string>): (r: Option<string>)
    decreases |names|
  {
    if names == [] then None
    else
      var init := names[..|names| - 1];
      match FirstRepeat(init)
      case Some(n) => Some(n)
      case None => if names[|names| - 1] in init then Some(names[|names| - 1]) else None
  }

  /** The scan finds a repeat exactly when some name occurs twice, and the repeat it finds is
      such a name. */
  lemma {:induction false} FirstRepeatFinds(names: seq<string>)
    ensures FirstRepeat(names).None? <==> NoRepeats(names)
    ensures FirstRepeat(names).Some? ==>
              exists i, j :: 0 <= i < j < |names| && names[i] == FirstRepeat(names).value && names[j] == names[i]
    decreases |names|
  {
    if names != [] {
      var init := names[..|names| - 1];
      var last := names[|names| - 1];
      FirstRepeatFinds(init);
      if FirstRepeat(init).Some? {
        var i, j :| 0 <= i < j < |init| && init[i] == FirstRepeat(init).value && init[j] == init[i];
        assert names[i] == init[i] && names[j] == init[j];
      } else if last in init {
        var i :| 0 <= i < |init| && init[i] == last;
        assert names[i] == last;
      } else {
        forall i, j | 0 <= i < j < |names|
          ensures names[i] != names[j]
        {
          if j == |names| - 1 {
            assert names[i] == init[i];
          } else {
            assert names[i] == init[i] && names[j] == init[j];
          }
        }
      }
    }
  }

  /** Once the scan has met a repeat, scanning on does not change which one it reports. */
  lemma {:induction false} FirstRepeatExtend(names: seq<string>, more: seq<string>)
    requires FirstRepeat(names).Some?
    ensures FirstRepeat(names + more) == FirstRepeat(names)
    decreases |more|
  {
    if more == [] {
      assert names + more == names;
    } else {
      assert (names + more)[..|names + more| - 1] == names + more[..|more| - 1];
      FirstRepeatExtend(names, more[..|more| - 1]);
    }
  }

  /** The `ValueError` text, wrapped in the `CommandError` text. */
  function DuplicateMessage(name: string): string
  {
    "error: Duplicate function name detected: " + name + "..please change function name."
  }

  /** `ApiService.objects.update(is_active=False)` */
  function Deactivated(services: map<string, ApiService>): (r: map<string, ApiService>)
  {
    map c | c in services :: services[c].(isActive := false)
  }

  /** `ApiService.objects.bulk_create(..., update_conflicts=True, unique_fields=["code_name"])`:
      a name with a row has that row made active again; any other name gets a new active row. */
  function Upserted(services: map<string, ApiService>, names: seq<string>): (r: map<string, ApiService>)
  {
    services + map n | n in names :: NewApiService(n)
  }

  /** `register_services`. `insertError` is the error the database raises on the bulk insert,
      if it raises one (such as a name longer than the column); the deactivation before it has
      already been committed then. */
  function RegisterServices(services: map<string, ApiService>, urls: seq<UrlEntry>, insertError: Option<string>)
    : (Outcome, map<string, ApiService>)
  {
    var names := DeclaredNames(urls);
    match FirstRepeat(names)
    case Some(n) => (Fail(Crash(DuplicateMessage(n))), services)
    case None =>
      match insertError
      case Some(e) => (Fail(Crash("error: " + e)), Deactivated(services))
      case None => (Pass, Upserted(Deactivated(services), Registrable(names)))
  }

  /** A name declared twice, even a schema or root name that is never registered, stops the
      command before any write, naming a name that occurs twice; a scan without repeats never
      fails that way. */
  lemma RegisterServicesRefusesDuplicates(services: map<string, ApiService>, urls: seq<UrlEntry>, insertError: Option<string>)
    ensures var (r, services') := RegisterServices(services, urls, insertError);
            var names := DeclaredNames(urls);
            (!NoRepeats(names) ==> services' == services && r.Fail?
                                   && exists i, j :: 0 <= i < j < |names| && names[i] == names[j]
                                                     && r.error == Crash(DuplicateMessage(names[i])))
            && (NoRepeats(names) ==> (r.Pass? <==> insertError.None?))
  {
    FirstRepeatFinds(DeclaredNames(urls));
  }

  /** After a successful run the active services are exactly the registrable declared names;
      no row is deleted, and a row whose name is no longer declared stays, inactive. Each row is
      still keyed by its code name. */
  lemma RegisterServicesActiveSet(services: map<string, ApiService>, urls: seq<UrlEntry>)
    requires forall c :: c in services ==> services[c].codeName == c
    requires RegisterServices(services, urls, None).0.Pass?
    ensures var services' := RegisterServices(services, urls, None).1;
            var names := DeclaredNames(urls);
            (forall c :: c in services' && services'[c].isActive <==> c in names && !Excluded(c))
            && services.Keys <= services'.Keys
            && (forall c :: c in services' ==> c in services || c in names)
            && (forall c :: c in services && c !in names ==> !services'[c].isActive)
            && (forall c :: c in services' ==> services'[c].codeName == c)
  {
  }

  /** Deactivating and upserting the same names a second time changes nothing. */
  lemma UpsertAgain(services: map<string, ApiService>, names: seq<string>)
    ensures var once := Upserted(Deactivated(services), names);
            Upserted(Deactivated(once), names) == once
  {
    var once := Upserted(Deactivated(services), names);
    var again := Upserted(Deactivated(once), names);
    assert again.Keys == once.Keys;
    forall c | c in again
      ensures again[c] == once[c]
    {
      if c !in names {
        assert once[c] == services[c].(isActive := false);
      }
    }
  }

  /** Running the command again over the same routes changes nothing. */
  lemma RegisterServicesIdempotent(services: map<string, ApiService>, urls: seq<UrlEntry>)
    requires RegisterServices(services, urls, None).0.Pass?
    ensures var services' := RegisterServices(services, urls, None).1;
            RegisterServices(services', urls, None) == (Pass, services')
  {
    UpsertAgain(services, Registrable(DeclaredNames(urls)));
  }

  /** A failed bulk insert leaves every row in place and every row inactive: until the command
      is run again, no service is accessible. */
  lemma RegisterServicesInsertFailure(services: map<string, ApiService>, urls: seq<UrlEntry>, e: string)
    requires NoRepeats(DeclaredNames(urls))
    ensures var (r, services') := RegisterServices(services, urls, Some(e));
            r == Fail(Crash("error: " + e)) && services'.Keys == services.Keys
            && forall c :: c in services' ==> !services'[c].isActive
  {
    FirstRepeatFinds(DeclaredNames(urls));
  }

  /** `register_services` on the service table: the scan of the router builds the set of names
      seen and the payload in one pass, then the table is deactivated and upserted. */
  method RegisterServicesOn(db: Database, urls: seq<UrlEntry>, insertError: Option<string>) returns (r: Outcome)
    modifies db`services
    ensures (r, db.services) == RegisterServices(old(db.services), urls, insertError)
  {
    var seen: set<string> := {};
    var payload: seq<string> := [];
    var i := 0;
    while i < |urls|
      invariant 0 <= i <= |urls|
      invariant FirstRepeat(DeclaredNames(urls[..i])).None?
      invariant forall n :: n in seen <==> n in DeclaredNames(urls[..i])
      invariant payload == Registrable(DeclaredNames(urls[..i]))
      invariant db.services == old(db.services)
    {
      DeclaredNamesStep(urls, i);
      var names := EntryNames(urls[i]);
      assert DeclaredNames(urls[..i]) + names[..0] == DeclaredNames(urls[..i]);
      var j := 0;
      while j < |names|
        invariant 0 <= j <= |names|
        invariant FirstRepeat(DeclaredNames(urls[..i]) + names[..j]).None?
        invariant forall n :: n in seen <==> n in DeclaredNames(urls[..i]) + names[..j]
        invariant payload == Registrable(DeclaredNames(urls[..i]) + names[..j])
        invariant db.services == old(db.services)
      {
        var name := names[j];
        var scanned := DeclaredNames(urls[..i]) + names[..j];
        ScanOne(scanned, name);
        PrefixStep(DeclaredNames(urls[..i]), names, j);
        if name in seen {
          ScanStopsAt(urls, i, j);
          return Fail(Crash(DuplicateMessage(name)));
        }
        seen := seen + {name};
        if !Excluded(name) {
          payload := payload + [name];
        }
        j := j + 1;
      }
      assert names[..j] == names;
      i := i + 1;
    }
    assert urls[..i] == urls;
    db.services := Deactivated(db.services);
    if insertError.Some? {
      return Fail(Crash("error: " + insertError.value));
    }
    db.services := Upserted(db.services, payload);
    return Pass;
  }

  /** The scan of the whole router is the scan before entry `i`, then entry `i`, then the rest. */
  lemma DeclaredNamesAround(urls: seq<UrlEntry>, i: nat)
    requires i < |urls|
    ensures DeclaredNames(urls) == DeclaredNames(urls[..i]) + EntryNames(urls[i]) + DeclaredNames(urls[i + 1..])
  {
    var before, after := urls[..i], urls[i + 1..];
    SplitAround(urls, i);
    DeclaredNamesAppend(before, [urls[i]] + after);
    DeclaredNamesAppend([urls[i]], after);
    DeclaredNamesOne(urls[i]);
  }

  /** A router is its entries before `i`, entry `i`, and the entries after it. */
  lemma SplitAround(urls: seq<UrlEntry>, i: nat)
    requires i < |urls|
    ensures urls == urls[..i] + ([urls[i]] + urls[i + 1..])
  {
  }

  /** The scan of a single entry. */
  lemma DeclaredNamesOne(e: UrlEntry)
    ensures DeclaredNames([e]) == EntryNames(e)
  {
    assert [e][..0] == [];
  }

  /** A name met again right after a scan without repeats is the repeat reported. */
  lemma FirstRepeatAt(scanned: seq<string>, name: string)
    requires FirstRepeat(scanned).None? && name in scanned
    ensures FirstRepeat(scanned + [name]) == Some(name)
  {
    assert (scanned + [name])[..|scanned|] == scanned;
  }

  /** When the scan meets the name at position `j` of entry `i` a second time, that is the
      repeat the whole scan reports. */
  lemma ScanStopsAt(urls: seq<UrlEntry>, i: nat, j: nat)
    requires i < |urls| && j < |EntryNames(urls[i])|
    requires FirstRepeat(DeclaredNames(urls[..i]) + EntryNames(urls[i])[..j]).None?
    requires EntryNames(urls[i])[j] in DeclaredNames(urls[..i]) + EntryNames(urls[i])[..j]
    ensures FirstRepeat(DeclaredNames(urls)) == Some(EntryNames(urls[i])[j])
  {
    var names := EntryNames(urls[i]);
    var before := DeclaredNames(urls[..i]);
    var after := DeclaredNames(urls[i + 1..]);
    var scanned := before + names[..j];
    FirstRepeatAt(scanned, names[j]);
    FirstRepeatExtend(scanned + [names[j]], names[j + 1..] + after);
    DeclaredNamesAround(urls, i);
    Regroup(before, names, j, after);
  }

  /** The scan regrouped around the name at position `j` of one entry. */
  lemma Regroup(before: seq<string>, names: seq<string>, j: nat, after: seq<string>)
    requires j < |names|
    ensures before + names + after == (before + names[..j]) + [names[j]] + (names[j + 1..] + after)
  {
    assert names == names[..j] + [names[j]] + names[j + 1..];
  }

  /** The scan up to entry `i` included. */
  lemma DeclaredNamesStep(urls: seq<UrlEntry>, i: nat)
    requires i < |urls|
    ensures DeclaredNames(urls[..i + 1]) == DeclaredNames(urls[..i]) + EntryNames(urls[i])
  {
    assert urls[..i + 1][..i] == urls[..i];
  }

  /** One more name scanned: the repeat found so far, or this name if it was seen, and the
      payload grown by the name unless it is excluded. */
  lemma ScanOne(scanned: seq<string>, name: string)
    ensures FirstRepeat(scanned + [name])
            == if FirstRepeat(scanned).Some? then FirstRepeat(scanned) else if name in scanned then Some(name) else None
    ensures Registrable(scanned + [name]) == Registrable(scanned) + (if Excluded(name) then [] else [name])
  {
    assert (scanned + [name])[..|scanned|] == scanned;
  }

  /** The prefix of an entry grown by one name. */
  lemma PrefixStep(before: seq<string>, names: seq<string>, j: nat)
    requires j < |names|
    ensures before + names[..j + 1] == (before + names[..j]) + [names[j]]
  {
    assert names[..j + 1] == names[..j] + [names[j]];
  }

  /** The roles `add_user_roles` seeds, in the order it seeds them. */
  const SEEDED_ROLES: seq<string> := [ADMIN, MANAGER, TECHNICIAN, NORMAL_USER, FIELD_RELATIONSHIP_MANAGER]

  /** `UserRole.objects.get_or_create(name=name)`: an existing row is left as it is; a new one
      gets the next id. */
  function GetOrCreateRole(roles: map<string, UserRole>, name: string, nextId: nat): map<string, UserRole>
  {
    if name in roles then roles else roles[name := NewUserRole(nextId, name)]
  }

  /** The `get_or_create` calls for `names` in turn, ids handed out from `nextId` on. The call at
      position `failAt` raises (a database error), which becomes a `CommandError`; the rows
      created before it stay. A `failAt` past the end means no call raises. */
  function SeedRoles(roles: map<string, UserRole>, names: seq<string>, nextId: nat, failAt: nat): (Outcome, map<string, UserRole>)
    decreases |names|
  {
    if names == [] then (Pass, roles)
    else if failAt == 0 then (Fail(Crash("CommandError")), roles)
    else SeedRoles(GetOrCreateRole(roles, names[0], nextId), names[1..],
                   if names[0] in roles then nextId else nextId + 1, failAt - 1)
  }

  /** `add_user_roles` */
  function AddUserRoles(roles: map<string, UserRole>, nextId: nat, failAt: nat): (Outcome, map<string, UserRole>)
  {
    SeedRoles(roles, SEEDED_ROLES, nextId, failAt)
  }

  /** Seeding never touches an existing row, adds only the names seeded, and keeps each row
      keyed by its name; it fails exactly when the failing call is one of the calls made, and
      then every name before that call has a row. */
  lemma {:induction false} SeedRolesEffect(roles: map<string, UserRole>, names: seq<string>, nextId: nat, failAt: nat)
    ensures var (r, roles') := SeedRoles(roles, names, nextId, failAt);
            (forall n :: n in roles ==> n in roles' && roles'[n] == roles[n])
            && (forall n :: n in roles' ==> n in roles || n in names)
            && ((forall n :: n in roles ==> roles[n].name == n) ==> forall n :: n in roles' ==> roles'[n].name == n)
            && (r.Fail? <==> failAt < |names|)
            && (forall k :: 0 <= k < |names| && k < failAt ==> names[k] in roles')
    decreases |names|
  {
    if names != [] && failAt != 0 {
      var next := GetOrCreateRole(roles, names[0], nextId);
      SeedRolesEffect(next, names[1..], if names[0] in roles then nextId else nextId + 1, failAt - 1);
      forall k | 0 <= k < |names| && k < failAt
        ensures names[k] in SeedRoles(roles, names, nextId, failAt).1
      {
        if k > 0 {
          assert names[k] == names[1..][k - 1];
        }
      }
      forall n | n in SeedRoles(roles, names, nextId, failAt).1
        ensures n in roles || n in names
      {
        if n in names[1..] {
          assert n in names;
        }
      }
    }
  }

  /** Seeding names that all have rows changes nothing, whatever ids are free. */
  lemma {:induction false} SeedRolesPresent(roles: map<string, UserRole>, names: seq<string>, nextId: nat, failAt: nat)
    requires forall k :: 0 <= k < |names| ==> names[k] in roles
    requires failAt >= |names|
    ensures SeedRoles(roles, names, nextId, failAt) == (Pass, roles)
    decreases |names|
  {
    if names != [] {
      SeedRolesPresent(roles, names[1..], nextId, failAt - 1);
    }
  }

  /** When no call fails, the five roles exist afterwards, and running the command again
      changes nothing; a failure leaves the roles seeded before it. */
  lemma AddUserRolesSeeds(roles: map<string, UserRole>, nextId: nat, failAt: nat, laterId: nat)
    ensures var (r, roles') := AddUserRoles(roles, nextId, failAt);
            (r.Pass? <==> failAt >= 5)
            && (forall n :: n in roles ==> n in roles' && roles'[n] == roles[n])
            && (forall k :: 0 <= k < 5 && k < failAt ==> SEEDED_ROLES[k] in roles')
            && (r.Pass? ==> AddUserRoles(roles', laterId, failAt) == (Pass, roles'))
  {
    SeedRolesEffect(roles, SEEDED_ROLES, nextId, failAt);
    var roles' := AddUserRoles(roles, nextId, failAt).1;
    if failAt >= 5 {
      SeedRolesPresent(roles', SEEDED_ROLES, laterId, failAt);
    }
  }

  /** One `get_or_create` on the role table; `fails` is the database raising on it. */
  method GetOrCreateRoleOn(db: Database, name: string, nextId: nat, fails: bool) returns (r: Outcome, id: nat)
    modifies db`roles
    ensures r == if fails then Fail(Crash("CommandError")) else Pass
    ensures db.roles == (if fails then old(db.roles) else GetOrCreateRole(old(db.roles), name, nextId))
    ensures id == (if fails || name in old(db.roles) then nextId else nextId + 1)
  {
    if fails {
      return Fail(Crash("CommandError")), nextId;
    }
    if name in db.roles {
      return Pass, nextId;
    }
    db.roles := db.roles[name := NewUserRole(nextId, name)];
    return Pass, nextId + 1;
  }

  /** The `k`-th call of `add_user_roles`, as the seeding sees it. */
  lemma SeedRolesStep(roles: map<string, UserRole>, k: nat, nextId: nat, failAt: nat)
    requires k < 5 && failAt >= k
    ensures SeedRoles(roles, SEEDED_ROLES[k..], nextId, failAt - k)
            == if failAt == k then (Fail(Crash("CommandError")), roles)
               else SeedRoles(GetOrCreateRole(roles, SEEDED_ROLES[k], nextId), SEEDED_ROLES[k + 1..],
                              if SEEDED_ROLES[k] in roles then nextId else nextId + 1, failAt - k - 1)
  {
    assert SEEDED_ROLES[k..][0] == SEEDED_ROLES[k] && SEEDED_ROLES[k..][1..] == SEEDED_ROLES[k + 1..];
  }

  /** The `k`-th `get_or_create` of `add_user_roles`, which raises when `k` is `failAt`; what
      is left of the seeding afterwards is the rest of the calls. */
  method SeedStepOn(db: Database, k: nat, nextId: nat, failAt: nat) returns (r: Outcome, id: nat)
    requires k < 5 && failAt >= k
    modifies db`roles
    ensures r.Fail? ==> (r, db.roles) == SeedRoles(old(db.roles), SEEDED_ROLES[k..], nextId, failAt - k)
    ensures r.Pass? ==> failAt > k && SeedRoles(old(db.roles), SEEDED_ROLES[k..], nextId, failAt - k)
                                      == SeedRoles(db.roles, SEEDED_ROLES[k + 1..], id, failAt - k - 1)
  {
    SeedRolesStep(db.roles, k, nextId, failAt);
    r, id := GetOrCreateRoleOn(db, SEEDED_ROLES[k], nextId, failAt == k);
  }

  /** `add_user_roles`: five `get_or_create` calls, ADMIN, MANAGER, TECHNICIAN, NORMAL_USER and
      FIELD_RELATIONSHIP_MANAGER, one after the other, with no block around them. */
  method AddUserRolesOn(db: Database, nextId: nat, failAt: nat) returns (r: Outcome)
    modifies db`roles
    ensures (r, db.roles) == AddUserRoles(old(db.roles), nextId, failAt)
  {
    var id := nextId;
    assert SEEDED_ROLES[0..] == SEEDED_ROLES;
    r, id := SeedStepOn(db, 0, id, failAt);
    if r.Fail? { return; }
    r, id := SeedStepOn(db, 1, id, failAt);
    if r.Fail? { return; }
    r, id := SeedStepOn(db, 2, id, failAt);
    if r.Fail? { return; }
    r, id := SeedStepOn(db, 3, id, failAt);
    if r.Fail? { return; }
    r, id := SeedStepOn(db, 4, id, failAt);
    if r.Fail? { return; }
    assert SEEDED_ROLES[5..] == [];
  }
}
