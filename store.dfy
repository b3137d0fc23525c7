/** The database tables the authentication core reads and writes: Django's `User`, the
    `Profile`, the `OtpHistory` ledger, `BlackListedToken`, `UserRole` and `ApiService`, plus the
    mails handed to the mail thread. Rows are keyed by their unique column; each `...Order`
    sequence lists the keys in primary-key order, which is the order `.first()` sees. */
module Store {
  import opened Wrappers
  import opened Text
  import opened Models

  /** A Django `User` row. The password is compared as a value; hashing is not modelled. */
  datatype User = User(password: string, isStaff: bool, isActive: bool, email: string)

  /** A `Profile` row, keyed by its user's username. `role` names a `UserRole` row. */
  datatype Profile = Profile(email: string, role: string, isActive: bool, firstTimePasswordChanged: bool)

  /** `OtpType` */
  datatype OtpKind = SignUp | SignIn | TwoFactor | ForgotPwd

  /** An `OtpHistory` row. */
  datatype OtpRecord = OtpRecord(code: string, kind: OtpKind, expiresAt: int, used: bool)

  /** A mail handed to `start_new_thread`: the sign-in/sign-up mail or the forgot-password mail. */
  datatype Mail = LoginMail(to: string, isCreated: bool, code: string) | ForgotMail(to: string, code: string)

  /** The whole database as a value. */
  datatype Tables = Tables(
    users: map<string, User>, userOrder: seq<string>,
    profiles: map<string, Profile>, profileOrder: seq<string>,
    otps: map<string, seq<OtpRecord>>,
    blacklist: set<string>,
    roles: map<string, UserRole>,
    services: map<string, ApiService>,
    mails: seq<Mail>)

  /** No key appears twice. */
  predicate NoRepeats(s: seq<string>)
  {
    forall i, j :: 0 <= i < j < |s| ==> s[i] != s[j]
  }

  /** `order` lists the keys of `m`, each once. */
  ghost predicate Enumerates<T>(order: seq<string>, m: map<string, T>)
  {
    (forall i, j :: 0 <= i < j < |order| ==> order[i] != order[j])
    && (forall k :: k in m <==> k in order)
  }

  /** The integrity the schema guarantees, plus the ledger invariant the endpoints keep: a
      profile never has more than one OTP record. */
  ghost predicate Valid(t: Tables)
  {
    Enumerates(t.userOrder, t.users) && Enumerates(t.profileOrder, t.profiles)
    && t.profiles.Keys <= t.users.Keys && t.otps.Keys <= t.profiles.Keys
    && (forall p :: p in t.profiles ==> t.profiles[p].role in t.roles)
    && (forall p :: p in t.otps ==> |t.otps[p]| <= 1)
    && (forall n :: n in t.roles ==> t.roles[n].name == n)
    && (forall c :: c in t.services ==> t.services[c].codeName == c)
  }

  /** The OTP records of a profile, oldest first. */
  function OtpsOf(t: Tables, p: string): seq<OtpRecord>
  {
    if p in t.otps then t.otps[p] else []
  }

  /** The first position of `order` whose key equals `name` ignoring case: `.filter(...__iexact=name).first()`. */
  function FirstIexact(order: seq<string>, name: string): (r: Option<nat>)
    ensures r.Some? ==> r.value < |order| && SameIgnoringCase(order[r.value], name)
    ensures r.Some? ==> forall j :: 0 <= j < r.value ==> !SameIgnoringCase(order[j], name)
    ensures r.None? <==> forall j :: 0 <= j < |order| ==> !SameIgnoringCase(order[j], name)
  {
    if order == [] then None
    else if SameIgnoringCase(order[0], name) then Some(0)
    else match FirstIexact(order[1..], name)
      case None => None
      case Some(i) => Some(i + 1)
  }

  /** The profile whose username equals `name` ignoring case, first in primary-key order. */
  function ProfileIexact(t: Tables, name: string): (r: Option<string>)
    requires Valid(t)
    ensures r.Some? ==> r.value in t.profiles && SameIgnoringCase(r.value, name)
    ensures r.None? <==> forall p :: p in t.profiles ==> !SameIgnoringCase(p, name)
  {
    match FirstIexact(t.profileOrder, name)
    case None =>
      assert forall p :: p in t.profiles ==> exists j :: 0 <= j < |t.profileOrder| && t.profileOrder[j] == p;
      None
    case Some(i) => Some(t.profileOrder[i])
  }

  /** The lookup depends on the order of profiles alone. */
  lemma SameOrderSameLookup(t: Tables, t': Tables, name: string)
    requires Valid(t) && Valid(t') && t'.profileOrder == t.profileOrder
    ensures ProfileIexact(t', name) == ProfileIexact(t, name)
  {
  }

  /** A profile looked up by its exact username is also found by a case-insensitive lookup. */
  lemma ExactIsIexact(t: Tables, name: string)
    requires Valid(t) && name in t.profiles
    ensures ProfileIexact(t, name).Some?
  {
    assert SameIgnoringCase(name, name);
  }

  // The single writes the endpoints are made of.

  function SetPasswordT(t: Tables, name: string, password: string): Tables
    requires name in t.users
  {
    t.(users := t.users[name := t.users[name].(password := password)])
  }

  /** `User.objects.create(username=name, ...)`: not staff, active, no e-mail. */
  function CreateUserT(t: Tables, name: string, password: string): Tables
    requires name !in t.users
  {
    t.(users := t.users[name := User(password, false, true, "")], userOrder := t.userOrder + [name])
  }

  /** `Profile.objects.create(user=..., email=..., role=...)`. A new profile is inactive until
      its first OTP is verified, and has not changed its password yet. */
  function CreateProfileT(t: Tables, name: string, email: string, role: string): Tables
    requires name !in t.profiles
  {
    t.(profiles := t.profiles[name := Profile(email, role, false, false)], profileOrder := t.profileOrder + [name])
  }

  function ActivateProfileT(t: Tables, p: string): Tables
    requires p in t.profiles
  {
    t.(profiles := t.profiles[p := t.profiles[p].(isActive := true)])
  }

  /** `OtpHistory.objects.filter(profile=p).delete()` */
  function DeleteOtpsT(t: Tables, p: string): Tables
  {
    t.(otps := t.otps - {p})
  }

  /** `OtpHistory.objects.create(profile=p, ...)`: appended after the profile's other records. */
  function CreateOtpT(t: Tables, p: string, record: OtpRecord): Tables
  {
    t.(otps := t.otps[p := OtpsOf(t, p) + [record]])
  }

  function MarkUsedT(t: Tables, p: string, i: nat): Tables
    requires i < |OtpsOf(t, p)|
  {
    t.(otps := t.otps[p := OtpsOf(t, p)[i := OtpsOf(t, p)[i].(used := true)]])
  }

  /** `otp_history_obj.delete()` on the record at position `i`. */
  function DeleteOtpAtT(t: Tables, p: string, i: nat): Tables
    requires i < |OtpsOf(t, p)|
  {
    t.(otps := t.otps[p := OtpsOf(t, p)[..i] + OtpsOf(t, p)[i + 1..]])
  }

  function BlacklistT(t: Tables, token: string): Tables
  {
    t.(blacklist := t.blacklist + {token})
  }

  function SendMailT(t: Tables, mail: Mail): Tables
  {
    t.(mails := t.mails + [mail])
  }

  /** Replacing a profile's ledger by one record leaves exactly that record and keeps the other
      profiles' ledgers. */
  lemma ReplaceOtps(t: Tables, p: string, record: OtpRecord)
    ensures OtpsOf(CreateOtpT(DeleteOtpsT(t, p), p, record), p) == [record]
    ensures forall q :: q != p ==> OtpsOf(CreateOtpT(DeleteOtpsT(t, p), p, record), q) == OtpsOf(t, q)
  {
  }

  /** Replacing a profile's ledger by one record keeps the database valid. */
  lemma ReplaceOtpsKeepsValid(t: Tables, p: string, record: OtpRecord)
    requires Valid(t) && p in t.profiles
    ensures Valid(CreateOtpT(DeleteOtpsT(t, p), p, record))
  {
  }

  /** Writes that touch neither keys nor roles keep the database valid. */
  lemma SetPasswordKeepsValid(t: Tables, name: string, password: string)
    requires Valid(t) && name in t.users
    ensures Valid(SetPasswordT(t, name, password))
  {
  }

  lemma ActivateKeepsValid(t: Tables, p: string)
    requires Valid(t) && p in t.profiles
    ensures Valid(ActivateProfileT(t, p))
  {
  }

  lemma BlacklistKeepsValid(t: Tables, token: string)
    requires Valid(t)
    ensures Valid(BlacklistT(t, token))
  {
  }

  lemma SendMailKeepsValid(t: Tables, mail: Mail)
    requires Valid(t)
    ensures Valid(SendMailT(t, mail))
  {
  }

  /** Consuming or deleting one record keeps the database valid. */
  lemma MarkUsedKeepsValid(t: Tables, p: string, i: nat)
    requires Valid(t) && p in t.profiles && i < |OtpsOf(t, p)|
    ensures Valid(MarkUsedT(t, p, i))
  {
  }

  lemma DeleteOtpAtKeepsValid(t: Tables, p: string, i: nat)
    requires Valid(t) && p in t.profiles && i < |OtpsOf(t, p)|
    ensures Valid(DeleteOtpAtT(t, p, i))
  {
  }

  /** A new user, then a new profile for it with an existing role, keep the database valid. */
  lemma NewAccountKeepsValid(t: Tables, name: string, password: string, email: string, role: string)
    requires Valid(t) && name !in t.profiles && name !in t.users && role in t.roles
    ensures Valid(CreateProfileT(CreateUserT(t, name, password), name, email, role))
  {
  }

  /** A new profile for an existing user, with an existing role, keeps the database valid. */
  lemma NewProfileKeepsValid(t: Tables, name: string, email: string, role: string)
    requires Valid(t) && name !in t.profiles && name in t.users && role in t.roles
    ensures Valid(CreateProfileT(t, name, email, role))
  {
  }

  /** The database the endpoints run against; each field is one table. */
  class Database {
    var users: map<string, User>
    var userOrder: seq<string>
    var profiles: map<string, Profile>
    var profileOrder: seq<string>
    var otps: map<string, seq<OtpRecord>>
    var blacklist: set<string>
    var roles: map<string, UserRole>
    var services: map<string, ApiService>
    var mails: seq<Mail>

    /** The tables as a value. */
    function State(): Tables
      reads this
    {
      Tables(users, userOrder, profiles, profileOrder, otps, blacklist, roles, services, mails)
    }

    constructor(init: Tables)
      ensures State() == init
    {
      users, userOrder := init.users, init.userOrder;
      profiles, profileOrder := init.profiles, init.profileOrder;
      otps, blacklist := init.otps, init.blacklist;
      roles, services, mails := init.roles, init.services, init.mails;
    }

    /** Roll back to a state taken at the start of a `transaction.atomic` block. */
    method Restore(saved: Tables)
      modifies this
      ensures State() == saved
    {
      users, userOrder := saved.users, saved.userOrder;
      profiles, profileOrder := saved.profiles, saved.profileOrder;
      otps, blacklist := saved.otps, saved.blacklist;
      roles, services, mails := saved.roles, saved.services, saved.mails;
    }

    /** `user.set_password(password); user.save()` */
    method SetPassword(name: string, password: string)
      requires name in users
      modifies this`users
      ensures State() == SetPasswordT(old(State()), name, password)
    {
      users := users[name := users[name].(password := password)];
    }

    method CreateUser(name: string, password: string)
      requires name !in users
      modifies this`users, this`userOrder
      ensures State() == CreateUserT(old(State()), name, password)
    {
      users := users[name := User(password, false, true, "")];
      userOrder := userOrder + [name];
    }

    method CreateProfile(name: string, email: string, role: string)
      requires name !in profiles
      modifies this`profiles, this`profileOrder
      ensures State() == CreateProfileT(old(State()), name, email, role)
    {
      profiles := profiles[name := Profile(email, role, false, false)];
      profileOrder := profileOrder + [name];
    }

    method ActivateProfile(p: string)
      requires p in profiles
      modifies this`profiles
      ensures State() == ActivateProfileT(old(State()), p)
    {
      profiles := profiles[p := profiles[p].(isActive := true)];
    }

    method DeleteOtps(p: string)
      modifies this`otps
      ensures State() == DeleteOtpsT(old(State()), p)
    {
      otps := otps - {p};
    }

    method CreateOtp(p: string, record: OtpRecord)
      modifies this`otps
      ensures State() == CreateOtpT(old(State()), p, record)
    {
      otps := otps[p := OtpsOf(State(), p) + [record]];
    }

    method MarkUsed(p: string, i: nat)
      requires i < |OtpsOf(State(), p)|
      modifies this`otps
      ensures State() == MarkUsedT(old(State()), p, i)
    {
      var records := OtpsOf(State(), p);
      otps := otps[p := records[i := records[i].(used := true)]];
    }

    method DeleteOtpAt(p: string, i: nat)
      requires i < |OtpsOf(State(), p)|
      modifies this`otps
      ensures State() == DeleteOtpAtT(old(State()), p, i)
    {
      var records := OtpsOf(State(), p);
      otps := otps[p := records[..i] + records[i + 1..]];
    }

    /** `BlackListedToken.objects.create(token=token)` */
    method Blacklist(token: string)
      modifies this`blacklist
      ensures State() == BlacklistT(old(State()), token)
    {
      blacklist := blacklist + {token};
    }

    method SendMail(mail: Mail)
      modifies this`mails
      ensures State() == SendMailT(old(State()), mail)
    {
      mails := mails + [mail];
    }
  }
}
