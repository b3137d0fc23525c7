/** The models `UserRole` and `ApiService` (`models/user_role.py`, `models/api_service.py`) and
    `BaseModel.update_model_object` (`models/base.py`). */
module Models {
  import opened Values

  // The role names the code refers to. Only ADMIN, CONTNET_MANAGER and NORMAL_USER are members
  // of `UserType`; the code also reads `UserType.MANAGER`, `UserType.TECHNICIAN` and others,
  // which that class does not define. The model reads each such name as the string it spells.
  const ADMIN: string := "ADMIN"
  const MANAGER: string := "MANAGER"
  const TECHNICIAN: string := "TECHNICIAN"
  const NORMAL_USER: string := "NORMAL_USER"
  const FIELD_RELATIONSHIP_MANAGER: string := "FIELD_RELATIONSHIP_MANAGER"
  const CONTNET_MANAGER: string := "CONTNET_MANAGER"
  const NURSE: string := "NURSE"
  const OT_ADMIN: string := "OT_ADMIN"
  const COURIER: string := "COURIER"

  /** `UserType.choices` */
  const USER_TYPE_CHOICES: seq<string> := [ADMIN, CONTNET_MANAGER, NORMAL_USER]

  const ROLE_NAME_MAX_LENGTH: nat := 30
  const CODE_NAME_MAX_LENGTH: nat := 255

  /** An `api_service` row; `code_name` is its unique key in the service table. */
  datatype ApiService = ApiService(codeName: string, isActive: bool)

  /** `ApiService(code_name=...)`: a new service is active unless told otherwise. */
  function NewApiService(codeName: string): (s: ApiService)
    ensures s.isActive && s.codeName == codeName
  {
    ApiService(codeName, true)
  }

  /** `ApiService.__str__`: the code name, which is unique, so in the service table the string
      form of a row names that row and no other. */
  function ServiceStr(s: ApiService): string
  {
    s.codeName
  }

  /** A `user_role` row: its services are the code names of the `ApiService` rows it may use
      (a possibly empty set, `blank=True`). The name is the unique key of the role table. */
  datatype UserRole = UserRole(id: nat, name: string, services: set<string>, isActive: bool)

  /** `UserRole(name=...)`: no services yet, and active by default. */
  function NewUserRole(id: nat, name: string): (r: UserRole)
    ensures r.isActive && r.services == {} && r.name == name && r.id == id
  {
    UserRole(id, name, {}, true)
  }

  /** `UserRole.__str__` */
  function RoleStr(r: UserRole): string
  {
    r.name
  }

  /** The column limit `max_length=30` on a role name. */
  predicate RoleNameFits(name: string)
  {
    |name| <= ROLE_NAME_MAX_LENGTH
  }

  /** The role names seeded by `add_user_roles` fit the column, although only two of them are
      `UserType` choices. */
  lemma SeededRoleNames()
    ensures forall n :: n in [ADMIN, MANAGER, TECHNICIAN, NORMAL_USER, FIELD_RELATIONSHIP_MANAGER] ==> RoleNameFits(n)
    ensures ADMIN in USER_TYPE_CHOICES && NORMAL_USER in USER_TYPE_CHOICES
    ensures MANAGER !in USER_TYPE_CHOICES && TECHNICIAN !in USER_TYPE_CHOICES
            && FIELD_RELATIONSHIP_MANAGER !in USER_TYPE_CHOICES
  {
    assert |FIELD_RELATIONSHIP_MANAGER| == 26;
  }

  /** A lifecycle step of a model instance. */
  datatype Event = Clean | Save

  /** The attributes after `setattr` of each payload entry in turn. */
  function Assign(fields: map<string, Value>, payload: seq<(string, Value)>): map<string, Value>
    decreases |payload|
  {
    if payload == [] then fields
    else Assign(fields[payload[0].0 := payload[0].1], payload[1..])
  }

  /** `Assign` over a payload extended by one entry does that entry last. */
  lemma {:induction false} AssignSnoc(fields: map<string, Value>, payload: seq<(string, Value)>, entry: (string, Value))
    ensures Assign(fields, payload + [entry]) == Assign(fields, payload)[entry.0 := entry.1]
    decreases |payload|
  {
    if payload != [] {
      assert (payload + [entry])[1..] == payload[1..] + [entry];
      AssignSnoc(fields[payload[0].0 := payload[0].1], payload[1..], entry);
    }
  }

  /** An attribute outside the payload keeps its value. */
  lemma {:induction false} AssignKeeps(fields: map<string, Value>, payload: seq<(string, Value)>, key: string)
    requires forall i :: 0 <= i < |payload| ==> payload[i].0 != key
    ensures key in Assign(fields, payload) <==> key in fields
    ensures key in fields ==> Assign(fields, payload)[key] == fields[key]
    decreases |payload|
  {
    if payload != [] {
      AssignKeeps(fields[payload[0].0 := payload[0].1], payload[1..], key);
    }
  }

  /** Every payload key ends up holding its payload value (a dict has each key once). */
  lemma {:induction false} AssignSets(fields: map<string, Value>, payload: seq<(string, Value)>, i: nat)
    requires i < |payload|
    requires forall j, k :: 0 <= j < k < |payload| ==> payload[j].0 != payload[k].0
    ensures payload[i].0 in Assign(fields, payload) && Assign(fields, payload)[payload[i].0] == payload[i].1
    decreases |payload|
  {
    if i == 0 {
      AssignKeeps(fields[payload[0].0 := payload[0].1], payload[1..], payload[0].0);
    } else {
      AssignSets(fields[payload[0].0 := payload[0].1], payload[1..], i - 1);
    }
  }

  /** A `BaseModel` instance: its attributes as Python sees them, the row last saved, and the
      lifecycle steps run so far. `updated_at` holds a clock reading and `updated_by` a user. */
  class ModelInstance {
    var fields: map<string, Value>
    var stored: map<string, Value>
    var events: seq<Event>

    constructor(fields: map<string, Value>)
      ensures this.fields == fields && stored == fields && events == []
    {
      this.fields := fields;
      stored := fields;
      events := [];
    }

    /** `update_model_object`: assign every payload entry in order; with `is_update`, stamp
        `updated_at` and `updated_by`; then `clean()` and `save()`. */
    method UpdateModelObject(user: Value, payload: seq<(string, Value)>, isUpdate: bool, now: int)
      modifies this
      ensures fields == if isUpdate then Assign(old(fields), payload)["updated_at" := Int(now)]["updated_by" := user]
                        else Assign(old(fields), payload)
      ensures stored == fields
      ensures events == old(events) + [Clean, Save]
    {
      var i := 0;
      while i < |payload|
        invariant 0 <= i <= |payload|
        invariant fields == Assign(old(fields), payload[..i])
        invariant events == old(events)
      {
        AssignSnoc(old(fields), payload[..i], payload[i]);
        assert payload[..i + 1] == payload[..i] + [payload[i]];
        fields := fields[payload[i].0 := payload[i].1];
        i := i + 1;
      }
      assert payload[..i] == payload;
      if isUpdate {
        fields := fields["updated_at" := Int(now)]["updated_by" := user];
      }
      // clean() leaves the attributes alone; save() writes them to the row
      stored := fields;
      events := events + [Clean, Save];
    }
  }

  /** Without `is_update`, the audit columns change only if the payload names them. */
  lemma AuditColumnsUntouched(fields: map<string, Value>, payload: seq<(string, Value)>)
    requires forall i :: 0 <= i < |payload| ==> payload[i].0 != "updated_at" && payload[i].0 != "updated_by"
    ensures "updated_at" in Assign(fields, payload) <==> "updated_at" in fields
    ensures "updated_by" in Assign(fields, payload) <==> "updated_by" in fields
    ensures ("updated_at" in fields ==> Assign(fields, payload)["updated_at"] == fields["updated_at"])
            && ("updated_by" in fields ==> Assign(fields, payload)["updated_by"] == fields["updated_by"])
  {
    AssignKeeps(fields, payload, "updated_at");
    AssignKeeps(fields, payload, "updated_by");
  }
}
