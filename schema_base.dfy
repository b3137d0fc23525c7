/** `schemas/base.py`: the bulk activate/deactivate check shared by many request schemas, and
    the day counts of `DateEnum`. */
module SchemaBase {
  import opened Wrappers
  import opened Values

  const REASON_TO_DEACTIVATE_MSG: string := "A reason must be provided to deactivate selected records."

  /** `validate_attributes`: `ids` must be a non-empty list, `is_active` must be given, and a
      reason must accompany exactly the deactivations. `hasattr` is key presence, so an
      attribute given as None counts as present. */
  function ValidateAttributes(values: Attrs): (r: Result<Attrs>)
    ensures r.Ok? ==> r.value == values
    ensures r.Ok? <==> "ids" in values && values["ids"].List? && values["ids"].items != []
                       && "is_active" in values
                       && (Truthy(values["is_active"]) <==> !Truthy(Get(values, "reason_to_deactivate")))
    ensures "ids" !in values ==> r == Err(Unprocessable("Ids are mandatory field."))
    ensures r.Err? ==> r.error.Http? && r.error.status == UNPROCESSABLE_ENTITY
    ensures r == Err(Unprocessable(REASON_TO_DEACTIVATE_MSG)) <==>
              "ids" in values && values["ids"].List? && values["ids"].items != [] && "is_active" in values
              && !Truthy(values["is_active"]) && !Truthy(Get(values, "reason_to_deactivate"))
  {
    var reason := Get(values, "reason_to_deactivate");
    if "ids" !in values then Err(Unprocessable("Ids are mandatory field."))
    else if !values["ids"].List? then Err(Unprocessable("Ids must be of list type."))
    else if values["ids"].items == [] then Err(Unprocessable("Ids list cannot be empty."))
    else if "is_active" !in values then Err(Unprocessable("The 'is_active' field is required."))
    else if Truthy(values["is_active"]) then
      if Truthy(reason) then Err(Unprocessable("Reason is not required ")) else Ok(values)
    else if !Truthy(reason) then Err(Unprocessable(REASON_TO_DEACTIVATE_MSG))
    else Ok(values)
  }

  /** `DateEnum`: the look-back periods a filter can ask for. */
  datatype DateEnum = LastDay | LastWeek | LastMonth | LastQuarter | LastYear

  /** The number of days each period stands for. */
  function Days(e: DateEnum): nat
  {
    match e
    case LastDay => 1
    case LastWeek => 7
    case LastMonth => 30
    case LastQuarter => 90
    case LastYear => 365
  }

  /** `DateEnum(n)`: the member with value `n`, or None where Python raises ValueError. */
  function FromDays(n: int): (r: Option<DateEnum>)
    ensures r.Some? ==> Days(r.value) == n
    ensures r.None? <==> n !in {1, 7, 30, 90, 365}
  {
    if n == 1 then Some(LastDay)
    else if n == 7 then Some(LastWeek)
    else if n == 30 then Some(LastMonth)
    else if n == 90 then Some(LastQuarter)
    else if n == 365 then Some(LastYear)
    else None
  }

  /** Every member's value looks that member up again, so no two members share a value. */
  lemma DaysRoundTrip(e: DateEnum)
    ensures FromDays(Days(e)) == Some(e)
  {
  }
}
