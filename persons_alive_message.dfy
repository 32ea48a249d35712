/** `PersonsAliveMessage`: the list of person ids the sensor still tracks. */
module PersonsAliveMessages {
  import opened Wrappers
  import opened JsValues

  /** The ids are kept as received (normally an array of strings) and the
      timestamp as the received value or the clock. */
  datatype PersonsAliveMessage = PersonsAliveMessage(personIds: Json, localTimestamp: Json) {

    /** `getPersonIds`. */
    function GetPersonIds(): (r: Json)
      ensures r == personIds
    {
      personIds
    }
  }

  /** `validate`: throws unless the input, its `data` and `data.person_ids`
      are all truthy. */
  function Validate(json: Json): (r: Result<Json>)
    ensures r.Success? <==>
              Truthy(Some(json)) && Truthy(Field(json, "data")) && Truthy(Field(json.fields["data"], "person_ids"))
    ensures r.Success? ==> r.value == json.fields["data"]
    ensures r.Failure? ==> r.error == SchemaViolation
  {
    if !Truthy(Some(json)) then Failure(SchemaViolation)
    else
      var data := Field(json, "data");
      if !Truthy(data) then Failure(SchemaViolation)
      else if !Truthy(Field(data.value, "person_ids")) then Failure(SchemaViolation)
      else Success(data.value)
  }

  /** `fromObject`: `local_timestamp || Date.now()`, with the clock as a
      parameter. */
  function FromObject(data: Json, now: real): (r: PersonsAliveMessage)
    requires Truthy(Field(data, "person_ids"))
  {
    var ts := Field(data, "local_timestamp");
    PersonsAliveMessage(data.fields["person_ids"], if Truthy(ts) then ts.value else JNum(now))
  }

  /** `new PersonsAliveMessage(json)`: it succeeds exactly when `data` and
      its `person_ids` are truthy (an empty array is truthy); the ids are
      then the received value, and the timestamp is `local_timestamp` when
      truthy and the clock otherwise. */
  function Parse(json: Json, now: real): (r: Result<PersonsAliveMessage>)
    ensures r.Success? <==>
              json.JObj? && "data" in json.fields && Truthy(Field(json.fields["data"], "person_ids"))
    ensures r.Success? ==> r.value.GetPersonIds() == json.fields["data"].fields["person_ids"]
    ensures r.Success? ==>
              var ts := Field(json.fields["data"], "local_timestamp");
              r.value.localTimestamp == if Truthy(ts) then ts.value else JNum(now)
  {
    var data :- Validate(json);
    Success(FromObject(data, now))
  }

  /** An alive message with an empty id list is accepted. */
  lemma {:induction false} EmptyListAccepted(now: real)
    ensures Parse(JObj(map["data" := JObj(map["person_ids" := JArr([])])]), now)
         == Success(PersonsAliveMessage(JArr([]), JNum(now)))
  {
    var data := JObj(map["person_ids" := JArr([])]);
    assert Field(data, "local_timestamp") == None;
  }
}
