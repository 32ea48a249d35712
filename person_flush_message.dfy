/** `PersonFlushSchema` and `PersonFlushMessage`: the final id assigned to a
    tracked person, checked with the jsonschema package. */
module PersonFlushMessages {
  import opened Wrappers
  import opened JsValues
  import opened Schemas

  /** `PersonFlushSchema`. */
  const PersonFlushSchema: Schema :=
    SObject([("person_id", SString(None)), ("final_unique_person_id", SString(None))],
            ["person_id", "final_unique_person_id"])

  /** A valid flush record: an object with string `person_id` and
      `final_unique_person_id`. */
  predicate ValidFlush(j: Json) {
    && j.JObj?
    && "person_id" in j.fields && j.fields["person_id"].JStr?
    && "final_unique_person_id" in j.fields && j.fields["final_unique_person_id"].JStr?
  }

  /** The schema data and the written-out rules agree on every value. */
  lemma {:induction false} SchemaMeaning(j: Json)
    ensures Conforms(j, PersonFlushSchema) <==> ValidFlush(j)
  {
    var s := PersonFlushSchema;
    if Conforms(j, s) {
      ObjectParts(j, s, 0);
      ObjectParts(j, s, 1);
    }
    if ValidFlush(j) {
      forall i | 0 <= i < |s.props|
        ensures s.props[i].0 in j.fields ==> Conforms(j.fields[s.props[i].0], s.props[i].1)
      {
        assert i == 0 || i == 1;
      }
    }
  }

  datatype PersonFlushMessage = PersonFlushMessage(personId: string, finalUniquePersonId: string)

  /** `validate`: jsonschema on `json['data']`. Unlike Ajv it lets an
      undefined `data` through; reading `data` of null throws. */
  function Validate(json: Json): (r: Result<Option<Json>>)
    ensures r.Success? <==> !json.JNull? && (Field(json, "data").Some? ==> ValidFlush(Field(json, "data").value))
    ensures r.Success? ==> r.value == Field(json, "data")
    ensures r.Failure? ==> r.error == (if json.JNull? then TypeError else SchemaViolation)
  {
    var data :- Member(Some(json), "data");
    SchemaMeaning(if data.Some? then data.value else JNull);
    if JsonSchemaValid(data, PersonFlushSchema) then Success(data) else Failure(SchemaViolation)
  }

  /** `fromObject`: `json.data.person_id` throws a `TypeError` when `data`
      is undefined. */
  function FromObject(data: Option<Json>): (r: Result<PersonFlushMessage>)
    requires data.Some? ==> ValidFlush(data.value)
  {
    match data
    case None => Failure(TypeError)
    case Some(d) => Success(PersonFlushMessage(d.fields["person_id"].s, d.fields["final_unique_person_id"].s))
  }

  /** `new PersonFlushMessage(json)`: it succeeds exactly when `data` is a
      valid flush record, and copies its two ids. Data that is invalid is
      rejected by the validator; missing data gets past it and fails in
      `fromObject`. */
  function Parse(json: Json): (r: Result<PersonFlushMessage>)
    ensures r.Success? <==> json.JObj? && "data" in json.fields && ValidFlush(json.fields["data"])
    ensures r.Success? ==>
              && JStr(r.value.personId) == json.fields["data"].fields["person_id"]
              && JStr(r.value.finalUniquePersonId) == json.fields["data"].fields["final_unique_person_id"]
    ensures json.JObj? && "data" in json.fields && !ValidFlush(json.fields["data"]) ==> r == Failure(SchemaViolation)
    ensures json.JObj? && "data" !in json.fields ==> r == Failure(TypeError)
  {
    var data :- Validate(json);
    FromObject(data)
  }

  /** Each rule of the schema on its own rejects the message. */
  lemma {:induction false} FlushRejections(json: Json)
    requires json.JObj? && "data" in json.fields && json.fields["data"].JObj?
    ensures "person_id" !in json.fields["data"].fields ==> Parse(json).Failure?
    ensures "final_unique_person_id" !in json.fields["data"].fields ==> Parse(json).Failure?
    ensures "person_id" in json.fields["data"].fields && !json.fields["data"].fields["person_id"].JStr? ==>
              Parse(json).Failure?
    ensures ("final_unique_person_id" in json.fields["data"].fields
             && !json.fields["data"].fields["final_unique_person_id"].JStr?) ==> Parse(json).Failure?
  {
  }
}
