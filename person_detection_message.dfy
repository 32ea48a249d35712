/** `PersonDetectionMessage`: a person update checked against the person
    schema, then read field by field. */
module PersonDetectionMessages {
  import opened Wrappers
  import opened JsValues
  import opened Schemas
  import opened PersonDetectionSchemas

  datatype PersonDetectionMessage = PersonDetectionMessage(
    age: Option<JsNumber>,
    gender: Option<Json>,
    ttid: Option<Json>,
    personId: string,
    personPutId: string,
    coordinates: Json,
    recognition: Option<Json>,
    localTimestamp: real,
    lookingAtScreen: Option<Json>,
    cameraId: Option<Json>,
    poi: Option<Json>,
    faceEmbeddings: Option<Json>)

  /** `validate`: Ajv on `json['data']`; reading `data` of null throws. */
  function Validate(json: Json): (r: Result<Json>)
    ensures r.Success? <==> json.JObj? && "data" in json.fields && ValidRecord(json.fields["data"])
    ensures r.Success? ==> r.value == json.fields["data"]
    ensures r.Failure? ==> r.error == (if json.JNull? then TypeError else SchemaViolation)
  {
    var data :- Member(Some(json), "data");
    SchemaMeaning(if data.Some? then data.value else JNull);
    if AjvValid(PersonDetectionSchema, data) then Success(data.value) else Failure(SchemaViolation)
  }

  /** `fromObject` on data that passed validation. `age` and `gender` are
      taken only when truthy; `behavior.head.looking_at_screen` throws when
      `behavior` or `head` is missing. */
  function FromObject(data: Json): (r: Result<PersonDetectionMessage>)
    requires ValidRecord(data)
  {
    var rev := Field(data, "rolling_expected_values");
    var age :=
      if Truthy(rev) && Truthy(Field(rev.value, "age")) then Some(ToNumber(rev.value.fields["age"])) else None;
    var gender :=
      if Truthy(rev) && Truthy(Field(rev.value, "gender")) then Field(rev.value, "gender") else None;
    var behavior :- Member(Some(data), "behavior");
    var head :- Member(behavior, "head");
    var looking :- Member(head, "looking_at_screen");
    Success(PersonDetectionMessage(
      age,
      gender,
      Field(data, "ttid"),
      data.fields["person_id"].s,
      data.fields["person_put_id"].s,
      data.fields["coordinates"],
      Field(data, "recognition"),
      data.fields["local_timestamp"].n,
      looking,
      Field(data, "camera_id"),
      Field(data, "poi"),
      Field(data, "best_face_embedding")))
  }

  /** The whole value has a `behavior` object with a `head`. */
  predicate HasHead(data: Json) {
    && data.JObj? && "behavior" in data.fields
    && data.fields["behavior"].JObj? && "head" in data.fields["behavior"].fields
  }

  /** `new PersonDetectionMessage(json)`: validate, then extract. It
      succeeds exactly for valid data with a `behavior.head`; the required
      fields are copied with their schema types and the optional properties
      as found. */
  function Parse(json: Json): (r: Result<PersonDetectionMessage>)
    ensures r.Success? <==>
              json.JObj? && "data" in json.fields && ValidRecord(json.fields["data"]) && HasHead(json.fields["data"])
    ensures r.Failure? && json.JObj? && "data" in json.fields && ValidRecord(json.fields["data"]) ==>
              r.error == TypeError
    ensures r.Success? ==>
              var data := json.fields["data"];
              var m := r.value;
              && JStr(m.personId) == data.fields["person_id"]
              && JStr(m.personPutId) == data.fields["person_put_id"]
              && JNum(m.localTimestamp) == data.fields["local_timestamp"]
              && m.coordinates == data.fields["coordinates"]
              && m.ttid == Field(data, "ttid")
              && m.recognition == Field(data, "recognition")
              && m.cameraId == Field(data, "camera_id")
              && m.poi == Field(data, "poi")
              && m.faceEmbeddings == Field(data, "best_face_embedding")
              && m.lookingAtScreen == Field(data.fields["behavior"].fields["head"], "looking_at_screen")
              && (m.lookingAtScreen.None? || m.lookingAtScreen.value.JNum?)
  {
    var data :- Validate(json);
    FromObject(data)
  }

  /** `age` is set exactly when the rolling expected age is present and not
      0, and it is then that number. */
  lemma {:induction false} ParseAge(json: Json)
    requires Parse(json).Success?
    ensures var data := json.fields["data"];
            var m := Parse(json).value;
            && (m.age.Some? <==>
                  "rolling_expected_values" in data.fields
                  && "age" in data.fields["rolling_expected_values"].fields
                  && data.fields["rolling_expected_values"].fields["age"] != JNum(0.0))
            && (m.age.Some? ==> m.age.value == Finite(data.fields["rolling_expected_values"].fields["age"].n))
  {
    var data := json.fields["data"];
    if "rolling_expected_values" in data.fields {
      var rev := data.fields["rolling_expected_values"];
      assert ValidRolling(rev);
      if "age" in rev.fields {
        assert IsNumber(rev.fields["age"]);
      }
    }
  }

  /** `gender` is set exactly when the rolling expected gender is present,
      and it is then "male" or "female". */
  lemma {:induction false} ParseGender(json: Json)
    requires Parse(json).Success?
    ensures var data := json.fields["data"];
            var m := Parse(json).value;
            && (m.gender.Some? <==>
                  "rolling_expected_values" in data.fields && "gender" in data.fields["rolling_expected_values"].fields)
            && (m.gender.Some? ==> m.gender.value == JStr("male") || m.gender.value == JStr("female"))
  {
    var data := json.fields["data"];
    if "rolling_expected_values" in data.fields {
      var rev := data.fields["rolling_expected_values"];
      assert ValidRolling(rev);
      if "gender" in rev.fields {
        assert IsGender(rev.fields["gender"]);
      }
    }
  }
}
