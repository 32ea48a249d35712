/** `ContentSchema` and `ContentMessage`: a content event (start or end of a
    played content) checked against its schema, then copied. */
module ContentMessages {
  import opened Wrappers
  import opened JsValues
  import opened Schemas

  /** `ContentSchema`. */
  const ContentSchema: Schema :=
    SObject([
      ("record_type", SString(Some(["content_event"]))),
      ("poi", SInteger),
      ("local_timestamp", SNumber),
      ("name", SString(None)),
      ("content_id", SString(None)),
      ("content_play_id", SString(None)),
      ("data", SObject([], []))
    ], ["record_type", "poi", "local_timestamp", "name", "content_id", "content_play_id"])

  /** A valid content event: an object whose `record_type` is
      "content_event", with an integer `poi`, a numeric `local_timestamp`,
      string `name`, `content_id` and `content_play_id`, and a `data` that
      is an object when present. */
  predicate ValidContent(j: Json) {
    && j.JObj?
    && "record_type" in j.fields && j.fields["record_type"] == JStr("content_event")
    && "poi" in j.fields && j.fields["poi"].JNum? && IsIntegral(j.fields["poi"].n)
    && "local_timestamp" in j.fields && j.fields["local_timestamp"].JNum?
    && "name" in j.fields && j.fields["name"].JStr?
    && "content_id" in j.fields && j.fields["content_id"].JStr?
    && "content_play_id" in j.fields && j.fields["content_play_id"].JStr?
    && ("data" in j.fields ==> j.fields["data"].JObj?)
  }

  /** The schema data and the written-out rules agree on every value. */
  lemma {:induction false} SchemaMeaning(j: Json)
    ensures Conforms(j, ContentSchema) <==> ValidContent(j)
  {
    var s := ContentSchema;
    if Conforms(j, s) {
      ObjectParts(j, s, 0);
      ObjectParts(j, s, 1);
      ObjectParts(j, s, 2);
      ObjectParts(j, s, 3);
      ObjectParts(j, s, 4);
      ObjectParts(j, s, 5);
      ObjectParts(j, s, 6);
    }
    if ValidContent(j) {
      forall i | 0 <= i < |s.props|
        ensures s.props[i].0 in j.fields ==> Conforms(j.fields[s.props[i].0], s.props[i].1)
      {
        assert i == 0 || i == 1 || i == 2 || i == 3 || i == 4 || i == 5 || i == 6;
      }
    }
  }

  datatype ContentMessage = ContentMessage(
    poi: int,
    recordType: string,
    localTimestamp: real,
    name: string,
    contentId: string,
    contentPlayId: string,
    personPutIds: Option<Json>)

  /** `validate`: Ajv on `json['data']`; reading `data` of null throws. */
  function Validate(json: Json): (r: Result<Json>)
    ensures r.Success? <==> json.JObj? && "data" in json.fields && ValidContent(json.fields["data"])
    ensures r.Success? ==> r.value == json.fields["data"]
    ensures r.Failure? ==> r.error == (if json.JNull? then TypeError else SchemaViolation)
  {
    var data :- Member(Some(json), "data");
    SchemaMeaning(if data.Some? then data.value else JNull);
    if AjvValid(ContentSchema, data) then Success(data.value) else Failure(SchemaViolation)
  }

  /** `fromObject` on data that passed validation. */
  function FromObject(data: Json): ContentMessage
    requires ValidContent(data)
  {
    ContentMessage(
      data.fields["poi"].n.Floor,
      data.fields["record_type"].s,
      data.fields["local_timestamp"].n,
      data.fields["name"].s,
      data.fields["content_id"].s,
      data.fields["content_play_id"].s,
      Field(data, "person_put_ids"))
  }

  /** `new ContentMessage(json)`: it succeeds exactly for valid data, and the
      fields are then the same-named properties of `data`; `person_put_ids`
      may be absent. */
  function Parse(json: Json): (r: Result<ContentMessage>)
    ensures r.Success? <==> json.JObj? && "data" in json.fields && ValidContent(json.fields["data"])
    ensures r.Failure? ==> r.error == (if json.JNull? then TypeError else SchemaViolation)
    ensures r.Success? ==>
              var data := json.fields["data"];
              var m := r.value;
              && JNum(m.poi as real) == data.fields["poi"]
              && JStr(m.recordType) == data.fields["record_type"] == JStr("content_event")
              && JNum(m.localTimestamp) == data.fields["local_timestamp"]
              && JStr(m.name) == data.fields["name"]
              && JStr(m.contentId) == data.fields["content_id"]
              && JStr(m.contentPlayId) == data.fields["content_play_id"]
              && m.personPutIds == Field(data, "person_put_ids")
  {
    var data :- Validate(json);
    Success(FromObject(data))
  }
}
