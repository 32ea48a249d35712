/** `PersonDetection`: the person entity kept in a snapshot, built from a
    person update. */
module PersonDetections {
  import opened Wrappers
  import opened JsValues
  import PD = PersonDetectionMessages

  datatype PersonDetection = PersonDetection(
    age: Option<JsNumber>,
    gender: Option<Json>,
    ttid: Option<Json>,
    personId: string,
    personPutId: string,
    coordinates: Json,
    metadata: Option<Json>,
    /** Time of the last update: the message's timestamp, or the clock when
        the entity was built if that timestamp is 0. */
    updated: real,
    localTimestamp: real,
    lookingAtScreen: Option<Json>,
    cameraId: Option<Json>,
    poi: Option<Json>)
  {
    /** `name`: the recognised name when `metadata` and its `name` are
        truthy, otherwise `null`. */
    function Name(): (r: Json)
      ensures Truthy(metadata) && Truthy(Field(metadata.value, "name")) ==> r == metadata.value.fields["name"]
      ensures !(Truthy(metadata) && Truthy(Field(metadata.value, "name"))) ==> r == JNull
    {
      if Truthy(metadata) && Truthy(Field(metadata.value, "name")) then metadata.value.fields["name"] else JNull
    }

    /** `isLookingAtScreen`: `lookingAtScreen == 0`. */
    predicate IsLookingAtScreen() {
      LooseEqualsNumber(lookingAtScreen, 0.0)
    }
  }

  /** `fromMessage` with the construction clock `now`. */
  function FromMessage(m: PD.PersonDetectionMessage, now: real): (r: PersonDetection)
    ensures r.ttid == m.ttid && r.personId == m.personId && r.personPutId == m.personPutId
    ensures r.age == m.age && r.gender == m.gender && r.localTimestamp == m.localTimestamp
    ensures r.coordinates == m.coordinates && r.metadata == m.recognition
    ensures r.lookingAtScreen == m.lookingAtScreen && r.poi == m.poi && r.cameraId == m.cameraId
    ensures r.updated == if m.localTimestamp != 0.0 then m.localTimestamp else now
  {
    var person := PersonDetection(
      m.age, m.gender, m.ttid, m.personId, m.personPutId, m.coordinates, m.recognition,
      now, m.localTimestamp, m.lookingAtScreen, m.cameraId, m.poi);
    if Truthy(Some(JNum(person.localTimestamp))) then person.(updated := person.localTimestamp) else person
  }

  /** A person built from a parsed update is the update's person: its ids
      are the record's strings, it is updated at the record's timestamp (or
      the clock for timestamp 0), and it looks at the screen exactly when the
      head's `looking_at_screen` is the number 0. */
  lemma {:induction false} FromParsedUpdate(json: Json, now: real)
    requires PD.Parse(json).Success?
    ensures var data := json.fields["data"];
            var p := FromMessage(PD.Parse(json).value, now);
            && JStr(p.personId) == data.fields["person_id"]
            && JStr(p.personPutId) == data.fields["person_put_id"]
            && (data.fields["local_timestamp"] != JNum(0.0) ==> JNum(p.updated) == data.fields["local_timestamp"])
            && (data.fields["local_timestamp"] == JNum(0.0) ==> p.updated == now)
            && (p.IsLookingAtScreen() <==>
                  Field(data.fields["behavior"].fields["head"], "looking_at_screen") == Some(JNum(0.0)))
  {
  }
}
