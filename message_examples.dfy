/** `MessageFactory.parse` on concrete messages of the kinds the sensor
    sends. */
module MessageExamples {
  import opened Wrappers
  import opened JsValues
  import opened Messages
  import PD = PersonDetectionMessages
  import PDS = PersonDetectionSchemas
  import PA = PersonsAliveMessages
  import CM = ContentMessages

  const PersonId: string := "b8d660b3-7931-4fb2-a5ab-ccac2ed994dd"

  /** The smallest valid person record, with a head that looks at the
      screen. */
  function PersonRecord(withBehavior: bool): Json {
    var base := map[
      "record_type" := JStr("person"),
      "local_timestamp" := JNum(1508404346173.0),
      "person_id" := JStr(PersonId),
      "person_put_id" := JStr("74ad6537-f268-4736-be15-d7b39ccc161c"),
      "coordinates" := JObj(map["x" := JNum(-9.0), "y" := JNum(0.0), "z" := JNum(12.0)])
    ];
    if withBehavior then
      JObj(base["behavior" := JObj(map["head" := JObj(map["looking_at_screen" := JNum(5.0)])])])
    else
      JObj(base)
  }

  /** A content event; the variant without `content_play_id` is the one the
      factory's own unit test expects to be recognised. */
  function ContentRecord(withPlayId: bool): Json {
    var base := map[
      "content_id" := JStr("3351"),
      "local_timestamp" := JNum(1535483341071.0),
      "name" := JStr("start"),
      "person_put_ids" := JArr([JStr("None")]),
      "poi" := JNum(1.0),
      "record_type" := JStr("content_event"),
      "timezone" := JStr("Europe/Berlin")
    ];
    JObj(if withPlayId then base["content_play_id" := JStr("42")] else base)
  }

  lemma {:induction false} EmptyObjectIsUnknown(now: real)
    ensures Parse(EmptyObject, now) == Unknown(EmptyObject)
  {
    assert !IsContentEvent(EmptyObject);
  }

  /** A raw string (text that failed to parse as JSON) gives an
      `UnknownMessage`, whose data is `{}` and not the string. */
  lemma {:induction false} RawStringIsUnknown(s: string, now: real)
    ensures Parse(JStr(s), now) == Unknown(EmptyObject)
  {
    assert Field(JStr(s), "data") == None;
  }

  /** An alive message without `person_ids` is unknown. */
  lemma {:induction false} AliveWithoutIdsIsUnknown(now: real)
    ensures Parse(JObj(map["subject" := JStr("persons_alive"), "data" := EmptyObject]), now) == Unknown(EmptyObject)
  {
    var json := JObj(map["subject" := JStr("persons_alive"), "data" := EmptyObject]);
    assert HasSubject(json, PersonsAliveSubject);
    assert !HasSubject(json, PersonUpdateSubject);
    assert !PA.Parse(json, now).Success? by {
      assert Field(EmptyObject, "person_ids") == None;
    }
  }

  /** An alive message gives its id list back unchanged. */
  lemma {:induction false} AliveIsRecognised(now: real)
    ensures var json := JObj(map["subject" := JStr("persons_alive"),
                                 "data" := JObj(map["person_ids" := JArr([JStr(PersonId)])])]);
            Parse(json, now) == PersonsAlive(PA.PersonsAliveMessage(JArr([JStr(PersonId)]), JNum(now)))
  {
    var data := JObj(map["person_ids" := JArr([JStr(PersonId)])]);
    var json := JObj(map["subject" := JStr("persons_alive"), "data" := data]);
    assert HasSubject(json, PersonsAliveSubject);
    assert !HasSubject(json, PersonUpdateSubject);
    assert Field(data, "local_timestamp") == None;
  }

  /** A person update with empty data is unknown. */
  lemma {:induction false} EmptyUpdateIsUnknown(now: real)
    ensures Parse(JObj(map["subject" := JStr("person_update"), "data" := EmptyObject]), now) == Unknown(EmptyObject)
  {
    var json := JObj(map["subject" := JStr("person_update"), "data" := EmptyObject]);
    assert HasSubject(json, PersonUpdateSubject);
    assert !PDS.ValidRecord(EmptyObject);
  }

  /** A valid person update is recognised when it has `behavior.head`, and is
      unknown without it even though the schema accepts it. */
  lemma {:induction false} UpdateNeedsHead(now: real)
    ensures Parse(JObj(map["subject" := JStr("person_update"), "data" := PersonRecord(true)]), now).PersonDetection?
    ensures Parse(JObj(map["subject" := JStr("person_update"), "data" := PersonRecord(false)]), now) == Unknown(EmptyObject)
  {
    var ok := JObj(map["subject" := JStr("person_update"), "data" := PersonRecord(true)]);
    var bad := JObj(map["subject" := JStr("person_update"), "data" := PersonRecord(false)]);
    assert HasSubject(ok, PersonUpdateSubject) && HasSubject(bad, PersonUpdateSubject);
    var h := JObj(map["looking_at_screen" := JNum(5.0)]);
    assert PDS.ValidHead(h) by {
      assert PDS.IsNumber(h.fields["looking_at_screen"]);
    }
    assert PDS.ValidBehavior(JObj(map["head" := h]));
    assert PDS.ValidRecord(PersonRecord(true));
    assert PD.HasHead(PersonRecord(true));
    assert PDS.ValidRecord(PersonRecord(false));
    assert !PD.HasHead(PersonRecord(false));
  }

  /** A content event needs `content_play_id`: without it the schema rejects
      the message and the factory returns an unknown message. */
  lemma {:induction false} ContentNeedsPlayId(now: real)
    ensures Parse(JObj(map["data" := ContentRecord(false)]), now) == Unknown(EmptyObject)
    ensures Parse(JObj(map["data" := ContentRecord(true)]), now).Content?
  {
    var without := JObj(map["data" := ContentRecord(false)]);
    var with := JObj(map["data" := ContentRecord(true)]);
    assert Field(without, "subject") == None && Field(with, "subject") == None;
    assert IsContentEvent(without) && IsContentEvent(with);
    assert !CM.ValidContent(ContentRecord(false));
    assert IsIntegral(1.0);
    assert CM.ValidContent(ContentRecord(true));
  }
}
