/** The incoming message kinds and `MessageFactory.parse`, which turns any
    parsed JSON value into one of them without ever throwing. */
module Messages {
  import opened Wrappers
  import opened JsValues
  import PD = PersonDetectionMessages
  import PA = PersonsAliveMessages
  import CM = ContentMessages
  import PF = PersonFlushMessages
  import SM = SkeletonMessages

  /** `RPCResponseSubject`. */
  const PersonUpdateSubject: string := "person_update"
  const PersonsAliveSubject: string := "persons_alive"
  /** `RPCRecordType.ContentEvent`. */
  const ContentEventRecord: string := "content_event"

  datatype Message =
    | PersonDetection(detection: PD.PersonDetectionMessage)
    | PersonsAlive(alive: PA.PersonsAliveMessage)
    | Content(content: CM.ContentMessage)
    | PersonFlush(flush: PF.PersonFlushMessage)
    | Skeleton(skeleton: SM.SkeletonMessage)
    /** `UnknownMessage`. Its `data` is always `{}`: the field initializer
        `data = {}` runs after the base constructor has returned, and so
        overwrites what `fromObject` stored. */
    | Unknown(data: Json)

  /** `json['subject'] == s` (compared as strings). */
  predicate HasSubject(json: Json, s: string) {
    Field(json, "subject") == Some(JStr(s))
  }

  /** `json['data'] && json['data']['record_type'] == 'content_event'`. */
  predicate IsContentEvent(json: Json) {
    var data := Field(json, "data");
    Truthy(data) && Field(data.value, "record_type") == Some(JStr(ContentEventRecord))
  }

  /** The message the matching class builds, or the exception it throws. */
  function Attempt(json: Json, now: real): Result<Message>
    requires !json.JNull?
  {
    if HasSubject(json, PersonUpdateSubject) then
      var m :- PD.Parse(json);
      Success(PersonDetection(m))
    else if HasSubject(json, PersonsAliveSubject) then
      var m :- PA.Parse(json, now);
      Success(PersonsAlive(m))
    else if IsContentEvent(json) then
      var m :- CM.Parse(json);
      Success(Content(m))
    else
      Success(Unknown(EmptyObject))
  }

  /** `MessageFactory.parse` at clock `now`: reading `subject` of null and
      every exception of a message class give an `UnknownMessage`, and so
      does an unrecognised value; every `UnknownMessage` holds `{}`. */
  function Parse(json: Json, now: real): (r: Message)
    ensures json.JNull? ==> r == Unknown(EmptyObject)
    ensures r.Unknown? ==> r.data == EmptyObject
    ensures !r.PersonFlush? && !r.Skeleton?
    ensures HasSubject(json, PersonUpdateSubject) ==>
              && (r.PersonDetection? || r == Unknown(EmptyObject))
              && (r.PersonDetection? <==> PD.Parse(json).Success?)
              && (r.PersonDetection? ==> r.detection == PD.Parse(json).value)
    ensures HasSubject(json, PersonsAliveSubject) ==>
              && (r.PersonsAlive? || r == Unknown(EmptyObject))
              && (r.PersonsAlive? <==> PA.Parse(json, now).Success?)
              && (r.PersonsAlive? ==> r.alive == PA.Parse(json, now).value)
    ensures !json.JNull? && !HasSubject(json, PersonUpdateSubject) && !HasSubject(json, PersonsAliveSubject) ==>
              if IsContentEvent(json) then
                && (r.Content? || r == Unknown(EmptyObject))
                && (r.Content? <==> CM.Parse(json).Success?)
                && (r.Content? ==> r.content == CM.Parse(json).value)
              else
                r == Unknown(EmptyObject)
  {
    if json.JNull? then Unknown(EmptyObject)
    else
      match Attempt(json, now)
      case Success(m) => m
      case Failure(_) => Unknown(EmptyObject)
  }

  /** A message of each recognised kind needs its subject or record type;
      any other outcome is the `UnknownMessage` of `{}`, whatever the input. */
  lemma {:induction false} ParseKinds(json: Json, now: real)
    ensures var r := Parse(json, now);
            r.Unknown? ==> r == Unknown(EmptyObject)
    ensures var r := Parse(json, now);
            r.PersonDetection? ==> HasSubject(json, PersonUpdateSubject)
    ensures var r := Parse(json, now);
            r.PersonsAlive? ==> HasSubject(json, PersonsAliveSubject)
    ensures var r := Parse(json, now);
            r.Content? ==> IsContentEvent(json) && !HasSubject(json, PersonUpdateSubject)
  {
  }
}
