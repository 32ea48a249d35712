/** Content and playout events (`ContentEvent`, `StartEvent`, `EndEvent`
    and their playout twins) and the pairing repair both forwarding
    services apply: a second Start is preceded by a synthetic End, a second
    End by a synthetic Start. */
module ContentEvents {
  import opened Wrappers
  import opened JsValues
  import opened POISnapshots
  import Msg = Messages
  import PDet = PersonDetections
  import opened OrderedMaps

  /** `RPCContentEvent.Start` and `RPCContentEvent.End`. */
  const StartName: string := "start"
  const EndName: string := "end"
  /** `RPCFunction.Analytics`. */
  const AnalyticsFunction: string := "analytics"

  /** Which class built the event: `StartEvent`, `EndEvent`, or the base
      class with a name of its own. */
  datatype Kind = StartKind | EndKind | Plain(name: string)

  datatype Event = Event(kind: Kind, contentId: string, persons: seq<string>, timestamp: real) {
    /** `name`. */
    function Name(): (r: string)
      ensures kind.StartKind? ==> r == StartName
      ensures kind.EndKind? ==> r == EndName
      ensures kind.Plain? ==> r == kind.name
    {
      match kind
      case StartKind => StartName
      case EndKind => EndName
      case Plain(n) => n
    }
  }

  /** `new StartEvent(contentId)` at clock `now`. */
  function NewStart(contentId: string, now: real): (r: Event)
    ensures r.kind.StartKind? && r.Name() == StartName
    ensures r.contentId == contentId && r.persons == [] && r.timestamp == now
  {
    Event(StartKind, contentId, [], now)
  }

  /** `new EndEvent(contentId)` at clock `now`. */
  function NewEnd(contentId: string, now: real): (r: Event)
    ensures r.kind.EndKind? && r.Name() == EndName
    ensures r.contentId == contentId && r.persons == [] && r.timestamp == now
  {
    Event(EndKind, contentId, [], now)
  }

  /** Two Starts or two Ends in a row. */
  predicate SameEdge(a: Event, b: Event) {
    (a.kind.StartKind? && b.kind.StartKind?) || (a.kind.EndKind? && b.kind.EndKind?)
  }

  /** The case the services repair. */
  predicate Repairs(last: Option<Event>, event: Event) {
    last.Some? && SameEdge(last.value, event)
  }

  /** No two neighbouring events are both Starts or both Ends. */
  predicate NoRepeat(es: seq<Event>) {
    |es| < 2 || (NoRepeat(es[..|es| - 1]) && !SameEdge(es[|es| - 2], es[|es| - 1]))
  }

  lemma {:induction false} NoRepeatAppend(es: seq<Event>, e: Event)
    requires NoRepeat(es)
    requires es != [] ==> !SameEdge(es[|es| - 1], e)
    ensures NoRepeat(es + [e])
  {
    assert (es + [e])[..|es|] == es;
  }

  /** The events forwarded for `event` after `last`, each carrying
      `persons`: the synthetic event of the opposite kind for the last
      content id first, when repairing, and then the event itself. */
  function Forwarded(last: Option<Event>, event: Event, persons: seq<string>, now: real): (r: seq<Event>)
    ensures |r| == if Repairs(last, event) then 2 else 1
    ensures r[|r| - 1] == event.(persons := persons)
    ensures forall i :: 0 <= i < |r| ==> r[i].persons == persons
    ensures |r| == 2 ==>
              && r[0].contentId == last.value.contentId && r[0].timestamp == now
              && (event.kind.StartKind? ==> r[0].kind.EndKind?)
              && (event.kind.EndKind? ==> r[0].kind.StartKind?)
  {
    var repair :=
      if !Repairs(last, event) then []
      else if event.kind.StartKind? then [NewEnd(last.value.contentId, now).(persons := persons)]
      else [NewStart(last.value.contentId, now).(persons := persons)];
    repair + [event.(persons := persons)]
  }

  /** The synthetic event a repair forwards first. */
  function Synthetic(last: Event, event: Event, now: real): Event {
    if event.kind.StartKind? then NewEnd(last.contentId, now) else NewStart(last.contentId, now)
  }

  /** A repair forwards what forwarding the synthetic event alone forwards,
      and then the event. */
  lemma RepairSplits(last: Option<Event>, event: Event, persons: seq<string>, now: real)
    requires Repairs(last, event)
    ensures var syn := Synthetic(last.value, event, now);
            && !Repairs(last, syn)
            && Forwarded(last, event, persons, now) == Forwarded(last, syn, persons, now) + [event.(persons := persons)]
  {
  }

  /** Forwarding never puts two Starts or two Ends next to each other,
      counting the event forwarded before. */
  lemma {:induction false} ForwardedNoRepeat(log: seq<Event>, last: Option<Event>, event: Event, persons: seq<string>, now: real)
    requires NoRepeat(log)
    requires last.Some? <==> log != []
    requires log != [] ==> last.value == log[|log| - 1]
    ensures NoRepeat(log + Forwarded(last, event, persons, now))
  {
    var fw := Forwarded(last, event, persons, now);
    if |fw| == 1 {
      NoRepeatAppend(log, fw[0]);
      assert log + fw == log + [fw[0]];
    } else {
      NoRepeatAppend(log, fw[0]);
      NoRepeatAppend(log + [fw[0]], fw[1]);
      assert log + fw == log + [fw[0]] + [fw[1]];
    }
  }

  /** When every event is a Start or an End, a log without repeats
      alternates between them. */
  lemma {:induction false} EdgesAlternate(es: seq<Event>)
    requires NoRepeat(es)
    requires forall i :: 0 <= i < |es| ==> es[i].kind.StartKind? || es[i].kind.EndKind?
    ensures forall i :: 0 < i < |es| ==> (es[i].kind.StartKind? <==> es[i - 1].kind.EndKind?)
  {
    if |es| >= 2 {
      var front := es[..|es| - 1];
      EdgesAlternate(front);
      forall i | 0 < i < |es|
        ensures es[i].kind.StartKind? <==> es[i - 1].kind.EndKind?
      {
        if i < |es| - 1 {
          assert es[i] == front[i] && es[i - 1] == front[i - 1];
        }
      }
    }
  }

  /** `Array.from(persons.values()).map(p => p.personPutId)`: the put ids
      of the entries of `ks`, in the order of `ks`. */
  function PutIds(ks: seq<string>, entries: map<string, PDet.PersonDetection>): seq<string> {
    if ks == [] then []
    else (if ks[0] in entries then [entries[ks[0]].personPutId] else []) + PutIds(ks[1..], entries)
  }

  /** The put ids of a persons map, in map order. */
  function PersonsOf(persons: OrderedMap<PDet.PersonDetection>): seq<string> {
    PutIds(persons.keys, persons.entries)
  }

  /** For a well-formed map the list has one put id per person, in map
      order. */
  lemma {:induction false} PutIdsInOrder(ks: seq<string>, entries: map<string, PDet.PersonDetection>)
    requires forall k :: k in ks ==> k in entries
    ensures |PutIds(ks, entries)| == |ks|
    ensures forall i :: 0 <= i < |ks| ==> PutIds(ks, entries)[i] == entries[ks[i]].personPutId
  {
    if ks != [] {
      PutIdsInOrder(ks[1..], entries);
      forall i | 0 < i < |ks|
        ensures PutIds(ks, entries)[i] == entries[ks[i]].personPutId
      {
        assert ks[i] == ks[1..][i - 1];
      }
    }
  }

  /** The strings as a JSON array. */
  function StringsJson(ss: seq<string>): (r: seq<Json>)
    ensures |r| == |ss|
    ensures forall i :: 0 <= i < |ss| ==> r[i] == JStr(ss[i])
  {
    if ss == [] then [] else [JStr(ss[0])] + StringsJson(ss[1..])
  }

  /** The object both services send: name, record type, content id and put
      ids. */
  function EventRecord(e: Event): (r: Json)
    ensures r.JObj? && r.fields.Keys == {"name", "record_type", "content_id", "person_put_ids"}
    ensures r.fields["name"] == JStr(e.Name()) && r.fields["content_id"] == JStr(e.contentId)
    ensures r.fields["record_type"] == JStr(Msg.ContentEventRecord)
    ensures r.fields["person_put_ids"] == JArr(StringsJson(e.persons))
  {
    JObj(map[
      "name" := JStr(e.Name()),
      "record_type" := JStr(Msg.ContentEventRecord),
      "content_id" := JStr(e.contentId),
      "person_put_ids" := JArr(StringsJson(e.persons))])
  }

  /** The record has its record type at the top level and neither `subject`
      nor `data`, so `MessageFactory.parse` gives the unknown message of
      `{}`: nothing of the event reaches the parsed message. */
  lemma {:induction false} RecordIsUnknown(e: Event, now: real)
    ensures Msg.Parse(EventRecord(e), now) == Msg.Unknown(EmptyObject)
  {
    var r := EventRecord(e);
    assert "subject" !in r.fields && "data" !in r.fields;
    assert !Msg.HasSubject(r, Msg.PersonUpdateSubject) && !Msg.HasSubject(r, Msg.PersonsAliveSubject);
    assert !Msg.IsContentEvent(r);
  }
}
