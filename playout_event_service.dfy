/** `PlayoutEventService`: the same pairing repair as the event monitor,
    for playout events, handing each forwarded event to the monitor as a
    parsed message. */
module PlayoutEventServices {
  import opened Wrappers
  import opened JsValues
  import opened ContentEvents
  import Msg = Messages
  import POIMonitors

  /** The messages handed over for the events, in order. */
  function HandOvers(es: seq<Event>): seq<Msg.Message> {
    if es == [] then [] else HandOvers(es[..|es| - 1]) + [Msg.Unknown(EmptyObject)]
  }

  /** One message per event, each what `MessageFactory.parse` makes of the
      event's record: the unknown message of `{}`. */
  lemma {:induction false} HandOversAt(es: seq<Event>)
    ensures |HandOvers(es)| == |es|
    ensures forall i :: 0 <= i < |es| ==> HandOvers(es)[i] == Msg.Unknown(EmptyObject)
  {
    if es != [] {
      var front := es[..|es| - 1];
      HandOversAt(front);
      forall i | 0 <= i < |es|
        ensures HandOvers(es)[i] == Msg.Unknown(EmptyObject)
      {
        if i < |front| {
          assert es[i] == front[i];
        }
      }
    }
  }

  lemma {:induction false} HandOversAppend(es: seq<Event>, more: seq<Event>)
    ensures HandOvers(es + more) == HandOvers(es) + HandOvers(more)
  {
    HandOversAt(es + more);
    HandOversAt(es);
    HandOversAt(more);
    var a, b := HandOvers(es + more), HandOvers(es) + HandOvers(more);
    forall i | 0 <= i < |a| ensures a[i] == b[i] {
      if i < |es| {
        assert (es + more)[i] == es[i];
      } else {
        assert (es + more)[i] == more[i - |es|];
      }
    }
  }

  /** What a call of `forwardPlayoutEvent` leaves behind as written: the
      last event stored, and the outcome the caller sees. */
  datatype Written = Written(last: Event, outcome: Result<Event>)

  /** `forwardPlayoutEvent` exactly as written. `POIMonitor` has no
      `emitMessage`, so after the handler has stored its event as the last
      one and parsed the record, calling it throws a `TypeError` and nothing
      reaches the monitor. In a repair the inner call for the synthetic
      event throws first, so the outer event is never given its persons and
      never stored. */
  function WrittenForward(last: Option<Event>, event: Event, persons: seq<string>, now: real): (r: Written)
    ensures r.outcome == Failure(TypeError)
    ensures r.last == Forwarded(last, event, persons, now)[0]
    ensures r.last.persons == persons
  {
    var stored :=
      if Repairs(last, event) then Synthetic(last.value, event, now).(persons := persons)
      else event.(persons := persons);
    Written(stored, Failure(TypeError))
  }

  /** As written, a repaired event is lost: the event left as the last one
      is the synthetic counterpart, of the other kind, while the forwarding
      the service is built for ends with the event itself. */
  lemma {:induction false} WrittenLosesRepairedEvent(last: Option<Event>, event: Event, persons: seq<string>, now: real)
    requires Repairs(last, event)
    ensures var fw := Forwarded(last, event, persons, now);
            && fw[|fw| - 1] == event.(persons := persons)
            && WrittenForward(last, event, persons, now).last != fw[|fw| - 1]
            && !SameEdge(WrittenForward(last, event, persons, now).last, event)
  {
    var w := WrittenForward(last, event, persons, now).last;
    assert w.kind.StartKind? <==> event.kind.EndKind?;
  }

  class PlayoutEventService {
    const poiMonitor: POIMonitors.POIMonitor
    var lastContentEvent: Option<Event>
    /** The parsed messages given to the monitor, in order. */
    var handed: seq<Msg.Message>
    /** The events forwarded so far. */
    ghost var forwarded: seq<Event>

    /** Every forwarded event was handed over as the message its record
        parses to, the last one is `lastContentEvent`, and no two neighbours
        are both Starts or both Ends. */
    ghost predicate Valid()
      reads this
    {
      && NoRepeat(forwarded)
      && handed == HandOvers(forwarded)
      && (lastContentEvent.Some? <==> forwarded != [])
      && (forwarded != [] ==> lastContentEvent.value == forwarded[|forwarded| - 1])
    }

    constructor (monitor: POIMonitors.POIMonitor)
      ensures Valid() && poiMonitor == monitor
      ensures lastContentEvent.None? && handed == []
    {
      poiMonitor := monitor;
      lastContentEvent := None;
      handed := [];
      forwarded := [];
    }

    /** `lastContentEvent = event`, then the record parsed by
        `MessageFactory.parse` handed to the monitor, for an event that does
        not repeat the last kind. */
    method HandOver(e: Event, now: real)
      requires Valid() && !Repairs(lastContentEvent, e)
      modifies this
      ensures Valid()
      ensures forwarded == old(forwarded) + [e] && handed == old(handed) + [Msg.Parse(EventRecord(e), now)]
      ensures handed[|handed| - 1] == Msg.Unknown(EmptyObject)
      ensures lastContentEvent == Some(e)
    {
      NoRepeatAppend(forwarded, e);
      HandOversAppend(forwarded, [e]);
      lastContentEvent := Some(e);
      RecordIsUnknown(e, now);
      var message := Msg.Parse(EventRecord(e), now);
      handed := handed + [message];
      forwarded := forwarded + [e];
    }

    /** `forwardPlayoutEvent` at clock `now` (the time a synthetic event
        is built and the records are parsed). `attached` is the event as the
        caller sees it afterwards, with its persons set. */
    method ForwardPlayoutEvent(event: Event, now: real) returns (attached: Event)
      requires Valid()
      modifies this
      ensures Valid()
      ensures var fw := Forwarded(old(lastContentEvent), event, PersonsOf(poiMonitor.GetSnapshot().persons), now);
              && forwarded == old(forwarded) + fw
              && handed == old(handed) + HandOvers(fw)
              && attached == event.(persons := PersonsOf(poiMonitor.GetSnapshot().persons))
              && lastContentEvent == Some(attached)
    {
      ghost var log := forwarded;
      var persons := PersonsOf(poiMonitor.GetSnapshot().persons);
      attached := ForwardWith(event, now, persons);
      HandOversAppend(log, Forwarded(old(lastContentEvent), event, persons, now));
    }

    /** `forwardPlayoutEvent` with the persons list it attaches, which is
        the same at every level of the recursion. */
    method ForwardWith(event: Event, now: real, persons: seq<string>) returns (attached: Event)
      requires Valid()
      modifies this
      decreases if Repairs(lastContentEvent, event) then 1 else 0
      ensures Valid()
      ensures forwarded == old(forwarded) + Forwarded(old(lastContentEvent), event, persons, now)
      ensures attached == event.(persons := persons) && lastContentEvent == Some(attached)
    {
      ghost var log, last := forwarded, lastContentEvent;
      if lastContentEvent.Some? && lastContentEvent.value.kind.StartKind? && event.kind.StartKind? {
        RepairSplits(last, event, persons, now);
        var ended := ForwardWith(NewEnd(lastContentEvent.value.contentId, now), now, persons);
      } else if lastContentEvent.Some? && lastContentEvent.value.kind.EndKind? && event.kind.EndKind? {
        RepairSplits(last, event, persons, now);
        var started := ForwardWith(NewStart(lastContentEvent.value.contentId, now), now, persons);
      }
      attached := event.(persons := persons);
      HandOver(attached, now);
    }
  }
}
