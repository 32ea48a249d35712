/** `EventMonitor`: forwards content events to the subscribers and, as an
    analytics call, to the sensor, repairing the Start/End pairing and
    attaching the put ids of the persons in the monitored snapshot. */
module EventMonitors {
  import opened Wrappers
  import opened JsValues
  import opened ContentEvents
  import OldPOIMonitors

  /** One call of the incoming stream's `rpc`. */
  datatype Rpc = Rpc(fn: string, params: Json)

  /** The analytics call for a forwarded event. */
  function RpcOf(e: Event): (r: Rpc)
    ensures r.fn == AnalyticsFunction && r.params == EventRecord(e)
  {
    Rpc(AnalyticsFunction, EventRecord(e))
  }

  /** One analytics call per event, in order. */
  function RpcsOf(es: seq<Event>): seq<Rpc> {
    if es == [] then [] else RpcsOf(es[..|es| - 1]) + [RpcOf(es[|es| - 1])]
  }

  /** One call per event, each the analytics call of its record. */
  lemma {:induction false} RpcsOfAt(es: seq<Event>)
    ensures |RpcsOf(es)| == |es|
    ensures forall i :: 0 <= i < |es| ==> RpcsOf(es)[i] == RpcOf(es[i])
  {
    if es != [] {
      var front := es[..|es| - 1];
      RpcsOfAt(front);
      forall i | 0 <= i < |es|
        ensures RpcsOf(es)[i] == RpcOf(es[i])
      {
        if i < |front| {
          assert es[i] == front[i];
        }
      }
    }
  }

  lemma {:induction false} RpcsOfAppend(es: seq<Event>, more: seq<Event>)
    ensures RpcsOf(es + more) == RpcsOf(es) + RpcsOf(more)
  {
    RpcsOfAt(es + more);
    RpcsOfAt(es);
    RpcsOfAt(more);
    var a, b := RpcsOf(es + more), RpcsOf(es) + RpcsOf(more);
    forall i | 0 <= i < |a| ensures a[i] == b[i] {
      if i < |es| {
        assert (es + more)[i] == es[i];
      } else {
        assert (es + more)[i] == more[i - |es|];
      }
    }
  }

  class EventMonitor {
    /** The monitor whose snapshot supplies the persons. */
    const poiMonitor: OldPOIMonitors.OldPOIMonitor
    var lastContentEvent: Option<Event>
    /** What the subject pushed to its subscribers, in order. */
    var pushed: seq<Event>
    /** What was sent to the sensor, in order. */
    var rpcs: seq<Rpc>

    /** The last event is the last one pushed, every pushed event had its
        analytics call, and no two neighbours are both Starts or both Ends. */
    ghost predicate Valid()
      reads this
    {
      && NoRepeat(pushed)
      && rpcs == RpcsOf(pushed)
      && (lastContentEvent.Some? <==> pushed != [])
      && (pushed != [] ==> lastContentEvent.value == pushed[|pushed| - 1])
    }

    /** The constructor; the incoming stream is only used for `rpc`. */
    constructor (monitor: OldPOIMonitors.OldPOIMonitor)
      ensures Valid() && poiMonitor == monitor
      ensures lastContentEvent.None? && pushed == [] && rpcs == []
    {
      poiMonitor := monitor;
      lastContentEvent := None;
      pushed := [];
      rpcs := [];
    }

    /** `contentEvents.next(event)`, `lastContentEvent = event` and the
        analytics call, for an event that does not repeat the last kind. */
    method Push(e: Event)
      requires Valid() && !Repairs(lastContentEvent, e)
      modifies this
      ensures Valid()
      ensures pushed == old(pushed) + [e] && rpcs == old(rpcs) + [RpcOf(e)]
      ensures lastContentEvent == Some(e)
    {
      NoRepeatAppend(pushed, e);
      RpcsOfAppend(pushed, [e]);
      pushed := pushed + [e];
      lastContentEvent := Some(e);
      rpcs := rpcs + [RpcOf(e)];
    }

    /** `forwardContentEvent` at clock `now` (the time a synthetic event is
        built). `attached` is the event as the caller sees it afterwards,
        with its persons set. */
    method ForwardContentEvent(event: Event, now: real) returns (attached: Event)
      requires Valid()
      modifies this
      ensures Valid()
      ensures var fw := Forwarded(old(lastContentEvent), event, PersonsOf(poiMonitor.GetSnapshot().persons), now);
              && pushed == old(pushed) + fw
              && rpcs == old(rpcs) + RpcsOf(fw)
              && attached == event.(persons := PersonsOf(poiMonitor.GetSnapshot().persons))
              && lastContentEvent == Some(attached)
    {
      ghost var log := pushed;
      var persons := PersonsOf(poiMonitor.GetSnapshot().persons);
      attached := ForwardWith(event, now, persons);
      RpcsOfAppend(log, Forwarded(old(lastContentEvent), event, persons, now));
    }

    /** `forwardContentEvent` with the persons list it attaches, which is
        the same at every level of the recursion. */
    method ForwardWith(event: Event, now: real, persons: seq<string>) returns (attached: Event)
      requires Valid()
      modifies this
      decreases if Repairs(lastContentEvent, event) then 1 else 0
      ensures Valid()
      ensures pushed == old(pushed) + Forwarded(old(lastContentEvent), event, persons, now)
      ensures attached == event.(persons := persons) && lastContentEvent == Some(attached)
    {
      ghost var log, last := pushed, lastContentEvent;
      if lastContentEvent.Some? && lastContentEvent.value.kind.StartKind? && event.kind.StartKind? {
        RepairSplits(last, event, persons, now);
        var ended := ForwardWith(NewEnd(lastContentEvent.value.contentId, now), now, persons);
      } else if lastContentEvent.Some? && lastContentEvent.value.kind.EndKind? && event.kind.EndKind? {
        RepairSplits(last, event, persons, now);
        var started := ForwardWith(NewStart(lastContentEvent.value.contentId, now), now, persons);
      }
      attached := event.(persons := persons);
      Push(attached);
    }
  }
}
