/** `POIMonitor`: applies every parsed message to a live snapshot, hands a
    clone of it to the subscribers of a behaviour subject, and watches the
    sensor's health with a 2000 ms timeout re-armed by each alive message. */
module POIMonitors {
  import opened Wrappers
  import opened JsValues
  import opened OrderedMaps
  import opened POISnapshots
  import Msg = Messages
  import PA = PersonsAliveMessages

  /** The health timeout, in milliseconds. */
  const HealthTimeout: nat := 2000

  /** `new PersonsAliveMessage({data: {person_ids: []}})` at clock `now`: the
      message the timeout injects. */
  function EmptyAlive(now: real): (r: PA.PersonsAliveMessage)
    ensures PA.Parse(JObj(map["data" := JObj(map["person_ids" := JArr([])])]), now) == Success(r)
    ensures r.GetPersonIds() == JArr([]) && r.localTimestamp == JNum(now)
  {
    PA.EmptyListAccepted(now);
    PA.PersonsAliveMessage(JArr([]), JNum(now))
  }

  /** Everything the monitor holds. `value` is the subject's current value:
      `None` while it still holds the live snapshot it was created with.
      `emitted` lists what the subscribers were handed, in order. `armed`
      says a health timeout is pending and `deadline` is the clock at which
      it fires (arming again replaces the pending one).
      `subscription` is `None` before `start`, otherwise whether the
      subscription to the message stream is open. */
  datatype MonitorState = MonitorState(
    isActive: bool,
    armed: bool,
    deadline: real,
    snap: SnapshotState,
    value: Option<SnapshotState>,
    emitted: seq<SnapshotState>,
    completed: bool,
    subscription: Option<bool>,
    subscriptions: nat)
  {
    /** The snapshot and the subject's value are consistent, and a timeout
        is only pending while the sensor counts as active. */
    ghost predicate Valid() {
      && snap.Consistent()
      && (value.Some? ==> value.value.Consistent())
      && (!isActive ==> !armed)
    }
  }

  function InitialMonitor(): (r: MonitorState)
    ensures r.Valid() && r.isActive && !r.armed && r.emitted == []
  {
    MonitorState(true, false, 0.0, Initial(), None, [], false, None, 0)
  }

  /** `getSnapshot`: the subject's current value. */
  function GetSnapshotOf(st: MonitorState): SnapshotState {
    if st.value.Some? then st.value.value else st.snap
  }

  /** `BehaviorSubject.next`: the value is replaced; it reaches the
      subscribers only while the subject is not completed. */
  function Deliver(st: MonitorState, v: SnapshotState): (r: MonitorState)
    ensures GetSnapshotOf(r) == v
    ensures r.emitted == if st.completed then st.emitted else st.emitted + [v]
    ensures r == st.(value := Some(v), emitted := r.emitted)
  {
    st.(value := Some(v), emitted := if st.completed then st.emitted else st.emitted + [v])
  }

  /** `emitSnapshot`: a throwing update stops it before anything else. */
  function Emit(st: MonitorState, m: Msg.Message, now: real): (r: Result<MonitorState>)
    requires st.Valid()
    ensures r.Success? <==> Apply(st.snap, m, now).Success?
    ensures r.Failure? ==> r.error == TypeError
    ensures r.Success? ==> r.value.Valid()
  {
    var snap :- Apply(st.snap, m, now);
    ConsistentPreserved(st.snap, m, now);
    var updated := st.(snap := snap);
    var watched :=
      if !m.PersonsAlive? then updated
      else if st.isActive then updated.(armed := true, deadline := now + HealthTimeout as real)
      else updated.(isActive := true);
    Success(Deliver(watched, CloneState(snap)))
  }

  /** The timeout callback: inactive, no persons, the empty alive message
      applied at clock `now`, and a clone handed out. */
  function Fire(st: MonitorState, now: real): (r: MonitorState)
    requires st.Valid()
    ensures r.Valid()
  {
    var cleared := st.snap.(persons := Empty());
    var snap := ApplyAlive(cleared, EmptyAlive(now)).value;
    AliveEffect(cleared, EmptyAlive(now));
    Deliver(st.(isActive := false, armed := false, snap := snap), CloneState(snap))
  }

  /** `start`: subscribes unless an open subscription exists. */
  function AfterStart(st: MonitorState): (r: MonitorState)
    ensures r.subscription == Some(true)
    ensures r.subscriptions == st.subscriptions + (if st.subscription == Some(true) then 0 else 1)
    ensures r == st.(subscription := r.subscription, subscriptions := r.subscriptions)
  {
    if st.subscription == Some(true) then st
    else st.(subscription := Some(true), subscriptions := st.subscriptions + 1)
  }

  /** `complete`: `unsubscribe` on the never-set subscription throws before
      the subject is completed. */
  function AfterComplete(st: MonitorState): (r: Result<MonitorState>)
    ensures r.Failure? <==> st.subscription.None?
    ensures r.Failure? ==> r.error == TypeError
    ensures r.Success? ==> r.value == st.(subscription := Some(false), completed := true)
  {
    if st.subscription.None? then Failure(TypeError)
    else Success(st.(subscription := Some(false), completed := true))
  }

  /** An emission applies the message, hands out exactly one clone of the
      result (unless the subject is completed), and makes it the monitor's
      value. Only an alive message touches the health state: while active
      it re-arms the timeout, while inactive it reactivates without arming. */
  lemma {:induction false} EmitEffect(st: MonitorState, m: Msg.Message, now: real)
    requires st.Valid() && Emit(st, m, now).Success?
    ensures var r := Emit(st, m, now).value;
            var snap := Apply(st.snap, m, now).value;
            && r.snap == snap
            && GetSnapshotOf(r) == CloneState(snap)
            && r.emitted == st.emitted + (if st.completed then [] else [CloneState(snap)])
            && r.completed == st.completed && r.subscription == st.subscription
            && (!m.PersonsAlive? ==>
                  r.isActive == st.isActive && r.armed == st.armed && r.deadline == st.deadline)
            && (m.PersonsAlive? ==> r.isActive)
            && (m.PersonsAlive? && st.isActive ==> r.armed && r.deadline == now + HealthTimeout as real)
            && (m.PersonsAlive? && !st.isActive ==> !r.armed && r.deadline == st.deadline)
  {
  }

  /** After the timeout the sensor is inactive, the snapshot and the clone
      handed out hold no person, and the only update times kept are those
      within 2000 ms of the clock. */
  lemma {:induction false} FireEffect(st: MonitorState, now: real)
    requires st.Valid()
    ensures var r := Fire(st, now);
            && !r.isActive && !r.armed
            && r.snap.persons.keys == []
            && GetSnapshotOf(r).persons.keys == []
            && r.emitted == st.emitted + (if st.completed then [] else [CloneState(r.snap)])
            && (forall k :: k in r.snap.lastPersonUpdate.entries <==>
                  k in st.snap.lastPersonUpdate.entries && !Stale(JNum(now), st.snap.lastPersonUpdate.entries[k]))
  {
    var cleared := st.snap.(persons := Empty());
    var m := EmptyAlive(now);
    var ps := cleared.persons.Values();
    AliveSteps(cleared, m);
    assert RefreshUpTo(cleared.lastPersonUpdate, ps, m.personIds, m.localTimestamp, |ps|) == cleared.lastPersonUpdate;
    assert cleared.(lastPersonUpdate := cleared.lastPersonUpdate) == cleared;
    PruneEffect(cleared, JNum(now));
    var snap := ApplyAlive(cleared, m).value;
    assert snap.persons.keys == Without(cleared.persons.keys, StaleKeys(cleared.lastPersonUpdate, JNum(now)));
  }

  /** Once the timeout has fired, the next alive message reactivates the
      sensor without arming a timeout, and the one after re-arms it. */
  lemma {:induction false} ReviveAfterFire(st: MonitorState, now: real, m1: Msg.Message, m2: Msg.Message, later: real)
    requires st.Valid() && m1.PersonsAlive? && m2.PersonsAlive?
    requires Emit(Fire(st, now), m1, later).Success?
    requires Emit(Emit(Fire(st, now), m1, later).value, m2, later).Success?
    ensures var r1 := Emit(Fire(st, now), m1, later).value;
            var r2 := Emit(r1, m2, later).value;
            && r1.isActive && !r1.armed && r1.deadline == st.deadline
            && r2.isActive && r2.armed && r2.deadline == later + HealthTimeout as real
  {
    FireEffect(st, now);
    var f := Fire(st, now);
    EmitEffect(f, m1, later);
    EmitEffect(Emit(f, m1, later).value, m2, later);
  }

  /** A second `start` with the subscription open changes nothing. */
  lemma {:induction false} StartIdempotent(st: MonitorState)
    ensures AfterStart(AfterStart(st)) == AfterStart(st)
    ensures st.subscription == Some(false) ==> AfterStart(st).subscriptions == st.subscriptions + 1
  {
    assert AfterStart(st).subscription == Some(true);
  }

  /** After `complete`, emissions still replace the value but reach no
      subscriber. */
  lemma {:induction false} CompletedDeliversNothing(st: MonitorState, m: Msg.Message, now: real)
    requires st.Valid() && AfterComplete(st).Success?
    requires Emit(AfterComplete(st).value, m, now).Success?
    ensures var r := Emit(AfterComplete(st).value, m, now).value;
            && r.emitted == st.emitted
            && GetSnapshotOf(r) == CloneState(Apply(st.snap, m, now).value)
  {
    var c := AfterComplete(st).value;
    assert c.Valid() && c.snap == st.snap;
    EmitEffect(c, m, now);
  }

  class POIMonitor {
    var isActive: bool
    var armed: bool
    var deadline: real
    const snapshot: POISnapshot
    var value: Option<SnapshotState>
    var emitted: seq<SnapshotState>
    var completed: bool
    var subscription: Option<bool>
    var subscriptions: nat

    function View(): MonitorState
      reads this, snapshot
    {
      MonitorState(isActive, armed, deadline, snapshot.View(), value, emitted, completed, subscription, subscriptions)
    }

    ghost predicate Valid()
      reads this, snapshot
    {
      snapshot.Valid() && View().Valid()
    }

    constructor ()
      ensures Valid() && View() == InitialMonitor() && fresh(snapshot)
    {
      snapshot := new POISnapshot();
      isActive := true;
      armed := false;
      deadline := 0.0;
      value := None;
      emitted := [];
      completed := false;
      subscription := None;
      subscriptions := 0;
    }

    /** `getSnapshot`. */
    function GetSnapshot(): (r: SnapshotState)
      reads this, snapshot
      ensures r == GetSnapshotOf(View())
    {
      if value.Some? then value.value else snapshot.View()
    }

    /** `snapshots.next`. */
    method Next(v: SnapshotState)
      modifies this
      ensures View() == Deliver(old(View()), v)
    {
      value := Some(v);
      if !completed {
        emitted := emitted + [v];
      }
    }

    /** `start`; the subscription itself is outside the model. */
    method Start()
      modifies this
      ensures View() == AfterStart(old(View()))
    {
      if subscription != Some(true) {
        subscription := Some(true);
        subscriptions := subscriptions + 1;
      }
    }

    method EmitSnapshot(m: Msg.Message, now: real) returns (outcome: Result<()>)
      requires Valid()
      modifies this, snapshot
      ensures Valid()
      ensures outcome.Success? <==> Emit(old(View()), m, now).Success?
      ensures outcome.Failure? ==> outcome.error == TypeError && View() == old(View())
      ensures outcome.Success? ==> View() == Emit(old(View()), m, now).value
    {
      ghost var st := View();
      outcome := snapshot.Update(m, now);
      if outcome.Failure? {
        return;
      }
      ConsistentPreserved(st.snap, m, now);
      if m.PersonsAlive? {
        if isActive {
          armed := true;
          deadline := now + HealthTimeout as real;
        } else {
          isActive := true;
        }
      }
      var c := snapshot.Clone();
      Next(c.View());
    }

    /** The pending timeout fires at clock `now`. */
    method TimerFired(now: real)
      requires Valid() && armed && now >= deadline
      modifies this, snapshot
      ensures Valid()
      ensures View() == Fire(old(View()), now)
    {
      ghost var st := View();
      isActive := false;
      armed := false;
      snapshot.SetPersons(Empty());
      ghost var cleared := snapshot.View();
      assert cleared == st.snap.(persons := Empty());
      AliveEffect(cleared, EmptyAlive(now));
      var outcome := snapshot.Update(Msg.PersonsAlive(EmptyAlive(now)), now);
      var c := snapshot.Clone();
      Next(c.View());
    }

    method Complete() returns (outcome: Result<()>)
      modifies this
      ensures outcome.Success? <==> AfterComplete(old(View())).Success?
      ensures outcome.Failure? ==> outcome.error == TypeError && View() == old(View())
      ensures outcome.Success? ==> View() == AfterComplete(old(View())).value
    {
      if subscription.None? {
        return Failure(TypeError);
      }
      subscription := Some(false);
      completed := true;
      outcome := Success(());
    }
  }
}

/** `OldPOIMonitor`: the earlier monitor. It hands out the live snapshot
    itself, before the health logic, and its timeout neither clears the
    persons nor notifies anyone. */
module OldPOIMonitors {
  import opened Wrappers
  import opened JsValues
  import opened OrderedMaps
  import opened POISnapshots
  import Msg = Messages
  import PA = PersonsAliveMessages
  import POIMonitors

  /** `emitted` lists the state of the live snapshot each time it was handed
      out; later updates are seen through the shared object. */
  datatype OldState = OldState(
    isActive: bool,
    armed: bool,
    deadline: real,
    snap: SnapshotState,
    emitted: seq<SnapshotState>,
    completed: bool)
  {
    ghost predicate Valid() {
      snap.Consistent() && (!isActive ==> !armed)
    }
  }

  /** `updateSnapshot`. */
  function Emit(st: OldState, m: Msg.Message, now: real): (r: Result<OldState>)
    requires st.Valid()
    ensures r.Success? <==> Apply(st.snap, m, now).Success?
    ensures r.Failure? ==> r.error == TypeError
    ensures r.Success? ==> r.value.Valid()
  {
    var snap :- Apply(st.snap, m, now);
    ConsistentPreserved(st.snap, m, now);
    var handed := st.(snap := snap, emitted := if st.completed then st.emitted else st.emitted + [snap]);
    Success(
      if !m.PersonsAlive? then handed
      else if st.isActive then handed.(armed := true, deadline := now + POIMonitors.HealthTimeout as real)
      else handed.(isActive := true))
  }

  /** The old timeout callback: inactive, and the empty alive message
      applied to the persons as they are. */
  function Fire(st: OldState, now: real): (r: OldState)
    requires st.Valid()
    ensures r.Valid()
  {
    var m := POIMonitors.EmptyAlive(now);
    AliveEffect(st.snap, m);
    st.(isActive := false, armed := false, snap := ApplyAlive(st.snap, m).value)
  }

  /** An emission hands out the updated live state unless completed; only an
      alive message touches the health state. */
  lemma {:induction false} EmitEffect(st: OldState, m: Msg.Message, now: real)
    requires st.Valid() && Emit(st, m, now).Success?
    ensures var r := Emit(st, m, now).value;
            var snap := Apply(st.snap, m, now).value;
            && r.snap == snap
            && r.emitted == st.emitted + (if st.completed then [] else [snap])
            && r.completed == st.completed
            && (!m.PersonsAlive? ==>
                  r.isActive == st.isActive && r.armed == st.armed && r.deadline == st.deadline)
            && (m.PersonsAlive? ==> r.isActive)
            && (m.PersonsAlive? && st.isActive ==> r.armed && r.deadline == now + POIMonitors.HealthTimeout as real)
            && (m.PersonsAlive? && !st.isActive ==> !r.armed && r.deadline == st.deadline)
  {
  }

  /** The old timeout notifies nobody, and it keeps exactly the persons
      updated within 2000 ms of the clock, unchanged. */
  lemma {:induction false} FireEffect(st: OldState, now: real)
    requires st.Valid()
    ensures var r := Fire(st, now);
            && !r.isActive && !r.armed && r.emitted == st.emitted
            && (forall k :: k in r.snap.persons.entries <==>
                  k in st.snap.persons.entries && !Stale(JNum(now), st.snap.lastPersonUpdate.entries[k]))
            && (forall k :: k in r.snap.persons.entries ==> r.snap.persons.entries[k] == st.snap.persons.entries[k])
  {
    var m := POIMonitors.EmptyAlive(now);
    AliveEffect(st.snap, m);
    forall k | k in st.snap.persons.entries
      ensures !Listed(m.personIds, k)
    {
    }
  }

  class OldPOIMonitor {
    var isActive: bool
    var armed: bool
    var deadline: real
    const snapshot: POISnapshot
    var emitted: seq<SnapshotState>
    var completed: bool

    function View(): OldState
      reads this, snapshot
    {
      OldState(isActive, armed, deadline, snapshot.View(), emitted, completed)
    }

    ghost predicate Valid()
      reads this, snapshot
    {
      snapshot.Valid() && View().Valid()
    }

    /** The constructor; its subscription to the incoming stream is outside
        the model. */
    constructor ()
      ensures Valid() && fresh(snapshot)
      ensures View() == OldState(true, false, 0.0, Initial(), [], false)
    {
      snapshot := new POISnapshot();
      isActive := true;
      armed := false;
      deadline := 0.0;
      emitted := [];
      completed := false;
    }

    /** `getSnapshot`: always the live snapshot. */
    function GetSnapshot(): (r: SnapshotState)
      reads this, snapshot
      ensures r == View().snap
    {
      snapshot.View()
    }

    method UpdateSnapshot(m: Msg.Message, now: real) returns (outcome: Result<()>)
      requires Valid()
      modifies this, snapshot
      ensures Valid()
      ensures outcome.Success? <==> Emit(old(View()), m, now).Success?
      ensures outcome.Failure? ==> outcome.error == TypeError && View() == old(View())
      ensures outcome.Success? ==> View() == Emit(old(View()), m, now).value
    {
      ghost var st := View();
      outcome := snapshot.Update(m, now);
      if outcome.Failure? {
        return;
      }
      ConsistentPreserved(st.snap, m, now);
      if !completed {
        emitted := emitted + [snapshot.View()];
      }
      if m.PersonsAlive? {
        if isActive {
          armed := true;
          deadline := now + POIMonitors.HealthTimeout as real;
        } else {
          isActive := true;
        }
      }
    }

    method TimerFired(now: real)
      requires Valid() && armed && now >= deadline
      modifies this, snapshot
      ensures Valid()
      ensures View() == Fire(old(View()), now)
    {
      ghost var st := View();
      isActive := false;
      armed := false;
      AliveEffect(st.snap, POIMonitors.EmptyAlive(now));
      var outcome := snapshot.Update(Msg.PersonsAlive(POIMonitors.EmptyAlive(now)), now);
    }

    method Complete()
      modifies this
      ensures View() == old(View()).(completed := true)
    {
      completed := true;
    }

    /** `subscribe`: a new subscriber is handed the live snapshot at once,
        unless the subject is completed. */
    method Subscribe() returns (first: Option<SnapshotState>)
      ensures first == if completed then None else Some(snapshot.View())
    {
      first := if completed then None else Some(snapshot.View());
    }
  }
}
