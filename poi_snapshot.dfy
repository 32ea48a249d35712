/** `POISnapshot`: what is happening at the point of interest. It keeps the
    admitted persons, the content being played and, per person id, the time
    of the last sign of life; a person without news for more than two
    seconds is dropped. */
module POISnapshots {
  import opened Wrappers
  import opened JsValues
  import opened OrderedMaps
  import Msg = Messages
  import PD = PersonDetectionMessages
  import PA = PersonsAliveMessages
  import CM = ContentMessages
  import PDet = PersonDetections
  import Cont = Contents

  /** `MAX_RECENT_TIME`, in milliseconds. */
  const MaxRecentTime: real := 2000.0

  /** `timestamp - lastUpdate > MAX_RECENT_TIME` under JavaScript's numeric
      conversion; a comparison involving NaN is false. A JSON value never
      converts to an infinite number. */
  predicate Stale(t: Json, last: Json) {
    var a := ToNumber(t);
    var b := ToNumber(last);
    a.Finite? && b.Finite? && a.value - b.value > MaxRecentTime
  }

  /** The keys among `ks` whose recorded time is stale at `t`. */
  function StaleAmong(lpu: OrderedMap<Json>, ks: seq<Key>, t: Json): set<Key> {
    set k | k in ks && k in lpu.entries && Stale(t, lpu.entries[k])
  }

  function StaleKeys(lpu: OrderedMap<Json>, t: Json): set<Key> {
    StaleAmong(lpu, lpu.keys, t)
  }

  /** Truthiness of a converted number: neither 0 nor NaN. */
  predicate TruthyNumber(v: Option<JsNumber>) {
    v.Some? && (v.value.Infinity? || (v.value.Finite? && v.value.value != 0.0))
  }

  /** `person.age && person.gender`: only such persons enter `persons`. */
  predicate Admitted(p: PDet.PersonDetection) {
    TruthyNumber(p.age) && Truthy(p.gender)
  }

  /** The id list has an `indexOf` method: an array or a string. */
  predicate IndexOfCallable(ids: Json) {
    ids.JArr? || ids.JStr?
  }

  /** `ids.indexOf(pid) != -1`: an element strictly equal to the id, or for
      a string, an occurrence of the id in it. */
  predicate Listed(ids: Json, pid: string) {
    || (ids.JArr? && JStr(pid) in ids.items)
    || (ids.JStr? && IsSubstring(pid, ids.s))
  }

  /** The fields of a snapshot; `lastPersonUpdate` maps a person id to the
      time of its last update, as received. */
  datatype SnapshotState = SnapshotState(
    poiId: Option<int>,
    persons: OrderedMap<PDet.PersonDetection>,
    content: Option<Cont.Content>,
    lastPersonUpdate: OrderedMap<Json>,
    lastUpdateTimestamp: Option<Json>)
  {
    ghost predicate Valid() {
      persons.Valid() && lastPersonUpdate.Valid()
    }

    /** Every kept person is filed under its own id and has a recorded
        update time. */
    ghost predicate Consistent() {
      && Valid()
      && (forall k :: k in persons.entries ==> k in lastPersonUpdate.entries)
      && (forall k :: k in persons.entries ==> persons.entries[k].personId == k)
    }
  }

  /** A new snapshot: no person, no content, nothing received. */
  function Initial(): (r: SnapshotState)
    ensures r.Consistent()
    ensures r.persons.keys == [] && r.lastPersonUpdate.keys == []
    ensures r.poiId.None? && r.content.None? && r.lastUpdateTimestamp.None?
  {
    SnapshotState(None, Empty(), None, Empty(), None)
  }

  /** `removeGonePersons(t)`: every id whose last update is more than
      `MAX_RECENT_TIME` before `t` leaves both maps; everything else,
      including the order of the remaining ids, is kept. */
  function Prune(s: SnapshotState, t: Json): (r: SnapshotState)
    requires s.Valid()
    ensures r.Valid()
    ensures r.poiId == s.poiId && r.content == s.content && r.lastUpdateTimestamp == s.lastUpdateTimestamp
  {
    var gone := StaleKeys(s.lastPersonUpdate, t);
    s.(persons := s.persons.RemoveKeys(gone), lastPersonUpdate := s.lastPersonUpdate.RemoveKeys(gone))
  }

  /** What is left after pruning: exactly the ids whose time is recent,
      with their data unchanged; a person without a recorded time stays. */
  lemma PruneEffect(s: SnapshotState, t: Json)
    requires s.Valid()
    ensures var r := Prune(s, t);
            forall k :: k in r.lastPersonUpdate.entries <==>
              k in s.lastPersonUpdate.entries && !Stale(t, s.lastPersonUpdate.entries[k])
    ensures var r := Prune(s, t);
            forall k :: k in r.persons.entries <==>
              k in s.persons.entries && !(k in s.lastPersonUpdate.entries && Stale(t, s.lastPersonUpdate.entries[k]))
    ensures var r := Prune(s, t);
            forall k :: k in r.lastPersonUpdate.entries ==>
              r.lastPersonUpdate.entries[k] == s.lastPersonUpdate.entries[k] && !Stale(t, r.lastPersonUpdate.entries[k])
    ensures var r := Prune(s, t);
            forall k :: k in r.persons.entries ==> r.persons.entries[k] == s.persons.entries[k]
    ensures var r := Prune(s, t);
            && r.lastPersonUpdate.keys == Without(s.lastPersonUpdate.keys, StaleKeys(s.lastPersonUpdate, t))
            && r.persons.keys == Without(s.persons.keys, StaleKeys(s.lastPersonUpdate, t))
  {
  }

  /** `updatePersons` at clock `now`: the person is filed only when
      admitted, its update time is recorded in any case, gone persons are
      dropped at the message's time, which becomes the snapshot's last
      update. */
  function ApplyDetection(s: SnapshotState, m: PD.PersonDetectionMessage, now: real): (r: SnapshotState)
    requires s.Valid()
    ensures r.Valid()
    ensures r.lastUpdateTimestamp == Some(JNum(m.localTimestamp))
    ensures r.poiId == s.poiId && r.content == s.content
  {
    var person := PDet.FromMessage(m, now);
    var persons := if Admitted(person) then s.persons.Set(m.personId, person) else s.persons;
    var lpu := s.lastPersonUpdate.Set(person.personId, JNum(person.localTimestamp));
    var t := JNum(m.localTimestamp);
    Prune(s.(persons := persons, lastPersonUpdate := lpu), t).(lastUpdateTimestamp := Some(t))
  }

  /** The effect of a person update: the person just heard of is never
      dropped and has the message's time; it is filed with the new data
      exactly when admitted; every other person keeps its data and, like
      every other id, stays exactly while its time is recent. */
  lemma {:induction false} DetectionEffect(s: SnapshotState, m: PD.PersonDetectionMessage, now: real)
    requires s.Valid()
    ensures var r := ApplyDetection(s, m, now);
            && m.personId in r.lastPersonUpdate.entries
            && r.lastPersonUpdate.entries[m.personId] == JNum(m.localTimestamp)
    ensures var r := ApplyDetection(s, m, now);
            var p := PDet.FromMessage(m, now);
            Admitted(p) ==> m.personId in r.persons.entries && r.persons.entries[m.personId] == p
    ensures var r := ApplyDetection(s, m, now);
            forall k :: k in r.persons.entries && (k != m.personId || !Admitted(PDet.FromMessage(m, now))) ==>
              k in s.persons.entries && r.persons.entries[k] == s.persons.entries[k]
    ensures var r := ApplyDetection(s, m, now);
            forall k :: k != m.personId ==>
              (k in r.persons.entries <==>
                 k in s.persons.entries
                 && !(k in s.lastPersonUpdate.entries && Stale(JNum(m.localTimestamp), s.lastPersonUpdate.entries[k])))
    ensures var r := ApplyDetection(s, m, now);
            forall k :: k != m.personId ==>
              (k in r.lastPersonUpdate.entries <==>
                 k in s.lastPersonUpdate.entries && !Stale(JNum(m.localTimestamp), s.lastPersonUpdate.entries[k]))
  {
    var person := PDet.FromMessage(m, now);
    var persons := if Admitted(person) then s.persons.Set(m.personId, person) else s.persons;
    var lpu := s.lastPersonUpdate.Set(person.personId, JNum(person.localTimestamp));
    var mid, t := s.(persons := persons, lastPersonUpdate := lpu), JNum(m.localTimestamp);
    var r := ApplyDetection(s, m, now);
    assert r.persons == Prune(mid, t).persons && r.lastPersonUpdate == Prune(mid, t).lastPersonUpdate;
    PruneEffect(mid, t);
    forall k | k != m.personId
      ensures k in r.persons.entries <==>
                k in s.persons.entries
                && !(k in s.lastPersonUpdate.entries && Stale(t, s.lastPersonUpdate.entries[k]))
    {
      assert (k in mid.persons.entries <==> k in s.persons.entries);
      assert (k in mid.lastPersonUpdate.entries <==> k in s.lastPersonUpdate.entries);
      assert k in s.lastPersonUpdate.entries ==> mid.lastPersonUpdate.entries[k] == s.lastPersonUpdate.entries[k];
    }
  }

  /** The id `k` belongs to one of the first `n` persons. */
  predicate AmongFirst(ps: seq<PDet.PersonDetection>, n: nat, k: Key)
    requires n <= |ps|
  {
    exists j :: 0 <= j < n && ps[j].personId == k
  }

  /** The update times after the first `n` persons of `ps` were checked
      against the alive list: each listed person's time becomes `ts`. */
  function RefreshUpTo(lpu: OrderedMap<Json>, ps: seq<PDet.PersonDetection>, ids: Json, ts: Json, n: nat): (r: OrderedMap<Json>)
    requires lpu.Valid() && n <= |ps|
    ensures r.Valid()
  {
    if n == 0 then lpu
    else
      var prev := RefreshUpTo(lpu, ps, ids, ts, n - 1);
      if Listed(ids, ps[n - 1].personId) then prev.Set(ps[n - 1].personId, ts) else prev
  }

  /** What `RefreshUpTo` does, key by key: listed ids among the first `n`
      persons get `ts`, every other key keeps its time, and no other key
      appears. */
  lemma {:induction false} RefreshContents(lpu: OrderedMap<Json>, ps: seq<PDet.PersonDetection>, ids: Json, ts: Json, n: nat)
    requires lpu.Valid() && n <= |ps|
    ensures var r := RefreshUpTo(lpu, ps, ids, ts, n);
            forall k :: k in r.entries <==> k in lpu.entries || (Listed(ids, k) && AmongFirst(ps, n, k))
    ensures var r := RefreshUpTo(lpu, ps, ids, ts, n);
            forall k :: k in r.entries ==>
              r.entries[k] == if Listed(ids, k) && AmongFirst(ps, n, k) then ts else lpu.entries[k]
  {
    if n > 0 {
      RefreshContents(lpu, ps, ids, ts, n - 1);
      forall k ensures AmongFirst(ps, n, k) <==> AmongFirst(ps, n - 1, k) || ps[n - 1].personId == k {
        if AmongFirst(ps, n, k) {
          var j :| 0 <= j < n && ps[j].personId == k;
          if j < n - 1 {
            assert AmongFirst(ps, n - 1, k);
          }
        }
        if ps[n - 1].personId == k {
          assert AmongFirst(ps, n, k);
        }
      }
    }
  }

  /** Refreshing times that are already `ts` changes nothing. */
  lemma {:induction false} RefreshNothingNew(lpu: OrderedMap<Json>, ps: seq<PDet.PersonDetection>, ids: Json, ts: Json, n: nat)
    requires lpu.Valid() && n <= |ps|
    requires forall j :: 0 <= j < n && Listed(ids, ps[j].personId) ==>
               ps[j].personId in lpu.entries && lpu.entries[ps[j].personId] == ts
    ensures RefreshUpTo(lpu, ps, ids, ts, n) == lpu
  {
    if n > 0 {
      RefreshNothingNew(lpu, ps, ids, ts, n - 1);
      var k := ps[n - 1].personId;
      if Listed(ids, k) {
        assert lpu.entries[k := ts] == lpu.entries;
      }
    }
  }

  /** `updatePersonsAlive`: every kept person whose id is in the alive list
      gets the message's time, then gone persons are dropped at that time.
      Calling `indexOf` on an id list that has no such method throws on the
      first kept person, before anything changed. */
  function ApplyAlive(s: SnapshotState, m: PA.PersonsAliveMessage): (r: Result<SnapshotState>)
    requires s.Valid()
    ensures r.Failure? <==> s.persons.keys != [] && !IndexOfCallable(m.GetPersonIds())
    ensures r.Failure? ==> r.error == TypeError
    ensures r.Success? ==> r.value.Valid()
    ensures r.Success? ==>
              && r.value.lastUpdateTimestamp == Some(m.localTimestamp)
              && r.value.poiId == s.poiId && r.value.content == s.content
  {
    var ids := m.GetPersonIds();
    var ps := s.persons.Values();
    if |ps| > 0 && !IndexOfCallable(ids) then Failure(TypeError)
    else
      var lpu := RefreshUpTo(s.lastPersonUpdate, ps, ids, m.localTimestamp, |ps|);
      Success(Prune(s.(lastPersonUpdate := lpu), m.localTimestamp).(lastUpdateTimestamp := Some(m.localTimestamp)))
  }

  /** The snapshot after an update that may throw: the updated snapshot,
      or the unchanged one when the update threw before changing anything. */
  function Committed(r: Result<SnapshotState>, s: SnapshotState): SnapshotState {
    if r.Success? then r.value else s
  }

  /** `ApplyAlive` as the two steps of `updatePersonsAlive`. */
  lemma AliveSteps(s: SnapshotState, m: PA.PersonsAliveMessage)
    requires s.Valid() && ApplyAlive(s, m).Success?
    ensures var ps := s.persons.Values();
            var mid := s.(lastPersonUpdate := RefreshUpTo(s.lastPersonUpdate, ps, m.personIds, m.localTimestamp, |ps|));
            ApplyAlive(s, m).value == Prune(mid, m.localTimestamp).(lastUpdateTimestamp := Some(m.localTimestamp))
  {
  }

  /** On a consistent snapshot, the ids of `persons.values()` are the keys. */
  lemma {:induction false} ValuesIds(s: SnapshotState)
    requires s.Consistent()
    ensures forall k :: AmongFirst(s.persons.Values(), |s.persons.Values()|, k) <==> k in s.persons.entries
  {
    var ps := s.persons.Values();
    forall k ensures AmongFirst(ps, |ps|, k) <==> k in s.persons.entries {
      if k in s.persons.entries {
        var j :| 0 <= j < |s.persons.keys| && s.persons.keys[j] == k;
        assert ps[j].personId == k;
      }
    }
  }

  /** The effect of an alive message on a consistent snapshot: a listed
      person is kept with its data and gets the message's time; an unlisted
      person is kept exactly while its last update is recent; no id is
      added to the update times. */
  lemma {:induction false} AliveEffect(s: SnapshotState, m: PA.PersonsAliveMessage)
    requires s.Consistent() && ApplyAlive(s, m).Success?
    ensures var r := ApplyAlive(s, m).value;
            forall k :: k in s.persons.entries && Listed(m.personIds, k) ==>
              && k in r.persons.entries && r.persons.entries[k] == s.persons.entries[k]
              && k in r.lastPersonUpdate.entries && r.lastPersonUpdate.entries[k] == m.localTimestamp
    ensures var r := ApplyAlive(s, m).value;
            forall k :: k in s.persons.entries && !Listed(m.personIds, k) ==>
              (k in r.persons.entries <==> !Stale(m.localTimestamp, s.lastPersonUpdate.entries[k]))
    ensures var r := ApplyAlive(s, m).value;
            forall k :: k in r.lastPersonUpdate.entries ==> k in s.lastPersonUpdate.entries
    ensures var r := ApplyAlive(s, m).value;
            forall k :: k in r.persons.entries ==> k in s.persons.entries && r.persons.entries[k] == s.persons.entries[k]
    ensures ApplyAlive(s, m).value.Consistent()
  {
    var ps := s.persons.Values();
    var lpu := RefreshUpTo(s.lastPersonUpdate, ps, m.personIds, m.localTimestamp, |ps|);
    RefreshContents(s.lastPersonUpdate, ps, m.personIds, m.localTimestamp, |ps|);
    ValuesIds(s);
    PruneEffect(s.(lastPersonUpdate := lpu), m.localTimestamp);
  }

  /** `updateContent`: the content, the poi id and the last update time
      come from the content message; persons are untouched. */
  function ApplyContent(s: SnapshotState, m: CM.ContentMessage): (r: SnapshotState)
    ensures r.content == Some(Cont.FromMessage(m)) && r.poiId == Some(m.poi)
    ensures r.lastUpdateTimestamp == Some(JNum(m.localTimestamp))
    ensures r.persons == s.persons && r.lastPersonUpdate == s.lastPersonUpdate
  {
    var c := Cont.FromMessage(m);
    s.(content := Some(c), poiId := Some(c.poi), lastUpdateTimestamp := Some(JNum(c.localTimestamp)))
  }

  /** `update(message)`: person updates, alive lists and content events
      change the snapshot; every other message leaves it as it is. */
  function Apply(s: SnapshotState, message: Msg.Message, now: real): (r: Result<SnapshotState>)
    requires s.Valid()
    ensures r.Success? ==> r.value.Valid()
    ensures r.Failure? ==> message.PersonsAlive? && r.error == TypeError
    ensures message.Unknown? || message.PersonFlush? || message.Skeleton? ==> r == Success(s)
  {
    match message
    case PersonDetection(d) => Success(ApplyDetection(s, d, now))
    case PersonsAlive(a) => ApplyAlive(s, a)
    case Content(c) => Success(ApplyContent(s, c))
    case _ => Success(s)
  }

  /** Every update keeps the snapshot consistent. */
  lemma {:induction false} ConsistentPreserved(s: SnapshotState, message: Msg.Message, now: real)
    requires s.Consistent() && Apply(s, message, now).Success?
    ensures Apply(s, message, now).value.Consistent()
  {
    match message
    case PersonDetection(d) =>
      DetectionConsistent(s, d, now);
    case PersonsAlive(a) =>
      AliveEffect(s, a);
    case _ =>
  }

  lemma {:induction false} DetectionConsistent(s: SnapshotState, m: PD.PersonDetectionMessage, now: real)
    requires s.Consistent()
    ensures ApplyDetection(s, m, now).Consistent()
  {
    var person := PDet.FromMessage(m, now);
    var persons := if Admitted(person) then s.persons.Set(m.personId, person) else s.persons;
    var lpu := s.lastPersonUpdate.Set(person.personId, JNum(person.localTimestamp));
    var mid := s.(persons := persons, lastPersonUpdate := lpu);
    assert mid.Consistent();
    PruneEffect(mid, JNum(m.localTimestamp));
    var r := Prune(mid, JNum(m.localTimestamp));
    assert r.Consistent();
  }

  /** Nothing recorded is stale at `t`: pruning at `t` changes nothing. */
  lemma {:induction false} RecentPruneNothing(s: SnapshotState, t: Json)
    requires s.Valid()
    requires forall k :: k in s.lastPersonUpdate.entries ==> !Stale(t, s.lastPersonUpdate.entries[k])
    ensures Prune(s, t) == s
  {
    assert StaleKeys(s.lastPersonUpdate, t) == {};
    RemoveAbsentKeys(s.persons, {});
    RemoveAbsentKeys(s.lastPersonUpdate, {});
  }

  /** Dropping gone persons twice at the same time is dropping them once. */
  lemma {:induction false} PruneIdempotent(s: SnapshotState, t: Json)
    requires s.Valid()
    ensures Prune(Prune(s, t), t) == Prune(s, t)
  {
    RecentPruneNothing(Prune(s, t), t);
  }

  /** The same alive message received twice has the effect of receiving it
      once. */
  lemma {:induction false} AliveIdempotent(s: SnapshotState, m: PA.PersonsAliveMessage)
    requires s.Consistent() && ApplyAlive(s, m).Success?
    ensures ApplyAlive(ApplyAlive(s, m).value, m) == ApplyAlive(s, m)
  {
    var r := ApplyAlive(s, m).value;
    AliveEffect(s, m);
    ConsistentPreserved(s, Msg.PersonsAlive(m), 0.0);
    if r.persons.keys != [] {
      assert r.persons.keys[0] in s.persons.entries;
    }
    var ps := r.persons.Values();
    forall j | 0 <= j < |ps| && Listed(m.personIds, ps[j].personId)
      ensures ps[j].personId in r.lastPersonUpdate.entries && r.lastPersonUpdate.entries[ps[j].personId] == m.localTimestamp
    {
      assert r.persons.keys[j] in r.persons.entries;
    }
    RefreshNothingNew(r.lastPersonUpdate, ps, m.personIds, m.localTimestamp, |ps|);
    RecentPruneNothing(r, m.localTimestamp);
  }

  /** `clone`: a snapshot with copies of the persons and of the update
      times, and nothing else (no content, no poi id, no last update). */
  function CloneState(s: SnapshotState): (r: SnapshotState)
    ensures r.Valid() <==> s.Valid()
    ensures r.Consistent() <==> s.Consistent()
    ensures r.persons == s.persons && r.lastPersonUpdate == s.lastPersonUpdate
    ensures r.content.None? && r.poiId.None? && r.lastUpdateTimestamp.None?
  {
    Initial().(persons := s.persons, lastPersonUpdate := s.lastPersonUpdate)
  }

  lemma StaleAmongStart(lpu: OrderedMap<Json>, t: Json)
    ensures StaleAmong(lpu, lpu.keys[..0], t) == {}
  {
  }

  /** One more id examined: it is added to the stale ids when its own time
      is stale, and it was not among them before. */
  lemma {:induction false} StaleAmongStep(lpu: OrderedMap<Json>, i: nat, t: Json)
    requires lpu.Valid() && i < |lpu.keys|
    ensures var k := lpu.keys[i];
            && k in lpu.entries
            && k !in StaleAmong(lpu, lpu.keys[..i], t)
            && StaleAmong(lpu, lpu.keys[..i + 1], t)
               == StaleAmong(lpu, lpu.keys[..i], t) + (if Stale(t, lpu.entries[k]) then {k} else {})
  {
    var ks := lpu.keys;
    assert ks[..i + 1] == ks[..i] + [ks[i]];
    forall j | 0 <= j < i ensures ks[..i][j] != ks[i] {
      DistinctAt(ks, j, i);
    }
  }

  /** A map after the walk of `removeGonePersons` over the first `n` ids
      of `lpu`: each of them stale at `t` deleted in turn. */
  function DropGoneUpTo<V>(lpu: OrderedMap<Json>, m: OrderedMap<V>, n: nat, t: Json): (r: OrderedMap<V>)
    requires lpu.Valid() && m.Valid() && n <= |lpu.keys|
    ensures r.Valid()
  {
    if n == 0 then m
    else
      var prev := DropGoneUpTo(lpu, m, n - 1, t);
      var pid := lpu.keys[n - 1];
      if Stale(t, lpu.entries[pid]) then prev.Delete(pid) else prev
  }

  /** The walk over the first `n` ids deletes exactly the stale ones among
      them. */
  lemma {:induction false} DropGoneUpToRemoves<V>(lpu: OrderedMap<Json>, m: OrderedMap<V>, n: nat, t: Json)
    requires lpu.Valid() && m.Valid() && n <= |lpu.keys|
    ensures DropGoneUpTo(lpu, m, n, t) == m.RemoveKeys(StaleAmong(lpu, lpu.keys[..n], t))
  {
    if n == 0 {
      StaleAmongStart(lpu, t);
      RemoveAbsentKeys(m, {});
    } else {
      DropGoneUpToRemoves(lpu, m, n - 1, t);
      var pid := lpu.keys[n - 1];
      StaleAmongStep(lpu, n - 1, t);
      RemoveStep(m, StaleAmong(lpu, lpu.keys[..n - 1], t), StaleAmong(lpu, lpu.keys[..n], t), pid, Stale(t, lpu.entries[pid]));
    }
  }

  /** The snapshot after the walk over the first `n` recorded ids. */
  function PruneUpTo(s: SnapshotState, n: nat, t: Json): (r: SnapshotState)
    requires s.Valid() && n <= |s.lastPersonUpdate.keys|
    ensures r.Valid()
  {
    var lpu := s.lastPersonUpdate;
    s.(persons := DropGoneUpTo(lpu, s.persons, n, t), lastPersonUpdate := DropGoneUpTo(lpu, lpu, n, t))
  }

  /** One step of the walk: the id examined still has its original time,
      and it is deleted from both maps exactly when that time is stale. */
  lemma {:induction false} PruneUpToStep(s: SnapshotState, n: nat, t: Json)
    requires s.Valid() && n < |s.lastPersonUpdate.keys|
    ensures var x := PruneUpTo(s, n, t);
            var pid := s.lastPersonUpdate.keys[n];
            && pid in x.lastPersonUpdate.entries
            && x.lastPersonUpdate.entries[pid] == s.lastPersonUpdate.entries[pid]
            && PruneUpTo(s, n + 1, t)
               == if Stale(t, x.lastPersonUpdate.entries[pid])
                  then x.(persons := x.persons.Delete(pid), lastPersonUpdate := x.lastPersonUpdate.Delete(pid))
                  else x
  {
    var lpu := s.lastPersonUpdate;
    DropGoneUpToRemoves(lpu, lpu, n, t);
    StaleAmongStep(lpu, n, t);
  }

  /** The whole walk is `Prune`. */
  lemma {:induction false} PruneUpToAll(s: SnapshotState, t: Json)
    requires s.Valid()
    ensures PruneUpTo(s, |s.lastPersonUpdate.keys|, t) == Prune(s, t)
  {
    var lpu := s.lastPersonUpdate;
    DropGoneUpToRemoves(lpu, s.persons, |lpu.keys|, t);
    DropGoneUpToRemoves(lpu, lpu, |lpu.keys|, t);
    assert lpu.keys[..|lpu.keys|] == lpu.keys;
  }

  /** The object form of a snapshot. */
  class POISnapshot {
    var poiId: Option<int>
    var persons: OrderedMap<PDet.PersonDetection>
    var content: Option<Cont.Content>
    var lastPersonUpdate: OrderedMap<Json>
    var lastUpdateTimestamp: Option<Json>

    function View(): SnapshotState
      reads this
    {
      SnapshotState(poiId, persons, content, lastPersonUpdate, lastUpdateTimestamp)
    }

    ghost predicate Valid()
      reads this
    {
      View().Valid()
    }

    constructor ()
      ensures Valid() && View() == Initial()
    {
      poiId := None;
      persons := Empty();
      content := None;
      lastPersonUpdate := Empty();
      lastUpdateTimestamp := None;
    }

    /** `getPersons`. */
    function GetPersons(): OrderedMap<PDet.PersonDetection>
      reads this
    {
      persons
    }

    /** `setPersons`: the persons map is replaced; the update times are not. */
    method SetPersons(ps: OrderedMap<PDet.PersonDetection>)
      requires Valid() && ps.Valid()
      modifies this
      ensures Valid()
      ensures View() == old(View()).(persons := ps)
    {
      persons := ps;
    }

    /** `removeGonePersons`, a walk over the ids of `lastPersonUpdate` that
        deletes each stale id from both maps. */
    method RemoveGonePersons(t: Json)
      requires Valid()
      modifies this
      ensures Valid()
      ensures View() == Prune(old(View()), t)
    {
      ghost var s0 := View();
      var ks := lastPersonUpdate.keys;
      var i := 0;
      while i < |ks|
        invariant 0 <= i <= |ks| && ks == s0.lastPersonUpdate.keys
        invariant View() == PruneUpTo(s0, i, t)
      {
        var pid := ks[i];
        PruneUpToStep(s0, i, t);
        var last := lastPersonUpdate.entries[pid];
        if Stale(t, last) {
          persons := persons.Delete(pid);
          lastPersonUpdate := lastPersonUpdate.Delete(pid);
        }
        i := i + 1;
      }
      PruneUpToAll(s0, t);
    }

    /** `updatePersons` at clock `now`. */
    method UpdatePersons(m: PD.PersonDetectionMessage, now: real)
      requires Valid()
      modifies this
      ensures Valid()
      ensures View() == ApplyDetection(old(View()), m, now)
    {
      var person := PDet.FromMessage(m, now);
      if Admitted(person) {
        persons := persons.Set(m.personId, person);
      }
      lastPersonUpdate := lastPersonUpdate.Set(person.personId, JNum(person.localTimestamp));
      RemoveGonePersons(JNum(m.localTimestamp));
      lastUpdateTimestamp := Some(JNum(m.localTimestamp));
    }

    /** The loop of `updatePersonsAlive`: every person of `ps` whose id is
        listed gets the time `ts`. `indexOf` is only called when there is a
        person to look up. */
    method RefreshListed(ps: seq<PDet.PersonDetection>, ids: Json, ts: Json)
      requires Valid() && (ps == [] || IndexOfCallable(ids))
      modifies this
      ensures Valid()
      ensures View() == old(View()).(lastPersonUpdate := RefreshUpTo(old(lastPersonUpdate), ps, ids, ts, |ps|))
    {
      ghost var lpu0 := lastPersonUpdate;
      var i := 0;
      while i < |ps|
        invariant 0 <= i <= |ps|
        invariant lastPersonUpdate == RefreshUpTo(lpu0, ps, ids, ts, i)
        invariant View() == old(View()).(lastPersonUpdate := lastPersonUpdate)
      {
        if Listed(ids, ps[i].personId) {
          lastPersonUpdate := lastPersonUpdate.Set(ps[i].personId, ts);
        }
        i := i + 1;
      }
    }

    /** `updatePersonsAlive`: a walk over `persons.values()`, then the
        removal of gone persons; a `TypeError` leaves the snapshot as it
        was. */
    method UpdatePersonsAlive(m: PA.PersonsAliveMessage) returns (outcome: Result<()>)
      requires Valid()
      modifies this
      ensures Valid()
      ensures outcome.Success? <==> ApplyAlive(old(View()), m).Success?
      ensures outcome.Failure? ==> outcome.error == TypeError
      ensures View() == Committed(ApplyAlive(old(View()), m), old(View()))
    {
      ghost var s0 := View();
      var ids := m.GetPersonIds();
      var ps := persons.Values();
      if |ps| > 0 && !IndexOfCallable(ids) {
        // `indexOf` throws for the first person, before anything is changed
        return Failure(TypeError);
      }
      RefreshListed(ps, ids, m.localTimestamp);
      AliveSteps(s0, m);
      RemoveGonePersons(m.localTimestamp);
      lastUpdateTimestamp := Some(m.localTimestamp);
      return Success(());
    }

    /** `updateContent`. */
    method UpdateContent(m: CM.ContentMessage)
      requires Valid()
      modifies this
      ensures Valid()
      ensures View() == ApplyContent(old(View()), m)
    {
      content := Some(Cont.FromMessage(m));
      poiId := Some(content.value.poi);
      lastUpdateTimestamp := Some(JNum(content.value.localTimestamp));
    }

    /** `update(message)` at clock `now`: one of the three updates, chosen
        by the kind of the message. */
    method Update(message: Msg.Message, now: real) returns (outcome: Result<()>)
      requires Valid()
      modifies this
      ensures Valid()
      ensures outcome.Success? <==> Apply(old(View()), message, now).Success?
      ensures outcome.Failure? ==> outcome.error == TypeError && View() == old(View())
      ensures outcome.Success? ==> View() == Apply(old(View()), message, now).value
    {
      outcome := Success(());
      if message.PersonDetection? {
        UpdatePersons(message.detection, now);
      }
      if message.PersonsAlive? {
        outcome := UpdatePersonsAlive(message.alive);
      }
      if message.Content? {
        UpdateContent(message.content);
      }
    }

    /** `clone`: a new snapshot holding copies of the two maps only. */
    method Clone() returns (c: POISnapshot)
      requires Valid()
      ensures fresh(c) && c.Valid()
      ensures c.View() == CloneState(View())
    {
      c := new POISnapshot();
      c.persons := persons;
      c.lastPersonUpdate := lastPersonUpdate;
    }
  }
}
