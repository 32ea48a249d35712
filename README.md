# alivex/io core, modelled in Dafny

alivex/io is a TypeScript client for a people-analytics sensor. Such a sensor is a "point of interest", or PoI. The client opens two WebSocket streams to the sensor:
- a JSON stream of person detections, liveness heartbeats and content events;
- a binary stream of tagged frames, including 3D skeletons.

The client sorts each incoming JSON message into a typed message, or an unknown one. It folds the messages into a snapshot of the persons in front of the screen and of the content playing there. Entries that have gone stale are dropped.

A liveness monitor emits copies of that snapshot. When the sensor falls silent for 2000 ms, it injects an empty heartbeat. Two services pair up the Start and End events of the content being played. Each service attaches the persons currently seen to every event and forwards it to the sensor.

This project models that core. Each source file becomes a module. Extra modules hold a JSON value type (`JsValues`), Option and Result types (`Wrappers`), the subset of JSON Schema that the schemas use (`Schemas`), and JavaScript's insertion-ordered `Map` (`OrderedMaps`).

**Pure code becomes functions with lemmas.** This covers the byte decoders, the message classes and the entity projections.

**State-changing code becomes classes.** These are the snapshot, the two monitors, the event services and the streams. Their methods are proved against value-level specification functions:
- `POISnapshots.Apply` for the snapshot;
- `POIMonitors.Emit` and `POIMonitors.Fire` for the monitor;
- `ContentEvents.Forwarded` for the event services;
- `Streams.RotateLeft` and `Streams.Backoff` for the streams.

What the source promises is then proved as lemmas about those functions.

**JavaScript semantics are modelled explicitly:**
- `undefined` is `None` and `null` is `JNull`.
- A thrown exception is a `Failure` result, so `MessageFactory.parse` is a total function.
- Truthiness is the predicate `Truthy`.
- `Number(...)` is the partial `ToNumber`.
- Bytes are integers in 0..255.
- The clock (`Date.now()`) is a `now: real` parameter.
- Sockets, timers and RxJS subjects are explicit events, and emission or sent logs record what they produce.

Where the program's own documentation and its code disagree, the model follows the code:
- **Skeleton frame length.** The code accepts a frame whose bytes per person are *at least* 184 + 29. It does not demand an exact multiple (`SkeletonMessages.SurplusAccepted`).
- **Tracking id.** The code reads the `ttid` as the single byte 21, not as four bytes.
- **Pose fusion.** Keying by `ttid`, the pending cache, the identity-switch guard and the `contentEvent` field do not exist in the code. Neither does snapshot serialisation.
- **The factory and skeletons.** The factory has no skeleton branch.

## Model

| member | source | states |
|---|---|---|
| SkeletonModel.BytesLength | src/model/skeleton/Skeleton.ts:285-288 | the joint block is 184 bytes: a 4-byte canvas header and 18 joints of five 2-byte values |
| SkeletonModel.LimbIndices | src/model/skeleton/Skeleton.ts:30-50 | every named limb indexes one of the 18 joints, and two different limbs never share an index |
| SkeletonModel.OffsetsInBlock | src/model/skeleton/Skeleton.ts:339-364 | for every joint 0..17 and each of its five values, both bytes read lie inside the 184-byte block |
| SkeletonModel.Raw16 | src/model/skeleton/Skeleton.ts:366-373 | the big-endian 16-bit read exists exactly when both bytes are in the buffer, and is below 65536 |
| SkeletonModel.DecodeUint16 | src/model/skeleton/Skeleton.ts:366-373 | a decoded value, when present, is never infinite, and a finite one lies in 1..65535 (0 is the "not detected" sentinel) |
| SkeletonModel.DecodeEncode16 | src/model/skeleton/Skeleton.ts:366-373 | decoding the two big-endian bytes of v, wherever they sit, gives back v, except that v = 0 gives absent |
| SkeletonModel.Scale | src/model/skeleton/Skeleton.ts:339-349 | dividing by a canvas dimension is never infinite, and is finite exactly when the value is finite and the dimension is present |
| SkeletonModel.Provider.LimbY | src/model/skeleton/Skeleton.ts:339-343 | absent iff the raw value at offset +0 is 0; NaN iff the read is out of range or the canvas height is missing; otherwise y·height equals the raw value |
| SkeletonModel.Provider.LimbX | src/model/skeleton/Skeleton.ts:345-349 | the same for offset +2 and the canvas width |
| SkeletonModel.Provider.Limb3d | src/model/skeleton/Skeleton.ts:390-394 | the de-quantised value is finite iff both bytes exist, and lies in [min, max]; it is the linear map of the raw number n, stated as (value − min)·65535 = n·(max − min), so raw 0 gives min (not absent) and raw 65535 gives max |
| SkeletonModel.Provider.LimbU | src/model/skeleton/Skeleton.ts:351-354 | U is finite iff its bytes exist, and then lies in [-20, 20] with (U + 20)·65535 = n·40 for the raw number n |
| SkeletonModel.Provider.LimbV | src/model/skeleton/Skeleton.ts:356-359 | V is finite iff its bytes exist, and then lies in [-10, 10] with (V + 10)·65535 = n·20 for the raw number n |
| SkeletonModel.Provider.LimbZ | src/model/skeleton/Skeleton.ts:361-364 | Z is finite iff its bytes exist, and then lies in [0, 20] with Z·65535 = n·20 for the raw number n |
| SkeletonModel.Dequantise | src/model/skeleton/Skeleton.ts:390-394 | `n·(max − min)/65535 + min` lies in [min, max] for every 16-bit n, and its distance from min times 65535 is n·(max − min) |
| SkeletonModel.NewProvider | src/model/skeleton/Skeleton.ts:319-328 | construction succeeds iff a buffer is given and it is exactly 184 bytes long; on success it keeps those bytes and takes the canvas size from offsets 0 and 2 |
| SkeletonModel.ValidDimensions | src/model/skeleton/Skeleton.ts:327 | each canvas dimension of a constructed provider is either absent or at least 1 |
| SkeletonModel.JointValues | src/model/skeleton/Skeleton.ts:339-394 | for a joint index 0..17, a present 2D value is finite once the canvas dimension is present, and U, V and Z are always finite |
| SkeletonModel.Skeleton.Position | src/model/skeleton/Skeleton.ts:216-225 | the position is absent iff the joint lacks x or y, and is otherwise the point (x, y, z) |
| SkeletonModel.Skeleton.Joint | src/model/skeleton/Skeleton.ts:30-50 | a named limb's getter is `position` of the limb's table index, so it is absent iff the skeleton lacks that limb |
| SkeletonModel.Skeleton.Clone | src/model/skeleton/Skeleton.ts:302-304 | the clone shares the data provider and the local timestamp |
| SkeletonModel.HasLimbIffNonZero | src/model/skeleton/Skeleton.ts:232-234 | `hasLimb(i)` holds iff both raw 16-bit values at offsets +0 and +2 are non-zero |
| PersonAttributesModel.BytesLength | src/model/person-attributes/PersonAttributes.ts:131-138 | the attribute block is 29 bytes = age + 20 percentages + ttid + recognition flag + three 2-byte angles |
| PersonAttributesModel.DecodeHeadposeAngle | src/model/person-attributes/PersonAttributes.ts:9-11 | every decoded head-pose angle lies in [-90, 90) |
| PersonAttributesModel.AngleRange | src/model/person-attributes/PersonAttributes.ts:9-11 | for every 16-bit n, (n / 65536)·180 − 90 lies in [-90, 90) |
| PersonAttributesModel.IndicesLayout | src/model/person-attributes/PersonAttributes.ts:13-34 | the 20 attribute names are distinct, and their byte positions are distinct and within 1..20, so none is 0, 21 or 22 |
| PersonAttributesModel.Percentage | src/model/person-attributes/PersonAttributes.ts:93-106 | absent iff the byte is 127 or above 100; otherwise a value in [0, 1] whose hundredfold is the byte |
| PersonAttributesModel.FacesUpToContents | src/model/person-attributes/PersonAttributes.ts:93-106 | after the first n steps of the loop over the indices, the map holds exactly the first n names, each with its byte's percentage |
| PersonAttributesModel.DecodeFields | src/model/person-attributes/PersonAttributes.ts:84-106 | age is byte 0 unless it is 127; ttid is byte 21; recognised iff byte 22 is 1; the three angles lie in [-90, 90); the faces map has exactly the 20 names, each with its percentage |
| PersonAttributesModel.DecodeIgnoresTail | src/model/person-attributes/PersonAttributes.ts:78-83 | bytes beyond the first 29 do not change the decoded attributes |
| PersonAttributesModel.PersonAttributes.constructor | src/model/person-attributes/PersonAttributes.ts:77-109 | the instance keeps a copy of the bytes, and its fields are the decoding of them |
| PersonAttributesModel.PersonAttributes.ToJson | src/model/person-attributes/PersonAttributes.ts:115-117 | returns the instance's own bytes, at least 29 of them |
| PersonAttributesModel.PersonAttributes.Clone | src/model/person-attributes/PersonAttributes.ts:123-125 | a fresh instance over the same bytes, with equal decoded fields |
| PersonAttributesModel.New | src/model/person-attributes/PersonAttributes.ts:78-83 | construction succeeds iff a buffer of at least 29 bytes is given; otherwise it fails; on success the fields are the decoding |
| SkeletonMessages.PersonBytes | src/messages/skeleton/SkeletonMessage.ts:43 | one person record is 184 + 29 = 213 bytes |
| SkeletonMessages.PersonsCount | src/messages/skeleton/SkeletonMessage.ts:22 | the count is the big-endian header `data[0]·256 + data[1]` when two bytes exist, and NaN otherwise |
| SkeletonMessages.PersonLength | src/messages/skeleton/SkeletonMessage.ts:23 | for a positive count, the length is (len − 2) / count; a NaN count gives NaN |
| SkeletonMessages.Validate | src/messages/skeleton/SkeletonMessage.ts:31-51 | succeeds iff the event carries a byte array and it is not the case that the count is positive with len − 2 < 213·count; no exact multiple is required |
| SkeletonMessages.LengthRule | src/messages/skeleton/SkeletonMessage.ts:40-43 | for a positive count, (len − 2)/count < 213 iff len − 2 < 213·count |
| SkeletonMessages.Parse | src/messages/skeleton/SkeletonMessage.ts:20-24 | succeeds iff validation does; keeps the same buffer and the clock; the count is the header; for a positive count, personLength·count = len − 2 and personLength ≥ 213 |
| SkeletonMessages.ValidatedLength | src/messages/skeleton/SkeletonMessage.ts:40-50 | a validated frame with a positive count has personLength ≥ 213, and personLength·count = len − 2 |
| SkeletonMessages.ZeroCountAccepted | src/messages/skeleton/SkeletonMessage.ts:40-42 | a zero count passes validation whatever the buffer length |
| SkeletonMessages.ShortBufferAccepted | src/messages/skeleton/SkeletonMessage.ts:39-42 | a buffer of fewer than 2 bytes passes validation with a NaN count |
| SkeletonMessages.SurplusAccepted | src/messages/skeleton/SkeletonMessage.ts:40-50 | a buffer with any surplus beyond 2 + 213·count bytes passes validation |
| Messages.Parse | src/messages/MessageFactory.ts:19-35 | total: `person_update` yields the detection message or Unknown({}) and never falls through; `persons_alive` likewise; otherwise `data.record_type == 'content_event'` yields the content message or Unknown({}); anything else is Unknown({}) as well, because `UnknownMessage`'s field initializer `data = {}` runs after the base constructor and overwrites what `fromObject` stored; no flush or skeleton message is ever produced |
| Messages.ParseKinds | src/messages/MessageFactory.ts:21-33 | every result names its source: an Unknown is always Unknown({}), whatever the input, a detection needs subject `person_update`, an alive message needs `persons_alive`, a content message needs a content-event `data` |
| MessageExamples.EmptyObjectIsUnknown | src/messages/MessageFactory.spec.ts:199-202 | `{}` parses to Unknown({}) |
| MessageExamples.RawStringIsUnknown | src/messages/MessageFactory.spec.ts:204-212 | a raw string parses to Unknown({}), not to an Unknown holding the string |
| MessageExamples.AliveWithoutIdsIsUnknown | src/messages/MessageFactory.spec.ts:214-221 | `persons_alive` with empty data parses to Unknown |
| MessageExamples.AliveIsRecognised | src/messages/MessageFactory.spec.ts:191-197 | a heartbeat listing one id parses to a PersonsAlive message whose ids are that list |
| MessageExamples.EmptyUpdateIsUnknown | src/messages/MessageFactory.spec.ts:223-229 | `person_update` with empty data parses to Unknown |
| MessageExamples.UpdateNeedsHead | src/messages/person-detection/PersonDetectionMessage.ts:42 | the test's person record parses to a detection; the same record without `behavior.head` is Unknown, because the extraction throws |
| MessageExamples.ContentNeedsPlayId | src/messages/content/ContentSchema.ts:37 | the test's content record without `content_play_id` is Unknown; with it, a content message |
| PersonDetectionSchemas.VectorMeaning | src/messages/person-detection/PersonDetectionSchema.ts:30-44 | a vector schema accepts exactly an object with the three numeric components |
| PersonDetectionSchemas.HeadMeaning | src/messages/person-detection/PersonDetectionSchema.ts:60-73 | the head schema accepts exactly an object whose `looking_at_screen`, if present, is a number |
| PersonDetectionSchemas.BehaviorMeaning | src/messages/person-detection/PersonDetectionSchema.ts:60-73 | the behaviour schema accepts exactly an object whose `head`, if present, is a valid head |
| PersonDetectionSchemas.RollingMeaning | src/messages/person-detection/PersonDetectionSchema.ts:74-85 | rolling values are accepted exactly when age, if present, is a number and gender, if present, is 'male' or 'female' |
| PersonDetectionSchemas.NumberArrayMeaning | src/messages/person-detection/PersonDetectionSchema.ts:89-95 | a number-array schema accepts exactly arrays of numbers within its item bounds |
| PersonDetectionSchemas.DistributionsMeaning | src/messages/person-detection/PersonDetectionSchema.ts:86-110 | distributions are accepted exactly when age, if present, is 101 numbers and gender, if present, has numeric male and female |
| PersonDetectionSchemas.EmbeddingMeaning | src/messages/person-detection/PersonDetectionSchema.ts:111-124 | the embedding schema accepts exactly an object with an optional number array and an optional numeric quality score |
| PersonDetectionSchemas.SchemaGivesRecord | src/messages/person-detection/PersonDetectionSchema.ts:3-127 | data accepted by the schema has the five required fields with their types, `record_type == 'person'`, and valid optional parts |
| PersonDetectionSchemas.RecordGivesSchema | src/messages/person-detection/PersonDetectionSchema.ts:3-127 | conversely, every such record is accepted by the schema |
| PersonDetectionSchemas.SchemaMeaning | src/messages/person-detection/PersonDetectionSchema.ts:3-127 | the schema accepts exactly the records described by `ValidRecord` |
| PersonDetectionMessages.Validate | src/messages/person-detection/PersonDetectionMessage.ts:53-59 | succeeds iff `data` is present and satisfies the schema; `null` input is a TypeError, any other rejection a schema violation |
| PersonDetectionMessages.Parse | src/messages/person-detection/PersonDetectionMessage.ts:29-46 | succeeds iff the data is schema-valid and has `behavior.head`; a schema-valid record without it fails with a TypeError; ids, ttid, coordinates, recognition, timestamp, camera, poi and embedding are copied, and lookingAtScreen is `behavior.head.looking_at_screen` |
| PersonDetectionMessages.ParseAge | src/messages/person-detection/PersonDetectionMessage.ts:30-32 | age is present iff `rolling_expected_values.age` is present and non-zero, and is then that number |
| PersonDetectionMessages.ParseGender | src/messages/person-detection/PersonDetectionMessage.ts:33-35 | gender is present iff `rolling_expected_values.gender` is present, and is then 'male' or 'female' |
| PersonsAliveMessages.Validate | src/messages/persons-alive/PersonsAliveMessage.ts:25-29 | succeeds iff the input, its `data` and `data.person_ids` are all truthy |
| PersonsAliveMessages.Parse | src/messages/persons-alive/PersonsAliveMessage.ts:15-18 | succeeds iff `data.person_ids` is truthy; `getPersonIds()` returns it unchanged; the timestamp is `data.local_timestamp` when truthy, otherwise the clock |
| PersonsAliveMessages.EmptyListAccepted | src/messages/persons-alive/PersonsAliveMessage.ts:26 | an empty `person_ids` array is accepted, because an array is truthy |
| ContentMessages.SchemaMeaning | src/messages/content/ContentSchema.ts:6-38 | the schema accepts exactly objects with record_type 'content_event', integer poi, numeric timestamp, string name, content_id and content_play_id, and optional object data |
| ContentMessages.Validate | src/messages/content/ContentMessage.ts:39-45 | succeeds iff `data` satisfies the content schema |
| ContentMessages.Parse | src/messages/content/ContentMessage.ts:24-32 | succeeds iff validation does; poi, record type, timestamp, name and both ids are copied from the same-named fields; personPutIds is the optional `person_put_ids` |
| PersonFlushMessages.SchemaMeaning | src/messages/person-flush/PersonFlushSchema.ts:1-15 | the schema accepts exactly objects with string person_id and string final_unique_person_id |
| PersonFlushMessages.Validate | src/messages/person-flush/PersonFlushMessage.ts:26-34 | succeeds iff the input is not null and its `data`, when present, satisfies the schema |
| PersonFlushMessages.Parse | src/messages/person-flush/PersonFlushMessage.ts:16-19 | succeeds iff `data` is present and valid, and then copies both ids; invalid data is a schema violation, missing data a TypeError |
| PersonFlushMessages.FlushRejections | src/messages/person-flush/PersonFlushSchema.ts:5-14 | a missing or non-string person_id, or a missing or non-string final_unique_person_id, is rejected |
| PersonDetections.PersonDetection.Name | src/model/person-detection/PersonDetection.ts:35-40 | `metadata.name` when metadata and its name are truthy, otherwise null |
| PersonDetections.FromMessage | src/model/person-detection/PersonDetection.ts:57-76 | copies ids, age, gender, timestamp, coordinates, looking-at-screen, poi and camera; metadata is the recognition; `updated` is the timestamp when non-zero, otherwise the clock |
| PersonDetections.FromParsedUpdate | src/model/person-detection/PersonDetection.ts:48-50 | for a parsed update, the entity carries the message's ids and timestamp, and `isLookingAtScreen()` holds iff `looking_at_screen` is 0 |
| Contents.FromMessage | src/model/content/Content.ts:19-30 | copies poi, timestamp, both ids and the put ids; `event` is the message's name |
| Contents.Content.Clone | src/model/content/Content.ts:37-46 | the copy has every field equal, the put-id list included |
| OrderedMaps.OrderedMap.Set | src/poi/POISnapshot.ts:83-85 | `set` keeps the map well formed, updates the entry, and appends the key only when it is new |
| OrderedMaps.OrderedMap.RemoveKeys | src/poi/POISnapshot.ts:119-128 | deleting a key set keeps the order of the remaining keys and their entries |
| OrderedMaps.RemoveKeysTwice | src/poi/POISnapshot.ts:119-128 | deleting two key sets in turn is deleting their union |
| OrderedMaps.OrderedMap.Values | src/poi/POISnapshot.ts:100-104 | `values()` lists the entries in key order |
| POISnapshots.Initial | src/poi/POISnapshot.ts:15-20 | a new snapshot has empty maps and no poi id, content or timestamp |
| POISnapshots.PruneEffect | src/poi/POISnapshot.ts:119-128 | after pruning at t, an id stays iff it was not more than 2000 ms stale; it is removed from both maps; survivors keep their values and their order |
| POISnapshots.PruneUpToAll | src/poi/POISnapshot.ts:119-128 | deleting stale ids one at a time while iterating is the same as deleting them all at once |
| POISnapshots.RecentPruneNothing | src/poi/POISnapshot.ts:123 | when no entry is stale relative to t, and in particular for an out-of-order older t, pruning removes nothing |
| POISnapshots.PruneIdempotent | src/poi/POISnapshot.ts:119-128 | pruning twice at the same t is pruning once |
| POISnapshots.DetectionEffect | src/poi/POISnapshot.ts:79-88 | the detection's timestamp is recorded under its id; the person is stored iff age and gender are truthy; every other person and update time stays, with its data unchanged, exactly when its time is not stale at the message's timestamp; stale ones are pruned |
| POISnapshots.DetectionConsistent | src/poi/POISnapshot.ts:82-85 | a detection keeps every stored person keyed by its own id and tracked in lastPersonUpdate |
| POISnapshots.RefreshContents | src/poi/POISnapshot.ts:100-104 | the alive loop sets the heartbeat timestamp exactly for the listed ids of stored persons, and leaves every other entry alone |
| POISnapshots.ApplyAlive | src/poi/POISnapshot.ts:96-108 | a heartbeat fails with a TypeError iff persons exist and `person_ids` has no `indexOf`; otherwise it sets lastUpdateTimestamp and leaves poi id and content alone |
| POISnapshots.AliveSteps | src/poi/POISnapshot.ts:96-108 | a heartbeat is the refresh loop followed by pruning at the heartbeat's timestamp |
| POISnapshots.AliveEffect | src/poi/POISnapshot.ts:96-108 | listed stored persons stay and get the heartbeat's timestamp; an unlisted person goes only when more than 2000 ms stale; nobody is added |
| POISnapshots.AliveIdempotent | src/poi/POISnapshot.ts:96-108 | applying the same heartbeat twice is applying it once |
| POISnapshots.ApplyContent | src/poi/POISnapshot.ts:136-141 | content is replaced wholesale, poiId becomes content.poi and lastUpdateTimestamp its timestamp; both person maps are untouched |
| POISnapshots.Apply | src/poi/POISnapshot.ts:49-59 | an unknown, flush or skeleton message leaves the snapshot unchanged; only a heartbeat can fail |
| POISnapshots.ConsistentPreserved | src/poi/POISnapshot.ts:49-59 | every update keeps dom(persons) ⊆ dom(lastPersonUpdate), with each person stored under its own id |
| POISnapshots.CloneState | src/poi/POISnapshot.ts:66-71 | the clone has both maps equal and keeps well-formedness, but copies no content, poi id or timestamp |
| POISnapshots.POISnapshot.constructor | src/poi/POISnapshot.ts:15-20 | the new snapshot is the initial state |
| POISnapshots.POISnapshot.SetPersons | src/poi/POISnapshot.ts:36-38 | replaces the persons map and nothing else |
| POISnapshots.POISnapshot.RemoveGonePersons | src/poi/POISnapshot.ts:119-128 | the loop that deletes while iterating leaves exactly the pruned state |
| POISnapshots.POISnapshot.UpdatePersons | src/poi/POISnapshot.ts:79-88 | the new state is the specification of a detection applied to the old one |
| POISnapshots.POISnapshot.RefreshListed | src/poi/POISnapshot.ts:100-104 | the loop over persons leaves lastPersonUpdate as the refresh specification says |
| POISnapshots.POISnapshot.UpdatePersonsAlive | src/poi/POISnapshot.ts:96-108 | reports failure exactly when the specification does, then with the state unchanged; otherwise the state is the heartbeat's result |
| POISnapshots.POISnapshot.UpdateContent | src/poi/POISnapshot.ts:136-141 | the new state is the content specification applied to the old one |
| POISnapshots.POISnapshot.Update | src/poi/POISnapshot.ts:49-59 | the new state is `Apply` of the old one; on failure, a TypeError, nothing changes |
| POISnapshots.POISnapshot.Clone | src/poi/POISnapshot.ts:66-71 | a fresh snapshot whose state is `CloneState` of the original |
| POIMonitors.EmptyAlive | src/poi/POIMonitor.ts:91 | the injected heartbeat is what parsing `{data: {person_ids: []}}` yields: no ids, stamped with the clock |
| POIMonitors.InitialMonitor | src/poi/POIMonitor.ts:16-19 | the monitor starts active, with no timer armed and nothing emitted |
| POIMonitors.Deliver | src/poi/POIMonitor.ts:69 | the subject's value becomes the delivered snapshot, and it is logged unless the subject has completed |
| POIMonitors.Emit | src/poi/POIMonitor.ts:59-70 | emitting fails, with a TypeError, exactly when applying the message does |
| POIMonitors.EmitEffect | src/poi/POIMonitor.ts:59-70 | the message is applied and exactly one clone is emitted. A heartbeat while active arms a 2000 ms timer and while inactive only reactivates. Any other message leaves the flag and the timer untouched |
| POIMonitors.Fire | src/poi/POIMonitor.ts:87-92 | a firing timer keeps the monitor well formed |
| POIMonitors.FireEffect | src/poi/POIMonitor.ts:87-92 | after the timeout the monitor is inactive with no timer armed, and the persons are emptied. The empty heartbeat prunes stale timestamps, and one clone with zero persons is emitted |
| POIMonitors.ReviveAfterFire | src/poi/POIMonitor.ts:61-67 | after a timeout, the first heartbeat reactivates without arming; the second arms a new 2000 ms timer |
| POIMonitors.AfterStart | src/poi/POIMonitor.ts:35-42 | `start()` subscribes only when there is no open subscription |
| POIMonitors.StartIdempotent | src/poi/POIMonitor.ts:36 | starting twice is starting once, and a closed subscription is renewed |
| POIMonitors.AfterComplete | src/poi/POIMonitor.ts:75-78 | completing without a subscription throws a TypeError; otherwise it unsubscribes and completes the subject |
| POIMonitors.CompletedDeliversNothing | src/poi/POIMonitor.ts:75-78 | after completion, emitting still updates the snapshot but delivers nothing to subscribers |
| POIMonitors.POIMonitor.constructor | src/poi/POIMonitor.ts:16-19 | the new monitor is the initial state, over a fresh snapshot |
| POIMonitors.POIMonitor.GetSnapshot | src/poi/POIMonitor.ts:48-50 | returns the subject's current value: the most recently emitted snapshot, or the live one before any emission |
| POIMonitors.POIMonitor.Next | src/poi/POIMonitor.ts:69 | the subject's `next` delivers exactly as `Deliver` |
| POIMonitors.POIMonitor.Start | src/poi/POIMonitor.ts:35-42 | the new state is `AfterStart` of the old one |
| POIMonitors.POIMonitor.EmitSnapshot | src/poi/POIMonitor.ts:59-70 | the new state is `Emit` of the old one; on failure nothing changes |
| POIMonitors.POIMonitor.TimerFired | src/poi/POIMonitor.ts:85-94 | the timer callback, while armed and due, moves the monitor to `Fire` of its old state |
| POIMonitors.POIMonitor.Complete | src/poi/POIMonitor.ts:75-78 | the new state is `AfterComplete` of the old one; on failure nothing changes |
| OldPOIMonitors.Emit | src/poi/OldPOIMonitor.ts:49-60 | updating fails, with a TypeError, exactly when applying the message does |
| OldPOIMonitors.EmitEffect | src/poi/OldPOIMonitor.ts:49-60 | the message is applied and the live snapshot itself, not a clone, is emitted. A heartbeat while active re-arms the 2000 ms timer and while inactive only reactivates |
| OldPOIMonitors.Fire | src/poi/OldPOIMonitor.ts:76-80 | a firing timer keeps the monitor well formed |
| OldPOIMonitors.FireEffect | src/poi/OldPOIMonitor.ts:76-80 | the timeout deactivates the monitor and applies an empty heartbeat. It does not clear persons directly (only stale ones go) and emits nothing |
| OldPOIMonitors.OldPOIMonitor.constructor | src/poi/OldPOIMonitor.ts:16-19 | the new monitor is active, with no timer, an initial snapshot and no emissions |
| OldPOIMonitors.OldPOIMonitor.GetSnapshot | src/poi/OldPOIMonitor.ts:38-40 | returns the live snapshot |
| OldPOIMonitors.OldPOIMonitor.UpdateSnapshot | src/poi/OldPOIMonitor.ts:49-60 | the new state is `Emit` of the old one; on failure nothing changes |
| OldPOIMonitors.OldPOIMonitor.TimerFired | src/poi/OldPOIMonitor.ts:74-81 | the timer callback moves the monitor to `Fire` of its old state |
| OldPOIMonitors.OldPOIMonitor.Complete | src/poi/OldPOIMonitor.ts:65-67 | completes the snapshot stream and changes nothing else |
| OldPOIMonitors.OldPOIMonitor.Subscribe | src/poi/OldPOIMonitor.ts:91-93 | a subscriber first receives the live snapshot, or nothing once the stream has completed |
| ContentEvents.Event.Name | src/event/ContentEvent.ts:23-42 | a Start is named 'start', an End 'end', and any other event has its own name |
| ContentEvents.NewStart | src/event/ContentEvent.ts:23-30 | a Start event for the content id, with no persons, stamped with the clock |
| ContentEvents.NewEnd | src/event/ContentEvent.ts:35-42 | an End event for the content id, with no persons, stamped with the clock |
| ContentEvents.Forwarded | src/event/EventMonitor.ts:42-72 | forwarding sends one event, or two when repairing. The last one is the event carrying the persons. The first of two has the opposite kind and the last event's content id. Every forwarded event carries the persons |
| ContentEvents.RepairSplits | src/event/EventMonitor.ts:44-49 | a repair is the synthetic event's own forwarding, which repairs nothing, followed by the event: the recursion is one level deep |
| ContentEvents.ForwardedNoRepeat | src/event/EventMonitor.ts:44-49 | forwarding never puts two Starts or two Ends next to each other in the log |
| ContentEvents.EdgesAlternate | src/event/EventMonitor.ts:44-63 | in such a log of Start and End events, Starts and Ends alternate |
| ContentEvents.PutIdsInOrder | src/event/EventMonitor.ts:52-58 | the attached list has one put id per snapshot person, in map order |
| ContentEvents.StringsJson | src/event/EventMonitor.ts:70 | the put ids become a JSON array of the same strings |
| ContentEvents.EventRecord | src/event/EventMonitor.ts:66-71 | the record has exactly name, record_type 'content_event', content_id and person_put_ids |
| ContentEvents.RecordIsUnknown | src/playout-event/PlayoutEventService.ts:44-49 | the handed-over record has no subject or data, so the factory classifies it as Unknown({}) and none of the event reaches the parsed message |
| EventMonitors.RpcOf | src/event/EventMonitor.ts:66-71 | each RPC calls 'analytics' with the event's record |
| EventMonitors.RpcsOfAt | src/event/EventMonitor.ts:66-71 | the RPC log has one RPC per forwarded event, in order |
| EventMonitors.RpcsOfAppend | src/event/EventMonitor.ts:66-71 | the RPCs of two logs in sequence are the RPCs of each |
| EventMonitors.EventMonitor.constructor | src/event/EventMonitor.ts:15-24 | no last event, and nothing pushed or sent |
| EventMonitors.EventMonitor.Push | src/event/EventMonitor.ts:58-71 | one event is pushed, becomes the last event, and produces one RPC |
| EventMonitors.EventMonitor.ForwardContentEvent | src/event/EventMonitor.ts:42-72 | the subject receives exactly `Forwarded` of the last event, and the RPC log its RPCs. The returned event carries the snapshot's put ids and becomes the last event. The log never has two Starts or two Ends in a row |
| EventMonitors.EventMonitor.ForwardWith | src/event/EventMonitor.ts:42-72 | the recursive step: the log grows by `Forwarded` for the given persons |
| PlayoutEventServices.HandOversAt | src/playout-event/PlayoutEventService.ts:43-50 | one parsed message per forwarded event, in order, each the Unknown({}) that the factory makes of the event's record |
| PlayoutEventServices.HandOversAppend | src/playout-event/PlayoutEventService.ts:43-50 | the hand-overs of two logs in sequence are the hand-overs of each, so every hand-over is Unknown({}) |
| PlayoutEventServices.PlayoutEventService.constructor | src/playout-event/PlayoutEventService.ts:10-16 | no last event, and nothing handed over |
| PlayoutEventServices.PlayoutEventService.HandOver | src/playout-event/PlayoutEventService.ts:40-50 | the event becomes the last event before its parsed record, Unknown({}), is handed to the monitor |
| PlayoutEventServices.PlayoutEventService.ForwardPlayoutEvent | src/playout-event/PlayoutEventService.ts:22-51 | the events forwarded are exactly `Forwarded` of the last event, and the hand-overs are their parsed records. The returned event carries the snapshot's put ids and becomes the last event |
| PlayoutEventServices.PlayoutEventService.ForwardWith | src/playout-event/PlayoutEventService.ts:22-51 | the recursive step: the forwarded log grows by `Forwarded` for the given persons |
| PlayoutEventServices.WrittenForward | src/playout-event/PlayoutEventService.ts:22-51 | as written, every call ends in a `TypeError`, and the event it leaves as the last one is the first event the intended forwarding forwards, carrying the snapshot's put ids |
| PlayoutEventServices.WrittenLosesRepairedEvent | src/playout-event/PlayoutEventService.ts:24-43 | as written, a repair leaves the synthetic counterpart, of the other kind, as the last event, while the intended forwarding ends with the event itself |
| Streams.ReadyState.Code | src/connection/stream/Stream.ts:6-11 | the ready states are the codes 0..3, and OPEN is 1 |
| Streams.DefaultHosts | src/connection/stream/Stream.ts:20-27 | the page's host, when there is one, followed by 'localhost' |
| Streams.Decimal | src/connection/stream/Stream.ts:58 | the port is written as decimal digits with no leading zero that read back as the port |
| Streams.Uri | src/connection/stream/Stream.ts:58 | the URI is `ws://`, then the host, ':' and the port |
| Streams.RotateLeft | src/connection/stream/Stream.ts:57-62 | the first host moves to the end and the others shift left; an empty list yields the host "undefined" |
| Streams.RotateStep | src/connection/stream/Stream.ts:57-62 | rotating a ring viewed from an offset is viewing it from the next offset |
| Streams.RotatedBy | src/connection/stream/Stream.ts:57-62 | after k rotations the list is hs[k..] + hs[..k]; after as many rotations as there are hosts it is back where it started |
| Streams.Backoff | src/connection/stream/Stream.ts:150-160 | every reconnect delay lies in 3000..120000 ms; the count grows by one exactly while below 5 |
| Streams.ConsecutiveCloses | src/connection/stream/Stream.ts:150-154 | the k-th consecutive close waits 3000·k ms for k ≤ 5 and 120000 ms after that |
| Streams.Stream.constructor | src/connection/stream/Stream.ts:45-47 | a new stream connects to its first host, rotates the list, and starts CONNECTING with an empty buffer and no retry |
| Streams.Stream.NextUri | src/connection/stream/Stream.ts:57-62 | returns the URI of the current first host, rotates the hosts, and changes nothing else |
| Streams.Stream.Connect | src/connection/stream/Stream.ts:67-79 | opens a socket to the next URI in state CONNECTING, with the reconnecting close handler |
| Streams.Stream.Send | src/connection/stream/Stream.ts:167-178 | while OPEN the message is sent and the buffer left alone; otherwise it is appended to the buffer |
| Streams.Stream.FlushBuffer | src/connection/stream/Stream.ts:117-121 | the buffered messages are sent in FIFO order |
| Streams.Stream.OnOpen | src/connection/stream/Stream.ts:112-122 | on open, the buffer is sent in order and emptied, and the retry count reset to 0 |
| Streams.Stream.OnClose | src/connection/stream/Stream.ts:150-160 | a close while reconnecting schedules a retry with the backoff's delay and count; after `close()` nothing is scheduled |
| Streams.Stream.OnRetryTimer | src/connection/stream/Stream.ts:159 | the retry reconnects to the next host |
| Streams.Stream.Close | src/connection/stream/Stream.ts:84-89 | `close()` cancels any pending retry and stops reconnecting |
| Streams.ClosedStaysClosed | src/connection/stream/Stream.ts:84-89 | a closed stream whose socket then closes stays closed, with no retry pending |
| Streams.TypeCode | src/types/index.ts:1-7 | the five binary channels have the codes 1..5 |
| Streams.ChannelOf | src/types/index.ts:1-7 | a type byte names a channel iff it is 1..5, and names the channel with that code |
| Streams.ChannelCodes | src/types/index.ts:1-7 | codes and channels are in one-to-one correspondence |
| Streams.Dispatch | src/connection/stream/Stream.ts:212-230 | a frame is routed iff its first byte is 1..5, to that channel, with the rest of the frame as payload |
| Streams.Handlers.With | src/connection/stream/Stream.ts:187-191 | setting one channel's callback leaves the others unchanged |
| Streams.BinaryStream.constructor | src/connection/stream/Stream.ts:184-200 | a new binary stream connects on its port, with no callbacks bound |
| Streams.BinaryStream.SetHandler | src/connection/stream/Stream.ts:187-191 | replaces the one channel's callback |
| Streams.BinaryStream.OnMessage | src/connection/stream/Stream.ts:212-230 | callbacks are bound on the first frame; a routed frame reaches its channel's bound callback with bytes 1.., and an unknown type only warns |
| Streams.Payload | src/connection/stream/Stream.ts:265-277 | a text frame passes its parsed JSON, or the raw event when parsing fails; a binary frame passes its decoded value |
| Streams.CallsOf | src/connection/stream/Stream.ts:273-276 | every callback is called once with the value, in registration order |
| Streams.CallsOfAppend | src/connection/stream/Stream.ts:257-259 | the calls for callbacks added later follow those for the earlier ones |
| Streams.JsonStream.constructor | src/connection/stream/Stream.ts:244-246 | a new JSON stream connects on its port, with no callbacks |
| Streams.JsonStream.AddCallback | src/connection/stream/Stream.ts:257-259 | appends the callback |
| Streams.JsonStream.OnMessage | src/connection/stream/Stream.ts:265-277 | the call log grows by one call per registered callback, in order, with the frame's payload |

## Left out

- Sockets, RxJS subjects, `setTimeout`/`clearTimeout` and the clock. These are replaced by explicit event methods (`OnOpen`, `OnClose`, `OnRetryTimer`, `TimerFired`), emission and sent logs, and `now` parameters. Timers are not modelled concurrently: a firing is an event whose precondition is that the timer is armed and due.
- `POIMonitors.POIMonitor.TimerFired`, `Streams.Stream.OnOpen` and `Streams.Stream.OnClose` carry preconditions for the socket's and the timer's own event order, which the environment guarantees: an open arrives only while connecting, and a close only before closed.
- `Number(...)` on strings, arrays and objects is approximated as NaN. It is reached only through a truthy non-numeric `local_timestamp` in a heartbeat.
- Loose `==` against a string or number literal is modelled as strict equality of the JSON value. An array whose string form equals the literal, which JavaScript would accept, is not modelled.
- Ajv and jsonschema are modelled only as the schema predicate. Their internals and their error texts are not. Neither is msgpack `decode` in `JsonStream.onmessage`: its result is a field of the binary frame.
- The JSON text parser is not modelled either: a text frame carries the value `JSON.parse` would give, or none when it would throw.
- `sendJson` (`JSON.stringify`) is left out, because the model has no JSON printer. `send` of an already-serialised string is modelled.
- Logging, `console` calls, the `onerror` handler and the logger module are left out, because they have no statable effect.
- `getDefaultHosts` reads `window.location`, so `Streams.DefaultHosts` takes the page's host as a parameter.
- `Streams.Stream.OnOpen`: a user `onopen` callback that sends during the open handler is not modelled. It would send before the buffered messages.
- Aliasing of the caller's `hosts` array, which `nextUri` rotates in place, is not modelled: the stream owns its copy.
- Connection hand-off is not modelled: `BinaryStream` and `JsonStream` hold a `Stream` instead of inheriting from it.
- `POIMonitors.POIMonitor.Start`: the subscription to the incoming message service is a flag plus a count. The `MessageObserver` wiring is the caller's job (call `EmitSnapshot` for each message).
- The `OldPOIMonitor` constructor's subscription to the engine stream is left out, and so is its unused `rate` parameter.
- `OldPOIMonitors.OldPOIMonitor.UpdateSnapshot` emits the live snapshot by value. The source emits the one shared mutable object, so later updates are visible through earlier emissions. That aliasing is not modelled.
- `EventMonitors.EventMonitor.ForwardContentEvent` and `PlayoutEventServices.PlayoutEventService.ForwardPlayoutEvent` read the snapshot's persons once per call. The source re-reads them at each level of the recursion. The snapshot cannot change in between, so the lists are equal.
- The in-place `event.persons = …` assignment is not modelled: the forwarded event is returned as `attached`.
- `PlayoutEventServices.PlayoutEventService.ForwardPlayoutEvent` models the hand-over the service is evidently meant to make, not the code as written. As written, `poiMonitor.emitMessage` does not exist on `POIMonitor`, so line 43 of `src/playout-event/PlayoutEventService.ts` throws a `TypeError` on every call. It throws after `event.persons` is set and after `lastContentEvent = event`. In a repair, the inner synthetic forward throws first, so the outer event never gets its persons, never becomes the last event, and the exception reaches the caller. `PlayoutEventServices.WrittenForward` models that outcome (see "## Findings"). The model's hand-over log records the parsed messages and does not apply them to the snapshot.
- `Stream.ts` imports `BinaryDataType` from `src/constants/Constants.ts`, which does not define it. The model uses the values 1..5 of `BinaryType` in `src/types/index.ts`.
- `POISnapshots.POISnapshot.RefreshListed` splits the alive loop out of `updatePersonsAlive`. A heartbeat whose `person_ids` has no `indexOf` throws on the first iteration, before any write, so a failing heartbeat leaves the state unchanged.
- TecRPCService, TecWSConnection, IO, IOService, TecSDKService and the interface files are left out. They only delegate, or depend on uuid generation.
- The test generators, `StreamMock`, `FlushEvent` and `src/model/playout-event/PlayoutEvent.ts` are left out. They are test scaffolding, or unused by the core.
- Behaviour that only the tests exercise is not modelled:
  - ttid-keyed fusion with a pending cache;
  - the identity-switch guard;
  - snapshot serialisation;
  - the `contentEvent` reset;
  - periodic synthetic emission;
  - a clone that carries content.
- The content fixture in `src/messages/MessageFactory.spec.ts` has no `content_play_id`, which the content schema requires. The model follows the schema (`MessageExamples.ContentNeedsPlayId`).

## Findings

| source | as written | input that shows it | evidently intended | confidence | as-written member | corrected member |
|---|---|---|---|---|---|---|
| src/playout-event/PlayoutEventService.ts:43 | calls `this.poiMonitor.emitMessage(...)`, which `POIMonitor` does not define, so every call throws a `TypeError` after storing the last event; in a repair the outer event is lost | any event, e.g. a `StartEvent` after a `StartEvent`: the last event left is the synthetic `EndEvent` and the caller gets a `TypeError` | hand the parsed record to the monitor, with the event itself as the last one | not executed; high that the call throws, medium on which monitor method was meant | PlayoutEventServices.WrittenLosesRepairedEvent | PlayoutEventServices.PlayoutEventService.ForwardPlayoutEvent |
