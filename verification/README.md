# bathtub-social room engine, modelled in Dafny

bathtub-social is a small social-space server. People join a room over a
server-sent event stream and appear on each other's screens. They change
their attributes, exchange messages and leave. This project models the
parts of the server and client that decide what happens:

- **The room log** (`SubscriptionLog`). It is an append-only list of
  `{uuid, messageType, data, timestamp}` entries. Every subscriber is called
  with each new entry, and entries older than the retention window are then
  dropped from the head. `since` and `has` are the cursor queries used to
  catch a reconnecting client up.
- **The room** (`Room`). Its `people` object is written only by its own log
  subscriber, `processAppend`. The public operations check capacity or
  presence, then append exactly one entry.
- **The two versions of the `/rooms` routes.** Each has an event-stream
  handler with a forward filter, join-on-connect, a replay or snapshot
  catch-up, and a per-person leave timer. Each also has leave, set-attributes
  and send handlers. The newer version adds filmstrip uploads.
- **The browser-side mirror** (`RoomClient`). It folds the streamed entries
  into its own `people` object.
- **The two `updateObject` functions.** Each applies `[path, value]` updates
  to a nested object.
- **The ban registry** and its middleware, and **the authority registry**
  with its badge checks. The admin and ban routes of the configuration
  router sit on these registries.
- **Smaller helpers:**
  - the inline-style object;
  - the view path helpers;
  - the avatar-decoration grouping;
  - the audit log's trimming;
  - the tool that splits an RGBA image into a colour JPEG and a mask JPEG.

Some conventions hold throughout:

- Time is a parameter `now`, in milliseconds.
- Fresh uuids are parameters, and the log records which ids were issued.
- Subscribers are an explicit list of handler ids. `delivered` records every
  call the log made, with the log as that subscriber saw it.
- JSON values are the datatype `Values.Value`.
- A JavaScript object is either a map (`Fields`) or an insertion-ordered
  association list (`Assoc.Dict`). An association list is used where key
  order shows, as in `people`, `Object.entries` and `Object.keys`.
- Exceptions the code throws are `Err` results or `Threw` replies that carry
  the message.
- A route handler's answer is a `Reply`: a status code with a JSON body, an
  open event stream (the events written, in order), nothing, or an
  exception.

The code is modelled as written, including its defects:

- The forward filter reads `to` on the log entry. The payload, with its
  `to`, sits under `data`, so every entry passes the filter.
- `unban` refers to an undeclared `banEntry`.
- `verify` refuses exactly the badges that are less than a minute old.
- The older route file calls `parseDuration` without importing it.
- The newer set-attributes handler passes an array as `personChange`'s
  props.
- `POST /bans/create` reads an undeclared `auth`.

Each of these is stated as a property of the model. None is corrected.

Three behaviours of the event streams and the person records deserve a
note of their own:

- The stream handler's filter (library/server-routes/route-room.js:71)
  reads `to` on the log entry itself, not on its `data`. An entry is
  `{uuid, messageType, data, timestamp}`
  (library/server-data/subscription-log.js:15) and has no `to`, so every
  entry reaches every stream (`RouteRoom.EveryEntryForwarded`).
- In the older route file, the abort listener
  (library/server-routes/route-room.js:91-99) throws on the unimported
  `parseDuration` before a leave timer is stored (`RouteRoom.Router.Abort`).
  In the newer one (library/server-routes/route-rooms.js:82-93), the abort
  listener stores a new timer over the old one without clearing it, so
  the old timer stays armed (`RouteRooms.Router.Abort`).
- Neither route file checks the size of a person's attributes, and the
  model adds no such check.

## Model

| member | source | states |
|---|---|---|
| SubscriptionLogs.FindIndex | library/server-data/subscription-log.js:25 | the position found holds the uuid and no earlier position does; -1 exactly when no entry holds it |
| SubscriptionLogs.Since | library/server-data/subscription-log.js:24-28 | `false` exactly when no entry carries the uuid; otherwise the entries after the first one that does, in log order |
| SubscriptionLogs.Collect | library/server-data/subscription-log.js:36-41 | what garbage collection leaves is no longer than the log, and its head (if any) is not older than the cutoff |
| SubscriptionLogs.CollectSuffix | library/server-data/subscription-log.js:38-39 | collection removes only a prefix, and every removed entry is strictly older than the cutoff (an entry at the cutoff stays) |
| SubscriptionLogs.Fanout | library/server-data/subscription-log.js:17 | each subscriber, in registration order, is called once with the entry |
| SubscriptionLogs.LatestAt | library/server-routes/route-room.js:93 | the position of the handler's most recent registration, `-1` exactly when it is not registered |
| SubscriptionLogs.RemoveLast | library/server-routes/route-room.js:93 | unsubscribing removes exactly the handler's most recent registration, the rest keeping their order; nothing when it is not registered |
| SubscriptionLogs.SubscriptionLog.constructor | library/server-data/subscription-log.js:6-11 | an empty log with no subscribers, retaining entries for the given window or one minute by default |
| SubscriptionLogs.SubscriptionLog.Append | library/server-data/subscription-log.js:14-20 | the returned entry carries the fresh uuid, type, data and time; every subscriber saw it with it at the tail of the log, before collection; the log is then the collection of the old log plus the entry |
| SubscriptionLogs.SubscriptionLog.Notify | library/server-data/subscription-log.js:17 | the calls recorded are exactly one per current subscriber, in order, with the current log |
| SubscriptionLogs.SubscriptionLog.GarbageCollect | library/server-data/subscription-log.js:36-41 | the loop leaves exactly the collected log for cutoff `now - expire` and keeps the ids unique |
| SubscriptionLogs.SubscriptionLog.Subscribe | library/server-routes/route-room.js:89 | the handler is registered last |
| SubscriptionLogs.SubscriptionLog.Unsubscribe | library/server-routes/route-room.js:93 | the subscribers become `RemoveLast` of the old ones: the handler's latest registration is removed and the rest keep their order |
| SubscriptionLogs.PushKeepsIds | library/server-data/subscription-log.js:15-16 | pushing an entry with a never-issued uuid keeps every uuid in the log distinct |
| SubscriptionLogs.CollectKeepsIds | library/server-data/subscription-log.js:36-41 | collection keeps only entries that were in the log, so uuids stay distinct |
| SubscriptionLogs.HasIffSince | library/server-data/subscription-log.js:24-33 | `has(u)` holds exactly when `since(u)` is not `false` |
| SubscriptionLogs.SinceAfter | library/server-data/subscription-log.js:24-28 | with distinct uuids, `since` on the id at position i returns exactly the entries after i: no gap and no repeat |
| SubscriptionLogs.SinceNewest | library/server-data/subscription-log.js:27 | `since` on the newest entry's id returns the empty list |
| SubscriptionLogs.CollectKeepsNewest | library/server-data/subscription-log.js:14-20 | an entry stamped no earlier than the cutoff survives: the log is a suffix of the old log followed by the new entry |
| SubscriptionLogs.AppendedIsNewest | library/server-data/subscription-log.js:14-20 | after `append` the new entry is the last entry of the log |
| Rooms.WithIdentity | library/server-data/room.js:38-41 | the payload carries the given identity, overriding one in the props, and every other prop unchanged |
| Rooms.JoinNeverOverwrites | library/server-data/room.js:82-84 | folding `personJoin` inserts the payload under its identity only when that identity is absent; a present person is never overwritten |
| Rooms.LeaveRemovesOnly | library/server-data/room.js:86-88 | folding `personLeave` deletes that identity and leaves every other person as it was |
| Rooms.ChangeAssignsPayload | library/server-data/room.js:90-94 | folding `personChange` throws exactly when the person is unknown; otherwise each payload key is assigned onto the record, its other fields stay, other people are untouched |
| Rooms.RoomChangeAndMessage | library/server-data/room.js:96-99 | `roomChange` replaces `architecture` and `roomID` only with present, truthy values and leaves `people` alone; other entry types change nothing |
| Rooms.ApplyGrowth | library/server-data/room.js:44-100 | the fold keeps identities distinct and grows `people` by at most one, only for a join of an absent identity |
| Rooms.ApplyKeepsSelfNamed | library/server-data/room.js:84-94 | every record keeps naming the key it is stored under |
| Rooms.Room.constructor | library/server-data/room.js:6-14 | an empty room whose log has the room's own fold as its only subscriber |
| Rooms.Room.GetPublicInfo | library/server-data/room.js:17-24 | the head count is the number of people present, and never more than `maxPeople` |
| Rooms.Room.GetStateData | library/server-data/room.js:27-34 | `people` lists exactly the stored records, one per person |
| Rooms.Room.ProcessAppend | library/server-data/room.js:81-100 | the room state becomes the fold of the entry; where the fold throws, nothing changes |
| Rooms.Room.Commit | library/server-data/room.js:44-48 | one entry is appended and the room state is the fold of it; capacity and distinct identities are kept |
| Rooms.Room.PersonJoin | library/server-data/room.js:36-51 | joins exactly when the head count is below `maxPeople`, appending one `personJoin` with the identity; otherwise throws "Room is full" and changes nothing |
| Rooms.Room.PersonChange | library/server-data/room.js:54-57 | appends one `personChange` of `{...props, identity}` exactly when the person is present; otherwise throws and changes nothing |
| Rooms.Room.PersonLeave | library/server-data/room.js:60-63 | appends one `personLeave` exactly when the person is present, after which they are gone; otherwise throws and changes nothing |
| Rooms.Room.SetArchitecture | library/server-data/room.js:70-72 | appends one `roomChange` carrying the architecture, folded into the state |
| Rooms.Room.Send | library/server-data/room.js:76-78 | appends one `message` tagged with the sender, without a presence check, and leaves the room state as it was |
| RouteRoom.Emit | library/server-routes/route-room.js:69-74 | the handler writes at most one event, the object it was given |
| RouteRoom.Replay | library/server-routes/route-room.js:79 | replay writes at most one event per entry |
| RouteRoom.ForwardMeaning | library/server-routes/route-room.js:71 | an object with no truthy `to`, or addressed to the caller, is forwarded; one addressed by a non-empty string to someone else is withheld |
| RouteRoom.EveryEntryForwarded | library/server-routes/route-room.js:71 | as written the filter reads `to` on the log entry, so every entry is forwarded, a direct message to someone else included |
| RouteRoom.ReplayAll | library/server-routes/route-room.js:79 | replaying entries writes one event per entry, in log order |
| RouteRoom.CatchUpFromCursor | library/server-routes/route-room.js:76-79 | a cursor naming the entry at position i replays exactly the entries after it, in order |
| RouteRoom.CatchUpWithoutCursor | library/server-routes/route-room.js:76-86 | without a usable cursor (absent, empty or no longer logged) exactly one snapshot is sent |
| RouteRoom.StreamSeesAppend | library/server-routes/route-room.js:89 | a stream subscribed after the others receives each later append exactly once, through its own handler |
| RouteRoom.JoinOnConnect | library/server-routes/route-room.js:48-54 | a join is attempted only for an absent caller; it fails exactly when the room is full, with "Room is full" and nothing changed |
| RouteRoom.Router.constructor | library/server-routes/route-room.js:39 | no timers, sessions or stored slots |
| RouteRoom.Router.Connect | library/server-routes/route-room.js:40-100 | 404 for a missing room and 500 for missing attributes, before any join; 429 when the join fails, with nothing subscribed; otherwise the caller is present, their stored timer is cleared, the catch-up is written and only then is the stream subscribed |
| RouteRoom.Router.Attach | library/server-routes/route-room.js:56-89 | the stored timer is cleared, the catch-up written and the stream subscribed last, the log untouched |
| RouteRoom.Router.Abort | library/server-routes/route-room.js:91-99 | the stream is unsubscribed and the stored timer cleared; the new timer's duration throws a ReferenceError, so no timer is stored |
| RouteRoom.LeaveRefusal | library/server-routes/route-room.js:105 | the request reaches the room exactly when `body.leave === true`; a missing body throws |
| RouteRoom.Leave | library/server-routes/route-room.js:103-109 | refused unless `leave: true`; a missing room is caught and answered with 500 carrying the TypeError's message "Cannot read properties of undefined (reading 'personLeave')"; an absent caller gets 500 "You aren't in this room."; otherwise the caller leaves and gets `{ok: true}` |
| RouteRoom.AttributesRequest | library/server-routes/route-room.js:115 | the request goes on exactly when the body has truthy `attributes`; a missing body throws |
| RouteRoom.SetAttributes | library/server-routes/route-room.js:112-118 | presence first, then truthy `attributes`; on success one `personChange` storing `{attributes}`; every refusal leaves the room unchanged |
| RouteRoom.StoreAttributes | library/server-routes/route-room.js:116 | the person's `attributes` become the given value |
| RouteRoom.Send | library/server-routes/route-room.js:121-125 | presence first, then one `message` built from `body.message`; the handler never answers |
| RouteRooms.PrefixUpdates | library/server-routes/route-rooms.js:133 | each `[path, value]` becomes `[['attributes', ...path], value]`, in order; the map throws exactly when an update cannot be destructured or its path spread |
| RouteRooms.AttributesUntouched | library/server-routes/route-rooms.js:133-134 | as written the prefixed array is spread into keys "0", "1", ..., so the change never touches the person's `attributes` |
| RouteRooms.UploadAccepted | library/server-routes/route-rooms.js:158-167 | an upload is accepted exactly when it is a JPEG buffer of 16 to `filmstripMaxData` bytes, `filmstripSize` wide and `filmstripSize * filmstripFrames` high |
| RouteRooms.SubscribeAndJoin | library/server-routes/route-rooms.js:66-76 | the stream is subscribed before the join, so a new joiner's own `personJoin` reaches it live; a refused join leaves the subscription |
| RouteRooms.Router.constructor | library/server-routes/route-rooms.js:41 | no timers, sessions, slots or filmstrips |
| RouteRooms.Router.Connect | library/server-routes/route-rooms.js:42-113 | retry first; a missing room or attributes is reported on the stream; otherwise subscribe, join if absent (429 on a full room, subscription kept), clear the stored timer, then the catch-up in the wrapped `roomState` shape |
| RouteRooms.Router.Attach | library/server-routes/route-rooms.js:82-112 | the abort listener is registered, the stored timer cleared and the catch-up written |
| RouteRooms.Router.Abort | library/server-routes/route-rooms.js:82-93 | the stream is unsubscribed and a new timer stored for the person without clearing the previous one, which stays armed |
| RouteRooms.Router.Fire | library/server-routes/route-rooms.js:86-92 | a fired timer makes the person leave only if still present; otherwise nothing changes and nothing is thrown |
| RouteRooms.Router.Filmstrip | library/server-routes/route-rooms.js:153-175 | room, presence and upload checks in order; an accepted upload is stored and exactly one `personChange` of the filmstamp is appended to the room's log and folded, the timer and session maps untouched, then the handler throws calling `req.send` |
| RouteRooms.Leave | library/server-routes/route-rooms.js:116-123 | 500 for a missing room, refusal unless `leave: true`, 500 for an absent caller; otherwise the caller leaves |
| RouteRooms.UpdatesRequest | library/server-routes/route-rooms.js:132-133 | a non-array `updates` is refused, a missing body throws, otherwise the prefixed updates |
| RouteRooms.SetAttributes | library/server-routes/route-rooms.js:126-136 | room, presence and an `updates` array; on success one `personChange` whose payload leaves the person's `attributes` as they were |
| RouteRooms.ChangeAttributes | library/server-routes/route-rooms.js:134-135 | the prefixed updates are appended as one `personChange`, and the person's `attributes` are unchanged by it |
| RouteRooms.Send | library/server-routes/route-rooms.js:139-145 | room, presence, then the whole body is appended as one `message` and `{ok: true}` answered; the room state is unchanged |
| ClientRoom.LastWith | library/client-data/room.js:128-136 | the last snapshot record filed under an identity, and none exactly when no record carries it |
| ClientRoom.ReconcileMatchesSnapshot | library/client-data/room.js:124-146 | after `roomState` the keys are exactly the snapshot's identities, each holding the snapshot's (last) record for it |
| ClientRoom.LastWithStateData | library/server-data/room.js:31 | a room snapshot's last record for a key is the room's record under that key |
| ClientRoom.ReconcileMirrorsServer | library/client-data/room.js:124-146 | a client given a room's `getStateData()` ends with exactly the server's people, whatever it held before |
| ClientRoom.MirrorsServerFold | library/client-data/room.js:154-177 | the join, change and leave handlers fold entries into the same people as the server's `processAppend` |
| ClientRoom.MessageEvents | library/client-data/room.js:180-187 | `dm` when `to` is truthy, otherwise `broadcast`; then exactly one of `text`, `emote`, `signal` by `type`, or none |
| ClientRoom.AssignEntries | library/client-data/room.js:174 | assigning a record's entries gives the source's keys the source's values and leaves other keys alone |
| ClientRoom.UpsertLoop | library/client-data/room.js:128-139 | the loop leaves the upserted people and emits a join or change event per record |
| ClientRoom.PruneLoop | library/client-data/room.js:141-146 | the loop deletes exactly the identities the snapshot no longer lists, emitting a leave for each |
| ClientRoom.UpsertOne | library/client-data/room.js:129-138 | a present record is replaced by the snapshot record (change event), an absent one inserted (join event) |
| ClientRoom.RoomClient.constructor | library/client-data/room.js:16-24 | no people and a null `maxPeople` |
| ClientRoom.RoomClient.RoomState | library/client-data/room.js:124-151 | takes over id, architecture and `maxPeople`; the people become the reconciliation of the snapshot |
| ClientRoom.RoomClient.UpsertAll | library/client-data/room.js:128-139 | the first `roomState` loop, with its events |
| ClientRoom.RoomClient.PruneMissing | library/client-data/room.js:141-146 | the second `roomState` loop, with its events |
| ClientRoom.RoomClient.PersonJoin | library/client-data/room.js:154-159 | ignored, with a console error, for a present identity; otherwise the payload is stored under its identity |
| ClientRoom.RoomClient.PersonLeave | library/client-data/room.js:162-168 | deletes exactly that identity; for an unknown one throws (the error path reads an undeclared `message`) and changes nothing |
| ClientRoom.RoomClient.PersonChange | library/client-data/room.js:171-177 | shallow-merges the payload into the present record; an unknown identity leaves the people unchanged |
| ClientRoom.RoomClient.Message | library/client-data/room.js:180-187 | emits exactly the message events |
| ObjectPaths.Write | library/features/update-object.js:13-17 | assignment or deletion on the container reached; it throws exactly on `undefined` or `null` |
| ObjectPaths.KeysOf | library/functions/update-object.js:6 | each path element becomes its string key |
| ObjectPaths.PathKeys | library/features/update-object.js:7-9 | a dotted string path is split on `.`; otherwise the path is spread, which fails for anything but an array or string |
| ObjectPaths.WalkedThenFinal | library/features/update-object.js:11-12 | a path is the keys walked followed by the popped final key |
| ObjectPaths.Run | library/features/update-object.js:5 | updates apply in list order up to the first that throws; no update leaves the root as it was |
| ObjectPaths.RunSnoc | library/features/update-object.js:5 | one more update is applied to what the earlier ones left |
| ObjectPaths.RunConcat | library/features/update-object.js:5 | later updates see the earlier updates' effects |
| ObjectPaths.RunStopsAtThrow | library/features/update-object.js:5 | after an update throws, later ones are not applied |
| ObjectPaths.RunNext | library/features/update-object.js:5 | a succeeding update extends the run by its result |
| ObjectPaths.ReadPathConcat | library/features/update-object.js:12 | walking `a` then `b` is walking `a + b` |
| ObjectPaths.ReadPathNext | library/features/update-object.js:12 | each key of the walk is one property read; a walk that throws reads no further |
| ObjectPaths.ReadPathOne | library/features/update-object.js:12 | a one-key walk is one property read |
| ObjectPaths.SetPathFails | library/features/update-object.js:12-17 | an update throws exactly when the walk throws or ends at `undefined`/`null`, with the walk's own error |
| ObjectPaths.PrimitiveUnchanged | library/features/update-object.js:14 | a write below a string, number or boolean changes nothing |
| ObjectPaths.SetPathTarget | library/features/update-object.js:12-17 | after an update the container at the end of the walk is the written container |
| ObjectPaths.WriteOffKey | library/features/update-object.js:14-16 | writing one key leaves every other key of the container |
| ObjectPaths.SetPathOffPath | library/features/update-object.js:12-17 | every path that leaves the updated path reads the same before and after |
| ObjectPaths.SetPathReadsBack | library/features/update-object.js:13-17 | an assignment makes the full path read the value; a deletion makes it read `undefined` |
| ObjectPaths.Walk | library/features/update-object.js:12 | the loop reaches exactly the walked container, or the walk's error |
| ObjectPaths.ApplyUpdate | library/features/update-object.js:5-17 | one update, destructured, split into keys, popped, walked and written, is exactly one step of the fold |
| FeatureUpdateObject.UpdateObject | library/features/update-object.js:4-19 | the person becomes the dotted-path fold of the updates, up to the first that throws |
| FeatureUpdateObject.DottedKeys | library/features/update-object.js:7 | a dotted path's keys join back into the path, none holds a dot, and there is a final key |
| FeatureUpdateObject.DotUpdateThrows | library/features/update-object.js:12 | an update throws exactly when walking all but the last key throws or ends at `undefined`/`null` |
| FeatureUpdateObject.DotUpdateAssigns | library/features/update-object.js:13-14 | a defined value is assigned: the dotted path then reads it |
| FeatureUpdateObject.DotUpdateDeletes | library/features/update-object.js:15-17 | `undefined` deletes the final key, so the path reads `undefined` |
| FeatureUpdateObject.DotUpdateOffPath | library/features/update-object.js:12-17 | key paths that leave the dotted path read as before |
| LegacyUpdateObject.UpdateObject | library/functions/update-object.js:4-12 | the person becomes the array-path fold of the updates, up to the first that throws |
| LegacyUpdateObject.StringPathIsCharacters | library/functions/update-object.js:6 | a string path is spread into one key per character, with no dot-splitting |
| LegacyUpdateObject.ArrayPathKeys | library/functions/update-object.js:6 | an array path names its elements; any other non-string path makes the spread throw |
| LegacyUpdateObject.ArrayStep | library/functions/update-object.js:6-10 | an update writes its last key at the end of the walk of the rest |
| LegacyUpdateObject.AssignsEvenUndefined | library/functions/update-object.js:10 | the final key is assigned even `undefined`: it is then present and the path reads the value |
| LegacyUpdateObject.ArrayUpdateThrows | library/functions/update-object.js:9 | an update throws exactly when the walk throws or ends at `undefined`/`null` |
| LegacyUpdateObject.EmptyPathWritesUndefinedKey | library/functions/update-object.js:8-10 | an empty path pops `undefined`, so the root takes the key "undefined" |
| LegacyUpdateObject.ArrayUpdateOffPath | library/functions/update-object.js:9-10 | key paths that leave the update's path read as before |
| Bans.Unexpired | library/server-data/bans.js:34-36 | the saved list is no longer than the data |
| Bans.UnexpiredFilters | library/server-data/bans.js:34-36 | `save` writes exactly the entries with `expires > now` |
| Bans.MaxTimestampIsMax | library/server-data/bans.js:19 | `lastBan` is the greatest timestamp of any entry, and there is none for an empty list |
| Bans.AddKeysMaps | library/server-data/bans.js:25 | the entry's lowercased IPs lead to it, other keys keep their targets |
| Bans.AddIdentitiesMaps | library/server-data/bans.js:26 | nothing throws exactly when every identity is a string; the table then gains exactly the lowercased identities |
| Bans.ReindexThrows | library/server-data/bans.js:23-28 | `recalculate` throws exactly when an unexpired entry lists an `undefined` identity |
| Bans.ReindexIndexes | library/server-data/bans.js:20-28 | without a throw, the tables map exactly the lowercased keys of unexpired entries, each to the last entry listing it |
| Bans.ReindexBounded | library/server-data/bans.js:23-28 | every table target is a position in the list |
| Bans.ReindexStops | library/server-data/bans.js:23-28 | once an entry throws, later entries are not indexed |
| Bans.IndexKeys | library/server-data/bans.js:25 | the loop adds exactly one entry's IPs |
| Bans.IndexIdentities | library/server-data/bans.js:26 | the loop adds one entry's identities, stopping at the first `undefined` one |
| Bans.Bans.constructor | library/server-data/bans.js:11-16 | the registry over the loaded list, with `lastBan` and the tables recalculated |
| Bans.Bans.Recalculate | library/server-data/bans.js:18-29 | `lastBan` is the greatest timestamp, and the tables are the re-indexing of the list, as far as it got before any throw |
| Bans.Bans.Save | library/server-data/bans.js:32-37 | queues a write of exactly the unexpired entries |
| Bans.Bans.Lookup | library/server-data/bans.js:46-49 | the IP is checked first; the identity only when there is no IP ban and the signature is valid for a non-empty identity |
| Bans.Bans.Unban | library/server-data/bans.js:108-112 | with any entry present the filter throws on the undeclared `banEntry` and nothing changes |
| Bans.Bans.GetBan | library/server-data/bans.js:45-57 | `false` when nothing matches; an expired hit goes to `unban`, which throws; otherwise the ban |
| Bans.Bans.Middleware | library/server-data/bans.js:60-89 | a request passes exactly when no ban is found; it throws `unban`'s error exactly when the ban found has expired; otherwise it is refused with 403 and its IP and identity are each added only if not listed, every other field of every ban staying as it was, then re-indexing (with `lastBan` unchanged) and saving only if something was added |
| Bans.Bans.Ban | library/server-data/bans.js:92-105 | appends one entry with `identities [identity]`, `IPs []`, a default reason and `expires = now + duration`, then re-indexes and saves unless that throws |
| Bans.Widened | library/server-data/bans.js:71-79 | the pushed list holds the old elements and the new one, and nothing else |
| Bans.WidenedKeepsDistinct | library/server-data/bans.js:71-79 | widening never introduces a duplicate |
| Bans.NewBanFoundByIdentity | library/server-data/bans.js:45-104 | a new ban is found by its identity for a signed request until it runs out, unless an IP ban answers first |
| Authorities.ListRecord | library/server-data/authorities.js:17 | one listed record: the stored fields, plus `identity` naming the key unless the record has its own |
| Authorities.Authorities.constructor | library/server-data/authorities.js:9-13 | the registry over the loaded object |
| Authorities.Authorities.Credentials | library/server-data/authorities.js:25 | the stored record for a key, `undefined` when absent |
| Authorities.Authorities.List | library/server-data/authorities.js:16-18 | one record per stored key, in order |
| Authorities.Authorities.Get | library/server-data/authorities.js:21-26 | takes a key string or a request's `sig.identity`; throws when the key is missing or empty; otherwise the stored record |
| Authorities.Authorities.Set | library/server-data/authorities.js:29-32 | stores `{role, note, created}` under the key; other keys unchanged |
| Authorities.Authorities.Delete | library/server-data/authorities.js:35-38 | the key reads `undefined`; other keys unchanged |
| Authorities.Authorities.Verify | library/server-data/authorities.js:47-58 | `undefined` unless all four badge fields are present, the timestamp guard passes, the identity matches and the signature holds; then the record registered for the key |
| Authorities.Authorities.VerifyRequest | library/server-data/authorities.js:61-70 | a cached truthy badge is kept; otherwise a request without a valid signed identity and a badge in its body gives `undefined`, and one with them caches what `verify` returns; the result is that badge when no roles are asked, the badge when its `role` is listed and `undefined` when it is not, and a TypeError on `.role` when a role filter meets a badge that did not verify |
| Authorities.FreshBadgeRefused | library/server-data/authorities.js:43-49 | a badge within a minute of the clock is always refused: the guard is inverted relative to its comment |
| Authorities.VerifiedIsRegistered | library/server-data/authorities.js:55-57 | a badge that verifies names a registered key, and the record returned is the one stored under it |
| Authorities.SetRecordListed | library/server-data/authorities.js:16-30 | a record stored by `set` is listed with `identity` equal to its key and its role |
| RouteConfig.RequireSignature | library/server-routes/route-config.js:34 | a request goes on exactly when it carries a valid signature |
| RouteConfig.ListAuthorities | library/server-routes/route-config.js:34-39 | after `requireSignature` (401 for an invalid signature), a verified admin badge gets the authority list; a verified badge of another role, or a request `verifyRequest` does not verify, gets 403; a verification that fails under the admin filter throws a TypeError on `.role`; and a 200 reply only ever goes to an admin |
| RouteConfig.CreateAuthority | library/server-routes/route-config.js:42-48 | a verified admin whose body can be read gets `{ok: true}` and registers the key with the body's role; only an admin ever does, and otherwise nothing changes |
| RouteConfig.DeleteAuthority | library/server-routes/route-config.js:51-57 | a verified admin whose body can be read gets `{ok: true}` and removes the key; only an admin ever does, and otherwise nothing changes |
| RouteConfig.VerifyBadge | library/server-routes/route-config.js:60-67 | after `requireSignature`, `{valid: true, info}` with the record exactly when `verify` returns a truthy record for the signing identity, `{valid: false}` otherwise, a throw when `verify` or the body read throws; `valid: true` implies every guard of `verify` admitted the badge |
| RouteConfig.ListBans | library/server-routes/route-config.js:70-75 | after `requireSignature`, any truthy verified badge, whatever its role, gets the ban list; any other request gets 403 or, when verification throws, that error |
| RouteConfig.CreateBan | library/server-routes/route-config.js:77-87 | no request reaches `bans.ban`: a verified one throws on the undeclared `auth` |
| RouteConfig.DeleteBan | library/server-routes/route-config.js:89-95 | `unban` runs for any verified badge and throws whenever a ban exists |
| Decorations.BaseNameStrips | library/server-routes/route-config.js:22 | only a dot and one of png/jpeg/gif/webp/heif at the end is removed; a name ending in none of them is unchanged |
| Decorations.LabelParts | library/server-routes/route-config.js:23-24 | the name is the text before the first `@`, the resolution the text after it, `1x` when absent or empty |
| Decorations.Filings | library/server-routes/route-config.js:21-24 | one labelled filing per file |
| Decorations.LastLabelled | library/server-routes/route-config.js:25-27 | the last file filed under a label, and none exactly when no file carries it |
| Decorations.FiledLookup | library/server-routes/route-config.js:25-27 | filing a file touches only its own name and, under it, its own resolution |
| Decorations.GroupedNames | library/server-routes/route-config.js:25 | a name is listed exactly when some file carries it |
| Decorations.GroupedFiles | library/server-routes/route-config.js:27 | under each resolution a name holds the last file with that name and resolution: later files overwrite |
| Decorations.AvatarDecorations | library/server-routes/route-config.js:17-31 | the loop builds exactly the grouping of every file |
| Decorations.FileDecoration | library/server-routes/route-config.js:22-27 | one iteration files one more file |
| AuditLogs.KeepFrom | library/server-data/audit-log.js:41-42 | the first non-blank line newer than the cutoff, or the line count when there is none |
| AuditLogs.Trimmed | library/server-data/audit-log.js:41-43 | the lines from the first recent line to the end; everything dropped was blank or old |
| AuditLogs.NothingRecentEmpties | library/server-data/audit-log.js:42-43 | with no recent line, trimming leaves an empty log |
| AuditLogs.TrimmedIdempotent | library/server-data/audit-log.js:41-43 | trimming twice with one cutoff is trimming once |
| AuditLogs.TrimmedKeepsRecent | library/server-data/audit-log.js:43 | every recent line survives, with every line after it whatever its timestamp |
| AuditLogs.TrimmedKeepsAppended | library/server-data/audit-log.js:23-43 | a record newer than the cutoff, appended last, is still last after the trim |
| AuditLogs.AuditLog.constructor | library/server-data/audit-log.js:9-18 | maximum age defaults to thirty days and the log is trimmed at once |
| AuditLogs.AuditLog.Trim | library/server-data/audit-log.js:36-45 | notes the time and keeps the trimmed lines for cutoff `now - maxAge` |
| AuditLogs.AuditLog.Log | library/server-data/audit-log.js:21-33 | appends exactly one record, then trims only when the last trim is more than a day old; the record is last afterwards |
| ViewUtils.Normalized | library/views/view-utils.js:36-38 | a normalised path always begins with `/` |
| ViewUtils.NormalizedCases | library/views/view-utils.js:36-38 | a leading `/build` is removed once when followed by `/`; a relative path gains a `/` |
| ViewUtils.NormalizedOnce | library/views/view-utils.js:36-38 | normalising again changes nothing unless the path was nested in `/build` twice |
| ViewUtils.PathURL | library/views/view-utils.js:34-44 | the URL path always begins with `/` |
| ViewUtils.Version | library/views/view-utils.js:27 | the version is the first eight characters of the digest |
| ViewUtils.DecacheCache.constructor | library/views/view-utils.js:9 | an empty cache |
| ViewUtils.DecacheCache.Decache | library/views/view-utils.js:14-31 | a cached raw path returns its URL; otherwise the normalised path's URL with a digest version, stored under the normalised path in production; a time-based version and no caching in development |
| ViewUtils.RelativeNeverCached | library/views/view-utils.js:16-27 | a path without a leading `/` is never found in the cache, since only normalised paths are stored |
| StyleObjects.LastAssigned | library/features/style-object.js:13-18 | the value of the last entry assigned to a key, and none exactly when no entry was |
| StyleObjects.LookupAssigned | library/features/style-object.js:13-18 | after bulk assignment a key reads the last value assigned to it, or what it read before |
| StyleObjects.ArrayPieces | library/features/style-object.js:25 | `null` elements are removed and no other |
| StyleObjects.Computed | library/features/style-object.js:24-25 | a function is called, an array becomes its joined text, any other value is kept |
| StyleObjects.Declarations | library/features/style-object.js:22-27 | no declaration computes to `null` or `undefined` |
| StyleObjects.DeclarationsConcat | library/features/style-object.js:22-27 | declarations follow property order |
| StyleObjects.DeclarationsMembers | library/features/style-object.js:22-27 | a declaration is emitted for a property exactly when its computed value is neither `null` nor `undefined`, with that value |
| StyleObjects.StyleObject.constructor | library/features/style-object.js:5-9 | the properties of `initial` when given, none otherwise |
| StyleObjects.StyleObject.Set | library/features/style-object.js:12-14 | every key reads the last value assigned to it; other keys are unchanged |
| StyleObjects.StyleObject.SetVariables | library/features/style-object.js:17-19 | the same with each key prefixed by `--` |
| StyleObjects.StyleObject.AssignAll | library/features/style-object.js:13-18 | the loop assigns each entry in order and keeps keys distinct |
| StyleObjects.StyleObject.ToDeclarations | library/features/style-object.js:21-29 | the declarations of the current properties |
| StyleObjects.VariablesArePrefixed | library/features/style-object.js:18 | setting variables never touches a property not starting with `--` |
| PngMaskedJpeg.ImageData.constructor | tools/png-to-masked-jpeg.js:50 | an image over a buffer of exactly four bytes per pixel |
| PngMaskedJpeg.GetPixel | tools/png-to-masked-jpeg.js:59-64 | the view lies within the buffer |
| PngMaskedJpeg.PixelView | tools/png-to-masked-jpeg.js:59-64 | for a pixel inside the image the view is exactly the four bytes from `4*(y*width + x)` |
| PngMaskedJpeg.PixelsDisjoint | tools/png-to-masked-jpeg.js:59-64 | distinct pixels have disjoint views |
| PngMaskedJpeg.PixelsCover | tools/png-to-masked-jpeg.js:59-75 | every byte lies in the view of some pixel |
| PngMaskedJpeg.CloneImageData | tools/png-to-masked-jpeg.js:47-51 | a fresh image of the same size over a fresh copy of the bytes |
| PngMaskedJpeg.Colored | tools/png-to-masked-jpeg.js:79-83 | the colour image has the input's length |
| PngMaskedJpeg.Masked | tools/png-to-masked-jpeg.js:84-90 | the mask has the input's length |
| PngMaskedJpeg.ColoredConcat | tools/png-to-masked-jpeg.js:79-83 | colouring works pixel by pixel |
| PngMaskedJpeg.MaskedConcat | tools/png-to-masked-jpeg.js:84-90 | masking works pixel by pixel |
| PngMaskedJpeg.ColoredPixel | tools/png-to-masked-jpeg.js:79-83 | a colour pixel depends on the same input pixel alone |
| PngMaskedJpeg.MaskedPixel | tools/png-to-masked-jpeg.js:84-90 | a mask pixel depends on the same input pixel alone |
| PngMaskedJpeg.ColoredAt | tools/png-to-masked-jpeg.js:79-83 | alpha 0 gives RGB 0, other pixels keep their RGB, and alpha becomes 255 |
| PngMaskedJpeg.MaskedAt | tools/png-to-masked-jpeg.js:84-90 | R = G = B = the original alpha, and alpha 255 |
| PngMaskedJpeg.OpaqueAlphas | tools/png-to-masked-jpeg.js:88 | a buffer is opaque exactly when every pixel's alpha is 255 |
| PngMaskedJpeg.OutputsOpaque | tools/png-to-masked-jpeg.js:83-90 | both outputs are fully opaque |
| PngMaskedJpeg.OpaqueColoredUnchanged | tools/png-to-masked-jpeg.js:79-83 | an opaque image comes out of colouring unchanged |
| PngMaskedJpeg.SplitPixel | tools/png-to-masked-jpeg.js:76-90 | one pixel of each output is split in place and no other byte changes; the flag rises when that alpha is not 255 |
| PngMaskedJpeg.SplitPixelAt | tools/png-to-masked-jpeg.js:75-91 | one inner iteration extends the split by one pixel |
| PngMaskedJpeg.SplitRow | tools/png-to-masked-jpeg.js:75-91 | the inner loop splits one row |
| PngMaskedJpeg.SplitChannels | tools/png-to-masked-jpeg.js:70-94 | fresh outputs of the input's size holding the colour image and the mask; the flag is set exactly when some alpha is not 255; the input is untouched |
| PngMaskedJpeg.OutputPaths | tools/png-to-masked-jpeg.js:103-104 | a trailing `.png` in any case is replaced by `-color.jpeg` / `-mask.jpeg`; any other path is used unchanged for both |
| PngMaskedJpeg.PngSpellings | tools/png-to-masked-jpeg.js:103-104 | exactly the case spellings of `.png` are replaced |
| PngMaskedJpeg.PngToJpegPair | tools/png-to-masked-jpeg.js:100-110 | the colour JPEG is always written, the mask only when some pixel is not fully opaque |
| Values.Lower | library/server-data/bans.js:25-26 | lower-casing maps each character and keeps the length |
| Values.Member | library/features/update-object.js:12 | a property read throws exactly on `undefined` or `null` |
| Values.Slot | library/features/update-object.js:12 | an index property names a position exactly when it is that position's numeral |
| Values.IntToString | library/views/view-utils.js:29 | a number's text is never empty |
| Values.IndexedKeysAreNumerals | library/server-data/room.js:56 | spreading an array gives numeral keys only |
| Values.IndexedReadsSlots | library/server-data/room.js:56 | spreading an array copies exactly what reading its index properties gives |
| Values.SpreadItems | library/functions/update-object.js:6 | spreading gives an array's elements or a string's characters and fails for anything else |
| Values.Split | library/features/update-object.js:7 | at least one piece, none holding the separator |
| Values.JoinSplit | library/features/update-object.js:7 | joining the pieces with the separator gives back the string |
| Assoc.Lookup | library/server-data/room.js:66 | a read misses exactly when the key is absent |
| Assoc.Keys | library/client-data/room.js:141 | `Object.keys` lists the keys in insertion order |
| Assoc.Values | library/server-data/room.js:31 | `Object.values` lists the values in insertion order |
| Assoc.Remove | library/server-data/room.js:88 | after `delete` the key is absent |
| Assoc.PutKeys | library/server-data/room.js:84 | writing a present key keeps the key order; a new key is appended |
| Assoc.LookupPut | library/server-data/room.js:84 | a write changes only the written key |
| Assoc.LookupRemove | library/server-data/room.js:88 | a deletion changes only the deleted key |
| Assoc.SizeIsKeyCount | library/server-data/room.js:22 | with distinct keys the entry count is `Object.keys(obj).length` |

## Left out

- Express, SSE and HTTP transport are not modelled. This covers response writing, `sse.pipe`, the `Content-Type` header, body parsing and the route table. The handlers' decisions are modelled as replies. The route files' `GET /`, `GET /:roomID/` and `GET /:roomID/text` listings and pages are left out, and so is `GET /:roomID/filmstrips/:identity/:timestamp`, which serves a stored image.
- Timers are ids in explicit maps, not real time. A timer fires when `Fire` is called. `parseDuration` and `pretty-ms` are foreign libraries, so durations are millisecond integers.
- Each route file's timer and filmstrip maps are keyed by (room, identity), not by the person object. The key therefore does not change when a person leaves and rejoins.
- Successive `Date.now()` calls within one operation are read as the same `now`.
- File persistence is not modelled: reading, writing, `PQueue` write queues, JSON parsing of lines. `Bans.Bans.Save` records the list it would write. The audit log's misspelt `parse-duraton` import and its `split` on an unawaited promise are not modelled, and the log is modelled as its lines.
- Signature checks are boolean inputs (`sig.valid`, `sigOk`), because Ed25519 is foreign code. `sigOk` also stands for the case where tweetnacl throws on a signature or key of the wrong length: the model reads that as a failed check rather than a throw. The SHA-256 digest in `decache` is also an input.
- `ViewUtils.PathURL`: does not model URL resolution against the configured site address, which can re-normalise `..` segments.
- The `inline-style` serialiser behind `StyleObject.toString` is not modelled: the model stops at the declarations it is given. A function property is modelled by the value its call returns.
- Each JavaScript object identity that more than one holder shares is modelled as a value that is rebuilt. This covers a person record shared by the log entry and `people`, and a ban object pushed through `getBan`.
- `Values.Member`: reading `length` of an array or a string gives `undefined` rather than the length, so a path walked through `length` throws at the next step where JavaScript would go on to the number.
- `ObjectPaths.Write`: a key that is not an index, written on an array, is dropped. JavaScript stores it as a named property of the array.
- `Bans.Bans.constructor`: a re-indexing that throws while the module loads is dropped, and the tables are kept as far as they got. In JavaScript, loading the module would fail.
- Arrays are modelled without holes. A write past an array's end beyond one slot and writes to `length` are not modelled. A write to a string, number or boolean changes nothing (sloppy mode).
- Inherited prototype keys and the ordering of integer-like keys in objects are not modelled.
- `Values.Lower`: lower-cases ASCII letters only.
- Numbers are integers. Timestamps parsed from strings are not modelled, and neither is `NaN` arithmetic beyond the `lastTrim` and filmstamp cases.
- `readImage`, `writeJPEG`, the JPEG quality (0.95) and the `argv` loop of the image tool are not modelled. Writes are recorded in order. The model never writes a value outside 0-255, so `Uint8ClampedArray` clamping never applies.
- The client's network calls (`join`, `updateAttributes`, `leave`, `text`, `emote`, `dm`, `broadcast`, `getJSON`, `postJSON`, `getRooms`, `getRoom`) and its `EventSource` are not modelled. The `_message_*` handlers are modelled.
- Console output is not modelled. `console.error` on the client appears as an event.
- `RouteRoom.Router.Abort`: the leave timer of the older event-stream handler is never stored, because arming it throws. Its firing therefore has no counterpart.
