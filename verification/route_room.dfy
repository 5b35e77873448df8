/** The `/rooms` routes mounted by index.js (library/server-routes/route-room.js):
    the event-stream handler with its forward filter, join-on-connect,
    catch-up and leave timer, and the leave, set-attributes and send guards.
    A handler's answer is a `Reply`; the SSE events it writes while it runs
    are listed in order. Log entries reach an open stream later through the
    room log's subscriber calls (`SubscriptionLog.delivered`). */
module RouteRoom {
  import opened Common
  import opened Values
  import Assoc
  import opened SubscriptionLogs
  import opened Rooms

  /** One server-sent event: the reconnect interval, or an event with an
      optional `id`, an optional `event` name and a JSON `data` payload. */
  datatype SseEvent = Retry | Event(id: Option<Value>, name: Option<string>, data: Fields)

  /** What a route handler does with its response: a status and JSON body,
      an open event stream, nothing at all, or an exception it throws. */
  datatype Reply = Status(code: nat, body: Value) | Stream(events: seq<SseEvent>) | Silent | Threw(message: string)

  /** A log entry as the object subscribers receive. */
  function EntryObject(e: Entry): Fields {
    map["uuid" := Str(e.uuid), "messageType" := Str(e.messageType), "data" := Obj(e.data), "timestamp" := Num(e.timestamp)]
  }

  /** `getStateData()` as a JSON object. */
  function StateObject(d: StateData): Fields {
    map["roomID" := d.roomID, "architecture" := d.architecture, "maxPeople" := Num(d.maxPeople),
        "people" := Arr(seq(|d.people|, i requires 0 <= i < |d.people| => Obj(d.people[i])))]
  }

  /** The forward filter of an event-stream handler:
      `!info.to || info.to == identity`, read on the object handed over. */
  predicate Forward(info: Fields, identity: string) {
    var to := Get(info, "to");
    !Truthy(to) || LooseEqStr(to, identity)
  }

  /** `sse.event({ id: info.uuid, data: JSON.stringify(info) })`. */
  function Forwarded(info: Fields): SseEvent {
    Event(Some(Get(info, "uuid")), None, info)
  }

  /** What a stream's append handler writes for the object it is given. */
  function Emit(info: Fields, identity: string): (events: seq<SseEvent>)
    ensures events == [] || events == [Forwarded(info)]
  {
    if Forward(info, identity) then [Forwarded(info)] else []
  }

  /** What `entries.forEach(handler)` writes to one stream. */
  function Replay(entries: seq<Entry>, identity: string): (events: seq<SseEvent>)
    ensures |events| <= |entries|
  {
    if entries == [] then [] else Emit(EntryObject(entries[0]), identity) + Replay(entries[1..], identity)
  }

  /** What the append handler `h` writes for the subscriber calls `ds`:
      only the calls made to `h` itself. */
  function LiveEvents(ds: seq<Delivery>, h: nat, identity: string): seq<SseEvent> {
    if ds == [] then []
    else (if ds[0].handler == h then Emit(EntryObject(ds[0].entry), identity) else []) + LiveEvents(ds[1..], h, identity)
  }

  /** The full-state event of this route: named `roomState`. */
  function Snapshot(d: StateData): SseEvent {
    Event(None, Some("roomState"), StateObject(d))
  }

  /** The catch-up decision: a truthy `Last-Event-ID` the log still holds
      replays `since(id)` through the filter; anything else gets the one
      snapshot event. */
  function CatchUp(log: seq<Entry>, lastEventID: Option<string>, identity: string, snapshot: SseEvent): seq<SseEvent> {
    if lastEventID.Some? && lastEventID.value != "" && Has(log, lastEventID.value) then
      Replay(Since(log, lastEventID.value).value, identity)
    else
      [snapshot]
  }

  /** The filter withholds an object whose top-level `to` is a non-empty
      string naming someone else, and passes one addressed to the caller
      or carrying no truthy `to`. */
  lemma ForwardMeaning(info: Fields, identity: string)
    ensures !Truthy(Get(info, "to")) ==> Forward(info, identity)
    ensures Get(info, "to") == Str(identity) ==> Forward(info, identity)
    ensures forall t :: Get(info, "to") == Str(t) && t != "" && t != identity ==> !Forward(info, identity)
  {
  }

  /** As written the filter reads `to` on the log entry, whose payload sits
      under `data`: every entry passes, a direct message addressed to
      someone else included. */
  lemma EveryEntryForwarded(e: Entry, identity: string)
    ensures Forward(EntryObject(e), identity)
    ensures Emit(EntryObject(e), identity) == [Forwarded(EntryObject(e))]
  {
    assert "to" !in EntryObject(e);
  }

  /** Replaying a run of entries writes one event per entry, in log order. */
  lemma {:induction false} ReplayAll(entries: seq<Entry>, identity: string)
    ensures |Replay(entries, identity)| == |entries|
    ensures forall j :: 0 <= j < |entries| ==> Replay(entries, identity)[j] == Forwarded(EntryObject(entries[j]))
  {
    if entries != [] {
      EveryEntryForwarded(entries[0], identity);
      ReplayAll(entries[1..], identity);
    }
  }

  /** A client reconnecting with the id of the entry at position i gets
      exactly the entries after it, in order: no gap and no repeat. */
  lemma CatchUpFromCursor(log: seq<Entry>, i: nat, identity: string, snapshot: SseEvent)
    requires UniqueIds(log) && i < |log| && log[i].uuid != ""
    ensures var events := CatchUp(log, Some(log[i].uuid), identity, snapshot);
      && |events| == |log| - i - 1
      && forall j :: 0 <= j < |events| ==> events[j] == Forwarded(EntryObject(log[i + 1 + j]))
  {
    SinceAfter(log, i);
    ReplayAll(log[i + 1..], identity);
  }

  /** Without a usable cursor (absent, empty, or no longer in the log) the
      client gets exactly one snapshot. */
  lemma CatchUpWithoutCursor(log: seq<Entry>, lastEventID: Option<string>, identity: string, snapshot: SseEvent)
    requires lastEventID.None? || lastEventID.value == "" || forall j :: 0 <= j < |log| ==> log[j].uuid != lastEventID.value
    ensures CatchUp(log, lastEventID, identity, snapshot) == [snapshot]
  {
  }

  /** A stream subscribed after the subscribers `subs` sees an append
      exactly once, through its own handler. */
  lemma {:induction false} StreamSeesAppend(subs: seq<nat>, h: nat, e: Entry, logThen: seq<Entry>, identity: string)
    requires h !in subs
    ensures LiveEvents(Fanout(subs + [h], e, logThen), h, identity) == [Forwarded(EntryObject(e))]
  {
    EveryEntryForwarded(e, identity);
    if subs == [] {
      assert Fanout([h], e, logThen) == [Delivery(h, e, logThen)];
    } else {
      assert Fanout(subs + [h], e, logThen)[1..] == Fanout(subs[1..] + [h], e, logThen);
      StreamSeesAppend(subs[1..], h, e, logThen, identity);
    }
  }

  /** `clearTimeout(userTimeouts.get(key))`. */
  function ClearSlot(pending: map<nat, (Room, string)>, slot: map<(Room, string), nat>, key: (Room, string)): map<nat, (Room, string)> {
    if key in slot then pending - {slot[key]} else pending
  }

  /** The entry a join-on-connect appends: `{ attributes }` from the query
      string, tagged with the caller's identity. */
  function JoinEntry(identity: string, attributes: Value, uuid: string, now: int): Entry {
    Entry(uuid, "personJoin", WithIdentity(Obj(map["attributes" := attributes]), identity), now)
  }

  /** The caller is absent and the room is full: the join throws. */
  predicate JoinRefused(people: People, maxPeople: nat, identity: string) {
    !Assoc.HasKey(people, identity) && |people| >= maxPeople
  }

  /** The room and its log after a join attempted only for an absent
      person: one entry appended, handed to the subscribers `subs` and
      folded, or nothing at all. */
  twostate predicate JoinedIfAbsent(room: Room, identity: string, e: Entry, subs: seq<nat>)
    reads room, room.log
  {
    if !Assoc.HasKey(old(room.people), identity) then
      && Apply(old(room.State()), e).Ok?
      && room.State() == Apply(old(room.State()), e).value
      && room.log.log == Collect(old(room.log.log) + [e], e.timestamp - room.log.expire)
      && room.log.delivered == old(room.log.delivered) + Fanout(subs, e, old(room.log.log) + [e])
    else
      && room.State() == old(room.State())
      && room.log.log == old(room.log.log)
      && room.log.delivered == old(room.log.delivered)
  }

  /** `if (!room.getPerson(identity)) room.personJoin(identity, { attributes })`,
      with the thrown "Room is full" as `Err`. */
  method JoinOnConnect(room: Room, identity: string, attributes: Value, uuid: string, now: int) returns (r: Result<()>)
    requires room.Valid() && uuid !in room.log.issued
    modifies room, room.log
    ensures room.Valid()
    ensures r.Err? <==> JoinRefused(old(room.people), room.maxPeople, identity)
    ensures r.Err? ==> r.error == "Room is full" && unchanged(room, room.log)
    ensures r.Ok? ==> JoinedIfAbsent(room, identity, JoinEntry(identity, attributes, uuid, now), old(room.log.subscribers))
    ensures room.log.subscribers == old(room.log.subscribers)
  {
    r := Ok(());
    if room.GetPerson(identity).None? {
      var joined := room.PersonJoin(identity, Obj(map["attributes" := attributes]), uuid, now);
      if joined.Err? {
        r := Err(joined.error);
      }
    }
  }

  /** The module state of route-room.js that outlives a request: the
      `userTimeouts` slots, the armed timers and the open event streams. */
  class Router {
    /** `userTimeouts`: the leave timer last stored for a person. */
    var slot: map<(Room, string), nat>
    /** Timers armed and not yet fired or cleared, with what they act on. */
    var pending: map<nat, (Room, string)>
    /** Open event streams: subscriber handler -> (room, identity). */
    var sessions: map<nat, (Room, string)>
    /** Next fresh handler or timer id; 0 is the rooms' own subscriber. */
    var nextId: nat

    ghost predicate Valid()
      reads this
    {
      && nextId > RoomHandler
      && (forall h :: h in sessions ==> h < nextId)
      && (forall t :: t in pending ==> t < nextId)
    }

    constructor ()
      ensures Valid()
      ensures slot == map[] && pending == map[] && sessions == map[]
    {
      slot := map[];
      pending := map[];
      sessions := map[];
      nextId := RoomHandler + 1;
    }

    /** GET `/:roomID/event-stream` with a valid signature. `room` is
        `rooms[roomID]` (null when unknown); `uuid` and `now` are used by
        the join if there is one. The join comes first, then the person's
        stored timer is cleared, the catch-up is written, and only then is
        the stream subscribed to live appends. */
    method Connect(room: Room?, identity: string, attributes: Value, lastEventID: Option<string>, uuid: string, now: int)
      returns (reply: Reply)
      requires Valid()
      requires room != null ==> room.Valid() && uuid !in room.log.issued
      modifies this, room, if room != null then {room.log} else {}
      ensures Valid()
      ensures room == null ==>
        reply == Status(404, ErrorBody("specified room does not exist")) && unchanged(this)
      ensures room != null && !Truthy(attributes) ==>
        && reply == Status(500, ErrorBody("attributes property required in query string"))
        && unchanged(this, room, room.log)
      ensures room != null && Truthy(attributes) && JoinRefused(old(room.people), room.maxPeople, identity) ==>
        reply == Status(429, ErrorBody("Room is full")) && unchanged(this, room, room.log)
      ensures room != null && Truthy(attributes) && !JoinRefused(old(room.people), room.maxPeople, identity) ==>
        var h := old(nextId);
        && room.Valid()
        && JoinedIfAbsent(room, identity, JoinEntry(identity, attributes, uuid, now), old(room.log.subscribers))
        && room.log.subscribers == old(room.log.subscribers) + [h]
        && sessions == old(sessions)[h := (room, identity)]
        && pending == ClearSlot(old(pending), old(slot), (room, identity))
        && slot == old(slot)
        && reply == Stream([Retry] + CatchUp(room.log.log, lastEventID, identity, Snapshot(room.GetStateData())))
    {
      if room == null {
        return Status(404, ErrorBody("specified room does not exist"));
      }
      if !Truthy(attributes) {
        return Status(500, ErrorBody("attributes property required in query string"));
      }
      var joined := JoinOnConnect(room, identity, attributes, uuid, now);
      if joined.Err? {
        return Status(429, ErrorBody(joined.error));
      }
      reply := Attach(room, identity, lastEventID);
    }

    /** The rest of a connect once the person is present: clear their stored
        timer, write the catch-up, subscribe the new stream. */
    method Attach(room: Room, identity: string, lastEventID: Option<string>) returns (reply: Reply)
      requires Valid() && room.Valid()
      modifies this, room.log`subscribers
      ensures Valid() && room.Valid()
      ensures unchanged(room.log`log, room.log`delivered)
      ensures room.log.subscribers == old(room.log.subscribers) + [old(nextId)]
      ensures sessions == old(sessions)[old(nextId) := (room, identity)]
      ensures pending == ClearSlot(old(pending), old(slot), (room, identity))
      ensures slot == old(slot)
      ensures reply == Stream([Retry] + CatchUp(room.log.log, lastEventID, identity, Snapshot(room.GetStateData())))
    {
      pending := ClearSlot(pending, slot, (room, identity));
      var events := [Retry] + CatchUp(room.log.log, lastEventID, identity, Snapshot(room.GetStateData()));
      var h := nextId;
      nextId := nextId + 1;
      room.log.Subscribe(h);
      sessions := sessions[h := (room, identity)];
      reply := Stream(events);
    }

    /** The `aborted` event of stream `h`: the handler is unsubscribed and
        the person's stored timer cleared; arming the new timer then calls
        `parseDuration`, which this file never imports, so the listener
        throws a ReferenceError and no timer is stored. */
    method Abort(h: nat) returns (thrown: string)
      requires Valid() && h in sessions
      modifies this, sessions[h].0.log
      ensures Valid()
      ensures var (room, identity) := old(sessions[h]);
        && room.log.subscribers == RemoveLast(old(room.log.subscribers), h)
        && unchanged(room.log`log, room.log`delivered)
        && pending == ClearSlot(old(pending), old(slot), (room, identity))
        && slot == old(slot)
        && sessions == old(sessions) - {h}
      ensures thrown == "ReferenceError: parseDuration is not defined"
    {
      var (room, identity) := sessions[h];
      room.log.Unsubscribe(h);
      pending := ClearSlot(pending, slot, (room, identity));
      sessions := sessions - {h};
      thrown := "ReferenceError: parseDuration is not defined";
    }
  }

  /** The reply `/:roomID/leave` gives before it touches the room: reading
      `leave` off a missing body throws, and anything but `leave: true` is
      refused. `None` when the request goes on to the room. */
  function LeaveRefusal(body: Value): (r: Option<Reply>)
    ensures r.None? <==> Member(body, "leave") == Ok(Bool(true))
    ensures Member(body, "leave").Err? ==> r == Some(Threw(Member(body, "leave").error))
    ensures Member(body, "leave").Ok? && Member(body, "leave").value != Bool(true) ==>
      r == Some(Status(500, ErrorBody("Request body must include { leave: true } property")))
  {
    var leave := Member(body, "leave");
    if leave.Err? then Some(Threw(leave.error))
    else if leave.value != Bool(true) then Some(Status(500, ErrorBody("Request body must include { leave: true } property")))
    else None
  }

  /** GET `/:roomID/leave`: the body must hold `leave: true`; the room is not
      looked up before it is used, so a missing room fails inside the
      `try` and is answered with a 500 carrying the TypeError's message. */
  method Leave(room: Room?, body: Value, identity: string, uuid: string, now: int) returns (reply: Reply)
    requires room != null ==> room.Valid() && uuid !in room.log.issued
    modifies room, if room != null then {room.log} else {}
    ensures room != null ==> room.Valid()
    ensures LeaveRefusal(body).Some? ==> reply == LeaveRefusal(body).value
    ensures LeaveRefusal(body).None? && room == null ==>
      reply == Status(500, ErrorBody("Cannot read properties of undefined (reading 'personLeave')"))
    ensures LeaveRefusal(body).None? && room != null && Assoc.HasKey(old(room.people), identity) ==>
      && reply == Status(200, OkBody())
      && room.State() == Apply(old(room.State()), Entry(uuid, "personLeave", map["identity" := Str(identity)], now)).value
    ensures LeaveRefusal(body).None? && room != null && !Assoc.HasKey(old(room.people), identity) ==>
      reply == Status(500, ErrorBody("You aren't in this room."))
    ensures reply != Status(200, OkBody()) ==> room == null || unchanged(room, room.log)
  {
    var refusal := LeaveRefusal(body);
    if refusal.Some? {
      return refusal.value;
    }
    if room == null {
      return Status(500, ErrorBody("Cannot read properties of undefined (reading 'personLeave')"));
    }
    var r := room.PersonLeave(identity, uuid, now);
    if r.Err? {
      return Status(500, ErrorBody(r.error));
    }
    reply := Status(200, OkBody());
  }

  /** What `/:roomID/set-attributes` makes of its body once the person is
      found: reading `attributes` off a missing body throws, a falsy value
      is refused with a 500; otherwise the attributes to store. */
  function AttributesRequest(body: Value): (r: Result<Value>)
    ensures Member(body, "attributes").Err? ==> r == Member(body, "attributes")
    ensures Member(body, "attributes").Ok? && !Truthy(Member(body, "attributes").value) ==>
      r == Err("attributes property in body is not optional")
    ensures r.Ok? <==> Member(body, "attributes").Ok? && Truthy(Member(body, "attributes").value)
    ensures r.Ok? ==> r == Member(body, "attributes")
  {
    var attributes := Member(body, "attributes");
    if attributes.Err? then attributes
    else if !Truthy(attributes.value) then Err("attributes property in body is not optional")
    else attributes
  }

  /** The reply for a body `AttributesRequest` rejects. */
  function AttributesRefusal(body: Value): Reply
    requires AttributesRequest(body).Err?
  {
    if Member(body, "attributes").Err? then Threw(Member(body, "attributes").error)
    else Status(500, ErrorBody(AttributesRequest(body).error))
  }

  /** GET `/:roomID/set-attributes`: presence, then a truthy
      `body.attributes`, then one `personChange` carrying them. */
  method SetAttributes(room: Room?, body: Value, identity: string, uuid: string, now: int) returns (reply: Reply)
    requires room != null ==> room.Valid() && uuid !in room.log.issued
    modifies room, if room != null then {room.log} else {}
    ensures room != null ==> room.Valid()
    ensures room == null ==> reply == Threw("TypeError: Cannot read properties of undefined (reading 'getPerson')")
    ensures room != null && !Assoc.HasKey(old(room.people), identity) ==>
      reply == Status(500, ErrorBody("User is not in room, cannot update"))
    ensures room != null && Assoc.HasKey(old(room.people), identity) && AttributesRequest(body).Err? ==>
      reply == AttributesRefusal(body)
    ensures room != null && Assoc.HasKey(old(room.people), identity) && AttributesRequest(body).Ok? ==>
      var attributes := AttributesRequest(body).value;
      var e := Entry(uuid, "personChange", WithIdentity(Obj(map["attributes" := attributes]), identity), now);
      && reply == Status(200, OkBody())
      && Apply(old(room.State()), e).Ok?
      && room.State() == Apply(old(room.State()), e).value
      && Assoc.Lookup(room.people, identity).Some?
      && Get(Assoc.Lookup(room.people, identity).value, "attributes") == attributes
    ensures reply != Status(200, OkBody()) ==> room == null || unchanged(room, room.log)
  {
    if room == null {
      return Threw("TypeError: Cannot read properties of undefined (reading 'getPerson')");
    }
    if room.GetPerson(identity).None? {
      return Status(500, ErrorBody("User is not in room, cannot update"));
    }
    var attributes := AttributesRequest(body);
    if attributes.Err? {
      return AttributesRefusal(body);
    }
    reply := StoreAttributes(room, identity, attributes.value, uuid, now);
  }

  /** The `personChange` that stores `{ attributes }` on a present person. */
  method StoreAttributes(room: Room, identity: string, attributes: Value, uuid: string, now: int) returns (reply: Reply)
    requires room.Valid() && uuid !in room.log.issued && Assoc.HasKey(room.people, identity)
    modifies room, room.log
    ensures room.Valid()
    ensures var e := Entry(uuid, "personChange", WithIdentity(Obj(map["attributes" := attributes]), identity), now);
      && reply == Status(200, OkBody())
      && Apply(old(room.State()), e).Ok?
      && room.State() == Apply(old(room.State()), e).value
      && Assoc.Lookup(room.people, identity).Some?
      && Get(Assoc.Lookup(room.people, identity).value, "attributes") == attributes
  {
    var props := Obj(map["attributes" := attributes]);
    ghost var st := room.State();
    var r := room.PersonChange(identity, props, uuid, now);
    assert "attributes" in r.value.data && r.value.data["attributes"] == attributes;
    ChangeAssignsPayload(st, r.value);
    reply := Status(200, OkBody());
  }

  /** GET `/:roomID/send`: presence, then one `message` entry built from
      `body.message`; the handler never answers. */
  method Send(room: Room?, body: Value, identity: string, uuid: string, now: int) returns (reply: Reply)
    requires room != null ==> room.Valid() && uuid !in room.log.issued
    modifies room, if room != null then {room.log} else {}
    ensures room != null ==> room.Valid()
    ensures room == null ==> reply == Threw("TypeError: Cannot read properties of undefined (reading 'getPerson')")
    ensures room != null && !Assoc.HasKey(old(room.people), identity) ==>
      reply == Status(500, ErrorBody("User is not in room, cannot send message")) && unchanged(room, room.log)
    ensures room != null && Assoc.HasKey(old(room.people), identity) && Member(body, "message").Err? ==>
      reply == Threw(Member(body, "message").error) && unchanged(room, room.log)
    ensures room != null && Assoc.HasKey(old(room.people), identity) && Member(body, "message").Ok? ==>
      && reply == Silent
      && room.State() == old(room.State())
      && room.log.AppendedOnce(Entry(uuid, "message", WithIdentity(Member(body, "message").value, identity), now))
  {
    if room == null {
      return Threw("TypeError: Cannot read properties of undefined (reading 'getPerson')");
    }
    if room.GetPerson(identity).None? {
      return Status(500, ErrorBody("User is not in room, cannot send message"));
    }
    var message := Member(body, "message");
    if message.Err? {
      return Threw(message.error);
    }
    var e := room.Send(identity, message.value, uuid, now);
    reply := Silent;
  }
}
