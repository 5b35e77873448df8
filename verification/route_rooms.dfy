/** The newer room routes (library/server-routes/route-rooms.js): the stream
    is opened and subscribed before the join, the leave timer checks
    presence and is stored without clearing the previous one, set-attributes
    takes a list of `[path, value]` updates, and filmstrip uploads are
    validated before being kept in memory. */
module RouteRooms {
  import opened Common
  import opened Values
  import Assoc
  import opened SubscriptionLogs
  import opened Rooms
  import opened RouteRoom

  /** The full-state event of this route: unnamed, wrapped as a
      `roomState` message. */
  function WrappedSnapshot(d: StateData): SseEvent {
    Event(None, None, map["messageType" := Str("roomState"), "data" := Obj(StateObject(d))])
  }

  /** The object handed to the stream when the room does not exist. */
  function MissingRoomInfo(): Fields {
    map["uuid" := Num(0), "data" := Obj(map["error" := Str("Specified room doesn't exist")])]
  }

  /** The object handed to the stream when `attributes` is missing. */
  function MissingAttributesInfo(): Fields {
    map["uuid" := Num(0), "error" := Str("attributes property required in query string")]
  }

  /** `updates.map(([path, value]) => [['attributes', ...path], value])`. */
  function PrefixUpdates(updates: seq<Value>): (r: Result<seq<Value>>)
    ensures r.Ok? ==> |r.value| == |updates|
    ensures r.Ok? <==> forall i :: 0 <= i < |updates| ==>
      Destructure(updates[i]).Ok? && SpreadItems(Destructure(updates[i]).value.0).Ok?
    ensures r.Ok? ==> forall i :: 0 <= i < |updates| ==>
      var (path, value) := Destructure(updates[i]).value;
      r.value[i] == Arr([Arr([Str("attributes")] + SpreadItems(path).value), value])
  {
    if updates == [] then Ok([])
    else
      match Destructure(updates[0])
      case Err(m) => Err(m)
      case Ok((path, value)) =>
        match SpreadItems(path)
        case Err(m) => Err(m)
        case Ok(keys) =>
          match PrefixUpdates(updates[1..])
          case Err(m) => Err(m)
          case Ok(rest) => Ok([Arr([Arr([Str("attributes")] + keys), value])] + rest)
  }

  /** As written, the prefixed list goes to `personChange` as its props and
      is spread into keys "0", "1", ...: the change payload never carries
      an `attributes` key, so the person's `attributes` stay as they were. */
  lemma AttributesUntouched(st: RoomState, identity: string, prefixed: seq<Value>, uuid: string, now: int)
    requires Apply(st, Entry(uuid, "personChange", WithIdentity(Arr(prefixed), identity), now)).Ok?
    ensures var e := Entry(uuid, "personChange", WithIdentity(Arr(prefixed), identity), now);
      && Get(e.data, "attributes") == Undefined
      && Assoc.Lookup(st.people, identity).Some?
      && Assoc.Lookup(Apply(st, e).value.people, identity).Some?
      && Get(Assoc.Lookup(Apply(st, e).value.people, identity).value, "attributes")
         == Get(Assoc.Lookup(st.people, identity).value, "attributes")
  {
    var e := Entry(uuid, "personChange", WithIdentity(Arr(prefixed), identity), now);
    IndexedKeysAreNumerals(prefixed);
    assert "attributes"[0] == 'a';
    assert "attributes" !in e.data;
    ChangeAssignsPayload(st, e);
  }

  /** `{ ok: true, filmstamp }` would carry this: `person.joined` is never
      set, so `Date.now() - person.joined` is NaN and its base-36 text is
      "NaN". */
  const Filmstamp: string := "NaN"

  /** The configuration values the filmstrip checks read. */
  datatype FilmstripConfig = FilmstripConfig(maxData: int, size: int, frames: int)

  /** What `image-size` reports, or the error it throws. */
  datatype ImageSize = ImageSize(width: int, height: int, kind: string)

  /** A filmstrip upload as the handler sees it. */
  datatype Upload = Upload(contentType: Option<string>, isBuffer: bool, byteLength: nat, size: Result<ImageSize>)

  /** The upload checks of `/:roomID/filmstrips`, in order: the first one
      that fails decides the reply; `None` when the upload is accepted. */
  function CheckUpload(up: Upload, cfg: FilmstripConfig): Option<Reply> {
    if up.contentType != Some("image/jpeg") then Some(Status(500, ErrorBody("Post body must be a JPEG")))
    else if !up.isBuffer then Some(Status(500, ErrorBody("Image data didn't arrive as a buffer??")))
    else if up.byteLength > cfg.maxData then Some(Status(500, ErrorBody("Image data is too large in bytes")))
    else if up.byteLength < 16 then Some(Status(500, ErrorBody("Image data is too small in bytes")))
    else if up.size.Err? then Some(Threw(up.size.error))
    else if up.size.value.width != cfg.size then Some(Status(500, ErrorBody("Filmstrip width is incorrect")))
    else if up.size.value.height != cfg.size * cfg.frames then Some(Status(500, ErrorBody("Filmstrip height is incorrect")))
    else if up.size.value.kind != "jpg" then Some(Status(500, ErrorBody("File data does not look like JPEG")))
    else None
  }

  /** An upload is accepted exactly when it is a JPEG buffer of 16 to
      `filmstripMaxData` bytes whose image is `filmstripSize` wide and
      `filmstripSize * filmstripFrames` high. */
  lemma UploadAccepted(up: Upload, cfg: FilmstripConfig)
    ensures CheckUpload(up, cfg).None? <==>
      && up.contentType == Some("image/jpeg")
      && up.isBuffer
      && 16 <= up.byteLength <= cfg.maxData
      && up.size.Ok?
      && up.size.value.width == cfg.size
      && up.size.value.height == cfg.size * cfg.frames
      && up.size.value.kind == "jpg"
  {
  }

  /** Subscribe stream `h`, then join the caller if absent; on success the
      events the stream received live meanwhile: the caller's own
      `personJoin` when there was one. */
  method SubscribeAndJoin(room: Room, h: nat, identity: string, attributes: Value, uuid: string, now: int)
    returns (live: Result<seq<SseEvent>>)
    requires room.Valid() && uuid !in room.log.issued && h !in room.log.subscribers
    modifies room, room.log
    ensures room.Valid()
    ensures room.log.subscribers == old(room.log.subscribers) + [h]
    ensures live.Err? <==> JoinRefused(old(room.people), room.maxPeople, identity)
    ensures live.Err? ==> live.error == "Room is full" && unchanged(room) && unchanged(room.log`log, room.log`delivered)
    ensures live.Ok? ==>
      var e := JoinEntry(identity, attributes, uuid, now);
      && JoinedIfAbsent(room, identity, e, old(room.log.subscribers) + [h])
      && live.value == if Assoc.HasKey(old(room.people), identity) then [] else [Forwarded(EntryObject(e))]
  {
    ghost var subs := room.log.subscribers;
    room.log.Subscribe(h);
    var seen := |room.log.delivered|;
    var joined := JoinOnConnect(room, identity, attributes, uuid, now);
    if joined.Err? {
      return Err(joined.error);
    }
    var events := LiveEvents(room.log.delivered[seen..], h, identity);
    if Assoc.HasKey(old(room.people), identity) {
      assert room.log.delivered[seen..] == [];
    } else {
      var e := JoinEntry(identity, attributes, uuid, now);
      assert room.log.delivered[seen..] == Fanout(subs + [h], e, old(room.log.log) + [e]);
      StreamSeesAppend(subs, h, e, old(room.log.log) + [e], identity);
    }
    live := Ok(events);
  }

  /** The module state of route-rooms.js that outlives a request. */
  class Router {
    /** `userTimeouts`: the leave timer last stored for a person. */
    var slot: map<(Room, string), nat>
    /** Timers armed and not yet fired or cleared, with what they act on. */
    var pending: map<nat, (Room, string)>
    /** Streams with an `aborted` listener: handler -> (room, identity). */
    var sessions: map<nat, (Room, string)>
    /** `filmstripsData`: the last accepted upload per person. */
    var filmstrips: map<(Room, string), Upload>
    /** Next fresh handler or timer id; 0 is the rooms' own subscriber. */
    var nextId: nat

    ghost predicate Valid()
      reads this
    {
      && nextId > RoomHandler
      && (forall h :: h in sessions ==> h < nextId)
      && (forall t :: t in pending ==> t < nextId)
    }

    constructor ()
      ensures Valid()
      ensures slot == map[] && pending == map[] && sessions == map[] && filmstrips == map[]
    {
      slot := map[];
      pending := map[];
      sessions := map[];
      filmstrips := map[];
      nextId := RoomHandler + 1;
    }

    /** GET `/:roomID/event-stream` with a valid signature. The retry event
        goes out first; a missing room or `attributes` is reported through
        the stream itself. The stream is subscribed before the join, so a
        new joiner's own `personJoin` reaches it live; a refused join
        answers 429 and leaves that subscription in place. */
    method Connect(room: Room?, identity: string, attributes: Value, lastEventID: Option<string>, uuid: string, now: int)
      returns (reply: Reply)
      requires Valid()
      requires room != null ==> room.Valid() && uuid !in room.log.issued && nextId !in room.log.subscribers
      modifies this, room, if room != null then {room.log} else {}
      ensures Valid()
      ensures room == null ==>
        reply == Stream([Retry] + Emit(MissingRoomInfo(), identity)) && unchanged(this)
      ensures room != null && !Truthy(attributes) ==>
        && reply == Stream([Retry] + Emit(MissingAttributesInfo(), identity))
        && unchanged(this, room, room.log)
      ensures room != null && Truthy(attributes) ==>
        && room.Valid()
        && room.log.subscribers == old(room.log.subscribers) + [old(nextId)]
        && nextId == old(nextId) + 1
      ensures room != null && Truthy(attributes) && JoinRefused(old(room.people), room.maxPeople, identity) ==>
        && reply == Status(429, ErrorBody("Room is full"))
        && unchanged(room)
        && unchanged(room.log`log, room.log`delivered)
        && sessions == old(sessions) && pending == old(pending) && slot == old(slot)
      ensures room != null && Truthy(attributes) && !JoinRefused(old(room.people), room.maxPeople, identity) ==>
        var h := old(nextId);
        var e := JoinEntry(identity, attributes, uuid, now);
        && JoinedIfAbsent(room, identity, e, old(room.log.subscribers) + [h])
        && sessions == old(sessions)[h := (room, identity)]
        && pending == ClearSlot(old(pending), old(slot), (room, identity))
        && slot == old(slot)
        && reply == Stream([Retry]
             + (if Assoc.HasKey(old(room.people), identity) then [] else [Forwarded(EntryObject(e))])
             + CatchUp(room.log.log, lastEventID, identity, WrappedSnapshot(room.GetStateData())))
    {
      if room == null {
        return Stream([Retry] + Emit(MissingRoomInfo(), identity));
      }
      if !Truthy(attributes) {
        return Stream([Retry] + Emit(MissingAttributesInfo(), identity));
      }
      var h := nextId;
      nextId := nextId + 1;
      var live := SubscribeAndJoin(room, h, identity, attributes, uuid, now);
      if live.Err? {
        return Status(429, ErrorBody(live.error));
      }
      var catchUp := Attach(room, h, identity, lastEventID);
      reply := Stream([Retry] + live.value + catchUp);
    }

    /** The rest of a connect once the person is present: register the
        abort listener, clear the person's stored timer, write the
        catch-up. */
    method Attach(room: Room, h: nat, identity: string, lastEventID: Option<string>) returns (events: seq<SseEvent>)
      requires Valid() && room.Valid() && h < nextId
      modifies this`sessions, this`pending
      ensures Valid()
      ensures sessions == old(sessions)[h := (room, identity)]
      ensures pending == ClearSlot(old(pending), slot, (room, identity))
      ensures events == CatchUp(room.log.log, lastEventID, identity, WrappedSnapshot(room.GetStateData()))
    {
      sessions := sessions[h := (room, identity)];
      pending := ClearSlot(pending, slot, (room, identity));
      events := CatchUp(room.log.log, lastEventID, identity, WrappedSnapshot(room.GetStateData()));
    }

    /** The `aborted` event of stream `h`: the handler is unsubscribed and a
        new leave timer is stored for the person. The timer stored before is
        neither cleared nor forgotten: it stays armed. */
    method Abort(h: nat) returns (t: nat)
      requires Valid() && h in sessions
      modifies this, sessions[h].0.log`subscribers
      ensures Valid()
      ensures var (room, identity) := old(sessions[h]);
        && room.log.subscribers == RemoveLast(old(room.log.subscribers), h)
        && t == old(nextId) && t !in old(pending)
        && pending == old(pending)[t := (room, identity)]
        && slot == old(slot)[(room, identity) := t]
        && sessions == old(sessions) - {h}
    {
      var (room, identity) := sessions[h];
      room.log.Unsubscribe(h);
      t := nextId;
      nextId := nextId + 1;
      slot := slot[(room, identity) := t];
      pending := pending[t := (room, identity)];
      sessions := sessions - {h};
    }

    /** A leave timer fires: the person leaves if still present; nothing
        happens, and nothing is thrown, otherwise. */
    method Fire(t: nat, uuid: string, now: int)
      requires Valid() && t in pending
      requires pending[t].0.Valid() && uuid !in pending[t].0.log.issued
      modifies this, pending[t].0, pending[t].0.log
      ensures Valid()
      ensures pending == old(pending) - {t}
      ensures slot == old(slot) && sessions == old(sessions)
      ensures var (room, identity) := old(pending[t]);
        && room.Valid()
        && (Assoc.HasKey(old(room.people), identity) ==>
              && room.State() == Apply(old(room.State()), Entry(uuid, "personLeave", map["identity" := Str(identity)], now)).value
              && !Assoc.HasKey(room.people, identity))
        && (!Assoc.HasKey(old(room.people), identity) ==> unchanged(room, room.log))
    {
      var (room, identity) := pending[t];
      pending := pending - {t};
      if room.GetPerson(identity).Some? {
        ghost var st := room.State();
        var r := room.PersonLeave(identity, uuid, now);
        LeaveRemovesOnly(st, r.value);
      }
    }

    /** POST `/:roomID/filmstrips`: room, presence, the upload checks; an
        accepted upload is stored and a `personChange` appended, after which
        the handler throws calling `req.send`. */
    method Filmstrip(room: Room?, identity: string, up: Upload, cfg: FilmstripConfig, uuid: string, now: int)
      returns (reply: Reply)
      requires room != null ==> room.Valid() && uuid !in room.log.issued
      modifies this, room, if room != null then {room.log} else {}
      ensures room != null ==> room.Valid()
      ensures room == null ==> reply == Status(500, ErrorBody("Specified room doesn't exist")) && unchanged(this)
      ensures room != null && !Assoc.HasKey(old(room.people), identity) ==>
        && reply == Status(500, ErrorBody("You are not in this room, you can't publish a filmstrip yet"))
        && unchanged(this, room, room.log)
      ensures room != null && Assoc.HasKey(old(room.people), identity) && CheckUpload(up, cfg).Some? ==>
        reply == CheckUpload(up, cfg).value && unchanged(this, room, room.log)
      ensures room != null && Assoc.HasKey(old(room.people), identity) && CheckUpload(up, cfg).None? ==>
        var e := Entry(uuid, "personChange", WithIdentity(Arr([Arr([Str("filmstamp")]), Str(Filmstamp)]), identity), now);
        && filmstrips == old(filmstrips)[(room, identity) := up]
        && sessions == old(sessions) && slot == old(slot) && pending == old(pending) && nextId == old(nextId)
        && room.log.AppendedOnce(e)
        && room.State() == Apply(old(room.State()), e).value
        && reply == Threw("TypeError: req.send is not a function")
    {
      if room == null {
        return Status(500, ErrorBody("Specified room doesn't exist"));
      }
      var person := room.GetPerson(identity);
      if person.None? {
        return Status(500, ErrorBody("You are not in this room, you can't publish a filmstrip yet"));
      }
      var refused := CheckUpload(up, cfg);
      if refused.Some? {
        return refused.value;
      }
      filmstrips := filmstrips[(room, identity) := up];
      assert Get(person.value, "identity") == Str(identity) by {
        Assoc.LookupFound(room.people, identity);
        var i :| 0 <= i < |room.people| && room.people[i] == (identity, person.value);
      }
      var personIdentity := Get(person.value, "identity").s;
      var r := room.PersonChange(personIdentity, Arr([Arr([Str("filmstamp")]), Str(Filmstamp)]), uuid, now);
      reply := Threw("TypeError: req.send is not a function");
    }
  }

  /** POST `/:roomID/leave`: room, then `leave: true`, then `personLeave`. */
  method Leave(room: Room?, body: Value, identity: string, uuid: string, now: int) returns (reply: Reply)
    requires room != null ==> room.Valid() && uuid !in room.log.issued
    modifies room, if room != null then {room.log} else {}
    ensures room != null ==> room.Valid()
    ensures room == null ==> reply == Status(500, ErrorBody("Specified room doesn't exist"))
    ensures room != null && LeaveRefusal(body).Some? ==> reply == LeaveRefusal(body).value
    ensures room != null && LeaveRefusal(body).None? && Assoc.HasKey(old(room.people), identity) ==>
      && reply == Status(200, OkBody())
      && room.State() == Apply(old(room.State()), Entry(uuid, "personLeave", map["identity" := Str(identity)], now)).value
    ensures room != null && LeaveRefusal(body).None? && !Assoc.HasKey(old(room.people), identity) ==>
      reply == Status(500, ErrorBody("You aren't in this room."))
    ensures reply != Status(200, OkBody()) ==> room == null || unchanged(room, room.log)
  {
    if room == null {
      return Status(500, ErrorBody("Specified room doesn't exist"));
    }
    var refusal := LeaveRefusal(body);
    if refusal.Some? {
      return refusal.value;
    }
    var r := room.PersonLeave(identity, uuid, now);
    if r.Err? {
      return Status(500, ErrorBody(r.error));
    }
    reply := Status(200, OkBody());
  }

  /** What `/:roomID/set-attributes` makes of its body once the person is
      found: reading `updates` off a missing body throws, a non-array is
      refused, an update that cannot be destructured throws; otherwise the
      prefixed updates. */
  function UpdatesRequest(body: Value): (r: Result<seq<Value>>)
    ensures Member(body, "updates").Err? ==> r == Err(Member(body, "updates").error)
    ensures Member(body, "updates").Ok? && !Member(body, "updates").value.Arr? ==>
      r == Err("updates property in body must be array")
    ensures Member(body, "updates").Ok? && Member(body, "updates").value.Arr? ==>
      r == PrefixUpdates(Member(body, "updates").value.items)
  {
    var updates := Member(body, "updates");
    if updates.Err? then Err(updates.error)
    else if !updates.value.Arr? then Err("updates property in body must be array")
    else PrefixUpdates(updates.value.items)
  }

  /** The reply for a body `UpdatesRequest` rejects: a 500 for a non-array,
      the thrown error otherwise. */
  function UpdatesRefusal(body: Value): Reply
    requires UpdatesRequest(body).Err?
  {
    var updates := Member(body, "updates");
    if updates.Ok? && !updates.value.Arr? then Status(500, ErrorBody("updates property in body must be array"))
    else Threw(UpdatesRequest(body).error)
  }

  /** POST `/:roomID/set-attributes`: room, presence, an `updates` array;
      the prefixed updates become one `personChange`. */
  method SetAttributes(room: Room?, body: Value, identity: string, uuid: string, now: int) returns (reply: Reply)
    requires room != null ==> room.Valid() && uuid !in room.log.issued
    modifies room, if room != null then {room.log} else {}
    ensures room != null ==> room.Valid()
    ensures room == null ==> reply == Status(500, ErrorBody("Specified room doesn't exist"))
    ensures room != null && !Assoc.HasKey(old(room.people), identity) ==>
      reply == Status(500, ErrorBody("User is not in room, cannot update"))
    ensures room != null && Assoc.HasKey(old(room.people), identity) && UpdatesRequest(body).Err? ==>
      reply == UpdatesRefusal(body)
    ensures room != null && Assoc.HasKey(old(room.people), identity) && UpdatesRequest(body).Ok? ==>
      var e := Entry(uuid, "personChange", WithIdentity(Arr(UpdatesRequest(body).value), identity), now);
      && reply == Status(200, OkBody())
      && Apply(old(room.State()), e).Ok?
      && room.State() == Apply(old(room.State()), e).value
      && Assoc.Lookup(room.people, identity).Some?
      && Assoc.Lookup(old(room.people), identity).Some?
      && Get(Assoc.Lookup(room.people, identity).value, "attributes")
         == Get(Assoc.Lookup(old(room.people), identity).value, "attributes")
    ensures reply != Status(200, OkBody()) ==> room == null || unchanged(room, room.log)
  {
    if room == null {
      return Status(500, ErrorBody("Specified room doesn't exist"));
    }
    if room.GetPerson(identity).None? {
      return Status(500, ErrorBody("User is not in room, cannot update"));
    }
    var request := UpdatesRequest(body);
    if request.Err? {
      return UpdatesRefusal(body);
    }
    reply := ChangeAttributes(room, identity, request.value, uuid, now);
  }

  /** The `personChange` that carries the prefixed updates as its props. */
  method ChangeAttributes(room: Room, identity: string, prefixed: seq<Value>, uuid: string, now: int) returns (reply: Reply)
    requires room.Valid() && uuid !in room.log.issued && Assoc.HasKey(room.people, identity)
    modifies room, room.log
    ensures room.Valid()
    ensures var e := Entry(uuid, "personChange", WithIdentity(Arr(prefixed), identity), now);
      && reply == Status(200, OkBody())
      && Apply(old(room.State()), e).Ok?
      && room.State() == Apply(old(room.State()), e).value
      && Assoc.Lookup(room.people, identity).Some?
      && Assoc.Lookup(old(room.people), identity).Some?
      && Get(Assoc.Lookup(room.people, identity).value, "attributes")
         == Get(Assoc.Lookup(old(room.people), identity).value, "attributes")
  {
    ghost var st := room.State();
    var r := room.PersonChange(identity, Arr(prefixed), uuid, now);
    AttributesUntouched(st, identity, prefixed, uuid, now);
    reply := Status(200, OkBody());
  }

  /** POST `/:roomID/send`: room, presence, then the whole body becomes one
      `message` entry. */
  method Send(room: Room?, body: Value, identity: string, uuid: string, now: int) returns (reply: Reply)
    requires room != null ==> room.Valid() && uuid !in room.log.issued
    modifies room, if room != null then {room.log} else {}
    ensures room != null ==> room.Valid()
    ensures room == null ==> reply == Status(500, ErrorBody("Specified room doesn't exist"))
    ensures room != null && !Assoc.HasKey(old(room.people), identity) ==>
      reply == Status(500, ErrorBody("User is not in room, cannot send message")) && unchanged(room, room.log)
    ensures room != null && Assoc.HasKey(old(room.people), identity) ==>
      && reply == Status(200, OkBody())
      && room.State() == old(room.State())
      && room.log.AppendedOnce(Entry(uuid, "message", WithIdentity(body, identity), now))
  {
    if room == null {
      return Status(500, ErrorBody("Specified room doesn't exist"));
    }
    if room.GetPerson(identity).None? {
      return Status(500, ErrorBody("User is not in room, cannot send message"));
    }
    var e := room.Send(identity, body, uuid, now);
    reply := Status(200, OkBody());
  }
}
