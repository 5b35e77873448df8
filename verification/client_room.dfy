/** The browser-side mirror of a room (library/client-data/room.js,
    `RoomClient`): the `_message_*` handlers fold the entries the event
    stream delivers into a local `people` object and emit events for the
    views. A `roomState` snapshot reconciles the whole list. */
module ClientRoom {
  import opened Common
  import opened Values
  import Assoc
  import opened SubscriptionLogs
  import opened Rooms

  /** The events a `RoomClient` emits, with the record or message passed. */
  datatype ClientEvent =
    | PersonJoined(person: Fields)
    | PersonLeft(left: Option<Fields>)
    | PersonChanged(person: Fields)
    | PeopleChange
    | Reloaded
    | Dm(message: Fields)
    | Broadcast(message: Fields)
    | Text(message: Fields)
    | Emote(message: Fields)
    | Signal(message: Fields)
    | ConsoleError(text: string)

  /** `obj[x.identity]`: the key a record is filed under. */
  function Ident(x: Fields): string {
    Key(Get(x, "identity"))
  }

  /** An identity `x.identity == id` can match: loose equality with a key
      agrees with the key for anything but undefined, null and booleans. */
  predicate Matchable(v: Value) {
    !(v.Undefined? || v.Null? || v.Bool?)
  }

  /** `snapshot.some(x => x.identity == id)`. */
  predicate Listed(snapshot: seq<Fields>, id: string) {
    exists j :: 0 <= j < |snapshot| && LooseEqStr(Get(snapshot[j], "identity"), id)
  }

  /** The last record among `snapshot[..n]` filed under `id`, if any. */
  function LastWith(snapshot: seq<Fields>, id: string, n: nat): (r: Option<Fields>)
    requires n <= |snapshot|
    ensures r.None? <==> forall j :: 0 <= j < n ==> Ident(snapshot[j]) != id
    ensures r.Some? ==> Ident(r.value) == id && r.value in snapshot
  {
    if n == 0 then None
    else if Ident(snapshot[n - 1]) == id then Some(snapshot[n - 1])
    else LastWith(snapshot, id, n - 1)
  }

  /** The first `roomState` loop over `snapshot[..n]`: a present identity
      has its record emptied and refilled from the snapshot record, a new
      one is inserted. */
  function Upsert(people: People, snapshot: seq<Fields>, n: nat): People
    requires n <= |snapshot|
  {
    if n == 0 then people
    else Assoc.Put(Upsert(people, snapshot, n - 1), Ident(snapshot[n - 1]), snapshot[n - 1])
  }

  /** The events the first `roomState` loop emits over `snapshot[..n]`. */
  function UpsertEvents(people: People, snapshot: seq<Fields>, n: nat): seq<ClientEvent>
    requires n <= |snapshot|
  {
    if n == 0 then []
    else
      var x := snapshot[n - 1];
      UpsertEvents(people, snapshot, n - 1)
        + [if Assoc.HasKey(Upsert(people, snapshot, n - 1), Ident(x)) then PersonChanged(x) else PersonJoined(x)]
  }

  /** The second `roomState` loop over `ids[..n]`, the key list taken
      before it starts: every identity no snapshot record matches is
      deleted. */
  function Prune(people: People, ids: seq<string>, snapshot: seq<Fields>, n: nat): People
    requires n <= |ids|
  {
    if n == 0 then people
    else if Listed(snapshot, ids[n - 1]) then Prune(people, ids, snapshot, n - 1)
    else Assoc.Remove(Prune(people, ids, snapshot, n - 1), ids[n - 1])
  }

  /** The `personLeave` events the second `roomState` loop emits over `ids[..n]`. */
  function PruneEvents(people: People, ids: seq<string>, snapshot: seq<Fields>, n: nat): seq<ClientEvent>
    requires n <= |ids|
  {
    if n == 0 then []
    else if Listed(snapshot, ids[n - 1]) then PruneEvents(people, ids, snapshot, n - 1)
    else PruneEvents(people, ids, snapshot, n - 1) + [PersonLeft(Assoc.Lookup(Prune(people, ids, snapshot, n - 1), ids[n - 1]))]
  }

  /** `people` after `_message_roomState`. */
  function Reconcile(people: People, snapshot: seq<Fields>): People {
    var upserted := Upsert(people, snapshot, |snapshot|);
    var ids := Assoc.Keys(upserted);
    Prune(upserted, ids, snapshot, |ids|)
  }

  lemma {:induction false} LookupUpsert(people: People, snapshot: seq<Fields>, n: nat, q: string)
    requires n <= |snapshot|
    ensures Assoc.Lookup(Upsert(people, snapshot, n), q)
      == if LastWith(snapshot, q, n).Some? then LastWith(snapshot, q, n) else Assoc.Lookup(people, q)
  {
    if n > 0 {
      var x := snapshot[n - 1];
      var prev := Upsert(people, snapshot, n - 1);
      assert Assoc.Lookup(Upsert(people, snapshot, n), q)
          == if Ident(x) == q then Some(x) else Assoc.Lookup(prev, q) by {
        Assoc.LookupPut(prev, Ident(x), x, q);
      }
      LookupUpsert(people, snapshot, n - 1, q);
      if Ident(x) == q {
        assert LastWith(snapshot, q, n) == Some(x);
      } else {
        assert LastWith(snapshot, q, n) == LastWith(snapshot, q, n - 1);
      }
    } else {
      assert LastWith(snapshot, q, n).None?;
    }
  }

  lemma {:induction false} LookupPrune(people: People, ids: seq<string>, snapshot: seq<Fields>, n: nat, q: string)
    requires n <= |ids|
    ensures Assoc.Lookup(Prune(people, ids, snapshot, n), q)
      == if q in ids[..n] && !Listed(snapshot, q) then None else Assoc.Lookup(people, q)
  {
    if n > 0 {
      assert ids[..n] == ids[..n - 1] + [ids[n - 1]];
      LookupPrune(people, ids, snapshot, n - 1, q);
      if !Listed(snapshot, ids[n - 1]) {
        Assoc.LookupRemove(Prune(people, ids, snapshot, n - 1), ids[n - 1], q);
      }
    }
  }

  /** After `roomState` (identities that loose equality can match), each
      identity maps to the snapshot's record for it and nothing else is
      left: the key set is exactly the snapshot's identities, and a person
      already present ends with exactly the snapshot's fields. */
  lemma ReconcileMatchesSnapshot(people: People, snapshot: seq<Fields>, q: string)
    requires forall j :: 0 <= j < |snapshot| ==> Matchable(Get(snapshot[j], "identity"))
    ensures Assoc.Lookup(Reconcile(people, snapshot), q) == LastWith(snapshot, q, |snapshot|)
    ensures Assoc.HasKey(Reconcile(people, snapshot), q) <==> exists j :: 0 <= j < |snapshot| && Ident(snapshot[j]) == q
  {
    var upserted := Upsert(people, snapshot, |snapshot|);
    var ids := Assoc.Keys(upserted);
    LookupUpsert(people, snapshot, |snapshot|, q);
    LookupPrune(upserted, ids, snapshot, |ids|, q);
    assert ids[..|ids|] == ids;
    assert Listed(snapshot, q) <==> exists j :: 0 <= j < |snapshot| && Ident(snapshot[j]) == q by {
      forall j | 0 <= j < |snapshot|
        ensures LooseEqStr(Get(snapshot[j], "identity"), q) <==> Ident(snapshot[j]) == q
      {
      }
    }
    if LastWith(snapshot, q, |snapshot|).None? && q in ids {
      assert !Listed(snapshot, q);
    }
    if q !in Assoc.Keys(upserted) {
      assert !Assoc.HasKey(upserted, q) by {
        forall i | 0 <= i < |upserted| ensures upserted[i].0 != q {
          assert Assoc.Keys(upserted)[i] == upserted[i].0;
        }
      }
    }
  }

  /** The last snapshot record filed under a key of a room whose records
      name their keys is the room's record under that key. */
  lemma {:induction false} LastWithStateData(server: People, q: string)
    requires Assoc.DistinctKeys(server) && SelfNamed(server)
    ensures LastWith(Assoc.Values(server), q, |server|) == Assoc.Lookup(server, q)
  {
    var s := Assoc.Values(server);
    forall j | 0 <= j < |s| ensures Ident(s[j]) == server[j].0 {
    }
    match LastWith(s, q, |s|)
    case None =>
      assert !Assoc.HasKey(server, q);
    case Some(x) =>
      var j :| 0 <= j < |s| && s[j] == x;
      Assoc.LookupAt(server, j);
  }

  /** A client that receives a room's `getStateData()` snapshot ends up
      with exactly the server's people, whatever it held before. */
  lemma ReconcileMirrorsServer(people: People, server: People, q: string)
    requires Assoc.DistinctKeys(server) && SelfNamed(server)
    ensures Assoc.Lookup(Reconcile(people, Assoc.Values(server)), q) == Assoc.Lookup(server, q)
  {
    var s := Assoc.Values(server);
    forall j | 0 <= j < |s| ensures Matchable(Get(s[j], "identity")) {
    }
    ReconcileMatchesSnapshot(people, s, q);
    LastWithStateData(server, q);
  }

  /** `_message_personJoin`: ignored, with a console error, when the
      identity is present; otherwise the payload is filed under it. */
  function JoinedLocally(people: People, message: Fields): People {
    if Assoc.HasKey(people, Ident(message)) then people else Assoc.Put(people, Ident(message), message)
  }

  /** `_message_personLeave`: throws when the identity is unknown (the
      error report names an undeclared `message`); otherwise deletes it. */
  function LeftLocally(people: People, message: Fields): Result<People> {
    if Assoc.HasKey(people, Ident(message)) then Ok(Assoc.Remove(people, Ident(message)))
    else Err("ReferenceError: message is not defined")
  }

  /** `_message_personChange`: ignored, with a console error, when the
      identity is unknown; otherwise every payload key is assigned. */
  function ChangedLocally(people: People, message: Fields): People {
    match Assoc.Lookup(people, Ident(message))
    case None => people
    case Some(p) => Assoc.Put(people, Ident(message), p + message)
  }

  /** The client's handlers fold person entries as the server's
      `processAppend` does: same people after a join, a change or a leave
      the server accepts; where the server throws on a change, the client
      keeps its people. */
  lemma MirrorsServerFold(st: RoomState, e: Entry)
    ensures e.messageType == "personJoin" ==> JoinedLocally(st.people, e.data) == Apply(st, e).value.people
    ensures e.messageType == "personChange" ==>
      ChangedLocally(st.people, e.data) == if Apply(st, e).Ok? then Apply(st, e).value.people else st.people
    ensures e.messageType == "personLeave" && LeftLocally(st.people, e.data).Ok? ==>
      LeftLocally(st.people, e.data).value == Apply(st, e).value.people
    ensures e.messageType == "personLeave" && LeftLocally(st.people, e.data).Err? ==>
      Apply(st, e).value.people == st.people
  {
    if e.messageType == "personLeave" && !Assoc.HasKey(st.people, Ident(e.data)) {
      Assoc.RemoveAbsent(st.people, Ident(e.data));
    }
  }

  /** What `_message_message` emits: `dm` when `to` is truthy, otherwise
      `broadcast`; then `text`, `emote` or `signal` by `type`, or nothing. */
  function MessageEvents(message: Fields): (events: seq<ClientEvent>)
    ensures 1 <= |events| <= 2
    ensures events[0] == if Truthy(Get(message, "to")) then Dm(message) else Broadcast(message)
    ensures |events| == 2 <==>
      LooseEqStr(Get(message, "type"), "text") || LooseEqStr(Get(message, "type"), "emote")
      || LooseEqStr(Get(message, "type"), "signal")
    ensures |events| == 2 ==> events[1] in {Text(message), Emote(message), Signal(message)}
  {
    var addressed := if Truthy(Get(message, "to")) then Dm(message) else Broadcast(message);
    var kind := Get(message, "type");
    [addressed]
      + if LooseEqStr(kind, "text") then [Text(message)]
        else if LooseEqStr(kind, "emote") then [Emote(message)]
        else if LooseEqStr(kind, "signal") then [Signal(message)]
        else []
  }

  /** `Object.entries(source).forEach(([key, value]) => target[key] = value)`:
      the source's keys take the source's values, the other keys keep the
      target's. */
  method AssignEntries(target: Fields, source: Fields) returns (r: Fields)
    ensures r == target + source
  {
    r := target;
    var todo := source.Keys;
    while todo != {}
      invariant todo <= source.Keys
      invariant r.Keys == target.Keys + (source.Keys - todo)
      invariant forall j :: j in r ==> r[j] == if j in source && j !in todo then source[j] else target[j]
      decreases |todo|
    {
      var k :| k in todo;
      r := r[k := source[k]];
      todo := todo - {k};
    }
  }

  /** The first `roomState` loop over a snapshot, on the people it starts
      from: the people it leaves and the events it emits. */
  method UpsertLoop(start: People, snapshot: seq<Fields>) returns (people: People, events: seq<ClientEvent>)
    ensures people == Upsert(start, snapshot, |snapshot|)
    ensures events == UpsertEvents(start, snapshot, |snapshot|)
  {
    people, events := start, [];
    var i := 0;
    while i < |snapshot|
      invariant 0 <= i <= |snapshot|
      invariant people == Upsert(start, snapshot, i)
      invariant events == UpsertEvents(start, snapshot, i)
    {
      UpsertStep(start, snapshot, i);
      var event;
      people, event := UpsertOne(people, snapshot[i]);
      events := events + [event];
      i := i + 1;
    }
  }

  /** One turn of the first `roomState` loop, as the specification functions see it. */
  lemma UpsertStep(start: People, snapshot: seq<Fields>, i: nat)
    requires i < |snapshot|
    ensures var x := snapshot[i];
      var before := Upsert(start, snapshot, i);
      && Upsert(start, snapshot, i + 1) == Assoc.Put(before, Ident(x), x)
      && UpsertEvents(start, snapshot, i + 1) == UpsertEvents(start, snapshot, i)
        + [if Assoc.HasKey(before, Ident(x)) then PersonChanged(x) else PersonJoined(x)]
  {
  }

  /** One turn of the second `roomState` loop, as the specification functions see it. */
  lemma PruneStep(start: People, ids: seq<string>, snapshot: seq<Fields>, j: nat)
    requires j < |ids|
    ensures var before := Prune(start, ids, snapshot, j);
      && (Listed(snapshot, ids[j]) ==>
            Prune(start, ids, snapshot, j + 1) == before
            && PruneEvents(start, ids, snapshot, j + 1) == PruneEvents(start, ids, snapshot, j))
      && (!Listed(snapshot, ids[j]) ==>
            Prune(start, ids, snapshot, j + 1) == Assoc.Remove(before, ids[j])
            && PruneEvents(start, ids, snapshot, j + 1)
               == PruneEvents(start, ids, snapshot, j) + [PersonLeft(Assoc.Lookup(before, ids[j]))])
  {
  }

  /** The second `roomState` loop, over the keys `start` has when it
      begins: the people it leaves and the events it emits. */
  method PruneLoop(start: People, snapshot: seq<Fields>) returns (people: People, events: seq<ClientEvent>)
    ensures var ids := Assoc.Keys(start);
      people == Prune(start, ids, snapshot, |ids|)
    ensures var ids := Assoc.Keys(start);
      events == PruneEvents(start, ids, snapshot, |ids|)
  {
    var ids := Assoc.Keys(start);
    people, events := start, [];
    var j := 0;
    while j < |ids|
      invariant 0 <= j <= |ids|
      invariant people == Prune(start, ids, snapshot, j)
      invariant events == PruneEvents(start, ids, snapshot, j)
    {
      PruneStep(start, ids, snapshot, j);
      if !Listed(snapshot, ids[j]) {
        events := events + [PersonLeft(Assoc.Lookup(people, ids[j]))];
        people := Assoc.Remove(people, ids[j]);
      }
      j := j + 1;
    }
  }

  /** One record of the first `roomState` loop: a present person is
      emptied and refilled key by key, an absent one is inserted. */
  method UpsertOne(people: People, x: Fields) returns (r: People, event: ClientEvent)
    ensures r == Assoc.Put(people, Ident(x), x)
    ensures event == if Assoc.HasKey(people, Ident(x)) then PersonChanged(x) else PersonJoined(x)
  {
    var id := Ident(x);
    var current := Assoc.Lookup(people, id);
    if current.Some? {
      var refilled := AssignEntries(map[], x);
      assert refilled == x;
      r, event := Assoc.Put(people, id, refilled), PersonChanged(x);
    } else {
      r, event := Assoc.Put(people, id, x), PersonJoined(x);
    }
  }

  class RoomClient {
    var roomID: Value
    var architecture: Value
    var people: People
    var maxPeople: Value
    /** Everything emitted so far, in order. */
    var emitted: seq<ClientEvent>

    /** `new RoomClient({ roomID, architecture })`. */
    constructor (roomID: Value, architecture: Value)
      ensures this.roomID == roomID && this.architecture == architecture
      ensures people == [] && maxPeople == Null && emitted == []
    {
      this.roomID := roomID;
      this.architecture := architecture;
      people := [];
      maxPeople := Null;
      emitted := [];
    }

    /** `getPerson(identity)`. */
    function GetPerson(identity: string): Option<Fields>
      reads this
    {
      Assoc.Lookup(people, identity)
    }

    /** `_message_roomState(message)`: take over the room's id and
        architecture, upsert every snapshot record, delete every identity
        the snapshot no longer lists, then take over `maxPeople`. */
    method RoomState(newRoomID: Value, newArchitecture: Value, snapshot: seq<Fields>, newMaxPeople: Value)
      modifies this
      ensures roomID == newRoomID && architecture == newArchitecture && maxPeople == newMaxPeople
      ensures people == Reconcile(old(people), snapshot)
      ensures var upserted := Upsert(old(people), snapshot, |snapshot|);
        var ids := Assoc.Keys(upserted);
        emitted == old(emitted) + UpsertEvents(old(people), snapshot, |snapshot|)
          + PruneEvents(upserted, ids, snapshot, |ids|) + [PeopleChange, Reloaded]
    {
      roomID := newRoomID;
      architecture := newArchitecture;
      UpsertAll(snapshot);
      PruneMissing(snapshot);
      maxPeople := newMaxPeople;
      emitted := emitted + [PeopleChange, Reloaded];
    }

    /** `message.people.forEach(...)`: the first `roomState` loop. */
    method UpsertAll(snapshot: seq<Fields>)
      modifies this`people, this`emitted
      ensures people == Upsert(old(people), snapshot, |snapshot|)
      ensures emitted == old(emitted) + UpsertEvents(old(people), snapshot, |snapshot|)
    {
      var current, events := UpsertLoop(people, snapshot);
      people := current;
      emitted := emitted + events;
    }

    /** `Object.keys(this.people).forEach(...)`: the second `roomState` loop. */
    method PruneMissing(snapshot: seq<Fields>)
      modifies this`people, this`emitted
      ensures var ids := Assoc.Keys(old(people));
        people == Prune(old(people), ids, snapshot, |ids|)
      ensures var ids := Assoc.Keys(old(people));
        emitted == old(emitted) + PruneEvents(old(people), ids, snapshot, |ids|)
    {
      var current, events := PruneLoop(people, snapshot);
      people := current;
      emitted := emitted + events;
    }

    /** `_message_personJoin(message)`. */
    method PersonJoin(message: Fields)
      modifies this`people, this`emitted
      ensures people == JoinedLocally(old(people), message)
      ensures emitted == old(emitted) + if Assoc.HasKey(old(people), Ident(message))
        then [ConsoleError("Recieved personJoin event from existing person")]
        else [PersonJoined(message), PeopleChange]
    {
      if GetPerson(Ident(message)).Some? {
        emitted := emitted + [ConsoleError("Recieved personJoin event from existing person")];
        return;
      }
      people := Assoc.Put(people, Ident(message), message);
      emitted := emitted + [PersonJoined(message), PeopleChange];
    }

    /** `_message_personLeave({ identity })`: returns the exception thrown
        for an unknown identity. */
    method PersonLeave(message: Fields) returns (r: Result<()>)
      modifies this`people, this`emitted
      ensures r.Ok? <==> LeftLocally(old(people), message).Ok?
      ensures r.Err? ==> r.error == LeftLocally(old(people), message).error && unchanged(this)
      ensures r.Ok? ==>
        && people == LeftLocally(old(people), message).value
        && emitted == old(emitted) + [PersonLeft(Assoc.Lookup(old(people), Ident(message))), PeopleChange]
    {
      var person := GetPerson(Ident(message));
      if person.None? {
        return Err("ReferenceError: message is not defined");
      }
      people := Assoc.Remove(people, Ident(message));
      emitted := emitted + [PersonLeft(person), PeopleChange];
      r := Ok(());
    }

    /** `_message_personChange(message)`. */
    method PersonChange(message: Fields)
      modifies this`people, this`emitted
      ensures people == ChangedLocally(old(people), message)
      ensures var p := Assoc.Lookup(old(people), Ident(message));
        emitted == old(emitted) + if p.None?
          then [ConsoleError("Recieved personChange event from unknown person")]
          else [PersonChanged(p.value + message), PeopleChange]
    {
      var person := GetPerson(Ident(message));
      if person.None? {
        emitted := emitted + [ConsoleError("Recieved personChange event from unknown person")];
        return;
      }
      var updated := AssignEntries(person.value, message);
      assert updated == person.value + message;
      people := Assoc.Put(people, Ident(message), updated);
      emitted := emitted + [PersonChanged(updated), PeopleChange];
    }

    /** `_message_message(message)`. */
    method Message(message: Fields)
      modifies this`emitted
      ensures emitted == old(emitted) + MessageEvents(message)
    {
      if Truthy(Get(message, "to")) {
        emitted := emitted + [Dm(message)];
      } else {
        emitted := emitted + [Broadcast(message)];
      }
      var kind := Get(message, "type");
      if LooseEqStr(kind, "text") {
        emitted := emitted + [Text(message)];
      } else if LooseEqStr(kind, "emote") {
        emitted := emitted + [Emote(message)];
      } else if LooseEqStr(kind, "signal") {
        emitted := emitted + [Signal(message)];
      }
    }
  }
}
