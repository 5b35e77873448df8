/** The server-side room (library/server-data/room.js): membership, room
    metadata and one subscription log. Public operations validate and then
    append exactly one entry; the room's own log subscription (`processAppend`)
    is the only code that writes `people`. */
module Rooms {
  import opened Common
  import opened Values
  import Assoc
  import opened SubscriptionLogs

  /** A person record: the `personJoin` payload, later patched by `personChange`. */
  type Person = Fields
  /** `this.people`: identity -> record, in join order. */
  type People = Assoc.Dict<Person>

  /** The handler id under which a room registers its own fold with its log. */
  const RoomHandler: nat := 0

  /** The part of a room that its fold updates. */
  datatype RoomState = RoomState(roomID: Value, architecture: Value, people: People)

  /** `getPublicInfo()`. */
  datatype PublicInfo = PublicInfo(roomID: Value, architecture: Value, maxPeople: nat, headCount: nat)

  /** `getStateData()`. */
  datatype StateData = StateData(roomID: Value, architecture: Value, people: seq<Person>, maxPeople: nat)

  /** `data.identity` as a key of `people`. */
  function IdentityKey(data: Fields): string {
    Key(Get(data, "identity"))
  }

  /** Every stored record's `identity` field names the key it is stored
      under. */
  predicate SelfNamed(people: People) {
    forall i :: 0 <= i < |people| ==> Get(people[i].1, "identity") == Str(people[i].0)
  }

  /** `{ ...props, identity }`: the payload `personJoin`, `personChange` and
      `send` append; the identity given last wins over one in `props`. */
  function WithIdentity(props: Value, identity: string): (f: Fields)
    ensures Get(f, "identity") == Str(identity) && IdentityKey(f) == identity
    ensures forall k :: k in Spread(props) && k != "identity" ==> k in f && f[k] == Spread(props)[k]
  {
    Spread(props)["identity" := Str(identity)]
  }

  /** `processAppend(entry)` as a function of the room state: `Err` where the
      source throws (a `personChange` for an unknown identity). */
  function Apply(st: RoomState, e: Entry): Result<RoomState> {
    var id := IdentityKey(e.data);
    if e.messageType == "personJoin" then
      Ok(if Assoc.HasKey(st.people, id) then st else st.(people := Assoc.Put(st.people, id, e.data)))
    else if e.messageType == "personLeave" then
      Ok(st.(people := Assoc.Remove(st.people, id)))
    else if e.messageType == "personChange" then
      match Assoc.Lookup(st.people, id)
      case None => Err("No person exists with public key identity string " + id)
      case Some(p) => Ok(st.(people := Assoc.Put(st.people, id, p + e.data)))
    else if e.messageType == "roomChange" then
      Ok(st.(architecture := if Truthy(Get(e.data, "architecture")) then Get(e.data, "architecture") else st.architecture,
             roomID := if Truthy(Get(e.data, "roomID")) then Get(e.data, "roomID") else st.roomID))
    else
      Ok(st)
  }

  /** Folding a `personJoin` inserts the payload under its identity only when
      that identity is absent; an existing person is never overwritten. */
  lemma {:induction false} JoinNeverOverwrites(st: RoomState, e: Entry)
    requires e.messageType == "personJoin"
    ensures Apply(st, e).Ok?
    ensures var id := IdentityKey(e.data);
      forall k :: Assoc.Lookup(Apply(st, e).value.people, k)
        == if k == id && !Assoc.HasKey(st.people, id) then Some(e.data) else Assoc.Lookup(st.people, k)
  {
    var id := IdentityKey(e.data);
    forall k ensures Assoc.Lookup(Apply(st, e).value.people, k)
        == if k == id && !Assoc.HasKey(st.people, id) then Some(e.data) else Assoc.Lookup(st.people, k)
    {
      Assoc.LookupPut(st.people, id, e.data, k);
    }
  }

  /** Folding a `personLeave` deletes that identity and no other. */
  lemma {:induction false} LeaveRemovesOnly(st: RoomState, e: Entry)
    requires e.messageType == "personLeave"
    ensures Apply(st, e).Ok?
    ensures var id := IdentityKey(e.data);
      forall k :: Assoc.Lookup(Apply(st, e).value.people, k)
        == if k == id then None else Assoc.Lookup(st.people, k)
  {
    var id := IdentityKey(e.data);
    forall k ensures Assoc.Lookup(Apply(st, e).value.people, k)
        == if k == id then None else Assoc.Lookup(st.people, k)
    {
      Assoc.LookupRemove(st.people, id, k);
    }
  }

  /** Folding a `personChange` fails exactly when the person is unknown;
      otherwise every payload key is assigned onto that person's record, the
      record's other fields stay, and every other person is untouched. */
  lemma {:induction false} ChangeAssignsPayload(st: RoomState, e: Entry)
    requires e.messageType == "personChange"
    ensures var id := IdentityKey(e.data);
      Apply(st, e).Err? <==> !Assoc.HasKey(st.people, id)
    ensures var id := IdentityKey(e.data);
      Apply(st, e).Ok? ==>
        var before := Assoc.Lookup(st.people, id).value;
        var after := Assoc.Lookup(Apply(st, e).value.people, id);
        && after.Some?
        && after.value.Keys == before.Keys + e.data.Keys
        && (forall f :: f in e.data ==> after.value[f] == e.data[f])
        && (forall f :: f in before && f !in e.data ==> after.value[f] == before[f])
        && (forall k :: k != id ==> Assoc.Lookup(Apply(st, e).value.people, k) == Assoc.Lookup(st.people, k))
  {
    var id := IdentityKey(e.data);
    match Assoc.Lookup(st.people, id)
    case None =>
    case Some(p) =>
      forall k ensures Assoc.Lookup(Assoc.Put(st.people, id, p + e.data), k)
          == if k == id then Some(p + e.data) else Assoc.Lookup(st.people, k)
      {
        Assoc.LookupPut(st.people, id, p + e.data, k);
      }
  }

  /** Folding a `roomChange` replaces `architecture` and `roomID` only with
      values that are present and truthy, and leaves `people` alone; a
      `message` (or any other type) changes nothing. */
  lemma RoomChangeAndMessage(st: RoomState, e: Entry)
    ensures e.messageType == "roomChange" ==>
      && Apply(st, e).Ok?
      && Apply(st, e).value.people == st.people
      && (Apply(st, e).value.architecture != st.architecture ==> Truthy(Get(e.data, "architecture")))
      && (Apply(st, e).value.roomID != st.roomID ==> Truthy(Get(e.data, "roomID")))
      && (Truthy(Get(e.data, "architecture")) ==> Apply(st, e).value.architecture == e.data["architecture"])
      && (Truthy(Get(e.data, "roomID")) ==> Apply(st, e).value.roomID == e.data["roomID"])
    ensures e.messageType !in {"personJoin", "personLeave", "personChange", "roomChange"} ==>
      Apply(st, e) == Ok(st)
  {
  }

  /** The fold keeps identities distinct and grows `people` by at most one,
      and only for a `personJoin` of an absent identity. */
  lemma {:induction false} ApplyGrowth(st: RoomState, e: Entry)
    requires Assoc.DistinctKeys(st.people) && Apply(st, e).Ok?
    ensures Assoc.DistinctKeys(Apply(st, e).value.people)
    ensures |Apply(st, e).value.people| <= |st.people|
        + (if e.messageType == "personJoin" && !Assoc.HasKey(st.people, IdentityKey(e.data)) then 1 else 0)
  {
    var id := IdentityKey(e.data);
    if e.messageType == "personJoin" {
      if !Assoc.HasKey(st.people, id) {
        Assoc.PutDistinct(st.people, id, e.data);
      }
    } else if e.messageType == "personLeave" {
      Assoc.RemoveDistinct(st.people, id);
    } else if e.messageType == "personChange" {
      var p := Assoc.Lookup(st.people, id).value;
      Assoc.PutDistinct(st.people, id, p + e.data);
    }
  }

  /** Folding an entry whose payload names its own identity keeps every
      record naming its key. */
  lemma ApplyKeepsSelfNamed(st: RoomState, e: Entry)
    requires SelfNamed(st.people) && Apply(st, e).Ok?
    requires e.messageType in {"personJoin", "personChange"} ==> Get(e.data, "identity") == Str(IdentityKey(e.data))
    ensures SelfNamed(Apply(st, e).value.people)
  {
    var id := IdentityKey(e.data);
    if e.messageType == "personJoin" && !Assoc.HasKey(st.people, id) {
      Assoc.PutElements(st.people, id, e.data);
    } else if e.messageType == "personLeave" {
      Assoc.RemoveElements(st.people, id);
    } else if e.messageType == "personChange" {
      var p := Assoc.Lookup(st.people, id).value;
      assert Get(p + e.data, "identity") == Str(id);
      Assoc.PutElements(st.people, id, p + e.data);
    }
  }

  class Room {
    var roomID: Value
    var architecture: Value
    var people: People
    const maxPeople: nat
    const log: SubscriptionLog

    ghost predicate Valid()
      reads this, log
    {
      && log.Valid()
      && Assoc.DistinctKeys(people)
      && SelfNamed(people)
      && |people| <= maxPeople
    }

    function State(): RoomState
      reads this
    {
      RoomState(roomID, architecture, people)
    }

    /** `new Room(config)`: empty room whose log has the room's own fold as
        its first subscriber. */
    constructor (roomID: Value, architecture: Value, maxPeople: nat, expire: Option<nat>)
      ensures Valid() && fresh(log)
      ensures this.roomID == roomID && this.architecture == architecture
      ensures this.maxPeople == maxPeople && people == []
      ensures log.log == [] && log.subscribers == [RoomHandler] && log.delivered == []
      ensures log.issued == {}
      ensures log.expire == (if expire.Some? then expire.value else DefaultExpire)
    {
      this.roomID := roomID;
      this.architecture := architecture;
      this.people := [];
      this.maxPeople := maxPeople;
      log := new SubscriptionLog(expire);
      new;
      log.Subscribe(RoomHandler);
    }

    /** `getPublicInfo()`: the head count is the number of people present. */
    function GetPublicInfo(): (info: PublicInfo)
      requires Valid()
      reads this, log
      ensures info.headCount == |Assoc.KeySet(people)| <= maxPeople
      ensures info.roomID == roomID && info.architecture == architecture && info.maxPeople == maxPeople
    {
      Assoc.SizeIsKeyCount(people);
      PublicInfo(roomID, architecture, maxPeople, |people|)
    }

    /** `getStateData()`: lists exactly the stored records, one per person. */
    function GetStateData(): (d: StateData)
      requires Valid()
      reads this, log
      ensures |d.people| == |people|
      ensures forall p :: p in d.people <==> Assoc.Stored(people, p)
      ensures d.roomID == roomID && d.architecture == architecture && d.maxPeople == maxPeople
    {
      Assoc.ValuesAreLookups(people);
      StateData(roomID, architecture, Assoc.Values(people), maxPeople)
    }

    /** `getPerson(identity)`. */
    function GetPerson(identity: string): Option<Person>
      reads this
    {
      Assoc.Lookup(people, identity)
    }

    /** `processAppend(entry)`: the room's own subscriber. Returns false where
        the source throws; the state is then unchanged. */
    method ProcessAppend(e: Entry) returns (ok: bool)
      modifies this`people, this`roomID, this`architecture
      ensures ok == Apply(old(State()), e).Ok?
      ensures ok ==> State() == Apply(old(State()), e).value
      ensures !ok ==> State() == old(State())
    {
      ok := true;
      var id := IdentityKey(e.data);
      if e.messageType == "personJoin" {
        if !Assoc.HasKey(people, id) {
          people := Assoc.Put(people, id, e.data);
        }
      } else if e.messageType == "personLeave" {
        people := Assoc.Remove(people, id);
      } else if e.messageType == "personChange" {
        var person := Assoc.Lookup(people, id);
        if person.None? {
          ok := false;
        } else {
          people := Assoc.Put(people, id, person.value + e.data);
        }
      } else if e.messageType == "roomChange" {
        if Truthy(Get(e.data, "architecture")) {
          architecture := Get(e.data, "architecture");
        }
        if Truthy(Get(e.data, "roomID")) {
          roomID := Get(e.data, "roomID");
        }
      }
    }

    /** Append one entry and let the room's own subscriber fold it. Callers
        guarantee the fold succeeds and keeps the room within capacity. */
    method Commit(uuid: string, messageType: string, data: Fields, now: int) returns (e: Entry)
      requires Valid() && uuid !in log.issued
      requires messageType in {"personJoin", "personChange"} ==> Get(data, "identity") == Str(IdentityKey(data))
      requires var e := Entry(uuid, messageType, data, now);
        Apply(State(), e).Ok? && |Apply(State(), e).value.people| <= maxPeople
      modifies this, log
      ensures Valid()
      ensures e == Entry(uuid, messageType, data, now)
      ensures log.AppendedOnce(e)
      ensures State() == Apply(old(State()), e).value
    {
      ghost var next := Apply(State(), Entry(uuid, messageType, data, now)).value;
      ApplyGrowth(State(), Entry(uuid, messageType, data, now));
      ApplyKeepsSelfNamed(State(), Entry(uuid, messageType, data, now));
      assert Assoc.DistinctKeys(next.people) && SelfNamed(next.people);
      e := log.Append(uuid, messageType, data, now);
      var ok := ProcessAppend(e);
      assert people == next.people;
    }

    /** `personJoin(identity, personConfig)`: appends one `personJoin` entry
        when the head count is below `maxPeople`, otherwise throws "Room is
        full" and appends nothing. The record carries the given identity. */
    method PersonJoin(identity: string, personConfig: Value, uuid: string, now: int) returns (r: Result<Person>)
      requires Valid() && uuid !in log.issued
      modifies this, log
      ensures Valid()
      ensures r.Ok? <==> |old(people)| < maxPeople
      ensures r.Ok? ==>
        var e := Entry(uuid, "personJoin", WithIdentity(personConfig, identity), now);
        && r.value == e.data
        && log.AppendedOnce(e)
        && State() == Apply(old(State()), e).value
      ensures r.Err? ==> r.error == "Room is full" && unchanged(this, log)
    {
      var person := WithIdentity(personConfig, identity);
      if |people| < maxPeople {
        var e := Entry(uuid, "personJoin", person, now);
        ApplyGrowth(State(), e);
        e := Commit(uuid, "personJoin", person, now);
        r := Ok(person);
      } else {
        r := Err("Room is full");
      }
    }

    /** `personChange(identity, updateProps)`: throws and appends nothing
        when the person is absent, otherwise appends one `personChange`
        entry whose payload is `{...updateProps, identity}`. */
    method PersonChange(identity: string, updateProps: Value, uuid: string, now: int) returns (r: Result<Entry>)
      requires Valid() && uuid !in log.issued
      modifies this, log
      ensures Valid()
      ensures r.Ok? <==> Assoc.HasKey(old(people), identity)
      ensures r.Ok? ==>
        && r.value == Entry(uuid, "personChange", WithIdentity(updateProps, identity), now)
        && log.AppendedOnce(r.value)
        && State() == Apply(old(State()), r.value).value
      ensures r.Err? ==> r.error == "This person isn't in the room" && unchanged(this, log)
    {
      if GetPerson(identity).None? {
        r := Err("This person isn't in the room");
      } else {
        var data := WithIdentity(updateProps, identity);
        var e := Entry(uuid, "personChange", data, now);
        ChangeAssignsPayload(State(), e);
        ApplyGrowth(State(), e);
        e := Commit(uuid, "personChange", data, now);
        r := Ok(e);
      }
    }

    /** `personLeave(identity)`: throws and appends nothing when the person
        is absent, otherwise appends one `personLeave` entry. */
    method PersonLeave(identity: string, uuid: string, now: int) returns (r: Result<Entry>)
      requires Valid() && uuid !in log.issued
      modifies this, log
      ensures Valid()
      ensures r.Ok? <==> Assoc.HasKey(old(people), identity)
      ensures r.Ok? ==>
        && r.value == Entry(uuid, "personLeave", map["identity" := Str(identity)], now)
        && log.AppendedOnce(r.value)
        && State() == Apply(old(State()), r.value).value
      ensures r.Err? ==> r.error == "You aren't in this room." && unchanged(this, log)
    {
      if GetPerson(identity).None? {
        r := Err("You aren't in this room.");
      } else {
        var data := map["identity" := Str(identity)];
        var e := Entry(uuid, "personLeave", data, now);
        assert IdentityKey(data) == identity;
        ApplyGrowth(State(), e);
        e := Commit(uuid, "personLeave", data, now);
        r := Ok(e);
      }
    }

    /** `setArchitecture(architecture)`: appends one `roomChange` entry. */
    method SetArchitecture(newArchitecture: Value, uuid: string, now: int) returns (e: Entry)
      requires Valid() && uuid !in log.issued
      modifies this, log
      ensures Valid()
      ensures e == Entry(uuid, "roomChange", map["architecture" := newArchitecture], now)
      ensures log.AppendedOnce(e)
      ensures State() == Apply(old(State()), e).value
    {
      e := Commit(uuid, "roomChange", map["architecture" := newArchitecture], now);
    }

    /** `send(identity, messageObject)`: appends one `message` entry tagged
        with the sender; no presence check and no recipient filtering here. */
    method Send(identity: string, messageObject: Value, uuid: string, now: int) returns (e: Entry)
      requires Valid() && uuid !in log.issued
      modifies this, log
      ensures Valid()
      ensures e == Entry(uuid, "message", WithIdentity(messageObject, identity), now)
      ensures log.AppendedOnce(e)
      ensures State() == old(State())
    {
      e := Commit(uuid, "message", WithIdentity(messageObject, identity), now);
    }
  }
}
