/** The append-only, time-windowed event log every room owns
    (library/server-data/subscription-log.js). Entries are appended at the
    tail, handed to every subscriber in subscription order, and expired
    entries are then dropped from the head. `since` and `has` are the cursor
    queries used to catch a reconnecting client up. */
module SubscriptionLogs {
  import opened Common
  import opened Values

  /** `{uuid, messageType, data, timestamp}` as built by `append`. */
  datatype Entry = Entry(uuid: string, messageType: string, data: Fields, timestamp: int)

  /** One subscriber call made by `append`: the handler, the entry it was
      given, and the log as it stood while the handler ran. */
  datatype Delivery = Delivery(handler: nat, entry: Entry, logThen: seq<Entry>)

  /** The retention window when the configuration gives none: '1m'. */
  const DefaultExpire: nat := 60000

  predicate UniqueIds(log: seq<Entry>) {
    forall i, j :: 0 <= i < j < |log| ==> log[i].uuid != log[j].uuid
  }

  /** `log.findIndex(item => item.uuid == uuid)`: the first position holding
      that uuid, or -1. */
  function FindIndex(log: seq<Entry>, uuid: string): (i: int)
    ensures -1 <= i < |log|
    ensures i >= 0 ==> log[i].uuid == uuid
    ensures forall j :: 0 <= j < |log| && (i == -1 || j < i) ==> log[j].uuid != uuid
  {
    if log == [] then -1
    else if log[0].uuid == uuid then 0
    else
      var k := FindIndex(log[1..], uuid);
      if k == -1 then -1 else k + 1
  }

  /** `since(uuid)`: every entry after the first one carrying `uuid`, in log
      order, or `false` (here `None`) when no entry carries it. */
  function Since(log: seq<Entry>, uuid: string): (r: Option<seq<Entry>>)
    ensures r.None? <==> forall j :: 0 <= j < |log| ==> log[j].uuid != uuid
    ensures r.Some? ==>
      exists i :: 0 <= i < |log| && log[i].uuid == uuid
        && (forall j :: 0 <= j < i ==> log[j].uuid != uuid)
        && r.value == log[i + 1..]
  {
    var i := FindIndex(log, uuid);
    if i == -1 then None else Some(log[i + 1..])
  }

  /** `has(uuid)`: `log.some(entry => entry.uuid == uuid)`. */
  predicate Has(log: seq<Entry>, uuid: string) {
    exists i :: 0 <= i < |log| && log[i].uuid == uuid
  }

  /** The log `garbageCollect` leaves: entries are dropped from the head while
      the head is strictly older than the cutoff. What is left is a suffix,
      everything dropped was older than the cutoff, and the new head (if any)
      is not. */
  function Collect(log: seq<Entry>, cutoff: int): (r: seq<Entry>)
    ensures |r| <= |log|
    ensures r != [] ==> r[0].timestamp >= cutoff
  {
    if log != [] && log[0].timestamp < cutoff then Collect(log[1..], cutoff) else log
  }

  /** What `Collect` keeps is the tail of the log, and everything it dropped
      was older than the cutoff. */
  lemma {:induction false} CollectSuffix(log: seq<Entry>, cutoff: int)
    ensures Collect(log, cutoff) == log[|log| - |Collect(log, cutoff)|..]
    ensures forall j :: 0 <= j < |log| - |Collect(log, cutoff)| ==> log[j].timestamp < cutoff
  {
    if log != [] && log[0].timestamp < cutoff {
      var t := log[1..];
      CollectSuffix(t, cutoff);
      var r := Collect(t, cutoff);
      assert Collect(log, cutoff) == r;
      assert t[|t| - |r|..] == log[|log| - |r|..];
      forall j | 0 <= j < |log| - |r| ensures log[j].timestamp < cutoff {
        if j > 0 {
          assert log[j] == t[j - 1];
        }
      }
    }
  }

  /** Every subscriber in `subscribers`, in order, called once with `entry`. */
  function Fanout(subscribers: seq<nat>, entry: Entry, logThen: seq<Entry>): (ds: seq<Delivery>)
    ensures |ds| == |subscribers|
    ensures forall i :: 0 <= i < |ds| ==> ds[i] == Delivery(subscribers[i], entry, logThen)
  {
    seq(|subscribers|, i requires 0 <= i < |subscribers| => Delivery(subscribers[i], entry, logThen))
  }

  /** The position of the most recent registration of `h`, `-1` when
      there is none. */
  function LatestAt(subscribers: seq<nat>, h: nat): (i: int)
    ensures -1 <= i < |subscribers|
    ensures i < 0 <==> h !in subscribers
    ensures 0 <= i ==> subscribers[i] == h && h !in subscribers[i + 1..]
  {
    if subscribers == [] then -1
    else if subscribers[|subscribers| - 1] == h then |subscribers| - 1
    else LatestAt(subscribers[..|subscribers| - 1], h)
  }

  /** `emitter.off(event, handler)` removes the most recently added
      registration of that handler, the others keeping their order;
      nothing when it is not registered. */
  function RemoveLast(subscribers: seq<nat>, h: nat): (r: seq<nat>)
    ensures h in subscribers ==> |r| == |subscribers| - 1
    ensures h in subscribers ==>
      var i := LatestAt(subscribers, h);
      r == subscribers[..i] + subscribers[i + 1..]
    ensures h !in subscribers ==> r == subscribers
  {
    if subscribers == [] then []
    else
      var last := subscribers[|subscribers| - 1];
      var init := subscribers[..|subscribers| - 1];
      assert subscribers == init + [last];
      if last == h then
        assert subscribers[..|subscribers| - 1] + subscribers[|subscribers|..] == init;
        init
      else
        if h in init then
          SnocSlices(init, last, LatestAt(init, h));
          RemoveLast(init, h) + [last]
        else
          RemoveLast(init, h) + [last]
  }

  /** Cutting `init + [last]` around a position of `init`. */
  lemma SnocSlices(init: seq<nat>, last: nat, i: nat)
    requires i < |init|
    ensures (init + [last])[..i] == init[..i]
    ensures (init + [last])[i + 1..] == init[i + 1..] + [last]
  {
  }

  class SubscriptionLog {
    /** Retention window in milliseconds. */
    const expire: nat
    /** The entries, oldest first. */
    var log: seq<Entry>
    /** Registered 'append' handlers, in registration order. */
    var subscribers: seq<nat>
    /** Every handler call `append` has made so far, in order. */
    var delivered: seq<Delivery>
    /** Every uuid the fresh-id oracle has handed out to this log. */
    ghost var issued: set<string>

    ghost predicate Valid()
      reads this
    {
      && (forall i :: 0 <= i < |log| ==> log[i].uuid in issued)
      && UniqueIds(log)
    }

    constructor (expire: Option<nat>)
      ensures Valid()
      ensures this.expire == (if expire.Some? then expire.value else DefaultExpire)
      ensures log == [] && subscribers == [] && delivered == [] && issued == {}
    {
      this.expire := if expire.Some? then expire.value else DefaultExpire;
      log := [];
      subscribers := [];
      delivered := [];
      issued := {};
    }

    /** `append(messageType, data)`: `uuid` comes from the fresh-id oracle and
        `now` from the clock. The new entry is pushed, every subscriber sees it
        while it is still in the log, and only then are expired entries
        dropped. */
    method Append(uuid: string, messageType: string, data: Fields, now: int) returns (entry: Entry)
      requires Valid() && uuid !in issued
      modifies this
      ensures Valid()
      ensures entry == Entry(uuid, messageType, data, now)
      ensures AppendedOnce(entry)
    {
      entry := Entry(uuid, messageType, data, now);
      PushKeepsIds(log, issued, entry);
      log := log + [entry];
      issued := issued + {uuid};
      Notify(entry);
      GarbageCollect(now);
    }

    /** The log changed by exactly one `append` of `e`: `e` was pushed, every
        subscriber saw it with `e` in the log, expired entries were then
        dropped, and `e`'s uuid is now spent. */
    twostate predicate AppendedOnce(e: Entry)
      reads this
    {
      && log == Collect(old(log) + [e], e.timestamp - expire)
      && subscribers == old(subscribers)
      && delivered == old(delivered) + Fanout(subscribers, e, old(log) + [e])
      && issued == old(issued) + {e.uuid}
    }

    /** `this.emit('append', entry)`: each registered handler in turn. */
    method Notify(entry: Entry)
      modifies this`delivered
      ensures delivered == old(delivered) + Fanout(subscribers, entry, log)
    {
      var i := 0;
      while i < |subscribers|
        invariant 0 <= i <= |subscribers|
        invariant delivered == old(delivered) + Fanout(subscribers[..i], entry, log)
      {
        assert Fanout(subscribers[..i + 1], entry, log)
            == Fanout(subscribers[..i], entry, log) + [Delivery(subscribers[i], entry, log)];
        delivered := delivered + [Delivery(subscribers[i], entry, log)];
        i := i + 1;
      }
      assert subscribers[..i] == subscribers;
    }

    /** `garbageCollect()`: drop head entries strictly older than `now - expire`. */
    method GarbageCollect(now: int)
      requires Valid()
      modifies this`log
      ensures Valid()
      ensures log == Collect(old(log), now - expire)
    {
      var cutoff := now - expire;
      while log != [] && log[0].timestamp < cutoff
        invariant Collect(log, cutoff) == Collect(old(log), cutoff)
        decreases |log|
      {
        log := log[1..];
      }
      CollectSuffix(old(log), cutoff);
      CollectKeepsIds(old(log), cutoff);
    }

    /** `this.on('append', handler)`. */
    method Subscribe(h: nat)
      modifies this`subscribers
      ensures subscribers == old(subscribers) + [h]
    {
      subscribers := subscribers + [h];
    }

    /** `this.off('append', handler)`. */
    method Unsubscribe(h: nat)
      modifies this`subscribers
      ensures subscribers == RemoveLast(old(subscribers), h)
      ensures h in old(subscribers) ==>
        exists i :: 0 <= i < |old(subscribers)| && old(subscribers)[i] == h && h !in old(subscribers)[i + 1..]
          && subscribers == old(subscribers)[..i] + old(subscribers)[i + 1..]
    {
      ghost var i := LatestAt(subscribers, h);
      subscribers := RemoveLast(subscribers, h);
    }
  }

  /** Pushing an entry whose uuid was never issued keeps the ids unique and
      all issued. */
  lemma PushKeepsIds(log: seq<Entry>, issued: set<string>, e: Entry)
    requires UniqueIds(log) && forall i :: 0 <= i < |log| ==> log[i].uuid in issued
    requires e.uuid !in issued
    ensures UniqueIds(log + [e])
    ensures forall i :: 0 <= i < |log + [e]| ==> (log + [e])[i].uuid in issued + {e.uuid}
  {
  }

  lemma CollectKeepsIds(log: seq<Entry>, cutoff: int)
    requires UniqueIds(log)
    ensures UniqueIds(Collect(log, cutoff))
    ensures forall e :: e in Collect(log, cutoff) ==> e in log
  {
    CollectSuffix(log, cutoff);
  }

  /** `has(u)` holds exactly when `since(u)` is not `false`. */
  lemma HasIffSince(log: seq<Entry>, uuid: string)
    ensures Has(log, uuid) <==> Since(log, uuid).Some?
  {
  }

  /** With the log's ids unique, `since` on the id of the entry at position i
      returns exactly the entries after i: no gap, no duplicate of an entry at
      or before the cursor. */
  lemma {:induction false} SinceAfter(log: seq<Entry>, i: nat)
    requires UniqueIds(log) && i < |log|
    ensures Since(log, log[i].uuid) == Some(log[i + 1..])
  {
    var k := FindIndex(log, log[i].uuid);
    assert k == i;
  }

  /** `since` on the newest entry's id has nothing to replay. */
  lemma SinceNewest(log: seq<Entry>)
    requires UniqueIds(log) && log != []
    ensures Since(log, log[|log| - 1].uuid) == Some([])
  {
    SinceAfter(log, |log| - 1);
  }

  /** An entry stamped no earlier than the cutoff survives the collection that
      follows its append: the log is a suffix of the old log followed by it. */
  lemma {:induction false} CollectKeepsNewest(log: seq<Entry>, e: Entry, cutoff: int)
    requires e.timestamp >= cutoff
    ensures var r := Collect(log + [e], cutoff);
      r != [] && r[|r| - 1] == e && exists k :: 0 <= k <= |log| && r == log[k..] + [e]
  {
    var s := log + [e];
    var r := Collect(s, cutoff);
    assert s[|s| - 1] == e;
    var k := |s| - |r|;
    CollectSuffix(s, cutoff);
    assert r == s[k..];
    assert s[k..] == log[k..] + [e];
  }

  /** Once `append` returns, the entry it appended is the log's last entry
      (retention windows are never negative). */
  lemma AppendedIsNewest(log: seq<Entry>, e: Entry, now: int, expire: nat)
    requires e.timestamp == now
    ensures var r := Collect(log + [e], now - expire);
      r != [] && r[|r| - 1] == e
  {
    CollectKeepsNewest(log, e, now - expire);
  }
}
