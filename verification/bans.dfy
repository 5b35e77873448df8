/** The ban registry (library/server-data/bans.js): a list of ban entries and
    two lookup tables, from lower-cased IP address and from lower-cased
    identity to the entry that bans it. `recalculate` rebuilds the tables
    from the unexpired entries; the ban middleware widens a ban to every new
    IP and identity a banned user shows up with. */
module Bans {
  import opened Common
  import opened Values

  /** One ban. `identities` holds what the middleware pushed, which is
      `undefined` (here `None`) for an unsigned request. */
  datatype BanEntry = BanEntry(
    identities: seq<Option<string>>,
    IPs: seq<string>,
    reason: Value,
    timestamp: int,
    expires: int,
    uuid: string,
    authority: Value)

  /** The parts of an Express request the registry reads; `sig` is `None`
      when the signature middleware has not run. */
  datatype Request = Request(ip: string, sig: Option<Sig>)

  /** The two lookup tables, each mapping a key to a position in `data`. */
  datatype Tables = Tables(ips: map<string, nat>, identities: map<string, nat>)

  /** What the ban middleware does with a request: let it through, refuse it
      with a 403 naming the ban (and possibly throw afterwards, once the
      reply is out), or throw before replying. */
  datatype Verdict =
    | Next
    | Refused(ban: nat, reason: Value, remaining: int, thrown: Option<string>)
    | Threw(error: string)

  /** What `unban` throws: its body refers to `banEntry`, a name it never
      declares, so the filter's first callback throws. */
  const UnbanError: string := "ReferenceError: banEntry is not defined"

  /** `entry.expires > now`: the entry still bans. */
  predicate Live(e: BanEntry, now: int) {
    e.expires > now
  }

  /** The lower-cased forms of the first `n` IPs. */
  function IPKeys(ips: seq<string>, n: nat): set<string>
    requires n <= |ips|
  {
    if n == 0 then {} else IPKeys(ips, n - 1) + {Lower(ips[n - 1])}
  }

  /** The lower-cased forms of the first `n` identities that are strings. */
  function IdentityKeys(ids: seq<Option<string>>, n: nat): set<string>
    requires n <= |ids|
  {
    if n == 0 then {}
    else IdentityKeys(ids, n - 1) + (if ids[n - 1].Some? then {Lower(ids[n - 1].value)} else {})
  }

  /** The keys under which an entry is listed, by IP or by identity. */
  function Listed(e: BanEntry, byIP: bool): set<string> {
    if byIP then IPKeys(e.IPs, |e.IPs|) else IdentityKeys(e.identities, |e.identities|)
  }

  /** Every identity of the entry is a string. */
  predicate Named(e: BanEntry) {
    forall j :: 0 <= j < |e.identities| ==> e.identities[j].Some?
  }

  /** `Math.max(...data.map(x => x.timestamp))`; `None` stands for the
      `-Infinity` of an empty list. */
  function MaxTimestamp(data: seq<BanEntry>): Option<int> {
    if data == [] then None
    else
      var rest := MaxTimestamp(data[1..]);
      if rest.None? || data[0].timestamp >= rest.value then Some(data[0].timestamp) else rest
  }

  /** Lists whose entries carry the same timestamps, position by position,
      have the same greatest timestamp. */
  lemma {:induction false} SameStampsSameMax(a: seq<BanEntry>, b: seq<BanEntry>)
    requires |a| == |b| && forall i :: 0 <= i < |a| ==> a[i].timestamp == b[i].timestamp
    ensures MaxTimestamp(a) == MaxTimestamp(b)
  {
    if a != [] {
      SameStampsSameMax(a[1..], b[1..]);
    }
  }

  /** `keys.forEach(x => table[x.toLowerCase()] = entry)` over the first `n`
      keys, the entry being the one at position `i`. */
  function AddKeys(table: map<string, nat>, keys: seq<string>, i: nat, n: nat): map<string, nat>
    requires n <= |keys|
  {
    if n == 0 then table else AddKeys(table, keys, i, n - 1)[Lower(keys[n - 1]) := i]
  }

  /** A table being filled, and the exception that stopped the filling. */
  datatype Indexing = Indexing(table: map<string, nat>, thrown: Option<string>)

  /** What `toLowerCase` on `undefined` throws. */
  const LowerOfUndefined: string := "TypeError: Cannot read properties of undefined (reading 'toLowerCase')"

  /** The same over identities, up to the first `undefined` one, on which
      `toLowerCase` throws. */
  function AddIdentities(table: map<string, nat>, ids: seq<Option<string>>, i: nat, n: nat): Indexing
    requires n <= |ids|
  {
    if n == 0 then Indexing(table, None)
    else
      var before := AddIdentities(table, ids, i, n - 1);
      if before.thrown.Some? then before
      else if ids[n - 1].None? then before.(thrown := Some(LowerOfUndefined))
      else Indexing(before.table[Lower(ids[n - 1].value) := i], None)
  }

  /** Both tables being rebuilt, and the exception that stopped it. */
  datatype Reindexed = Reindexed(tables: Tables, thrown: Option<string>)

  /** The tables `recalculate` has built after the first `n` entries, and
      the exception that stopped it, if any: each unexpired entry adds its
      IPs, then its identities. */
  function Reindex(data: seq<BanEntry>, now: int, n: nat): Reindexed
    requires n <= |data|
  {
    if n == 0 then Reindexed(Tables(map[], map[]), None)
    else
      var before := Reindex(data, now, n - 1);
      if before.thrown.Some? || !Live(data[n - 1], now) then before
      else
        var e := data[n - 1];
        var t := before.tables;
        var ids := AddIdentities(t.identities, e.identities, n - 1, |e.identities|);
        Reindexed(Tables(AddKeys(t.ips, e.IPs, n - 1, |e.IPs|), ids.table), ids.thrown)
  }

  /** `table` maps exactly the keys listed by an unexpired entry among the
      first `n`, each to the last such entry. */
  ghost predicate Indexes(table: map<string, nat>, data: seq<BanEntry>, now: int, n: nat, byIP: bool)
    requires n <= |data|
  {
    Covers(table, data, now, n, byIP) && Latest(table, data, now, n, byIP)
  }

  /** The keys of `table` are those listed by an unexpired entry among the
      first `n`. */
  ghost predicate Covers(table: map<string, nat>, data: seq<BanEntry>, now: int, n: nat, byIP: bool)
    requires n <= |data|
  {
    forall k :: k in table <==> exists i :: 0 <= i < n && Live(data[i], now) && k in Listed(data[i], byIP)
  }

  /** Each key of `table` leads to the last unexpired entry among the first
      `n` that lists it. */
  ghost predicate Latest(table: map<string, nat>, data: seq<BanEntry>, now: int, n: nat, byIP: bool)
    requires n <= |data|
  {
    forall k :: k in table ==>
      && table[k] < n && Live(data[table[k]], now) && k in Listed(data[table[k]], byIP)
      && forall i :: table[k] < i < n && Live(data[i], now) ==> k !in Listed(data[i], byIP)
  }

  /** `data.filter(ban => ban.expires > now)`: what `save` writes. */
  function Unexpired(data: seq<BanEntry>, now: int): (r: seq<BanEntry>)
    ensures |r| <= |data|
  {
    if data == [] then []
    else (if Live(data[0], now) then [data[0]] else []) + Unexpired(data[1..], now)
  }

  /** The entry `ban` appends. */
  function NewBan(identity: Option<string>, reason: Value, duration: int, authority: Value, uuid: string, now: int): BanEntry {
    BanEntry([identity], [], if Truthy(reason) then reason else Str("No reason given"), now, now + duration, uuid, authority)
  }

  /** `lastBan` is the latest timestamp of any entry, expired or not, and
      there is none for an empty list. */
  lemma {:induction false} MaxTimestampIsMax(data: seq<BanEntry>)
    ensures MaxTimestamp(data).None? <==> data == []
    ensures MaxTimestamp(data).Some? ==>
      && (exists i :: 0 <= i < |data| && data[i].timestamp == MaxTimestamp(data).value)
      && (forall i :: 0 <= i < |data| ==> data[i].timestamp <= MaxTimestamp(data).value)
  {
    if data != [] {
      MaxTimestampIsMax(data[1..]);
      var m := MaxTimestamp(data).value;
      if m == data[0].timestamp {
        assert data[0].timestamp == m;
      } else {
        var j :| 0 <= j < |data[1..]| && data[1..][j].timestamp == m;
        assert data[j + 1].timestamp == m;
      }
      forall i | 0 <= i < |data| ensures data[i].timestamp <= m {
        if i > 0 {
          assert data[i] == data[1..][i - 1];
        }
      }
    }
  }

  /** Adding one entry's keys: the keys it lists now lead to it, every other
      key keeps its target. */
  lemma {:induction false} AddKeysMaps(table: map<string, nat>, keys: seq<string>, i: nat, n: nat)
    requires n <= |keys|
    ensures forall k :: k in AddKeys(table, keys, i, n) <==> k in table || k in IPKeys(keys, n)
    ensures forall k :: k in AddKeys(table, keys, i, n) ==>
      AddKeys(table, keys, i, n)[k] == if k in IPKeys(keys, n) then i else table[k]
  {
    if n > 0 {
      AddKeysMaps(table, keys, i, n - 1);
    }
  }

  /** Adding one entry's identities: nothing throws exactly when every
      identity is a string, and the table then gains exactly those; thrown
      or not, every target is the entry or an old one. */
  lemma {:induction false} AddIdentitiesMaps(table: map<string, nat>, ids: seq<Option<string>>, i: nat, n: nat)
    requires n <= |ids|
    ensures AddIdentities(table, ids, i, n).thrown.None? <==> forall j :: 0 <= j < n ==> ids[j].Some?
    ensures var r := AddIdentities(table, ids, i, n);
      r.thrown.None? ==>
        && (forall k :: k in r.table <==> k in table || k in IdentityKeys(ids, n))
        && (forall k :: k in r.table ==> r.table[k] == if k in IdentityKeys(ids, n) then i else table[k])
    ensures var r := AddIdentities(table, ids, i, n);
      forall k :: k in r.table ==> r.table[k] == i || (k in table && r.table[k] == table[k])
  {
    if n > 0 {
      AddIdentitiesMaps(table, ids, i, n - 1);
    }
  }

  /** One more entry keeps a table an exact index, when the table gained
      exactly that entry's keys if it is unexpired, and nothing otherwise. */
  lemma IndexesStep(table: map<string, nat>, next: map<string, nat>, data: seq<BanEntry>, now: int, n: nat, byIP: bool)
    requires 0 < n <= |data|
    requires Indexes(table, data, now, n - 1, byIP)
    requires forall k :: k in next <==> k in table || (Live(data[n - 1], now) && k in Listed(data[n - 1], byIP))
    requires forall k :: k in next ==>
      next[k] == if Live(data[n - 1], now) && k in Listed(data[n - 1], byIP) then n - 1 else table[k]
    ensures Indexes(next, data, now, n, byIP)
  {
    CoversStep(table, next, data, now, n, byIP);
    LatestStep(table, next, data, now, n, byIP);
  }

  lemma CoversStep(table: map<string, nat>, next: map<string, nat>, data: seq<BanEntry>, now: int, n: nat, byIP: bool)
    requires 0 < n <= |data|
    requires Covers(table, data, now, n - 1, byIP)
    requires forall k :: k in next <==> k in table || (Live(data[n - 1], now) && k in Listed(data[n - 1], byIP))
    ensures Covers(next, data, now, n, byIP)
  {
  }

  lemma LatestStep(table: map<string, nat>, next: map<string, nat>, data: seq<BanEntry>, now: int, n: nat, byIP: bool)
    requires 0 < n <= |data|
    requires Latest(table, data, now, n - 1, byIP)
    requires forall k :: k in next <==> k in table || (Live(data[n - 1], now) && k in Listed(data[n - 1], byIP))
    requires forall k :: k in next ==>
      next[k] == if Live(data[n - 1], now) && k in Listed(data[n - 1], byIP) then n - 1 else table[k]
    ensures Latest(next, data, now, n, byIP)
  {
    forall k | k in next
      ensures next[k] < n && Live(data[next[k]], now) && k in Listed(data[next[k]], byIP)
      ensures forall i :: next[k] < i < n && Live(data[i], now) ==> k !in Listed(data[i], byIP)
    {
      if !(Live(data[n - 1], now) && k in Listed(data[n - 1], byIP)) {
        assert k in table;
      }
    }
  }

  /** `recalculate` throws exactly when an unexpired entry lists an
      `undefined` identity. */
  lemma {:induction false} ReindexThrows(data: seq<BanEntry>, now: int, n: nat)
    requires n <= |data|
    ensures Reindex(data, now, n).thrown.None? <==> forall i :: 0 <= i < n && Live(data[i], now) ==> Named(data[i])
  {
    if n > 0 {
      ReindexThrows(data, now, n - 1);
      var before := Reindex(data, now, n - 1);
      var e := data[n - 1];
      if before.thrown.None? && Live(e, now) {
        AddIdentitiesMaps(before.tables.identities, e.identities, n - 1, |e.identities|);
      }
    }
  }

  /** Without an exception, the tables index the unexpired entries exactly,
      each key leading to the last unexpired entry that lists it. */
  lemma {:induction false} ReindexIndexes(data: seq<BanEntry>, now: int, n: nat)
    requires n <= |data|
    ensures Reindex(data, now, n).thrown.None? ==>
      && Indexes(Reindex(data, now, n).tables.ips, data, now, n, true)
      && Indexes(Reindex(data, now, n).tables.identities, data, now, n, false)
  {
    if n > 0 {
      ReindexIndexes(data, now, n - 1);
      var before := Reindex(data, now, n - 1);
      if before.thrown.None? {
        if Live(data[n - 1], now) {
          ReindexLiveStep(data, now, n);
        } else {
          IndexesStep(before.tables.ips, before.tables.ips, data, now, n, true);
          IndexesStep(before.tables.identities, before.tables.identities, data, now, n, false);
        }
      }
    }
  }

  /** An unexpired entry after exact indexes leaves exact indexes, unless
      it throws. */
  lemma ReindexLiveStep(data: seq<BanEntry>, now: int, n: nat)
    requires 0 < n <= |data| && Live(data[n - 1], now)
    requires Reindex(data, now, n - 1).thrown.None?
    requires Indexes(Reindex(data, now, n - 1).tables.ips, data, now, n - 1, true)
    requires Indexes(Reindex(data, now, n - 1).tables.identities, data, now, n - 1, false)
    ensures Reindex(data, now, n).thrown.None? ==>
      && Indexes(Reindex(data, now, n).tables.ips, data, now, n, true)
      && Indexes(Reindex(data, now, n).tables.identities, data, now, n, false)
  {
    var t := Reindex(data, now, n - 1).tables;
    var e := data[n - 1];
    var ids := AddIdentities(t.identities, e.identities, n - 1, |e.identities|);
    assert Reindex(data, now, n) == Reindexed(Tables(AddKeys(t.ips, e.IPs, n - 1, |e.IPs|), ids.table), ids.thrown);
    IPsStep(t.ips, data, now, n);
    if ids.thrown.None? {
      IdentitiesStep(t.identities, data, now, n);
    }
  }

  /** Adding an unexpired entry's IPs to an exact IP index. */
  lemma IPsStep(table: map<string, nat>, data: seq<BanEntry>, now: int, n: nat)
    requires 0 < n <= |data| && Live(data[n - 1], now)
    requires Indexes(table, data, now, n - 1, true)
    ensures Indexes(AddKeys(table, data[n - 1].IPs, n - 1, |data[n - 1].IPs|), data, now, n, true)
  {
    var e := data[n - 1];
    AddKeysMaps(table, e.IPs, n - 1, |e.IPs|);
    IndexesStep(table, AddKeys(table, e.IPs, n - 1, |e.IPs|), data, now, n, true);
  }

  /** Adding an unexpired entry's identities, none `undefined`, to an exact
      identity index. */
  lemma IdentitiesStep(table: map<string, nat>, data: seq<BanEntry>, now: int, n: nat)
    requires 0 < n <= |data| && Live(data[n - 1], now)
    requires Indexes(table, data, now, n - 1, false)
    requires AddIdentities(table, data[n - 1].identities, n - 1, |data[n - 1].identities|).thrown.None?
    ensures Indexes(AddIdentities(table, data[n - 1].identities, n - 1, |data[n - 1].identities|).table, data, now, n, false)
  {
    var e := data[n - 1];
    AddIdentitiesMaps(table, e.identities, n - 1, |e.identities|);
    IndexesStep(table, AddIdentities(table, e.identities, n - 1, |e.identities|).table, data, now, n, false);
  }

  /** Every target in the tables is a position in the list, thrown or not. */
  lemma {:induction false} ReindexBounded(data: seq<BanEntry>, now: int, n: nat)
    requires n <= |data|
    ensures forall k :: k in Reindex(data, now, n).tables.ips ==> Reindex(data, now, n).tables.ips[k] < n
    ensures forall k :: k in Reindex(data, now, n).tables.identities ==> Reindex(data, now, n).tables.identities[k] < n
  {
    if n > 0 {
      ReindexBounded(data, now, n - 1);
      var before := Reindex(data, now, n - 1);
      var e := data[n - 1];
      if before.thrown.None? && Live(e, now) {
        AddKeysMaps(before.tables.ips, e.IPs, n - 1, |e.IPs|);
        AddIdentitiesMaps(before.tables.identities, e.identities, n - 1, |e.identities|);
      }
    }
  }

  /** Once an entry throws, the later entries are not looked at. */
  lemma {:induction false} ReindexStops(data: seq<BanEntry>, now: int, n: nat, m: nat)
    requires n <= m <= |data|
    requires Reindex(data, now, n).thrown.Some?
    ensures Reindex(data, now, m) == Reindex(data, now, n)
    decreases m - n
  {
    if n < m {
      ReindexStops(data, now, n, m - 1);
    }
  }

  /** `save` writes exactly the unexpired entries. */
  lemma {:induction false} UnexpiredFilters(data: seq<BanEntry>, now: int)
    ensures forall e :: e in Unexpired(data, now) <==> e in data && Live(e, now)
  {
    if data != [] {
      UnexpiredFilters(data[1..], now);
      assert data == [data[0]] + data[1..];
    }
  }

  /** `table[x.toLowerCase()] = entry` for every key of one entry. */
  method IndexKeys(table: map<string, nat>, keys: seq<string>, i: nat) returns (r: map<string, nat>)
    ensures r == AddKeys(table, keys, i, |keys|)
  {
    r := table;
    var j := 0;
    while j < |keys|
      invariant 0 <= j <= |keys|
      invariant r == AddKeys(table, keys, i, j)
    {
      r := r[Lower(keys[j]) := i];
      j := j + 1;
    }
  }

  /** The same for identities, throwing on the first `undefined` one. */
  method IndexIdentities(table: map<string, nat>, ids: seq<Option<string>>, i: nat) returns (r: Indexing)
    ensures r == AddIdentities(table, ids, i, |ids|)
  {
    var t: map<string, nat> := table;
    var j := 0;
    while j < |ids|
      invariant 0 <= j <= |ids|
      invariant AddIdentities(table, ids, i, j) == Indexing(t, None)
    {
      if ids[j].None? {
        AddIdentitiesStops(table, ids, i, j + 1, |ids|);
        return Indexing(t, Some(LowerOfUndefined));
      }
      t := t[Lower(ids[j].value) := i];
      j := j + 1;
    }
    r := Indexing(t, None);
  }

  lemma {:induction false} AddIdentitiesStops(table: map<string, nat>, ids: seq<Option<string>>, i: nat, n: nat, m: nat)
    requires n <= m <= |ids|
    requires AddIdentities(table, ids, i, n).thrown.Some?
    ensures AddIdentities(table, ids, i, m) == AddIdentities(table, ids, i, n)
    decreases m - n
  {
    if n < m {
      AddIdentitiesStops(table, ids, i, n, m - 1);
    }
  }

  class Bans {
    var data: seq<BanEntry>
    /** `Math.max` of the timestamps, `None` for `-Infinity`. */
    var lastBan: Option<int>
    var bannedIPs: map<string, nat>
    var bannedIdentities: map<string, nat>
    /** What each `save` handed to the write queue, in order. */
    var saves: seq<seq<BanEntry>>

    /** Every table target is a position in `data`. */
    predicate Valid()
      reads this
    {
      && (forall k :: k in bannedIPs ==> bannedIPs[k] < |data|)
      && (forall k :: k in bannedIdentities ==> bannedIdentities[k] < |data|)
    }

    /** The tables as `recalculate` left them. */
    function TablesNow(): Tables
      reads this
    {
      Tables(bannedIPs, bannedIdentities)
    }

    /** `new Bans()` over the list read from the data file, at time `now`. */
    constructor (data: seq<BanEntry>, now: int)
      ensures Valid()
      ensures this.data == data && saves == []
      ensures lastBan == MaxTimestamp(data)
      ensures TablesNow() == Reindex(data, now, |data|).tables
    {
      this.data := data;
      saves := [];
      new;
      // A recalculation that throws would abort loading the module; the
      // model keeps the tables as far as they got and drops the error.
      var _ := Recalculate(now);
    }

    /** `recalculate()`: rebuild both tables from the unexpired entries. An
        entry listing an `undefined` identity throws partway, leaving the
        tables as far as they got. */
    method Recalculate(now: int) returns (thrown: Option<string>)
      modifies this`lastBan, this`bannedIPs, this`bannedIdentities
      ensures Valid()
      ensures lastBan == MaxTimestamp(data)
      ensures Reindex(data, now, |data|) == Reindexed(TablesNow(), thrown)
    {
      lastBan := MaxTimestamp(data);
      bannedIPs := map[];
      bannedIdentities := map[];
      var i := 0;
      while i < |data|
        invariant 0 <= i <= |data|
        invariant lastBan == MaxTimestamp(data)
        invariant Reindex(data, now, i) == Reindexed(TablesNow(), None)
      {
        if Live(data[i], now) {
          bannedIPs := IndexKeys(bannedIPs, data[i].IPs, i);
          var ids := IndexIdentities(bannedIdentities, data[i].identities, i);
          bannedIdentities := ids.table;
          if ids.thrown.Some? {
            ReindexStops(data, now, i + 1, |data|);
            ReindexBounded(data, now, |data|);
            return ids.thrown;
          }
        }
        i := i + 1;
      }
      ReindexBounded(data, now, |data|);
      thrown := None;
    }

    /** `save()`: queue a write of the unexpired entries. */
    method Save(now: int)
      modifies this`saves
      ensures saves == old(saves) + [Unexpired(data, now)]
    {
      saves := saves + [Unexpired(data, now)];
    }

    /** The entry the tables name for a request: its IP first; its identity
        only when the IP is not banned and the request carries a valid
        signature for a non-empty identity. */
    function Lookup(req: Request): (hit: Option<nat>)
      reads this
      ensures Lower(req.ip) in bannedIPs ==> hit == Some(bannedIPs[Lower(req.ip)])
      ensures Lower(req.ip) !in bannedIPs && hit.Some? ==>
        && req.sig.Some? && req.sig.value.valid
        && req.sig.value.identity.Some? && req.sig.value.identity.value != ""
        && Lower(req.sig.value.identity.value) in bannedIdentities
        && hit == Some(bannedIdentities[Lower(req.sig.value.identity.value)])
      ensures hit.None? <==>
        && Lower(req.ip) !in bannedIPs
        && !(req.sig.Some? && req.sig.value.valid && req.sig.value.identity.Some?
             && req.sig.value.identity.value != "" && Lower(req.sig.value.identity.value) in bannedIdentities)
    {
      var ip := Lower(req.ip);
      if ip in bannedIPs then Some(bannedIPs[ip])
      else if req.sig.Some? && req.sig.value.identity.Some? && req.sig.value.identity.value != "" && req.sig.value.valid
              && Lower(req.sig.value.identity.value) in bannedIdentities
      then Some(bannedIdentities[Lower(req.sig.value.identity.value)])
      else None
    }

    /** `unban(uuid)`: the filter callback reads the undeclared `banEntry`,
        so with any entry present it throws and nothing changes; over an
        empty list it re-indexes and saves the empty list. */
    method Unban(uuid: Value, now: int) returns (thrown: Option<string>)
      requires Valid()
      modifies this
      ensures Valid()
      ensures old(data) != [] ==> thrown == Some(UnbanError) && unchanged(this)
      ensures old(data) == [] ==>
        && thrown.None? && data == [] && lastBan.None?
        && bannedIPs == map[] && bannedIdentities == map[]
        && saves == old(saves) + [[]]
    {
      if data != [] {
        return Some(UnbanError);
      }
      thrown := Recalculate(now);
      Save(now);
    }

    /** `getBan(req)`: the entry the tables name for the request, or `false`
        (`None`). An entry that has run out by `now` is handed to `unban`,
        which throws. */
    method GetBan(req: Request, now: int) returns (r: Result<Option<nat>>)
      requires Valid()
      modifies this
      ensures Valid()
      ensures unchanged(this)
      ensures Lookup(req).Some? && data[Lookup(req).value].expires < now ==> r == Err(UnbanError)
      ensures Lookup(req).None? || data[Lookup(req).value].expires >= now ==> r == Ok(Lookup(req))
    {
      var ban := Lookup(req);
      if ban.Some? && data[ban.value].expires < now {
        var thrown := Unban(Str(data[ban.value].uuid), now);
        return Err(thrown.value);
      }
      r := Ok(ban);
    }

    /** `bannedMiddleware()` on one request. A banned request is refused
        with 403 and the ban widened: the request's IP and its identity are
        each pushed onto the ban unless already listed. An unsigned request
        pushes `undefined`; a request the signature middleware never saw
        throws on `req.sig.identity` after its IP was pushed. Only a ban
        that gained something is re-indexed and saved. */
    method Middleware(req: Request, now: int) returns (v: Verdict)
      requires Valid()
      modifies this
      ensures Valid()
      ensures v.Next? <==> old(Lookup(req)).None?
      ensures v.Threw? <==> old(Lookup(req)).Some? && old(data)[old(Lookup(req)).value].expires < now
      ensures v.Refused? <==> old(Lookup(req)).Some? && old(data)[old(Lookup(req)).value].expires >= now
      ensures v.Next? ==> unchanged(this)
      ensures v.Threw? ==> v == Threw(UnbanError) && unchanged(this)
      ensures v.Refused? ==>
        && old(Lookup(req)) == Some(v.ban)
        && v.ban < |data| == |old(data)|
        && v.reason == old(data)[v.ban].reason
        && v.remaining == old(data)[v.ban].expires - now
        && (forall i :: 0 <= i < |data| && i != v.ban ==> data[i] == old(data)[i])
        && data[v.ban] == old(data)[v.ban].(IPs := data[v.ban].IPs, identities := data[v.ban].identities)
        && data[v.ban].IPs == Widened(old(data)[v.ban].IPs, req.ip)
        && (req.sig.None? ==>
              && data[v.ban].identities == old(data)[v.ban].identities
              && v.thrown == Some("TypeError: Cannot read properties of undefined (reading 'identity')")
              && TablesNow() == old(TablesNow()) && saves == old(saves) && lastBan == old(lastBan))
        && (req.sig.Some? ==>
              && data[v.ban].identities == Widened(old(data)[v.ban].identities, req.sig.value.identity)
              && (data == old(data) ==>
                    v.thrown.None? && TablesNow() == old(TablesNow()) && saves == old(saves) && lastBan == old(lastBan))
              && (data != old(data) ==>
                    && lastBan == MaxTimestamp(data) == MaxTimestamp(old(data))
                    && Reindex(data, now, |data|) == Reindexed(TablesNow(), v.thrown)
                    && saves == old(saves) + (if v.thrown.None? then [Unexpired(data, now)] else [])))
    {
      var found := GetBan(req, now);
      if found.Err? {
        return Threw(found.error);
      }
      if found.value.None? {
        return Next;
      }
      var i := found.value.value;
      var ban := data[i];
      v := Refused(i, ban.reason, ban.expires - now, None);
      var expanded := false;
      if req.ip !in ban.IPs {
        data := data[i := ban.(IPs := ban.IPs + [req.ip])];
        expanded := true;
      }
      if req.sig.None? {
        return v.(thrown := Some("TypeError: Cannot read properties of undefined (reading 'identity')"));
      }
      var identity := req.sig.value.identity;
      if identity !in data[i].identities {
        data := data[i := data[i].(identities := data[i].identities + [identity])];
        expanded := true;
      }
      if expanded {
        SameStampsSameMax(old(data), data);
        var thrown := Recalculate(now);
        if thrown.None? {
          Save(now);
        }
        v := v.(thrown := thrown);
      }
    }

    /** `ban(identity, {reason, duration, authority})`: append a ban of that
        identity alone, lasting `duration` milliseconds (what `parse-duration`
        makes of the given text), then re-index and, unless that throws,
        save. */
    method Ban(identity: Option<string>, reason: Value, duration: int, authority: Value, uuid: string, now: int)
      returns (thrown: Option<string>)
      modifies this
      ensures Valid()
      ensures data == old(data) + [NewBan(identity, reason, duration, authority, uuid, now)]
      ensures lastBan == MaxTimestamp(data)
      ensures Reindex(data, now, |data|) == Reindexed(TablesNow(), thrown)
      ensures saves == old(saves) + (if thrown.None? then [Unexpired(data, now)] else [])
    {
      data := data + [NewBan(identity, reason, duration, authority, uuid, now)];
      thrown := Recalculate(now);
      if thrown.None? {
        Save(now);
      }
    }

    /** `list()`. */
    function List(): seq<BanEntry>
      reads this
    {
      data
    }
  }

  /** `list.includes(x) ? list : [...list, x]`: the middleware's push. */
  function Widened<T(==,!new)>(list: seq<T>, x: T): (r: seq<T>)
    ensures x in r
    ensures forall y :: y in r <==> y in list || y == x
  {
    if x in list then list else list + [x]
  }

  /** Widening never introduces a duplicate. */
  lemma WidenedKeepsDistinct<T(!new)>(list: seq<T>, x: T)
    requires forall i, j :: 0 <= i < j < |list| ==> list[i] != list[j]
    ensures var r := Widened(list, x);
      forall i, j :: 0 <= i < j < |r| ==> r[i] != r[j]
  {
  }

  /** A new ban is found by the identity it names, for a signed request,
      until it runs out, unless an IP ban already answers the request. */
  lemma NewBanFoundByIdentity(data: seq<BanEntry>, identity: string, reason: Value, duration: int,
                              authority: Value, uuid: string, now: int)
    requires duration > 0
    requires forall i :: 0 <= i < |data| && Live(data[i], now) ==> Named(data[i])
    ensures var d := data + [NewBan(Some(identity), reason, duration, authority, uuid, now)];
      && Reindex(d, now, |d|).thrown.None?
      && Lower(identity) in Reindex(d, now, |d|).tables.identities
      && Reindex(d, now, |d|).tables.identities[Lower(identity)] == |data|
  {
    var d := data + [NewBan(Some(identity), reason, duration, authority, uuid, now)];
    assert forall i :: 0 <= i < |data| ==> d[i] == data[i];
    ReindexThrows(d, now, |d|);
    ReindexIndexes(d, now, |d|);
    var t := Reindex(d, now, |d|).tables.identities;
    assert Lower(identity) in Listed(d[|data|], false) by {
      assert d[|data|].identities == [Some(identity)];
    }
    assert Lower(identity) in t;
  }
}
