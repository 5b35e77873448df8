/** The authority registry (library/server-data/authorities.js): a map from
    public key to the record of the role that key holds, and the guard chain
    that accepts or refuses the badge a client presents. Signature checking
    is a boolean input; the JSON file behind the map is not modelled. */
module Authorities {
  import opened Common
  import opened Values
  import opened Assoc

  /** What `get` throws when it finds no key in its input. */
  const MissingKey: string := "Error: Authorities#credentialsFor: Public Key missing in input"

  /** What `verifyRequest` throws when it filters by role a badge that did
      not verify. */
  const RoleOfUndefined: string := "TypeError: Cannot read properties of undefined (reading 'role')"

  /** `v.k` on a value known not to be `undefined` or `null`. */
  function Prop(v: Value, k: string): Value {
    var m := Member(v, k);
    if m.Ok? then m.value else Undefined
  }

  /** The record `set` stores: `{role, note, created}`, with `note`
      defaulting to the empty string when it is not given. */
  function Credential(role: Value, note: Value, created: int): Value {
    Obj(map["role" := role, "note" := (if note.Undefined? then Str("") else note), "created" := Num(created)])
  }

  /** One element of `list()`: `{identity: key, ...value}`. The stored
      record's own properties win, its own `identity` included. */
  function ListRecord(key: string, stored: Value): (r: Value)
    ensures r.Obj?
    ensures r.fields.Keys == Spread(stored).Keys + {"identity"}
    ensures forall f :: f in Spread(stored) ==> r.fields[f] == Spread(stored)[f]
    ensures "identity" !in Spread(stored) ==> r.fields["identity"] == Str(key)
  {
    Obj(map["identity" := Str(key)] + Spread(stored))
  }

  /** `badge.timestamp` as a number of milliseconds for the subtraction in
      `verify`: a number or a boolean converts, anything else is `NaN`
      (`None`). */
  function Millis(v: Value): Option<int> {
    match v
    case Num(n) => Some(n)
    case Bool(b) => Some(if b then 1 else 0)
    case Null => Some(0)
    case _ => None
  }

  /** `Math.abs(badge.timestamp - now) < 60000`; false for `NaN`. */
  predicate WithinMinute(timestamp: Value, now: int) {
    var t := Millis(timestamp);
    t.Some? && -60000 < t.value - now < 60000
  }

  /** `validRoles.includes(badge.role)` on a badge that is an object: its
      `role` is a string among the roles. */
  predicate HasRole(badge: Value, validRoles: seq<string>) {
    Prop(badge, "role").Str? && Prop(badge, "role").s in validRoles
  }

  /** The badge and its four fields are all present (truthy). */
  predicate Complete(badge: Value) {
    && Truthy(badge)
    && Truthy(Prop(badge, "signature")) && Truthy(Prop(badge, "identity"))
    && Truthy(Prop(badge, "key")) && Truthy(Prop(badge, "timestamp"))
  }

  /** Every guard of `verify` before the key lookup lets the badge through:
      it is complete, its timestamp is NOT within a minute of `now`, it
      names `publicKey`, and its signature checks out (`sigOk`). */
  predicate Admitted(publicKey: string, badge: Value, now: int, sigOk: bool) {
    && Complete(badge)
    && !WithinMinute(Prop(badge, "timestamp"), now)
    && LooseEqStr(Prop(badge, "identity"), publicKey)
    && sigOk
  }

  /** The public key `get` reads from its argument: the argument itself
      when it is a string, else its `sig.identity`, which throws when
      `sig` is missing. */
  function KeyOf(arg: Value): Result<Value> {
    if arg.Str? then Ok(arg)
    else
      var sig := Member(arg, "sig");
      if sig.Err? then sig else Member(sig.value, "identity")
  }

  /** The request fields `verifyRequest` looks at before it verifies: a
      valid signature naming an identity, and a body carrying a badge. */
  predicate Eligible(sig: Option<Sig>, body: Value) {
    && sig.Some? && sig.value.identity.Some? && sig.value.identity.value != "" && sig.value.valid
    && Truthy(body) && Truthy(Prop(body, "badge"))
  }

  /** The object side of an Express request as `verifyRequest` sees it:
      `sig` and `body` are read, `badge` is where the result is cached. */
  class Request {
    const sig: Option<Sig>
    const body: Value
    var badge: Value

    constructor (sig: Option<Sig>, body: Value)
      ensures this.sig == sig && this.body == body && badge == Undefined
    {
      this.sig := sig;
      this.body := body;
      badge := Undefined;
    }
  }

  class Authorities {
    /** Public key to stored record, in insertion order. */
    var data: Dict<Value>

    predicate Valid()
      reads this
    {
      DistinctKeys(data)
    }

    /** The registry over the object read from the data file. */
    constructor (data: Dict<Value>)
      requires DistinctKeys(data)
      ensures Valid() && this.data == data
    {
      this.data := data;
    }

    /** `this.data[key]`, `undefined` when absent. */
    function Credentials(key: string): (r: Value)
      reads this
      ensures Lookup(data, key).Some? ==> r == Lookup(data, key).value
      ensures Lookup(data, key).None? ==> r.Undefined?
    {
      var found := Lookup(data, key);
      if found.Some? then found.value else Undefined
    }

    /** `list()`: one record per stored key, in order, naming its key as
        `identity` unless the stored record has an `identity` of its own. */
    function List(): (r: seq<Value>)
      reads this
      ensures |r| == |data|
      ensures forall i :: 0 <= i < |r| ==>
        && r[i].Obj? && "identity" in r[i].fields
        && ("identity" !in Spread(data[i].1) ==> r[i].fields["identity"] == Str(data[i].0))
        && forall f :: f in Spread(data[i].1) ==> f in r[i].fields && r[i].fields[f] == Spread(data[i].1)[f]
    {
      seq(|data|, i requires 0 <= i < |data| reads this => ListRecord(data[i].0, data[i].1))
    }

    /** `get(requestOrPublicKeyString)`: the stored record for a key string
        or for a request's `sig.identity`; throws when that key is missing
        (falsy) or the request has no `sig`. */
    function Get(arg: Value): (r: Result<Value>)
      reads this
      ensures KeyOf(arg).Err? ==> r == Err(KeyOf(arg).error)
      ensures KeyOf(arg).Ok? && !Truthy(KeyOf(arg).value) ==> r == Err(MissingKey)
      ensures KeyOf(arg).Ok? && Truthy(KeyOf(arg).value) ==> r == Ok(Credentials(Key(KeyOf(arg).value)))
      ensures arg.Str? ==> r == if arg.s == "" then Err(MissingKey) else Ok(Credentials(arg.s))
    {
      var key := KeyOf(arg);
      if key.Err? then Err(key.error)
      else if !Truthy(key.value) then Err(MissingKey)
      else Ok(Credentials(Key(key.value)))
    }

    /** `set(publicKey, roleName, note)`: store a fresh record under the key,
        leaving every other key as it was. */
    method Set(publicKey: Value, roleName: Value, note: Value, now: int)
      requires Valid()
      modifies this
      ensures Valid()
      ensures data == Put(old(data), Key(publicKey), Credential(roleName, note, now))
      ensures Credentials(Key(publicKey)) == Credential(roleName, note, now)
      ensures forall q :: q != Key(publicKey) ==> Credentials(q) == old(Credentials(q))
    {
      var k := Key(publicKey);
      PutDistinct(data, k, Credential(roleName, note, now));
      forall q {
        LookupPut(data, k, Credential(roleName, note, now), q);
      }
      data := Put(data, k, Credential(roleName, note, now));
    }

    /** `delete(publicKey)`: forget the key, leaving every other key as it
        was. */
    method Delete(publicKey: Value)
      requires Valid()
      modifies this
      ensures Valid()
      ensures data == Remove(old(data), Key(publicKey))
      ensures Credentials(Key(publicKey)).Undefined?
      ensures forall q :: q != Key(publicKey) ==> Credentials(q) == old(Credentials(q))
    {
      var k := Key(publicKey);
      RemoveDistinct(data, k);
      forall q {
        LookupRemove(data, k, q);
      }
      data := Remove(data, k);
    }

    /** `verify(publicKey, badge)`: `undefined` unless every guard admits
        the badge; then the record registered for the badge's key, or
        `undefined` when there is none. Looking up a key that is not a
        string goes through `get`'s request branch, which can throw. */
    function Verify(publicKey: string, badge: Value, now: int, sigOk: bool): (r: Result<Value>)
      reads this
      ensures !Admitted(publicKey, badge, now, sigOk) ==> r == Ok(Undefined)
      ensures r.Err? ==> r == Get(Prop(badge, "key"))
      ensures r.Ok? && Truthy(r.value) ==>
        && Admitted(publicKey, badge, now, sigOk)
        && Get(Prop(badge, "key")) == r
      ensures r.Ok? && !Truthy(r.value) ==> r.value == Undefined
      ensures Admitted(publicKey, badge, now, sigOk) && Prop(badge, "key").Str? ==>
        r == Ok(if Truthy(Credentials(Prop(badge, "key").s)) then Credentials(Prop(badge, "key").s) else Undefined)
    {
      if !Complete(badge) then Ok(Undefined)
      else if WithinMinute(Prop(badge, "timestamp"), now) then Ok(Undefined)
      else if !LooseEqStr(Prop(badge, "identity"), publicKey) then Ok(Undefined)
      else if !sigOk then Ok(Undefined)
      else
        var auth := Get(Prop(badge, "key"));
        if auth.Err? then auth
        else if !Truthy(auth.value) then Ok(Undefined)
        else auth
    }

    /** The badge `verifyRequest` holds before it filters by role: the one
        already cached on the request, `undefined` for a request it does
        not verify, else what `verify` makes of the body's badge. */
    function Settled(badge: Value, sig: Option<Sig>, body: Value, now: int, sigOk: bool): (r: Result<Value>)
      reads this
      ensures Truthy(badge) ==> r == Ok(badge)
      ensures !Truthy(badge) && !Eligible(sig, body) ==> r == Ok(Undefined)
      ensures r.Ok? && !Truthy(r.value) ==> r.value == Undefined
    {
      if Truthy(badge) then Ok(badge)
      else if !Eligible(sig, body) then Ok(Undefined)
      else Verify(sig.value.identity.value, Prop(body, "badge"), now, sigOk)
    }

    /** `verifyRequest(req, validRoles)`: verify the request's badge once,
        caching the outcome on `req.badge`, then return it if no roles are
        asked for or its role is one of them. A request that was never
        verified before, and whose badge fails, is not cached; filtering
        such a request by role throws. */
    method VerifyRequest(req: Request, validRoles: Option<seq<string>>, now: int, sigOk: bool)
      returns (r: Result<Value>)
      modifies req
      ensures old(Truthy(req.badge)) ==>
        && req.badge == old(req.badge)
        && (validRoles.None? ==> r == Ok(req.badge))
        && (validRoles.Some? ==> r == Ok(if HasRole(req.badge, validRoles.value) then req.badge else Undefined))
      ensures !old(Truthy(req.badge)) && !Eligible(req.sig, req.body) ==>
        r == Ok(Undefined) && req.badge == old(req.badge)
      ensures !old(Truthy(req.badge)) && Eligible(req.sig, req.body) ==>
        var v := Verify(req.sig.value.identity.value, Prop(req.body, "badge"), now, sigOk);
        && (v.Err? ==> r == v && req.badge == old(req.badge))
        && (v.Ok? ==> req.badge == v.value)
        && (v.Ok? && validRoles.None? ==> r == v)
        && (v.Ok? && validRoles.Some? && Truthy(v.value) ==>
              r == Ok(if HasRole(v.value, validRoles.value) then v.value else Undefined))
        && (v.Ok? && validRoles.Some? && !Truthy(v.value) ==> r == Err(RoleOfUndefined))
      ensures r.Ok? && Truthy(r.value) ==>
        && r.value == req.badge
        && (validRoles.Some? ==> HasRole(req.badge, validRoles.value))
    {
      if !Truthy(req.badge) {
        if !Eligible(req.sig, req.body) {
          return Ok(Undefined);
        }
        var verified := Verify(req.sig.value.identity.value, Prop(req.body, "badge"), now, sigOk);
        if verified.Err? {
          return verified;
        }
        req.badge := verified.value;
      }
      if validRoles.None? {
        return Ok(req.badge);
      }
      var role := Member(req.badge, "role");
      if role.Err? {
        return Err(role.error);
      }
      if HasRole(req.badge, validRoles.value) {
        return Ok(req.badge);
      }
      r := Ok(Undefined);
    }
  }

  /** A badge whose timestamp is within a minute of the server's clock is
      always refused: the freshness guard is inverted, so only badges at
      least a minute old or ahead (or with a timestamp that is not a
      number) can verify. */
  lemma FreshBadgeRefused(a: Authorities, publicKey: string, badge: Value, now: int, sigOk: bool)
    requires WithinMinute(Prop(badge, "timestamp"), now)
    ensures a.Verify(publicKey, badge, now, sigOk) == Ok(Undefined)
  {
  }

  /** A badge that verifies names a key registered in the map, the record
      returned being the one stored under it. */
  lemma VerifiedIsRegistered(a: Authorities, publicKey: string, badge: Value, now: int, sigOk: bool)
    requires Prop(badge, "key").Str?
    requires a.Verify(publicKey, badge, now, sigOk).Ok?
    requires Truthy(a.Verify(publicKey, badge, now, sigOk).value)
    ensures Lookup(a.data, Prop(badge, "key").s) == Some(a.Verify(publicKey, badge, now, sigOk).value)
  {
  }

  /** A record stored by `set` is listed under its own key. */
  lemma SetRecordListed(key: string, role: Value, note: Value, now: int)
    ensures ListRecord(key, Credential(role, note, now)).fields["identity"] == Str(key)
    ensures ListRecord(key, Credential(role, note, now)).fields["role"] == role
  {
  }
}
