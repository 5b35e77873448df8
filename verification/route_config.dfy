/** The avatar decorations list of the configuration routes
    (library/server-routes/route-config.js): the decoration image files
    grouped by name and resolution. */
module Decorations {
  import opened Common
  import opened Values
  import opened Assoc

  /** The image extensions the decoration file pattern strips. */
  const Extensions: seq<string> := ["png", "jpeg", "gif", "webp", "heif"]

  /** The file name ends with `.` and the extension. */
  predicate HasExtension(filename: string, ext: string) {
    |filename| > |ext| && filename[|filename| - |ext| - 1..] == "." + ext
  }

  /** `filename.replace(/\.(png|jpeg|gif|webp|heif)$/, '')`. */
  function BaseName(filename: string): string {
    StripFirst(filename, 0)
  }

  /** Strip the first extension from `Extensions[i..]` the name ends with. */
  function StripFirst(filename: string, i: nat): string
    requires i <= |Extensions|
    decreases |Extensions| - i
  {
    if i == |Extensions| then filename
    else if HasExtension(filename, Extensions[i]) then filename[..|filename| - |Extensions[i]| - 1]
    else StripFirst(filename, i + 1)
  }

  /** Stripping only ever removes a dot and one of the extensions: the
      name is the base name, or the base name, a dot and an extension; a
      name ending in none of them is its own base name. */
  lemma BaseNameStrips(filename: string)
    ensures BaseName(filename) == filename || exists e :: e in Extensions && filename == BaseName(filename) + "." + e
    ensures (forall e :: e in Extensions ==> !HasExtension(filename, e)) ==> BaseName(filename) == filename
  {
    StripFirstStrips(filename, 0);
  }

  lemma {:induction false} StripFirstStrips(filename: string, i: nat)
    requires i <= |Extensions|
    ensures StripFirst(filename, i) == filename || exists e :: e in Extensions && filename == StripFirst(filename, i) + "." + e
    ensures (forall j :: i <= j < |Extensions| ==> !HasExtension(filename, Extensions[j])) ==> StripFirst(filename, i) == filename
    decreases |Extensions| - i
  {
    if i < |Extensions| {
      var e := Extensions[i];
      if HasExtension(filename, e) {
        var r := filename[..|filename| - |e| - 1];
        assert filename == r + ("." + e) by {
          assert filename == r + filename[|filename| - |e| - 1..];
        }
        assert r + "." + e == r + ("." + e);
        assert StripFirst(filename, i) == r;
        assert e in Extensions && filename == StripFirst(filename, i) + "." + e;
      } else {
        StripFirstStrips(filename, i + 1);
      }
    }
  }

  /** Where a file lands in the decorations list: its name and its
      resolution. */
  datatype Label = Label(name: string, res: string)

  /** The position of the first `c` in `s` from `from` on, or the length
      of `s` when there is none: where a piece of `s.split(c)` ends. */
  function NextSep(s: string, c: char, from: nat): (i: nat)
    requires from <= |s|
    ensures from <= i <= |s|
    decreases |s| - from
  {
    if from == |s| || s[from] == c then from else NextSep(s, c, from + 1)
  }

  /** `let [name, res] = baseName.split('@'); if (!res) res = '1x'`: the
      name is the text before the first `@`, the resolution the piece
      after it, `1x` when that piece is missing or empty. */
  function LabelOf(filename: string): Label {
    var base := BaseName(filename);
    var i := NextSep(base, '@', 0);
    var second := if i < |base| then base[i + 1..NextSep(base, '@', i + 1)] else "";
    Label(base[..i], if second != "" then second else "1x")
  }

  /** With no `c` from `from` on, the piece runs to the end. */
  lemma {:induction false} NoSepAhead(s: string, c: char, from: nat)
    requires from <= |s|
    requires forall k :: from <= k < |s| ==> s[k] != c
    ensures NextSep(s, c, from) == |s|
    decreases |s| - from
  {
    if from < |s| {
      NoSepAhead(s, c, from + 1);
    }
  }

  /** The first `c` at or after `from` is found at `at` when none comes
      between. */
  lemma {:induction false} SepAt(s: string, c: char, from: nat, at: nat)
    requires from <= at < |s| && s[at] == c
    requires forall k :: from <= k < at ==> s[k] != c
    ensures NextSep(s, c, from) == at
    decreases at - from
  {
    if from < at {
      SepAt(s, c, from + 1, at);
    }
  }

  /** A name with no `@` is labelled by itself at `1x`; `name@res` with a
      resolution free of `@` is labelled by those two parts, `1x` standing
      in for an empty resolution. */
  lemma LabelParts(filename: string, name: string, res: string)
    requires '@' !in name && '@' !in res
    ensures BaseName(filename) == name ==> LabelOf(filename) == Label(name, "1x")
    ensures BaseName(filename) == name + "@" + res ==> LabelOf(filename) == Label(name, if res == "" then "1x" else res)
  {
    var base := BaseName(filename);
    if base == name {
      NoSepAhead(name, '@', 0);
      assert name[..|name|] == name;
    }
    if base == name + "@" + res {
      SepAt(base, '@', 0, |name|);
      NoSepAhead(base, '@', |name| + 1);
      assert base[..|name|] == name;
      assert base[|name| + 1..|base|] == res;
    }
  }

  /** A file with the label it is filed under. */
  datatype Filing = Filing(place: Label, file: string)

  /** Every file with its label, in order. */
  function Filings(files: seq<string>): (r: seq<Filing>)
    ensures |r| == |files|
  {
    seq(|files|, i requires 0 <= i < |files| => Filing(LabelOf(files[i]), files[i]))
  }

  /** The decorations object after the first `n` filings:
      `data[name] = data[name] || {}; data[name][res] = filename`. */
  function Grouped(filings: seq<Filing>, n: nat): Dict<Dict<string>>
    requires n <= |filings|
  {
    if n == 0 then [] else Filed(Grouped(filings, n - 1), filings[n - 1])
  }

  /** One iteration: the file under its name and resolution. */
  function Filed(data: Dict<Dict<string>>, f: Filing): Dict<Dict<string>> {
    var inner := Lookup(data, f.place.name);
    Put(data, f.place.name, Put(if inner.Some? then inner.value else [], f.place.res, f.file))
  }

  /** The last of the first `n` files filed under the label. */
  function LastLabelled(filings: seq<Filing>, l: Label, n: nat): (r: Option<string>)
    requires n <= |filings|
    ensures r.None? <==> forall j :: 0 <= j < n ==> filings[j].place != l
    ensures r.Some? ==> exists j :: 0 <= j < n && filings[j] == Filing(l, r.value)
  {
    if n == 0 then None
    else if filings[n - 1].place == l then Some(filings[n - 1].file)
    else LastLabelled(filings, l, n - 1)
  }

  /** Filing one file touches only its own name and, under it, only its
      own resolution. */
  lemma FiledLookup(d: Dict<Dict<string>>, f: Filing, name: string, res: string)
    ensures Lookup(Filed(d, f), name).Some? <==> Lookup(d, name).Some? || f.place.name == name
    ensures f.place.name != name ==> Lookup(Filed(d, f), name) == Lookup(d, name)
    ensures f.place.name == name ==>
      Lookup(Lookup(Filed(d, f), name).value, res) ==
        if f.place.res == res then Some(f.file)
        else if Lookup(d, name).Some? then Lookup(Lookup(d, name).value, res)
        else None
  {
    var inner := Lookup(d, f.place.name);
    var base: Dict<string> := if inner.Some? then inner.value else [];
    LookupPut(d, f.place.name, Put(base, f.place.res, f.file), name);
    LookupPut(base, f.place.res, f.file, res);
  }

  /** A name is listed exactly when some file carries it. */
  lemma {:induction false} GroupedNames(filings: seq<Filing>, n: nat, name: string)
    requires n <= |filings|
    ensures Lookup(Grouped(filings, n), name).Some? <==> exists j :: 0 <= j < n && filings[j].place.name == name
  {
    if n > 0 {
      GroupedNames(filings, n - 1, name);
      FiledLookup(Grouped(filings, n - 1), filings[n - 1], name, "");
    }
  }

  /** Under each of its resolutions a name holds the last file with that
      name and resolution. */
  lemma {:induction false} GroupedFiles(filings: seq<Filing>, n: nat, name: string, res: string)
    requires n <= |filings|
    requires Lookup(Grouped(filings, n), name).Some?
    ensures Lookup(Lookup(Grouped(filings, n), name).value, res) == LastLabelled(filings, Label(name, res), n)
  {
    var d := Grouped(filings, n - 1);
    var f := filings[n - 1];
    FiledLookup(d, f, name, res);
    if f.place.name != name || Lookup(d, name).Some? {
      GroupedFiles(filings, n - 1, name, res);
    } else {
      GroupedNames(filings, n - 1, name);
    }
  }

  /** The `GET /avatar-decorations` loop over the decoration file names. */
  method AvatarDecorations(files: seq<string>) returns (data: Dict<Dict<string>>)
    ensures data == Grouped(Filings(files), |files|)
  {
    ghost var filings := Filings(files);
    data := [];
    var i := 0;
    while i < |files|
      invariant 0 <= i <= |files|
      invariant data == Grouped(filings, i)
    {
      data := FileDecoration(data, files, i, filings);
      i := i + 1;
    }
  }

  /** One iteration: label the file by its base name and file it. */
  method FileDecoration(data: Dict<Dict<string>>, files: seq<string>, i: nat, ghost filings: seq<Filing>)
    returns (next: Dict<Dict<string>>)
    requires filings == Filings(files) && i < |files|
    requires data == Grouped(filings, i)
    ensures next == Grouped(filings, i + 1)
  {
    var f := Filing(LabelOf(files[i]), files[i]);
    assert f == filings[i];
    next := Filed(data, f);
  }
}

/** The configuration routes (library/server-routes/route-config.js): the
    list of avatar decorations built from the decoration image files, the
    authority administration routes, which demand an admin badge, and the
    ban administration routes, which demand any verified badge. Each route
    runs after the request-signature and ban middlewares. */
module RouteConfig {
  import opened Common
  import opened Values
  import opened Assoc
  import opened RouteRoom
  import Authorities
  import Bans

  /** What `sendStatus(403)` sends. */
  function Forbidden(): Reply {
    Status(403, Str("Forbidden"))
  }

  /** `requireSignature`: a request without a valid signature is refused
      with 401; one the signature middleware never saw throws. */
  function RequireSignature(sig: Option<Sig>): (r: Option<Reply>)
    ensures r.None? <==> sig.Some? && sig.value.valid
  {
    if sig.None? then Some(Threw("Error: Identity.verifySignatures middleware not run before requireSignature"))
    else if !sig.value.valid then Some(Status(401, ErrorBody("Bathtub identity signature headers/query parameters are invalid or missing")))
    else None
  }

  /** The badge of the request holds the admin role. */
  predicate IsAdmin(badge: Value) {
    Truthy(badge) && Authorities.Prop(badge, "role") == Str("admin")
  }

  /** `verifyRequest` settled on an admin's badge. */
  predicate AdminSettled(b: Result<Value>) {
    b.Ok? && IsAdmin(b.value)
  }

  /** `POST /authorities/`: the authority list, for an admin only. */
  method ListAuthorities(auth: Authorities.Authorities, req: Authorities.Request, now: int, sigOk: bool)
    returns (reply: Reply)
    modifies req
    ensures RequireSignature(req.sig).Some? ==> reply == RequireSignature(req.sig).value
    ensures RequireSignature(req.sig).None? ==>
      var b := old(auth.Settled(req.badge, req.sig, req.body, now, sigOk));
      && (b.Err? ==> reply == Threw(b.error))
      && (b.Ok? && IsAdmin(b.value) ==> reply == Status(200, Arr(auth.List())))
      && (b.Ok? && Truthy(b.value) && !IsAdmin(b.value) ==> reply == Forbidden())
      && (b.Ok? && !Truthy(b.value) ==>
            reply == if Authorities.Eligible(req.sig, req.body) then Threw(Authorities.RoleOfUndefined) else Forbidden())
    ensures reply.Status? && reply.code == 200 ==>
      IsAdmin(req.badge) && reply.body == Arr(auth.List())
  {
    var refused := RequireSignature(req.sig);
    if refused.Some? {
      return refused.value;
    }
    var verified := auth.VerifyRequest(req, Some(["admin"]), now, sigOk);
    if verified.Err? {
      return Threw(verified.error);
    }
    if !Truthy(verified.value) {
      return Forbidden();
    }
    reply := Status(200, Arr(auth.List()));
  }

  /** `POST /authorities/:key/create`: an admin registers `key` with the
      body's role and an empty note; nobody else changes anything. */
  method CreateAuthority(auth: Authorities.Authorities, req: Authorities.Request, key: string, now: int, sigOk: bool)
    returns (reply: Reply)
    requires auth.Valid()
    modifies req, auth
    ensures auth.Valid()
    ensures RequireSignature(req.sig).None? && AdminSettled(old(auth.Settled(req.badge, req.sig, req.body, now, sigOk)))
            && Member(req.body, "role").Ok? ==>
      reply == Status(200, OkBody())
    ensures reply == Status(200, OkBody()) ==>
      && IsAdmin(req.badge)
      && auth.data == Put(old(auth.data), key, Authorities.Credential(Authorities.Prop(req.body, "role"), Undefined, now))
    ensures reply != Status(200, OkBody()) ==> auth.data == old(auth.data)
  {
    var refused := RequireSignature(req.sig);
    if refused.Some? {
      return refused.value;
    }
    var verified := auth.VerifyRequest(req, Some(["admin"]), now, sigOk);
    if verified.Err? {
      return Threw(verified.error);
    }
    if !Truthy(verified.value) {
      return Forbidden();
    }
    var role := Member(req.body, "role");
    if role.Err? {
      return Threw(role.error);
    }
    auth.Set(Str(key), role.value, Undefined, now);
    reply := Status(200, OkBody());
  }

  /** `POST /authorities/:key/delete`: an admin removes `key`; nobody else
      changes anything. The body's role is read, and ignored. */
  method DeleteAuthority(auth: Authorities.Authorities, req: Authorities.Request, key: string, now: int, sigOk: bool)
    returns (reply: Reply)
    requires auth.Valid()
    modifies req, auth
    ensures auth.Valid()
    ensures RequireSignature(req.sig).None? && AdminSettled(old(auth.Settled(req.badge, req.sig, req.body, now, sigOk)))
            && Member(req.body, "role").Ok? ==>
      reply == Status(200, OkBody())
    ensures reply == Status(200, OkBody()) ==>
      IsAdmin(req.badge) && auth.data == Remove(old(auth.data), key)
    ensures reply != Status(200, OkBody()) ==> auth.data == old(auth.data)
  {
    var refused := RequireSignature(req.sig);
    if refused.Some? {
      return refused.value;
    }
    var verified := auth.VerifyRequest(req, Some(["admin"]), now, sigOk);
    if verified.Err? {
      return Threw(verified.error);
    }
    if !Truthy(verified.value) {
      return Forbidden();
    }
    var role := Member(req.body, "role");
    if role.Err? {
      return Threw(role.error);
    }
    auth.Delete(Str(key));
    reply := Status(200, OkBody());
  }

  /** `POST /authorities/:key/verify`: whether the body's badge verifies
      for the signing identity, with the record when it does. */
  method VerifyBadge(auth: Authorities.Authorities, sig: Option<Sig>, body: Value, now: int, sigOk: bool)
    returns (reply: Reply)
    ensures RequireSignature(sig).Some? ==> reply == RequireSignature(sig).value
    ensures RequireSignature(sig).None? && Member(body, "badge").Err? ==> reply == Threw(Member(body, "badge").error)
    ensures RequireSignature(sig).None? && Member(body, "badge").Ok? && sig.value.identity.None? ==>
      reply == Status(200, Obj(map["valid" := Bool(false)]))
    ensures RequireSignature(sig).None? && Member(body, "badge").Ok? && sig.value.identity.Some? ==>
      var v := auth.Verify(sig.value.identity.value, Member(body, "badge").value, now, sigOk);
      && (v.Err? ==> reply == Threw(v.error))
      && (v.Ok? && Truthy(v.value) ==> reply == Status(200, Obj(map["valid" := Bool(true), "info" := v.value])))
      && (v.Ok? && !Truthy(v.value) ==> reply == Status(200, Obj(map["valid" := Bool(false)])))
    ensures reply.Status? && reply.code == 200 && reply.body != Obj(map["valid" := Bool(false)]) ==>
      && sig.Some? && sig.value.identity.Some?
      && Member(body, "badge").Ok?
      && Authorities.Admitted(sig.value.identity.value, Member(body, "badge").value, now, sigOk)
  {
    var refused := RequireSignature(sig);
    if refused.Some? {
      return refused.value;
    }
    var badge := Member(body, "badge");
    if badge.Err? {
      return Threw(badge.error);
    }
    if sig.value.identity.None? {
      // `verify(undefined, badge)`: no badge identity equals `undefined`.
      return Status(200, Obj(map["valid" := Bool(false)]));
    }
    var response := auth.Verify(sig.value.identity.value, badge.value, now, sigOk);
    if response.Err? {
      return Threw(response.error);
    }
    if Truthy(response.value) {
      reply := Status(200, Obj(map["valid" := Bool(true), "info" := response.value]));
    } else {
      reply := Status(200, Obj(map["valid" := Bool(false)]));
    }
  }

  /** A ban entry as JSON. */
  function BanObject(e: Bans.BanEntry): Value {
    Obj(map[
      "identities" := Arr(seq(|e.identities|, i requires 0 <= i < |e.identities| =>
                            if e.identities[i].Some? then Str(e.identities[i].value) else Undefined)),
      "IPs" := Arr(seq(|e.IPs|, i requires 0 <= i < |e.IPs| => Str(e.IPs[i]))),
      "reason" := e.reason, "timestamp" := Num(e.timestamp), "expires" := Num(e.expires),
      "uuid" := Str(e.uuid), "authority" := e.authority])
  }

  /** `bans.list()` as JSON, entry by entry. */
  function BanList(list: seq<Bans.BanEntry>): (r: seq<Value>)
    ensures |r| == |list| && forall i :: 0 <= i < |list| ==> r[i] == BanObject(list[i])
  {
    seq(|list|, i requires 0 <= i < |list| => BanObject(list[i]))
  }

  /** `POST /bans`: the ban list, for any verified badge, whatever its
      role. */
  method ListBans(auth: Authorities.Authorities, bans: Bans.Bans, req: Authorities.Request, now: int, sigOk: bool)
    returns (reply: Reply)
    modifies req
    ensures RequireSignature(req.sig).Some? ==> reply == RequireSignature(req.sig).value
    ensures RequireSignature(req.sig).None? ==>
      var b := old(auth.Settled(req.badge, req.sig, req.body, now, sigOk));
      && (b.Err? ==> reply == Threw(b.error))
      && (b.Ok? && Truthy(b.value) ==>
            reply == Status(200, Arr(BanList(bans.data))))
      && (b.Ok? && !Truthy(b.value) ==> reply == Forbidden())
    ensures reply.Status? && reply.code == 200 ==>
      && Truthy(req.badge)
      && reply.body == Arr(BanList(bans.data))
  {
    var refused := RequireSignature(req.sig);
    if refused.Some? {
      return refused.value;
    }
    var verified := auth.VerifyRequest(req, None, now, sigOk);
    if verified.Err? {
      return Threw(verified.error);
    }
    if !Truthy(verified.value) {
      return Forbidden();
    }
    var list := bans.List();
    reply := Status(200, Arr(BanList(list)));
  }

  /** What `POST /bans/create` throws once the badge verifies: the ban
      options name `auth`, which the handler never declares. */
  const AuthUndeclared: string := "ReferenceError: auth is not defined"

  /** `POST /bans/create`: no request ever reaches `bans.ban`. A verified
      one throws while the ban options are built; the others are refused. */
  method CreateBan(auth: Authorities.Authorities, req: Authorities.Request, now: int, sigOk: bool)
    returns (reply: Reply)
    modifies req
    ensures reply.Threw? || reply == Forbidden() || Some(reply) == RequireSignature(req.sig)
    ensures Truthy(req.badge) && req.sig.Some? && req.sig.value.valid ==> reply.Threw?
  {
    var refused := RequireSignature(req.sig);
    if refused.Some? {
      return refused.value;
    }
    var verified := auth.VerifyRequest(req, None, now, sigOk);
    if verified.Err? {
      return Threw(verified.error);
    }
    if !Truthy(verified.value) {
      return Forbidden();
    }
    var target := Member(req.body, "targetIdentity");
    if target.Err? {
      return Threw(target.error);
    }
    reply := Threw(AuthUndeclared);
  }

  /** `POST /bans/:uuid/delete`: `unban` with the body's uuid, for any
      verified badge; it throws whenever any ban exists. */
  method DeleteBan(auth: Authorities.Authorities, bans: Bans.Bans, req: Authorities.Request, now: int, sigOk: bool)
    returns (reply: Reply)
    requires bans.Valid()
    modifies req, bans
    ensures bans.Valid()
    ensures reply == Status(200, OkBody()) ==> Truthy(req.badge) && old(bans.data) == [] && bans.data == []
    ensures old(bans.data) != [] ==> bans.data == old(bans.data) && reply != Status(200, OkBody())
  {
    var refused := RequireSignature(req.sig);
    if refused.Some? {
      return refused.value;
    }
    var verified := auth.VerifyRequest(req, None, now, sigOk);
    if verified.Err? {
      return Threw(verified.error);
    }
    if !Truthy(verified.value) {
      return Forbidden();
    }
    var uuid := Member(req.body, "uuid");
    if uuid.Err? {
      return Threw(uuid.error);
    }
    var thrown := bans.Unban(uuid.value, now);
    if thrown.Some? {
      return Threw(thrown.value);
    }
    reply := Status(200, OkBody());
  }
}
