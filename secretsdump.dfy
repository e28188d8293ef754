/**
 * jackal/scripts/secretsdump.py: the host address is read from the file name (the first
 * dotted-quad-shaped text in it), and every hash line of the dump (`user:rid:lm:nt:::`,
 * seven colon-separated fields) tags its User and finds or creates its NTLM Credential.
 */
module SecretsDump {
  import opened Wrappers
  import opened Text
  import opened Values
  import opened Store
  import opened Documents
  import opened Core
  import DumpAddress

  // ---------------------------------------------------------------- hash lines

  /** What a hash line contributes: the account name, and the LM and NT hashes joined by a colon. */
  datatype HashLine = HashLine(username: string, secret: string)

  /** A stripped line of the dump: seven colon-separated fields make a hash line, anything else is malformed. */
  function ParseLine(line: string): (r: Option<HashLine>)
    ensures r.Some? <==> Count(line, ':') == 6
  {
    SplitOnChar(line, ':');
    var s := Split(line, ":");
    if |s| == 7 then Some(HashLine(s[0], s[2] + ":" + s[3])) else None
  }

  /**
   * The line secretsdump writes for an account (`user:rid:lm:nt:::`) is read back as that
   * account with secret `lm:nt`.
   */
  lemma ParseDumpLine(user: string, rid: string, lm: string, nt: string)
    requires ':' !in user && ':' !in rid && ':' !in lm && ':' !in nt
    ensures ParseLine(user + ":" + rid + ":" + lm + ":" + nt + ":::") == Some(HashLine(user, lm + ":" + nt))
  {
    var parts := [user, rid, lm, nt, "", "", ""];
    var line := user + ":" + rid + ":" + lm + ":" + nt + ":::";
    DumpLineFields(user, rid, lm, nt);
    SplitJoin(parts, ":");
    assert Split(line, ":") == parts;
  }

  /** A dump line is its seven fields joined by colons. */
  lemma DumpLineFields(user: string, rid: string, lm: string, nt: string)
    ensures Join([user, rid, lm, nt, "", "", ""], ":") == user + ":" + rid + ":" + lm + ":" + nt + ":::"
  {
    var t1 := [""];
    var t2 := [""] + t1;
    var t3 := [""] + t2;
    var n := [nt] + t3;
    var m := [lm] + n;
    var r := [rid] + m;
    var parts := [user] + r;
    JoinCons("", t1, ":");
    JoinCons("", t2, ":");
    JoinCons(nt, t3, ":");
    JoinCons(lm, n, ":");
    JoinCons(rid, m, ":");
    JoinCons(user, r, ":");
    assert Join(t3, ":") == "::";
    assert Join(n, ":") == nt + ":::";
    assert Join(m, ":") == lm + ":" + nt + ":::";
    assert Join(r, ":") == rid + ":" + lm + ":" + nt + ":::";
    assert parts == [user, rid, lm, nt, "", "", ""];
  }

  /** Joining a part in front of a non-empty list puts a separator after it. */
  lemma JoinCons(part: string, rest: seq<string>, sep: string)
    requires rest != []
    ensures Join([part] + rest, sep) == part + sep + Join(rest, sep)
  {
    assert ([part] + rest)[1..] == rest;
  }

  /** The stripped lines of the file, in order. */
  function Stripped(lines: seq<string>): (r: seq<string>)
    ensures |r| == |lines|
    ensures forall i :: 0 <= i < |lines| ==> r[i] == Strip(lines[i])
  {
    seq(|lines|, i requires 0 <= i < |lines| => Strip(lines[i]))
  }

  /** How many of the lines are hash lines. */
  function HashLineCount(lines: seq<string>): nat
  {
    if lines == [] then 0
    else HashLineCount(lines[..|lines| - 1]) + (if ParseLine(lines[|lines| - 1]).Some? then 1 else 0)
  }

  // ---------------------------------------------------------------- the stores

  /** The tag both the User and the Credential of a hash line receive. */
  const ImportTag := "secretsdump_import"

  const EmptyId := "Empty value passed for a required argument 'id'"
  const ScalarTags := "TypeError: the tags value is not iterable"

  /**
   * `add_tag('secretsdump_import')` on a record: the tag joins the tags and nothing else
   * changes. None when the tags are a true scalar other than a string, which `set()`
   * cannot iterate (a TypeError).
   */
  function Tagged(f: Fields): (r: Option<Fields>)
    ensures r.Some? <==> Taggable(f)
  {
    if Taggable(f) then Some(f["tags" := Many(WithTag(TagsOr(f), ImportTag))]) else None
  }

  /** A record tagged and stamped with created_at for `save()`. */
  function Stamped(f: Fields, now: int): Fields
    requires Taggable(f)
  {
    Tagged(f).value["created_at" := One(Stamp(now))]
  }

  /**
   * The outcome of `us.id_to_object(username)`, `add_tag`, `save()`, and the User store
   * after it: the User is fetched (or created and saved), tagged, stamped with created_at
   * and saved under its username field. An empty username is refused as an id.
   */
  function UserTag(docs: map<string, Fields>, name: string, now: int): (Result<string, string>, map<string, Fields>)
  {
    if name == "" then (Err(EmptyId), docs)
    else
      var base := Fetched(docs, "username", name, now);
      var fetched := AfterFetch(docs, "username", name, now);
      if !Taggable(base) then (Err(ScalarTags), fetched)
      else
        var key := StoreKey(KeyText(base, "username"), name);
        (Ok(key), fetched[key := Stamped(base, now)])
  }

  /** The criteria `find_object` is given: the username, the secret and the host address. */
  function CredentialProbe(h: HashLine, ip: string): Fields
  {
    map["username" := One(Text(h.username)), "secret" := One(Text(h.secret)), "host_ip" := One(Text(ip))]
  }

  /** The keyword arguments of a new NTLM credential on port 445. */
  function NewCredential(h: HashLine, ip: string): Fields
  {
    map["secret" := One(Text(h.secret)), "username" := One(Text(h.username)), "type" := One(Text("ntlm")),
        "host_ip" := One(Text(ip)), "port" := One(Int(445))]
  }

  /** The first stored credential, in search order, with the line's username, secret and host address. */
  function CredentialHit(docs: map<string, Fields>, order: seq<string>, h: HashLine, ip: string): (r: Option<string>)
    ensures r.Some? ==> r.value in docs && Agrees(docs[r.value], CredentialProbe(h, ip), CredentialProbe(h, ip).Keys)
  {
    FirstMatch(order, docs, CredentialProbe(h, ip), CredentialProbe(h, ip).Keys)
  }

  /**
   * The Credential the line works on, as its fields and its id: the first stored match
   * read back through the constructor, or else a new NTLM credential, which has no id yet.
   */
  function Found(docs: map<string, Fields>, order: seq<string>, h: HashLine, ip: string): (Fields, Option<string>)
  {
    var hit := CredentialHit(docs, order, h, ip);
    if hit.Some? then (DropPrivate(docs[hit.value]), InitialId(Credential, docs[hit.value], hit))
    else (DropPrivate(NewCredential(h, ip)), InitialId(Credential, NewCredential(h, ip), None))
  }

  /**
   * The outcome of finding or creating the line's Credential, `add_tag`, `save()`, and
   * the Credential store (records and search order) after it: a found credential is
   * saved back under its own id, a new one under a generated id (`autoId`).
   */
  function CredentialTag(docs: map<string, Fields>, order: seq<string>, h: HashLine, ip: string, now: int, autoId: string)
    : (Result<string, string>, map<string, Fields>, seq<string>)
  {
    var found := Found(docs, order, h, ip);
    if !Taggable(found.0) then (Err(ScalarTags), docs, order)
    else
      var key := StoreKey(found.1, autoId);
      (Ok(key), docs[key := Stamped(found.0, now)], if key in docs then order else order + [key])
  }

  /** The User store, and the Credential store with its search order. */
  datatype Stores = Stores(users: map<string, Fields>, creds: map<string, Fields>, credOrder: seq<string>)

  /** One hash line: its User is tagged first, then its Credential; a failure stops the line there. */
  function LineImport(st: Stores, h: HashLine, ip: string, now: int, autoId: string): (Result<string, string>, Stores)
  {
    var u := UserTag(st.users, h.username, now);
    if u.0.Err? then (Err(u.0.error), st.(users := u.1))
    else
      var c := CredentialTag(st.creds, st.credOrder, h, ip, now, autoId);
      (c.0, Stores(u.1, c.1, c.2))
  }

  /** One stripped line after the run so far: a hash line is imported and counted, any other line skipped. */
  function Step(acc: (Result<nat, string>, Stores), line: string, ip: string, now: int, autoId: string): (Result<nat, string>, Stores)
  {
    if acc.0.Err? then acc
    else
      match ParseLine(line)
      case None => acc
      case Some(h) =>
        var res := LineImport(acc.1, h, ip, now, autoId);
        (if res.0.Err? then Err(res.0.error) else Ok(acc.0.value + 1), res.1)
  }

  /**
   * The loop of `parse_file` over the stripped lines: the count and the stores after
   * it. `ids(i)` is the id Elasticsearch generates for a credential created on line `i`.
   */
  function Run(st: Stores, lines: seq<string>, ip: string, now: int, ids: nat -> string): (Result<nat, string>, Stores)
  {
    if lines == [] then (Ok(0), st)
    else Step(Run(st, lines[..|lines| - 1], ip, now, ids), lines[|lines| - 1], ip, now, ids(|lines| - 1))
  }

  /**
   * `parse_file` as a whole: a path that is not a file, or a name without an address,
   * imports nothing (Ok(None)); otherwise the stripped lines are imported and counted.
   */
  function FileImport(st: Stores, filename: string, isFile: bool, lines: seq<string>, now: int, ids: nat -> string)
    : (Result<Option<nat>, string>, Stores)
  {
    if !isFile then (Ok(None), st)
    else
      match DumpAddress.HostIp(filename)
      case None => (Ok(None), st)
      case Some(ip) =>
        var r := Run(st, Stripped(lines), ip, now, ids);
        (if r.0.Err? then Err(r.0.error) else Ok(Some(r.0.value)), r.1)
  }

  // ---------------------------------------------------------------- the import, step by step

  /** `us.id_to_object(username)`, `add_tag('secretsdump_import')`, `save()`, proved against `UserTag`. */
  method TagUser(users: Index, name: string, now: int) returns (r: Result<string, string>)
    requires users.Valid()
    modifies users
    ensures users.Valid()
    ensures (r, users.docs) == UserTag(old(users.docs), name, now)
    ensures forall id :: id in old(users.docs) ==> id in users.docs
    ensures Appended(old(users.order), old(users.docs), users.order)
  {
    var got := IdToObject(User, users, name, now);
    if got.Err? {
      return Err(EmptyId);
    }
    var user := got.value;
    ghost var base := Fetched(old(users.docs), "username", name, now);
    assert user.fields == base && users.docs == AfterFetch(old(users.docs), "username", name, now);
    if !Taggable(user.fields) {
      return Err(ScalarTags);
    }
    ghost var docs1, order1 := users.docs, users.order;
    var key := SaveTaggedUser(users, user, now, name);
    AppendedTrans(old(users.order), old(users.docs), order1, docs1, users.order);
    r := Ok(key);
    ghost var want := UserTag(old(users.docs), name, now);
    assert want.0 == Ok(key);
  }

  /** A fetched User tagged and saved: it is stored under its username field. */
  method SaveTaggedUser(users: Index, user: Doc, now: int, autoId: string) returns (key: string)
    requires users.Valid() && user.kind == User && Taggable(user.fields)
    modifies users, user
    ensures users.Valid()
    ensures key == StoreKey(KeyText(old(user.fields), "username"), autoId)
    ensures users.docs == old(users.docs)[key := Stamped(old(user.fields), now)]
    ensures users.order == if key in old(users.docs) then old(users.order) else old(users.order) + [key]
    ensures Appended(old(users.order), old(users.docs), users.order)
  {
    ghost var base := user.fields;
    var tagged := user.AddTag(ImportTag);
    TaggedUsername(base);
    assert user.fields == Tagged(base).value;
    assert user.fields["created_at" := One(Stamp(now))] == Stamped(base, now);
    user.Save(users, now, autoId);
    key := user.id.value;
    assert users.docs == old(users.docs)[key := user.fields];
  }

  /** Tagging a User keeps its username, the key it is saved under. */
  lemma TaggedUsername(f: Fields)
    requires Taggable(f)
    ensures Tagged(f) == Some(f["tags" := Many(WithTag(TagsOr(f), ImportTag))])
    ensures SaveId(User, None, Tagged(f).value) == KeyText(f, "username")
  {
    assert KeyText(Tagged(f).value, "username") == KeyText(f, "username");
  }

  /**
   * `cs.find_object(username=, secret=, host_ip=)`, a new `Credential(...)` when nothing
   * is found, then `add_tag` and `save()`, proved against `CredentialTag`.
   */
  method TagCredential(creds: Index, h: HashLine, ip: string, now: int, autoId: string) returns (r: Result<string, string>)
    requires creds.Valid()
    modifies creds
    ensures creds.Valid()
    ensures (r, creds.docs, creds.order) == CredentialTag(old(creds.docs), old(creds.order), h, ip, now, autoId)
  {
    var hit := CredentialHit(creds.docs, creds.order, h, ip);
    var cred: Doc;
    if hit.Some? {
      cred := new Doc.FromHit(Credential, hit.value, creds.docs[hit.value]);
    } else {
      cred := new Doc(Credential, NewCredential(h, ip));
    }
    if !Taggable(cred.fields) {
      return Err(ScalarTags);
    }
    var tagged := cred.AddTag(ImportTag);
    cred.Save(creds, now, autoId);
    r := Ok(cred.id.value);
  }

  /** Both stores as the import sees them. */
  function StoresOf(users: Index, creds: Index): Stores
    reads users, creds
  {
    Stores(users.docs, creds.docs, creds.order)
  }

  /** One stripped line of `parse_file`'s loop, proved against `Step`. */
  method ImportLine(users: Index, creds: Index, line: string, count: nat, ip: string, now: int, autoId: string)
    returns (r: Result<nat, string>)
    requires users.Valid() && creds.Valid() && users != creds
    modifies users, creds
    ensures users.Valid() && creds.Valid()
    ensures (r, StoresOf(users, creds)) == Step((Ok(count), old(StoresOf(users, creds))), line, ip, now, autoId)
    ensures forall id :: id in old(users.docs) ==> id in users.docs
    ensures Appended(old(users.order), old(users.docs), users.order)
  {
    var s := Split(line, ":");
    if |s| != 7 {
      return Ok(count);
    }
    var h := HashLine(s[0], s[2] + ":" + s[3]);
    var u := TagUser(users, h.username, now);
    if u.Err? {
      return Err(u.error);
    }
    var c := TagCredential(creds, h, ip, now, autoId);
    if c.Err? {
      return Err(c.error);
    }
    r := Ok(count + 1);
    ghost var step := Step((Ok(count), old(StoresOf(users, creds))), line, ip, now, autoId);
    assert step.0.Ok? && step.0.value == count + 1;
  }

  /** The run on one more line is one more step after the run so far. */
  lemma RunSnoc(st: Stores, lines: seq<string>, ip: string, now: int, ids: nat -> string, i: nat)
    requires i < |lines|
    ensures Run(st, lines[..i + 1], ip, now, ids) == Step(Run(st, lines[..i], ip, now, ids), lines[i], ip, now, ids(i))
  {
    assert lines[..i + 1][..i] == lines[..i];
  }

  /** A run that failed on a prefix of the lines fails on all of them, with the same stores. */
  lemma {:induction false} RunPrefix(st: Stores, lines: seq<string>, ip: string, now: int, ids: nat -> string, n: nat)
    requires n <= |lines| && Run(st, lines[..n], ip, now, ids).0.Err?
    ensures Run(st, lines, ip, now, ids) == Run(st, lines[..n], ip, now, ids)
    decreases |lines| - n
  {
    if n < |lines| {
      RunSnoc(st, lines, ip, now, ids, n);
      RunPrefix(st, lines, ip, now, ids, n + 1);
    } else {
      assert lines[..n] == lines;
    }
  }

  /**
   * `parse_file(filename)` on a file whose lines are `lines` (`isFile` is
   * `os.path.isfile`), proved against `FileImport`: None when nothing is imported,
   * otherwise the count of imported credentials.
   */
  method ParseFile(users: Index, creds: Index, filename: string, isFile: bool, lines: seq<string>, now: int, ids: nat -> string)
    returns (r: Result<Option<nat>, string>)
    requires users.Valid() && creds.Valid() && users != creds
    modifies users, creds
    ensures users.Valid() && creds.Valid()
    ensures (r, StoresOf(users, creds)) == FileImport(old(StoresOf(users, creds)), filename, isFile, lines, now, ids)
    ensures forall id :: id in old(users.docs) ==> id in users.docs
    ensures Appended(old(users.order), old(users.docs), users.order)
  {
    if !isFile {
      return Ok(None);
    }
    var found := DumpAddress.HostIp(filename);
    if found.None? {
      return Ok(None);
    }
    var ip := found.value;
    var data := Stripped(lines);
    ghost var st := old(StoresOf(users, creds));
    var count := 0;
    var i := 0;
    while i < |data|
      invariant 0 <= i <= |data| && users.Valid() && creds.Valid()
      invariant Run(st, data[..i], ip, now, ids) == (Ok(count), StoresOf(users, creds))
      invariant forall id :: id in old(users.docs) ==> id in users.docs
      invariant Appended(old(users.order), old(users.docs), users.order)
    {
      RunSnoc(st, data, ip, now, ids, i);
      ghost var docs0, order0 := users.docs, users.order;
      var step := ImportLine(users, creds, data[i], count, ip, now, ids(i));
      AppendedTrans(old(users.order), old(users.docs), order0, docs0, users.order);
      if step.Err? {
        RunPrefix(st, data, ip, now, ids, i + 1);
        return Err(step.error);
      }
      count := step.value;
      i := i + 1;
    }
    assert data[..i] == data;
    r := Ok(Some(count));
  }

  // ---------------------------------------------------------------- what the import promises

  /** A successful run counts exactly the hash lines (seven colon-separated fields) among the lines. */
  lemma {:induction false} RunCount(st: Stores, lines: seq<string>, ip: string, now: int, ids: nat -> string)
    requires Run(st, lines, ip, now, ids).0.Ok?
    ensures Run(st, lines, ip, now, ids).0.value == HashLineCount(lines)
  {
    if lines != [] {
      var init := lines[..|lines| - 1];
      assert Run(st, init, ip, now, ids).0.Ok?;
      RunCount(st, init, ip, now, ids);
    }
  }

  /**
   * `parse_file` imports nothing, and changes nothing, exactly when the path is not a
   * file or its name holds no address; otherwise a successful import counts the hash lines.
   */
  lemma FileImportCount(st: Stores, filename: string, isFile: bool, lines: seq<string>, now: int, ids: nat -> string)
    ensures FileImport(st, filename, isFile, lines, now, ids).0 == Ok(None) <==> !isFile || DumpAddress.HostIp(filename).None?
    ensures FileImport(st, filename, isFile, lines, now, ids).0 == Ok(None) ==> FileImport(st, filename, isFile, lines, now, ids).1 == st
    ensures FileImport(st, filename, isFile, lines, now, ids).0.Ok? && FileImport(st, filename, isFile, lines, now, ids).0.value.Some? ==>
      FileImport(st, filename, isFile, lines, now, ids).0.value.value == HashLineCount(Stripped(lines))
  {
    if isFile && DumpAddress.HostIp(filename).Some? {
      var ip := DumpAddress.HostIp(filename).value;
      if Run(st, Stripped(lines), ip, now, ids).0.Ok? {
        RunCount(st, Stripped(lines), ip, now, ids);
      }
    }
  }

  /**
   * The User of a hash line ends up stored with the 'secretsdump_import' tag; a user not
   * stored before is stored under its username.
   */
  lemma UserTagStores(docs: map<string, Fields>, name: string, now: int)
    requires UserTag(docs, name, now).0.Ok?
    ensures var key := UserTag(docs, name, now).0.value;
      var after := UserTag(docs, name, now).1;
      key in after && "tags" in after[key] && after[key]["tags"].Many? && Text(ImportTag) in after[key]["tags"].items &&
      (name !in docs ==> key == name)
  {
    var base := Fetched(docs, "username", name, now);
    StampedFields(base, now);
  }

  /** The shape every Elasticsearch index has: the search order lists exactly the stored ids. */
  ghost predicate Listed(docs: map<string, Fields>, order: seq<string>) {
    forall id :: id in docs <==> id in order
  }

  /** What the import keeps true of the Credential store: no record carries an `_id` field, and no id is empty. */
  predicate Plain(docs: map<string, Fields>) {
    "" !in docs && forall id :: id in docs ==> "_id" !in docs[id]
  }

  /** The constructor keeps every keyword of a new credential, and gives it no id. */
  lemma NewCredentialPublic(h: HashLine, ip: string)
    ensures DropPrivate(NewCredential(h, ip)) == NewCredential(h, ip)
    ensures InitialId(Credential, NewCredential(h, ip), None) == None
  {
    var f := NewCredential(h, ip);
    forall k | k in f ensures !Private(k) {
      assert k[0] != '_';
    }
  }

  /** The Credential the line works on has the line's username, secret and host address, and no `_id` field. */
  lemma FoundAgrees(docs: map<string, Fields>, order: seq<string>, h: HashLine, ip: string)
    ensures Agrees(Found(docs, order, h, ip).0, CredentialProbe(h, ip), CredentialProbe(h, ip).Keys)
    ensures "_id" !in Found(docs, order, h, ip).0
  {
    var probe := CredentialProbe(h, ip);
    var hit := CredentialHit(docs, order, h, ip);
    if hit.Some? {
      var source := docs[hit.value];
      var base := DropPrivate(source);
      forall k | k in probe.Keys ensures (k in base <==> k in probe) && (k in probe ==> base[k] == probe[k]) {
        assert k[0] != '_';
      }
      assert StartsWith("_id", "_");
    } else {
      NewCredentialPublic(h, ip);
    }
  }

  /** In a `Plain` store, a found credential keeps the id it was found under. */
  lemma FoundId(docs: map<string, Fields>, order: seq<string>, h: HashLine, ip: string)
    requires Plain(docs) && CredentialHit(docs, order, h, ip).Some?
    ensures Found(docs, order, h, ip).1 == CredentialHit(docs, order, h, ip)
  {
  }

  /** What `CredentialTag` does, in terms of the credential it works on. */
  lemma CredentialTagShape(docs: map<string, Fields>, order: seq<string>, h: HashLine, ip: string, now: int, autoId: string)
    ensures var found := Found(docs, order, h, ip);
      var r := CredentialTag(docs, order, h, ip, now, autoId);
      var key := StoreKey(found.1, autoId);
      if Taggable(found.0)
      then r == (Ok(key), docs[key := Stamped(found.0, now)], if key in docs then order else order + [key])
      else r == (Err(ScalarTags), docs, order)
  {
  }

  /** Tagging and stamping a record gives it the tag and changes no field other than tags and created_at. */
  lemma StampedFields(f: Fields, now: int)
    requires Taggable(f)
    ensures var s := Stamped(f, now);
      "tags" in s && s["tags"].Many? && Text(ImportTag) in s["tags"].items &&
      forall k :: k != "tags" && k != "created_at" ==> (k in s <==> k in f) && (k in s ==> s[k] == f[k])
  {
    WithTagFacts(TagsOr(f), ImportTag);
  }

  /**
   * The Credential of a hash line ends up stored, with the line's username, secret and
   * host address, and the 'secretsdump_import' tag.
   */
  lemma CredentialTagStores(docs: map<string, Fields>, order: seq<string>, h: HashLine, ip: string, now: int, autoId: string)
    requires CredentialTag(docs, order, h, ip, now, autoId).0.Ok?
    ensures var key := CredentialTag(docs, order, h, ip, now, autoId).0.value;
      var after := CredentialTag(docs, order, h, ip, now, autoId).1;
      key in after && Agrees(after[key], CredentialProbe(h, ip), CredentialProbe(h, ip).Keys) &&
      "tags" in after[key] && after[key]["tags"].Many? && Text(ImportTag) in after[key]["tags"].items
  {
    CredentialTagShape(docs, order, h, ip, now, autoId);
    FoundAgrees(docs, order, h, ip);
    var found := Found(docs, order, h, ip);
    StampedFields(found.0, now);
    StampedAgrees(found.0, now, CredentialProbe(h, ip));
  }

  /** Tagging and stamping keeps a record agreeing with a probe that has neither tags nor created_at. */
  lemma StampedAgrees(f: Fields, now: int, probe: Fields)
    requires Taggable(f) && Agrees(f, probe, probe.Keys) && "tags" !in probe && "created_at" !in probe
    ensures Agrees(Stamped(f, now), probe, probe.Keys)
  {
    StampedFields(f, now);
  }

  /** A line with no stored credential of its own creates an NTLM credential on port 445, under a generated id. */
  lemma NewCredentialStored(docs: map<string, Fields>, order: seq<string>, h: HashLine, ip: string, now: int, autoId: string)
    requires CredentialHit(docs, order, h, ip).None?
    ensures CredentialTag(docs, order, h, ip, now, autoId).0 == Ok(autoId)
    ensures var after := CredentialTag(docs, order, h, ip, now, autoId).1;
      autoId in after && "type" in after[autoId] && "port" in after[autoId] &&
      after[autoId]["type"] == One(Text("ntlm")) && after[autoId]["port"] == One(Int(445))
  {
    NewCredentialPublic(h, ip);
    var f := NewCredential(h, ip);
    assert Found(docs, order, h, ip) == (f, None);
    CredentialTagShape(docs, order, h, ip, now, autoId);
    NewCredentialStamped(h, ip, now);
  }

  /** The new NTLM credential keeps its type and port through tagging and stamping. */
  lemma NewCredentialStamped(h: HashLine, ip: string, now: int)
    ensures Taggable(NewCredential(h, ip))
    ensures var s := Stamped(NewCredential(h, ip), now);
      "type" in s && "port" in s && s["type"] == One(Text("ntlm")) && s["port"] == One(Int(445))
  {
    var f := NewCredential(h, ip);
    assert "tags" !in f;
    StampedFields(f, now);
  }

  /** Tagging a credential keeps the Credential store `Listed` and `Plain` (given a non-empty generated id). */
  lemma CredentialTagKeeps(docs: map<string, Fields>, order: seq<string>, h: HashLine, ip: string, now: int, autoId: string)
    requires Listed(docs, order) && Plain(docs) && autoId != ""
    ensures var r := CredentialTag(docs, order, h, ip, now, autoId);
      Listed(r.1, r.2) && Plain(r.1)
  {
    FoundAgrees(docs, order, h, ip);
    CredentialTagShape(docs, order, h, ip, now, autoId);
    var found := Found(docs, order, h, ip);
    if Taggable(found.0) {
      StampedFields(found.0, now);
      assert "_id" !in Stamped(found.0, now);
    }
  }


  /**
   * A line whose credential is already stored adds no credential: the Credential store
   * keeps its ids and its search order.
   */
  lemma FoundCredentialAddsNothing(docs: map<string, Fields>, order: seq<string>, h: HashLine, ip: string, now: int,
                                   autoId: string, k: string)
    requires Listed(docs, order) && Plain(docs)
    requires k in docs && Agrees(docs[k], CredentialProbe(h, ip), CredentialProbe(h, ip).Keys)
    ensures var r := CredentialTag(docs, order, h, ip, now, autoId);
      r.1.Keys == docs.Keys && r.2 == order
  {
    var hit := CredentialHit(docs, order, h, ip);
    assert hit.Some?;
    FoundId(docs, order, h, ip);
  }

  /** Importing the same hash line a second time creates no second credential. */
  lemma ReimportAddsNoCredential(docs: map<string, Fields>, order: seq<string>, h: HashLine, ip: string,
                                 now1: int, autoId1: string, now2: int, autoId2: string)
    requires Listed(docs, order) && Plain(docs) && autoId1 != ""
    requires CredentialTag(docs, order, h, ip, now1, autoId1).0.Ok?
    ensures var once := CredentialTag(docs, order, h, ip, now1, autoId1);
      var twice := CredentialTag(once.1, once.2, h, ip, now2, autoId2);
      twice.1.Keys == once.1.Keys && twice.2 == once.2
  {
    var once := CredentialTag(docs, order, h, ip, now1, autoId1);
    CredentialTagStores(docs, order, h, ip, now1, autoId1);
    CredentialTagKeeps(docs, order, h, ip, now1, autoId1);
    FoundCredentialAddsNothing(once.1, once.2, h, ip, now2, autoId2, once.0.value);
  }
}
