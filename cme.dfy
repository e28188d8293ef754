/**
 * jackal/scripts/cme.py: importing a CrackMapExec SMB workspace database. The rows of its
 * `computers`, `users` and `admin_relations` tables become Host, User and Credential
 * records; every record touched is tagged 'cme_import'. The rows are parameters (the
 * SQLite reading is not modelled); an empty string stands for a NULL text column.
 */
module Cme {
  import opened Wrappers
  import opened Text
  import opened Values
  import opened Store
  import opened Documents
  import opened Core

  /** A row of `SELECT id, ip, hostname, domain, os, dc FROM computers`; `dc` is 0 when false or NULL. */
  datatype ComputerRow = ComputerRow(id: int, ip: string, hostname: string, domain: string, os: string, dc: int)

  /** A row of `SELECT id, domain, username, password, credtype, pillaged_from_computerid FROM users`. */
  datatype UserRow = UserRow(id: int, domain: string, username: string, password: string, credtype: string,
                             pillagedFrom: Option<int>)

  /** A row of the `admin_relations` table: the user is an administrator of the computer. */
  datatype AdminRelation = AdminRelation(userid: int, computerid: int)

  const ImportTag := "cme_import"
  const EmptyId := "Empty value passed for a required argument 'id'"
  const ScalarList := "AttributeError or TypeError: a single value where a list or iterable tags are needed"
  const MissingComputer := "KeyError: an admin relation names an unknown computer"

  // ---------------------------------------------------------------- add_credential

  /**
   * The criteria `find_object` is given, which are also the attributes a new Credential is
   * given: username, secret and domain, and the host address unless it is None (a None
   * attribute is not stored).
   */
  function CredentialProbe(username: string, secret: string, domain: string, hostIp: Option<string>): (r: Fields)
    ensures r.Keys <= CredentialKeys
    ensures hostIp.Some? <==> "host_ip" in r
  {
    var m := map["username" := One(Text(username)), "secret" := One(Text(secret)), "domain" := One(Text(domain))];
    if hostIp.Some? then m["host_ip" := One(Text(hostIp.value))] else m
  }

  /** The fields `find_object` filters on. */
  const CredentialKeys: set<string> := {"username", "secret", "domain", "host_ip"}

  /** What `add_credential` is asked to record. */
  datatype CredentialArgs = CredentialArgs(username: string, secret: string, domain: string, hostIp: Option<string>,
                                           credType: string, port: int, accessLevel: Option<string>, tag: string)

  function ProbeOf(a: CredentialArgs): Fields {
    CredentialProbe(a.username, a.secret, a.domain, a.hostIp)
  }

  /** The first stored credential, in search order, matching the arguments. */
  function CredentialHit(docs: map<string, Fields>, order: seq<string>, a: CredentialArgs): (r: Option<string>)
    ensures r.Some? ==> r.value in docs && Agrees(docs[r.value], ProbeOf(a), CredentialKeys)
  {
    FirstMatch(order, docs, ProbeOf(a), CredentialKeys)
  }

  /** The Credential `add_credential` works on: the first match read back through the constructor, or a new one. */
  function Found(docs: map<string, Fields>, order: seq<string>, a: CredentialArgs): (Fields, Option<string>)
  {
    var hit := CredentialHit(docs, order, a);
    if hit.Some? then (DropPrivate(docs[hit.value]), InitialId(Credential, docs[hit.value], hit))
    else (ProbeOf(a), None)
  }

  /** A truthy access level: present and not empty. */
  predicate Truthy(v: Option<string>) {
    v.Some? && v.value != ""
  }

  /**
   * The attributes `add_credential` sets on the credential, and its tag: type and port
   * always, the access level only when truthy. None when the tags are a true scalar
   * other than a string, which `set()` cannot iterate (a TypeError).
   */
  function CredentialFields(f: Fields, a: CredentialArgs): Option<Fields>
  {
    if !Taggable(f) then None
    else
      var f1 := f["type" := One(Text(a.credType))]["port" := One(Int(a.port))];
      var f2 := if Truthy(a.accessLevel) then f1["access_level" := One(Text(a.accessLevel.value))] else f1;
      Some(f2["tags" := Many(WithTag(TagsOr(f), a.tag))])
  }

  /** What the credential ends up holding: the attributes written, every other field kept. */
  lemma CredentialFieldsWrites(f: Fields, a: CredentialArgs, k: string)
    requires CredentialFields(f, a).Some?
    ensures var r := CredentialFields(f, a).value;
      r["type"] == One(Text(a.credType)) && r["port"] == One(Int(a.port)) &&
      r["tags"] == Many(WithTag(TagsOr(f), a.tag)) &&
      (Truthy(a.accessLevel) ==> r["access_level"] == One(Text(a.accessLevel.value))) &&
      (k != "type" && k != "port" && k != "tags" && !(k == "access_level" && Truthy(a.accessLevel)) ==>
        (k in r <==> k in f) && (k in f ==> r[k] == f[k]))
  {
  }

  /**
   * The outcome of `add_credential`, and the Credential store (records and search order)
   * after it: a found credential is saved back under its own id, a new one under a
   * generated id (`autoId`).
   */
  function CredentialUpsert(docs: map<string, Fields>, order: seq<string>, a: CredentialArgs, now: int, autoId: string)
    : (Result<string, string>, map<string, Fields>, seq<string>)
  {
    var found := Found(docs, order, a);
    match CredentialFields(found.0, a)
    case None => (Err(ScalarList), docs, order)
    case Some(f) =>
      var key := StoreKey(found.1, autoId);
      (Ok(key), docs[key := f["created_at" := One(Stamp(now))]], if key in docs then order else order + [key])
  }

  /** `add_credential(...)`, proved against `CredentialUpsert`. */
  method AddCredential(creds: Index, a: CredentialArgs, now: int, autoId: string) returns (r: Result<string, string>)
    requires creds.Valid()
    modifies creds
    ensures creds.Valid()
    ensures (r, creds.docs, creds.order) == CredentialUpsert(old(creds.docs), old(creds.order), a, now, autoId)
  {
    var hit := CredentialHit(creds.docs, creds.order, a);
    var cred: Doc;
    if hit.Some? {
      cred := new Doc.FromHit(Credential, hit.value, creds.docs[hit.value]);
    } else {
      cred := new Doc(Credential, map[]);
      cred.fields := ProbeOf(a);
    }
    if !Taggable(cred.fields) {
      return Err(ScalarList);
    }
    var key := SaveCredential(creds, cred, a, now, autoId);
    r := Ok(key);
    ghost var want := CredentialUpsert(old(creds.docs), old(creds.order), a, now, autoId);
    assert want.0 == Ok(key);
  }

  /** The attributes set on the credential, its tag added, then `save()`: it is stored under its id, or a generated one. */
  method SaveCredential(creds: Index, cred: Doc, a: CredentialArgs, now: int, autoId: string) returns (key: string)
    requires creds.Valid() && cred.kind == Credential && Taggable(cred.fields)
    modifies creds, cred
    ensures creds.Valid()
    ensures key == StoreKey(old(cred.id), autoId)
    ensures creds.docs == old(creds.docs)[key := CredentialFields(old(cred.fields), a).value["created_at" := One(Stamp(now))]]
    ensures creds.order == if key in old(creds.docs) then old(creds.order) else old(creds.order) + [key]
  {
    ghost var f0 := cred.fields;
    TagsUntouched(f0, "type", One(Text(a.credType)));
    TagsUntouched(f0["type" := One(Text(a.credType))], "port", One(Int(a.port)));
    cred.fields := cred.fields["type" := One(Text(a.credType))]["port" := One(Int(a.port))];
    if Truthy(a.accessLevel) {
      TagsUntouched(cred.fields, "access_level", One(Text(a.accessLevel.value)));
      cred.fields := cred.fields["access_level" := One(Text(a.accessLevel.value))];
    }
    assert Taggable(cred.fields) && TagsOr(cred.fields) == TagsOr(f0);
    var tagged := cred.AddTag(a.tag);
    cred.Save(creds, now, autoId);
    key := cred.id.value;
  }

  /**
   * After `add_credential` the store holds a credential matching the arguments, with the
   * given type, port and tag, and the access level when it is truthy.
   */
  lemma CredentialUpsertStores(docs: map<string, Fields>, order: seq<string>, a: CredentialArgs, now: int, autoId: string)
    requires CredentialUpsert(docs, order, a, now, autoId).0.Ok?
    ensures var key := CredentialUpsert(docs, order, a, now, autoId).0.value;
      var after := CredentialUpsert(docs, order, a, now, autoId).1;
      key in after && Written(after[key], a)
  {
    var found := Found(docs, order, a);
    FoundAgrees(docs, order, a);
    var stored := CredentialFields(found.0, a).value["created_at" := One(Stamp(now))];
    StoredWritten(found.0, a, now);
    var key := StoreKey(found.1, autoId);
    var r := CredentialUpsert(docs, order, a, now, autoId);
    assert r.0 == Ok(key) && r.1 == docs[key := stored];
  }

  /**
   * A stored credential as `add_credential` leaves it: it matches the arguments, holds
   * the given type, port and tag, and the access level when it is truthy.
   */
  predicate Written(rec: Fields, a: CredentialArgs) {
    Agrees(rec, ProbeOf(a), CredentialKeys) &&
    "type" in rec && rec["type"] == One(Text(a.credType)) &&
    "port" in rec && rec["port"] == One(Int(a.port)) &&
    "tags" in rec && rec["tags"].Many? && Text(a.tag) in rec["tags"].items &&
    (Truthy(a.accessLevel) ==> "access_level" in rec && rec["access_level"] == One(Text(a.accessLevel.value)))
  }

  /** A matching credential with the attributes set, tagged and stamped, is `Written`. */
  lemma StoredWritten(base: Fields, a: CredentialArgs, now: int)
    requires Agrees(base, ProbeOf(a), CredentialKeys) && CredentialFields(base, a).Some?
    ensures Written(CredentialFields(base, a).value["created_at" := One(Stamp(now))], a)
  {
    var f := CredentialFields(base, a).value;
    var stored := f["created_at" := One(Stamp(now))];
    StoredAgrees(base, a, now);
    CredentialFieldsWrites(base, a, "");
    WithTagFacts(TagsOr(base), a.tag);
    assert stored["type"] == f["type"] && stored["port"] == f["port"] && stored["tags"] == f["tags"];
    assert Truthy(a.accessLevel) ==> stored["access_level"] == f["access_level"];
  }

  /** Setting the attributes, tagging and stamping keep a credential matching the arguments. */
  lemma StoredAgrees(base: Fields, a: CredentialArgs, now: int)
    requires Agrees(base, ProbeOf(a), CredentialKeys) && CredentialFields(base, a).Some?
    ensures Agrees(CredentialFields(base, a).value["created_at" := One(Stamp(now))], ProbeOf(a), CredentialKeys)
  {
    var stored := CredentialFields(base, a).value["created_at" := One(Stamp(now))];
    forall k | k in CredentialKeys ensures (k in stored <==> k in base) && (k in base ==> stored[k] == base[k]) {
      StoredKeeps(base, a, now, k);
    }
    AgreesKept(base, stored, ProbeOf(a), CredentialKeys);
  }

  /** A record that keeps every filtered field of one agreeing with the probe agrees with it too. */
  lemma AgreesKept(base: Fields, stored: Fields, probe: Fields, keys: set<string>)
    requires Agrees(base, probe, keys)
    requires forall k :: k in keys ==> (k in stored <==> k in base) && (k in base ==> stored[k] == base[k])
    ensures Agrees(stored, probe, keys)
  {
  }

  /** Setting the attributes, tagging and stamping leave a filtered field `k` as it was. */
  lemma StoredKeeps(base: Fields, a: CredentialArgs, now: int, k: string)
    requires CredentialFields(base, a).Some? && k in CredentialKeys
    ensures var stored := CredentialFields(base, a).value["created_at" := One(Stamp(now))];
      (k in stored <==> k in base) && (k in base ==> stored[k] == base[k])
  {
    CredentialFieldsWrites(base, a, k);
  }

  /** The credential `add_credential` works on matches the arguments on every filtered field. */
  lemma FoundAgrees(docs: map<string, Fields>, order: seq<string>, a: CredentialArgs)
    ensures Agrees(Found(docs, order, a).0, ProbeOf(a), CredentialKeys)
  {
    var probe := ProbeOf(a);
    var hit := CredentialHit(docs, order, a);
    if hit.Some? {
      var base := DropPrivate(docs[hit.value]);
      forall k | k in CredentialKeys ensures (k in base <==> k in probe) && (k in probe ==> base[k] == probe[k]) {
        assert k[0] != '_';
      }
    }
  }

  /**
   * A credential that is not stored yet is created holding exactly the four looked-up
   * values (the host address only when given), type, port, the access level when truthy,
   * the tag and the creation stamp, under a generated id.
   */
  lemma NewCredentialExact(docs: map<string, Fields>, order: seq<string>, a: CredentialArgs, now: int, autoId: string)
    requires CredentialHit(docs, order, a).None?
    ensures CredentialUpsert(docs, order, a, now, autoId).0 == Ok(autoId)
    ensures CredentialUpsert(docs, order, a, now, autoId).1[autoId].Keys ==
      ProbeOf(a).Keys + {"type", "port", "tags", "created_at"} + (if Truthy(a.accessLevel) then {"access_level"} else {})
  {
    var f := CredentialFields(ProbeOf(a), a).value;
    var r := CredentialUpsert(docs, order, a, now, autoId);
    assert r.0 == Ok(autoId) && r.1 == docs[autoId := f["created_at" := One(Stamp(now))]];
  }

  // ---------------------------------------------------------------- computers

  /**
   * A computer row folded into its Host record as `import_smb` does: the hostname
   * appended only when non-empty, the operating system and the domain-controller flag
   * set only when truthy, and the 'cme_import' tag added. None when the hostname to
   * append to is a single value (an AttributeError) or the tags cannot be iterated (a
   * TypeError).
   */
  function HostFields(f: Fields, row: ComputerRow): Option<Fields>
  {
    if !(Taggable(f) && (row.hostname == "" || ListOrUnset(f, "hostname"))) then None
    else Some(HostUpdates(f, row)["tags" := Many(WithTag(TagsOr(f), ImportTag))])
  }

  /** The hostname, operating-system and domain-controller writes of a computer row, before the tag. */
  function HostUpdates(f: Fields, row: ComputerRow): Fields
    requires row.hostname == "" || ListOrUnset(f, "hostname")
  {
    var f1 := if row.hostname != "" then Append(f, "hostname", Text(row.hostname)) else f;
    var f2 := if row.os != "" then f1["os" := One(Text(row.os))] else f1;
    if row.dc != 0 then f2["domain_controller" := One(Int(row.dc))] else f2
  }

  /**
   * What folding a computer row writes: the hostname appended only when non-empty, the
   * operating system and the domain-controller flag only when truthy, and the tag added.
   */
  lemma HostFieldsSets(f: Fields, row: ComputerRow)
    requires HostFields(f, row).Some?
    ensures var r := HostFields(f, row).value;
      r["tags"] == Many(WithTag(TagsOr(f), ImportTag)) &&
      (row.hostname != "" ==> r["hostname"] == Many(ListOr(f, "hostname") + [Text(row.hostname)])) &&
      (row.os != "" ==> r["os"] == One(Text(row.os))) &&
      (row.dc != 0 ==> r["domain_controller"] == One(Int(row.dc)))
  {
    HostFieldsTagged(f, row);
    var u := HostUpdates(f, row);
    assert row.hostname != "" ==> u["hostname"] == Many(ListOr(f, "hostname") + [Text(row.hostname)]);
    assert row.os != "" ==> u["os"] == One(Text(row.os));
  }

  /** A field the row leaves empty is kept as it was. */
  lemma HostFieldsSkips(f: Fields, row: ComputerRow)
    requires HostFields(f, row).Some?
    ensures var r := HostFields(f, row).value;
      (row.hostname == "" ==> ("hostname" in r <==> "hostname" in f) && ("hostname" in f ==> r["hostname"] == f["hostname"])) &&
      (row.os == "" ==> ("os" in r <==> "os" in f) && ("os" in f ==> r["os"] == f["os"])) &&
      (row.dc == 0 ==> ("domain_controller" in r <==> "domain_controller" in f) &&
                       ("domain_controller" in f ==> r["domain_controller"] == f["domain_controller"]))
  {
    HostFieldsTagged(f, row);
  }

  /** Every field other than the four a computer row writes is kept as it was. */
  lemma HostFieldsKeeps(f: Fields, row: ComputerRow, k: string)
    requires HostFields(f, row).Some?
    requires k != "tags" && k != "hostname" && k != "os" && k != "domain_controller"
    ensures k in HostFields(f, row).value <==> k in f
    ensures k in f ==> HostFields(f, row).value[k] == f[k]
  {
    HostFieldsTagged(f, row);
    HostUpdatesKeep(f, row, k);
  }

  lemma HostFieldsTagged(f: Fields, row: ComputerRow)
    requires HostFields(f, row).Some?
    ensures HostFields(f, row).value == HostUpdates(f, row)["tags" := Many(WithTag(TagsOr(f), ImportTag))]
  {
  }

  lemma HostUpdatesKeep(f: Fields, row: ComputerRow, k: string)
    requires row.hostname == "" || ListOrUnset(f, "hostname")
    requires k != "hostname" && k != "os" && k != "domain_controller"
    ensures (k in HostUpdates(f, row) <==> k in f) && (k in f ==> HostUpdates(f, row)[k] == f[k])
  {
  }

  /**
   * The outcome of one computer row, and the Host store after it: the Host with the
   * row's address is fetched (or created and saved), updated, stamped and saved under
   * its address field. An empty address is refused as an id.
   */
  function ComputerImport(hosts: map<string, Fields>, row: ComputerRow, now: int): (Result<string, string>, map<string, Fields>)
  {
    if row.ip == "" then (Err(EmptyId), hosts)
    else
      var base := Fetched(hosts, "address", row.ip, now);
      var fetched := AfterFetch(hosts, "address", row.ip, now);
      match HostFields(base, row)
      case None => (Err(ScalarList), fetched)
      case Some(f) =>
        var key := StoreKey(KeyText(base, "address"), row.ip);
        (Ok(key), fetched[key := f["created_at" := One(Stamp(now))]])
  }

  /** One computer row of `import_smb`, proved against `ComputerImport`. */
  method ImportComputer(hosts: Index, row: ComputerRow, now: int) returns (r: Result<string, string>)
    requires hosts.Valid()
    modifies hosts
    ensures hosts.Valid()
    ensures (r, hosts.docs) == ComputerImport(old(hosts.docs), row, now)
    ensures forall id :: id in old(hosts.docs) ==> id in hosts.docs
    ensures Appended(old(hosts.order), old(hosts.docs), hosts.order)
  {
    var got := IdToObject(Host, hosts, row.ip, now);
    if got.Err? {
      return Err(EmptyId);
    }
    var host := got.value;
    ghost var base := Fetched(old(hosts.docs), "address", row.ip, now);
    assert host.fields == base && hosts.docs == AfterFetch(old(hosts.docs), "address", row.ip, now);
    if !(Taggable(host.fields) && (row.hostname == "" || ListOrUnset(host.fields, "hostname"))) {
      return Err(ScalarList);
    }
    ghost var docs1, order1 := hosts.docs, hosts.order;
    var key := SaveHost(hosts, host, row, now);
    AppendedTrans(old(hosts.order), old(hosts.docs), order1, docs1, hosts.order);
    r := Ok(key);
    ghost var want := ComputerImport(old(hosts.docs), row, now);
    assert want.0 == Ok(key);
  }

  /** The row folded into a fetched Host, then `save()`: the record is stored under its address field. */
  method SaveHost(hosts: Index, host: Doc, row: ComputerRow, now: int) returns (key: string)
    requires hosts.Valid() && host.kind == Host && HostFields(host.fields, row).Some?
    modifies hosts, host
    ensures hosts.Valid()
    ensures key == StoreKey(KeyText(old(host.fields), "address"), row.ip)
    ensures hosts.docs == old(hosts.docs)[key := HostFields(old(host.fields), row).value["created_at" := One(Stamp(now))]]
    ensures hosts.order == if key in old(hosts.docs) then old(hosts.order) else old(hosts.order) + [key]
    ensures Appended(old(hosts.order), old(hosts.docs), hosts.order)
  {
    HostFieldsKeeps(host.fields, row, "address");
    FoldHostRow(host, row);
    host.Save(hosts, now, row.ip);
    key := host.id.value;
  }

  /** The updates `import_smb` makes to a Host for one computer row, then `add_tag`. */
  method FoldHostRow(host: Doc, row: ComputerRow)
    requires HostFields(host.fields, row).Some?
    modifies host
    ensures host.fields == HostFields(old(host.fields), row).value && host.id == old(host.id)
  {
    if row.hostname != "" {
      host.fields := Append(host.fields, "hostname", Text(row.hostname));
    }
    if row.os != "" {
      host.fields := host.fields["os" := One(Text(row.os))];
    }
    if row.dc != 0 {
      host.fields := host.fields["domain_controller" := One(Int(row.dc))];
    }
    assert TagsOr(host.fields) == TagsOr(old(host.fields));
    var tagged := host.AddTag(ImportTag);
  }

  /**
   * The computer loop of `import_smb`: the count of rows and the Host store after it;
   * the first failure ends the run (the exception leaves `import_smb`).
   */
  function ComputersRun(hosts: map<string, Fields>, rows: seq<ComputerRow>, now: int): (Result<nat, string>, map<string, Fields>)
  {
    if rows == [] then (Ok(0), hosts)
    else ComputerStep(ComputersRun(hosts, rows[..|rows| - 1], now), rows[|rows| - 1], now)
  }

  /** One computer row after the run so far: imported and counted. */
  function ComputerStep(acc: (Result<nat, string>, map<string, Fields>), row: ComputerRow, now: int): (Result<nat, string>, map<string, Fields>)
  {
    if acc.0.Err? then acc
    else
      var res := ComputerImport(acc.1, row, now);
      if res.0.Err? then (Err(res.0.error), res.1) else (Ok(acc.0.value + 1), res.1)
  }

  /** `host_map` as the computer loop leaves it: each row's id mapped to its address, later rows winning. */
  function HostMap(rows: seq<ComputerRow>): map<int, string>
  {
    if rows == [] then map[] else HostMap(rows[..|rows| - 1])[rows[|rows| - 1].id := rows[|rows| - 1].ip]
  }

  lemma ComputersRunSnoc(hosts: map<string, Fields>, rows: seq<ComputerRow>, now: int, i: nat)
    requires i < |rows|
    ensures ComputersRun(hosts, rows[..i + 1], now) == ComputerStep(ComputersRun(hosts, rows[..i], now), rows[i], now)
    ensures HostMap(rows[..i + 1]) == HostMap(rows[..i])[rows[i].id := rows[i].ip]
  {
    assert rows[..i + 1][..i] == rows[..i];
  }

  /** The run one row further, in terms of that row's import. */
  lemma ComputersRunNext(hosts: map<string, Fields>, rows: seq<ComputerRow>, now: int, i: nat, count: nat, docs: map<string, Fields>)
    requires i < |rows| && ComputersRun(hosts, rows[..i], now) == (Ok(count), docs)
    ensures var step := ComputerImport(docs, rows[i], now);
      ComputersRun(hosts, rows[..i + 1], now) == (if step.0.Err? then (Err(step.0.error), step.1) else (Ok(count + 1), step.1))
    ensures HostMap(rows[..i + 1]) == HostMap(rows[..i])[rows[i].id := rows[i].ip]
  {
    ComputersRunSnoc(hosts, rows, now, i);
    var step := ComputerImport(docs, rows[i], now);
    assert ComputerStep((Ok(count), docs), rows[i], now) ==
      (if step.0.Err? then (Err(step.0.error), step.1) else (Ok(count + 1), step.1));
  }

  lemma {:induction false} ComputersRunPrefix(hosts: map<string, Fields>, rows: seq<ComputerRow>, now: int, n: nat)
    requires n <= |rows| && ComputersRun(hosts, rows[..n], now).0.Err?
    ensures ComputersRun(hosts, rows, now) == ComputersRun(hosts, rows[..n], now)
    decreases |rows| - n
  {
    if n < |rows| {
      ComputersRunSnoc(hosts, rows, now, n);
      ComputersRunPrefix(hosts, rows, now, n + 1);
    } else {
      assert rows[..n] == rows;
    }
  }

  /**
   * The computer loop of `import_smb`, proved against `ComputersRun`; on success the
   * returned `host_map` is `HostMap` of the rows.
   */
  method ImportComputers(hosts: Index, rows: seq<ComputerRow>, now: int) returns (r: Result<nat, string>, hostMap: map<int, string>)
    requires hosts.Valid()
    modifies hosts
    ensures hosts.Valid()
    ensures (r, hosts.docs) == ComputersRun(old(hosts.docs), rows, now)
    ensures forall id :: id in old(hosts.docs) ==> id in hosts.docs
    ensures Appended(old(hosts.order), old(hosts.docs), hosts.order)
    ensures r.Ok? ==> hostMap == HostMap(rows)
  {
    hostMap := map[];
    var count := 0;
    var i := 0;
    while i < |rows|
      invariant 0 <= i <= |rows| && hosts.Valid()
      invariant ComputersRun(old(hosts.docs), rows[..i], now) == (Ok(count), hosts.docs)
      invariant hostMap == HostMap(rows[..i])
      invariant forall id :: id in old(hosts.docs) ==> id in hosts.docs
      invariant Appended(old(hosts.order), old(hosts.docs), hosts.order)
    {
      ComputersRunNext(old(hosts.docs), rows, now, i, count, hosts.docs);
      ghost var docs0, order0 := hosts.docs, hosts.order;
      var res := ImportComputer(hosts, rows[i], now);
      AppendedTrans(old(hosts.order), old(hosts.docs), order0, docs0, hosts.order);
      if res.Err? {
        ComputersRunPrefix(old(hosts.docs), rows, now, i + 1);
        return Err(res.error), hostMap;
      }
      hostMap := hostMap[rows[i].id := rows[i].ip];
      count := count + 1;
      i := i + 1;
    }
    assert rows[..i] == rows;
    r := Ok(count);
  }

  /** A successful computer loop counts every row. */
  lemma {:induction false} ComputersRunCount(hosts: map<string, Fields>, rows: seq<ComputerRow>, now: int)
    requires ComputersRun(hosts, rows, now).0.Ok?
    ensures ComputersRun(hosts, rows, now).0.value == |rows|
  {
    if rows != [] {
      ComputersRunCount(hosts, rows[..|rows| - 1], now);
    }
  }

  /** `host_map` maps every row's id, and maps each id to the address of a row with that id. */
  lemma {:induction false} HostMapRows(rows: seq<ComputerRow>)
    ensures forall i :: 0 <= i < |rows| ==> rows[i].id in HostMap(rows)
    ensures forall id :: id in HostMap(rows) ==> exists i :: 0 <= i < |rows| && rows[i].id == id && HostMap(rows)[id] == rows[i].ip
  {
    if rows != [] {
      var n := |rows| - 1;
      var init := rows[..n];
      HostMapRows(init);
      var hm := HostMap(rows);
      assert hm == HostMap(init)[rows[n].id := rows[n].ip];
      forall i | 0 <= i < |rows| ensures rows[i].id in hm {
        if i < n {
          assert init[i] == rows[i];
        }
      }
      forall id | id in hm
        ensures exists i :: 0 <= i < |rows| && rows[i].id == id && hm[id] == rows[i].ip
      {
        if id == rows[n].id {
          assert hm[id] == rows[n].ip;
        } else {
          var i :| 0 <= i < |init| && init[i].id == id && HostMap(init)[id] == init[i].ip;
          assert rows[i] == init[i];
        }
      }
    }
  }

  /** When computer ids are unique (they are the table's primary key), each row's id maps to its own address. */
  lemma HostMapOfUniqueIds(rows: seq<ComputerRow>, i: nat)
    requires forall j, k :: 0 <= j < k < |rows| ==> rows[j].id != rows[k].id
    requires i < |rows|
    ensures rows[i].id in HostMap(rows) && HostMap(rows)[rows[i].id] == rows[i].ip
  {
    HostMapRows(rows);
  }

  // ---------------------------------------------------------------- users and credentials

  /**
   * A user row folded into its User record: the domain appended only when non-empty and
   * the 'cme_import' tag added. None when the domain to append to is a single value
   * (an AttributeError) or the tags cannot be iterated (a TypeError).
   */
  function UserFields(f: Fields, row: UserRow): Option<Fields>
  {
    if !(Taggable(f) && (row.domain == "" || ListOrUnset(f, "domain"))) then None
    else
      var f1 := if row.domain != "" then Append(f, "domain", Text(row.domain)) else f;
      Some(f1["tags" := Many(WithTag(TagsOr(f), ImportTag))])
  }

  /** The domain appended only when non-empty, the tag added, and every other field kept. */
  lemma UserFieldsWrites(f: Fields, row: UserRow, k: string)
    requires UserFields(f, row).Some?
    ensures var r := UserFields(f, row).value;
      r["tags"] == Many(WithTag(TagsOr(f), ImportTag)) &&
      (row.domain != "" ==> r["domain"] == Many(ListOr(f, "domain") + [Text(row.domain)])) &&
      (k != "tags" && !(k == "domain" && row.domain != "") ==> (k in r <==> k in f) && (k in f ==> r[k] == f[k]))
  {
  }

  /**
   * The outcome of the User part of one user row, and the User store after it: the User
   * with the row's username is fetched (or created and saved), updated, stamped and saved
   * under its username field. An empty username is refused as an id.
   */
  function UserImport(users: map<string, Fields>, row: UserRow, now: int): (Result<string, string>, map<string, Fields>)
  {
    if row.username == "" then (Err(EmptyId), users)
    else
      var base := Fetched(users, "username", row.username, now);
      var fetched := AfterFetch(users, "username", row.username, now);
      match UserFields(base, row)
      case None => (Err(ScalarList), fetched)
      case Some(f) =>
        var key := StoreKey(KeyText(base, "username"), row.username);
        (Ok(key), fetched[key := f["created_at" := One(Stamp(now))]])
  }

  /** The User part of one user row of `import_smb`, proved against `UserImport`. */
  method ImportUser(users: Index, row: UserRow, now: int) returns (r: Result<string, string>)
    requires users.Valid()
    modifies users
    ensures users.Valid()
    ensures (r, users.docs) == UserImport(old(users.docs), row, now)
    ensures forall id :: id in old(users.docs) ==> id in users.docs
    ensures Appended(old(users.order), old(users.docs), users.order)
  {
    var got := IdToObject(User, users, row.username, now);
    if got.Err? {
      return Err(EmptyId);
    }
    var user := got.value;
    ghost var base := Fetched(old(users.docs), "username", row.username, now);
    assert user.fields == base && users.docs == AfterFetch(old(users.docs), "username", row.username, now);
    if !(Taggable(user.fields) && (row.domain == "" || ListOrUnset(user.fields, "domain"))) {
      return Err(ScalarList);
    }
    ghost var docs1, order1 := users.docs, users.order;
    var key := SaveUser(users, user, row, now);
    AppendedTrans(old(users.order), old(users.docs), order1, docs1, users.order);
    r := Ok(key);
    ghost var want := UserImport(old(users.docs), row, now);
    assert want.0 == Ok(key);
  }

  /** The row folded into a fetched User, then `save()`: the record is stored under its username field. */
  method SaveUser(users: Index, user: Doc, row: UserRow, now: int) returns (key: string)
    requires users.Valid() && user.kind == User && UserFields(user.fields, row).Some?
    modifies users, user
    ensures users.Valid()
    ensures key == StoreKey(KeyText(old(user.fields), "username"), row.username)
    ensures users.docs == old(users.docs)[key := UserFields(old(user.fields), row).value["created_at" := One(Stamp(now))]]
    ensures users.order == if key in old(users.docs) then old(users.order) else old(users.order) + [key]
    ensures Appended(old(users.order), old(users.docs), users.order)
  {
    ghost var base := user.fields;
    UserFieldsWrites(base, row, "username");
    if row.domain != "" {
      user.fields := Append(user.fields, "domain", Text(row.domain));
    }
    assert TagsOr(user.fields) == TagsOr(base);
    var tagged := user.AddTag(ImportTag);
    assert user.fields == UserFields(base, row).value;
    user.Save(users, now, row.username);
    key := user.id.value;
  }

  /** `host_map[pillaged_from_computerid]`, or None when the id is NULL or not a known computer. */
  function Address(hostMap: map<int, string>, source: Option<int>): Option<string>
  {
    if source.Some? && source.value in hostMap then Some(hostMap[source.value]) else None
  }

  /** The `add_credential` arguments for a user row: port 445 and the 'cme_import' tag. */
  function AccountArgs(row: UserRow, hostIp: Option<string>, accessLevel: Option<string>): CredentialArgs
  {
    CredentialArgs(row.username, row.password, row.domain, hostIp, row.credtype, 445, accessLevel, ImportTag)
  }

  /**
   * The credential recorded for a user row carries the address of the computer it was
   * taken from when that computer is known, and no address at all otherwise.
   */
  lemma AccountCredentialAddress(docs: map<string, Fields>, order: seq<string>, hostMap: map<int, string>,
                                 row: UserRow, now: int, autoId: string)
    requires CredentialUpsert(docs, order, AccountArgs(row, Address(hostMap, row.pillagedFrom), None), now, autoId).0.Ok?
    ensures var res := CredentialUpsert(docs, order, AccountArgs(row, Address(hostMap, row.pillagedFrom), None), now, autoId);
      var rec := res.1[res.0.value];
      ("host_ip" in rec <==> row.pillagedFrom.Some? && row.pillagedFrom.value in hostMap) &&
      (row.pillagedFrom.Some? && row.pillagedFrom.value in hostMap ==> rec["host_ip"] == One(Text(hostMap[row.pillagedFrom.value]))) &&
      rec["username"] == One(Text(row.username)) && rec["secret"] == One(Text(row.password)) &&
      rec["port"] == One(Int(445))
  {
    var a := AccountArgs(row, Address(hostMap, row.pillagedFrom), None);
    CredentialUpsertStores(docs, order, a, now, autoId);
    var res := CredentialUpsert(docs, order, a, now, autoId);
    var rec := res.1[res.0.value];
    assert Agrees(rec, ProbeOf(a), CredentialKeys);
    assert "host_ip" in CredentialKeys && "username" in CredentialKeys && "secret" in CredentialKeys;
  }

  // ---------------------------------------------------------------- admin relations

  /** The computer ids of the admin relations of user `uid`, in table order. */
  function AdminComputers(rels: seq<AdminRelation>, uid: int): (r: seq<int>)
    ensures |r| <= |rels|
  {
    if rels == [] then []
    else
      var last := rels[|rels| - 1];
      AdminComputers(rels[..|rels| - 1], uid) + (if last.userid == uid then [last.computerid] else [])
  }

  /** A computer is listed for `uid` exactly when some admin relation links the two. */
  lemma {:induction false} AdminComputersListed(rels: seq<AdminRelation>, uid: int, c: int)
    ensures c in AdminComputers(rels, uid) <==> exists k :: 0 <= k < |rels| && rels[k] == AdminRelation(uid, c)
  {
    if rels != [] {
      var n := |rels| - 1;
      AdminComputersListed(rels[..n], uid, c);
      if exists k :: 0 <= k < |rels| && rels[k] == AdminRelation(uid, c) {
        var k :| 0 <= k < |rels| && rels[k] == AdminRelation(uid, c);
        if k < n {
          assert rels[..n][k] == rels[k];
        }
      }
      if exists k :: 0 <= k < n && rels[..n][k] == AdminRelation(uid, c) {
        var k :| 0 <= k < n && rels[..n][k] == AdminRelation(uid, c);
        assert rels[k] == AdminRelation(uid, c);
      }
    }
  }

  /**
   * The admin loop of one user row: for each computer the user administers, its address
   * is looked up in `host_map` (a KeyError when it is unknown, which ends the import) and
   * an Administrator credential for that address is recorded. `ids(i, j + 1)` is the id
   * Elasticsearch would generate for the `j`-th admin credential of user row `i`.
   */
  function AdminRun(docs: map<string, Fields>, order: seq<string>, row: UserRow, hostMap: map<int, string>,
                    cs: seq<int>, now: int, ids: (nat, nat) -> string, i: nat)
    : (Result<nat, string>, map<string, Fields>, seq<string>)
  {
    if cs == [] then (Ok(0), docs, order)
    else AdminStep(AdminRun(docs, order, row, hostMap, cs[..|cs| - 1], now, ids, i), row, hostMap, cs[|cs| - 1], now, ids(i, |cs|))
  }

  /** One admin relation after the loop so far. */
  function AdminStep(acc: (Result<nat, string>, map<string, Fields>, seq<string>), row: UserRow, hostMap: map<int, string>,
                     c: int, now: int, autoId: string)
    : (Result<nat, string>, map<string, Fields>, seq<string>)
  {
    if acc.0.Err? then acc
    else if c !in hostMap then (Err(MissingComputer), acc.1, acc.2)
    else
      var res := CredentialUpsert(acc.1, acc.2, AccountArgs(row, Some(hostMap[c]), Some("Administrator")), now, autoId);
      if res.0.Err? then (Err(res.0.error), res.1, res.2) else (Ok(acc.0.value + 1), res.1, res.2)
  }

  /** An admin step that succeeds records an Administrator credential for the computer's address. */
  lemma AdminStepWrites(acc: (Result<nat, string>, map<string, Fields>, seq<string>), row: UserRow,
                        hostMap: map<int, string>, c: int, now: int, autoId: string)
    requires acc.0.Ok? && AdminStep(acc, row, hostMap, c, now, autoId).0.Ok?
    ensures c in hostMap
    ensures var a := AccountArgs(row, Some(hostMap[c]), Some("Administrator"));
      var key := CredentialUpsert(acc.1, acc.2, a, now, autoId).0.value;
      var after := AdminStep(acc, row, hostMap, c, now, autoId).1;
      key in after && Written(after[key], a) &&
      after[key]["access_level"] == One(Text("Administrator")) && after[key]["host_ip"] == One(Text(hostMap[c]))
  {
    var a := AccountArgs(row, Some(hostMap[c]), Some("Administrator"));
    CredentialUpsertStores(acc.1, acc.2, a, now, autoId);
    var res := CredentialUpsert(acc.1, acc.2, a, now, autoId);
    assert Agrees(res.1[res.0.value], ProbeOf(a), CredentialKeys);
    assert "host_ip" in CredentialKeys;
  }

  lemma AdminRunSnoc(docs: map<string, Fields>, order: seq<string>, row: UserRow, hostMap: map<int, string>,
                     cs: seq<int>, now: int, ids: (nat, nat) -> string, i: nat, j: nat)
    requires j < |cs|
    ensures AdminRun(docs, order, row, hostMap, cs[..j + 1], now, ids, i) ==
      AdminStep(AdminRun(docs, order, row, hostMap, cs[..j], now, ids, i), row, hostMap, cs[j], now, ids(i, j + 1))
  {
    assert cs[..j + 1][..j] == cs[..j];
  }

  /** The admin loop one relation further: an unknown computer is a KeyError. */
  lemma AdminRunMissing(docs: map<string, Fields>, order: seq<string>, row: UserRow, hostMap: map<int, string>,
                        cs: seq<int>, now: int, ids: (nat, nat) -> string, i: nat, j: nat, acc: (Result<nat, string>, map<string, Fields>, seq<string>))
    requires j < |cs| && cs[j] !in hostMap && acc.0.Ok? && AdminRun(docs, order, row, hostMap, cs[..j], now, ids, i) == acc
    ensures AdminRun(docs, order, row, hostMap, cs[..j + 1], now, ids, i) == (Err(MissingComputer), acc.1, acc.2)
  {
    AdminRunSnoc(docs, order, row, hostMap, cs, now, ids, i, j);
  }

  /** The admin loop one relation further: a known computer gets its Administrator credential. */
  lemma AdminRunNext(docs: map<string, Fields>, order: seq<string>, row: UserRow, hostMap: map<int, string>,
                     cs: seq<int>, now: int, ids: (nat, nat) -> string, i: nat, j: nat, count: nat,
                     docs0: map<string, Fields>, order0: seq<string>,
                     res: Result<string, string>, docs1: map<string, Fields>, order1: seq<string>)
    requires j < |cs| && cs[j] in hostMap && AdminRun(docs, order, row, hostMap, cs[..j], now, ids, i) == (Ok(count), docs0, order0)
    requires (res, docs1, order1) == CredentialUpsert(docs0, order0, AccountArgs(row, Some(hostMap[cs[j]]), Some("Administrator")), now, ids(i, j + 1))
    ensures res.Err? ==> AdminRun(docs, order, row, hostMap, cs[..j + 1], now, ids, i) == (Err(res.error), docs1, order1)
    ensures res.Ok? ==> AdminRun(docs, order, row, hostMap, cs[..j + 1], now, ids, i) == (Ok(count + 1), docs1, order1)
  {
    AdminRunSnoc(docs, order, row, hostMap, cs, now, ids, i, j);
    AdminStepKnown(count, docs0, order0, row, hostMap, cs[j], now, ids(i, j + 1), res, docs1, order1);
  }

  /** A successful admin step follows a successful loop, needs a known computer and counts one more. */
  lemma AdminStepCounts(acc: (Result<nat, string>, map<string, Fields>, seq<string>), row: UserRow, hostMap: map<int, string>,
                        c: int, now: int, autoId: string)
    requires AdminStep(acc, row, hostMap, c, now, autoId).0.Ok?
    ensures acc.0.Ok? && c in hostMap
    ensures AdminStep(acc, row, hostMap, c, now, autoId).0.value == acc.0.value + 1
  {
  }

  lemma AdminStepKnown(count: nat, docs0: map<string, Fields>, order0: seq<string>, row: UserRow, hostMap: map<int, string>,
                       c: int, now: int, autoId: string, res: Result<string, string>, docs1: map<string, Fields>, order1: seq<string>)
    requires c in hostMap
    requires (res, docs1, order1) == CredentialUpsert(docs0, order0, AccountArgs(row, Some(hostMap[c]), Some("Administrator")), now, autoId)
    ensures AdminStep((Ok(count), docs0, order0), row, hostMap, c, now, autoId) ==
      (if res.Err? then (Err(res.error), docs1, order1) else (Ok(count + 1), docs1, order1))
  {
  }

  lemma {:induction false} AdminRunPrefix(docs: map<string, Fields>, order: seq<string>, row: UserRow, hostMap: map<int, string>,
                                          cs: seq<int>, now: int, ids: (nat, nat) -> string, i: nat, n: nat)
    requires n <= |cs| && AdminRun(docs, order, row, hostMap, cs[..n], now, ids, i).0.Err?
    ensures AdminRun(docs, order, row, hostMap, cs, now, ids, i) == AdminRun(docs, order, row, hostMap, cs[..n], now, ids, i)
    decreases |cs| - n
  {
    if n < |cs| {
      AdminRunSnoc(docs, order, row, hostMap, cs, now, ids, i, n);
      AdminRunPrefix(docs, order, row, hostMap, cs, now, ids, i, n + 1);
    } else {
      assert cs[..n] == cs;
    }
  }

  /**
   * A successful admin loop counts every relation, and every computer it went through is
   * in `host_map`; so one unknown computer id makes the loop fail.
   */
  lemma {:induction false} AdminRunCount(docs: map<string, Fields>, order: seq<string>, row: UserRow, hostMap: map<int, string>,
                                         cs: seq<int>, now: int, ids: (nat, nat) -> string, i: nat)
    requires AdminRun(docs, order, row, hostMap, cs, now, ids, i).0.Ok?
    ensures AdminRun(docs, order, row, hostMap, cs, now, ids, i).0.value == |cs|
    ensures forall j :: 0 <= j < |cs| ==> cs[j] in hostMap
  {
    if cs != [] {
      var n := |cs| - 1;
      var before := AdminRun(docs, order, row, hostMap, cs[..n], now, ids, i);
      AdminRunSnoc(docs, order, row, hostMap, cs, now, ids, i, n);
      assert cs[..n + 1] == cs;
      AdminStepCounts(before, row, hostMap, cs[n], now, ids(i, n + 1));
      var last := cs[n];
      assert last in hostMap;
      AdminRunCount(docs, order, row, hostMap, cs[..n], now, ids, i);
      forall j | 0 <= j < |cs| ensures cs[j] in hostMap {
        if j < n {
          assert cs[..n][j] == cs[j];
        } else {
          assert j == n;
        }
      }
    }
  }

  /** The admin loop of `import_smb` for one user, proved against `AdminRun`. */
  method ImportAdmins(creds: Index, row: UserRow, hostMap: map<int, string>, cs: seq<int>, now: int,
                      ids: (nat, nat) -> string, i: nat) returns (r: Result<nat, string>)
    requires creds.Valid()
    modifies creds
    ensures creds.Valid()
    ensures (r, creds.docs, creds.order) == AdminRun(old(creds.docs), old(creds.order), row, hostMap, cs, now, ids, i)
  {
    var count := 0;
    var j := 0;
    while j < |cs|
      invariant 0 <= j <= |cs| && creds.Valid()
      invariant AdminRun(old(creds.docs), old(creds.order), row, hostMap, cs[..j], now, ids, i) == (Ok(count), creds.docs, creds.order)
    {
      if cs[j] !in hostMap {
        AdminRunMissing(old(creds.docs), old(creds.order), row, hostMap, cs, now, ids, i, j, (Ok(count), creds.docs, creds.order));
        AdminRunPrefix(old(creds.docs), old(creds.order), row, hostMap, cs, now, ids, i, j + 1);
        return Err(MissingComputer);
      }
      ghost var docs0, order0 := creds.docs, creds.order;
      var res := AddCredential(creds, AccountArgs(row, Some(hostMap[cs[j]]), Some("Administrator")), now, ids(i, j + 1));
      AdminRunNext(old(creds.docs), old(creds.order), row, hostMap, cs, now, ids, i, j, count, docs0, order0, res, creds.docs, creds.order);
      if res.Err? {
        AdminRunPrefix(old(creds.docs), old(creds.order), row, hostMap, cs, now, ids, i, j + 1);
        return Err(res.error);
      }
      count := count + 1;
      j := j + 1;
    }
    assert cs[..j] == cs;
    r := Ok(count);
  }

  // ---------------------------------------------------------------- accounts

  /** The User store and the Credential store with its search order: what the user loop changes. */
  datatype Accounts = Accounts(users: map<string, Fields>, creds: map<string, Fields>, credOrder: seq<string>)

  /**
   * One user row of `import_smb`: the User is imported, the credential it carries is
   * recorded with the address of the computer it was taken from (when known), then one
   * Administrator credential per admin relation. The result is the number of admin
   * relations of the row; `ids(i, 0)` is the id generated for the row's own credential.
   */
  function AccountImport(st: Accounts, hostMap: map<int, string>, rels: seq<AdminRelation>, row: UserRow, now: int,
                         ids: (nat, nat) -> string, i: nat): (Result<nat, string>, Accounts)
  {
    var u := UserImport(st.users, row, now);
    if u.0.Err? then (Err(u.0.error), st.(users := u.1))
    else
      var c := CredentialUpsert(st.creds, st.credOrder, AccountArgs(row, Address(hostMap, row.pillagedFrom), None), now, ids(i, 0));
      if c.0.Err? then (Err(c.0.error), Accounts(u.1, c.1, c.2))
      else
        var a := AdminRun(c.1, c.2, row, hostMap, AdminComputers(rels, row.id), now, ids, i);
        (a.0, Accounts(u.1, a.1, a.2))
  }

  /** The outcome of a user row from the outcomes of its three parts. */
  lemma AccountImportParts(st: Accounts, hostMap: map<int, string>, rels: seq<AdminRelation>, row: UserRow, now: int,
                           ids: (nat, nat) -> string, i: nat,
                           ures: Result<string, string>, users1: map<string, Fields>,
                           cres: Result<string, string>, creds1: map<string, Fields>, order1: seq<string>,
                           ares: Result<nat, string>, creds2: map<string, Fields>, order2: seq<string>)
    requires (ures, users1) == UserImport(st.users, row, now)
    requires (cres, creds1, order1) == CredentialUpsert(st.creds, st.credOrder, AccountArgs(row, Address(hostMap, row.pillagedFrom), None), now, ids(i, 0))
    requires (ares, creds2, order2) == AdminRun(creds1, order1, row, hostMap, AdminComputers(rels, row.id), now, ids, i)
    ensures ures.Err? ==> AccountImport(st, hostMap, rels, row, now, ids, i) == (Err(ures.error), st.(users := users1))
    ensures ures.Ok? && cres.Err? ==> AccountImport(st, hostMap, rels, row, now, ids, i) == (Err(cres.error), Accounts(users1, creds1, order1))
    ensures ures.Ok? && cres.Ok? ==> AccountImport(st, hostMap, rels, row, now, ids, i) == (ares, Accounts(users1, creds2, order2))
  {
  }

  /**
   * A user row imported successfully reports as many admin credentials as the user has
   * admin relations, each to a computer in `host_map`.
   */
  lemma AccountImportCount(st: Accounts, hostMap: map<int, string>, rels: seq<AdminRelation>, row: UserRow, now: int,
                           ids: (nat, nat) -> string, i: nat)
    requires AccountImport(st, hostMap, rels, row, now, ids, i).0.Ok?
    ensures AccountImport(st, hostMap, rels, row, now, ids, i).0.value == |AdminComputers(rels, row.id)|
    ensures forall c :: c in AdminComputers(rels, row.id) ==> c in hostMap
  {
    var cs := AdminComputers(rels, row.id);
    var u := UserImport(st.users, row, now);
    var c := CredentialUpsert(st.creds, st.credOrder, AccountArgs(row, Address(hostMap, row.pillagedFrom), None), now, ids(i, 0));
    var a := AdminRun(c.1, c.2, row, hostMap, cs, now, ids, i);
    AccountImportParts(st, hostMap, rels, row, now, ids, i, u.0, u.1, c.0, c.1, c.2, a.0, a.1, a.2);
    AdminRunCount(c.1, c.2, row, hostMap, cs, now, ids, i);
  }

  /** One user row of `import_smb`, proved against `AccountImport`. */
  method ImportAccount(users: Index, creds: Index, hostMap: map<int, string>, rels: seq<AdminRelation>, row: UserRow,
                       now: int, ids: (nat, nat) -> string, i: nat) returns (r: Result<nat, string>)
    requires users.Valid() && creds.Valid() && users != creds
    modifies users, creds
    ensures users.Valid() && creds.Valid()
    ensures (r, AccountsOf(users, creds)) == AccountImport(old(AccountsOf(users, creds)), hostMap, rels, row, now, ids, i)
  {
    ghost var st := AccountsOf(users, creds);
    var u := ImportUser(users, row, now);
    ghost var users1 := users.docs;
    ghost var cres, creds1, order1 := Ok(""), creds.docs, creds.order;
    if u.Ok? {
      var c := AddCredential(creds, AccountArgs(row, Address(hostMap, row.pillagedFrom), None), now, ids(i, 0));
      cres, creds1, order1 := c, creds.docs, creds.order;
      if c.Ok? {
        r := ImportAdmins(creds, row, hostMap, AdminComputers(rels, row.id), now, ids, i);
        AccountImportParts(st, hostMap, rels, row, now, ids, i, u, users1, c, creds1, order1, r, creds.docs, creds.order);
        return;
      }
      r := Err(c.error);
    } else {
      r := Err(u.error);
      ghost var cu := CredentialUpsert(st.creds, st.credOrder, AccountArgs(row, Address(hostMap, row.pillagedFrom), None), now, ids(i, 0));
      cres, creds1, order1 := cu.0, cu.1, cu.2;
    }
    ghost var a := AdminRun(creds1, order1, row, hostMap, AdminComputers(rels, row.id), now, ids, i);
    AccountImportParts(st, hostMap, rels, row, now, ids, i, u, users1, cres, creds1, order1, a.0, a.1, a.2);
  }

  /** The state the user loop works on. */
  function AccountsOf(users: Index, creds: Index): Accounts
    reads users, creds
  {
    Accounts(users.docs, creds.docs, creds.order)
  }

  /**
   * The user loop of `import_smb`: the number of users and of admin relations imported,
   * and the stores after it; the first failure ends the run.
   */
  function AccountsRun(st: Accounts, hostMap: map<int, string>, rels: seq<AdminRelation>, rows: seq<UserRow>, now: int,
                       ids: (nat, nat) -> string): (Result<Counts, string>, Accounts)
    decreases |rows|, 1
  {
    if rows == [] then (Ok(Counts(0, 0)), st)
    else AccountStep(AccountsRun(st, hostMap, rels, rows[..|rows| - 1], now, ids), LastAccount(st, hostMap, rels, rows, now, ids))
  }

  /** The import of the last user row, from the accounts the rows before it left. */
  function LastAccount(st: Accounts, hostMap: map<int, string>, rels: seq<AdminRelation>, rows: seq<UserRow>, now: int,
                       ids: (nat, nat) -> string): (Result<nat, string>, Accounts)
    requires rows != []
    decreases |rows|, 0
  {
    AccountImport(AccountsRun(st, hostMap, rels, rows[..|rows| - 1], now, ids).1, hostMap, rels, rows[|rows| - 1], now, ids, |rows| - 1)
  }

  /**
   * The loop so far followed by the outcome of the next user row: a failure before stays,
   * a failing row ends the loop, and a successful one is counted with its admin relations.
   */
  function AccountStep(acc: (Result<Counts, string>, Accounts), next: (Result<nat, string>, Accounts)): (Result<Counts, string>, Accounts)
  {
    if acc.0.Err? then acc else (Counted(acc.0.value, next.0), next.1)
  }

  /** The counts after one more user row: its failure, or one more user and its admin relations. */
  function Counted(c: Counts, res: Result<nat, string>): (r: Result<Counts, string>)
    ensures res.Err? ==> r == Err(res.error)
    ensures res.Ok? ==> r == Ok(Counts(c.users + 1, c.admins + res.value))
  {
    if res.Err? then Err(res.error) else Ok(Counts(c.users + 1, c.admins + res.value))
  }

  lemma AccountsRunSnoc(st: Accounts, hostMap: map<int, string>, rels: seq<AdminRelation>, rows: seq<UserRow>, now: int,
                        ids: (nat, nat) -> string, k: nat)
    requires k < |rows|
    ensures var before := AccountsRun(st, hostMap, rels, rows[..k], now, ids);
      AccountsRun(st, hostMap, rels, rows[..k + 1], now, ids) ==
        AccountStep(before, AccountImport(before.1, hostMap, rels, rows[k], now, ids, k))
  {
    assert rows[..k + 1][..k] == rows[..k];
    assert LastAccount(st, hostMap, rels, rows[..k + 1], now, ids) ==
      AccountImport(AccountsRun(st, hostMap, rels, rows[..k], now, ids).1, hostMap, rels, rows[k], now, ids, k);
  }

  /** The user loop one row further, in terms of that row's import. */
  lemma AccountsRunNext(st: Accounts, hostMap: map<int, string>, rels: seq<AdminRelation>, rows: seq<UserRow>, now: int,
                        ids: (nat, nat) -> string, k: nat, counts: Counts, st0: Accounts, res: Result<nat, string>, st1: Accounts)
    requires k < |rows| && AccountsRun(st, hostMap, rels, rows[..k], now, ids) == (Ok(counts), st0)
    requires (res, st1) == AccountImport(st0, hostMap, rels, rows[k], now, ids, k)
    ensures AccountsRun(st, hostMap, rels, rows[..k + 1], now, ids) == (Counted(counts, res), st1)
  {
    AccountsRunSnoc(st, hostMap, rels, rows, now, ids, k);
  }

  lemma {:induction false} AccountsRunPrefix(st: Accounts, hostMap: map<int, string>, rels: seq<AdminRelation>, rows: seq<UserRow>,
                                             now: int, ids: (nat, nat) -> string, n: nat)
    requires n <= |rows| && AccountsRun(st, hostMap, rels, rows[..n], now, ids).0.Err?
    ensures AccountsRun(st, hostMap, rels, rows, now, ids) == AccountsRun(st, hostMap, rels, rows[..n], now, ids)
    decreases |rows| - n
  {
    if n < |rows| {
      AccountsRunSnoc(st, hostMap, rels, rows, now, ids, n);
      AccountsRunPrefix(st, hostMap, rels, rows, now, ids, n + 1);
    } else {
      assert rows[..n] == rows;
    }
  }

  /** The user loop of `import_smb`, proved against `AccountsRun`. */
  method ImportAccounts(users: Index, creds: Index, hostMap: map<int, string>, rels: seq<AdminRelation>, rows: seq<UserRow>,
                        now: int, ids: (nat, nat) -> string) returns (r: Result<Counts, string>)
    requires users.Valid() && creds.Valid() && users != creds
    modifies users, creds
    ensures users.Valid() && creds.Valid()
    ensures (r, AccountsOf(users, creds)) == AccountsRun(old(AccountsOf(users, creds)), hostMap, rels, rows, now, ids)
  {
    ghost var st := AccountsOf(users, creds);
    r := Ok(Counts(0, 0));
    var k := 0;
    while k < |rows| && r.Ok?
      invariant 0 <= k <= |rows| && users.Valid() && creds.Valid()
      invariant AccountsRun(st, hostMap, rels, rows[..k], now, ids) == (r, AccountsOf(users, creds))
    {
      ghost var st0 := AccountsOf(users, creds);
      var res := ImportAccount(users, creds, hostMap, rels, rows[k], now, ids, k);
      AccountsRunNext(st, hostMap, rels, rows, now, ids, k, r.value, st0, res, AccountsOf(users, creds));
      r := Counted(r.value, res);
      k := k + 1;
    }
    if r.Err? {
      AccountsRunPrefix(st, hostMap, rels, rows, now, ids, k);
    } else {
      assert rows[..k] == rows;
    }
  }

  /** The running counts of the user loop: users imported and admin relations gone through. */
  datatype Counts = Counts(users: nat, admins: nat)

  /** The number of admin relations of the given user rows. */
  function AdminTotal(rels: seq<AdminRelation>, rows: seq<UserRow>): nat
  {
    if rows == [] then 0 else AdminTotal(rels, rows[..|rows| - 1]) + |AdminComputers(rels, rows[|rows| - 1].id)|
  }

  /** A successful user loop counts every user row and every admin relation of those rows. */
  lemma {:induction false} AccountsRunCount(st: Accounts, hostMap: map<int, string>, rels: seq<AdminRelation>, rows: seq<UserRow>,
                                            now: int, ids: (nat, nat) -> string)
    requires AccountsRun(st, hostMap, rels, rows, now, ids).0.Ok?
    ensures AccountsRun(st, hostMap, rels, rows, now, ids).0.value == Counts(|rows|, AdminTotal(rels, rows))
  {
    if rows != [] {
      var n := |rows| - 1;
      var before := AccountsRun(st, hostMap, rels, rows[..n], now, ids);
      AccountsRunSnoc(st, hostMap, rels, rows, now, ids, n);
      assert rows[..n + 1] == rows;
      assert before.0.Ok?;
      AccountsRunCount(st, hostMap, rels, rows[..n], now, ids);
      var res := AccountImport(before.1, hostMap, rels, rows[n], now, ids, n);
      assert res.0.Ok?;
      AccountImportCount(before.1, hostMap, rels, rows[n], now, ids, n);
    }
  }

  /** After a successful user loop, every admin relation of its rows names a computer in `host_map`. */
  lemma {:induction false} AccountsRunHosts(st: Accounts, hostMap: map<int, string>, rels: seq<AdminRelation>, rows: seq<UserRow>,
                                            now: int, ids: (nat, nat) -> string)
    requires AccountsRun(st, hostMap, rels, rows, now, ids).0.Ok?
    ensures forall k, c :: 0 <= k < |rows| && c in AdminComputers(rels, rows[k].id) ==> c in hostMap
  {
    if rows != [] {
      var n := |rows| - 1;
      AccountsRunLastOk(st, hostMap, rels, rows, now, ids);
      AccountsRunHosts(st, hostMap, rels, rows[..n], now, ids);
      var before := AccountsRun(st, hostMap, rels, rows[..n], now, ids);
      AccountImportCount(before.1, hostMap, rels, rows[n], now, ids, n);
      forall k, c | 0 <= k < |rows| && c in AdminComputers(rels, rows[k].id) ensures c in hostMap {
        if k < n {
          assert rows[..n][k] == rows[k];
        } else {
          assert k == n;
        }
      }
    }
  }

  /** A successful user loop succeeded on the rows before the last, and then on the last row. */
  lemma AccountsRunLastOk(st: Accounts, hostMap: map<int, string>, rels: seq<AdminRelation>, rows: seq<UserRow>,
                          now: int, ids: (nat, nat) -> string)
    requires rows != [] && AccountsRun(st, hostMap, rels, rows, now, ids).0.Ok?
    ensures var before := AccountsRun(st, hostMap, rels, rows[..|rows| - 1], now, ids);
      before.0.Ok? && AccountImport(before.1, hostMap, rels, rows[|rows| - 1], now, ids, |rows| - 1).0.Ok?
  {
    var n := |rows| - 1;
    var before := AccountsRun(st, hostMap, rels, rows[..n], now, ids);
    assert AccountsRun(st, hostMap, rels, rows, now, ids) == AccountStep(before, LastAccount(st, hostMap, rels, rows, now, ids));
  }

  // ---------------------------------------------------------------- import_smb and import_database

  /** The counts `import_smb` logs. */
  datatype Stats = Stats(hosts: nat, users: nat, admins: nat)

  /**
   * `import_smb` over the rows of a CME SMB database: the computer loop, then the user
   * loop with the `host_map` the computer loop built. The outcome is the logged counts or
   * the first error; the Host store and the accounts are returned as left.
   */
  function SmbImport(hosts: map<string, Fields>, st: Accounts, computers: seq<ComputerRow>, accounts: seq<UserRow>,
                     rels: seq<AdminRelation>, now: int, ids: (nat, nat) -> string): (Result<Stats, string>, map<string, Fields>, Accounts)
  {
    var c := ComputersRun(hosts, computers, now);
    if c.0.Err? then (Err(c.0.error), c.1, st)
    else
      var a := AccountsRun(st, HostMap(computers), rels, accounts, now, ids);
      if a.0.Err? then (Err(a.0.error), c.1, a.1) else (Ok(Stats(c.0.value, a.0.value.users, a.0.value.admins)), c.1, a.1)
  }

  /**
   * A successful `import_smb` logs one host per computer row, one user per user row and one
   * admin per admin relation of those users; and every admin relation of a user names a
   * computer of the database, since an unknown one is a KeyError.
   */
  lemma SmbImportStats(hosts: map<string, Fields>, st: Accounts, computers: seq<ComputerRow>, accounts: seq<UserRow>,
                       rels: seq<AdminRelation>, now: int, ids: (nat, nat) -> string)
    requires SmbImport(hosts, st, computers, accounts, rels, now, ids).0.Ok?
    ensures SmbImport(hosts, st, computers, accounts, rels, now, ids).0.value ==
      Stats(|computers|, |accounts|, AdminTotal(rels, accounts))
    ensures forall k, c :: 0 <= k < |accounts| && c in AdminComputers(rels, accounts[k].id) ==>
      exists m :: 0 <= m < |computers| && computers[m].id == c
  {
    var c := ComputersRun(hosts, computers, now);
    var a := AccountsRun(st, HostMap(computers), rels, accounts, now, ids);
    SmbImportParts(hosts, st, computers, accounts, rels, now, ids, c.0, c.1, a.0, a.1);
    ComputersRunCount(hosts, computers, now);
    AccountsRunCount(st, HostMap(computers), rels, accounts, now, ids);
    AccountsRunHosts(st, HostMap(computers), rels, accounts, now, ids);
    HostMapRows(computers);
    forall k, id | 0 <= k < |accounts| && id in AdminComputers(rels, accounts[k].id)
      ensures exists m :: 0 <= m < |computers| && computers[m].id == id
    {
      assert id in HostMap(computers);
    }
  }

  /** The outcome of `import_smb` from the outcomes of its two loops. */
  lemma SmbImportParts(hosts: map<string, Fields>, st: Accounts, computers: seq<ComputerRow>, accounts: seq<UserRow>,
                       rels: seq<AdminRelation>, now: int, ids: (nat, nat) -> string,
                       cres: Result<nat, string>, hosts1: map<string, Fields>, ares: Result<Counts, string>, st1: Accounts)
    requires (cres, hosts1) == ComputersRun(hosts, computers, now)
    requires (ares, st1) == AccountsRun(st, HostMap(computers), rels, accounts, now, ids)
    ensures cres.Err? ==> SmbImport(hosts, st, computers, accounts, rels, now, ids) == (Err(cres.error), hosts1, st)
    ensures cres.Ok? && ares.Err? ==> SmbImport(hosts, st, computers, accounts, rels, now, ids) == (Err(ares.error), hosts1, st1)
    ensures cres.Ok? && ares.Ok? ==>
      SmbImport(hosts, st, computers, accounts, rels, now, ids) == (Ok(Stats(cres.value, ares.value.users, ares.value.admins)), hosts1, st1)
  {
  }

  /** `import_smb`, proved against `SmbImport`. */
  method ImportSmb(hosts: Index, users: Index, creds: Index, computers: seq<ComputerRow>, accounts: seq<UserRow>,
                   rels: seq<AdminRelation>, now: int, ids: (nat, nat) -> string) returns (r: Result<Stats, string>)
    requires hosts.Valid() && users.Valid() && creds.Valid()
    requires hosts != users && hosts != creds && users != creds
    modifies hosts, users, creds
    ensures hosts.Valid() && users.Valid() && creds.Valid()
    ensures (r, hosts.docs, AccountsOf(users, creds)) ==
      SmbImport(old(hosts.docs), old(AccountsOf(users, creds)), computers, accounts, rels, now, ids)
  {
    var c, hostMap := ImportComputers(hosts, computers, now);
    if c.Err? {
      return Err(c.error);
    }
    var a := ImportAccounts(users, creds, hostMap, rels, accounts, now, ids);
    if a.Err? {
      return Err(a.error);
    }
    r := Ok(Stats(c.value, a.value.users, a.value.admins));
  }

  /**
   * `import_database`: only a database whose path ends in `smb.db` is imported; the
   * other protocols' databases are reported as not implemented and change nothing.
   */
  function DatabaseImport(path: string, hosts: map<string, Fields>, st: Accounts, computers: seq<ComputerRow>,
                          accounts: seq<UserRow>, rels: seq<AdminRelation>, now: int, ids: (nat, nat) -> string)
    : (Result<Option<Stats>, string>, map<string, Fields>, Accounts)
  {
    if EndsWith(path, "smb.db") then
      var r := SmbImport(hosts, st, computers, accounts, rels, now, ids);
      (if r.0.Err? then Err(r.0.error) else Ok(Some(r.0.value)), r.1, r.2)
    else (Ok(None), hosts, st)
  }

  /**
   * The databases of the other protocols `import_database` knows (ssh, winrm, http and
   * mssql) are never imported, even `mssql.db`, whose name contains `smb`-like letters.
   */
  lemma OtherDatabasesUntouched(path: string, hosts: map<string, Fields>, st: Accounts, computers: seq<ComputerRow>,
                                accounts: seq<UserRow>, rels: seq<AdminRelation>, now: int, ids: (nat, nat) -> string)
    requires EndsWith(path, "ssh.db") || EndsWith(path, "winrm.db") || EndsWith(path, "http.db") || EndsWith(path, "mssql.db")
    ensures DatabaseImport(path, hosts, st, computers, accounts, rels, now, ids) == (Ok(None), hosts, st)
  {
    OtherDatabaseNames(path);
  }

  /** None of the other protocols' database names ends in `smb.db`: each differs from it in its fifth-last letter. */
  lemma OtherDatabaseNames(path: string)
    requires EndsWith(path, "ssh.db") || EndsWith(path, "winrm.db") || EndsWith(path, "http.db") || EndsWith(path, "mssql.db")
    ensures !EndsWith(path, "smb.db")
  {
    var n := |path|;
    if EndsWith(path, "mssql.db") {
      assert path[n - 8..][3] == path[n - 5];
    } else if EndsWith(path, "winrm.db") {
      assert path[n - 8..][3] == path[n - 5];
    } else if EndsWith(path, "http.db") {
      assert path[n - 7..][2] == path[n - 5];
    } else {
      assert path[n - 6..][1] == path[n - 5];
    }
    assert path[n - 6..][1] != "smb.db"[1];
  }

  /** A successful SMB import reports its counts; a failed one reports the error of `import_smb`. */
  lemma SmbDatabaseImported(path: string, hosts: map<string, Fields>, st: Accounts, computers: seq<ComputerRow>,
                            accounts: seq<UserRow>, rels: seq<AdminRelation>, now: int, ids: (nat, nat) -> string)
    requires EndsWith(path, "smb.db")
    requires DatabaseImport(path, hosts, st, computers, accounts, rels, now, ids).0.Ok?
    ensures DatabaseImport(path, hosts, st, computers, accounts, rels, now, ids).0.value ==
      Some(Stats(|computers|, |accounts|, AdminTotal(rels, accounts)))
  {
    SmbImportStats(hosts, st, computers, accounts, rels, now, ids);
  }

  /** `import_database`, proved against `DatabaseImport`. */
  method ImportDatabase(path: string, hosts: Index, users: Index, creds: Index, computers: seq<ComputerRow>,
                        accounts: seq<UserRow>, rels: seq<AdminRelation>, now: int, ids: (nat, nat) -> string)
    returns (r: Result<Option<Stats>, string>)
    requires hosts.Valid() && users.Valid() && creds.Valid()
    requires hosts != users && hosts != creds && users != creds
    modifies hosts, users, creds
    ensures hosts.Valid() && users.Valid() && creds.Valid()
    ensures (r, hosts.docs, AccountsOf(users, creds)) ==
      DatabaseImport(path, old(hosts.docs), old(AccountsOf(users, creds)), computers, accounts, rels, now, ids)
  {
    if EndsWith(path, "smb.db") {
      var s := ImportSmb(hosts, users, creds, computers, accounts, rels, now, ids);
      r := if s.Err? then Err(s.error) else Ok(Some(s.value));
    } else {
      r := Ok(None);
    }
  }
}
