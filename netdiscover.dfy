/**
 * jackal/scripts/netdiscover.py: netdiscover run over one Range. The tool's output is
 * read line by line and the address of every five-column line is kept; saving tags the
 * Range and every address found, creating a Host for an address not stored yet.
 */
module NetDiscover {
  import opened Wrappers
  import opened Lists
  import opened Text
  import opened Values
  import opened Store
  import opened Documents

  const Tag := "netdiscover"
  /** The column separator of netdiscover's parsable output. */
  const Gap := "  "
  const EmptyId := "Empty value passed for a required argument 'id'"
  const ScalarTags := "TypeError: the tags value is not iterable"

  // ---------------------------------------------------------------- parsing the output

  /** The columns of one output line: stripped, split on two spaces, empty pieces dropped. */
  function Columns(line: string): (r: seq<string>)
    ensures forall k :: 0 <= k < |r| ==> r[k] != ""
  {
    NonEmpty(Split(Strip(line), Gap))
  }

  /** The address a line reports: the first column of a line with exactly five. */
  function LineIp(line: string): Option<string>
  {
    var cs := Columns(line);
    if |cs| == 5 then Some(cs[0]) else None
  }

  /** What a per-line parser reports over the lines, in order; lines it rejects add nothing. */
  function Reported(parse: string -> Option<string>, lines: seq<string>): (r: seq<string>)
    ensures |r| <= |lines|
  {
    if lines == [] then []
    else
      var x := parse(lines[|lines| - 1]);
      Reported(parse, lines[..|lines| - 1]) + (if x.Some? then [x.value] else [])
  }

  /** One more line adds what it reports, if anything, at the end. */
  lemma ReportedNext(parse: string -> Option<string>, lines: seq<string>, i: nat)
    requires i < |lines|
    ensures Reported(parse, lines[..i + 1]) == Reported(parse, lines[..i]) + (if parse(lines[i]).Some? then [parse(lines[i]).value] else [])
  {
    assert lines[..i + 1][..i] == lines[..i];
  }

  /** A value is reported exactly when the parser reports it for some line. */
  lemma {:induction false} ReportedMembers(parse: string -> Option<string>, lines: seq<string>)
    ensures forall x :: x in Reported(parse, lines) <==> exists k :: 0 <= k < |lines| && parse(lines[k]) == Some(x)
  {
    if lines != [] {
      var n := |lines| - 1;
      ReportedMembers(parse, lines[..n]);
      forall x | x in Reported(parse, lines) ensures exists k :: 0 <= k < |lines| && parse(lines[k]) == Some(x) {
        if x in Reported(parse, lines[..n]) {
          var k :| 0 <= k < n && parse(lines[..n][k]) == Some(x);
          assert lines[k] == lines[..n][k];
        } else {
          assert parse(lines[n]) == Some(x);
        }
      }
      forall x | exists k :: 0 <= k < |lines| && parse(lines[k]) == Some(x) ensures x in Reported(parse, lines) {
        var k :| 0 <= k < |lines| && parse(lines[k]) == Some(x);
        if k < n {
          assert parse(lines[..n][k]) == Some(x);
        }
      }
    }
  }

  /** The addresses `execute` collects from the given lines, in order; none is empty. */
  function LinesIps(lines: seq<string>): (r: seq<string>)
    ensures |r| <= |lines|
    ensures forall k :: 0 <= k < |r| ==> r[k] != ""
  {
    AddressesNonEmpty(lines);
    Reported(LineIp, lines)
  }

  /** A line never reports an empty address, as its columns are not empty. */
  lemma AddressesNonEmpty(lines: seq<string>)
    ensures forall k :: 0 <= k < |Reported(LineIp, lines)| ==> Reported(LineIp, lines)[k] != ""
  {
    var r := Reported(LineIp, lines);
    ReportedMembers(LineIp, lines);
    forall k | 0 <= k < |r| ensures r[k] != "" {
      assert r[k] in r;
      var j :| 0 <= j < |lines| && LineIp(lines[j]) == Some(r[k]);
    }
  }

  /** One more line adds its address, if it reports one, at the end. */
  lemma LinesIpsNext(lines: seq<string>, i: nat)
    requires i < |lines|
    ensures LinesIps(lines[..i + 1]) == LinesIps(lines[..i]) + (if LineIp(lines[i]).Some? then [LineIp(lines[i]).value] else [])
  {
    ReportedNext(LineIp, lines, i);
  }

  /** `output.strip().split('\n')`. */
  function OutputLines(output: string): seq<string>
  {
    Split(Strip(output), "\n")
  }

  /** The addresses found in the whole output of one run. */
  function OutputIps(output: string): seq<string>
  {
    LinesIps(OutputLines(output))
  }

  /**
   * A column as netdiscover prints it: not empty, no whitespace at either end and no
   * two spaces in a row (a vendor name may hold single spaces).
   */
  predicate Column(x: string) {
    x != "" && !IsSpace(x[0]) && !IsSpace(x[|x| - 1]) &&
    forall i :: 0 <= i < |x| - 1 ==> !(x[i] == ' ' && x[i + 1] == ' ')
  }

  /** Columns joined by two spaces split back into those columns. */
  lemma {:induction false} SplitColumns(parts: seq<string>)
    requires parts != [] && forall k :: 0 <= k < |parts| ==> Column(parts[k])
    ensures Split(Join(parts, Gap), Gap) == parts
    decreases |parts|
  {
    var x := parts[0];
    assert Column(x);
    if |parts| == 1 {
      forall i | 0 <= i < |x| ensures !OccursAt(x, Gap, i) {
        if i + 2 <= |x| {
          assert x[i..i + 2] == [x[i], x[i + 1]];
        }
      }
      SplitNoOccurrence(x, Gap);
    } else {
      var y := Join(parts[1..], Gap);
      var s := x + Gap + y;
      forall i | 0 <= i < |x| ensures !OccursAt(s, Gap, i) {
        if i + 1 < |x| {
          assert s[i..i + 2] == [x[i], x[i + 1]];
        } else {
          assert s[i..i + 2][0] == x[|x| - 1] != ' ';
        }
      }
      SplitColumns(parts[1..]);
      SplitLead(x, Gap, y);
      assert parts == [x] + parts[1..];
    }
  }

  /**
   * A line of columns separated by two spaces reports its first column exactly when it
   * has five columns.
   */
  lemma LineOfColumns(parts: seq<string>)
    requires parts != [] && forall k :: 0 <= k < |parts| ==> Column(parts[k])
    ensures LineIp(Join(parts, Gap)) == if |parts| == 5 then Some(parts[0]) else None
  {
    var line := Join(parts, Gap);
    JoinEnds(parts, Gap);
    StripUnchanged(line);
    SplitColumns(parts);
    NonEmptyKeepsAll(parts);
  }

  /** An address is collected exactly when some line reports it. */
  lemma LinesIpsMembers(lines: seq<string>)
    ensures forall ip :: ip in LinesIps(lines) <==> exists k :: 0 <= k < |lines| && LineIp(lines[k]) == Some(ip)
  {
    ReportedMembers(LineIp, lines);
  }

  // ---------------------------------------------------------------- saving

  /** The Host `save` creates for an address not stored yet. */
  function NewHost(ip: string, now: int): Fields
  {
    map["address" := One(Text(ip)), "tags" := Many([Text(Tag)]), "created_at" := One(Stamp(now))]
  }

  /** A partial `update` of the document `id` with `upd`; no id or no stored document leaves the store as it is. */
  function Patched(docs: map<string, Fields>, id: Option<string>, upd: Fields): map<string, Fields>
  {
    if upd != map[] && id.Some? && id.value != "" && id.value in docs then docs[id.value := docs[id.value] + upd] else docs
  }

  /**
   * The Host store after `save` handles one address: a stored Host gets the tag through a
   * tags-only update of the document its address names, an unknown address becomes a
   * new Host holding the address and the tag.
   */
  function TagHost(docs: map<string, Fields>, ip: string, now: int): Result<map<string, Fields>, string>
  {
    if ip == "" then Err(EmptyId)
    else if Loaded(docs, ip) then
      var f := DropPrivate(docs[ip]);
      if !Taggable(f) then Err(ScalarTags)
      else Ok(Patched(docs, InitialId(Host, docs[ip], Some(ip)), map["tags" := Many(WithTag(TagsOr(f), Tag))]))
    else Ok(docs[ip := NewHost(ip, now)])
  }

  /** The Host store after the loop of `save` over `ips`; the first failure ends it. */
  function HostsRun(docs: map<string, Fields>, ips: seq<string>, now: int): (Result<(), string>, map<string, Fields>)
  {
    if ips == [] then (Ok(()), docs)
    else
      var before := HostsRun(docs, ips[..|ips| - 1], now);
      if before.0.Err? then before
      else match TagHost(before.1, ips[|ips| - 1], now)
        case Err(e) => (Err(e), before.1)
        case Ok(d) => (Ok(()), d)
  }

  lemma HostsRunNext(docs: map<string, Fields>, ips: seq<string>, now: int, i: nat,
                     docs0: map<string, Fields>, res: Result<(), string>, docs1: map<string, Fields>)
    requires i < |ips| && HostsRun(docs, ips[..i], now) == (Ok(()), docs0)
    requires res.Err? ==> TagHost(docs0, ips[i], now) == Err(res.error) && docs1 == docs0
    requires res.Ok? ==> TagHost(docs0, ips[i], now) == Ok(docs1)
    ensures HostsRun(docs, ips[..i + 1], now) == (res, docs1)
  {
    var xs := ips[..i + 1];
    assert xs[..|xs| - 1] == ips[..i] && xs[|xs| - 1] == ips[i];
    assert HostsRun(docs, xs[..|xs| - 1], now) == (Ok(()), docs0);
    match TagHost(docs0, ips[i], now)
    case Err(e) =>
      assert HostsRun(docs, xs, now) == (Err(e), docs0);
      assert res == Err(e);
    case Ok(d) =>
      assert HostsRun(docs, xs, now) == (Ok(()), d);
      assert res.Ok?;
      assert res.value == ();
  }

  lemma {:induction false} HostsRunPrefix(docs: map<string, Fields>, ips: seq<string>, now: int, n: nat)
    requires n <= |ips| && HostsRun(docs, ips[..n], now).0.Err?
    ensures HostsRun(docs, ips, now) == HostsRun(docs, ips[..n], now)
    decreases |ips| - n
  {
    if n < |ips| {
      assert ips[..n + 1][..n] == ips[..n];
      HostsRunPrefix(docs, ips, now, n + 1);
    } else {
      assert ips[..n] == ips;
    }
  }

  /** Every stored Host is filed under its own address. */
  predicate KeyedHosts(docs: map<string, Fields>) {
    forall id :: id in docs ==> KeyText(docs[id], "address") == Some(id)
  }

  /** The record carries the netdiscover tag in its tag list. */
  predicate Tagged(f: Fields) {
    "tags" in f && f["tags"].Many? && Text(Tag) in f["tags"].items
  }

  /** Dropping the private keywords keeps the tags field. */
  lemma TagsKept(f: Fields)
    ensures Taggable(DropPrivate(f)) == Taggable(f)
    ensures Taggable(f) ==> TagsOr(DropPrivate(f)) == TagsOr(f)
  {
    assert !Private("tags");
  }

  /** `save` fails on an address exactly when it is empty or its stored Host holds a single tag value. */
  lemma TagHostFails(docs: map<string, Fields>, ip: string, now: int)
    ensures TagHost(docs, ip, now).Err? <==> ip == "" || (ip in docs && !Taggable(docs[ip]))
  {
    if ip != "" && ip in docs {
      TagsKept(docs[ip]);
    }
  }

  /**
   * An empty stored Host tests false in `if host:`, so `save` replaces it with a new Host
   * holding the address and the tag.
   */
  lemma TagEmptyHost(docs: map<string, Fields>, ip: string, now: int)
    requires ip != "" && ip in docs && DropPrivate(docs[ip]) == map[]
    ensures TagHost(docs, ip, now) == Ok(docs[ip := NewHost(ip, now)])
  {
  }

  /** A stored Host filed under its own address gets the tag added to its tag list. */
  lemma TagStored(docs: map<string, Fields>, ip: string, now: int)
    requires ip != "" && ip in docs && KeyText(docs[ip], "address") == Some(ip) && Taggable(docs[ip])
    ensures TagHost(docs, ip, now) == Ok(docs[ip := docs[ip]["tags" := Many(WithTag(TagsOr(docs[ip]), Tag))]])
  {
    TagsKept(docs[ip]);
    assert InitialId(Host, docs[ip], Some(ip)) == Some(ip);
    var tags := Many(WithTag(TagsOr(DropPrivate(docs[ip])), Tag));
    var upd := map["tags" := tags];
    assert "tags" in upd;
    assert docs[ip] + upd == docs[ip]["tags" := tags];
    assert TagHost(docs, ip, now) == Ok(Patched(docs, Some(ip), upd));
  }

  /**
   * With every Host filed under its address, handling an address leaves it stored and
   * tagged, and every Host still filed under its address; no other Host changes.
   */
  lemma TagHostEffect(docs: map<string, Fields>, ip: string, now: int)
    requires KeyedHosts(docs) && TagHost(docs, ip, now).Ok?
    ensures var d := TagHost(docs, ip, now).value;
      KeyedHosts(d) && d.Keys == docs.Keys + {ip} && Tagged(d[ip]) &&
      (forall id :: id in docs && id != ip ==> d[id] == docs[id])
  {
    TagHostFails(docs, ip, now);
    if ip in docs {
      TagStored(docs, ip, now);
      var g := docs[ip]["tags" := Many(WithTag(TagsOr(docs[ip]), Tag))];
      WithTagFacts(TagsOr(docs[ip]), Tag);
      assert Tagged(g);
      assert KeyText(g, "address") == Some(ip);
      PutHost(docs, ip, g);
      assert TagHost(docs, ip, now).value == docs[ip := g];
    } else {
      var g := NewHost(ip, now);
      assert Tagged(g) && KeyText(g, "address") == Some(ip);
      PutHost(docs, ip, g);
      assert TagHost(docs, ip, now).value == docs[ip := g];
    }
  }

  /** Filing a tagged Host under its own address. */
  lemma PutHost(docs: map<string, Fields>, ip: string, g: Fields)
    requires KeyedHosts(docs) && KeyText(g, "address") == Some(ip) && Tagged(g)
    ensures var d := docs[ip := g];
      KeyedHosts(d) && d.Keys == docs.Keys + {ip} && Tagged(d[ip]) &&
      (forall id :: id in docs && id != ip ==> d[id] == docs[id])
  {
    KeyedPut(docs, ip, g);
  }

  /**
   * Tagging a stored Host keeps every tag it had and changes no field of it other than
   * its tags.
   */
  lemma TagHostKeeps(docs: map<string, Fields>, ip: string, now: int)
    requires KeyedHosts(docs) && ip in docs && TagHost(docs, ip, now).Ok?
    ensures var d := TagHost(docs, ip, now).value;
      ip in d && "tags" in d[ip] && d[ip]["tags"].Many? &&
      (forall t :: t in TagsOr(docs[ip]) ==> t in d[ip]["tags"].items) &&
      (forall k :: k != "tags" ==> (k in d[ip] <==> k in docs[ip]) && (k in docs[ip] ==> d[ip][k] == docs[ip][k]))
  {
    TagHostFails(docs, ip, now);
    TagStored(docs, ip, now);
    WithTagFacts(TagsOr(docs[ip]), Tag);
  }

  lemma KeyedPut(docs: map<string, Fields>, ip: string, g: Fields)
    requires KeyedHosts(docs) && KeyText(g, "address") == Some(ip)
    ensures KeyedHosts(docs[ip := g])
  {
  }

  /** A stored Host filed under its address whose tag list already holds the tag once is left as it is. */
  lemma TagAgain(docs: map<string, Fields>, ip: string, items: seq<Atom>, later: int)
    requires ip != "" && ip in docs && KeyText(docs[ip], "address") == Some(ip)
    requires "tags" in docs[ip] && docs[ip]["tags"] == Many(items) && NoDups(items) && Text(Tag) in items
    ensures TagHost(docs, ip, later) == Ok(docs)
  {
    TagStored(docs, ip, later);
    WithTagFacts(items, Tag);
    assert docs[ip]["tags" := Many(items)] == docs[ip];
    assert docs[ip := docs[ip]] == docs;
  }

  /** Handling the same address again changes nothing: the tag is already there. */
  lemma TagHostIdempotent(docs: map<string, Fields>, ip: string, now: int, later: int)
    requires KeyedHosts(docs) && TagHost(docs, ip, now).Ok?
    ensures TagHost(TagHost(docs, ip, now).value, ip, later) == TagHost(docs, ip, now)
  {
    TagHostFails(docs, ip, now);
    if ip in docs {
      TagStoredAgain(docs, ip, now, later);
    } else {
      var d := docs[ip := NewHost(ip, now)];
      assert TagHost(docs, ip, now) == Ok(d);
      TagAgain(d, ip, [Text(Tag)], later);
    }
  }

  /** The stored-Host case of `TagHostIdempotent`. */
  lemma TagStoredAgain(docs: map<string, Fields>, ip: string, now: int, later: int)
    requires ip != "" && ip in docs && KeyText(docs[ip], "address") == Some(ip) && Taggable(docs[ip])
    ensures TagHost(docs, ip, now).Ok?
    ensures TagHost(TagHost(docs, ip, now).value, ip, later) == TagHost(docs, ip, now)
  {
    TagStored(docs, ip, now);
    var items := WithTag(TagsOr(docs[ip]), Tag);
    WithTagFacts(TagsOr(docs[ip]), Tag);
    var d := docs[ip := docs[ip]["tags" := Many(items)]];
    assert d[ip] == docs[ip]["tags" := Many(items)];
    TagAgain(d, ip, items, later);
  }

  /**
   * After a successful loop of `save`, every address found is a stored Host carrying the
   * netdiscover tag, no Host was removed, and every Host is still filed under its address.
   */
  lemma {:induction false} HostsRunTagged(docs: map<string, Fields>, ips: seq<string>, now: int)
    requires KeyedHosts(docs) && HostsRun(docs, ips, now).0.Ok?
    ensures var d := HostsRun(docs, ips, now).1;
      KeyedHosts(d) && docs.Keys <= d.Keys &&
      forall k :: 0 <= k < |ips| ==> ips[k] in d && Tagged(d[ips[k]])
  {
    if ips != [] {
      var n := |ips| - 1;
      var before := HostsRun(docs, ips[..n], now);
      assert before.0.Ok?;
      HostsRunTagged(docs, ips[..n], now);
      TagHostEffect(before.1, ips[n], now);
      var d := HostsRun(docs, ips, now).1;
      assert d == TagHost(before.1, ips[n], now).value;
      forall k | 0 <= k < |ips| ensures ips[k] in d && Tagged(d[ips[k]]) {
        if k < n {
          assert ips[k] == ips[..n][k];
        } else {
          assert k == n;
        }
      }
    }
  }

  /** One address of the loop of `save`, proved against `TagHost`. */
  method SaveHost(hosts: Index, ip: string, now: int) returns (r: Result<(), string>)
    requires hosts.Valid()
    modifies hosts
    ensures hosts.Valid()
    ensures r.Err? ==> TagHost(old(hosts.docs), ip, now) == Err(r.error) && hosts.docs == old(hosts.docs)
    ensures r.Ok? ==> TagHost(old(hosts.docs), ip, now) == Ok(hosts.docs)
    ensures forall id :: id in old(hosts.docs) ==> id in hosts.docs
    ensures hosts.order == if r.Ok? && ip !in old(hosts.docs) then old(hosts.order) + [ip] else old(hosts.order)
  {
    if ip == "" {
      return Err(EmptyId);
    }
    var found := hosts.Get(ip);
    var host: Doc? := null;
    if found.Some? {
      host := new Doc.FromHit(Host, ip, found.value);
    }
    if host != null && host.fields != map[] {  // `if host:` is false for an empty document
      if !Taggable(host.fields) {
        return Err(ScalarTags);
      }
      var tagged := host.AddTag(Tag);
      var _ := host.Update(hosts, now, map["tags" := host.fields["tags"]]);
    } else {
      var kwargs := map["address" := One(Text(ip)), "tags" := Many([Text(Tag)])];
      assert !Private("address") && !Private("tags");
      assert DropPrivate(kwargs) == kwargs;
      var host := new Doc(Host, kwargs);
      host.Save(hosts, now, ip);
      assert host.fields == NewHost(ip, now);
    }
    r := Ok(());
  }

  /** The loop of `save` over the addresses found, proved against `HostsRun`. */
  method SaveHosts(hosts: Index, ips: seq<string>, now: int) returns (r: Result<(), string>)
    requires hosts.Valid()
    modifies hosts
    ensures hosts.Valid()
    ensures (r, hosts.docs) == HostsRun(old(hosts.docs), ips, now)
    ensures Appended(old(hosts.order), old(hosts.docs), hosts.order)
  {
    r := Ok(());
    var i := 0;
    while i < |ips| && r.Ok?
      invariant 0 <= i <= |ips| && hosts.Valid()
      invariant HostsRun(old(hosts.docs), ips[..i], now) == (r, hosts.docs)
      invariant forall id :: id in old(hosts.docs) ==> id in hosts.docs
      invariant Appended(old(hosts.order), old(hosts.docs), hosts.order)
    {
      r := SaveNext(hosts, ips, now, i, old(hosts.docs), old(hosts.order));
      i := i + 1;
    }
    if r.Err? {
      HostsRunPrefix(old(hosts.docs), ips, now, i);
    } else {
      assert ips[..i] == ips;
    }
  }

  /** One turn of the loop of `save`: the next address is handled. */
  method SaveNext(hosts: Index, ips: seq<string>, now: int, i: nat, ghost docs: map<string, Fields>, ghost order: seq<string>)
    returns (r: Result<(), string>)
    requires hosts.Valid() && i < |ips|
    requires HostsRun(docs, ips[..i], now) == (Ok(()), hosts.docs)
    requires forall id :: id in docs ==> id in hosts.docs
    requires Appended(order, docs, hosts.order)
    modifies hosts
    ensures hosts.Valid()
    ensures HostsRun(docs, ips[..i + 1], now) == (r, hosts.docs)
    ensures forall id :: id in docs ==> id in hosts.docs
    ensures Appended(order, docs, hosts.order)
  {
    ghost var docs0, order0 := hosts.docs, hosts.order;
    r := SaveHost(hosts, ips[i], now);
    HostsRunNext(docs, ips, now, i, docs0, r, hosts.docs);
    AppendedTrans(order, docs, order0, docs0, hosts.order);
  }

  // ---------------------------------------------------------------- the scan object

  /** `NetDiscover(ip_range)`: the Range scanned and the addresses found so far. */
  class NetDiscover {
    const ipRange: Doc
    var ips: seq<string>

    /** No address found is empty. */
    ghost predicate Valid()
      reads this
    {
      forall k :: 0 <= k < |ips| ==> ips[k] != ""
    }

    constructor (ipRange: Doc)
      ensures this.ipRange == ipRange && ips == [] && Valid()
    {
      this.ipRange := ipRange;
      ips := [];
    }

    /**
     * `execute()` on the tool's output: the addresses of its five-column lines are added
     * to those found by earlier runs, and the total is returned.
     */
    method Execute(output: string) returns (n: nat)
      requires Valid()
      modifies this
      ensures Valid()
      ensures ips == old(ips) + OutputIps(output)
      ensures n == |ips|
    {
      Collect(Split(Strip(output), "\n"));
      n := |ips|;
    }

    /** The loop of `execute` over the output lines. */
    method Collect(lines: seq<string>)
      requires Valid()
      modifies this
      ensures Valid()
      ensures ips == old(ips) + LinesIps(lines)
    {
      var i := 0;
      while i < |lines|
        invariant 0 <= i <= |lines| && Valid()
        invariant ips == old(ips) + LinesIps(lines[..i])
      {
        // the columns of the line, and its first one when there are five
        var ip := LineIp(lines[i]);
        LinesIpsNext(lines, i);
        if ip.Some? {
          ips := ips + [ip.value];
        }
        i := i + 1;
      }
      assert lines[..i] == lines;
    }

    /**
     * `save()`: the Range gets the tag through a tags-only update, then every address
     * found is tagged or created as a Host. A Range holding a single tag value fails
     * before anything changes.
     */
    method Save(ranges: Index, hosts: Index, now: int) returns (r: Result<(), string>)
      requires ranges.Valid() && hosts.Valid() && ranges != hosts
      modifies ipRange, ranges, hosts
      ensures ranges.Valid() && hosts.Valid()
      ensures ipRange.id == old(ipRange.id) && ranges.order == old(ranges.order)
      ensures !Taggable(old(ipRange.fields)) ==>
        r == Err(ScalarTags) && ipRange.fields == old(ipRange.fields) &&
        ranges.docs == old(ranges.docs) && hosts.docs == old(hosts.docs)
      ensures Taggable(old(ipRange.fields)) ==>
        var upd := map["tags" := Many(WithTag(TagsOr(old(ipRange.fields)), Tag))];
        ipRange.fields == (old(ipRange.fields) + upd)["updated_at" := One(Stamp(now))] + upd &&
        ranges.docs == Patched(old(ranges.docs), old(ipRange.id), upd) &&
        (r, hosts.docs) == HostsRun(old(hosts.docs), ips, now)
      ensures Appended(old(hosts.order), old(hosts.docs), hosts.order)
    {
      if !Taggable(ipRange.fields) {
        return Err(ScalarTags);
      }
      var tagged := ipRange.AddTag(Tag);
      var _ := ipRange.Update(ranges, now, map["tags" := ipRange.fields["tags"]]);
      r := SaveHosts(hosts, ips, now);
    }
  }
}
