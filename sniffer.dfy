/**
 * jackal/scripts/sniffer.py: the passive sniffer's bookkeeping. Every address seen in a
 * packet is recorded at most once as a Host tagged 'sniffer', and its network at most
 * once as a Range tagged 'sniffer'.
 */
module Sniffer {
  import opened Wrappers
  import opened Text
  import opened Values
  import opened Store
  import opened Documents
  import opened Core
  import Ipv4
  import Lists

  /** A captured packet, reduced to what the callback reads. */
  datatype Packet = Packet(isArp: bool, arpSource: string, isTcpOrUdp: bool, ipSource: string, ipDestination: string)

  /** The addresses a packet contributes, in the order the callback parses them. */
  function Candidates(pkt: Packet): (r: seq<string>)
    ensures |r| == (if pkt.isArp then 1 else 0) + (if pkt.isTcpOrUdp then 2 else 0)
  {
    (if pkt.isArp then [pkt.arpSource] else []) +
    (if pkt.isTcpOrUdp then [pkt.ipSource, pkt.ipDestination] else [])
  }

  /** The candidates are the ARP source of an ARP packet and both IP addresses of a TCP or UDP packet. */
  lemma CandidatesMembers(pkt: Packet)
    ensures forall x :: x in Candidates(pkt) <==>
      (pkt.isArp && x == pkt.arpSource) || (pkt.isTcpOrUdp && (x == pkt.ipSource || x == pkt.ipDestination))
  {
  }

  /**
   * An address the sniffer keeps: it parses, it is not multicast, unspecified, reserved,
   * loopback or link-local, and it is private unless public addresses are included.
   */
  predicate Recordable(ip: string, includePublic: bool) {
    match Ipv4.ParseAddress(ip)
    case None => false
    case Some(x) => Keeps(x, includePublic)
  }

  /** The category test on a parsed address. */
  predicate Keeps(x: Ipv4.Addr, includePublic: bool) {
    !(Ipv4.IsMulticast(x) || Ipv4.IsUnspecified(x) || Ipv4.IsReserved(x) || Ipv4.IsLoopback(x) || Ipv4.IsLinkLocal(x)) &&
    (includePublic || Ipv4.IsPrivate(x))
  }

  /** The range string of an address under a netmask string; None when either does not parse. */
  function RangeOf(ip: string, netmask: string): Option<string>
  {
    match (Ipv4.ParseAddress(ip), Ipv4.NetmaskPrefix(netmask))
    case (Some(x), Some(p)) => Some(Ipv4.NetworkString(x, p))
    case _ => None
  }

  /**
   * The ranges a sequence of addresses adds: that of every address not seen before that
   * the sniffer keeps and whose range string can be formed.
   */
  function NewRanges(xs: seq<string>, seen: set<string>, includePublic: bool, netmask: string): set<string>
  {
    set x | x in xs && x !in seen && Recordable(x, includePublic) && RangeOf(x, netmask).Some? :: RangeOf(x, netmask).value
  }

  /** The `range` images of the elements of `xs` not in `seen` that `keep` accepts and `range` maps. */
  function Image(xs: seq<string>, seen: set<string>, keep: string -> bool, range: string -> Option<string>): set<string>
  {
    set x | x in xs && x !in seen && keep(x) && range(x).Some? :: range(x).value
  }

  /** One more element adds its image exactly when it is new: not seen and not kept earlier. */
  lemma ImageSnoc(xs: seq<string>, x: string, seen0: set<string>, seen: set<string>,
                  keep: string -> bool, range: string -> Option<string>)
    requires x in seen <==> x in seen0 || (x in xs && keep(x))
    ensures Image(xs + [x], seen0, keep, range) ==
      Image(xs, seen0, keep, range) + (if x !in seen && keep(x) && range(x).Some? then {range(x).value} else {})
  {
    var a := Image(xs + [x], seen0, keep, range);
    var b := Image(xs, seen0, keep, range);
    var add := x !in seen && keep(x) && range(x).Some?;
    var c := b + (if add then {range(x).value} else {});
    forall r | r in a ensures r in c {
      var y :| y in xs + [x] && y !in seen0 && keep(y) && range(y).Some? && range(y).value == r;
      if y in xs {
        assert r in b;
      } else {
        assert y == x && add;
      }
    }
    forall r | r in c ensures r in a {
      if r in b {
        var y :| y in xs && y !in seen0 && keep(y) && range(y).Some? && range(y).value == r;
        assert y in xs + [x];
      } else {
        assert x in xs + [x];
      }
    }
  }

  /** The addresses of a sequence that the sniffer keeps. */
  function Kept(xs: seq<string>, includePublic: bool): set<string>
  {
    set x | x in xs && Recordable(x, includePublic)
  }

  /** The candidate Host for a new address: the address, tagged 'sniffer'. */
  function HostCandidate(ip: string): Fields
  {
    map["address" := One(Text(ip)), "tags" := Many(WithTag([], "sniffer"))]
  }

  /** The candidate Range for a new network: the range string, tagged 'sniffer'. */
  function RangeCandidate(r: string): Fields
  {
    map["range" := One(Text(r)), "tags" := Many(WithTag([], "sniffer"))]
  }

  /** The Host store after `new_ip` merges the address `ip`. */
  function HostMerged(docs: map<string, Fields>, ip: string, now: int): map<string, Fields>
  {
    MergeEffect(Host, [], docs, Some(ip), HostCandidate(ip), now, ip).1
  }

  /** The merge of `new_ip(ip)` raises: the stored Host under `ip` cannot take the tag. */
  predicate HostMergeFails(docs: map<string, Fields>, ip: string, now: int)
  {
    MergeEffect(Host, [], docs, Some(ip), HostCandidate(ip), now, ip).0.Failed()
  }

  /** The Range store after `new_range` merges the range string `rng`. */
  function RangeMerged(docs: map<string, Fields>, rng: string, now: int): map<string, Fields>
  {
    MergeEffect(Range, [], docs, Some(rng), RangeCandidate(rng), now, rng).1
  }

  /** The merge of `new_range(rng)` raises: the stored Range under `rng` cannot take the tag. */
  predicate RangeMergeFails(docs: map<string, Fields>, rng: string, now: int)
  {
    MergeEffect(Range, [], docs, Some(rng), RangeCandidate(rng), now, rng).0.Failed()
  }

  /** Merging an address as a Host saves a new document, under the address, exactly when none is stored under it. */
  lemma HostSavedNew(docs: map<string, Fields>, ip: string, now: int)
    ensures var r := MergeEffect(Host, [], docs, Some(ip), HostCandidate(ip), now, ip);
      ((r.0.Saved? && r.0.id !in docs) <==> ip !in docs) && (r.0.Saved? && r.0.id !in docs ==> r.0.id == ip)
  {
    var cand := HostCandidate(ip);
    assert KeyText(cand, "address") == Some(ip);
    if Loaded(docs, ip) && ip != "" {
      assert Twin(Host, [], docs, cand) == Some(ip);
    } else {
      assert Twin(Host, [], docs, cand) == None;
      assert StoreKey(SaveId(Host, Some(ip), cand), ip) == ip;
    }
  }

  /** Merging a range string as a Range saves a new document, under the range, exactly when none is stored under it. */
  lemma RangeSavedNew(docs: map<string, Fields>, rng: string, now: int)
    ensures var r := MergeEffect(Range, [], docs, Some(rng), RangeCandidate(rng), now, rng);
      ((r.0.Saved? && r.0.id !in docs) <==> rng !in docs) && (r.0.Saved? && r.0.id !in docs ==> r.0.id == rng)
  {
    var cand := RangeCandidate(rng);
    assert KeyText(cand, "range") == Some(rng);
    if Loaded(docs, rng) && rng != "" {
      assert Twin(Range, [], docs, cand) == Some(rng);
    } else {
      assert Twin(Range, [], docs, cand) == None;
      assert StoreKey(SaveId(Range, Some(rng), cand), rng) == rng;
    }
  }

  /** The candidate `new_ip` (for a Host) or `new_range` (for a Range) builds for `value`. */
  function Candidate(kind: Kind, value: string): Fields
    requires kind == Host || kind == Range
  {
    if kind == Host then HostCandidate(value) else RangeCandidate(value)
  }

  /** `HostDoc(address=value)` or `RangeDoc(range=value)`, then `add_tag('sniffer')`. */
  method TaggedDoc(kind: Kind, value: string) returns (doc: Doc)
    requires kind == Host || kind == Range
    ensures fresh(doc) && doc.kind == kind
    ensures doc.id == Some(value) && doc.fields == Candidate(kind, value)
  {
    var key := if kind == Host then "address" else "range";
    var kwargs := map[key := One(Text(value))];
    PublicKeys(kwargs, key);
    doc := new Doc(kind, kwargs);
    assert "tags" !in doc.fields;
    var tagged := doc.AddTag("sniffer");
  }

  /**
   * The body shared by `new_ip` and `new_range`: a Host (or Range) document whose
   * address (or range) is `value`, tagged 'sniffer', merged into its index; `ok` is
   * false when the merge raises. The index's order gains `value` exactly when no
   * document was stored under it.
   */
  method MergeTagged(idx: Index, kind: Kind, value: string, now: int) returns (ok: bool)
    requires idx.Valid() && (kind == Host || kind == Range)
    modifies idx
    ensures idx.Valid()
    ensures var m := MergeEffect(kind, [], old(idx.docs), Some(value), Candidate(kind, value), now, value);
      ok == !m.0.Failed() && idx.docs == m.1
    ensures idx.order == if value !in old(idx.docs) then old(idx.order) + [value] else old(idx.order)
  {
    var doc := TaggedDoc(kind, value);
    MergeIgnoresOrder(kind, idx.order, [], idx.docs, Some(value), doc.fields, now, value);
    if kind == Host {
      HostSavedNew(idx.docs, value, now);
    } else {
      RangeSavedNew(idx.docs, value, now);
    }
    ghost var m := MergeEffect(kind, [], idx.docs, Some(value), Candidate(kind, value), now, value);
    assert (m.0.Saved? && m.0.id !in idx.docs) <==> value !in idx.docs;
    assert m.0.Saved? && m.0.id !in idx.docs ==> m.0.id == value;
    var outcome := Merge(idx, doc, now, value);
    assert (outcome, idx.docs) == m;
    ok := !outcome.Failed();
  }

  /**
   * The seen-sets after `parse_ip(ip)`: an address not seen before that the sniffer
   * keeps is added, and so is its range when the netmask parses.
   */
  function SeenStep(ips: set<string>, ranges: set<string>, ip: string, includePublic: bool, netmask: string): (set<string>, set<string>)
  {
    if ip in ips || !Recordable(ip, includePublic) then (ips, ranges)
    else (ips + {ip}, if RangeOf(ip, netmask).Some? then ranges + {RangeOf(ip, netmask).value} else ranges)
  }

  /** The seen-sets after `parse_ip` on each address in turn. */
  function SeenRun(ips: set<string>, ranges: set<string>, xs: seq<string>, includePublic: bool, netmask: string): (set<string>, set<string>)
    decreases |xs|
  {
    if xs == [] then (ips, ranges)
    else
      var p := SeenRun(ips, ranges, xs[..|xs| - 1], includePublic, netmask);
      SeenStep(p.0, p.1, xs[|xs| - 1], includePublic, netmask)
  }

  /**
   * The Host and Range stores after `parse_ip(ip)`, given the seen-sets before it: an
   * address not seen before that the sniffer keeps is merged as a Host, and its range,
   * when the netmask parses and the range was not seen before, is merged as a Range.
   */
  function StoresStep(ips: set<string>, ranges: set<string>, hostDocs: map<string, Fields>, rangeDocs: map<string, Fields>,
                      ip: string, includePublic: bool, netmask: string, now: int): (map<string, Fields>, map<string, Fields>)
  {
    if ip in ips || !Recordable(ip, includePublic) then (hostDocs, rangeDocs)
    else
      var rng := RangeOf(ip, netmask);
      (HostMerged(hostDocs, ip, now),
       if rng.Some? && rng.value !in ranges then RangeMerged(rangeDocs, rng.value, now) else rangeDocs)
  }

  /** The Host and Range stores after `parse_ip` on each address in turn. */
  function StoresRun(ips: set<string>, ranges: set<string>, hostDocs: map<string, Fields>, rangeDocs: map<string, Fields>,
                     xs: seq<string>, includePublic: bool, netmask: string, now: int): (map<string, Fields>, map<string, Fields>)
    decreases |xs|
  {
    if xs == [] then (hostDocs, rangeDocs)
    else
      var init := xs[..|xs| - 1];
      var p := SeenRun(ips, ranges, init, includePublic, netmask);
      var d := StoresRun(ips, ranges, hostDocs, rangeDocs, init, includePublic, netmask, now);
      StoresStep(p.0, p.1, d.0, d.1, xs[|xs| - 1], includePublic, netmask, now)
  }

  /**
   * The seen-sets after parsing a sequence of addresses: the kept addresses are added,
   * and so are the ranges of the kept addresses that were not seen before.
   */
  lemma {:induction false} SeenRunSets(ips: set<string>, ranges: set<string>, xs: seq<string>, includePublic: bool, netmask: string)
    ensures SeenRun(ips, ranges, xs, includePublic, netmask) ==
      (ips + Kept(xs, includePublic), ranges + NewRanges(xs, ips, includePublic, netmask))
    decreases |xs|
  {
    if xs == [] {
      NothingDone(ips, ranges, includePublic, netmask);
    } else {
      var init, x := xs[..|xs| - 1], xs[|xs| - 1];
      assert xs == init + [x];
      SeenRunSets(ips, ranges, init, includePublic, netmask);
      var p := SeenRun(ips, ranges, init, includePublic, netmask);
      var q := SeenStep(p.0, p.1, x, includePublic, netmask);
      SeenStepSets(p.0, p.1, x, includePublic, netmask);
      Step(init, x, ips, ranges, p.0, p.1, q.0, q.1, includePublic, netmask);
    }
  }

  /** One step adds a kept address, and its range when the address is new and the range forms. */
  lemma SeenStepSets(ips: set<string>, ranges: set<string>, ip: string, includePublic: bool, netmask: string)
    ensures var q := SeenStep(ips, ranges, ip, includePublic, netmask);
      q.0 == ips + (if Recordable(ip, includePublic) then {ip} else {}) &&
      q.1 == ranges + (if ip !in ips && Recordable(ip, includePublic) && RangeOf(ip, netmask).Some?
                       then {RangeOf(ip, netmask).value} else {})
  {
  }

  /**
   * A kept address not seen before ends up stored under its own address, tagged
   * 'sniffer', whether its Host was stored before (filed under its address, with its tags
   * unset or a list) or not.
   */
  lemma RecordedHost(docs: map<string, Fields>, ip: string, now: int)
    requires ip != "" && (ip in docs ==> KeyedAt(Host, ip, docs[ip]) && ListOrUnset(docs[ip], "tags"))
    ensures var d := HostMerged(docs, ip, now);
      ip in d && "address" in d[ip] && d[ip]["address"] == One(Text(ip)) &&
      "tags" in d[ip] && d[ip]["tags"].Many? && Text("sniffer") in d[ip]["tags"].items
  {
    var cand := HostCandidate(ip);
    assert WithTag([], "sniffer") == [Text("sniffer")] by { Lists.DedupOfDistinct([Text("sniffer")]); }
    assert ip in docs ==> Extendable(Host, docs[ip], cand);
    MergedAbsorbs(Host, [], docs, Some(ip), cand, now, ip, ip);
  }

  /**
   * A new range ends up stored under its range string, tagged 'sniffer', whether it was
   * stored before (filed under its range string, with its tags unset or a list) or not.
   */
  lemma RecordedRange(docs: map<string, Fields>, rng: string, now: int)
    requires rng != "" && (rng in docs ==> KeyedAt(Range, rng, docs[rng]) && ListOrUnset(docs[rng], "tags"))
    ensures var d := RangeMerged(docs, rng, now);
      rng in d && "range" in d[rng] && d[rng]["range"] == One(Text(rng)) &&
      "tags" in d[rng] && d[rng]["tags"].Many? && Text("sniffer") in d[rng]["tags"].items
  {
    var cand := RangeCandidate(rng);
    assert WithTag([], "sniffer") == [Text("sniffer")] by { Lists.DedupOfDistinct([Text("sniffer")]); }
    assert rng in docs ==> Extendable(Range, docs[rng], cand);
    MergedAbsorbs(Range, [], docs, Some(rng), cand, now, rng, rng);
  }

  /**
   * What the sniffer holds between packets: whether it is still running (false once a
   * merge has raised, which ends `sniff`), the two seen-sets and the two stores.
   */
  datatype Sniffed = Sniffed(ok: bool, ips: set<string>, ranges: set<string>,
                             hostDocs: map<string, Fields>, rangeDocs: map<string, Fields>)

  /**
   * `parse_ip(ip)` on a state: an address seen before, or one the sniffer does not keep,
   * changes nothing. Otherwise the address is added and merged as a Host; when that merge
   * raises, the step stops there. Then the address's range, when the netmask parses and
   * the range is new, is added and merged as a Range, and a raise there stops the step too.
   */
  function ParseStep(s: Sniffed, ip: string, includePublic: bool, netmask: string, now: int): Sniffed
  {
    if ip in s.ips || !Recordable(ip, includePublic) then s
    else if HostMergeFails(s.hostDocs, ip, now) then s.(ok := false, ips := s.ips + {ip})
    else
      var q := SeenStep(s.ips, s.ranges, ip, includePublic, netmask);
      var d := StoresStep(s.ips, s.ranges, s.hostDocs, s.rangeDocs, ip, includePublic, netmask, now);
      var rng := RangeOf(ip, netmask);
      Sniffed(!(rng.Some? && rng.value !in s.ranges && RangeMergeFails(s.rangeDocs, rng.value, now)), q.0, q.1, d.0, d.1)
  }

  /** The next call of `parse_ip`, made only while no merge has raised. */
  function Next(s: Sniffed, ip: string, includePublic: bool, netmask: string, now: int): Sniffed
  {
    if s.ok then ParseStep(s, ip, includePublic, netmask, now) else s
  }

  /** `parse_ip` on each address in turn, stopping at the first one whose merge raises. */
  function ParseRun(s: Sniffed, xs: seq<string>, includePublic: bool, netmask: string, now: int): Sniffed
    decreases |xs|
  {
    if xs == [] then s
    else Next(ParseRun(s, xs[..|xs| - 1], includePublic, netmask, now), xs[|xs| - 1], includePublic, netmask, now)
  }

  /** A step that does not raise is the step `SeenStep` and `StoresStep` describe. */
  lemma ParseStepOk(s: Sniffed, ip: string, includePublic: bool, netmask: string, now: int)
    requires s.ok && ParseStep(s, ip, includePublic, netmask, now).ok
    ensures var q := SeenStep(s.ips, s.ranges, ip, includePublic, netmask);
      var d := StoresStep(s.ips, s.ranges, s.hostDocs, s.rangeDocs, ip, includePublic, netmask, now);
      ParseStep(s, ip, includePublic, netmask, now) == Sniffed(true, q.0, q.1, d.0, d.1)
  {
  }

  /** A run that does not raise is the run `SeenRun` and `StoresRun` describe. */
  lemma {:induction false} ParseRunOk(s: Sniffed, xs: seq<string>, includePublic: bool, netmask: string, now: int)
    requires s.ok && ParseRun(s, xs, includePublic, netmask, now).ok
    ensures var q := SeenRun(s.ips, s.ranges, xs, includePublic, netmask);
      var d := StoresRun(s.ips, s.ranges, s.hostDocs, s.rangeDocs, xs, includePublic, netmask, now);
      ParseRun(s, xs, includePublic, netmask, now) == Sniffed(true, q.0, q.1, d.0, d.1)
    decreases |xs|
  {
    if xs != [] {
      var init, x := xs[..|xs| - 1], xs[|xs| - 1];
      var p := ParseRun(s, init, includePublic, netmask, now);
      ParseRunOk(s, init, includePublic, netmask, now);
      ParseStepOk(p, x, includePublic, netmask, now);
      RunNext(s.ips, s.ranges, s.hostDocs, s.rangeDocs, init, x, includePublic, netmask, now);
      assert init + [x] == xs;
    }
  }

  /** One more address is one more step of a run that has not raised, and none of one that has. */
  lemma ParseRunNext(s: Sniffed, done: seq<string>, ip: string, includePublic: bool, netmask: string, now: int)
    ensures var p := ParseRun(s, done, includePublic, netmask, now);
      ParseRun(s, done + [ip], includePublic, netmask, now) == Next(p, ip, includePublic, netmask, now)
  {
    assert (done + [ip])[..|done|] == done;
  }

  /** Once a run has raised, later addresses are never parsed. */
  lemma {:induction false} FailedRunStops(s: Sniffed, xs: seq<string>, ys: seq<string>, includePublic: bool, netmask: string, now: int)
    requires !ParseRun(s, xs, includePublic, netmask, now).ok
    ensures ParseRun(s, xs + ys, includePublic, netmask, now) == ParseRun(s, xs, includePublic, netmask, now)
    decreases |ys|
  {
    if ys != [] {
      var init, y := ys[..|ys| - 1], ys[|ys| - 1];
      assert ys == init + [y];
      FailedRunStops(s, xs, init, includePublic, netmask, now);
      assert xs + ys == (xs + init) + [y];
      ParseRunNext(s, xs + init, y, includePublic, netmask, now);
    } else {
      assert xs + ys == xs;
    }
  }

  /**
   * The range string recorded for an address, used as the range of a host search,
   * selects the Host recorded for that address.
   */
  lemma RangeSearchFindsHost(ip: string, netmask: string, rec: Fields)
    requires RangeOf(ip, netmask).Some?
    requires "address" in rec && rec["address"] == One(Text(ip))
    ensures AddressWithin(rec, "address", RangeOf(ip, netmask).value)
  {
    var x := Ipv4.ParseAddress(ip).value;
    var p := Ipv4.NetmaskPrefix(netmask).value;
    Ipv4.NetworkStringParses(x, p);
  }

  /**
   * Merging an address as a Host raises only because of the document stored under that
   * address: when there is none, or it is filed under the address with its tags unset
   * or a list, `new_ip` does not raise, whatever else the store holds.
   */
  lemma HostMergeSucceeds(docs: map<string, Fields>, ip: string, now: int)
    requires ip != ""
    requires ip in docs ==> KeyedAt(Host, ip, docs[ip]) && ListOrUnset(docs[ip], "tags")
    ensures !HostMergeFails(docs, ip, now)
  {
    var cand := HostCandidate(ip);
    assert AllDeclared(Host, cand);
    if ip in docs {
      assert Extendable(Host, docs[ip], cand);
      MergeAtTwin(Host, [], docs, Some(ip), cand, now, ip, ip);
    } else {
      MergeAtNoTwin(Host, [], docs, Some(ip), cand, now, ip, ip);
    }
  }

  /** The same for merging a range string as a Range in `new_range`. */
  lemma RangeMergeSucceeds(docs: map<string, Fields>, rng: string, now: int)
    requires rng != ""
    requires rng in docs ==> KeyedAt(Range, rng, docs[rng]) && ListOrUnset(docs[rng], "tags")
    ensures !RangeMergeFails(docs, rng, now)
  {
    var cand := RangeCandidate(rng);
    assert AllDeclared(Range, cand);
    if rng in docs {
      assert Extendable(Range, docs[rng], cand);
      MergeAtTwin(Range, [], docs, Some(rng), cand, now, rng, rng);
    } else {
      MergeAtNoTwin(Range, [], docs, Some(rng), cand, now, rng, rng);
    }
  }

  /**
   * Only the documents stored under the address and under its range matter: when each of
   * them is missing, or is filed under its own key with its tags unset or a list, the
   * step does not raise, whatever else the stores hold.
   */
  lemma ParseStepSucceeds(s: Sniffed, ip: string, includePublic: bool, netmask: string, now: int)
    requires s.ok
    requires ip in s.hostDocs ==> KeyedAt(Host, ip, s.hostDocs[ip]) && ListOrUnset(s.hostDocs[ip], "tags")
    requires RangeOf(ip, netmask).Some? && RangeOf(ip, netmask).value in s.rangeDocs ==>
      var r := RangeOf(ip, netmask).value;
      KeyedAt(Range, r, s.rangeDocs[r]) && ListOrUnset(s.rangeDocs[r], "tags")
    ensures ParseStep(s, ip, includePublic, netmask, now).ok
  {
    if ip !in s.ips && Recordable(ip, includePublic) {
      assert ip != "";
      HostMergeSucceeds(s.hostDocs, ip, now);
      var rng := RangeOf(ip, netmask);
      if rng.Some? && rng.value !in s.ranges {
        RangeMergeSucceeds(s.rangeDocs, rng.value, now);
      }
    }
  }

  /**
   * A new address whose stored Host holds its tags as a single value stops the sniffer:
   * the address is marked seen, `extend` raises inside `merge`, and neither store nor the
   * range set changes.
   */
  lemma ScalarTagsStop(s: Sniffed, ip: string, includePublic: bool, netmask: string, now: int)
    requires ip !in s.ips && Recordable(ip, includePublic)
    requires ip in s.hostDocs && "tags" in s.hostDocs[ip] && s.hostDocs[ip]["tags"].One?
    ensures ParseStep(s, ip, includePublic, netmask, now) == s.(ok := false, ips := s.ips + {ip})
  {
    assert ip != "";
    ScalarTagsFail(s.hostDocs, ip, now);
  }

  /** Merging an address whose stored Host holds its tags as one value raises and changes nothing. */
  lemma ScalarTagsFail(docs: map<string, Fields>, ip: string, now: int)
    requires ip != "" && ip in docs && "tags" in docs[ip] && docs[ip]["tags"].One?
    ensures HostMergeFails(docs, ip, now) && HostMerged(docs, ip, now) == docs
  {
    var cand := HostCandidate(ip);
    assert KeyText(cand, "address") == Some(ip);
    assert Twin(Host, [], docs, cand) == Some(ip);
    ScalarFieldChangesNothing(Host, [], docs, Some(ip), cand, now, ip, "tags");
  }

  class Sniffer {
    var ipList: set<string>
    var ipRanges: set<string>
    const netmask: string
    const includePublic: bool
    const hosts: Index
    const ranges: Index

    /** The two indices are distinct and consistent. */
    ghost predicate Valid()
      reads this, hosts, ranges
    {
      hosts != ranges && hosts.Valid() && ranges.Valid()
    }

    /** The state `parse_ip` works on, for a sniffer still running. */
    ghost function State(): Sniffed
      reads this, hosts, ranges
    {
      Sniffed(true, ipList, ipRanges, hosts.docs, ranges.docs)
    }

    /** A sniffer with nothing seen yet, except its own address when one is given. */
    constructor (netmask: string, includePublic: bool, ownIp: Option<string>, hosts: Index, ranges: Index)
      requires hosts != ranges && hosts.Valid() && ranges.Valid()
      ensures Valid()
      ensures this.netmask == netmask && this.includePublic == includePublic
      ensures this.hosts == hosts && this.ranges == ranges
      ensures ipList == (if ownIp.Some? && ownIp.value != "" then {ownIp.value} else {})
      ensures ipRanges == {}
    {
      this.netmask := netmask;
      this.includePublic := includePublic;
      this.hosts := hosts;
      this.ranges := ranges;
      ipRanges := {};
      if ownIp.Some? && ownIp.value != "" {
        ipList := {ownIp.value};
      } else {
        ipList := {};
      }
    }

    /**
     * `new_ip`: the first time an address is seen, it is added to the address list and
     * merged as a Host tagged 'sniffer'; `ok` is false when that merge raises. The order
     * gains the address exactly when a new Host document is saved.
     */
    method NewIp(ip: string, now: int) returns (ok: bool)
      requires Valid()
      modifies this, hosts
      ensures Valid()
      ensures ipList == old(ipList) + {ip} && ipRanges == old(ipRanges)
      ensures ok == (ip in old(ipList) || !HostMergeFails(old(hosts.docs), ip, now))
      ensures ip in old(ipList) ==> hosts.docs == old(hosts.docs)
      ensures ip !in old(ipList) ==> hosts.docs == HostMerged(old(hosts.docs), ip, now)
      ensures hosts.order == if ip !in old(ipList) && ip !in old(hosts.docs) then old(hosts.order) + [ip] else old(hosts.order)
      ensures ranges.docs == old(ranges.docs) && ranges.order == old(ranges.order)
    {
      assert hosts != ranges;
      ok := true;
      if ip !in ipList {
        ipList := ipList + {ip};
        ok := MergeTagged(hosts, Host, ip, now);
      }
    }

    /**
     * `new_range`: the first time a range string is seen, it is added to the range set
     * and merged as a Range tagged 'sniffer'; `ok` is false when that merge raises. The
     * order gains the range exactly when a new Range document is saved.
     */
    method NewRange(r: string, now: int) returns (ok: bool)
      requires Valid()
      modifies this, ranges
      ensures Valid()
      ensures ipRanges == old(ipRanges) + {r} && ipList == old(ipList)
      ensures ok == (r in old(ipRanges) || !RangeMergeFails(old(ranges.docs), r, now))
      ensures r in old(ipRanges) ==> ranges.docs == old(ranges.docs)
      ensures r !in old(ipRanges) ==> ranges.docs == RangeMerged(old(ranges.docs), r, now)
      ensures ranges.order == if r !in old(ipRanges) && r !in old(ranges.docs) then old(ranges.order) + [r] else old(ranges.order)
      ensures hosts.docs == old(hosts.docs) && hosts.order == old(hosts.order)
    {
      assert hosts != ranges;
      ok := true;
      if r !in ipRanges {
        ipRanges := ipRanges + {r};
        ok := MergeTagged(ranges, Range, r, now);
      }
    }

    /**
     * `parse_ip`: an address not seen before that the sniffer keeps is recorded, and so
     * is its network when the netmask parses, unless recording the address raised. An
     * address seen before, one that does not parse and one the sniffer does not keep
     * change nothing. `ok` is false when a merge raised.
     */
    method ParseIp(ip: string, now: int) returns (ok: bool)
      requires Valid()
      modifies this, hosts, ranges
      ensures Valid()
      ensures Sniffed(ok, ipList, ipRanges, hosts.docs, ranges.docs) ==
        ParseStep(old(State()), ip, includePublic, netmask, now)
    {
      ok := true;
      if ip !in ipList {
        var parsed := Ipv4.ParseAddress(ip);
        if parsed.Some? {
          var x := parsed.value;
          if Keeps(x, includePublic) {
            assert Recordable(ip, includePublic);
            ok := NewIp(ip, now);
            if !ok {
              return;
            }
            var prefix := Ipv4.NetmaskPrefix(netmask);
            if prefix.Some? {
              assert RangeOf(ip, netmask) == Some(Ipv4.NetworkString(x, prefix.value));
              ok := NewRange(Ipv4.NetworkString(x, prefix.value), now);
            } else {
              assert RangeOf(ip, netmask) == None;
            }
          } else {
            assert !Recordable(ip, includePublic);
          }
        } else {
          assert !Recordable(ip, includePublic);
        }
      }
    }

    /**
     * `callback`: the ARP source, then the IP source and destination, each parsed in
     * turn, until one of them raises; a run that does not raise adds the kept addresses
     * and their new ranges and merges them.
     */
    method Callback(pkt: Packet, now: int) returns (ok: bool)
      requires Valid()
      modifies this, hosts, ranges
      ensures Valid()
      ensures Sniffed(ok, ipList, ipRanges, hosts.docs, ranges.docs) ==
        CallbackStep(old(State()), pkt, includePublic, netmask, now) ==
        ParseRun(old(State()), Candidates(pkt), includePublic, netmask, now)
      ensures ok ==> ipList == old(ipList) + Kept(Candidates(pkt), includePublic)
      ensures ok ==> ipRanges == old(ipRanges) + NewRanges(Candidates(pkt), old(ipList), includePublic, netmask)
      ensures ok ==> ((hosts.docs, ranges.docs) ==
        StoresRun(old(ipList), old(ipRanges), old(hosts.docs), old(ranges.docs), Candidates(pkt), includePublic, netmask, now))
    {
      ghost var s0 := State();
      ok := true;
      if pkt.isArp {
        ok := ParseIp(pkt.arpSource, now);
      }
      if ok && pkt.isTcpOrUdp {
        ok := ParseIp(pkt.ipSource, now);
        if ok {
          ok := ParseIp(pkt.ipDestination, now);
        }
      }
      CallbackIsRun(s0, pkt, includePublic, netmask, now);
      if ok {
        ParseRunSets(s0, Candidates(pkt), includePublic, netmask, now);
      }
    }
  }

  /** `callback` on a state: the ARP source, then the IP source and destination, until one raises. */
  function CallbackStep(s: Sniffed, pkt: Packet, includePublic: bool, netmask: string, now: int): Sniffed
  {
    var a := if pkt.isArp then Next(s, pkt.arpSource, includePublic, netmask, now) else s;
    if pkt.isTcpOrUdp then Next(Next(a, pkt.ipSource, includePublic, netmask, now), pkt.ipDestination, includePublic, netmask, now)
    else a
  }

  /** A callback on a running sniffer is the run over the packet's candidate addresses. */
  lemma CallbackIsRun(s: Sniffed, pkt: Packet, includePublic: bool, netmask: string, now: int)
    ensures CallbackStep(s, pkt, includePublic, netmask, now) == ParseRun(s, Candidates(pkt), includePublic, netmask, now)
  {
    if pkt.isArp && pkt.isTcpOrUdp {
      ArpAndIpIsRun(s, pkt, includePublic, netmask, now);
    } else if pkt.isArp {
      ParseRunNext(s, [], pkt.arpSource, includePublic, netmask, now);
      assert Candidates(pkt) == [] + [pkt.arpSource];
    } else if pkt.isTcpOrUdp {
      IpOnlyIsRun(s, pkt, includePublic, netmask, now);
    }
  }

  /** The callback on a packet with an ARP and an IP layer: three steps. */
  lemma ArpAndIpIsRun(s: Sniffed, pkt: Packet, includePublic: bool, netmask: string, now: int)
    requires pkt.isArp && pkt.isTcpOrUdp
    ensures CallbackStep(s, pkt, includePublic, netmask, now) == ParseRun(s, Candidates(pkt), includePublic, netmask, now)
  {
    var arp, src, dst := pkt.arpSource, pkt.ipSource, pkt.ipDestination;
    ParseRunNext(s, [], arp, includePublic, netmask, now);
    ParseRunNext(s, [arp], src, includePublic, netmask, now);
    ParseRunNext(s, [arp, src], dst, includePublic, netmask, now);
    assert Candidates(pkt) == [arp, src] + [dst];
  }

  /** The callback on a packet with only an IP layer: two steps. */
  lemma IpOnlyIsRun(s: Sniffed, pkt: Packet, includePublic: bool, netmask: string, now: int)
    requires !pkt.isArp && pkt.isTcpOrUdp
    ensures CallbackStep(s, pkt, includePublic, netmask, now) == ParseRun(s, Candidates(pkt), includePublic, netmask, now)
  {
    var src, dst := pkt.ipSource, pkt.ipDestination;
    ParseRunNext(s, [], src, includePublic, netmask, now);
    ParseRunNext(s, [src], dst, includePublic, netmask, now);
    assert Candidates(pkt) == [src] + [dst];
  }

  /**
   * A run that does not raise adds the kept addresses and the ranges of those not seen
   * before, and leaves the stores as `StoresRun` describes.
   */
  lemma ParseRunSets(s: Sniffed, xs: seq<string>, includePublic: bool, netmask: string, now: int)
    requires s.ok && ParseRun(s, xs, includePublic, netmask, now).ok
    ensures var r := ParseRun(s, xs, includePublic, netmask, now);
      r.ips == s.ips + Kept(xs, includePublic) &&
      r.ranges == s.ranges + NewRanges(xs, s.ips, includePublic, netmask) &&
      (r.hostDocs, r.rangeDocs) == StoresRun(s.ips, s.ranges, s.hostDocs, s.rangeDocs, xs, includePublic, netmask, now)
  {
    ParseRunOk(s, xs, includePublic, netmask, now);
    SeenRunSets(s.ips, s.ranges, xs, includePublic, netmask);
  }

  /** The runs on `done + [ip]` are the runs on `done` followed by one more step. */
  lemma RunNext(ips: set<string>, ranges: set<string>, hostDocs: map<string, Fields>, rangeDocs: map<string, Fields>,
                done: seq<string>, ip: string, includePublic: bool, netmask: string, now: int)
    ensures var p := SeenRun(ips, ranges, done, includePublic, netmask);
      SeenRun(ips, ranges, done + [ip], includePublic, netmask) == SeenStep(p.0, p.1, ip, includePublic, netmask) &&
      var d := StoresRun(ips, ranges, hostDocs, rangeDocs, done, includePublic, netmask, now);
      StoresRun(ips, ranges, hostDocs, rangeDocs, done + [ip], includePublic, netmask, now) ==
        StoresStep(p.0, p.1, d.0, d.1, ip, includePublic, netmask, now)
  {
    assert (done + [ip])[..|done|] == done;
  }

  /**
   * Processing one more address adds its range exactly when it was not yet in the address
   * list: one seen among the earlier addresses already added the same range.
   */
  lemma NewRangesSnoc(xs: seq<string>, x: string, seen0: set<string>, seen: set<string>, includePublic: bool, netmask: string)
    requires seen == seen0 + Kept(xs, includePublic)
    ensures NewRanges(xs + [x], seen0, includePublic, netmask) ==
      NewRanges(xs, seen0, includePublic, netmask) +
      (if x !in seen && Recordable(x, includePublic) && RangeOf(x, netmask).Some? then {RangeOf(x, netmask).value} else {})
  {
    var keep := y => Recordable(y, includePublic);
    var range := y => RangeOf(y, netmask);
    assert x in seen <==> x in seen0 || (x in xs && Recordable(x, includePublic));
    ImageSnoc(xs, x, seen0, seen, keep, range);
    NewRangesImage(xs, seen0, includePublic, netmask);
    NewRangesImage(xs + [x], seen0, includePublic, netmask);
  }

  /** `NewRanges` is the image of the kept addresses under `RangeOf`. */
  lemma NewRangesImage(xs: seq<string>, seen: set<string>, includePublic: bool, netmask: string)
    ensures NewRanges(xs, seen, includePublic, netmask) ==
      Image(xs, seen, y => Recordable(y, includePublic), y => RangeOf(y, netmask))
  {
  }

  /** A one-field keyword set whose name does not start with `_` passes the constructor's filter whole. */
  lemma PublicKeys(kwargs: Fields, key: string)
    requires kwargs.Keys == {key} && key != [] && key[0] != '_'
    ensures DropPrivate(kwargs) == kwargs
  {
    assert key[..1] != "_" by { assert key[..1][0] == key[0]; }
    assert DropPrivate(kwargs).Keys == kwargs.Keys;
  }

  /**
   * What `parse_ip` does to the two sets after the addresses `done`, stated for the
   * addresses `done + [ip]` from the state before `done`.
   */
  lemma Step(done: seq<string>, ip: string, list0: set<string>, ranges0: set<string>,
             list1: set<string>, ranges1: set<string>, list2: set<string>, ranges2: set<string>,
             includePublic: bool, netmask: string)
    requires list1 == list0 + Kept(done, includePublic)
    requires ranges1 == ranges0 + NewRanges(done, list0, includePublic, netmask)
    requires list2 == list1 + (if Recordable(ip, includePublic) then {ip} else {})
    requires ranges2 == ranges1 +
      (if ip !in list1 && Recordable(ip, includePublic) && RangeOf(ip, netmask).Some? then {RangeOf(ip, netmask).value} else {})
    ensures list2 == list0 + Kept(done + [ip], includePublic)
    ensures ranges2 == ranges0 + NewRanges(done + [ip], list0, includePublic, netmask)
  {
    NewRangesSnoc(done, ip, list0, list1, includePublic, netmask);
    KeptSnoc(done, ip, includePublic);
  }

  /** No addresses add nothing. */
  lemma NothingDone(list0: set<string>, ranges0: set<string>, includePublic: bool, netmask: string)
    ensures list0 == list0 + Kept([], includePublic)
    ensures ranges0 == ranges0 + NewRanges([], list0, includePublic, netmask)
  {
    assert Kept([], includePublic) == {};
    assert NewRanges([], list0, includePublic, netmask) == {};
  }

  lemma KeptSnoc(xs: seq<string>, x: string, includePublic: bool)
    ensures Kept(xs + [x], includePublic) == Kept(xs, includePublic) + (if Recordable(x, includePublic) then {x} else {})
  {
  }

  /** The default netmask names prefix length 24. */
  lemma DefaultNetmask()
    ensures Ipv4.NetmaskPrefix("255.255.255.0") == Some(24)
  {
    Ipv4.DottedNetmask(24);
    Mask24();
    FormatMask24();
  }

  lemma Mask24()
    ensures Ipv4.MaskAddr(24) == Ipv4.Addr(255, 255, 255, 0)
  {
    assert Ipv4.OctetBits(24, 0) == 8 && Ipv4.OctetBits(24, 1) == 8;
    assert Ipv4.OctetBits(24, 2) == 8 && Ipv4.OctetBits(24, 3) == 0;
    assert Ipv4.Block(8) == 1 && Ipv4.Block(0) == 256;
    assert Ipv4.KeepBits(255, 0) == 0;
    assert Ipv4.KeepBits(255, 8) == 255;
  }

  lemma FormatMask24()
    ensures Ipv4.Format(Ipv4.Addr(255, 255, 255, 0)) == "255.255.255.0"
  {
    assert NatToString(2) == "2";
    assert NatToString(25) == "25";
    assert NatToString(255) == "255";
    assert NatToString(0) == "0";
  }
}
