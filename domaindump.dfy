/**
 * jackal/scripts/domaindump.py: reading the entries of ldapdomaindump's JSON files
 * (computers, users, groups) and folding them into stored Host and User records.
 */
module DomainDump {
  import opened Wrappers
  import opened Text
  import opened Values
  import opened Store
  import opened Documents
  import opened Core
  import Ipv4

  /** One LDAP entry of a domaindump file: every attribute holds a list of values. */
  datatype Entry = Entry(attributes: map<string, seq<Atom>>)

  // ---------------------------------------------------------------- attribute access

  /**
   * `get_field`: the first value of the attribute, and "" when the entry lacks it. An
   * attribute holding an empty list raises IndexError, which nothing catches.
   */
  function GetField(e: Entry, field: string): (r: Result<Atom, string>)
    ensures field !in e.attributes ==> r == Ok(Text(""))
    ensures field in e.attributes ==> (r.Ok? <==> e.attributes[field] != [])
    ensures field in e.attributes && r.Ok? ==> r.value == e.attributes[field][0]
  {
    if field !in e.attributes then Ok(Text(""))
    else if e.attributes[field] == [] then Err("IndexError: list index out of range")
    else Ok(e.attributes[field][0])
  }

  /** `get_field` on a value the caller then splits: a value that is not a string raises AttributeError. */
  function GetText(e: Entry, field: string): (r: Result<string, string>)
    ensures r.Ok? <==> GetField(e, field).Ok? && GetField(e, field).value.Text?
    ensures r.Ok? ==> GetField(e, field) == Ok(Text(r.value))
  {
    var a :- GetField(e, field);
    if a.Text? then Ok(a.s) else Err("AttributeError: value has no split")
  }

  /** The integer a Python `int` or `bool` value stands for (`True == 1`); None for anything else. */
  function IntValue(a: Atom): Option<int>
  {
    match a
    case Int(n) => Some(n)
    case Bool(b) => Some(if b then 1 else 0)
    case _ => None
  }

  /**
   * The digits of an `int()` literal: groups of ASCII decimal digits joined by single
   * underscores, read as one number.
   */
  function Underscored(s: string): Option<nat>
  {
    var groups := Split(s, "_");
    if forall g | g in groups :: g != [] && AllDigits(g) then
      JoinDigits(groups);
      Some(DigitsValue(Join(groups, "")))
    else None
  }

  /** Digit groups joined with nothing between them are digits. */
  lemma {:induction false} JoinDigits(groups: seq<string>)
    requires forall g | g in groups :: AllDigits(g)
    ensures AllDigits(Join(groups, ""))
  {
    if |groups| > 1 {
      assert groups[0] in groups;
      JoinDigits(groups[1..]);
      var rest := Join(groups[1..], "");
      assert Join(groups, "") == groups[0] + "" + rest;
      forall k | 0 <= k < |groups[0] + "" + rest| ensures IsDigit((groups[0] + "" + rest)[k]) {
        if k < |groups[0]| {
          assert (groups[0] + "" + rest)[k] == groups[0][k];
        } else {
          assert (groups[0] + "" + rest)[k] == rest[k - |groups[0]|];
        }
      }
    } else if |groups| == 1 {
      assert groups[0] in groups;
    }
  }

  /** Python's `int(s)` on a string: whitespace stripped from both ends, an optional sign, then the digits. */
  function IntText(s: string): Option<int>
  {
    var t := Strip(s);
    if t != [] && (t[0] == '+' || t[0] == '-') then
      match Underscored(t[1..])
      case None => None
      case Some(n) => Some(if t[0] == '-' then -(n as int) else n as int)
    else
      match Underscored(t)
      case None => None
      case Some(n) => Some(n)
  }

  /** A plain digit string reads as its decimal value, as `ParseNat` reads it. */
  lemma IntTextDigits(s: string)
    requires s != [] && AllDigits(s)
    ensures IntText(s) == Some(ParseNat(s).value)
  {
    StripUnchanged(s);
    DigitsSplit(s);
  }

  /** A digit string holds no underscore, so it is a single group. */
  lemma DigitsSplit(d: string)
    requires AllDigits(d)
    ensures Split(d, "_") == [d]
  {
    forall i | 0 <= i < |d| ensures !OccursAt(d, "_", i) {
      assert d[i..i + 1][0] == d[i] && IsDigit(d[i]);
    }
    SplitNoOccurrence(d, "_");
  }

  /** A sign in front of the digits gives the number or its negation. */
  lemma IntTextSigned(d: string)
    requires d != [] && AllDigits(d)
    ensures IntText("-" + d) == Some(-(ParseNat(d).value as int))
    ensures IntText("+" + d) == Some(ParseNat(d).value)
  {
    DigitsSplit(d);
    StripUnchanged("-" + d);
    StripUnchanged("+" + d);
    assert ("-" + d)[1..] == d;
    assert ("+" + d)[1..] == d;
  }

  /** Whitespace around the literal does not matter. */
  lemma IntTextStripped(s: string)
    ensures IntText(Strip(s)) == IntText(s)
  {
    StripEnds(s);
    StripUnchanged(Strip(s));
    assert Strip(Strip(s)) == Strip(s);
  }

  /** A blank string is refused. */
  lemma IntTextBlank(s: string)
    requires Strip(s) == []
    ensures IntText(s).None?
  {
    assert Split("", "_") == [""];
    assert "" in Split("", "_");
    assert Underscored("").None?;
  }

  /** Python's `int(v)`: numbers as they are, strings as `IntText` reads them; anything else an error. */
  function IntOf(a: Atom): (r: Result<int, string>)
    ensures a.Text? ==> (r.Ok? <==> IntText(a.s).Some?) && (r.Ok? ==> r.value == IntText(a.s).value)
    ensures !a.Text? ==> (r.Ok? <==> IntValue(a).Some?) && (r.Ok? ==> r.value == IntValue(a).value)
  {
    match a
    case Text(s) => (match IntText(s) case Some(n) => Ok(n) case None => Err("ValueError: invalid literal for int()"))
    case _ => (match IntValue(a) case Some(n) => Ok(n) case None => Err("TypeError: int() argument"))
  }

  // ---------------------------------------------------------------- computers

  /** The ldap computer object: its DNS name, description, operating system, address and primary group. */
  datatype Computer = Computer(dnsHostname: Atom, description: Atom, os: Atom, ip: string, groupId: Atom) {
    /** `dc`: the primary group id equals 516 or 512 (a Python comparison, so a string never does). */
    predicate Dc() {
      groupId == Int(516) || groupId == Int(512)
    }
  }

  /** The IPv4 address that a 32-bit integer denotes (`ipaddress.ip_address(n)`). */
  function FromInt(n: int): (x: Ipv4.Addr)
    requires 0 <= n < 0x1_0000_0000
    ensures ((x.a * 256 + x.b) * 256 + x.c) * 256 + x.d == n
  {
    var low := n / 256;
    var mid := low / 256;
    Ipv4.Addr(mid / 256, mid % 256, low % 256, n % 256)
  }

  /**
   * `str(ipaddress.ip_address(v))`, with a ValueError read as "": an IPv4 text is kept
   * exactly when it is canonical, an integer below 2^32 gives its dotted form, and the
   * result is always "" or a canonical IPv4 text.
   */
  function IpText(a: Atom): (r: string)
    ensures r != "" ==> Ipv4.ParseAddress(r).Some?
    ensures a.Text? ==> r == (if Ipv4.ParseAddress(a.s).Some? then a.s else "")
  {
    match a
    case Text(s) =>
      (match Ipv4.ParseAddress(s)
       case Some(x) => Ipv4.FormatParse(s); s
       case None => "")
    case Stamp(_) => ""
    case _ =>
      var n := IntValue(a).value;
      if 0 <= n < 0x1_0000_0000 then Ipv4.ParseFormat(FromInt(n)); Ipv4.Format(FromInt(n)) else ""
  }

  /** Every attribute `parse_single_computer` reads is absent or non-empty. */
  predicate ComputerReadable(e: Entry) {
    GetField(e, "dNSHostName").Ok? && GetField(e, "description").Ok? && GetField(e, "operatingSystem").Ok? &&
    GetField(e, "primaryGroupID").Ok? && GetField(e, "IPv4").Ok?
  }

  /**
   * `resolve_ip` against a table of DNS answers (DNS itself is not part of the model): a
   * name the table lacks stands for NXDOMAIN or a timeout, both of which give "".
   */
  function Resolve(dns: map<Atom, string>, name: Atom): string
  {
    if name in dns then dns[name] else ""
  }

  /**
   * `parse_single_computer`: the address is the entry's own IPv4 when it has a valid
   * one, otherwise the resolution of the DNS name when there is one, otherwise "".
   */
  function ParseSingleComputer(e: Entry, dns: map<Atom, string>): (r: Result<Computer, string>)
    ensures r.Ok? <==> ComputerReadable(e)
    ensures r.Ok? ==>
      (r.value.dnsHostname == GetField(e, "dNSHostName").value && r.value.description == GetField(e, "description").value &&
       r.value.os == GetField(e, "operatingSystem").value && r.value.groupId == GetField(e, "primaryGroupID").value)
    ensures r.Ok? && IpText(GetField(e, "IPv4").value) != "" ==> r.value.ip == IpText(GetField(e, "IPv4").value)
    ensures r.Ok? && IpText(GetField(e, "IPv4").value) == "" ==>
      r.value.ip == (if Truthy(r.value.dnsHostname) then Resolve(dns, r.value.dnsHostname) else "")
  {
    var dnsName :- GetField(e, "dNSHostName");
    var description :- GetField(e, "description");
    var os :- GetField(e, "operatingSystem");
    var group :- GetField(e, "primaryGroupID");
    var v4 :- GetField(e, "IPv4");
    var ip := IpText(v4);
    Ok(Computer(dnsName, description, os, if ip != "" then ip else if Truthy(dnsName) then Resolve(dns, dnsName) else "", group))
  }

  /** A computer whose entry holds a valid IPv4 text is recorded at exactly that address, whatever DNS answers. */
  lemma EntryAddressWins(e: Entry, dns: map<Atom, string>, s: string)
    requires ParseSingleComputer(e, dns).Ok?
    requires GetField(e, "IPv4") == Ok(Text(s)) && Ipv4.ParseAddress(s).Some?
    ensures ParseSingleComputer(e, dns).value.ip == s
  {
  }

  /** Only the numbers 516 and 512 mark a domain controller; the same digits as text do not. */
  lemma DcGroups(c: Computer)
    ensures c.Dc() <==> IntValue(c.groupId).Some? && c.groupId.Int? && (c.groupId.n == 516 || c.groupId.n == 512)
    ensures c.groupId == Text("516") ==> !c.Dc()
  {
  }

  // ---------------------------------------------------------------- users

  /** The domain of a distinguished name: the pieces after the first `,DC=`, joined with dots. */
  function DomainOf(dn: string): string
  {
    Join(Split(dn, ",DC=")[1..], ".")
  }

  /**
   * A distinguished name made of relative names and then `DC=` labels gives the labels
   * joined with dots, provided `,DC=` first occurs where the labels start and no label
   * holds a comma.
   */
  lemma DomainOfDn(rdns: string, labels: seq<string>)
    requires labels != []
    requires forall k :: 0 <= k < |labels| ==> ',' !in labels[k]
    requires forall i :: 0 <= i < |rdns| ==> !OccursAt(rdns + ",DC=", ",DC=", i)
    ensures DomainOf(rdns + ",DC=" + Join(labels, ",DC=")) == Join(labels, ".")
  {
    var y := Join(labels, ",DC=");
    NoEarlyDc(rdns, y);
    SplitLead(rdns, ",DC=", y);
    SplitJoin(labels, ",DC=");
  }

  /** Occurrences of `,DC=` that start inside `rdns` do not see what follows the first `,DC=`. */
  lemma NoEarlyDc(rdns: string, y: string)
    requires forall i :: 0 <= i < |rdns| ==> !OccursAt(rdns + ",DC=", ",DC=", i)
    ensures forall i :: 0 <= i < |rdns| ==> !OccursAt(rdns + ",DC=" + y, ",DC=", i)
  {
    forall i | 0 <= i < |rdns| ensures !OccursAt(rdns + ",DC=" + y, ",DC=", i) {
      assert !OccursAt(rdns + ",DC=", ",DC=", i);
      assert (rdns + ",DC=" + y)[i..i + 4] == (rdns + ",DC=")[i..i + 4];
    }
  }

  /** A name without `,DC=` has an empty domain. */
  lemma DomainWithoutDc(dn: string)
    requires forall i :: 0 <= i < |dn| ==> !OccursAt(dn, ",DC=", i)
    ensures DomainOf(dn) == ""
  {
    SplitNoOccurrence(dn, ",DC=");
  }

  /** `sid.split('-')[-1]`: the relative id, the last dash-separated piece. */
  function SidOf(sid: string): string
  {
    var parts := Split(sid, "-");
    parts[|parts| - 1]
  }

  /** The relative id of `<domain sid>-<rid>` is `rid`. */
  lemma SidOfRid(domainSid: string, rid: string)
    requires '-' !in rid
    ensures SidOf(domainSid + "-" + rid) == rid
  {
    assert domainSid + "-" + rid == domainSid + ['-'] + rid;
    SplitLastPiece(domainSid, '-', rid);
  }

  /** The group names of the `CN=` pieces of one membership, in order. */
  function CnAtoms(pieces: seq<string>): (r: seq<Atom>)
    ensures forall g :: g in r <==> exists k :: 0 <= k < |pieces| && StartsWith(pieces[k], "CN=") && g == Text(pieces[k][3..])
  {
    if pieces == [] then []
    else
      var last := pieces[|pieces| - 1];
      var init := CnAtoms(pieces[..|pieces| - 1]);
      assert forall k :: 0 <= k < |pieces| - 1 ==> pieces[..|pieces| - 1][k] == pieces[k];
      init + (if StartsWith(last, "CN=") then [Text(last[3..])] else [])
  }

  /**
   * The groups named by the `memberOf` values, in order: the `CN=` pieces of each
   * comma-separated value. A value that is not a string raises AttributeError.
   */
  function CnGroups(memberOf: seq<Atom>): (r: Result<seq<Atom>, string>)
    ensures r.Ok? <==> forall i :: 0 <= i < |memberOf| ==> memberOf[i].Text?
  {
    if memberOf == [] then Ok([])
    else
      var init := CnGroups(memberOf[..|memberOf| - 1]);
      var last := memberOf[|memberOf| - 1];
      assert forall i :: 0 <= i < |memberOf| - 1 ==> memberOf[..|memberOf| - 1][i] == memberOf[i];
      if init.Err? then init
      else if !last.Text? then Err("AttributeError: value has no split")
      else Ok(init.value + CnAtoms(Split(last.s, ",")))
  }

  /** `domain_groups.get(primary_group, '')`: table keys are integers, so only a number finds its group. */
  function PrimaryGroupName(groups: map<int, Atom>, primary: Atom): (r: Atom)
    ensures IntValue(primary).Some? && IntValue(primary).value in groups ==> r == groups[IntValue(primary).value]
    ensures IntValue(primary).None? || IntValue(primary).value !in groups ==> r == Text("")
  {
    match IntValue(primary)
    case Some(n) => if n in groups then groups[n] else Text("")
    case None => Text("")
  }

  /** The userAccountControl flags, in the order the source lists them, with their bit masks. */
  const UacFlags: seq<(string, nat)> := [
    ("ACCOUNT_DISABLED", 0x00000002),
    ("HOMEDIR_REQUIRED", 0x00000008),
    ("LOCKOUT", 0x00000010),
    ("PASSWD_NOTREQD", 0x00000020),
    ("PASSWD_CANT_CHANGE", 0x00000040),
    ("ENCRYPTED_TEXT_PASSWORD_ALLOWED", 0x00000080),
    ("NORMAL_ACCOUNT", 0x00000200),
    ("INTERDOMAIN_TRUST_ACCOUNT", 0x00000800),
    ("WORKSTATION_ACCOUNT", 0x00001000),
    ("SERVER_TRUST_ACCOUNT", 0x00002000),
    ("DONT_EXPIRE_PASSWD", 0x00010000),
    ("SMARTCARD_REQUIRED", 0x00040000),
    ("TRUSTED_FOR_DELEGATION", 0x00080000),
    ("NOT_DELEGATED", 0x00100000),
    ("USE_DES_KEY_ONLY", 0x00200000),
    ("DONT_REQUIRE_PREAUTH", 0x00400000),
    ("PASSWORD_EXPIRED", 0x00800000),
    ("TRUSTED_TO_AUTHENTICATE_FOR_DELEGATION", 0x01000000),
    ("NO_AUTH_DATA_REQUIRED", 0x02000000),
    ("PARTIAL_SECRETS_ACCOUNT", 0x04000000)
  ]

  /**
   * `uac & mask != 0` for a one-bit mask: the bit at the mask's position is set. Python
   * integers are two's complement of unbounded width, and floor division (Dafny's on a
   * positive divisor) reads that bit for negative values too.
   */
  predicate HasBit(uac: int, mask: nat) {
    mask > 0 && (uac / mask) % 2 == 1
  }

  /** The names of the first `n` table flags whose bit is set in `uac`, in table order. */
  function FlagsOf(uac: int, n: nat): (r: seq<string>)
    requires n <= |UacFlags|
    ensures forall name :: name in r <==> exists i :: 0 <= i < n && UacFlags[i].0 == name && HasBit(uac, UacFlags[i].1)
  {
    if n == 0 then []
    else FlagsOf(uac, n - 1) + (if HasBit(uac, UacFlags[n - 1].1) then [UacFlags[n - 1].0] else [])
  }

  /** What `parse_user` extracts from a user entry. */
  datatype UserInfo = UserInfo(domain: string, name: Atom, username: Atom, description: Atom, sid: string,
                               groups: seq<Atom>, flags: seq<string>)

  /** The `memberOf` values of an entry, none when it has no such attribute. */
  function MemberOf(e: Entry): seq<Atom>
  {
    if "memberOf" in e.attributes then e.attributes["memberOf"] else []
  }

  /**
   * `parse_user`, as a value: domain, name, username, description, relative id, the
   * `CN=` groups followed by the primary group's name ('' when unknown), and the set
   * userAccountControl flags. A missing userAccountControl is `int('')`, a ValueError.
   */
  function UserOf(e: Entry, groups: map<int, Atom>): (r: Result<UserInfo, string>)
    ensures r.Ok? ==>
      (GetField(e, "primaryGroupID").Ok? && CnGroups(MemberOf(e)).Ok? &&
       r.value.groups == CnGroups(MemberOf(e)).value + [PrimaryGroupName(groups, GetField(e, "primaryGroupID").value)])
    ensures r.Ok? ==>
      (GetField(e, "userAccountControl").Ok? && IntOf(GetField(e, "userAccountControl").value).Ok? &&
       r.value.flags == FlagsOf(IntOf(GetField(e, "userAccountControl").value).value, |UacFlags|))
    ensures r.Ok? ==>
      (GetText(e, "distinguishedName").Ok? && GetText(e, "objectSid").Ok? &&
       r.value.domain == DomainOf(GetText(e, "distinguishedName").value) && r.value.sid == SidOf(GetText(e, "objectSid").value))
    ensures GetField(e, "userAccountControl") == Ok(Text("")) ==> r.Err?
  {
    IntTextBlank("");
    var dn :- GetText(e, "distinguishedName");
    var name :- GetField(e, "name");
    var username :- GetField(e, "sAMAccountName");
    var description :- GetField(e, "description");
    var sid :- GetText(e, "objectSid");
    var primary :- GetField(e, "primaryGroupID");
    var cns :- CnGroups(MemberOf(e));
    var uacValue :- GetField(e, "userAccountControl");
    var uac :- IntOf(uacValue);
    var groupList := cns + [PrimaryGroupName(groups, primary)];
    assert groupList[..|groupList| - 1] == cns;
    Ok(UserInfo(DomainOf(dn), name, username, description, SidOf(sid), groupList, FlagsOf(uac, |UacFlags|)))
  }

  /** The groups of a user entry, built as `parse_user` does: piece by piece, then the primary group. */
  method ParseGroups(memberOf: seq<Atom>, primaryName: Atom) returns (r: Result<seq<Atom>, string>)
    ensures r.Ok? <==> CnGroups(memberOf).Ok?
    ensures r.Ok? ==> r.value == CnGroups(memberOf).value + [primaryName]
  {
    var groups: seq<Atom> := [];
    var i := 0;
    while i < |memberOf|
      invariant 0 <= i <= |memberOf|
      invariant CnGroups(memberOf[..i]).Ok? && groups == CnGroups(memberOf[..i]).value
    {
      var member := memberOf[i];
      assert memberOf[..i + 1][..i] == memberOf[..i];
      if !member.Text? {
        assert CnGroups(memberOf[..i + 1]).Err?;
        CnGroupsPrefix(memberOf, i + 1);
        return Err("AttributeError: value has no split");
      }
      var pieces := Split(member.s, ",");
      var j := 0;
      while j < |pieces|
        invariant 0 <= j <= |pieces|
        invariant groups == CnGroups(memberOf[..i]).value + CnAtoms(pieces[..j])
      {
        assert pieces[..j + 1][..j] == pieces[..j];
        if StartsWith(pieces[j], "CN=") {
          groups := groups + [Text(pieces[j][3..])];
        }
        j := j + 1;
      }
      assert pieces[..j] == pieces;
      i := i + 1;
    }
    assert memberOf[..i] == memberOf;
    groups := groups + [primaryName];
    r := Ok(groups);
  }

  /** A membership list whose prefix fails fails as a whole. */
  lemma {:induction false} CnGroupsPrefix(memberOf: seq<Atom>, n: nat)
    requires n <= |memberOf| && CnGroups(memberOf[..n]).Err?
    ensures CnGroups(memberOf).Err?
  {
    var k :| 0 <= k < n && !memberOf[..n][k].Text?;
    assert !memberOf[k].Text?;
  }

  /** The flags of a userAccountControl value, looked up in table order as `parse_user` does. */
  method ParseFlags(uac: int) returns (flags: seq<string>)
    ensures flags == FlagsOf(uac, |UacFlags|)
  {
    flags := [];
    var i := 0;
    while i < |UacFlags|
      invariant 0 <= i <= |UacFlags|
      invariant flags == FlagsOf(uac, i)
    {
      var (flag, value) := UacFlags[i];
      if HasBit(uac, value) {
        flags := flags + [flag];
      }
      i := i + 1;
    }
  }

  /** `parse_user`: the same result as `UserOf`, with the groups and flags built by their loops. */
  method ParseUser(e: Entry, groups: map<int, Atom>) returns (r: Result<UserInfo, string>)
    ensures r == UserOf(e, groups)
  {
    var dn := GetText(e, "distinguishedName");
    var name := GetField(e, "name");
    var username := GetField(e, "sAMAccountName");
    var description := GetField(e, "description");
    var sid := GetText(e, "objectSid");
    var primary := GetField(e, "primaryGroupID");
    if dn.Err? || name.Err? || username.Err? || description.Err? || sid.Err? || primary.Err? {
      return UserOf(e, groups);
    }
    var groupList := ParseGroups(MemberOf(e), PrimaryGroupName(groups, primary.value));
    if groupList.Err? {
      return UserOf(e, groups);
    }
    var uacValue := GetField(e, "userAccountControl");
    if uacValue.Err? || IntOf(uacValue.value).Err? {
      return UserOf(e, groups);
    }
    var flags := ParseFlags(IntOf(uacValue.value).value);
    r := Ok(UserInfo(DomainOf(dn.value), name.value, username.value, description.value, SidOf(sid.value),
                     groupList.value, flags));
  }

  // ---------------------------------------------------------------- the group table

  /**
   * One row of the group table: the integer relative id of the group's objectSid, and
   * its cn (read first, as Python evaluates the assigned value before the key).
   */
  function GroupRow(g: Entry): Result<(int, Atom), string>
  {
    var sid :- GetField(g, "objectSid");
    var cn :- GetField(g, "cn");
    var sidText :- if sid.Text? then Ok(sid.s) else Err("AttributeError: objectSid is not a string");
    var rid :- IntOf(Text(SidOf(sidText)));
    Ok((rid, cn))
  }

  /**
   * A table built from entries, each read into a (key, value) row and entered in turn
   * (a later row replaces an earlier one); the first row that cannot be read fails it.
   */
  function RowTable<E>(es: seq<E>, row: E -> Result<(int, Atom), string>): (r: Result<map<int, Atom>, string>)
    ensures r.Ok? ==> forall i :: 0 <= i < |es| ==> row(es[i]).Ok?
  {
    if es == [] then Ok(map[])
    else
      var init :- RowTable(es[..|es| - 1], row);
      var last :- row(es[|es| - 1]);
      assert forall i :: 0 <= i < |es| - 1 ==> es[..|es| - 1][i] == es[i];
      Ok(init[last.0 := last.1])
  }

  /** The group table after the given groups, as `parse_domain_users` fills it. */
  function GroupTableOf(gs: seq<Entry>): (r: Result<map<int, Atom>, string>)
    ensures r.Ok? ==> forall i :: 0 <= i < |gs| ==> GroupRow(gs[i]).Ok?
  {
    RowTable(gs, GroupRow)
  }

  /** Every key of the table is the key of some row. */
  lemma {:induction false} RowTableKeys<E>(es: seq<E>, row: E -> Result<(int, Atom), string>, k: int)
    requires RowTable(es, row).Ok? && k in RowTable(es, row).value
    ensures exists i :: 0 <= i < |es| && row(es[i]).value.0 == k
  {
    var init := es[..|es| - 1];
    var last := row(es[|es| - 1]).value;
    if k == last.0 {
      assert row(es[|es| - 1]).value.0 == k;
    } else {
      assert RowTable(es, row).value == RowTable(init, row).value[last.0 := last.1];
      RowTableKeys(init, row, k);
      var i :| 0 <= i < |init| && row(init[i]).value.0 == k;
      assert init[i] == es[i];
    }
  }

  /** Every row's key is a key of the table. */
  lemma {:induction false} RowTableHas<E>(es: seq<E>, row: E -> Result<(int, Atom), string>, i: nat)
    requires RowTable(es, row).Ok? && i < |es|
    ensures row(es[i]).value.0 in RowTable(es, row).value
  {
    var init := es[..|es| - 1];
    var last := row(es[|es| - 1]).value;
    assert RowTable(es, row).value == RowTable(init, row).value[last.0 := last.1];
    if i < |init| {
      assert init[i] == es[i];
      RowTableHas(init, row, i);
    }
  }

  /** A row whose key no later row repeats is mapped to its own value: the last row with a key wins. */
  lemma {:induction false} RowTableLastWins<E>(es: seq<E>, row: E -> Result<(int, Atom), string>, i: nat)
    requires RowTable(es, row).Ok? && i < |es|
    requires forall j :: i < j < |es| ==> row(es[j]).value.0 != row(es[i]).value.0
    ensures row(es[i]).value.0 in RowTable(es, row).value
    ensures RowTable(es, row).value[row(es[i]).value.0] == row(es[i]).value.1
  {
    RowTableHas(es, row, i);
    var init := es[..|es| - 1];
    var last := row(es[|es| - 1]).value;
    assert RowTable(es, row).value == RowTable(init, row).value[last.0 := last.1];
    if i < |init| {
      assert init[i] == es[i];
      forall j | i < j < |init| ensures row(init[j]).value.0 != row(init[i]).value.0 {
        assert init[j] == es[j];
      }
      RowTableLastWins(init, row, i);
    }
  }

  /** Building the group table, as `parse_domain_users` does before the users. */
  method BuildGroupTable(gs: seq<Entry>) returns (r: Result<map<int, Atom>, string>)
    ensures r == GroupTableOf(gs)
  {
    var table: map<int, Atom> := map[];
    var i := 0;
    while i < |gs|
      invariant 0 <= i <= |gs|
      invariant RowTable(gs[..i], GroupRow) == Ok(table)
    {
      var row := GroupRow(gs[i]);
      RowTableNext(gs, GroupRow, i, table);
      if row.Err? {
        RowTablePrefix(gs, GroupRow, i + 1);
        return GroupTableOf(gs);
      }
      table := table[row.value.0 := row.value.1];
      i := i + 1;
    }
    assert gs[..i] == gs;
    r := Ok(table);
  }

  /** One more row: the table takes it, or the build fails there. */
  lemma RowTableNext<E>(es: seq<E>, row: E -> Result<(int, Atom), string>, i: nat, table: map<int, Atom>)
    requires i < |es| && RowTable(es[..i], row) == Ok(table)
    ensures row(es[i]).Err? ==> RowTable(es[..i + 1], row).Err?
    ensures row(es[i]).Ok? ==>
      RowTable(es[..i + 1], row) == Ok(table[row(es[i]).value.0 := row(es[i]).value.1])
  {
    assert es[..i + 1][..i] == es[..i];
    assert es[..i + 1][i] == es[i];
  }

  /** A list whose prefix fails fails as a whole. */
  lemma {:induction false} RowTablePrefix<E>(es: seq<E>, row: E -> Result<(int, Atom), string>, n: nat)
    requires n <= |es| && RowTable(es[..n], row).Err?
    ensures RowTable(es, row).Err?
    decreases |es| - n
  {
    if n < |es| {
      assert es[..n + 1][..n] == es[..n];
      RowTablePrefix(es, row, n + 1);
    } else {
      assert es[..n] == es;
    }
  }

  // ---------------------------------------------------------------- importing

  /**
   * `host.description` has an `append`: a Host record declares no description field, so
   * the attribute exists only when the stored record holds a description list.
   */
  predicate DescriptionList(f: Fields) {
    "description" in f && f["description"].Many?
  }

  /**
   * A computer folded into its Host record, step by step as `parse_domain_computers`
   * does; None when there is no description list, when the host names hold a single
   * value (a string has no append), or when the tags cannot be iterated.
   */
  function ComputerFields(f: Fields, c: Computer): Option<Fields>
  {
    if !(DescriptionList(f) && ListOrUnset(f, "hostname") && Taggable(f)) then None
    else
      var f2 := f["description" := Many(ListOr(f, "description") + [c.description])]
                 ["hostname" := Many(ListOr(f, "hostname") + [c.dnsHostname])];
      var f3 := if Truthy(c.os) then f2["os" := One(c.os)] else f2;
      Some(f3["domain_controller" := One(Bool(c.Dc()))]["tags" := Many(WithTag(TagsOr(f), "domaindump"))])
  }

  /**
   * A computer can be folded into a Host record exactly when the record holds a
   * description list, its host names are a list or unset, and its tags can be iterated.
   */
  lemma ComputerFieldsDefined(f: Fields, c: Computer)
    ensures ComputerFields(f, c).Some? <==> DescriptionList(f) && ListOrUnset(f, "hostname") && Taggable(f)
  {
  }

  /** What folding a computer appends: its description and its DNS name. */
  lemma ComputerFieldsWrites(f: Fields, c: Computer)
    requires ComputerFields(f, c).Some?
    ensures var r := ComputerFields(f, c).value;
      "description" in r && r["description"] == Many(ListOr(f, "description") + [c.description]) &&
      "hostname" in r && r["hostname"] == Many(ListOr(f, "hostname") + [c.dnsHostname])
  {
    assert "description"[1] != "domain_controller"[1];
  }

  /**
   * What else folding a computer writes: the domain-controller flag, the 'domaindump'
   * tag added to the tags, and the operating system only when it is non-empty.
   */
  lemma ComputerFieldsFlags(f: Fields, c: Computer)
    requires ComputerFields(f, c).Some?
    ensures var r := ComputerFields(f, c).value;
      "domain_controller" in r && r["domain_controller"] == One(Bool(c.Dc())) &&
      "tags" in r && r["tags"] == Many(WithTag(TagsOr(f), "domaindump"))
    ensures Truthy(c.os) ==> "os" in ComputerFields(f, c).value && ComputerFields(f, c).value["os"] == One(c.os)
  {
  }

  /** Folding a computer keeps every other field `k`, the address and an empty operating system included. */
  lemma ComputerFieldsKeeps(f: Fields, c: Computer, k: string)
    requires ComputerFields(f, c).Some?
    requires k != "description" && k != "hostname" && k != "domain_controller" && k != "tags" && (k != "os" || !Truthy(c.os))
    ensures k in ComputerFields(f, c).value <==> k in f
    ensures k in f ==> ComputerFields(f, c).value[k] == f[k]
  {
  }

  /**
   * The outcome of one iteration of `parse_domain_computers`, and the Host store after
   * it: a computer without an address is skipped; otherwise its Host is fetched (or
   * created and saved), updated, stamped with created_at and saved under its address
   * field, and the id it was saved under is the outcome.
   */
  function ComputerImport(docs: map<string, Fields>, c: Computer, now: int): (Result<Option<string>, string>, map<string, Fields>)
  {
    if c.ip == "" then (Ok(None), docs)
    else
      var base := Fetched(docs, "address", c.ip, now);
      var fetched := AfterFetch(docs, "address", c.ip, now);
      match ComputerFields(base, c)
      case None => (Err("AttributeError: no list to append to"), fetched)
      case Some(f) =>
        var key := StoreKey(KeyText(base, "address"), c.ip);
        (Ok(Some(key)), fetched[key := f["created_at" := One(Stamp(now))]])
  }

  /**
   * A computer whose Host is not stored yet stops the import: the record `id_to_object`
   * creates and saves holds only its address and created_at, so it has no description
   * list to append to.
   */
  lemma NewHostStopsImport(docs: map<string, Fields>, c: Computer, now: int)
    requires c.ip != "" && c.ip !in docs
    ensures ComputerImport(docs, c, now) ==
      (Err("AttributeError: no list to append to"), docs[c.ip := map["address" := One(Text(c.ip)), "created_at" := One(Stamp(now))]])
  {
    assert !DescriptionList(Fetched(docs, "address", c.ip, now));
  }

  /**
   * Importing a computer touches only its own Host: the record stored under its address
   * (created when missing) and the record its address field names; every other record
   * stays as it was.
   */
  lemma ComputerImportLocal(docs: map<string, Fields>, c: Computer, now: int, id: string)
    requires id in docs && id != c.ip
    requires c.ip != "" ==> KeyText(Fetched(docs, "address", c.ip, now), "address") != Some(id)
    ensures id in ComputerImport(docs, c, now).1 && ComputerImport(docs, c, now).1[id] == docs[id]
  {
    if c.ip != "" {
      var base := Fetched(docs, "address", c.ip, now);
      var fetched := AfterFetch(docs, "address", c.ip, now);
      assert id in fetched && fetched[id] == docs[id];
      assert StoreKey(KeyText(base, "address"), c.ip) != id;
    }
  }

  /** The in-place updates `parse_domain_computers` makes to a fetched Host, the tag included. */
  method FoldComputer(host: Doc, c: Computer)
    requires ComputerFields(host.fields, c).Some?
    modifies host
    ensures host.fields == ComputerFields(old(host.fields), c).value
    ensures host.id == old(host.id)
  {
    var fields := Append(host.fields, "description", c.description);
    fields := Append(fields, "hostname", c.dnsHostname);
    if Truthy(c.os) {
      fields := fields["os" := One(c.os)];
    }
    fields := fields["domain_controller" := One(Bool(c.Dc()))];
    assert TagsOr(fields) == TagsOr(old(host.fields));
    host.fields := fields;
    var tagged := host.AddTag("domaindump");
  }

  /** `parse_domain_computers`' loop body on the Host store, proved against `ComputerImport`. */
  method ImportComputer(hosts: Index, c: Computer, now: int) returns (r: Result<Option<string>, string>)
    requires hosts.Valid()
    modifies hosts
    ensures hosts.Valid()
    ensures r.Ok? ==> (r, hosts.docs) == ComputerImport(old(hosts.docs), c, now)
    ensures r.Err? ==> (r, hosts.docs) == ComputerImport(old(hosts.docs), c, now)
    ensures forall id :: id in old(hosts.docs) ==> id in hosts.docs
    ensures Appended(old(hosts.order), old(hosts.docs), hosts.order)
  {
    if c.ip == "" {
      return Ok(None);
    }
    var got := IdToObject(Host, hosts, c.ip, now);
    var host := got.value;
    ghost var base := Fetched(old(hosts.docs), "address", c.ip, now);
    ghost var fetched := AfterFetch(old(hosts.docs), "address", c.ip, now);
    assert host.fields == base && hosts.docs == fetched;
    if !(DescriptionList(host.fields) && ListOrUnset(host.fields, "hostname") && Taggable(host.fields)) {
      assert ComputerFields(base, c).None?;
      return Err("AttributeError: no list to append to");
    }
    ghost var order1 := hosts.order;
    var key := SaveComputer(hosts, host, c, now);
    AppendedTrans(old(hosts.order), old(hosts.docs), order1, fetched, hosts.order);
    r := Ok(Some(key));
  }

  /** The fold of a computer into a fetched Host record, then `save()`: the record is stored under its address field. */
  method SaveComputer(hosts: Index, host: Doc, c: Computer, now: int) returns (key: string)
    requires hosts.Valid() && host.kind == Host && ComputerFields(host.fields, c).Some?
    modifies hosts, host
    ensures hosts.Valid()
    ensures key == StoreKey(KeyText(old(host.fields), "address"), c.ip)
    ensures hosts.docs == old(hosts.docs)[key := ComputerFields(old(host.fields), c).value["created_at" := One(Stamp(now))]]
    ensures hosts.order == if key in old(hosts.docs) then old(hosts.order) else old(hosts.order) + [key]
    ensures Appended(old(hosts.order), old(hosts.docs), hosts.order)
  {
    ghost var base := host.fields;
    FoldComputer(host, c);
    ComputerFieldsKeeps(base, c, "address");
    host.Save(hosts, now, c.ip);
    key := host.id.value;
  }

  /** Every entry of a computers file, parsed, in order. */
  function ParsedComputers(data: seq<Entry>, dns: map<Atom, string>): (cs: seq<Result<Computer, string>>)
    ensures |cs| == |data|
    ensures forall i :: 0 <= i < |data| ==> cs[i] == ParseSingleComputer(data[i], dns)
  {
    seq(|data|, i requires 0 <= i < |data| => ParseSingleComputer(data[i], dns))
  }

  /** How many of the parsed entries are computers with an address. */
  function ResolvedCount(cs: seq<Result<Computer, string>>): nat
  {
    if cs == [] then 0
    else ResolvedCount(cs[..|cs| - 1]) + (if cs[|cs| - 1].Ok? && cs[|cs| - 1].value.ip != "" then 1 else 0)
  }

  /**
   * The outcome of `parse_domain_computers` on the parsed entries, and the Host store
   * after it: the entries are imported in order, each computer with an address adding
   * one to the count, and the first failure (of parsing or of importing) ending the run.
   */
  function ComputersImport(docs: map<string, Fields>, cs: seq<Result<Computer, string>>, now: int): (Result<nat, string>, map<string, Fields>)
  {
    if cs == [] then (Ok(0), docs)
    else ComputerStep(ComputersImport(docs, cs[..|cs| - 1], now), cs[|cs| - 1], now)
  }

  /** One entry of `parse_domain_computers` after the run so far (`count` and the store). */
  function ComputerStep(acc: (Result<nat, string>, map<string, Fields>), parsed: Result<Computer, string>, now: int): (Result<nat, string>, map<string, Fields>)
  {
    if acc.0.Err? then acc
    else
      match parsed
      case Err(e) => (Err(e), acc.1)
      case Ok(c) =>
        if c.ip == "" then acc
        else
          var res := ComputerImport(acc.1, c, now);
          (if res.0.Err? then Err(res.0.error) else Ok(acc.0.value + 1), res.1)
  }

  /** The run on one more entry is one more step after the run so far. */
  lemma ComputersImportSnoc(docs: map<string, Fields>, cs: seq<Result<Computer, string>>, now: int, i: nat)
    requires i < |cs|
    ensures ComputersImport(docs, cs[..i + 1], now) == ComputerStep(ComputersImport(docs, cs[..i], now), cs[i], now)
  {
    assert cs[..i + 1][..i] == cs[..i];
  }

  /** A run that failed on a prefix of the entries fails on all of them, with the same store. */
  lemma {:induction false} ComputersImportPrefix(docs: map<string, Fields>, cs: seq<Result<Computer, string>>, now: int, n: nat)
    requires n <= |cs| && ComputersImport(docs, cs[..n], now).0.Err?
    ensures ComputersImport(docs, cs, now) == ComputersImport(docs, cs[..n], now)
    decreases |cs| - n
  {
    if n < |cs| {
      assert cs[..n + 1][..n] == cs[..n];
      ComputersImportPrefix(docs, cs, now, n + 1);
    } else {
      assert cs[..n] == cs;
    }
  }

  /** A successful run parsed every entry and counts exactly the computers with an address. */
  lemma {:induction false} ComputersImportCount(docs: map<string, Fields>, cs: seq<Result<Computer, string>>, now: int)
    requires ComputersImport(docs, cs, now).0.Ok?
    ensures ComputersImport(docs, cs, now).0.value == ResolvedCount(cs)
    ensures forall i :: 0 <= i < |cs| ==> cs[i].Ok?
  {
    if cs != [] {
      var init := cs[..|cs| - 1];
      assert ComputersImport(docs, init, now).0.Ok? && cs[|cs| - 1].Ok?;
      ComputersImportCount(docs, init, now);
      forall i | 0 <= i < |cs| ensures cs[i].Ok? {
        if i < |init| {
          assert init[i] == cs[i];
        } else {
          assert i == |cs| - 1;
        }
      }
    }
  }

  /** One parsed entry of `parse_domain_computers`: a computer with an address is imported and counted. */
  method ImportParsed(hosts: Index, parsed: Result<Computer, string>, count: nat, now: int) returns (r: Result<nat, string>)
    requires hosts.Valid()
    modifies hosts
    ensures hosts.Valid()
    ensures (r, hosts.docs) == ComputerStep((Ok(count), old(hosts.docs)), parsed, now)
    ensures forall id :: id in old(hosts.docs) ==> id in hosts.docs
    ensures Appended(old(hosts.order), old(hosts.docs), hosts.order)
  {
    if parsed.Err? {
      return Err(parsed.error);
    }
    if parsed.value.ip == "" {
      return Ok(count);
    }
    var saved := ImportComputer(hosts, parsed.value, now);
    if saved.Err? {
      return Err(saved.error);
    }
    r := Ok(count + 1);
    ghost var step := ComputerStep((Ok(count), old(hosts.docs)), parsed, now);
    assert step.0.Ok? && step.0.value == count + 1;
  }

  /** `parse_domain_computers` on the parsed file, proved against `ComputersImport`. */
  method ImportComputers(hosts: Index, data: seq<Entry>, dns: map<Atom, string>, now: int) returns (r: Result<nat, string>)
    requires hosts.Valid()
    modifies hosts
    ensures hosts.Valid()
    ensures (r, hosts.docs) == ComputersImport(old(hosts.docs), ParsedComputers(data, dns), now)
    ensures forall id :: id in old(hosts.docs) ==> id in hosts.docs
    ensures Appended(old(hosts.order), old(hosts.docs), hosts.order)
  {
    ghost var cs := ParsedComputers(data, dns);
    var count := 0;
    var i := 0;
    while i < |data|
      invariant 0 <= i <= |data| && hosts.Valid()
      invariant ComputersImport(old(hosts.docs), cs[..i], now) == (Ok(count), hosts.docs)
      invariant forall id :: id in old(hosts.docs) ==> id in hosts.docs
      invariant Appended(old(hosts.order), old(hosts.docs), hosts.order)
    {
      var parsed := ParseSingleComputer(data[i], dns);
      ComputersImportSnoc(old(hosts.docs), cs, now, i);
      ghost var docs0, order0 := hosts.docs, hosts.order;
      var step := ImportParsed(hosts, parsed, count, now);
      AppendedTrans(old(hosts.order), old(hosts.docs), order0, docs0, hosts.order);
      if step.Err? {
        ComputersImportPrefix(old(hosts.docs), cs, now, i + 1);
        return step;
      }
      count := step.value;
      i := i + 1;
    }
    assert cs[..i] == cs;
    r := Ok(count);
  }

  /**
   * A user folded into its User record as `parse_domain_users` does: name, description
   * and relative id replaced, the domain appended, groups and flags extended (repeats
   * kept), and the 'domaindump' tag added. None when one of those lists holds a single
   * value.
   */
  function UserFields(f: Fields, u: UserInfo): Option<Fields>
  {
    if !(ListOrUnset(f, "domain") && ListOrUnset(f, "groups") && ListOrUnset(f, "flags") && Taggable(f)) then None
    else
      Some(f["name" := One(u.name)]
            ["domain" := Many(ListOr(f, "domain") + [Text(u.domain)])]
            ["description" := One(u.description)]
            ["groups" := Many(ListOr(f, "groups") + u.groups)]
            ["flags" := Many(ListOr(f, "flags") + Texts(u.flags))]
            ["sid" := One(Text(u.sid))]
            ["tags" := Many(WithTag(TagsOr(f), "domaindump"))])
  }

  /** A user can be folded into a User record exactly when the lists it extends are lists or unset. */
  lemma UserFieldsDefined(f: Fields, u: UserInfo)
    ensures UserFields(f, u).Some? <==> ListOrUnset(f, "domain") && ListOrUnset(f, "groups") && ListOrUnset(f, "flags") && Taggable(f)
  {
  }

  /**
   * What folding a user writes: name, description and relative id, the domain appended,
   * the groups and flags extended in order, and the 'domaindump' tag.
   */
  lemma UserFieldsWrites(f: Fields, u: UserInfo)
    requires UserFields(f, u).Some?
    ensures var r := UserFields(f, u).value;
      "name" in r && r["name"] == One(u.name) &&
      "description" in r && r["description"] == One(u.description) &&
      "sid" in r && r["sid"] == One(Text(u.sid)) &&
      "domain" in r && r["domain"] == Many(ListOr(f, "domain") + [Text(u.domain)]) &&
      "groups" in r && r["groups"] == Many(ListOr(f, "groups") + u.groups) &&
      "flags" in r && r["flags"] == Many(ListOr(f, "flags") + Texts(u.flags)) &&
      "tags" in r && r["tags"] == Many(WithTag(TagsOr(f), "domaindump"))
  {
  }

  /** Folding a user keeps every other field `k`, the username included. */
  lemma UserFieldsKeeps(f: Fields, u: UserInfo, k: string)
    requires UserFields(f, u).Some?
    requires k != "name" && k != "description" && k != "sid" && k != "domain" && k != "groups" && k != "flags" && k != "tags"
    ensures k in UserFields(f, u).value <==> k in f
    ensures k in f ==> UserFields(f, u).value[k] == f[k]
  {
  }

  /**
   * The outcome of one iteration of `parse_domain_users`, and the User store after it:
   * the User named by the username is fetched (or created and saved), updated, stamped
   * with created_at and saved under its username field, whose id is the outcome. A
   * username that is not a string is refused (the model does not follow it further), and
   * an empty one is refused as an id.
   */
  function UserImport(docs: map<string, Fields>, u: UserInfo, now: int): (Result<string, string>, map<string, Fields>)
  {
    if !u.username.Text? then (Err("a username that is not a string"), docs)
    else if u.username.s == "" then (Err("Empty value passed for a required argument 'id'"), docs)
    else
      var name := u.username.s;
      var base := Fetched(docs, "username", name, now);
      var fetched := AfterFetch(docs, "username", name, now);
      match UserFields(base, u)
      case None => (Err("AttributeError: no list to append to"), fetched)
      case Some(f) =>
        var key := StoreKey(KeyText(base, "username"), name);
        (Ok(key), fetched[key := f["created_at" := One(Stamp(now))]])
  }

  /** A user imported under a username is saved under that username when it is new. */
  lemma NewUserKeptUnderName(docs: map<string, Fields>, u: UserInfo, now: int)
    requires u.username.Text? && u.username.s != "" && u.username.s !in docs
    requires UserFields(Fetched(docs, "username", u.username.s, now), u).Some?
    ensures UserImport(docs, u, now).0 == Ok(u.username.s)
    ensures u.username.s in UserImport(docs, u, now).1
  {
    var base := Fetched(docs, "username", u.username.s, now);
    UserFieldsKeeps(base, u, "username");
  }

  /** The in-place updates `parse_domain_users` makes to a fetched User, the tag included. */
  method FoldUser(user: Doc, u: UserInfo)
    requires UserFields(user.fields, u).Some?
    modifies user
    ensures user.fields == UserFields(old(user.fields), u).value
    ensures user.id == old(user.id)
  {
    var fields := user.fields["name" := One(u.name)];
    fields := Append(fields, "domain", Text(u.domain));
    fields := fields["description" := One(u.description)];
    fields := Extend(fields, "groups", u.groups);
    fields := Extend(fields, "flags", Texts(u.flags));
    fields := fields["sid" := One(Text(u.sid))];
    assert TagsOr(fields) == TagsOr(old(user.fields));
    user.fields := fields;
    var tagged := user.AddTag("domaindump");
  }

  /** `parse_domain_users`' loop body on the User store, proved against `UserImport`. */
  method ImportUser(users: Index, u: UserInfo, now: int) returns (r: Result<string, string>)
    requires users.Valid()
    modifies users
    ensures users.Valid()
    ensures r.Ok? ==> (r, users.docs) == UserImport(old(users.docs), u, now)
    ensures r.Err? ==> (r, users.docs) == UserImport(old(users.docs), u, now)
    ensures forall id :: id in old(users.docs) ==> id in users.docs
    ensures Appended(old(users.order), old(users.docs), users.order)
  {
    if !u.username.Text? {
      return Err("a username that is not a string");
    }
    var name := u.username.s;
    var got := IdToObject(User, users, name, now);
    if got.Err? {
      return Err("Empty value passed for a required argument 'id'");
    }
    var user := got.value;
    ghost var base := Fetched(old(users.docs), "username", name, now);
    ghost var fetched := AfterFetch(old(users.docs), "username", name, now);
    assert user.fields == base && users.docs == fetched;
    if !(ListOrUnset(user.fields, "domain") && ListOrUnset(user.fields, "groups") && ListOrUnset(user.fields, "flags") && Taggable(user.fields)) {
      assert UserFields(base, u).None?;
      return Err("AttributeError: no list to append to");
    }
    ghost var order1 := users.order;
    var key := SaveUser(users, user, u, now, name);
    AppendedTrans(old(users.order), old(users.docs), order1, fetched, users.order);
    r := Ok(key);
  }

  /** The fold of a user into a fetched User record, then `save()`: the record is stored under its username field. */
  method SaveUser(users: Index, user: Doc, u: UserInfo, now: int, autoId: string) returns (key: string)
    requires users.Valid() && user.kind == User && UserFields(user.fields, u).Some?
    modifies users, user
    ensures users.Valid()
    ensures key == StoreKey(KeyText(old(user.fields), "username"), autoId)
    ensures users.docs == old(users.docs)[key := UserFields(old(user.fields), u).value["created_at" := One(Stamp(now))]]
    ensures users.order == if key in old(users.docs) then old(users.order) else old(users.order) + [key]
    ensures Appended(old(users.order), old(users.docs), users.order)
  {
    ghost var base := user.fields;
    FoldUser(user, u);
    UserFieldsKeeps(base, u, "username");
    user.Save(users, now, autoId);
    key := user.id.value;
  }

  /** Every user entry, parsed against the group table, in order. */
  function ParsedUsers(entries: seq<Entry>, table: map<int, Atom>): (us: seq<Result<UserInfo, string>>)
    ensures |us| == |entries|
    ensures forall i :: 0 <= i < |entries| ==> us[i] == UserOf(entries[i], table)
  {
    seq(|entries|, i requires 0 <= i < |entries| => UserOf(entries[i], table))
  }

  /**
   * The outcome of the user loop of `parse_domain_users` on the parsed entries, and the
   * User store after it: the users are imported in turn, each adding one to the count,
   * and the first failure (of parsing or of importing) ends the run.
   */
  function UsersImport(docs: map<string, Fields>, us: seq<Result<UserInfo, string>>, now: int): (Result<nat, string>, map<string, Fields>)
  {
    if us == [] then (Ok(0), docs)
    else UserStep(UsersImport(docs, us[..|us| - 1], now), us[|us| - 1], now)
  }

  /** One parsed user entry of `parse_domain_users` after the run so far (`count` and the store). */
  function UserStep(acc: (Result<nat, string>, map<string, Fields>), parsed: Result<UserInfo, string>, now: int): (Result<nat, string>, map<string, Fields>)
  {
    if acc.0.Err? then acc
    else
      match parsed
      case Err(msg) => (Err(msg), acc.1)
      case Ok(u) =>
        var res := UserImport(acc.1, u, now);
        (if res.0.Err? then Err(res.0.error) else Ok(acc.0.value + 1), res.1)
  }

  /** `parse_domain_users` as a whole: the group table first, then the users. */
  function UsersRun(docs: map<string, Fields>, entries: seq<Entry>, groupEntries: seq<Entry>, now: int): (Result<nat, string>, map<string, Fields>)
  {
    match GroupTableOf(groupEntries)
    case Err(msg) => (Err(msg), docs)
    case Ok(table) => UsersImport(docs, ParsedUsers(entries, table), now)
  }

  /** The run on one more entry is one more step after the run so far. */
  lemma UsersImportSnoc(docs: map<string, Fields>, us: seq<Result<UserInfo, string>>, now: int, i: nat)
    requires i < |us|
    ensures UsersImport(docs, us[..i + 1], now) == UserStep(UsersImport(docs, us[..i], now), us[i], now)
  {
    assert us[..i + 1][..i] == us[..i];
  }

  /** A run that failed on a prefix of the entries fails on all of them, with the same store. */
  lemma {:induction false} UsersImportPrefix(docs: map<string, Fields>, us: seq<Result<UserInfo, string>>, now: int, n: nat)
    requires n <= |us| && UsersImport(docs, us[..n], now).0.Err?
    ensures UsersImport(docs, us, now) == UsersImport(docs, us[..n], now)
    decreases |us| - n
  {
    if n < |us| {
      assert us[..n + 1][..n] == us[..n];
      UsersImportPrefix(docs, us, now, n + 1);
    } else {
      assert us[..n] == us;
    }
  }

  /** A successful run counts every entry, and every entry parsed. */
  lemma {:induction false} UsersImportCount(docs: map<string, Fields>, us: seq<Result<UserInfo, string>>, now: int)
    requires UsersImport(docs, us, now).0.Ok?
    ensures UsersImport(docs, us, now).0.value == |us|
    ensures forall i :: 0 <= i < |us| ==> us[i].Ok?
  {
    if us != [] {
      var init := us[..|us| - 1];
      assert UsersImport(docs, init, now).0.Ok? && us[|us| - 1].Ok?;
      UsersImportCount(docs, init, now);
      forall i | 0 <= i < |us| ensures us[i].Ok? {
        if i < |init| {
          assert init[i] == us[i];
        } else {
          assert i == |us| - 1;
        }
      }
    }
  }

  /** One parsed user entry of `parse_domain_users`: a user is imported and counted. */
  method ImportEntry(users: Index, parsed: Result<UserInfo, string>, count: nat, now: int) returns (r: Result<nat, string>)
    requires users.Valid()
    modifies users
    ensures users.Valid()
    ensures (r, users.docs) == UserStep((Ok(count), old(users.docs)), parsed, now)
    ensures forall id :: id in old(users.docs) ==> id in users.docs
    ensures Appended(old(users.order), old(users.docs), users.order)
  {
    if parsed.Err? {
      return Err(parsed.error);
    }
    var saved := ImportUser(users, parsed.value, now);
    if saved.Err? {
      return Err(saved.error);
    }
    r := Ok(count + 1);
    ghost var step := UserStep((Ok(count), old(users.docs)), parsed, now);
    assert step.0.Ok? && step.0.value == count + 1;
  }

  /**
   * `parse_domain_users` on the parsed files, proved against `UsersRun`: the group table
   * is built from the group entries (none when no groups file is given), then every
   * user entry is parsed and imported.
   */
  method ImportUsers(users: Index, entries: seq<Entry>, groupEntries: seq<Entry>, now: int) returns (r: Result<nat, string>)
    requires users.Valid()
    modifies users
    ensures users.Valid()
    ensures (r, users.docs) == UsersRun(old(users.docs), entries, groupEntries, now)
    ensures forall id :: id in old(users.docs) ==> id in users.docs
    ensures Appended(old(users.order), old(users.docs), users.order)
  {
    var table := BuildGroupTable(groupEntries);
    if table.Err? {
      return Err(table.error);
    }
    ghost var us := ParsedUsers(entries, table.value);
    var count := 0;
    var i := 0;
    while i < |entries|
      invariant 0 <= i <= |entries| && users.Valid()
      invariant UsersImport(old(users.docs), us[..i], now) == (Ok(count), users.docs)
      invariant forall id :: id in old(users.docs) ==> id in users.docs
      invariant Appended(old(users.order), old(users.docs), users.order)
    {
      var info := ParseUser(entries[i], table.value);
      UsersImportSnoc(old(users.docs), us, now, i);
      ghost var docs0, order0 := users.docs, users.order;
      var step := ImportEntry(users, info, count, now);
      AppendedTrans(old(users.order), old(users.docs), order0, docs0, users.order);
      if step.Err? {
        UsersImportPrefix(old(users.docs), us, now, i + 1);
        return step;
      }
      count := step.value;
      i := i + 1;
    }
    assert us[..i] == us;
    r := Ok(count);
  }
}
