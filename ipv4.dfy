/**
 * The part of Python's `ipaddress` module the sniffer relies on, for IPv4: parsing and
 * printing dotted quads, the address categories, netmask strings, and the network an
 * address belongs to under a prefix length; and how an Elasticsearch `term` query on an
 * `ip` field reads its value as a network.
 */
module Ipv4 {
  import opened Wrappers
  import opened Text

  type Octet = x: nat | x < 256

  datatype Addr = Addr(a: Octet, b: Octet, c: Octet, d: Octet)

  // ---------------------------------------------------------------- text form

  /**
   * One decimal octet: one to three ASCII digits, no leading zero, at most 255.
   * Only the canonical text of a value is accepted.
   */
  function ParseOctet(s: string): (r: Option<Octet>)
    ensures r.Some? ==> NatToString(r.value) == s
  {
    if s != "" && |s| <= 3 && AllDigits(s) && !(|s| > 1 && s[0] == '0') && DigitsValue(s) <= 255 then
      NatToStringOfDigits(s);
      Some(DigitsValue(s))
    else None
  }

  /** The decimal text of every octet is accepted and read back as that octet. */
  lemma OctetRoundTrip(n: Octet)
    ensures ParseOctet(NatToString(n)) == Some(n)
    ensures '.' !in NatToString(n)
  {
    var s := NatToString(n);
    ParseNatToString(n);
    NatToStringShort(n);
    assert '.' !in s by {
      forall k | 0 <= k < |s| ensures s[k] != '.' { assert IsDigit(s[k]); }
    }
  }

  /** `IPv4Address(s)`: exactly four dot-separated octets. */
  function ParseAddress(s: string): (r: Option<Addr>)
    ensures r.Some? ==> |Split(s, ".")| == 4
  {
    var parts := Split(s, ".");
    if |parts| != 4 then None
    else
      match (ParseOctet(parts[0]), ParseOctet(parts[1]), ParseOctet(parts[2]), ParseOctet(parts[3]))
      case (Some(a), Some(b), Some(c), Some(d)) => Some(Addr(a, b, c, d))
      case _ => None
  }

  /** `str(address)`: the four octets in decimal, joined by dots. */
  function Format(x: Addr): string
  {
    Join([NatToString(x.a), NatToString(x.b), NatToString(x.c), NatToString(x.d)], ".")
  }

  /** Every address is read back from its text. */
  lemma ParseFormat(x: Addr)
    ensures ParseAddress(Format(x)) == Some(x)
  {
    var parts := [NatToString(x.a), NatToString(x.b), NatToString(x.c), NatToString(x.d)];
    OctetRoundTrip(x.a);
    OctetRoundTrip(x.b);
    OctetRoundTrip(x.c);
    OctetRoundTrip(x.d);
    SplitJoin(parts, ".");
  }

  /** Every accepted text is the canonical text of the address it denotes. */
  lemma FormatParse(s: string)
    requires ParseAddress(s).Some?
    ensures Format(ParseAddress(s).value) == s
  {
    var parts := Split(s, ".");
    var x := ParseAddress(s).value;
    assert [NatToString(x.a), NatToString(x.b), NatToString(x.c), NatToString(x.d)] == parts;
    JoinSplit(s, ".");
  }

  // ---------------------------------------------------------------- categories

  /** 224.0.0.0/4 */
  predicate IsMulticast(x: Addr) { 224 <= x.a <= 239 }

  /** 240.0.0.0/4 */
  predicate IsReserved(x: Addr) { x.a >= 240 }

  /** 127.0.0.0/8 */
  predicate IsLoopback(x: Addr) { x.a == 127 }

  /** 169.254.0.0/16 */
  predicate IsLinkLocal(x: Addr) { x.a == 169 && x.b == 254 }

  /** 0.0.0.0 */
  predicate IsUnspecified(x: Addr) { x == Addr(0, 0, 0, 0) }

  /**
   * The IPv4 private-network table of `ipaddress` (before Python 3.12.4): 0/8, 10/8,
   * 127/8, 169.254/16, 172.16/12, 192.0.0.0/29, 192.0.0.170/31, 192.0.2/24, 192.168/16,
   * 198.18/15, 198.51.100/24, 203.0.113/24, 240/4 and 255.255.255.255.
   */
  predicate IsPrivate(x: Addr) {
    x.a == 0 || x.a == 10 || x.a == 127 || (x.a == 169 && x.b == 254) ||
    (x.a == 172 && 16 <= x.b <= 31) ||
    (x.a == 192 && x.b == 0 && x.c == 0 && x.d < 8) ||
    (x.a == 192 && x.b == 0 && x.c == 0 && (x.d == 170 || x.d == 171)) ||
    (x.a == 192 && x.b == 0 && x.c == 2) ||
    (x.a == 192 && x.b == 168) ||
    (x.a == 198 && (x.b == 18 || x.b == 19)) ||
    (x.a == 198 && x.b == 51 && x.c == 100) ||
    (x.a == 203 && x.b == 0 && x.c == 113) ||
    x.a >= 240 ||
    x == Addr(255, 255, 255, 255)
  }

  // ---------------------------------------------------------------- networks

  /** The number of values the low `8 - bits` bits of an octet can take. */
  function Block(bits: nat): (r: nat)
    requires bits <= 8
    ensures r > 0
  {
    if bits == 0 then 256 else if bits == 1 then 128 else if bits == 2 then 64
    else if bits == 3 then 32 else if bits == 4 then 16 else if bits == 5 then 8
    else if bits == 6 then 4 else if bits == 7 then 2 else 1
  }

  /** The top `bits` bits of an octet, the rest cleared (`octet & mask`). */
  function KeepBits(o: Octet, bits: nat): Octet
    requires bits <= 8
  {
    o - o % Block(bits)
  }

  /** How many of the first `p` bits of an address fall in octet `i`. */
  function OctetBits(p: nat, i: nat): (r: nat)
    ensures r <= 8
  {
    if p >= 8 * (i + 1) then 8 else if p <= 8 * i then 0 else p - 8 * i
  }

  /** The network address of `x` under prefix length `p`: `x` with all but its first `p` bits cleared. */
  function Network(x: Addr, p: nat): Addr
    requires p <= 32
  {
    Addr(KeepBits(x.a, OctetBits(p, 0)), KeepBits(x.b, OctetBits(p, 1)),
         KeepBits(x.c, OctetBits(p, 2)), KeepBits(x.d, OctetBits(p, 3)))
  }

  /** The netmask of prefix length `p`: its first `p` bits set. */
  function MaskAddr(p: nat): Addr
    requires p <= 32
  {
    Network(Addr(255, 255, 255, 255), p)
  }

  /** Clearing the same low bits twice is clearing them once. */
  lemma KeepBitsIdempotent(o: Octet, bits: nat)
    requires bits <= 8
    ensures KeepBits(KeepBits(o, bits), bits) == KeepBits(o, bits)
  {
    var m := Block(bits);
    if m == 256 { ClearLow256(o); } else if m == 128 { ClearLow128(o); } else if m == 64 { ClearLow64(o); }
    else if m == 32 { ClearLow32(o); } else if m == 16 { ClearLow16(o); } else if m == 8 { ClearLow8(o); }
    else if m == 4 { ClearLow4(o); } else if m == 2 { ClearLow2(o); }
  }

  // A multiple of a block size minus its remainder leaves no remainder, one lemma per block size.
  lemma ClearLow2(o: nat)
    ensures (o - o % 2) % 2 == 0
  {
    assert o - o % 2 == 2 * (o / 2);
  }

  lemma ClearLow4(o: nat)
    ensures (o - o % 4) % 4 == 0
  {
    assert o - o % 4 == 4 * (o / 4);
  }

  lemma ClearLow8(o: nat)
    ensures (o - o % 8) % 8 == 0
  {
    assert o - o % 8 == 8 * (o / 8);
  }

  lemma ClearLow16(o: nat)
    ensures (o - o % 16) % 16 == 0
  {
    assert o - o % 16 == 16 * (o / 16);
  }

  lemma ClearLow32(o: nat)
    ensures (o - o % 32) % 32 == 0
  {
    assert o - o % 32 == 32 * (o / 32);
  }

  lemma ClearLow64(o: nat)
    ensures (o - o % 64) % 64 == 0
  {
    assert o - o % 64 == 64 * (o / 64);
  }

  lemma ClearLow128(o: nat)
    ensures (o - o % 128) % 128 == 0
  {
    assert o - o % 128 == 128 * (o / 128);
  }

  lemma ClearLow256(o: nat)
    ensures (o - o % 256) % 256 == 0
  {
    assert o - o % 256 == 256 * (o / 256);
  }

  /** A network address is its own network: the range string of an address names a fixed point. */
  lemma NetworkIdempotent(x: Addr, p: nat)
    requires p <= 32
    ensures Network(Network(x, p), p) == Network(x, p)
  {
    KeepBitsIdempotent(x.a, OctetBits(p, 0));
    KeepBitsIdempotent(x.b, OctetBits(p, 1));
    KeepBitsIdempotent(x.c, OctetBits(p, 2));
    KeepBitsIdempotent(x.d, OctetBits(p, 3));
  }

  /** Different numbers of leading ones give different mask octets. */
  lemma MaskOctetInjective(b1: nat, b2: nat)
    requires b1 < b2 <= 8
    ensures KeepBits(255, b1) != KeepBits(255, b2)
  {
    assert KeepBits(255, b1) == 256 - Block(b1);
    assert KeepBits(255, b2) == 256 - Block(b2);
  }

  /** Different prefix lengths have different netmasks. */
  lemma MasksDistinct(p: nat, q: nat)
    requires p < q <= 32
    ensures MaskAddr(p) != MaskAddr(q)
  {
    var i := p / 8;
    assert OctetBits(p, i) == p - 8 * i < OctetBits(q, i);
    MaskOctetInjective(OctetBits(p, i), OctetBits(q, i));
    if i == 0 {
      assert MaskAddr(p).a != MaskAddr(q).a;
    } else if i == 1 {
      assert MaskAddr(p).b != MaskAddr(q).b;
    } else if i == 2 {
      assert MaskAddr(p).c != MaskAddr(q).c;
    } else {
      assert MaskAddr(p).d != MaskAddr(q).d;
    }
  }

  /** A netmask determines its prefix length. */
  lemma MaskUnique(p: nat, q: nat)
    requires p <= 32 && q <= 32
    requires MaskAddr(p) == MaskAddr(q)
    ensures p == q
  {
    if p < q {
      MasksDistinct(p, q);
    } else if q < p {
      MasksDistinct(q, p);
    }
  }

  /** The prefix length whose netmask is `m`, searching from `p` upwards. */
  function PrefixFrom(m: Addr, p: nat): (r: Option<nat>)
    requires p <= 33
    ensures r.Some? ==> p <= r.value <= 32 && MaskAddr(r.value) == m
    ensures r.None? ==> forall q :: p <= q <= 32 ==> MaskAddr(q) != m
    decreases 33 - p
  {
    if p == 33 then None
    else if MaskAddr(p) == m then Some(p)
    else PrefixFrom(m, p + 1)
  }

  /** Every bit flipped: a hostmask read as a netmask. */
  function Complement(m: Addr): Addr
  {
    Addr(255 - m.a, 255 - m.b, 255 - m.c, 255 - m.d)
  }

  /**
   * The prefix length a netmask string denotes: a decimal prefix length of at most 32,
   * else a dotted netmask, else a dotted hostmask; None when it is none of these.
   */
  function NetmaskPrefix(s: string): (r: Option<nat>)
    ensures r.Some? ==> r.value <= 32
  {
    if s != "" && AllDigits(s) then
      (if DigitsValue(s) <= 32 then Some(DigitsValue(s)) else None)
    else
      match ParseAddress(s)
      case None => None
      case Some(m) =>
        match PrefixFrom(m, 0)
        case Some(p) => Some(p)
        case None => PrefixFrom(Complement(m), 0)
  }

  /** The text of an address is not a plain digit string. */
  lemma FormatNotDigits(x: Addr)
    ensures !AllDigits(Format(x))
  {
    var first := NatToString(x.a);
    var rest := [NatToString(x.b), NatToString(x.c), NatToString(x.d)];
    assert [first] + rest == [NatToString(x.a), NatToString(x.b), NatToString(x.c), NatToString(x.d)];
    assert Format(x) == first + "." + Join(rest, ".");
    assert Format(x)[|first|] == '.';
  }

  /** The search for a netmask's prefix length finds the prefix length it was built from. */
  lemma PrefixOfMask(p: nat)
    requires p <= 32
    ensures PrefixFrom(MaskAddr(p), 0) == Some(p)
  {
    PrefixSearch(p, 0);
  }

  /** Searching from any start at or below `p` finds `p`. */
  lemma {:induction false} PrefixSearch(p: nat, start: nat)
    requires start <= p <= 32
    ensures PrefixFrom(MaskAddr(p), start) == Some(p)
    decreases p - start
  {
    if MaskAddr(start) == MaskAddr(p) {
      MaskUnique(start, p);
    } else {
      PrefixSearch(p, start + 1);
    }
  }

  /** The dotted netmask of every prefix length denotes that prefix length. */
  lemma DottedNetmask(p: nat)
    requires p <= 32
    ensures NetmaskPrefix(Format(MaskAddr(p))) == Some(p)
  {
    ParseFormat(MaskAddr(p));
    FormatNotDigits(MaskAddr(p));
    PrefixOfMask(p);
  }

  /** `str(IPv4Network(f"{x}/{p}", strict=False))`: the network address and the prefix length. */
  function NetworkString(x: Addr, p: nat): string
    requires p <= 32
  {
    Format(Network(x, p)) + "/" + NatToString(p)
  }

  // ---------------------------------------------------------------- network queries

  /** The text of an address holds digits and dots only, so no `/`. */
  lemma FormatNoSlash(x: Addr)
    ensures '/' !in Format(x)
  {
    var a, b, c, d := NatToString(x.a), NatToString(x.b), NatToString(x.c), NatToString(x.d);
    assert Join([c, d], ".") == c + "." + d;
    assert Join([b, c, d], ".") == b + "." + Join([c, d], ".");
    assert Format(x) == a + "." + Join([b, c, d], ".");
  }

  /**
   * The value of a `term` query on an `ip` field: an address, read as the network holding
   * that address alone, or `address/prefix` with a decimal prefix length of at most 32,
   * read as the network of that address under the prefix (its host bits ignored). None
   * when the text is neither.
   */
  function ParseNetwork(s: string): (r: Option<(Addr, nat)>)
    ensures r.Some? ==> r.value.1 <= 32
  {
    var parts := Split(s, "/");
    if |parts| == 1 then
      match ParseAddress(s)
      case Some(x) => Some((x, 32))
      case None => None
    else if |parts| == 2 then
      match (ParseAddress(parts[0]), ParseNat(parts[1]))
      case (Some(x), Some(p)) => if p <= 32 then Some((x, p)) else None
      case _ => None
    else None
  }

  /** The address lies in the network: it agrees with the network's address on the first `p` bits. */
  predicate InNetwork(y: Addr, net: (Addr, nat))
    requires net.1 <= 32
  {
    Network(y, net.1) == Network(net.0, net.1)
  }

  /** A plain address as a query is the network of that address alone: it holds exactly that address. */
  lemma SingleAddressNetwork(x: Addr, y: Addr)
    ensures ParseNetwork(Format(x)) == Some((x, 32))
    ensures InNetwork(y, (x, 32)) <==> y == x
  {
    FormatNoSlash(x);
    SplitJoin([Format(x)], "/");
    ParseFormat(x);
    assert Network(y, 32) == y && Network(x, 32) == x;
  }

  /**
   * A network string, as a query, is read back as that network, and it holds the address
   * it was formed from.
   */
  lemma NetworkStringParses(x: Addr, p: nat)
    requires p <= 32
    ensures ParseNetwork(NetworkString(x, p)) == Some((Network(x, p), p))
    ensures InNetwork(x, (Network(x, p), p))
  {
    var n := Network(x, p);
    var digits := NatToString(p);
    FormatNoSlash(n);
    assert Join([Format(n), digits], "/") == NetworkString(x, p);
    SplitJoin([Format(n), digits], "/");
    ParseFormat(n);
    ParseNatToString(p);
    NetworkIdempotent(x, p);
  }
}
