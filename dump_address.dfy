/**
 * The address in a dump's file name, as jackal/scripts/secretsdump.py reads it: the
 * first text matching `\d{1,3}\.\d{1,3}\.\d{1,3}\.\d{1,3}`, with the usual leftmost,
 * greedy match. `\d` is read as the ASCII digits only; Python's `re` also matches the
 * other Unicode decimal digits, which this model does not.
 */
module DumpAddress {
  import opened Wrappers
  import opened Text
  import Ipv4

  /** The length of the run of ASCII digits that starts at `i`. */
  function DigitRun(s: string, i: nat): (n: nat)
    requires i <= |s|
    ensures i + n <= |s|
    ensures forall k :: i <= k < i + n ==> IsDigit(s[k])
    ensures i + n == |s| || !IsDigit(s[i + n])
    decreases |s| - i
  {
    if i < |s| && IsDigit(s[i]) then 1 + DigitRun(s, i + 1) else 0
  }

  /** A run of digits that is all of `s[i..i + n]` and stops there has length `n`. */
  lemma {:induction false} DigitRunIs(s: string, i: nat, n: nat)
    requires i + n <= |s|
    requires forall k :: i <= k < i + n ==> IsDigit(s[k])
    requires i + n == |s| || !IsDigit(s[i + n])
    ensures DigitRun(s, i) == n
    decreases n
  {
    if n > 0 {
      DigitRunIs(s, i + 1, n - 1);
    }
  }

  /** One group of the pattern: one to three digits. */
  predicate Group(g: string) {
    1 <= |g| <= 3 && AllDigits(g)
  }

  /** Four groups joined by dots. */
  function Dotted(g0: string, g1: string, g2: string, g3: string): string
  {
    Join([g0, g1, g2, g3], ".")
  }

  /** The dots of `Dotted`, written out. */
  lemma DottedParts(g0: string, g1: string, g2: string, g3: string)
    ensures Dotted(g0, g1, g2, g3) == g0 + "." + (g1 + "." + (g2 + "." + g3))
  {
    var g := [g0, g1, g2, g3];
    assert g[1..] == [g1, g2, g3];
    assert [g1, g2, g3][1..] == [g2, g3];
    assert [g2, g3][1..] == [g3];
    assert Join([g2, g3], ".") == g2 + "." + g3;
    assert Join([g1, g2, g3], ".") == g1 + "." + (g2 + "." + g3);
  }

  /**
   * Where one of the first three groups of the pattern, `\d{1,3}\.`, starting at `i`
   * ends (after its dot): the run of digits there must be whole and one to three long,
   * since cutting it short would leave a digit where the dot is wanted.
   */
  function DotGroup(s: string, i: nat): (r: Option<nat>)
    requires i <= |s|
    ensures r.Some? ==> i + 2 <= r.value <= |s| && Group(s[i..r.value - 1]) && s[r.value - 1] == '.'
  {
    var n := DigitRun(s, i);
    if 1 <= n <= 3 && i + n < |s| && s[i + n] == '.' then Some(i + n + 1) else None
  }

  /** The last group of the pattern starting at `l`: up to three digits, taken greedily. */
  function LastGroup(s: string, l: nat): (r: Option<nat>)
    requires l <= |s|
    ensures r.Some? ==> l < r.value <= |s| && Group(s[l..r.value])
  {
    var n := DigitRun(s, l);
    if n == 0 then None else Some(l + (if n <= 3 then n else 3))
  }

  /**
   * Where a match of `\d{1,3}\.\d{1,3}\.\d{1,3}\.\d{1,3}` starting at `i` ends, if
   * there is one: three dotted groups, then the last group.
   */
  function QuadEnd(s: string, i: nat): (r: Option<nat>)
    requires i <= |s|
    ensures r.Some? ==> i < r.value <= |s|
  {
    match DotGroup(s, i)
    case None => None
    case Some(j) =>
      match DotGroup(s, j)
      case None => None
      case Some(k) =>
        match DotGroup(s, k)
        case None => None
        case Some(l) => LastGroup(s, l)
  }

  /** Where a match starting at each position of `s` (its end included) ends. */
  function Matches(s: string): (m: seq<Option<nat>>)
    ensures |m| == |s| + 1
    ensures forall q :: 0 <= q <= |s| ==> m[q] == QuadEnd(s, q)
  {
    seq(|s| + 1, q requires 0 <= q <= |s| => QuadEnd(s, q))
  }

  /** The first position, from `i` on, where a match starts. */
  function FirstSome(m: seq<Option<nat>>, i: nat): (r: Option<nat>)
    requires i <= |m|
    ensures r.Some? ==> i <= r.value < |m| && m[r.value].Some?
    decreases |m| - i
  {
    if i == |m| then None
    else if m[i].Some? then Some(i)
    else FirstSome(m, i + 1)
  }

  /** No match starts before the one `FirstSome` finds, nor anywhere when it finds none. */
  lemma {:induction false} FirstSomeIsFirst(m: seq<Option<nat>>, i: nat, q: nat)
    requires i <= q < |m|
    requires FirstSome(m, i).None? || q < FirstSome(m, i).value
    ensures m[q].None?
    decreases q - i
  {
    if i < q {
      FirstSomeIsFirst(m, i + 1, q);
    }
  }

  /** When no match starts between `i` and `p` and one starts at `p`, the first match from `i` is at `p`. */
  lemma {:induction false} FindFrom(m: seq<Option<nat>>, i: nat, p: nat)
    requires i <= p < |m| && m[p].Some?
    requires forall q :: i <= q < p ==> m[q].None?
    ensures FirstSome(m, i) == Some(p)
    decreases p - i
  {
    if i < p {
      FindFrom(m, i + 1, p);
    }
  }

  /**
   * The host address of a dump, `re.findall(pattern, filename)[0]`: the text of the
   * first match; None when nothing in the name matches.
   */
  function HostIp(filename: string): (r: Option<string>)
  {
    var m := Matches(filename);
    match FirstSome(m, 0)
    case None => None
    case Some(p) => Some(filename[p..m[p].value])
  }

  /** The text of a match is four groups of one to three digits joined by dots. */
  lemma QuadShape(s: string, i: nat)
    requires i <= |s| && QuadEnd(s, i).Some?
    ensures exists g0, g1, g2, g3 ::
      (Group(g0) && Group(g1) && Group(g2) && Group(g3) &&
       s[i..QuadEnd(s, i).value] == Dotted(g0, g1, g2, g3))
  {
    var j := DotGroup(s, i).value;
    var k := DotGroup(s, j).value;
    var l := DotGroup(s, k).value;
    var e := QuadEnd(s, i).value;
    var g0, g1, g2, g3 := s[i..j - 1], s[j..k - 1], s[k..l - 1], s[l..e];
    Glue(s, k, l, e);
    Glue(s, j, k, e);
    Glue(s, i, j, e);
    DottedParts(g0, g1, g2, g3);
  }

  /** A slice with a dot in it is the text before the dot, the dot, and the text after it. */
  lemma Glue(s: string, i: nat, j: nat, e: nat)
    requires i < j <= e <= |s| && s[j - 1] == '.'
    ensures s[i..e] == s[i..j - 1] + "." + s[j..e]
  {
    assert s[j - 1..j] == ".";
    assert s[i..e] == s[i..j - 1] + s[j - 1..j] + s[j..e];
  }

  /** The converse of `Glue`. */
  lemma Peel(s: string, i: nat, e: nat, g: string, rest: string)
    requires i <= e <= |s| && s[i..e] == g + "." + rest
    ensures i + |g| < e && s[i..i + |g|] == g && s[i + |g|] == '.' && s[i + |g| + 1..e] == rest
  {
    var t := s[i..e];
    assert t[..|g|] == g;
    assert t[|g|] == '.';
    assert t[|g| + 1..] == rest;
  }

  /** Positions whose character is not a digit start no match. */
  lemma NoMatchAtNonDigit(s: string, q: nat)
    requires q < |s| && !IsDigit(s[q])
    ensures QuadEnd(s, q).None?
  {
    assert DigitRun(s, q) == 0;
  }

  /** A dotted group written at `i` is read as one. */
  lemma DotGroupAt(s: string, i: nat, g: string)
    requires Group(g) && i + |g| < |s| && s[i..i + |g|] == g && s[i + |g|] == '.'
    ensures DotGroup(s, i) == Some(i + |g| + 1)
  {
    forall t | i <= t < i + |g| ensures IsDigit(s[t]) {
      assert s[t] == g[t - i];
    }
    DigitRunIs(s, i, |g|);
  }

  /** A last group written at `l`, followed by no digit, is read whole. */
  lemma LastGroupAt(s: string, l: nat, g: string)
    requires Group(g) && l + |g| <= |s| && s[l..l + |g|] == g && (l + |g| == |s| || !IsDigit(s[l + |g|]))
    ensures LastGroup(s, l) == Some(l + |g|)
  {
    forall t | l <= t < l + |g| ensures IsDigit(s[t]) {
      assert s[t] == g[t - l];
    }
    DigitRunIs(s, l, |g|);
  }

  /**
   * A file named by an address between a digit-free prefix and a suffix that does not
   * start with a digit (`dump_10.0.0.5.ntds`) gives exactly that address.
   */
  lemma HostIpOfAddress(prefix: string, x: Ipv4.Addr, suffix: string)
    requires forall k :: 0 <= k < |prefix| ==> !IsDigit(prefix[k])
    requires suffix == [] || !IsDigit(suffix[0])
    ensures HostIp(prefix + Ipv4.Format(x) + suffix) == Some(Ipv4.Format(x))
  {
    var t := Ipv4.Format(x);
    var s := prefix + t + suffix;
    var i, e := |prefix|, |prefix| + |t|;
    assert s[i..e] == t;
    assert e == |s| || s[e] == suffix[0];
    NatToStringShort(x.a);
    NatToStringShort(x.b);
    NatToStringShort(x.c);
    NatToStringShort(x.d);
    QuadOfDotted(s, i, e, NatToString(x.a), NatToString(x.b), NatToString(x.c), NatToString(x.d));
    var m := Matches(s);
    forall q | 0 <= q < i ensures m[q].None? {
      assert s[q] == prefix[q];
      NoMatchAtNonDigit(s, q);
    }
    FindFrom(m, 0, i);
  }

  /** Four groups written out from `i` to `e`, followed by no digit, are a match from `i` to `e`. */
  lemma QuadOfDotted(s: string, i: nat, e: nat, g0: string, g1: string, g2: string, g3: string)
    requires Group(g0) && Group(g1) && Group(g2) && Group(g3)
    requires i <= e <= |s| && s[i..e] == Dotted(g0, g1, g2, g3)
    requires e == |s| || !IsDigit(s[e])
    ensures QuadEnd(s, i) == Some(e)
  {
    DottedParts(g0, g1, g2, g3);
    var j := GroupThenDot(s, i, e, g0, g1 + "." + (g2 + "." + g3));
    var k := GroupThenDot(s, j, e, g1, g2 + "." + g3);
    var l := GroupThenDot(s, k, e, g2, g3);
    LastGroupAt(s, l, g3);
  }

  /** A group and a dot written at `i` are read as a dotted group, and the reading goes on after the dot. */
  lemma GroupThenDot(s: string, i: nat, e: nat, g: string, rest: string) returns (j: nat)
    requires Group(g) && i <= e <= |s| && s[i..e] == g + "." + rest
    ensures j == i + |g| + 1 && DotGroup(s, i) == Some(j) && j <= e && s[j..e] == rest
  {
    Peel(s, i, e, g, rest);
    DotGroupAt(s, i, g);
    j := i + |g| + 1;
  }

  /** The address found is four groups of one to three digits joined by dots. */
  lemma HostIpShape(filename: string)
    requires HostIp(filename).Some?
    ensures exists g0, g1, g2, g3 ::
      (Group(g0) && Group(g1) && Group(g2) && Group(g3) &&
       HostIp(filename).value == Dotted(g0, g1, g2, g3))
  {
    var p := FirstSome(Matches(filename), 0).value;
    QuadShape(filename, p);
  }

  /** When no address is found, no position of the name starts a match. */
  lemma HostIpNone(filename: string, q: nat)
    requires HostIp(filename).None? && q <= |filename|
    ensures QuadEnd(filename, q).None?
  {
    FirstSomeIsFirst(Matches(filename), 0, q);
  }
}
