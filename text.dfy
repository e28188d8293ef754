/**
 * The Python string operations the importers rely on, on `string = seq<char>`:
 * `str.split(sep)`, `sep.join(parts)`, `str.strip()`, `startswith`/`endswith`,
 * substring search, and decimal digit strings (`int(s)`, `str(n)`).
 */
module Text {
  import opened Wrappers

  predicate StartsWith(s: string, prefix: string) {
    |prefix| <= |s| && s[..|prefix|] == prefix
  }

  predicate EndsWith(s: string, suffix: string) {
    |suffix| <= |s| && s[|s| - |suffix|..] == suffix
  }

  /** `t` occurs in `s` starting at position `i`. */
  predicate OccursAt(s: string, t: string, i: int) {
    0 <= i <= |s| - |t| && s[i..i + |t|] == t
  }

  /** `t` occurs somewhere inside `s`. */
  predicate Contains(s: string, t: string) {
    exists i | 0 <= i <= |s| - |t| :: OccursAt(s, t, i)
  }

  // ---------------------------------------------------------------- split / join

  /**
   * Python's `s.split(sep)` for a non-empty separator: scanning from the left,
   * every occurrence of `sep` ends one piece and starts the next.
   */
  function Split(s: string, sep: string): (r: seq<string>)
    requires sep != []
    ensures |r| >= 1
    decreases |s|
  {
    if |s| < |sep| then [s]
    else if s[..|sep|] == sep then [""] + Split(s[|sep|..], sep)
    else
      var rest := Split(s[1..], sep);
      [[s[0]] + rest[0]] + rest[1..]
  }

  /** Python's `sep.join(parts)`. */
  function Join(parts: seq<string>, sep: string): string
  {
    if |parts| == 0 then ""
    else if |parts| == 1 then parts[0]
    else parts[0] + sep + Join(parts[1..], sep)
  }

  /** Joining the pieces of a split with the same separator gives the original string back. */
  lemma {:induction false} JoinSplit(s: string, sep: string)
    requires sep != []
    ensures Join(Split(s, sep), sep) == s
    decreases |s|
  {
    if |s| < |sep| {
    } else if s[..|sep|] == sep {
      var rest := Split(s[|sep|..], sep);
      JoinSplit(s[|sep|..], sep);
      assert Split(s, sep) == [""] + rest;
      assert ([""] + rest)[1..] == rest;
      assert s == sep + s[|sep|..];
    } else {
      var rest := Split(s[1..], sep);
      JoinSplit(s[1..], sep);
      assert Split(s, sep) == [[s[0]] + rest[0]] + rest[1..];
      JoinPrepend(s[0], rest, sep);
      assert s == [s[0]] + s[1..];
    }
  }

  /** A character put in front of the first piece ends up in front of the join. */
  lemma JoinPrepend(c: char, parts: seq<string>, sep: string)
    requires parts != []
    ensures Join([[c] + parts[0]] + parts[1..], sep) == [c] + Join(parts, sep)
  {
    var r := [[c] + parts[0]] + parts[1..];
    assert r[0] == [c] + parts[0] && r[1..] == parts[1..];
    if |parts| > 1 {
      assert Join(parts, sep) == parts[0] + sep + Join(parts[1..], sep);
    }
  }

  /** A string in which the separator does not occur splits into itself alone. */
  lemma {:induction false} SplitNoOccurrence(x: string, sep: string)
    requires sep != []
    requires forall i :: 0 <= i < |x| ==> !OccursAt(x, sep, i)
    ensures Split(x, sep) == [x]
    decreases |x|
  {
    if |x| >= |sep| {
      assert !OccursAt(x, sep, 0);
      forall i | 0 <= i < |x[1..]| ensures !OccursAt(x[1..], sep, i) {
        assert !OccursAt(x, sep, i + 1);
        if i + |sep| <= |x[1..]| { assert x[1..][i..i + |sep|] == x[i + 1..i + 1 + |sep|]; }
      }
      SplitNoOccurrence(x[1..], sep);
      assert [x[0]] + x[1..] == x;
    }
  }

  /**
   * A leading piece in which no occurrence of the separator starts is split off whole,
   * the separator after it dropped.
   */
  lemma {:induction false} SplitLead(x: string, sep: string, y: string)
    requires sep != []
    requires forall i :: 0 <= i < |x| ==> !OccursAt(x + sep + y, sep, i)
    ensures Split(x + sep + y, sep) == [x] + Split(y, sep)
    decreases |x|
  {
    var s := x + sep + y;
    if x == [] {
      assert s[..|sep|] == sep && s[|sep|..] == y;
    } else {
      assert !OccursAt(s, sep, 0);
      assert s[1..] == x[1..] + sep + y;
      forall i | 0 <= i < |x[1..]| ensures !OccursAt(x[1..] + sep + y, sep, i) {
        assert !OccursAt(s, sep, i + 1);
        if i + |sep| <= |s[1..]| { assert s[1..][i..i + |sep|] == s[i + 1..i + 1 + |sep|]; }
      }
      SplitLead(x[1..], sep, y);
      assert [x[0]] + x[1..] == x;
    }
  }

  /**
   * Splitting a join of pieces that do not contain the separator's first character gives
   * the pieces back.
   */
  lemma {:induction false} SplitJoin(parts: seq<string>, sep: string)
    requires parts != [] && sep != []
    requires forall k :: 0 <= k < |parts| ==> sep[0] !in parts[k]
    ensures Split(Join(parts, sep), sep) == parts
    decreases |parts|
  {
    var x := parts[0];
    if |parts| == 1 {
      forall i | 0 <= i < |x| ensures !OccursAt(x, sep, i) {
        assert x[i] != sep[0];
      }
      SplitNoOccurrence(x, sep);
    } else {
      var y := Join(parts[1..], sep);
      forall i | 0 <= i < |x| ensures !OccursAt(x + sep + y, sep, i) {
        assert (x + sep + y)[i] == x[i] != sep[0];
      }
      SplitJoin(parts[1..], sep);
      SplitLead(x, sep, y);
      assert parts == [x] + parts[1..];
    }
  }

  /** The last piece of a split on a character is whatever follows the last occurrence of it. */
  lemma {:induction false} SplitLastPiece(x: string, c: char, y: string)
    requires c !in y
    ensures var r := Split(x + [c] + y, [c]); r[|r| - 1] == y
    decreases |x|
  {
    var s := x + [c] + y;
    if x == [] {
      assert s[..1] == [c] && s[1..] == y;
      forall i | 0 <= i < |y| ensures !OccursAt(y, [c], i) { assert y[i] != c; }
      SplitNoOccurrence(y, [c]);
    } else {
      var t := x[1..] + [c] + y;
      assert s[1..] == t;
      SplitLastPiece(x[1..], c, y);
      JoinSplit(t, [c]);
      assert t[|x| - 1] == c;
      assert s[..1] == [x[0]];
    }
  }

  /** Number of occurrences of the character `c` in `s`. */
  function Count(s: string, c: char): nat
  {
    if s == [] then 0 else (if s[0] == c then 1 else 0) + Count(s[1..], c)
  }

  /**
   * Splitting on one character gives one more piece than there are occurrences of
   * that character, and no piece contains it.
   */
  lemma {:induction false} SplitOnChar(s: string, c: char)
    ensures |Split(s, [c])| == Count(s, c) + 1
    ensures forall k :: 0 <= k < |Split(s, [c])| ==> c !in Split(s, [c])[k]
    decreases |s|
  {
    if s == [] {
    } else if s[..1] == [c] {
      SplitOnChar(s[1..], c);
      assert s[0] == c;
      var rest := Split(s[1..], [c]);
      assert Split(s, [c]) == [""] + rest;
    } else {
      SplitOnChar(s[1..], c);
      assert s[0] != c by { assert s[..1] == [s[0]]; }
      var rest := Split(s[1..], [c]);
      var r := [[s[0]] + rest[0]] + rest[1..];
      assert Split(s, [c]) == r;
      forall k | 0 <= k < |r| ensures c !in r[k] {
        if k > 0 { assert r[k] == rest[k]; }
      }
    }
  }

  /** `filter(None, parts)`: the non-empty pieces, in order. */
  function NonEmpty(parts: seq<string>): (r: seq<string>)
    ensures forall k :: 0 <= k < |r| ==> r[k] != ""
  {
    if parts == [] then []
    else if parts[0] == "" then NonEmpty(parts[1..])
    else [parts[0]] + NonEmpty(parts[1..])
  }

  /** `filter(None, parts)` keeps exactly the non-empty pieces. */
  lemma {:induction false} NonEmptyMembers(parts: seq<string>)
    ensures forall x :: x in NonEmpty(parts) <==> x in parts && x != ""
  {
    if parts != [] {
      NonEmptyMembers(parts[1..]);
      assert forall x :: x in parts <==> x == parts[0] || x in parts[1..];
    }
  }

  /** `filter(None, parts)` keeps a list without empty pieces as it is. */
  lemma {:induction false} NonEmptyKeepsAll(parts: seq<string>)
    requires forall k :: 0 <= k < |parts| ==> parts[k] != ""
    ensures NonEmpty(parts) == parts
  {
    if parts != [] {
      NonEmptyKeepsAll(parts[1..]);
      assert parts == [parts[0]] + parts[1..];
    }
  }

  /** A join of non-empty pieces starts with the first piece's first character and ends with the last piece's last. */
  lemma {:induction false} JoinEnds(parts: seq<string>, sep: string)
    requires parts != [] && forall k :: 0 <= k < |parts| ==> parts[k] != ""
    ensures var s := Join(parts, sep); s != [] && s[0] == parts[0][0] && s[|s| - 1] == parts[|parts| - 1][|parts[|parts| - 1]| - 1]
  {
    if |parts| > 1 {
      JoinEnds(parts[1..], sep);
      var rest := Join(parts[1..], sep);
      assert Join(parts, sep) == parts[0] + sep + rest;
    }
  }

  // ---------------------------------------------------------------- strip

  /** The characters Python's `str.strip()` removes: those `str.isspace()` accepts. */
  predicate IsSpace(c: char) {
    c == ' ' || c == '\t' || c == '\n' || c == '\r' || c == '\U{B}' || c == '\U{C}'
    || c == '\U{1C}' || c == '\U{1D}' || c == '\U{1E}' || c == '\U{1F}'
    || c == '\U{85}' || c == '\U{A0}' || c == '\U{1680}' || ('\U{2000}' <= c <= '\U{200A}')
    || c == '\U{2028}' || c == '\U{2029}' || c == '\U{202F}' || c == '\U{205F}' || c == '\U{3000}'
  }

  /** `s.lstrip()`. */
  function StripLeft(s: string): string
  {
    if s != [] && IsSpace(s[0]) then StripLeft(s[1..]) else s
  }

  /** `s.rstrip()`. */
  function StripRight(s: string): string
  {
    if s != [] && IsSpace(s[|s| - 1]) then StripRight(s[..|s| - 1]) else s
  }

  /** `lstrip()` drops a run of whitespace from the front and leaves the rest as it is. */
  lemma {:induction false} StripLeftSpec(s: string)
    ensures var r := StripLeft(s);
      |r| <= |s| && r == s[|s| - |r|..] && (r == [] || !IsSpace(r[0])) &&
      forall k :: 0 <= k < |s| - |r| ==> IsSpace(s[k])
    decreases |s|
  {
    if s != [] && IsSpace(s[0]) {
      StripLeftSpec(s[1..]);
      var r := StripLeft(s[1..]);
      assert s[1..][|s| - 1 - |r|..] == s[|s| - |r|..];
      forall k | 0 <= k < |s| - |r| ensures IsSpace(s[k]) {
        if k > 0 {
          assert s[k] == s[1..][k - 1];
        }
      }
    }
  }

  /** `rstrip()` drops a run of whitespace from the back and leaves the rest as it is. */
  lemma {:induction false} StripRightSpec(s: string)
    ensures var r := StripRight(s);
      |r| <= |s| && r == s[..|r|] && (r == [] || !IsSpace(r[|r| - 1])) &&
      forall k :: |r| <= k < |s| ==> IsSpace(s[k])
    decreases |s|
  {
    if s != [] && IsSpace(s[|s| - 1]) {
      StripRightSpec(s[..|s| - 1]);
      var r := StripRight(s[..|s| - 1]);
      assert s[..|s| - 1][..|r|] == s[..|r|];
      forall k | |r| <= k < |s| ensures IsSpace(s[k]) {
        if k < |s| - 1 {
          assert s[k] == s[..|s| - 1][k];
        }
      }
    }
  }

  /** Python's `s.strip()`: whitespace removed from both ends. */
  function Strip(s: string): string
  {
    StripRight(StripLeft(s))
  }

  /** What `strip()` leaves neither starts nor ends with whitespace. */
  lemma StripEnds(s: string)
    ensures var r := Strip(s); r == [] || (!IsSpace(r[0]) && !IsSpace(r[|r| - 1]))
  {
    var l := StripLeft(s);
    StripLeftSpec(s);
    StripRightSpec(l);
    var r := StripRight(l);
    if r != [] {
      assert r[0] == l[0];
    }
  }

  /** What `strip()` leaves is a slice of the string. */
  lemma StripSlice(s: string)
    ensures Contains(s, Strip(s))
  {
    var l := StripLeft(s);
    var r := StripRight(l);
    StripLeftSpec(s);
    StripRightSpec(l);
    var i := |s| - |l|;
    assert r == s[i..i + |r|] by {
      forall k | 0 <= k < |r| ensures r[k] == s[i + k] {
        assert r[k] == l[k] == s[i..][k];
      }
    }
    assert OccursAt(s, r, i);
  }

  /** A string that neither starts nor ends with whitespace is its own strip. */
  lemma StripUnchanged(s: string)
    requires s == [] || (!IsSpace(s[0]) && !IsSpace(s[|s| - 1]))
    ensures Strip(s) == s
  {
    assert StripLeft(s) == s;
    assert StripRight(s) == s;
  }

  // ---------------------------------------------------------------- decimal digits

  predicate IsDigit(c: char) { '0' <= c <= '9' }

  predicate AllDigits(s: string) { forall k :: 0 <= k < |s| ==> IsDigit(s[k]) }

  function DigitValue(c: char): nat
    requires IsDigit(c)
  {
    c as nat - '0' as nat
  }

  function DigitChar(d: nat): (c: char)
    requires d < 10
    ensures IsDigit(c) && DigitValue(c) == d
  {
    ('0' as nat + d) as char
  }

  /** The value of a string of decimal digits, read most significant first. */
  function DigitsValue(s: string): nat
    requires AllDigits(s)
  {
    if s == [] then 0 else DigitsValue(s[..|s| - 1]) * 10 + DigitValue(s[|s| - 1])
  }

  /** `int(s)` restricted to plain digit strings: None when `s` is empty or holds a non-digit. */
  function ParseNat(s: string): (r: Option<nat>)
    ensures r.Some? <==> s != [] && AllDigits(s)
  {
    if s != [] && AllDigits(s) then Some(DigitsValue(s)) else None
  }

  /** `str(n)` for a natural number: its decimal digits, without leading zeros. */
  function NatToString(n: nat): (s: string)
    ensures s != [] && AllDigits(s)
    ensures s[0] == '0' ==> n == 0
    decreases n
  {
    if n < 10 then [DigitChar(n)] else NatToString(n / 10) + [DigitChar(n % 10)]
  }

  /** Reading back the decimal text of a number gives the number. */
  lemma {:induction false} ParseNatToString(n: nat)
    ensures DigitsValue(NatToString(n)) == n
    ensures ParseNat(NatToString(n)) == Some(n)
    decreases n
  {
    if n >= 10 {
      ParseNatToString(n / 10);
      var s := NatToString(n);
      assert s[..|s| - 1] == NatToString(n / 10);
    }
  }

  /** Numbers below 1000 have at most three digits. */
  lemma NatToStringShort(n: nat)
    requires n < 1000
    ensures |NatToString(n)| <= 3
  {
    if n >= 10 {
      var m := n / 10;
      assert m < 100;
      assert NatToString(n) == NatToString(m) + [DigitChar(n % 10)];
      if m >= 10 {
        assert m / 10 < 10;
        assert NatToString(m) == NatToString(m / 10) + [DigitChar(m % 10)];
      }
    }
  }

  /** A digit string whose first digit is not 0 has a positive value. */
  lemma {:induction false} LeadingDigitPositive(s: string)
    requires s != [] && AllDigits(s) && s[0] != '0'
    ensures DigitsValue(s) > 0
    decreases |s|
  {
    if |s| > 1 {
      LeadingDigitPositive(s[..|s| - 1]);
    } else {
      assert DigitValue(s[0]) > 0;
    }
  }

  /** A canonical digit string (no leading zero unless it is "0") is the text of its value. */
  lemma {:induction false} NatToStringOfDigits(s: string)
    requires s != [] && AllDigits(s) && (|s| > 1 ==> s[0] != '0')
    ensures NatToString(DigitsValue(s)) == s
    decreases |s|
  {
    var n := DigitsValue(s);
    if |s| == 1 {
      assert DigitChar(DigitValue(s[0])) == s[0];
    } else {
      var p := s[..|s| - 1];
      LeadingDigitPositive(p);
      NatToStringOfDigits(p);
      assert n / 10 == DigitsValue(p) && n % 10 == DigitValue(s[|s| - 1]);
      assert DigitChar(DigitValue(s[|s| - 1])) == s[|s| - 1];
      assert s == p + [s[|s| - 1]];
    }
  }
}
