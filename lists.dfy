/** Sequences without repeated elements, and the first-occurrence filter that produces them. */
module Lists {

  ghost predicate NoDups<T>(s: seq<T>) {
    forall i, j :: 0 <= i < j < |s| ==> s[i] != s[j]
  }

  /** `s` with every repeated element dropped, keeping first occurrences in order. */
  function Dedup<T(==)>(s: seq<T>): (r: seq<T>)
    ensures |r| <= |s|
  {
    if s == [] then []
    else
      var init := s[..|s| - 1];
      var last := s[|s| - 1];
      assert s == init + [last];
      var p := Dedup(init);
      if last in init then p else p + [last]
  }

  /** The dedup has no repeats, and holds exactly the elements of `s`. */
  lemma {:induction false} DedupSpec<T>(s: seq<T>)
    ensures NoDups(Dedup(s))
    ensures forall i :: 0 <= i < |Dedup(s)| ==> Dedup(s)[i] in s
    ensures forall i :: 0 <= i < |s| ==> s[i] in Dedup(s)
  {
    if s != [] {
      var init := s[..|s| - 1];
      var last := s[|s| - 1];
      assert s == init + [last];
      DedupSpec(init);
      var p := Dedup(init);
      forall i | 0 <= i < |s| ensures s[i] in Dedup(s) {
        if i < |init| { assert s[i] == init[i]; }
      }
    }
  }

  /** A sequence that already has no repeats is its own dedup. */
  lemma {:induction false} DedupOfDistinct<T>(s: seq<T>)
    requires NoDups(s)
    ensures Dedup(s) == s
  {
    if s != [] {
      var init := s[..|s| - 1];
      assert NoDups(init);
      DedupOfDistinct(init);
      assert s[|s| - 1] !in init by {
        forall i | 0 <= i < |init| ensures init[i] != s[|s| - 1] {
          assert s[i] == init[i];
        }
      }
      assert s == init + [s[|s| - 1]];
    }
  }

  /** Deduplicating twice is the same as deduplicating once. */
  lemma DedupIdempotent<T>(s: seq<T>)
    ensures Dedup(Dedup(s)) == Dedup(s)
  {
    DedupSpec(s);
    DedupOfDistinct(Dedup(s));
  }

  /** Appending an element that is already present changes nothing. */
  lemma {:induction false} DedupAppendPresent<T>(s: seq<T>, x: T)
    requires x in s
    ensures Dedup(s + [x]) == Dedup(s)
  {
    assert (s + [x])[..|s + [x]| - 1] == s;
  }

  /** Appending elements that are all already present changes nothing. */
  lemma {:induction false} DedupAppendAllPresent<T>(s: seq<T>, t: seq<T>)
    requires forall i :: 0 <= i < |t| ==> t[i] in s
    ensures Dedup(s + t) == Dedup(s)
  {
    if t != [] {
      var init := t[..|t| - 1];
      var x := t[|t| - 1];
      assert s + t == (s + init) + [x];
      assert x in s + init;
      DedupAppendPresent(s + init, x);
      DedupAppendAllPresent(s, init);
    } else {
      assert s + t == s;
    }
  }

  /** What deduplicating `s + [x]` keeps: `x`, every element of `s`, and nothing else. */
  lemma DedupAppendFacts<T>(s: seq<T>, x: T)
    ensures x in Dedup(s + [x])
    ensures forall i :: 0 <= i < |s| ==> s[i] in Dedup(s + [x])
    ensures forall i :: 0 <= i < |Dedup(s + [x])| ==> Dedup(s + [x])[i] in s || Dedup(s + [x])[i] == x
    ensures NoDups(s) && x in s ==> Dedup(s + [x]) == s
  {
    var all := s + [x];
    DedupSpec(all);
    assert all[|s|] == x;
    if NoDups(s) && x in s {
      DedupAppendPresent(s, x);
      DedupOfDistinct(s);
    }
    forall i | 0 <= i < |s| ensures s[i] in Dedup(all) { assert all[i] == s[i]; }
  }
}
