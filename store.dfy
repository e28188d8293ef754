/**
 * The document store, abstracted: one Elasticsearch index is a map from document id to
 * its source fields, together with the order in which a search returns the documents.
 * `get`, index (`save`), partial `update` and the first hit of a filtered search are
 * operations on that map.
 */
module Store {
  import opened Wrappers
  import opened Values

  class Index {
    var docs: map<string, Fields>
    /** The order in which a search lists the stored documents. */
    var order: seq<string>

    ghost predicate Valid()
      reads this
    {
      forall id :: id in docs <==> id in order
    }

    constructor ()
      ensures Valid() && docs == map[] && order == []
    {
      docs := map[];
      order := [];
    }

    /** `Doc.get(id, ignore=404)`: the stored source, or None when there is no such document. */
    function Get(id: string): (r: Option<Fields>)
      reads this
      ensures r.Some? <==> id in docs
      ensures r.Some? ==> r.value == docs[id]
    {
      if id in docs then Some(docs[id]) else None
    }

    /** Indexing a whole document under `id`, replacing any document stored there. */
    method Put(id: string, f: Fields)
      requires Valid()
      modifies this
      ensures Valid()
      ensures docs == old(docs)[id := f]
      ensures order == if id in old(docs) then old(order) else old(order) + [id]
    {
      if id !in docs {
        order := order + [id];
      }
      docs := docs[id := f];
    }

    /**
     * A partial update: the given fields replace or join those of the stored document.
     * A missing document is Elasticsearch's NotFoundError; then nothing changes.
     */
    method Patch(id: string, upd: Fields) returns (found: bool)
      requires Valid()
      modifies this
      ensures Valid()
      ensures found == (id in old(docs))
      ensures docs == if found then old(docs)[id := old(docs)[id] + upd] else old(docs)
      ensures order == old(order)
    {
      found := id in docs;
      if found {
        docs := docs[id := docs[id] + upd];
      }
    }
  }

  /**
   * The stored document agrees with `probe` on every key in `keys`: a conjunction of
   * `term` filters, one per key, each asking for the probe's single value. Callers pass
   * only keys the probe holds, as one value (a `term` filter on a missing value is
   * refused before it is searched); a stored document lacking such a key does not agree.
   */
  predicate Agrees(stored: Fields, probe: Fields, keys: set<string>) {
    forall k :: k in keys ==> (k in stored <==> k in probe) && (k in probe ==> stored[k] == probe[k])
  }

  /** No document listed before position `i` agrees with `probe` on `keys`. */
  predicate NoneBefore(order: seq<string>, docs: map<string, Fields>, probe: Fields, keys: set<string>, i: int)
    requires 0 <= i <= |order|
  {
    forall j :: 0 <= j < i && order[j] in docs ==> !Agrees(docs[order[j]], probe, keys)
  }

  /** The id of the first document, in search order, that agrees with `probe` on `keys`. */
  function FirstMatch(order: seq<string>, docs: map<string, Fields>, probe: Fields, keys: set<string>): (r: Option<string>)
    ensures r.Some? ==> r.value in order && r.value in docs && Agrees(docs[r.value], probe, keys)
    ensures r.Some? ==> exists i :: 0 <= i < |order| && order[i] == r.value && NoneBefore(order, docs, probe, keys, i)
    ensures r.None? ==> NoneBefore(order, docs, probe, keys, |order|)
  {
    if order == [] then None
    else if order[0] in docs && Agrees(docs[order[0]], probe, keys) then
      assert order[0] == order[0];
      Some(order[0])
    else
      var r := FirstMatch(order[1..], docs, probe, keys);
      if r.Some? then
        var i :| 0 <= i < |order[1..]| && order[1..][i] == r.value && NoneBefore(order[1..], docs, probe, keys, i);
        assert order[i + 1] == r.value;
        assert NoneBefore(order, docs, probe, keys, i + 1) by {
          forall j | 0 <= j < i + 1 && order[j] in docs ensures !Agrees(docs[order[j]], probe, keys) {
            if j > 0 { assert order[j] == order[1..][j - 1]; }
          }
        }
        Some(r.value)
      else
        assert NoneBefore(order, docs, probe, keys, |order|) by {
          forall j | 0 <= j < |order| && order[j] in docs ensures !Agrees(docs[order[j]], probe, keys) {
            if j > 0 { assert order[j] == order[1..][j - 1]; }
          }
        }
        r
  }

  /**
   * The search order `o1` keeps `o0` as it was and appends, each once, ids that were not
   * stored in `d0`. With both stores valid, the ids appended are exactly those new to the
   * store: filing a document lists it last when its id is new, and moves nothing.
   */
  predicate Appended(o0: seq<string>, d0: map<string, Fields>, o1: seq<string>) {
    |o0| <= |o1| && o1[..|o0|] == o0 &&
    (forall j | |o0| <= j < |o1| :: o1[j] !in d0) &&
    (forall j, k | |o0| <= j < k < |o1| :: o1[j] != o1[k])
  }

  /** Two stretches of filing, one after the other, append as one. */
  lemma AppendedTrans(o0: seq<string>, d0: map<string, Fields>, o1: seq<string>, d1: map<string, Fields>, o2: seq<string>)
    requires Appended(o0, d0, o1) && Appended(o1, d1, o2)
    requires forall id :: id in d0 ==> id in d1
    requires forall id :: id in d1 <==> id in o1
    ensures Appended(o0, d0, o2)
  {
    assert o2[..|o0|] == o1[..|o0|];
    forall j | |o0| <= j < |o2| ensures o2[j] !in d0 {
      if j < |o1| {
        assert o2[j] == o2[..|o1|][j];
      }
    }
    forall j, k | |o0| <= j < k < |o2| ensures o2[j] != o2[k] {
      if k < |o1| {
        assert o2[j] == o2[..|o1|][j] && o2[k] == o2[..|o1|][k];
      } else if j < |o1| {
        assert o2[j] == o2[..|o1|][j];
        assert o2[j] in d1;
      }
    }
  }
}
