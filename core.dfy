/**
 * The merge and identity engine of jackal/core.py: deriving a candidate's identity,
 * merging it into its stored twin field by field (or saving it as new), get-or-create
 * from a bare id, the search filter grammar, and the readers of piped input.
 */
module Core {
  import opened Wrappers
  import opened Lists
  import opened Text
  import opened Values
  import opened Store
  import opened Documents
  import Ipv4

  // ------------------------------------------------------------------ identity

  /** The fields a stored service must share with a candidate to be its twin. */
  const ServiceIdentity: set<string> := {"address", "protocol", "port", "state"}

  /**
   * The candidate holds one value in each field of the Service identity. Otherwise one of
   * the `term` filters of `object_to_id` carries None (an unset field) or a list, and
   * Elasticsearch refuses the count query with a RequestError that nothing catches.
   */
  predicate ServiceProbe(cand: Fields) {
    forall k :: k in ServiceIdentity ==> k in cand && cand[k].One?
  }

  /** The error `search.count()` raises when a term filter has no single value. */
  const QueryRefused := "RequestError: a term query needs a single value"

  /**
   * `object_to_id`: a Range is identified by its range string and a Host by its
   * address (None when the candidate has none); a Service by the id of the first stored
   * service, in search order, with the same address, protocol, port and state, and the
   * lookup itself fails when the candidate lacks one of these four values.
   */
  function ObjectToId(kind: Kind, order: seq<string>, docs: map<string, Fields>, cand: Fields): (r: Result<Option<string>, string>)
    requires kind.Mapped()
    ensures r.Err? <==> kind == Service && !ServiceProbe(cand)
    ensures kind == Range ==> r == Ok(KeyText(cand, "range"))
    ensures kind == Host ==> r == Ok(KeyText(cand, "address"))
    ensures kind == Service && r.Ok? && r.value.Some? ==>
      r.value.value in docs && Agrees(docs[r.value.value], cand, ServiceIdentity) &&
      exists i :: 0 <= i < |order| && order[i] == r.value.value && NoneBefore(order, docs, cand, ServiceIdentity, i)
    ensures kind == Service && r.Ok? && r.value.None? ==> NoneBefore(order, docs, cand, ServiceIdentity, |order|)
  {
    match kind
    case Range => Ok(KeyText(cand, "range"))
    case Host => Ok(KeyText(cand, "address"))
    case Service => if ServiceProbe(cand) then Ok(FirstMatch(order, docs, cand, ServiceIdentity)) else Err(QueryRefused)
  }

  /**
   * For Host and Range the identity is the key field's value, whatever the store
   * holds: the store plays no part in deriving it.
   */
  lemma DirectIdentityIgnoresStore(kind: Kind, order1: seq<string>, docs1: map<string, Fields>,
                                   order2: seq<string>, docs2: map<string, Fields>, cand: Fields)
    requires kind == Host || kind == Range
    ensures ObjectToId(kind, order1, docs1, cand) == ObjectToId(kind, order2, docs2, cand)
    ensures ObjectToId(kind, order1, docs1, cand) == Ok(KeyText(cand, KeyField(kind).value))
  {
  }

  // ------------------------------------------------------------------ merge

  /** Every stored document of the index is well formed for the kind. */
  predicate StoreWellFormed(kind: Kind, docs: map<string, Fields>)
    requires kind.Mapped()
  {
    forall id :: id in docs ==> WellFormed(kind, docs[id])
  }

  /**
   * Every multi-valued field the candidate carries is unset or a list in the stored
   * fields, so `old.get(key, []).extend(...)` is defined for it.
   */
  predicate Extendable(kind: Kind, prior: Fields, cand: Fields)
    requires kind.Mapped()
  {
    forall k :: k in cand && k in MultiFields(kind) ==> ListOrUnset(prior, k)
  }

  /** A well-formed stored document can take any candidate's lists. */
  lemma WellFormedExtendable(kind: Kind, prior: Fields, cand: Fields)
    requires kind.Mapped() && WellFormed(kind, prior)
    ensures Extendable(kind, prior, cand)
  {
  }

  /** The merged value of one candidate key: a repeat-free union for lists, the candidate's value otherwise. */
  function Combine(kind: Kind, prior: Fields, cand: Fields, k: string): Value
    requires kind.Mapped() && WellFormed(kind, cand) && k in cand
    requires k in MultiFields(kind) ==> ListOrUnset(prior, k)
  {
    if k in MultiFields(kind) then Many(Dedup(ListOr(prior, k) + cand[k].items)) else cand[k]
  }

  /** Dedup keeps exactly the elements of the list it filters, each once. */
  lemma DedupMembers(s: seq<Atom>)
    ensures NoDups(Dedup(s))
    ensures forall x :: x in Dedup(s) <==> x in s
  {
    DedupSpec(s);
    forall x | x in Dedup(s) ensures x in s {
      var i :| 0 <= i < |Dedup(s)| && Dedup(s)[i] == x;
    }
    forall x | x in s ensures x in Dedup(s) {
      var i :| 0 <= i < |s| && s[i] == x;
    }
  }

  /** The members of a combined list field are those of the old list and of the candidate's. */
  lemma CombineMembers(kind: Kind, prior: Fields, cand: Fields)
    requires kind.Mapped() && WellFormed(kind, cand) && Extendable(kind, prior, cand)
    ensures forall k :: k in cand && k in MultiFields(kind) ==>
      Combine(kind, prior, cand, k).Many? && NoDups(Combine(kind, prior, cand, k).items) &&
      forall x :: x in Combine(kind, prior, cand, k).items <==> x in ListOr(prior, k) || x in cand[k].items
  {
    forall k | k in cand && k in MultiFields(kind) {
      DedupMembers(ListOr(prior, k) + cand[k].items);
    }
  }

  /**
   * The update map `merge` builds from the stored fields `prior` and the candidate's
   * fields. It is None when the loop raises: the candidate has a field the mapping does
   * not declare (KeyError on the mapping lookup), or a multi-valued field whose stored
   * value is a single value (AttributeError on `extend`). Otherwise there is one entry per
   * candidate key, where a multi-valued field becomes the repeat-free union of the old
   * list (empty when unset) and the candidate's list, and any other field takes the
   * candidate's value.
   */
  function MergeUpdate(kind: Kind, prior: Fields, cand: Fields): (r: Option<Fields>)
    requires kind.Mapped() && WellFormed(kind, cand)
    ensures r.None? <==> (exists k :: k in cand && k !in Declared(kind)) || !Extendable(kind, prior, cand)
    ensures r.Some? ==> r.value.Keys == cand.Keys
    ensures r.Some? ==> forall k :: k in cand && k in MultiFields(kind) ==>
      ListOrUnset(prior, k) && r.value[k].Many? && NoDups(r.value[k].items) &&
      (forall x :: x in r.value[k].items <==> x in ListOr(prior, k) || x in cand[k].items)
    ensures r.Some? ==> forall k :: k in cand && k !in MultiFields(kind) ==> r.value[k] == cand[k]
  {
    if exists k :: k in cand && k !in Declared(kind) then None
    else if !Extendable(kind, prior, cand) then None
    else
      CombineMembers(kind, prior, cand);
      Some(map k | k in cand :: Combine(kind, prior, cand, k))
  }

  /** How a merge ended. */
  datatype Outcome =
    | Saved(id: string)     // no stored twin: the candidate was saved as a new document
    | Updated(id: string)   // the stored twin received the update
    | LookupRefused         // object_to_id's count query was refused (a Service term without a single value)
    | UpdateRaised          // building the update raised: an undeclared field, or a stored single value in a list field
    | NotUpdated            // Elasticsearch refused the update (nothing to send, or no such document)
  {
    /** `merge` raised instead of writing: nothing was stored. */
    predicate Failed() { !(Saved? || Updated?) }
  }

  /** The stored source of the twin `merge` loads, if the candidate has one. */
  function Twin(kind: Kind, order: seq<string>, docs: map<string, Fields>, cand: Fields): (r: Option<string>)
    requires kind.Mapped()
    ensures r.Some? ==> Loaded(docs, r.value) && r.value != "" && ObjectToId(kind, order, docs, cand) == Ok(r)
  {
    var objectId := ObjectToId(kind, order, docs, cand);
    if objectId.Ok? && objectId.value.Some? && objectId.value.value != "" && Loaded(docs, objectId.value.value)
    then objectId.value else None
  }

  /**
   * What `merge` does to the stored documents of an index: the outcome and the new map.
   * A refused identity lookup changes nothing. Without a twin the candidate is saved
   * (stamped with created_at) under its own id or a generated one; with a twin the update
   * map is sent to the twin's document, unless building it raised.
   */
  function MergeEffect(kind: Kind, order: seq<string>, docs: map<string, Fields>, candId: Option<string>,
                       cand: Fields, now: int, autoId: string): (r: (Outcome, map<string, Fields>))
    requires kind.Mapped() && WellFormed(kind, cand)
    ensures r.0.Saved? ==> r.1.Keys == docs.Keys + {r.0.id}
    ensures !r.0.Saved? ==> r.1.Keys == docs.Keys
    ensures r.0.Updated? ==> r.0.id in docs
    ensures r.0.Failed() ==> r.1 == docs
    ensures r.0 == LookupRefused <==> kind == Service && !ServiceProbe(cand)
    ensures forall id :: id in docs && (r.0.Saved? || r.0.Updated? ==> id != r.0.id) ==> r.1[id] == docs[id]
  {
    if ObjectToId(kind, order, docs, cand).Err? then (LookupRefused, docs)
    else
    var twin := Twin(kind, order, docs, cand);
    if twin.Some? then
      var stored := docs[twin.value];
      var upd := MergeUpdate(kind, DropPrivate(stored), cand);
      if upd.None? then (UpdateRaised, docs)
      else
        var target := InitialId(kind, stored, twin);
        if upd.value != map[] && target.Some? && target.value != "" && target.value in docs then
          (Updated(target.value), docs[target.value := docs[target.value] + upd.value])
        else (NotUpdated, docs)
    else
      var key := StoreKey(SaveId(kind, candId, cand), autoId);
      (Saved(key), docs[key := cand["created_at" := One(Stamp(now))]])
  }

  /** Merging into a store whose documents hold lists in their list fields keeps it so. */
  lemma MergeKeepsWellFormed(kind: Kind, order: seq<string>, docs: map<string, Fields>, candId: Option<string>,
                             cand: Fields, now: int, autoId: string)
    requires kind.Mapped() && WellFormed(kind, cand) && StoreWellFormed(kind, docs)
    ensures StoreWellFormed(kind, MergeEffect(kind, order, docs, candId, cand, now, autoId).1)
  {
    var r := MergeEffect(kind, order, docs, candId, cand, now, autoId);
    if r.0.Updated? {
      var stored := docs[Twin(kind, order, docs, cand).value];
      var upd := MergeUpdate(kind, DropPrivate(stored), cand).value;
      MergedWellFormed(kind, docs[r.0.id], upd);
      StorePut(kind, docs, r.0.id, docs[r.0.id] + upd);
    } else if r.0.Saved? {
      StampedWellFormed(kind, cand, now);
      StorePut(kind, docs, r.0.id, cand["created_at" := One(Stamp(now))]);
    }
  }

  /** For Host and Range, what `merge` does does not depend on the search order: the twin is found by its key alone. */
  lemma MergeIgnoresOrder(kind: Kind, order1: seq<string>, order2: seq<string>, docs: map<string, Fields>,
                          candId: Option<string>, cand: Fields, now: int, autoId: string)
    requires (kind == Host || kind == Range) && WellFormed(kind, cand)
    ensures MergeEffect(kind, order1, docs, candId, cand, now, autoId) == MergeEffect(kind, order2, docs, candId, cand, now, autoId)
  {
    DirectIdentityIgnoresStore(kind, order1, docs, order2, docs, cand);
  }

  lemma StorePut(kind: Kind, docs: map<string, Fields>, id: string, f: Fields)
    requires kind.Mapped() && StoreWellFormed(kind, docs) && WellFormed(kind, f)
    ensures StoreWellFormed(kind, docs[id := f])
  {
  }

  lemma MergedWellFormed(kind: Kind, f: Fields, upd: Fields)
    requires kind.Mapped() && WellFormed(kind, f) && WellFormed(kind, upd)
    ensures WellFormed(kind, f + upd)
  {
  }

  lemma StampedWellFormed(kind: Kind, f: Fields, now: int)
    requires kind.Mapped() && WellFormed(kind, f)
    ensures WellFormed(kind, f["created_at" := One(Stamp(now))])
  {
    assert "created_at" !in MultiFields(kind);
  }

  /**
   * The loop of `merge` that walks the candidate's keys and fills the update map,
   * stopping at the first key the mapping does not declare or whose stored value
   * cannot be extended.
   */
  method BuildUpdate(kind: Kind, oldFields: Fields, newFields: Fields) returns (update: Option<Fields>)
    requires kind.Mapped() && WellFormed(kind, newFields)
    ensures update.Some? ==> update == MergeUpdate(kind, oldFields, newFields)
    ensures update.None? <==> MergeUpdate(kind, oldFields, newFields).None?
  {
    var acc: Fields := map[];
    var keys := newFields.Keys;
    ghost var done: set<string> := {};
    while keys != {}
      invariant keys !! done && keys + done == newFields.Keys
      invariant forall k :: k in done ==> k in Declared(kind) && (k in MultiFields(kind) ==> ListOrUnset(oldFields, k))
      invariant acc.Keys == done
      invariant forall k :: k in done ==> acc[k] == Combine(kind, oldFields, newFields, k)
      decreases keys
    {
      var key :| key in keys;
      if key !in Declared(kind) {
        assert key in newFields && key !in Declared(kind);
        return None;
      }
      if key in MultiFields(kind) {
        if key in oldFields && oldFields[key].One? {
          assert !Extendable(kind, oldFields, newFields);
          return None;
        }
        var value := ListOr(oldFields, key);
        value := value + newFields[key].items;
        acc := acc[key := Many(Dedup(value))];
      } else {
        acc := acc[key := newFields[key]];
      }
      keys := keys - {key};
      done := done + {key};
    }
    UpdateOfCombined(kind, oldFields, newFields, acc);
    update := Some(acc);
  }

  /** A map holding the combined value of every candidate key is the update `merge` builds. */
  lemma UpdateOfCombined(kind: Kind, prior: Fields, cand: Fields, acc: Fields)
    requires kind.Mapped() && WellFormed(kind, cand)
    requires forall k :: k in cand ==> k in Declared(kind) && (k in MultiFields(kind) ==> ListOrUnset(prior, k))
    requires acc.Keys == cand.Keys && forall k :: k in cand ==> acc[k] == Combine(kind, prior, cand, k)
    ensures MergeUpdate(kind, prior, cand) == Some(acc)
  {
    assert Extendable(kind, prior, cand);
    assert acc == map k | k in cand :: Combine(kind, prior, cand, k);
  }

  /**
   * `merge(new)`: finds the candidate's stored twin; when there is one, builds the
   * update map key by key and sends it with `update`, otherwise saves the candidate.
   * A failed outcome is the exception that `merge` lets through.
   */
  method Merge(idx: Index, cand: Doc, now: int, autoId: string) returns (outcome: Outcome)
    requires idx.Valid() && cand.kind.Mapped() && WellFormed(cand.kind, cand.fields)
    modifies idx, cand
    ensures idx.Valid()
    ensures (outcome, idx.docs) == MergeEffect(cand.kind, old(idx.order), old(idx.docs), old(cand.id), old(cand.fields), now, autoId)
    ensures outcome.Saved? ==> cand.id == Some(outcome.id) && cand.fields == old(cand.fields)["created_at" := One(Stamp(now))]
    ensures !outcome.Saved? ==> cand.id == old(cand.id) && cand.fields == old(cand.fields)
    ensures idx.order == if outcome.Saved? && outcome.id !in old(idx.docs) then old(idx.order) + [outcome.id] else old(idx.order)
  {
    var kind := cand.kind;
    var found := ObjectToId(kind, idx.order, idx.docs, cand.fields);
    if found.Err? {
      return LookupRefused;
    }
    var objectId := found.value;
    ghost var twin := Twin(kind, idx.order, idx.docs, cand.fields);
    if objectId.Some? && objectId.value != "" {
      var stored := idx.Get(objectId.value);
      if stored.Some? {
        var existing := new Doc.FromHit(kind, objectId.value, stored.value);
        if existing.fields != map[] {  // `if elastic_object:` is false for an empty document
          assert twin == objectId;
          var update := BuildUpdate(kind, existing.fields, cand.fields);  // to_dict() of both
          if update.None? {
            return UpdateRaised;
          }
          var ok := existing.Update(idx, now, update.value);
          if ok {
            outcome := Updated(existing.id.value);
          } else {
            outcome := NotUpdated;
          }
          return;
        }
      }
    }
    assert twin.None?;
    cand.Save(idx, now, autoId);
    outcome := Saved(cand.id.value);
  }

  // ------------------------------------------------------------------ merge properties

  /** Every key of the candidate is declared by the kind's mapping. */
  predicate AllDeclared(kind: Kind, f: Fields)
    requires kind.Mapped()
  {
    forall k :: k in f ==> k in Declared(kind)
  }

  /**
   * The document stored under `id` names `id` itself once loaded: a Host or Range holds
   * its key field's value, a Service carries no `_id` field.
   */
  predicate KeyedAt(kind: Kind, id: string, stored: Fields) {
    InitialId(kind, stored, Some(id)) == Some(id)
  }

  /** No multi-valued field name starts with `_`, so loading a document keeps its lists. */
  lemma MultiFieldsPublic(kind: Kind, f: Fields)
    requires kind.Mapped()
    ensures forall k :: k in MultiFields(kind) ==> (k in f <==> k in DropPrivate(f))
    ensures forall k :: k in MultiFields(kind) && k in f ==> DropPrivate(f)[k] == f[k]
  {
    forall k | k in MultiFields(kind) ensures !Private(k) {
      assert k[0] != '_';
    }
  }

  /** For a Host or Range whose stored twin names itself, merging updates that twin. */
  lemma MergeAtTwin(kind: Kind, order: seq<string>, docs: map<string, Fields>, candId: Option<string>,
                    cand: Fields, now: int, autoId: string, a: string)
    requires kind == Host || kind == Range
    requires WellFormed(kind, cand) && AllDeclared(kind, cand)
    requires KeyText(cand, KeyField(kind).value) == Some(a) && a != ""
    requires a in docs && KeyedAt(kind, a, docs[a]) && Extendable(kind, docs[a], cand)
    ensures MergeUpdate(kind, DropPrivate(docs[a]), cand).Some?
    ensures MergeEffect(kind, order, docs, candId, cand, now, autoId) ==
      (Updated(a), docs[a := docs[a] + MergeUpdate(kind, DropPrivate(docs[a]), cand).value])
  {
    assert KeyField(kind).value in cand;
    MultiFieldsPublic(kind, docs[a]);
  }

  /**
   * For a Host or Range without a stored document under its key, or with only an empty
   * one there, merging saves it there.
   */
  lemma MergeAtNoTwin(kind: Kind, order: seq<string>, docs: map<string, Fields>, candId: Option<string>,
                      cand: Fields, now: int, autoId: string, a: string)
    requires kind == Host || kind == Range
    requires WellFormed(kind, cand)
    requires KeyText(cand, KeyField(kind).value) == Some(a) && a != "" && !Loaded(docs, a)
    ensures MergeEffect(kind, order, docs, candId, cand, now, autoId) ==
      (Saved(a), docs[a := cand["created_at" := One(Stamp(now))]])
  {
  }

  /**
   * With no stored twin the candidate is saved, stamped with created_at, under the id
   * its key field gives (a generated one when that is missing or empty), and every
   * other stored document is left as it was; this holds even for undeclared fields.
   */
  lemma MergeWithoutTwinSaves(kind: Kind, order: seq<string>, docs: map<string, Fields>, candId: Option<string>,
                              cand: Fields, now: int, autoId: string)
    requires kind.Mapped() && WellFormed(kind, cand)
    requires forall id :: id in docs <==> id in order
    requires kind == Range || kind == Host ==>
      var key := KeyText(cand, KeyField(kind).value); key.None? || key.value == "" || !Loaded(docs, key.value)
    requires kind == Service ==> ServiceProbe(cand) && forall id :: id in docs ==> !Agrees(docs[id], cand, ServiceIdentity)
    ensures var r := MergeEffect(kind, order, docs, candId, cand, now, autoId);
      var key := StoreKey(SaveId(kind, candId, cand), autoId);
      r.0 == Saved(key) && r.1 == docs[key := cand["created_at" := One(Stamp(now))]]
  {
  }

  /**
   * A candidate whose twin exists but which holds a field the mapping does not declare
   * changes nothing: the failure happens before anything is sent.
   */
  lemma UnknownFieldChangesNothing(kind: Kind, order: seq<string>, docs: map<string, Fields>, candId: Option<string>,
                                   cand: Fields, now: int, autoId: string, k: string)
    requires kind.Mapped() && WellFormed(kind, cand)
    requires Twin(kind, order, docs, cand).Some?
    requires k in cand && k !in Declared(kind)
    ensures MergeEffect(kind, order, docs, candId, cand, now, autoId) == (UpdateRaised, docs)
  {
  }

  /**
   * A candidate whose twin holds a single value in a multi-valued field the candidate
   * carries changes nothing: `extend` on that value raises before anything is sent.
   */
  lemma ScalarFieldChangesNothing(kind: Kind, order: seq<string>, docs: map<string, Fields>, candId: Option<string>,
                                  cand: Fields, now: int, autoId: string, k: string)
    requires kind.Mapped() && WellFormed(kind, cand)
    requires Twin(kind, order, docs, cand).Some?
    requires k in cand && k in MultiFields(kind)
    requires k in docs[Twin(kind, order, docs, cand).value] && docs[Twin(kind, order, docs, cand).value][k].One?
    ensures MergeEffect(kind, order, docs, candId, cand, now, autoId) == (UpdateRaised, docs)
  {
    var stored := docs[Twin(kind, order, docs, cand).value];
    MultiFieldsPublic(kind, stored);
    assert !Extendable(kind, DropPrivate(stored), cand);
  }

  /**
   * Merging into a twin: the twin's document is updated in place; each list field the
   * candidate sets becomes the repeat-free union of the stored list and the candidate's,
   * each other field the candidate sets takes the candidate's value, the fields the
   * candidate does not set keep their stored values, and no other document changes.
   */
  lemma MergeIntoTwin(kind: Kind, order: seq<string>, docs: map<string, Fields>, candId: Option<string>,
                      cand: Fields, now: int, autoId: string)
    requires kind.Mapped() && WellFormed(kind, cand)
    requires Twin(kind, order, docs, cand).Some?
    requires KeyedAt(kind, Twin(kind, order, docs, cand).value, docs[Twin(kind, order, docs, cand).value])
    requires Extendable(kind, docs[Twin(kind, order, docs, cand).value], cand)
    requires AllDeclared(kind, cand) && cand != map[]
    ensures var t := Twin(kind, order, docs, cand).value;
      var r := MergeEffect(kind, order, docs, candId, cand, now, autoId);
      r.0 == Updated(t) && r.1.Keys == docs.Keys && r.1[t].Keys == docs[t].Keys + cand.Keys &&
      (forall k :: k in docs[t] && k !in cand ==> r.1[t][k] == docs[t][k]) &&
      (forall k :: k in cand && k !in MultiFields(kind) ==> r.1[t][k] == cand[k]) &&
      (forall k :: k in cand && k in MultiFields(kind) ==>
         r.1[t][k].Many? && NoDups(r.1[t][k].items) &&
         forall x :: x in r.1[t][k].items <==> x in ListOr(docs[t], k) || x in cand[k].items)
  {
    var t := Twin(kind, order, docs, cand).value;
    var stored := docs[t];
    var upd := MergeUpdate(kind, DropPrivate(stored), cand);
    assert upd.Some?;
    MultiFieldsPublic(kind, stored);
  }

  /** A list that already holds every element of `c`, without repeats, absorbs `c` unchanged. */
  lemma AbsorbList(prior: seq<Atom>, c: seq<Atom>)
    requires NoDups(prior)
    requires forall i :: 0 <= i < |c| ==> c[i] in prior
    ensures Dedup(prior + c) == prior
  {
    DedupAppendAllPresent(prior, c);
    DedupOfDistinct(prior);
  }

  /**
   * The stored document already agrees with the candidate: it has every candidate key,
   * each list field holds the candidate's items without repeats, and each other field
   * equals the candidate's.
   */
  ghost predicate Absorbs(kind: Kind, stored: Fields, cand: Fields)
    requires kind.Mapped() && WellFormed(kind, cand)
  {
    (forall k :: k in cand ==> k in stored) &&
    (forall k :: k in cand && k !in MultiFields(kind) ==> stored[k] == cand[k]) &&
    (forall k :: k in cand && k in MultiFields(kind) ==>
      stored[k].Many? && NoDups(stored[k].items) &&
      forall i :: 0 <= i < |cand[k].items| ==> cand[k].items[i] in stored[k].items)
  }

  /** A stored document that absorbs the candidate is a fixed point of the update `merge` computes from it. */
  lemma RemergeIsNoop(kind: Kind, stored: Fields, cand: Fields)
    requires kind.Mapped() && WellFormed(kind, cand) && AllDeclared(kind, cand)
    requires Absorbs(kind, stored, cand)
    ensures MergeUpdate(kind, DropPrivate(stored), cand).Some?
    ensures stored + MergeUpdate(kind, DropPrivate(stored), cand).value == stored
  {
    MultiFieldsPublic(kind, stored);
    assert Extendable(kind, DropPrivate(stored), cand);
    var u := MergeUpdate(kind, DropPrivate(stored), cand).value;
    forall k | k in u ensures u[k] == stored[k] {
      if k in MultiFields(kind) {
        MultiFieldsPublic(kind, stored);
        AbsorbList(stored[k].items, cand[k].items);
      }
    }
  }

  /** Merging a Host or Range candidate into a twin filed under its key that absorbs it changes nothing. */
  lemma RemergeAt(kind: Kind, order: seq<string>, d: map<string, Fields>, candId: Option<string>,
                  cand: Fields, now: int, autoId: string, a: string)
    requires kind == Host || kind == Range
    requires WellFormed(kind, cand) && AllDeclared(kind, cand)
    requires KeyText(cand, KeyField(kind).value) == Some(a) && a != ""
    requires a in d && Absorbs(kind, d[a], cand)
    ensures MergeEffect(kind, order, d, candId, cand, now, autoId) == (Updated(a), d)
  {
    var stored := d[a];
    RemergeIsNoop(kind, stored, cand);
    assert KeyField(kind).value in cand && KeyField(kind).value !in MultiFields(kind);
    assert KeyText(stored, KeyField(kind).value) == Some(a);
    MergeAtTwin(kind, order, d, candId, cand, now, autoId, a);
    assert d[a := stored] == d;
  }

  /** After merging a Host or Range candidate, the document under its key absorbs it. */
  lemma MergedAbsorbs(kind: Kind, order: seq<string>, docs: map<string, Fields>, candId: Option<string>,
                      cand: Fields, now: int, autoId: string, a: string)
    requires kind == Host || kind == Range
    requires WellFormed(kind, cand) && AllDeclared(kind, cand)
    requires KeyText(cand, KeyField(kind).value) == Some(a) && a != ""
    requires a in docs ==> KeyedAt(kind, a, docs[a]) && Extendable(kind, docs[a], cand)
    requires "created_at" !in cand
    requires forall k :: k in cand && k in MultiFields(kind) ==> NoDups(cand[k].items)
    ensures var d := MergeEffect(kind, order, docs, candId, cand, now, autoId).1;
      a in d && Absorbs(kind, d[a], cand)
  {
    var d := MergeEffect(kind, order, docs, candId, cand, now, autoId).1;
    if a in docs {
      MergeAtTwin(kind, order, docs, candId, cand, now, autoId, a);
      MergeIntoTwin(kind, order, docs, candId, cand, now, autoId);
    } else {
      MergeAtNoTwin(kind, order, docs, candId, cand, now, autoId, a);
      assert d[a] == cand["created_at" := One(Stamp(now))];
    }
  }

  /**
   * Merging the same Host or Range candidate a second time changes nothing, whether the
   * first merge saved it or updated its twin (for a candidate whose lists have no repeats
   * and that carries no created_at of its own).
   */
  lemma MergeTwiceChangesNothing(kind: Kind, order1: seq<string>, order2: seq<string>, docs: map<string, Fields>,
                                 candId: Option<string>, cand: Fields, now1: int, now2: int,
                                 autoId1: string, autoId2: string, a: string)
    requires kind == Host || kind == Range
    requires WellFormed(kind, cand) && AllDeclared(kind, cand)
    requires KeyText(cand, KeyField(kind).value) == Some(a) && a != ""
    requires a in docs ==> KeyedAt(kind, a, docs[a]) && Extendable(kind, docs[a], cand)
    requires "created_at" !in cand
    requires forall k :: k in cand && k in MultiFields(kind) ==> NoDups(cand[k].items)
    ensures var first := MergeEffect(kind, order1, docs, candId, cand, now1, autoId1);
      MergeEffect(kind, order2, first.1, candId, cand, now2, autoId2) == (Updated(a), first.1)
  {
    MergedAbsorbs(kind, order1, docs, candId, cand, now1, autoId1, a);
    var d1 := MergeEffect(kind, order1, docs, candId, cand, now1, autoId1).1;
    RemergeAt(kind, order2, d1, candId, cand, now2, autoId2, a);
  }

  /**
   * After a Host or Range candidate is merged, its document is stored under its key and
   * names itself, and each of its lists holds the old members, if it was stored before,
   * and the candidate's.
   */
  lemma ListAfterMerge(kind: Kind, order: seq<string>, docs: map<string, Fields>, id: Option<string>,
                       c: Fields, now: int, auto: string, a: string)
    requires kind == Host || kind == Range
    requires WellFormed(kind, c) && AllDeclared(kind, c)
    requires KeyText(c, KeyField(kind).value) == Some(a) && a != ""
    requires a in docs ==> KeyedAt(kind, a, docs[a]) && WellFormed(kind, docs[a])
    ensures var d := MergeEffect(kind, order, docs, id, c, now, auto).1;
      a in d && KeyedAt(kind, a, d[a]) && WellFormed(kind, d[a]) &&
      forall k :: k in MultiFields(kind) ==>
        forall x :: x in ListOr(d[a], k) <==> (a in docs && x in ListOr(docs[a], k)) || (k in c && x in c[k].items)
  {
    var d := MergeEffect(kind, order, docs, id, c, now, auto).1;
    if a in docs {
      WellFormedExtendable(kind, docs[a], c);
      MergeAtTwin(kind, order, docs, id, c, now, auto, a);
      MergeIntoTwin(kind, order, docs, id, c, now, auto);
      assert KeyText(d[a], KeyField(kind).value) == Some(a);
    } else {
      MergeAtNoTwin(kind, order, docs, id, c, now, auto, a);
      assert d[a] == c["created_at" := One(Stamp(now))];
      assert KeyText(d[a], KeyField(kind).value) == Some(a);
      assert "created_at" !in MultiFields(kind);
    }
  }

  /**
   * The list fields of a Host or Range do not depend on the order in which two
   * candidates for the same document are merged, whether it was stored before or not:
   * both orders leave each list with the old members and those of both candidates.
   */
  lemma ListFieldsOrderIndependent(kind: Kind, order: seq<string>, docs: map<string, Fields>,
                                   id1: Option<string>, c1: Fields, id2: Option<string>, c2: Fields,
                                   now1: int, now2: int, auto1: string, auto2: string, a: string)
    requires kind == Host || kind == Range
    requires WellFormed(kind, c1) && WellFormed(kind, c2)
    requires AllDeclared(kind, c1) && AllDeclared(kind, c2)
    requires KeyText(c1, KeyField(kind).value) == Some(a) && KeyText(c2, KeyField(kind).value) == Some(a)
    requires a != "" && (a in docs ==> KeyedAt(kind, a, docs[a]) && WellFormed(kind, docs[a]))
    ensures var ab := MergeEffect(kind, order, MergeEffect(kind, order, docs, id1, c1, now1, auto1).1, id2, c2, now2, auto2).1;
      var ba := MergeEffect(kind, order, MergeEffect(kind, order, docs, id2, c2, now2, auto2).1, id1, c1, now1, auto1).1;
      a in ab && a in ba && WellFormed(kind, ab[a]) && WellFormed(kind, ba[a]) &&
      forall k :: k in MultiFields(kind) ==>
        (forall x :: x in ListOr(ab[a], k) <==> x in ListOr(ba[a], k)) &&
        (forall x :: x in ListOr(ab[a], k) <==>
           (a in docs && x in ListOr(docs[a], k)) || (k in c1 && x in c1[k].items) || (k in c2 && x in c2[k].items))
  {
    var d1 := MergeEffect(kind, order, docs, id1, c1, now1, auto1).1;
    var d2 := MergeEffect(kind, order, docs, id2, c2, now2, auto2).1;
    ListAfterMerge(kind, order, docs, id1, c1, now1, auto1, a);
    ListAfterMerge(kind, order, d1, id2, c2, now2, auto2, a);
    ListAfterMerge(kind, order, docs, id2, c2, now2, auto2, a);
    ListAfterMerge(kind, order, d2, id1, c1, now1, auto1, a);
  }

  // ------------------------------------------------------------------ get-or-create

  /**
   * `id_to_object(line)`: a Range or Host is fetched by id, or else created holding only
   * its key field and saved under that id; a Service is never resolved (None). An empty
   * id is refused by the Elasticsearch client before any lookup. A User is resolved the
   * same way, by its username.
   */
  method IdToObject(kind: Kind, idx: Index, line: string, now: int) returns (r: Result<Doc?, string>)
    requires kind != Credential && idx.Valid()
    modifies idx
    ensures idx.Valid()
    ensures kind == Service ==> r == Ok(null) && idx.docs == old(idx.docs) && idx.order == old(idx.order)
    ensures kind != Service && line == "" ==> r.Err? && idx.docs == old(idx.docs) && idx.order == old(idx.order)
    ensures kind != Service && line != "" ==> r.Ok? && r.value != null && fresh(r.value) && r.value.kind == kind
    ensures kind != Service && line != "" && Loaded(old(idx.docs), line) ==>
      idx.docs == old(idx.docs) && idx.order == old(idx.order) &&
      r.value.fields == DropPrivate(old(idx.docs)[line]) && r.value.id == InitialId(kind, old(idx.docs)[line], Some(line))
    ensures kind != Service && line != "" && !Loaded(old(idx.docs), line) ==>
      r.value.id == Some(line) &&
      r.value.fields == map[KeyField(kind).value := One(Text(line)), "created_at" := One(Stamp(now))] &&
      idx.docs == old(idx.docs)[line := r.value.fields] &&
      idx.order == if line in old(idx.docs) then old(idx.order) else old(idx.order) + [line]
    ensures Appended(old(idx.order), old(idx.docs), idx.order)
  {
    if kind == Service {
      return Ok(null);
    }
    if line == "" {
      return Err("Empty value passed for a required argument 'id'");
    }
    var found := idx.Get(line);
    var d: Doc;
    if found.Some? && DropPrivate(found.value) != map[] {  // `if not host:` is true for an empty document
      d := new Doc.FromHit(kind, line, found.value);
    } else {
      var key := KeyField(kind).value;
      assert !Private(key) by { assert key[0] != '_'; }
      d := new Doc(kind, map[key := One(Text(line))]);
      d.Save(idx, now, line);
    }
    r := Ok(d);
  }

  /**
   * The record `id_to_object(key)` starts from: the stored one without its private keys,
   * or a fresh one holding the key and its creation stamp (already saved).
   */
  function Fetched(docs: map<string, Fields>, keyField: string, key: string, now: int): Fields
  {
    if Loaded(docs, key) then DropPrivate(docs[key]) else Created(keyField, key, now)
  }

  /** The record `id_to_object` creates and saves for a missing `key`. */
  function Created(keyField: string, key: string, now: int): Fields
  {
    map[keyField := One(Text(key)), "created_at" := One(Stamp(now))]
  }

  /** The store after `id_to_object(key)`: a missing record has been created and saved. */
  function AfterFetch(docs: map<string, Fields>, keyField: string, key: string, now: int): map<string, Fields>
  {
    if Loaded(docs, key) then docs else docs[key := Fetched(docs, keyField, key, now)]
  }

  /** A document created by `IdToObject` is the twin a later merge of a same-keyed candidate finds. */
  lemma CreatedRecordIsTwin(kind: Kind, order: seq<string>, docs: map<string, Fields>, line: string, now: int, cand: Fields)
    requires kind == Host || kind == Range
    requires line != "" && KeyText(cand, KeyField(kind).value) == Some(line)
    requires docs == map[line := Created(KeyField(kind).value, line, now)]
    ensures Twin(kind, order, docs, cand) == Some(line)
    ensures KeyedAt(kind, line, docs[line])
  {
    CreatedLoaded(KeyField(kind).value, line, now);
  }

  // ------------------------------------------------------------------ search filters

  /** The arguments `create_search` reads (a missing argument is the empty string or false). */
  datatype Query = Query(tags: string, up: bool, ports: string, search: string, range: string)

  /** One filter of an Elasticsearch search, as a condition on a record's fields. */
  datatype Clause =
    | Require(key: string, a: Atom)        // filter "term"
    | Exclude(key: string, a: Atom)        // exclude "term"
    | MatchNumber(key: string, n: string)  // filter "match" on an integer field
    | Mentions(term: string)               // query "query_string" `*term*`
    | WithinRange(key: string, range: string) // filter "term" on an `ip` field

  /** A text atom, or a text item of a list, contains `t`. */
  predicate ValueMentions(v: Value, t: string) {
    match v
    case One(a) => a.Text? && Contains(a.s, t)
    case Many(xs) => exists i | 0 <= i < |xs| :: xs[i].Text? && Contains(xs[i].s, t)
  }

  predicate Holds(c: Clause, rec: Fields) {
    match c
    case Require(k, a) => FieldHas(rec, k, a)
    case Exclude(k, a) => !FieldHas(rec, k, a)
    case MatchNumber(k, n) => ParseNat(n).Some? && FieldHas(rec, k, Int(ParseNat(n).value))
    case Mentions(t) => MentionedIn(rec, t)
    case WithinRange(k, range) => AddressWithin(rec, k, range)
  }

  /**
   * A `term` filter on an `ip` field takes an address or an `address/prefix` network:
   * the field, or one item of it when it holds a list, is an address in that network.
   * A value that is not a network selects nothing here.
   */
  predicate AddressWithin(rec: Fields, key: string, range: string) {
    match Ipv4.ParseNetwork(range)
    case None => false
    case Some(net) => key in rec && ValueWithin(rec[key], net)
  }

  /** The value is an address in the network, or a list holding one. */
  predicate ValueWithin(v: Value, net: (Ipv4.Addr, nat))
    requires net.1 <= 32
  {
    match v
    case One(a) => AtomWithin(a, net)
    case Many(xs) => exists i | 0 <= i < |xs| :: AtomWithin(xs[i], net)
  }

  /** The atom is the text of an address in the network. */
  predicate AtomWithin(a: Atom, net: (Ipv4.Addr, nat))
    requires net.1 <= 32
  {
    a.Text? && Ipv4.ParseAddress(a.s).Some? && Ipv4.InNetwork(Ipv4.ParseAddress(a.s).value, net)
  }

  /** Under a plain address, an atom lies in the network exactly when it is that address's text. */
  lemma AtomWithinAddress(a: Atom, x: Ipv4.Addr)
    ensures AtomWithin(a, (x, 32)) <==> a == Text(Ipv4.Format(x))
  {
    if a.Text? && Ipv4.ParseAddress(a.s).Some? {
      var y := Ipv4.ParseAddress(a.s).value;
      Ipv4.SingleAddressNetwork(x, y);
      Ipv4.FormatParse(a.s);
    }
    if a == Text(Ipv4.Format(x)) {
      Ipv4.ParseFormat(x);
      Ipv4.SingleAddressNetwork(x, x);
    }
  }

  /**
   * A range that is a plain address selects exactly the records whose address field
   * holds that address: the filter on an `ip` field is then an equality.
   */
  lemma RangeOfOneAddress(rec: Fields, key: string, x: Ipv4.Addr)
    ensures AddressWithin(rec, key, Ipv4.Format(x)) <==> FieldHas(rec, key, Text(Ipv4.Format(x)))
  {
    Ipv4.SingleAddressNetwork(x, x);
    var net := (x, 32);
    if key in rec {
      match rec[key]
      case One(a) =>
        AtomWithinAddress(a, x);
      case Many(xs) =>
        forall i | 0 <= i < |xs| ensures AtomWithin(xs[i], net) <==> xs[i] == Text(Ipv4.Format(x)) {
          AtomWithinAddress(xs[i], x);
        }
    }
  }

  /** Some field of the record mentions `t`. */
  predicate MentionedIn(rec: Fields, t: string) {
    exists k | k in rec :: ValueMentions(rec[k], t)
  }

  /** A search with the filters `cs` returns the records satisfying all of them. */
  predicate AllHold(cs: seq<Clause>, rec: Fields) {
    forall i | 0 <= i < |cs| :: Holds(cs[i], rec)
  }

  /** A tag token: `!t` asks for records without tag `t`, any other non-empty token for records with it. */
  predicate TagWanted(tok: string, rec: Fields) {
    tok != "" &&
    (if tok[0] == '!' then !FieldHas(rec, "tags", Text(tok[1..])) else FieldHas(rec, "tags", Text(tok)))
  }

  /** The tags string has no empty token (an empty token fails on its first character). */
  predicate TagsValid(tags: string) {
    tags == "" || forall i | 0 <= i < |Split(tags, ",")| :: Split(tags, ",")[i] != ""
  }

  /** The field `up` restricts and the value it asks for: status 'up' for hosts, state 'open' for services. */
  function UpKey(kind: Kind): string { if kind == Host then "status" else "state" }
  function UpValue(kind: Kind): string { if kind == Host then "up" else "open" }

  /** The field a port token is matched against. */
  function PortKey(kind: Kind): string { if kind == Host then "open_ports" else "port" }

  /**
   * Which records a search for `q` returns, stated field by field: every tag token is
   * honoured; and for hosts and services, `up` asks for the up status or open state,
   * each port token for that port number, each search term for a text field containing
   * it, and a non-empty range for an address in the network it names (an address alone
   * names the network of that one address). A Range search only reads the tags.
   */
  predicate Selects(kind: Kind, q: Query, rec: Fields) {
    TagsWanted(q.tags, rec) && (kind != Range ==> OthersWanted(kind, q, rec))
  }

  /** Every tag token of the query is honoured (an empty tags string asks for nothing). */
  predicate TagsWanted(tags: string, rec: Fields) {
    tags == "" || forall i | 0 <= i < |Split(tags, ",")| :: TagWanted(Split(tags, ",")[i], rec)
  }

  /** The up, port, search and range conditions of a Host or Service search. */
  predicate OthersWanted(kind: Kind, q: Query, rec: Fields) {
    (q.up ==> FieldHas(rec, UpKey(kind), Text(UpValue(kind)))) &&
    PortsWanted(kind, q.ports, rec) && SearchWanted(q.search, rec) &&
    (q.range == "" || AddressWithin(rec, "address", q.range))
  }

  /** Every comma-separated port token is a number the record's port field holds. */
  predicate PortsWanted(kind: Kind, ports: string, rec: Fields) {
    ports == "" || forall i | 0 <= i < |Split(ports, ",")| ::
      ParseNat(Split(ports, ",")[i]).Some? &&
      FieldHas(rec, PortKey(kind), Int(ParseNat(Split(ports, ",")[i]).value))
  }

  /** Every comma-separated search term occurs in some text field of the record. */
  predicate SearchWanted(search: string, rec: Fields) {
    search == "" || forall i | 0 <= i < |Split(search, ",")| :: MentionedIn(rec, Split(search, ",")[i])
  }

  /** Adding one filter narrows the selection by exactly that filter. */
  lemma AllHoldSnoc(cs: seq<Clause>, c: Clause, rec: Fields)
    ensures AllHold(cs + [c], rec) <==> AllHold(cs, rec) && Holds(c, rec)
  {
    if AllHold(cs, rec) && Holds(c, rec) {
      forall i | 0 <= i < |cs + [c]| ensures Holds((cs + [c])[i], rec) {
        if i < |cs| { assert (cs + [c])[i] == cs[i]; }
      }
    }
    if AllHold(cs + [c], rec) {
      forall i | 0 <= i < |cs| ensures Holds(cs[i], rec) {
        assert (cs + [c])[i] == cs[i];
      }
      assert (cs + [c])[|cs|] == c;
    }
  }

  /**
   * `create_search`: the filters built from the query, one per tag token, then for hosts
   * and services the up filter, one per port token, one per search term and the range
   * filter. The search returns exactly the records `Selects` describes; an empty tag
   * token makes the construction fail.
   */
  method CreateSearch(kind: Kind, q: Query) returns (r: Result<seq<Clause>, string>)
    requires kind.Mapped()
    ensures r.Err? <==> !TagsValid(q.tags)
    ensures r.Ok? ==> forall rec :: AllHold(r.value, rec) <==> Selects(kind, q, rec)
    ensures q == Query("", false, "", "", "") ==> r == Ok([])
  {
    var s: seq<Clause> := [];
    if q.tags != "" {
      var toks := Split(q.tags, ",");
      var i := 0;
      while i < |toks|
        invariant 0 <= i <= |toks|
        invariant forall j | 0 <= j < i :: toks[j] != ""
        invariant forall rec :: AllHold(s, rec) <==> forall j | 0 <= j < i :: TagWanted(toks[j], rec)
      {
        var tag := toks[i];
        if tag == "" {
          return Err("string index out of range");
        }
        var c := if tag[0] == '!' then Exclude("tags", Text(tag[1..])) else Require("tags", Text(tag));
        forall rec ensures AllHold(s + [c], rec) <==> AllHold(s, rec) && TagWanted(tag, rec) {
          AllHoldSnoc(s, c, rec);
        }
        s := s + [c];
        i := i + 1;
      }
    }
    assert forall rec :: AllHold(s, rec) <==> TagsWanted(q.tags, rec);
    if kind != Range {
      s := HostServiceFilters(kind, q, s);
    }
    r := Ok(s);
  }

  /** The part of `create_search` that only Host and Service searches have. */
  method HostServiceFilters(kind: Kind, q: Query, s0: seq<Clause>) returns (s: seq<Clause>)
    requires kind == Host || kind == Service
    ensures forall rec :: AllHold(s, rec) <==> AllHold(s0, rec) && OthersWanted(kind, q, rec)
    ensures q.up == false && q.ports == "" && q.search == "" && q.range == "" ==> s == s0
  {
    s := s0;
    if q.up {
      var c := Require(UpKey(kind), Text(UpValue(kind)));
      forall rec ensures AllHold(s + [c], rec) <==> AllHold(s, rec) && Holds(c, rec) {
        AllHoldSnoc(s, c, rec);
      }
      s := s + [c];
    }
    assert forall rec :: AllHold(s, rec) <==> AllHold(s0, rec) && (q.up ==> FieldHas(rec, UpKey(kind), Text(UpValue(kind))));
    s := PortFilters(kind, q.ports, s);
    s := SearchFilters(q.search, s);
    if q.range != "" {
      var c := WithinRange("address", q.range);
      forall rec ensures AllHold(s + [c], rec) <==> AllHold(s, rec) && Holds(c, rec) {
        AllHoldSnoc(s, c, rec);
      }
      s := s + [c];
    }
  }

  /** One port filter per comma-separated token of `ports`, none when it is empty. */
  method PortFilters(kind: Kind, ports: string, s0: seq<Clause>) returns (s: seq<Clause>)
    requires kind == Host || kind == Service
    ensures forall rec :: AllHold(s, rec) <==> AllHold(s0, rec) && PortsWanted(kind, ports, rec)
    ensures ports == "" ==> s == s0
  {
    s := s0;
    if ports != "" {
      var toks := Split(ports, ",");
      var i := 0;
      while i < |toks|
        invariant 0 <= i <= |toks|
        invariant forall rec :: AllHold(s, rec) <==> AllHold(s0, rec) && forall j | 0 <= j < i :: Holds(MatchNumber(PortKey(kind), toks[j]), rec)
      {
        var c := MatchNumber(PortKey(kind), toks[i]);
        forall rec ensures AllHold(s + [c], rec) <==> AllHold(s, rec) && Holds(c, rec) {
          AllHoldSnoc(s, c, rec);
        }
        s := s + [c];
        i := i + 1;
      }
    }
  }

  /** One full-text filter per comma-separated token of `search`, none when it is empty. */
  method SearchFilters(search: string, s0: seq<Clause>) returns (s: seq<Clause>)
    ensures forall rec :: AllHold(s, rec) <==> AllHold(s0, rec) && SearchWanted(search, rec)
    ensures search == "" ==> s == s0
  {
    s := s0;
    if search != "" {
      var toks := Split(search, ",");
      var i := 0;
      while i < |toks|
        invariant 0 <= i <= |toks|
        invariant forall rec :: AllHold(s, rec) <==> AllHold(s0, rec) && forall j | 0 <= j < i :: Holds(Mentions(toks[j]), rec)
      {
        var c := Mentions(toks[i]);
        forall rec ensures AllHold(s + [c], rec) <==> AllHold(s, rec) && Holds(c, rec) {
          AllHoldSnoc(s, c, rec);
        }
        s := s + [c];
        i := i + 1;
      }
    }
  }

  // ------------------------------------------------------------------ piped input

  /**
   * What `json.loads` makes of a stripped line: an object (its fields), some other JSON
   * value (a number, a string, a list, true, false or null), or a ValueError.
   */
  datatype Json = JsonObject(fields: Fields) | OtherJson | NotJson

  /**
   * One line of piped input, stripped: the JSON object it decodes to, JSON that is not
   * an object (which the constructor cannot take as keyword arguments), or else the bare
   * id it holds. `parse` stands for the JSON decoder.
   */
  datatype PipeLine = Object(data: Fields) | NotObject | Token(id: string)

  function ReadLine(line: string, parse: string -> Json): (r: PipeLine)
    ensures r.Token? <==> parse(Strip(line)).NotJson?
    ensures r.Token? ==> r.id == Strip(line)
    ensures r.NotObject? <==> parse(Strip(line)).OtherJson?
    ensures r.Object? ==> parse(Strip(line)) == JsonObject(r.data)
  {
    match parse(Strip(line))
    case JsonObject(data) => Object(data)
    case OtherJson => NotObject
    case NotJson => Token(Strip(line))
  }

  /**
   * A line that ends `get_pipe` with an exception: JSON that is not an object (a
   * TypeError from the constructor call), or a blank id that `id_to_object` rejects.
   */
  predicate Breaks(kind: Kind, l: PipeLine) {
    l.NotObject? || (kind != Service && l == Token(""))
  }

  /**
   * What the stream yields for one line: for an object line, the document the constructor
   * builds from it; for an id line, nothing for a service, and otherwise a document
   * holding the fields stored under that id.
   */
  predicate Delivered(kind: Kind, l: PipeLine, obj: Doc?, docs: map<string, Fields>)
    reads obj
  {
    match l
    case Object(data) =>
      obj != null && obj.kind == kind && obj.fields == DropPrivate(data) && obj.id == InitialId(kind, data, None)
    case NotObject => false
    case Token(t) =>
      if kind == Service then obj == null
      else obj != null && obj.kind == kind && Loaded(docs, t) && obj.fields == DropPrivate(docs[t])
  }

  /** A search store: the stored records and the order a search lists them in. */
  type Records = (map<string, Fields>, seq<string>)

  /**
   * The store after one line of `get_pipe`: only an id line of a pipe with a key field
   * changes it, as `id_to_object` does, by creating and saving a missing record at the
   * end of the order.
   */
  function StepStore(kind: Kind, s: Records, l: PipeLine, now: int): Records
  {
    match l
    case Token(t) =>
      if t == "" || KeyField(kind).None? then s
      else (AfterFetch(s.0, KeyField(kind).value, t, now), if t in s.0 then s.1 else s.1 + [t])
    case _ => s
  }

  /** The lines as `get_pipe` reads them, one `ReadLine` each. */
  function ReadLines(lines: seq<string>, parse: string -> Json): (r: seq<PipeLine>)
    ensures |r| == |lines|
    ensures forall i :: 0 <= i < |lines| ==> r[i] == ReadLine(lines[i], parse)
  {
    seq(|lines|, i requires 0 <= i < |lines| => ReadLine(lines[i], parse))
  }

  /** Reading a prefix of the lines gives the prefix of the read lines. */
  lemma ReadLinesPrefix(lines: seq<string>, parse: string -> Json, k: nat)
    requires k <= |lines|
    ensures ReadLines(lines[..k], parse) == ReadLines(lines, parse)[..k]
  {
    assert forall i :: 0 <= i < k ==> lines[..k][i] == lines[i];
  }

  /** The store after `get_pipe` has handled the read lines `ls`, one after another. */
  function PipeStore(kind: Kind, s: Records, ls: seq<PipeLine>, now: int): Records
  {
    if ls == [] then s
    else StepStore(kind, PipeStore(kind, s, ls[..|ls| - 1], now), ls[|ls| - 1], now)
  }

  /** Read line `i` is an id line that `id_to_object` resolves, naming `t`. */
  predicate IdLine(kind: Kind, ls: seq<PipeLine>, i: int, t: string)
    requires 0 <= i < |ls|
  {
    kind != Service && ls[i] == Token(t) && t != ""
  }

  /** A line that ends the stream changes no record and not the order. */
  lemma BreakKeepsStore(kind: Kind, s: Records, l: PipeLine, now: int)
    requires Breaks(kind, l)
    ensures StepStore(kind, s, l, now) == s
  {
  }

  /** One more line is one more `StepStore`. */
  lemma PipeStoreNext(kind: Kind, s: Records, ls: seq<PipeLine>, now: int, i: nat)
    requires i < |ls|
    ensures PipeStore(kind, s, ls[..i + 1], now) == StepStore(kind, PipeStore(kind, s, ls[..i], now), ls[i], now)
  {
    assert ls[..i + 1][..i] == ls[..i];
  }

  /** One line adds to the stored ids at most the id it names. */
  lemma StepStoreKeys(kind: Kind, s: Records, l: PipeLine, now: int, t: string)
    requires kind.Mapped()
    ensures t in StepStore(kind, s, l, now).0 <==> t in s.0 || (kind != Service && l == Token(t) && t != "")
  {
  }

  /** After the stream, an id is stored exactly when it was before or one of its id lines named it. */
  lemma {:induction false} PipeStoreKeys(kind: Kind, s: Records, ls: seq<PipeLine>, now: int, t: string)
    requires kind.Mapped()
    ensures t in PipeStore(kind, s, ls, now).0 <==> t in s.0 || exists i :: 0 <= i < |ls| && IdLine(kind, ls, i, t)
  {
    if ls != [] {
      var n := |ls| - 1;
      var init := ls[..n];
      PipeStoreKeys(kind, s, init, now, t);
      StepStoreKeys(kind, PipeStore(kind, s, init, now), ls[n], now, t);
      if IdLine(kind, ls, n, t) {
      } else if exists i :: 0 <= i < |ls| && IdLine(kind, ls, i, t) {
        var i :| 0 <= i < |ls| && IdLine(kind, ls, i, t);
        assert IdLine(kind, init, i, t);
      } else if exists i :: 0 <= i < n && IdLine(kind, init, i, t) {
        var i :| 0 <= i < n && IdLine(kind, init, i, t);
        assert IdLine(kind, ls, i, t);
      }
    }
  }

  /**
   * After the stream, every record stored before is still stored, unchanged, except that
   * an empty one, which `id_to_object` takes for missing, may have been replaced by the
   * record it creates.
   */
  lemma {:induction false} PipeStoreKeeps(kind: Kind, s: Records, ls: seq<PipeLine>, now: int)
    ensures KeepsRecords(kind, s.0, PipeStore(kind, s, ls, now).0, now)
  {
    if ls != [] {
      PipeStoreKeeps(kind, s, ls[..|ls| - 1], now);
      var before := PipeStore(kind, s, ls[..|ls| - 1], now).0;
      forall t | t in s.0 && KeyField(kind).Some? && kind != Service
        ensures Loaded(before, t) || before[t] == s.0[t]
      {
        CreatedLoaded(KeyField(kind).value, t, now);
      }
    }
  }

  /**
   * Every record of `d0` is still in `d1`, unchanged, except that an empty one, which
   * `id_to_object` takes for missing, may have been replaced by the record it creates.
   */
  predicate KeepsRecords(kind: Kind, d0: map<string, Fields>, d1: map<string, Fields>, now: int) {
    forall id :: id in d0 ==>
      id in d1 &&
      (d1[id] == d0[id] || (!Loaded(d0, id) && KeyField(kind).Some? && d1[id] == Created(KeyField(kind).value, id, now)))
  }

  /** A record `id_to_object` creates is one a later lookup finds. */
  lemma CreatedLoaded(keyField: string, key: string, now: int)
    requires keyField == "range" || keyField == "address" || keyField == "username"
    ensures Loaded(map[key := Created(keyField, key, now)], key)
  {
    assert !Private(keyField) by { assert keyField[0] != '_'; }
    assert keyField in DropPrivate(Created(keyField, key, now));
  }

  /** After the stream, every record it created holds just its key and its creation stamp. */
  lemma {:induction false} PipeStoreRecords(kind: Kind, s: Records, ls: seq<PipeLine>, now: int)
    requires kind == Host || kind == Range
    ensures var d := PipeStore(kind, s, ls, now).0;
      forall t :: t in d && t !in s.0 ==> d[t] == map[KeyField(kind).value := One(Text(t)), "created_at" := One(Stamp(now))]
  {
    if ls != [] {
      PipeStoreRecords(kind, s, ls[..|ls| - 1], now);
    }
  }

  /**
   * After the stream, the search order is the old one followed by the created ids, and
   * it still lists exactly the stored records, each once.
   */
  lemma {:induction false} PipeStoreOrder(kind: Kind, s: Records, ls: seq<PipeLine>, now: int)
    requires forall t :: t in s.0 <==> t in s.1
    ensures var r := PipeStore(kind, s, ls, now);
      |s.1| <= |r.1| && r.1[..|s.1|] == s.1 &&
      (forall t :: t in r.0 <==> t in r.1) &&
      (forall j :: |s.1| <= j < |r.1| ==> r.1[j] !in s.0)
  {
    if ls != [] {
      var before := PipeStore(kind, s, ls[..|ls| - 1], now);
      PipeStoreOrder(kind, s, ls[..|ls| - 1], now);
      var r := PipeStore(kind, s, ls, now);
      if r.1 != before.1 {
        var t := ls[|ls| - 1].id;
        assert r.1 == before.1 + [t] && t !in before.0;
        assert r.1[..|s.1|] == before.1[..|s.1|];
      }
    }
  }

  /** One step of `get_pipe`: decode the line, or resolve its id. */
  method PipeStep(kind: Kind, idx: Index, line: string, parse: string -> Json, now: int)
    returns (obj: Doc?, failed: bool)
    requires kind.Mapped() && idx.Valid()
    modifies idx
    ensures idx.Valid()
    ensures failed <==> Breaks(kind, ReadLine(line, parse))
    ensures failed ==> idx.docs == old(idx.docs)
    ensures KeepsRecords(kind, old(idx.docs), idx.docs, now)
    ensures !failed ==> Delivered(kind, ReadLine(line, parse), obj, idx.docs)
    ensures obj != null ==> fresh(obj)
    ensures (idx.docs, idx.order) == StepStore(kind, (old(idx.docs), old(idx.order)), ReadLine(line, parse), now)
  {
    failed := false;
    match ReadLine(line, parse) {
      case Object(data) =>
        obj := new Doc(kind, data);
      case NotObject =>
        obj := null;
        failed := true;
      case Token(t) =>
        var resolved := IdToObject(kind, idx, t, now);
        if resolved.Err? {
          obj := null;
          failed := true;
          return;
        }
        obj := resolved.value;
        if kind != Service {
          NoPrivateCreated(kind, t, now);
          assert Loaded(idx.docs, t) by {
            if !Loaded(old(idx.docs), t) {
              assert KeyField(kind).value in DropPrivate(idx.docs[t]);
            }
          }
        }
    }
  }

  /**
   * `get_pipe(object_type)`: each line becomes a document built from its JSON object, or
   * the document `id_to_object` resolves its id to (nothing for services). The first
   * line that is JSON but not an object, or a blank id line, ends the stream with an
   * error; `objs` holds what came before it.
   * Stored documents stay as they were, except an empty one that an id line replaces, and
   * an id that resolves is stored afterwards.
   */
  method GetPipe(kind: Kind, idx: Index, lines: seq<string>, parse: string -> Json, now: int)
    returns (objs: seq<Doc?>, failed: bool)
    requires kind.Mapped() && idx.Valid()
    modifies idx
    ensures idx.Valid()
    ensures |objs| <= |lines|
    ensures !failed ==> |objs| == |lines|
    ensures failed ==> |objs| < |lines| && Breaks(kind, ReadLine(lines[|objs|], parse))
    ensures KeepsRecords(kind, old(idx.docs), idx.docs, now)
    ensures forall i | 0 <= i < |objs| :: Delivered(kind, ReadLine(lines[i], parse), objs[i], idx.docs)
    ensures (idx.docs, idx.order) == PipeStore(kind, (old(idx.docs), old(idx.order)), ReadLines(lines[..|objs|], parse), now)
  {
    objs := [];
    failed := false;
    ghost var s0: Records := (idx.docs, idx.order);
    ghost var pl := seq(|lines|, j requires 0 <= j < |lines| => ReadLine(lines[j], parse));
    while |objs| < |lines|
      invariant |objs| <= |lines| && !failed
      invariant idx.Valid()
      invariant forall j | 0 <= j < |objs| :: Delivered(kind, pl[j], objs[j], idx.docs)
      invariant (idx.docs, idx.order) == PipeStore(kind, s0, pl[..|objs|], now)
    {
      objs, failed := PipeNext(kind, idx, lines, parse, now, objs, s0, pl);
      if failed {
        break;
      }
    }
    DeliveredAsRead(kind, lines, parse, objs, idx.docs, pl);
    ReadLinesPrefix(lines, parse, |objs|);
    assert ReadLines(lines, parse) == pl;
    PipeStoreKeeps(kind, s0, pl[..|objs|], now);
  }

  /**
   * One turn of `get_pipe`'s loop: the next line's document is delivered, or the line
   * raises and nothing changes.
   */
  method PipeNext(kind: Kind, idx: Index, lines: seq<string>, parse: string -> Json, now: int,
                  objs0: seq<Doc?>, ghost s0: Records, ghost pl: seq<PipeLine>)
    returns (objs: seq<Doc?>, stop: bool)
    requires kind.Mapped() && idx.Valid() && |objs0| < |lines|
    requires |pl| == |lines| && forall j | 0 <= j < |lines| :: pl[j] == ReadLine(lines[j], parse)
    requires forall j | 0 <= j < |objs0| :: Delivered(kind, pl[j], objs0[j], idx.docs)
    requires (idx.docs, idx.order) == PipeStore(kind, s0, pl[..|objs0|], now)
    modifies idx
    ensures idx.Valid()
    ensures stop ==> objs == objs0 && Breaks(kind, pl[|objs0|])
    ensures !stop ==> |objs| == |objs0| + 1
    ensures forall j | 0 <= j < |objs| :: Delivered(kind, pl[j], objs[j], idx.docs)
    ensures (idx.docs, idx.order) == PipeStore(kind, s0, pl[..|objs|], now)
  {
    ghost var before := idx.docs;
    ghost var s1: Records := (idx.docs, idx.order);
    var i := |objs0|;
    PipeStoreNext(kind, s0, pl, now, i);
    var obj;
    obj, stop := PipeStep(kind, idx, lines[i], parse, now);
    if stop {
      BreakKeepsStore(kind, s1, pl[i], now);
      objs := objs0;
    } else {
      DeliveredAllGrow(kind, pl, objs0, before, idx.docs);
      DeliveredSnoc(kind, pl, objs0, obj, idx.docs);
      objs := objs0 + [obj];
    }
  }

  /** What was delivered stays delivered when the store only gains documents. */
  lemma DeliveredAllGrow(kind: Kind, pl: seq<PipeLine>, objs: seq<Doc?>, d1: map<string, Fields>, d2: map<string, Fields>)
    requires |objs| <= |pl|
    requires forall j | 0 <= j < |objs| :: Delivered(kind, pl[j], objs[j], d1)
    requires forall id :: Loaded(d1, id) ==> id in d2 && d2[id] == d1[id]
    ensures forall j | 0 <= j < |objs| :: Delivered(kind, pl[j], objs[j], d2)
  {
    forall j | 0 <= j < |objs| ensures Delivered(kind, pl[j], objs[j], d2) {
      DeliveredGrows(kind, pl[j], objs[j], d1, d2);
    }
  }

  /** Appending the object delivered for the next line keeps every line delivered. */
  lemma DeliveredSnoc(kind: Kind, pl: seq<PipeLine>, objs: seq<Doc?>, obj: Doc?, docs: map<string, Fields>)
    requires |objs| < |pl|
    requires forall j | 0 <= j < |objs| :: Delivered(kind, pl[j], objs[j], docs)
    requires Delivered(kind, pl[|objs|], obj, docs)
    ensures forall j | 0 <= j < |objs| + 1 :: Delivered(kind, pl[j], (objs + [obj])[j], docs)
  {
    forall j | 0 <= j < |objs| + 1 ensures Delivered(kind, pl[j], (objs + [obj])[j], docs) {
      if j < |objs| { assert (objs + [obj])[j] == objs[j]; }
    }
  }

  /** Restates the loop's per-line fact in terms of the lines themselves. */
  lemma DeliveredAsRead(kind: Kind, lines: seq<string>, parse: string -> Json, objs: seq<Doc?>,
                        docs: map<string, Fields>, pl: seq<PipeLine>)
    requires |objs| <= |pl| == |lines|
    requires forall j | 0 <= j < |lines| :: pl[j] == ReadLine(lines[j], parse)
    requires forall j | 0 <= j < |objs| :: Delivered(kind, pl[j], objs[j], docs)
    ensures forall j | 0 <= j < |objs| :: Delivered(kind, ReadLine(lines[j], parse), objs[j], docs)
  {
  }

  /** What was delivered stays delivered while every non-empty record stays as it was. */
  lemma DeliveredGrows(kind: Kind, l: PipeLine, obj: Doc?, d1: map<string, Fields>, d2: map<string, Fields>)
    requires Delivered(kind, l, obj, d1)
    requires forall id :: Loaded(d1, id) ==> id in d2 && d2[id] == d1[id]
    ensures Delivered(kind, l, obj, d2)
  {
  }

  /** A record `id_to_object` creates has no private field, so loading it gives it back whole. */
  lemma NoPrivateCreated(kind: Kind, line: string, now: int)
    requires kind == Host || kind == Range
    ensures var f := map[KeyField(kind).value := One(Text(line)), "created_at" := One(Stamp(now))];
      DropPrivate(f) == f
  {
    var f := map[KeyField(kind).value := One(Text(line)), "created_at" := One(Stamp(now))];
    assert !Private(KeyField(kind).value) by { assert KeyField(kind).value[0] != '_'; }
    assert !Private("created_at") by { assert "created_at"[0] != '_'; }
    assert DropPrivate(f).Keys == f.Keys;
  }

  /** `DocMapper.object_mapping`: the document class for a `_type` name. */
  function MappedKind(typeName: string): (r: Option<Kind>)
    ensures r.Some? ==> r.value.Mapped() && TypeName(r.value) == typeName
    ensures r.None? ==> forall k: Kind :: k.Mapped() ==> TypeName(k) != typeName
  {
    if typeName == "range_doc" then Some(Range)
    else if typeName == "host_doc" then Some(Host)
    else if typeName == "service_doc" then Some(Service)
    else None
  }

  /**
   * What `DocMapper.get_pipe` makes of one line: the kind named by the object's `_type`
   * and the object itself; a skipped line, when the line is not JSON (ValueError), has no
   * `_type` or names one outside the mapping (KeyError); or a TypeError that ends the
   * stream, when the line is JSON but not an object or its `_type` is a list.
   */
  datatype Recognition = Recognised(kind: Kind, data: Fields) | Skipped | Raises

  function Recognise(line: string, parse: string -> Json): (r: Recognition)
    ensures r.Recognised? ==> r.kind.Mapped() && parse(Strip(line)) == JsonObject(r.data) &&
                              KeyText(r.data, "_type") == Some(TypeName(r.kind))
    ensures r.Raises? <==> (parse(Strip(line)).OtherJson? ||
      (parse(Strip(line)).JsonObject? && "_type" in parse(Strip(line)).fields && parse(Strip(line)).fields["_type"].Many?))
  {
    match parse(Strip(line))
    case NotJson => Skipped
    case OtherJson => Raises
    case JsonObject(data) =>
      if "_type" !in data then Skipped
      else if data["_type"].Many? then Raises
      else
        match KeyText(data, "_type")
        case None => Skipped
        case Some(t) =>
          match MappedKind(t)
          case None => Skipped
          case Some(kind) => Recognised(kind, data)
  }

  /** The recognised lines of the input, in order. */
  function RecognisedLines(lines: seq<string>, parse: string -> Json): seq<(Kind, Fields)>
  {
    if lines == [] then []
    else
      var rest := RecognisedLines(lines[..|lines| - 1], parse);
      match Recognise(lines[|lines| - 1], parse)
      case Recognised(kind, data) => rest + [(kind, data)]
      case _ => rest
  }

  /** One more line adds its recognised object, if any, at the end. */
  lemma RecognisedNext(lines: seq<string>, parse: string -> Json, i: nat)
    requires i < |lines|
    ensures var r := Recognise(lines[i], parse);
      RecognisedLines(lines[..i + 1], parse) == RecognisedLines(lines[..i], parse) + (if r.Recognised? then [(r.kind, r.data)] else [])
  {
    assert lines[..i + 1][..i] == lines[..i];
  }

  /** How many lines the mapper reads before one raises: all of them when none does. */
  function Consumed(lines: seq<string>, parse: string -> Json): (n: nat)
    ensures n <= |lines|
    ensures n < |lines| ==> Recognise(lines[n], parse).Raises?
    ensures forall j | 0 <= j < n :: !Recognise(lines[j], parse).Raises?
    decreases |lines|
  {
    if lines == [] then 0
    else if Recognise(lines[0], parse).Raises? then 0
    else 1 + Consumed(lines[1..], parse)
  }

  /** The document is what the constructor makes of a recognised object of that kind. */
  predicate BuiltFrom(o: Doc, entry: (Kind, Fields))
    reads o
  {
    o.kind == entry.0 && o.fields == DropPrivate(entry.1) && o.id == InitialId(o.kind, entry.1, None)
  }

  /**
   * `DocMapper.get_pipe`: one document per recognised line, of the kind its `_type` names,
   * built from the object by the constructor; skipped lines give nothing, and the first
   * line that raises ends the stream with an error.
   */
  method MapperPipe(lines: seq<string>, parse: string -> Json) returns (objs: seq<Doc>, failed: bool)
    ensures failed <==> Consumed(lines, parse) < |lines|
    ensures var read := RecognisedLines(lines[..Consumed(lines, parse)], parse);
      |objs| == |read| &&
      forall j | 0 <= j < |objs| ::
        objs[j].kind == read[j].0 && objs[j].fields == DropPrivate(read[j].1) &&
        objs[j].id == InitialId(objs[j].kind, read[j].1, None)
  {
    objs := [];
    failed := false;
    ghost var n := Consumed(lines, parse);
    ghost var read: seq<(Kind, Fields)> := [];
    var i := 0;
    while i < |lines|
      invariant 0 <= i <= |lines|
      invariant i <= n
      invariant read == RecognisedLines(lines[..i], parse)
      invariant |objs| == |read|
      invariant forall j | 0 <= j < |objs| :: BuiltFrom(objs[j], read[j])
    {
      var r := Recognise(lines[i], parse);
      if r.Raises? {
        assert n == i;
        failed := true;
        return;
      }
      RecognisedNext(lines, parse, i);
      if r.Recognised? {
        var obj := new Doc(r.kind, r.data);
        objs := objs + [obj];
        read := read + [(r.kind, r.data)];
      }
      i := i + 1;
    }
    assert n == |lines|;
    assert lines[..|lines|] == lines;
  }

  /**
   * A document written out with `to_dict(include_meta=True)` and piped back through the
   * mapper comes back as a document of the same kind with the same fields (and, for a
   * Service, the same id).
   */
  lemma MapperReadsFlatView(kind: Kind, id: Option<string>, f: Fields, indexName: string,
                            line: string, parse: string -> Json)
    requires kind.Mapped() && NoPrivate(f)
    requires parse(Strip(line)) == JsonObject(Flatten(Meta(kind, id, indexName), f))
    ensures Recognise(line, parse) == Recognised(kind, Flatten(Meta(kind, id, indexName), f))
    ensures DropPrivate(Flatten(Meta(kind, id, indexName), f)) == f
    ensures kind == Service && id.Some? ==> InitialId(kind, Flatten(Meta(kind, id, indexName), f), None) == id
  {
    var flat := Flatten(Meta(kind, id, indexName), f);
    assert KeyText(flat, "_type") == Some(TypeName(kind));
    FlatViewRoundTrip(kind, id, f, indexName);
  }
}
