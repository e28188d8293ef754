/**
 * The document definitions of jackal/documents.py: the kinds of stored records, which
 * fields each declares and which of those are multi-valued, how a document's id is
 * derived, and the document object with its in-place operations (add_tag, save,
 * update) and its flat dictionary view.
 */
module Documents {
  import opened Wrappers
  import opened Lists
  import opened Text
  import opened Values
  import opened Store

  /**
   * The record kinds. Range, Host and Service are declared in documents.py; User and
   * Credential are used by the importers through the same document operations.
   */
  datatype Kind = Range | Host | Service | User | Credential {
    /** The kinds whose field mapping is declared, and which the search classes handle. */
    predicate Mapped() { this == Range || this == Host || this == Service }
  }

  /** Every field the kind's mapping declares. */
  function Declared(kind: Kind): set<string>
    requires kind.Mapped()
  {
    match kind
    case Range => {"name", "range", "tags", "created_at", "updated_at"}
    case Service => {"address", "port", "state", "banner", "script_results", "protocol", "reason",
                     "service_id", "created_at", "updated_at", "tags"}
    case Host => {"address", "tags", "os", "hostname", "created_at", "updated_at", "open_ports",
                  "closed_ports", "filtered_ports"}
  }

  /** The declared fields marked `multi=True`. */
  function MultiFields(kind: Kind): (r: set<string>)
    requires kind.Mapped()
    ensures r <= Declared(kind)
  {
    match kind
    case Range => {"tags"}
    case Service => {"script_results", "tags"}
    case Host => {"tags", "hostname", "open_ports", "closed_ports", "filtered_ports"}
  }

  /** Every multi-valued field holds a list (a scalar there cannot be extended). */
  predicate WellFormed(kind: Kind, f: Fields)
    requires kind.Mapped()
  {
    forall k :: k in f && k in MultiFields(kind) ==> f[k].Many?
  }

  /** The document type name Elasticsearch reports as `_type` (the class name in snake case). */
  function TypeName(kind: Kind): string
  {
    match kind
    case Range => "range_doc"
    case Host => "host_doc"
    case Service => "service_doc"
    case User => "user_doc"
    case Credential => "credential_doc"
  }

  /** The field whose value is the document's id, for the kinds that have one. */
  function KeyField(kind: Kind): Option<string>
  {
    match kind
    case Range => Some("range")
    case Host => Some("address")
    case User => Some("username")
    case Service => None
    case Credential => None
  }

  /** A private keyword: its name starts with `_`. */
  predicate Private(k: string) {
    |k| > 0 && k[0] == '_'
  }

  /** The constructor's keyword filter: every keyword whose name starts with `_` is dropped. */
  function DropPrivate(kwargs: Fields): (r: Fields)
    ensures forall k :: k in r <==> k in kwargs && !Private(k)
    ensures forall k :: k in r ==> r[k] == kwargs[k]
  {
    map k | k in kwargs && !Private(k) :: kwargs[k]
  }

  /**
   * `get(id, ignore=404)` loads a document that is true in `if doc:`. A document tests
   * false when its loaded source is empty, so an empty stored document counts as missing.
   */
  predicate Loaded(docs: map<string, Fields>, id: string) {
    id in docs && DropPrivate(docs[id]) != map[]
  }

  /**
   * The id a freshly constructed document carries. A Range takes its `range` keyword
   * ('' when absent), a Host its address, a User its username; a Service or Credential
   * takes an explicit `_id` keyword, and otherwise keeps the id of the search hit it was
   * built from (`hit`), if any.
   */
  function InitialId(kind: Kind, kwargs: Fields, hit: Option<string>): (r: Option<string>)
    ensures kind == Range ==> r == Some(KeyText(kwargs, "range").GetOr(""))
    ensures kind == Host ==> r == KeyText(kwargs, "address")
    ensures kind == Service && "_id" !in kwargs ==> r == hit
    ensures kind == Service && "_id" in kwargs ==> r == KeyText(kwargs, "_id")
  {
    match kind
    case Range => Some(KeyText(kwargs, "range").GetOr(""))
    case Host => KeyText(kwargs, "address")
    case User => KeyText(kwargs, "username")
    case Service | Credential => if "_id" in kwargs then KeyText(kwargs, "_id") else hit
  }

  /** The id `save` indexes under: Range, Host and User re-read their key field first. */
  function SaveId(kind: Kind, id: Option<string>, f: Fields): Option<string>
  {
    if KeyField(kind).Some? then KeyText(f, KeyField(kind).value) else id
  }

  /** A missing or empty id makes Elasticsearch generate one (`autoId`). */
  function StoreKey(id: Option<string>, autoId: string): (r: string)
    ensures id.Some? && id.value != "" ==> r == id.value
    ensures id.None? || id.value == "" ==> r == autoId
  {
    if id.Some? && id.value != "" then id.value else autoId
  }

  /**
   * `self.tags or []` can be iterated: the tags are unset, a list, a string, or a false
   * scalar; `set()` of a true integer, boolean or timestamp raises TypeError.
   */
  predicate Taggable(f: Fields) {
    "tags" !in f || f["tags"].Many? || f["tags"].atom.Text? || !Truthy(f["tags"].atom)
  }

  /** The one-character strings of `s`, as `set(s)` iterates a string. */
  function Chars(s: string): (r: seq<Atom>)
    ensures |r| == |s|
    ensures forall i :: 0 <= i < |s| ==> r[i] == Text([s[i]])
  {
    seq(|s|, i requires 0 <= i < |s| => Text([s[i]]))
  }

  /**
   * The items `set(self.tags or [])` is built from: a list as it is, nothing when the
   * tags are unset or a false scalar, and the characters of a string.
   */
  function TagsOr(f: Fields): (r: seq<Atom>)
    requires Taggable(f)
    ensures "tags" !in f ==> r == []
    ensures "tags" in f && f["tags"].Many? ==> r == f["tags"].items
  {
    if "tags" !in f then []
    else match f["tags"]
      case Many(xs) => xs
      case One(a) => if a.Text? then Chars(a.s) else []
  }

  /** Writing a field other than the tags leaves the tags as `add_tag` reads them. */
  lemma TagsUntouched(f: Fields, k: string, v: Value)
    requires k != "tags"
    ensures Taggable(f[k := v]) == Taggable(f)
    ensures Taggable(f) ==> TagsOr(f[k := v]) == TagsOr(f)
  {
    assert "tags" in f[k := v] <==> "tags" in f;
    assert "tags" in f ==> f[k := v]["tags"] == f["tags"];
  }

  /**
   * Scalar tags: a string is split into its characters and a false scalar reads as no
   * tags, so tagging either gives a list; a true integer, boolean or timestamp cannot be
   * tagged.
   */
  lemma TagsOfScalar(f: Fields, tag: string)
    requires "tags" in f && f["tags"].One?
    ensures Taggable(f) <==> f["tags"].atom.Text? || !Truthy(f["tags"].atom)
    ensures f["tags"].atom.Text? ==> TagsOr(f) == Chars(f["tags"].atom.s)
    ensures !Truthy(f["tags"].atom) ==> TagsOr(f) == []
    ensures Taggable(f) ==> forall x :: x in WithTag(TagsOr(f), tag) <==> x in TagsOr(f) || x == Text(tag)
  {
    if Taggable(f) {
      WithTagFacts(TagsOr(f), tag);
    }
  }

  /**
   * `add_tag`: the tags are the old tags (none when unset) together with `tag`, without
   * repeats; adding a tag that is already there leaves a repeat-free list as it was.
   */
  function WithTag(tags: seq<Atom>, tag: string): seq<Atom>
  {
    Dedup(tags + [Text(tag)])
  }

  /**
   * The tags after `add_tag` hold no repeats, hold the tag, keep every old tag and
   * nothing else; a repeat-free list that already holds the tag is left as it was.
   */
  lemma WithTagFacts(tags: seq<Atom>, tag: string)
    ensures var r := WithTag(tags, tag);
      NoDups(r) && Text(tag) in r &&
      (forall i :: 0 <= i < |tags| ==> tags[i] in r) &&
      (forall i :: 0 <= i < |r| ==> r[i] in tags || r[i] == Text(tag)) &&
      (NoDups(tags) && Text(tag) in tags ==> r == tags)
  {
    DedupSpec(tags + [Text(tag)]);
    DedupAppendFacts(tags, Text(tag));
  }

  /** Tagging twice with the same tag gives the same tags as tagging once. */
  lemma WithTagIdempotent(tags: seq<Atom>, tag: string)
    ensures WithTag(WithTag(tags, tag), tag) == WithTag(tags, tag)
  {
    WithTagFacts(tags, tag);
    WithTagFacts(WithTag(tags, tag), tag);
  }

  /** The metadata entries of `to_dict(include_meta=True)`. */
  function Meta(kind: Kind, id: Option<string>, indexName: string): (r: Fields)
    ensures forall k :: k in r ==> Private(k)
    ensures id.Some? ==> "_id" in r && r["_id"] == One(Text(id.value))
    ensures "_type" in r && r["_type"] == One(Text(TypeName(kind)))
  {
    var m := map["_index" := One(Text(indexName)), "_type" := One(Text(TypeName(kind)))];
    if id.Some? then m["_id" := One(Text(id.value))] else m
  }

  /** The flattening of `to_dict(include_meta=True)`: `_source` lifted to the top level, its keys winning. */
  function Flatten(meta: Fields, source: Fields): (r: Fields)
    ensures r.Keys == meta.Keys + source.Keys
    ensures forall k :: k in source ==> r[k] == source[k]
    ensures forall k :: k in meta && k !in source ==> r[k] == meta[k]
  {
    meta + source
  }

  /** No field name starts with `_` (true of everything a constructor produced). */
  predicate NoPrivate(f: Fields) {
    forall k :: k in f ==> !Private(k)
  }

  /**
   * The flat view with metadata read back through a constructor gives the same fields,
   * and a Service gets its id back from `_id`: this is how documents travel through pipes.
   */
  lemma FlatViewRoundTrip(kind: Kind, id: Option<string>, f: Fields, indexName: string)
    requires NoPrivate(f)
    ensures DropPrivate(Flatten(Meta(kind, id, indexName), f)) == f
    ensures kind == Service && id.Some? ==> InitialId(kind, Flatten(Meta(kind, id, indexName), f), None) == id
  {
    var flat := Flatten(Meta(kind, id, indexName), f);
    assert DropPrivate(flat).Keys == f.Keys;
  }

  /** A document object: its kind, its id (`meta.id`) and its fields. */
  class Doc {
    const kind: Kind
    var id: Option<string>
    var fields: Fields

    /** `Kind(**kwargs)`. */
    constructor (kind: Kind, kwargs: Fields)
      ensures this.kind == kind
      ensures fields == DropPrivate(kwargs)
      ensures id == InitialId(kind, kwargs, None)
    {
      this.kind := kind;
      fields := DropPrivate(kwargs);
      id := InitialId(kind, kwargs, None);
    }

    /** A document built from a search or get hit with id `hitId` and stored `source`. */
    constructor FromHit(kind: Kind, hitId: string, source: Fields)
      ensures this.kind == kind
      ensures fields == DropPrivate(source)
      ensures id == InitialId(kind, source, Some(hitId))
    {
      this.kind := kind;
      fields := DropPrivate(source);
      id := InitialId(kind, source, Some(hitId));
    }

    /**
     * `add_tag(tag)`: only the tags change, to a list; `ok` is false, and nothing
     * changes, when the tags are a true scalar that cannot be iterated (a TypeError).
     */
    method AddTag(tag: string) returns (ok: bool)
      modifies this
      ensures ok == Taggable(old(fields))
      ensures ok ==> fields == old(fields)["tags" := Many(WithTag(TagsOr(old(fields)), tag))]
      ensures !ok ==> fields == old(fields)
      ensures id == old(id)
    {
      if !Taggable(fields) {
        return false;
      }
      fields := fields["tags" := Many(WithTag(TagsOr(fields), tag))];
      ok := true;
    }

    /**
     * `save()`: stamps created_at (on every call), takes the id from the key field for
     * Range, Host and User, and indexes the whole document under that id (or under a
     * generated id when there is none), which becomes the document's id.
     */
    method Save(idx: Index, now: int, autoId: string)
      requires idx.Valid()
      modifies this, idx
      ensures idx.Valid()
      ensures fields == old(fields)["created_at" := One(Stamp(now))]
      ensures id == Some(StoreKey(SaveId(kind, old(id), old(fields)), autoId))
      ensures idx.docs == old(idx.docs)[id.value := fields]
      ensures idx.order == if id.value in old(idx.docs) then old(idx.order) else old(idx.order) + [id.value]
    {
      id := SaveId(kind, id, fields);
      fields := fields["created_at" := One(Stamp(now))];
      var key := StoreKey(id, autoId);
      idx.Put(key, fields);
      id := Some(key);
    }

    /**
     * `update(**upd)`: stamps updated_at on the object and merges `upd` into it, then
     * sends only `upd` to the stored document. No fields, no id, or no stored document
     * means Elasticsearch refuses the update (`ok` is false) and the store is unchanged.
     */
    method Update(idx: Index, now: int, upd: Fields) returns (ok: bool)
      requires idx.Valid()
      modifies this, idx
      ensures idx.Valid()
      ensures fields == old(fields)["updated_at" := One(Stamp(now))] + upd
      ensures id == old(id)
      ensures ok == (upd != map[] && id.Some? && id.value != "" && id.value in old(idx.docs))
      ensures idx.docs == if ok then old(idx.docs)[id.value := old(idx.docs)[id.value] + upd] else old(idx.docs)
      ensures idx.order == old(idx.order)
    {
      fields := fields["updated_at" := One(Stamp(now))];
      if upd == map[] {
        assert fields + upd == fields;
        ok := false;
        return;
      }
      fields := fields + upd;
      if id.Some? && id.value != "" {
        ok := idx.Patch(id.value, upd);
      } else {
        ok := false;
      }
    }

    /** `to_dict(include_meta)`: the fields, with the metadata entries when asked for. */
    function ToDict(includeMeta: bool, indexName: string): (r: Fields)
      reads this
      ensures !includeMeta ==> r == fields
      ensures includeMeta ==> r == Flatten(Meta(kind, id, indexName), fields)
    {
      if includeMeta then Flatten(Meta(kind, id, indexName), fields) else fields
    }
  }
}
