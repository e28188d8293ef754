/**
 * Field values of stored records. A record is a map from field name to value; a value
 * is a single atom or a list of atoms (an Elasticsearch multi-valued field).
 */
module Values {
  import opened Wrappers

  /** A scalar: a string, an integer (ports), a boolean, or a timestamp (a clock reading). */
  datatype Atom = Text(s: string) | Int(n: int) | Bool(b: bool) | Stamp(t: int)

  datatype Value = One(atom: Atom) | Many(items: seq<Atom>)

  type Fields = map<string, Value>

  /** Python truthiness of a scalar: "", 0 and False are false. */
  predicate Truthy(a: Atom) {
    match a
    case Text(s) => s != ""
    case Int(n) => n != 0
    case Bool(b) => b
    case Stamp(_) => true
  }

  /** The string a field holds, when it holds a single string. */
  function KeyText(f: Fields, key: string): (r: Option<string>)
    ensures r.Some? <==> key in f && f[key].One? && f[key].atom.Text?
    ensures r.Some? ==> f[key] == One(Text(r.value))
  {
    if key in f && f[key].One? && f[key].atom.Text? then Some(f[key].atom.s) else None
  }

  /** An Elasticsearch `term` match of `a` on `key`: the field is `a`, or is a list holding `a`. */
  predicate FieldHas(f: Fields, key: string, a: Atom) {
    key in f && (f[key] == One(a) || (f[key].Many? && a in f[key].items))
  }

  /** The key is unset or holds a list, so list operations on it are defined. */
  predicate ListOrUnset(f: Fields, key: string) {
    key !in f || f[key].Many?
  }

  /** `f.get(key, [])` on a list field. */
  function ListOr(f: Fields, key: string): (r: seq<Atom>)
    requires ListOrUnset(f, key)
    ensures key in f ==> f[key] == Many(r)
    ensures key !in f ==> r == []
  {
    if key in f then f[key].items else []
  }

  /** `obj.key.append(a)`: the list under `key` (empty when unset) gains `a` at its end. */
  function Append(f: Fields, key: string, a: Atom): (r: Fields)
    requires ListOrUnset(f, key)
    ensures r.Keys == f.Keys + {key}
    ensures r[key] == Many(ListOr(f, key) + [a])
    ensures forall k :: k in f && k != key ==> r[k] == f[k]
  {
    f[key := Many(ListOr(f, key) + [a])]
  }

  /** `obj.key.extend(xs)`: the list under `key` (empty when unset) gains `xs` at its end. */
  function Extend(f: Fields, key: string, xs: seq<Atom>): (r: Fields)
    requires ListOrUnset(f, key)
    ensures r.Keys == f.Keys + {key}
    ensures r[key] == Many(ListOr(f, key) + xs)
    ensures forall k :: k in f && k != key ==> r[k] == f[k]
  {
    f[key := Many(ListOr(f, key) + xs)]
  }

  /**
   * `obj.key = v` for an optional scalar: assigning None leaves no value (Elasticsearch
   * documents drop None fields when serialised).
   */
  function Assign(f: Fields, key: string, v: Option<Atom>): (r: Fields)
    ensures v.Some? ==> key in r && r[key] == One(v.value)
    ensures v.None? ==> key !in r
    ensures forall k :: k != key ==> (k in r <==> k in f) && (k in r ==> r[k] == f[k])
  {
    if v.Some? then f[key := One(v.value)] else f - {key}
  }

  /** A list of strings as a list of text atoms. */
  function Texts(xs: seq<string>): (r: seq<Atom>)
    ensures |r| == |xs|
    ensures forall k :: 0 <= k < |xs| ==> r[k] == Text(xs[k])
  {
    if xs == [] then [] else [Text(xs[0])] + Texts(xs[1..])
  }
}
