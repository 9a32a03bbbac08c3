/**
 * Stored records as the two local stores keep them: JSON objects, read back
 * with JSON.parse on every call. Field access, `===`, truthiness, object
 * spread, and the id-keyed searches both stores perform.
 */
module Records {
  import opened Wrappers
  import opened Seqs

  /** A JSON value; `Undefined` is what reading an absent field yields. */
  datatype Value =
    | Undefined
    | Null
    | Bool(b: bool)
    | Num(n: int)
    | Str(s: string)
    | List(items: seq<Value>)
    | Obj(fields: map<string, Value>)

  type Record = map<string, Value>

  /** `record[key]`. */
  function Get(r: Record, key: string): (v: Value)
    ensures key !in r ==> v == Undefined
  {
    if key in r then r[key] else Undefined
  }

  /** `a === b`. Arrays and objects compare by reference; JSON.parse builds
      fresh ones on every read, so a stored one is never `===` another value. */
  predicate StrictEquals(a: Value, b: Value) {
    match a
    case List(_) => false
    case Obj(_) => false
    case _ => a == b
  }

  /** JavaScript truthiness. */
  predicate Truthy(v: Value) {
    match v
    case Undefined => false
    case Null => false
    case Bool(b) => b
    case Num(n) => n != 0
    case Str(s) => s != ""
    case List(_) => true
    case Obj(_) => true
  }

  /** `{...a, ...b}`: every field of b, and the fields of a that b does not set. */
  function Spread(a: Record, b: Record): (r: Record)
    ensures r.Keys == a.Keys + b.Keys
    ensures forall k :: k in b ==> r[k] == b[k]
    ensures forall k :: k in a && k !in b ==> r[k] == a[k]
  {
    a + b
  }

  /** `item.id === id` for a string id. */
  predicate HasId(item: Record, id: string) {
    Get(item, "id") == Str(id)
  }

  /** `items.findIndex(item => item.id === id)`. */
  function IndexOfId(items: seq<Record>, id: string): (k: int)
    ensures -1 <= k < |items|
    ensures 0 <= k ==> HasId(items[k], id)
    ensures forall j :: 0 <= j < |items| && (k < 0 || j < k) ==> !HasId(items[j], id)
  {
    FindIndex(items, (r: Record) => HasId(r, id))
  }

  /** `items.find(item => item.id === id) || null`. */
  function FindById(items: seq<Record>, id: string): (r: Option<Record>)
    ensures r.None? <==> forall x :: x in items ==> !HasId(x, id)
    ensures r.Some? ==> 0 <= IndexOfId(items, id) && r.value == items[IndexOfId(items, id)]
  {
    var k := IndexOfId(items, id);
    if k < 0 then None else Some(items[k])
  }

  /** `items.filter(item => item.id !== id)`. */
  function WithoutId(items: seq<Record>, id: string): (r: seq<Record>)
    ensures forall x :: x in r ==> x in items && !HasId(x, id)
    ensures forall x :: x in items && !HasId(x, id) ==> x in r
    ensures |r| <= |items|
  {
    Filter(items, (r: Record) => !HasId(r, id))
  }

  /** Removing an absent id changes nothing. */
  lemma WithoutAbsentId(items: seq<Record>, id: string)
    requires forall x :: x in items ==> !HasId(x, id)
    ensures WithoutId(items, id) == items
  {
  }

  /** Removing the same id twice is removing it once. */
  lemma WithoutIdIdempotent(items: seq<Record>, id: string)
    ensures WithoutId(WithoutId(items, id), id) == WithoutId(items, id)
  {
    FilterOfFilter(items, (r: Record) => !HasId(r, id), (r: Record) => !HasId(r, id));
  }

  /** The records with the first `id` match replaced by its merge with `patch`. */
  function MergeFirst(items: seq<Record>, id: string, patch: Record): (r: seq<Record>)
    requires 0 <= IndexOfId(items, id)
    ensures |r| == |items|
    ensures r[IndexOfId(items, id)] == Spread(items[IndexOfId(items, id)], patch)
    ensures forall j :: 0 <= j < |items| && j != IndexOfId(items, id) ==> r[j] == items[j]
  {
    var k := IndexOfId(items, id);
    items[k := Spread(items[k], patch)]
  }

  /** `Object.entries(criteria).every(([key, value]) => item[key] === value)`. */
  predicate Matches(item: Record, criteria: Record) {
    forall key :: key in criteria ==> StrictEquals(Get(item, key), criteria[key])
  }

  /** Every record matches empty criteria. */
  lemma EmptyCriteriaMatchAll(item: Record)
    ensures Matches(item, map[])
  {
  }
}
