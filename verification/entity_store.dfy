/**
 * The local stand-in for the hosted backend: each entity type keeps an array
 * of records in browser storage under the key `cleancoin_<EntityName>`.
 * Only UserProgress and CoinAsset exist. Ids and timestamps come from the
 * clock and a random source, so they are parameters here.
 */
module EntityStore {
  import opened Wrappers
  import Seqs
  import opened Records

  /** Browser storage as the stores use it: a key holds an array of records,
      and an absent (or unreadable) key reads as the empty array. */
  class LocalStorage {
    var data: map<string, seq<Record>>

    constructor ()
      ensures data == map[]
    {
      data := map[];
    }

    function Read(key: string): (items: seq<Record>)
      reads this
      ensures key !in data ==> items == []
    {
      if key in data then data[key] else []
    }
  }

  const MockUserEmail: string := "demo@cleancoin.app"
  const MockUserRole: string := "admin"

  /** The signed-in user `auth.me()` answers with. */
  const MockUser: Record := map["id" := Str("user-1"), "email" := Str(MockUserEmail),
                                "name" := Str("Demo User"), "role" := Str(MockUserRole)]

  function StorageKey(entityName: string): (key: string)
    ensures |key| == |"cleancoin_"| + |entityName|
    ensures key[..|"cleancoin_"|] == "cleancoin_"
  {
    "cleancoin_" + entityName
  }

  /** Different entity names never share a storage slot. */
  lemma StorageKeyInjective(a: string, b: string)
    ensures StorageKey(a) == StorageKey(b) ==> a == b
  {
    if StorageKey(a) == StorageKey(b) {
      assert a == StorageKey(a)[|"cleancoin_"|..];
    }
  }

  /** The message `update` throws for a missing id. */
  function NotFoundMessage(entityName: string, id: string): string {
    entityName + " with id " + id + " not found"
  }

  /** The record `create` appends: the caller's fields, then id, owner and timestamps. */
  function NewItem(data: Record, id: string, now: string): (item: Record)
    ensures Get(item, "id") == Str(id)
    ensures Get(item, "created_by") == Str(MockUserEmail)
    ensures Get(item, "created_at") == Str(now) && Get(item, "updated_at") == Str(now)
    ensures item.Keys == data.Keys + {"id", "created_by", "created_at", "updated_at"}
    ensures forall k :: k in data && k !in {"id", "created_by", "created_at", "updated_at"} ==> item[k] == data[k]
  {
    Spread(data, map["id" := Str(id), "created_by" := Str(MockUserEmail),
                     "created_at" := Str(now), "updated_at" := Str(now)])
  }

  /** The list/filter/get/create/update/delete methods of one entity type. */
  class EntityMethods {
    const entityName: string
    const storage: LocalStorage

    constructor (entityName: string, storage: LocalStorage)
      ensures this.entityName == entityName && this.storage == storage
    {
      this.entityName := entityName;
      this.storage := storage;
    }

    function Key(): string {
      StorageKey(entityName)
    }

    /** What this entity type currently stores. */
    function Items(): seq<Record>
      reads storage
    {
      storage.Read(Key())
    }

    method List() returns (items: seq<Record>)
      ensures items == Items()
    {
      items := storage.Read(Key());
    }

    /** The stored records whose fields are `===` to every criterion, in stored order. */
    method Filter(criteria: Record) returns (items: seq<Record>)
      ensures items == Seqs.Filter(Items(), (r: Record) => Matches(r, criteria))
      ensures forall r :: r in items <==> r in Items() && Matches(r, criteria)
    {
      items := Seqs.Filter(storage.Read(Key()), (r: Record) => Matches(r, criteria));
    }

    /** The first record with this id, or null. */
    method Get(id: string) returns (item: Option<Record>)
      ensures item == FindById(Items(), id)
      ensures item.None? <==> forall r :: r in Items() ==> !HasId(r, id)
      ensures item.Some? ==> item.value in Items() && HasId(item.value, id)
    {
      item := FindById(storage.Read(Key()), id);
    }

    /** Appends a new record under a fresh id and returns it; other entity types are untouched. */
    method Create(data: Record, freshId: string, now: string) returns (item: Record)
      modifies storage
      ensures item == NewItem(data, freshId, now)
      ensures storage.data == old(storage.data)[Key() := old(Items()) + [item]]
    {
      var items := storage.Read(Key());
      item := NewItem(data, freshId, now);
      storage.data := storage.data[Key() := items + [item]];
    }

    /** Merges `data` into the first record with this id and stamps it; throws when there is none. */
    method Update(id: string, data: Record, now: string) returns (result: Result<Record>)
      modifies storage
      ensures IndexOfId(old(Items()), id) < 0 ==>
        result == Failure(NotFoundMessage(entityName, id)) && storage.data == old(storage.data)
      ensures 0 <= IndexOfId(old(Items()), id) ==>
        var k := IndexOfId(old(Items()), id);
        var patch := Spread(data, map["updated_at" := Str(now)]);
        && result == Success(Spread(old(Items())[k], patch))
        && storage.data == old(storage.data)[Key() := MergeFirst(old(Items()), id, patch)]
    {
      var items := storage.Read(Key());
      var index := IndexOfId(items, id);
      if index != -1 {
        var patch := Spread(data, map["updated_at" := Str(now)]);
        var updated := MergeFirst(items, id, patch);
        storage.data := storage.data[Key() := updated];
        result := Success(updated[index]);
      } else {
        result := Failure(NotFoundMessage(entityName, id));
      }
    }

    /** Drops every record with this id (none is fine) and reports success. */
    method Delete(id: string) returns (success: bool)
      modifies storage
      ensures success
      ensures storage.data == old(storage.data)[Key() := WithoutId(old(Items()), id)]
    {
      var items := storage.Read(Key());
      storage.data := storage.data[Key() := WithoutId(items, id)];
      success := true;
    }
  }

  /** The client: the two entity types over one browser storage. */
  class Client {
    const storage: LocalStorage
    const userProgress: EntityMethods
    const coinAsset: EntityMethods

    constructor (storage: LocalStorage)
      ensures this.storage == storage
      ensures fresh(userProgress) && fresh(coinAsset)
      ensures userProgress.entityName == "UserProgress" && userProgress.storage == storage
      ensures coinAsset.entityName == "CoinAsset" && coinAsset.storage == storage
    {
      this.storage := storage;
      userProgress := new EntityMethods("UserProgress", storage);
      coinAsset := new EntityMethods("CoinAsset", storage);
    }
  }

  /** The two entity types live under different keys, so a write to one leaves the other's records as they were. */
  lemma EntitiesIsolated(data: map<string, seq<Record>>, items: seq<Record>)
    ensures StorageKey("UserProgress") != StorageKey("CoinAsset")
    ensures var after := data[StorageKey("UserProgress") := items];
      (StorageKey("CoinAsset") in after <==> StorageKey("CoinAsset") in data) &&
      (StorageKey("CoinAsset") in data ==> after[StorageKey("CoinAsset")] == data[StorageKey("CoinAsset")])
  {
    StorageKeyInjective("UserProgress", "CoinAsset");
  }
}
