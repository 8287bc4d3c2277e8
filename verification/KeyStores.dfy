/** The executable store and the map store: a slot table and a key index that must agree. */
module KeyStores {
  import opened Domain
  import opened Model

  class ExeStore {
    var exes: seq<Exe>
    var byKey: map<Path, ExeId>

    ghost predicate Valid()
      reads this
    {
      && Distinct(exes)
      && (forall p :: p in byKey ==> byKey[p] < |exes| && exes[byKey[p]].path == p)
      && (forall i :: 0 <= i < |exes| ==> exes[i].path in byKey)
    }

    constructor ()
      ensures Valid() && exes == []
    {
      exes, byKey := [], map[];
    }

    // The index answers what a search of the slot table would.
    method IdByKey(path: Path) returns (id: Option<ExeId>)
      requires Valid()
      ensures id == if Slot(exes, path) < |exes| then Some(Slot(exes, path)) else None
    {
      id := if path in byKey then Some(byKey[path]) else None;
      ghost var i := Slot(exes, path);
      assert i < |exes| ==> exes[i].path in byKey;
    }

    method Ensure(path: Path) returns (id: ExeId)
      requires Valid()
      modifies this
      ensures Valid() && id == Slot(old(exes), path) && exes == EnsureExe(old(exes), path)
    {
      ghost var i := Slot(exes, path);
      assert i < |exes| ==> exes[i].path in byKey;
      if path in byKey {
        return byKey[path];
      }
      id := |exes|;
      exes := exes + [NewExe(path)];
      byKey := byKey[path := id];
    }

    // Writing an executable through a mutable reference; its key cannot be changed.
    method Put(id: ExeId, e: Exe)
      requires Valid() && id < |exes| && e.path == exes[id].path
      modifies this
      ensures Valid() && exes == old(exes)[id := e]
    {
      exes := exes[id := e];
    }
  }

  class MapStore {
    var maps: map<MapId, MapSegment>
    var byKey: map<MapKey, MapId>
    var nextId: MapId

    ghost predicate Valid()
      reads this
    {
      && (forall i :: i in maps ==> i < nextId && maps[i].Key() in byKey && byKey[maps[i].Key()] == i)
      && (forall k :: k in byKey ==> byKey[k] in maps && maps[byKey[k]].Key() == k)
    }

    // The store seen as one map from keys to segments.
    ghost function View(): (r: map<MapKey, MapSegment>)
      requires Valid()
      reads this
      ensures r.Keys == byKey.Keys
    {
      map k | k in byKey :: maps[byKey[k]]
    }

    constructor ()
      ensures Valid() && View() == map[] && maps == map[]
    {
      maps, byKey, nextId := map[], map[], 0;
    }

    method EnsureWithFlag(segment: MapSegment) returns (id: MapId, isNew: bool)
      requires Valid()
      modifies this
      ensures Valid() && id in maps && maps[id].Key() == segment.Key()
      ensures isNew <==> segment.Key() !in old(View())
      ensures isNew ==> View() == old(View())[segment.Key() := segment] && id !in old(maps) && maps == old(maps)[id := segment]
      ensures !isNew ==> View() == old(View()) && maps == old(maps)
    {
      var key := segment.Key();
      if key in byKey {
        return byKey[key], false;
      }
      id := nextId;
      nextId := nextId + 1;
      maps := maps[id := segment];
      byKey := byKey[key := id];
      isNew := true;
    }

    method IdByKey(key: MapKey) returns (id: Option<MapId>)
      requires Valid()
      ensures id.Some? <==> key in View()
      ensures id.Some? ==> id.value in maps && maps[id.value].Key() == key
      ensures id.None? ==> forall i :: i in maps ==> maps[i].Key() != key
    {
      id := if key in byKey then Some(byKey[key]) else None;
    }

    method Remove(id: MapId) returns (removed: bool)
      requires Valid()
      modifies this
      ensures Valid() && maps == old(maps) - {id}
      ensures removed <==> id in old(maps)
      ensures removed ==> View() == old(View()) - {old(maps)[id].Key()}
      ensures !removed ==> View() == old(View())
    {
      if id !in maps {
        assert maps == maps - {id};
        return false;
      }
      var segment := maps[id];
      maps := maps - {id};
      byKey := byKey - {segment.Key()};
      removed := true;
    }
  }
}
