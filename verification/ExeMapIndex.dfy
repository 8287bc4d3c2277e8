/** The relation between executables and maps, stored once in each direction. */
module ExeMapIndexStore {
  import opened Domain

  predicate Has<K, V>(side: map<K, set<V>>, k: K, v: V) {
    k in side && v in side[k]
  }

  ghost predicate NoneEmpty<K, V>(side: map<K, set<V>>) {
    forall k :: k in side ==> side[k] != {}
  }

  function With<K(!new), V(!new)>(side: map<K, set<V>>, k: K, v: V): (r: map<K, set<V>>)
    ensures forall x, y :: Has(r, x, y) <==> Has(side, x, y) || (x == k && y == v)
    ensures NoneEmpty(side) ==> NoneEmpty(r)
  {
    var grown := (if k in side then side[k] else {}) + {v};
    assert v in grown;
    side[k := grown]
  }

  // Taking one entry out of one side; a set that empties is dropped.
  function Without<K(!new), V(!new)>(side: map<K, set<V>>, k: K, v: V): (r: map<K, set<V>>)
    ensures forall x, y :: Has(r, x, y) <==> Has(side, x, y) && !(x == k && y == v)
    ensures NoneEmpty(side) ==> NoneEmpty(r)
  {
    if k in side then
      var left := side[k] - {v};
      if left == {} then
        assert forall y :: Has(side, k, y) ==> y == v || y in left;
        side - {k}
      else side[k := left]
    else side
  }

  class ExeMapIndex {
    var exeToMaps: map<ExeId, set<MapId>>
    var mapToExes: map<MapId, set<ExeId>>

    // The two sides are mutually inverse and hold no empty sets.
    ghost predicate Valid()
      reads this
    {
      && (forall e, m :: Has(exeToMaps, e, m) <==> Has(mapToExes, m, e))
      && NoneEmpty(exeToMaps) && NoneEmpty(mapToExes)
    }

    ghost predicate Related(e: ExeId, m: MapId)
      reads this
    {
      Has(exeToMaps, e, m)
    }

    constructor ()
      ensures Valid() && forall e, m :: !Related(e, m)
    {
      exeToMaps, mapToExes := map[], map[];
    }

    method Attach(exeId: ExeId, mapId: MapId)
      requires Valid()
      modifies this
      ensures Valid()
      ensures forall e, m :: Related(e, m) <==> old(Related(e, m)) || (e == exeId && m == mapId)
    {
      exeToMaps := With(exeToMaps, exeId, mapId);
      mapToExes := With(mapToExes, mapId, exeId);
    }

    // The maps linked to an executable, and the executables linked to a map.
    method MapsForExe(exeId: ExeId) returns (maps: set<MapId>)
      requires Valid()
      ensures forall m :: m in maps <==> Related(exeId, m)
    {
      maps := if exeId in exeToMaps then exeToMaps[exeId] else {};
    }

    method ExesForMap(mapId: MapId) returns (exes: set<ExeId>)
      requires Valid()
      ensures forall e :: e in exes <==> Related(e, mapId)
    {
      exes := if mapId in mapToExes then mapToExes[mapId] else {};
    }

    method DetachMap(mapId: MapId)
      requires Valid()
      modifies this
      ensures Valid()
      ensures forall e, m :: Related(e, m) <==> old(Related(e, m)) && m != mapId
    {
      if mapId !in mapToExes {
        return;
      }
      var todo := mapToExes[mapId];
      mapToExes := mapToExes - {mapId};
      ghost var done: set<ExeId> := {};
      while todo != {}
        invariant mapToExes == old(mapToExes) - {mapId}
        invariant done + todo == old(mapToExes)[mapId]
        invariant forall e, m :: Has(exeToMaps, e, m) <==> Has(old(exeToMaps), e, m) && !(m == mapId && e in done)
        invariant NoneEmpty(exeToMaps)
        decreases todo
      {
        var exeId :| exeId in todo;
        todo, done := todo - {exeId}, done + {exeId};
        exeToMaps := Without(exeToMaps, exeId, mapId);
      }
      assert forall e, m :: Has(mapToExes, m, e) <==> Has(old(mapToExes), m, e) && m != mapId;
      assert forall e :: Has(old(mapToExes), mapId, e) <==> e in done;
    }

    method RemoveExe(exeId: ExeId)
      requires Valid()
      modifies this
      ensures Valid()
      ensures forall e, m :: Related(e, m) <==> old(Related(e, m)) && e != exeId
    {
      if exeId !in exeToMaps {
        return;
      }
      var todo := exeToMaps[exeId];
      exeToMaps := exeToMaps - {exeId};
      ghost var done: set<MapId> := {};
      while todo != {}
        invariant exeToMaps == old(exeToMaps) - {exeId}
        invariant done + todo == old(exeToMaps)[exeId]
        invariant forall e, m :: Has(mapToExes, m, e) <==> Has(old(mapToExes), m, e) && !(e == exeId && m in done)
        invariant NoneEmpty(mapToExes)
        decreases todo
      {
        var mapId :| mapId in todo;
        todo, done := todo - {mapId}, done + {mapId};
        mapToExes := Without(mapToExes, mapId, exeId);
      }
      assert forall e, m :: Has(exeToMaps, e, m) <==> Has(old(exeToMaps), e, m) && e != exeId;
      assert forall m :: Has(old(exeToMaps), exeId, m) <==> m in done;
    }
  }
}
