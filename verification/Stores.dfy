/** All stores together, and the one model state they represent. */
module StoresModule {
  import opened Domain
  import opened MarkovGraphStore
  import opened Model
  import opened KeyStores
  import opened ExeMapIndexStore
  import opened ActiveSetStore

  // One side of the index with map ids replaced by the keys they stand for.
  ghost function KeyedLinks(side: map<ExeId, set<MapId>>, maps: map<MapId, MapSegment>): set<(ExeId, MapKey)> {
    set e, m | e in side && m in side[e] && m in maps :: (e, maps[m].Key())
  }

  lemma LinksIgnoreNewMap(side: map<ExeId, set<MapId>>, maps: map<MapId, MapSegment>, id: MapId, segment: MapSegment)
    requires forall e, m :: Has(side, e, m) ==> m in maps
    requires id !in maps
    ensures KeyedLinks(side, maps[id := segment]) == KeyedLinks(side, maps)
  {
    forall e, m | Has(side, e, m)
      ensures m in maps[id := segment] && maps[id := segment][m] == maps[m]
    {
    }
    forall l | l in KeyedLinks(side, maps)
      ensures l in KeyedLinks(side, maps[id := segment])
    {
      var m :| m in side[l.0] && m in maps && maps[m].Key() == l.1;
      assert Has(side, l.0, m);
    }
    forall l | l in KeyedLinks(side, maps[id := segment])
      ensures l in KeyedLinks(side, maps)
    {
      var m :| m in side[l.0] && m in maps[id := segment] && maps[id := segment][m].Key() == l.1;
      assert Has(side, l.0, m);
    }
  }

  lemma LinksLoseRemovedMap(side: map<ExeId, set<MapId>>, side': map<ExeId, set<MapId>>, maps: map<MapId, MapSegment>, id: MapId)
    requires id in maps && forall m :: m in maps && maps[m].Key() == maps[id].Key() ==> m == id
    requires forall e, m :: Has(side', e, m) <==> Has(side, e, m) && m != id
    ensures KeyedLinks(side', maps - {id}) == set l | l in KeyedLinks(side, maps) && l.1 != maps[id].Key()
  {
    forall l | l in KeyedLinks(side', maps - {id})
      ensures l in KeyedLinks(side, maps) && l.1 != maps[id].Key()
    {
      var m :| m in side'[l.0] && m in maps - {id} && maps[m].Key() == l.1;
      assert Has(side', l.0, m);
    }
    forall l | l in KeyedLinks(side, maps) && l.1 != maps[id].Key()
      ensures l in KeyedLinks(side', maps - {id})
    {
      var m :| m in side[l.0] && m in maps && maps[m].Key() == l.1;
      assert Has(side, l.0, m);
      assert Has(side', l.0, m);
      assert m in maps - {id} && (maps - {id})[m].Key() == l.1;
    }
  }

  lemma LinksGainPair(side: map<ExeId, set<MapId>>, side': map<ExeId, set<MapId>>, maps: map<MapId, MapSegment>,
                      exeId: ExeId, mapId: MapId)
    requires mapId in maps
    requires forall e, m :: Has(side', e, m) <==> Has(side, e, m) || (e == exeId && m == mapId)
    ensures KeyedLinks(side', maps) == KeyedLinks(side, maps) + {(exeId, maps[mapId].Key())}
  {
    forall l | l in KeyedLinks(side', maps)
      ensures l in KeyedLinks(side, maps) + {(exeId, maps[mapId].Key())}
    {
      var m :| m in side'[l.0] && m in maps && maps[m].Key() == l.1;
      assert Has(side', l.0, m);
    }
    forall l | l in KeyedLinks(side, maps)
      ensures l in KeyedLinks(side', maps)
    {
      var m :| m in side[l.0] && m in maps && maps[m].Key() == l.1;
      assert Has(side, l.0, m);
      assert Has(side', l.0, m);
    }
    assert Has(side', exeId, mapId);
  }

  // The executables linked to a key are those the index lists for the map with that key.
  lemma LinksByMapId(side: map<ExeId, set<MapId>>, maps: map<MapId, MapSegment>, id: MapId, exes: set<ExeId>)
    requires id in maps && forall m :: m in maps && maps[m].Key() == maps[id].Key() ==> m == id
    requires forall e :: e in exes <==> Has(side, e, id)
    ensures exes == set l | l in KeyedLinks(side, maps) && l.1 == maps[id].Key() :: l.0
  {
    forall l | l in KeyedLinks(side, maps) && l.1 == maps[id].Key()
      ensures l.0 in exes
    {
      var m :| m in side[l.0] && m in maps && maps[m].Key() == l.1;
      assert Has(side, l.0, m);
    }
    forall e | e in exes
      ensures (e, maps[id].Key()) in KeyedLinks(side, maps)
    {
      assert Has(side, e, id);
    }
    assert forall e :: e in exes ==> (e, maps[id].Key()).0 == e && (e, maps[id].Key()).1 == maps[id].Key();
  }

  class Stores {
    const exes: ExeStore
    const maps: MapStore
    const exeMaps: ExeMapIndex
    const markov: MarkovGraph
    const active: ActiveSet
    var modelTime: U64
    var lastAccounting: U64

    // Every store is consistent, and the index mentions only live executables and maps.
    ghost predicate Valid()
      reads this, exes, maps, exeMaps, markov, active
    {
      && exes.Valid() && maps.Valid() && exeMaps.Valid() && markov.Valid()
      && (forall e: ExeId, m: MapId :: exeMaps.Related(e, m) ==> e < |exes.exes| && m in maps.maps)
    }

    ghost function Links(): set<(ExeId, MapKey)>
      reads maps, exeMaps
    {
      KeyedLinks(exeMaps.exeToMaps, maps.maps)
    }

    ghost function View(): State
      requires Valid()
      reads this, exes, maps, exeMaps, markov, active
    {
      State(exes.exes, maps.View(), Links(), markov.View(), active.lastSeen, modelTime, lastAccounting)
    }

    constructor ()
      ensures Valid() && View() == EMPTY
      ensures fresh(exes) && fresh(maps) && fresh(exeMaps) && fresh(markov) && fresh(active)
    {
      exes := new ExeStore();
      maps := new MapStore();
      exeMaps := new ExeMapIndex();
      markov := new MarkovGraph();
      active := new ActiveSet();
      modelTime, lastAccounting := 0, 0;
    }

    method EnsureExe(path: Path) returns (id: ExeId)
      requires Valid()
      modifies exes
      ensures Valid() && id == Slot(old(View()).exes, path)
      ensures View() == old(View()).(exes := Model.EnsureExe(old(View()).exes, path))
    {
      id := exes.Ensure(path);
      assert Links() == old(Links());
    }

    method EnsureMapWithFlag(segment: MapSegment) returns (id: MapId, isNew: bool)
      requires Valid()
      modifies maps
      ensures Valid() && id in maps.maps && maps.maps[id].Key() == segment.Key()
      ensures isNew <==> segment.Key() !in old(View()).maps
      ensures View() == old(View()).(maps :=
                if isNew then old(View()).maps[segment.Key() := segment] else old(View()).maps)
    {
      id, isNew := maps.EnsureWithFlag(segment);
      assert forall e: ExeId, m: MapId :: Has(exeMaps.exeToMaps, e, m) ==> exeMaps.Related(e, m);
      if isNew {
        LinksIgnoreNewMap(exeMaps.exeToMaps, old(maps.maps), id, segment);
      }
    }

    method AttachMap(exeId: ExeId, mapId: MapId)
      requires Valid() && exeId < |exes.exes| && mapId in maps.maps
      modifies exeMaps
      ensures Valid()
      ensures View() == old(View()).(links := old(View()).links + {(exeId, maps.maps[mapId].Key())})
    {
      exeMaps.Attach(exeId, mapId);
      assert forall e: ExeId, m: MapId :: exeMaps.Related(e, m) <==> Has(exeMaps.exeToMaps, e, m);
      LinksGainPair(old(exeMaps.exeToMaps), exeMaps.exeToMaps, maps.maps, exeId, mapId);
    }

    // Removing a map also removes exactly the links to it.
    method RemoveMapByKey(key: MapKey)
      requires Valid()
      modifies maps, exeMaps
      ensures Valid() && View() == RemoveMap(old(View()), key)
    {
      var found := maps.IdByKey(key);
      if found.Some? {
        var id := found.value;
        exeMaps.DetachMap(id);
        var _ := maps.Remove(id);
        assert forall e: ExeId, m: MapId :: exeMaps.Related(e, m) <==> Has(exeMaps.exeToMaps, e, m);
        LinksLoseRemovedMap(old(exeMaps.exeToMaps), exeMaps.exeToMaps, old(maps.maps), id);
      } else {
        assert maps.View() == old(maps.View()) - {key};
        assert Links() == set l | l in old(Links()) && l.1 != key;
      }
    }
  }

  lemma LinksKnown(stores: Stores)
    requires stores.Valid()
    ensures forall l :: l in stores.Links() ==> l.0 < |stores.exes.exes| && l.1 in stores.maps.View()
  {
    forall l | l in stores.Links()
      ensures l.0 < |stores.exes.exes| && l.1 in stores.maps.View()
    {
      var m :| m in stores.exeMaps.exeToMaps[l.0] && m in stores.maps.maps && stores.maps.maps[m].Key() == l.1;
      assert Has(stores.exeMaps.exeToMaps, l.0, m);
      assert stores.exeMaps.Related(l.0, m);
    }
  }
}
