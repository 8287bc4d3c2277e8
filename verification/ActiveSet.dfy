/** The executables seen recently, each with the time it was last seen. */
module ActiveSetStore {
  import opened Domain
  import opened Model

  class ActiveSet {
    var lastSeen: map<ExeId, U64>

    constructor ()
      ensures lastSeen == map[]
    {
      lastSeen := map[];
    }

    method Update(activeNow: set<ExeId>, now: U64)
      modifies this
      ensures lastSeen == Touch(old(lastSeen), activeNow, now)
    {
      var todo := activeNow;
      ghost var done: set<ExeId> := {};
      while todo != {}
        invariant done + todo == activeNow && done !! todo
        invariant lastSeen == Touch(old(lastSeen), done, now)
        decreases todo
      {
        var id :| id in todo;
        todo, done := todo - {id}, done + {id};
        lastSeen := lastSeen[id := now];
      }
      assert done == activeNow;
    }

    // Drop whoever was last seen before the window, and say who was dropped.
    method Prune(now: U64, window: U64) returns (removed: set<ExeId>)
      modifies this
      ensures lastSeen == Expire(old(lastSeen), now, window)
      ensures removed == old(lastSeen).Keys - lastSeen.Keys
    {
      removed := set id | id in lastSeen && SatSub(now, lastSeen[id]) > window;
      lastSeen := map id | id in lastSeen && SatSub(now, lastSeen[id]) <= window :: lastSeen[id];
    }

    method Exes() returns (ids: set<ExeId>)
      ensures ids == lastSeen.Keys
    {
      ids := lastSeen.Keys;
    }
  }
}
