/** The in-memory store of analyses (server/storage.ts, `MemStorage`): a
    counter that hands out ids from 1 upwards and a map from id to the stored
    record. The record type is a parameter; the route stores its batch. */
module Storage {
  import opened Wrappers

  /** `{ ...analysis, id }`: the saved value with the id it was given. */
  datatype Stored<T> = Stored(id: int, analysis: T)

  class MemStorage<T> {
    var analyses: map<int, Stored<T>>
    var currentId: int

    /** The keys are exactly the ids handed out so far, `1 .. currentId - 1`,
        and every record carries its own key. */
    ghost predicate Valid()
      reads this
    {
      && currentId >= 1
      && (forall id :: id in analyses <==> 1 <= id < currentId)
      && (forall id :: id in analyses ==> analyses[id].id == id)
    }

    constructor ()
      ensures Valid() && analyses == map[] && currentId == 1
    {
      analyses := map[];
      currentId := 1;
    }

    /** `saveAnalysis(analysis)`: takes the next id, stores the record under
        it and returns the record. The id was free, and no other id's record
        changes. */
    method SaveAnalysis(analysis: T) returns (saved: Stored<T>)
      requires Valid()
      modifies this
      ensures Valid()
      ensures saved == Stored(old(currentId), analysis)
      ensures saved.id !in old(analyses)
      ensures currentId == old(currentId) + 1
      ensures analyses == old(analyses)[saved.id := saved]
    {
      var id := currentId;
      currentId := currentId + 1;
      saved := Stored(id, analysis);
      analyses := analyses[id := saved];
    }

    /** `getAnalysis(id)`: the record saved under `id`, or nothing when no
        save returned that id. */
    method GetAnalysis(id: int) returns (found: Option<Stored<T>>)
      requires Valid()
      ensures found.Some? <==> 1 <= id < currentId
      ensures found.Some? ==> found.value.id == id && found.value == analyses[id]
    {
      if id in analyses {
        found := Some(analyses[id]);
      } else {
        found := None;
      }
    }
  }

  /** A client of the store: two saves get ids 1 and 2, and each id gives
      back what was saved under it. */
  method SaveTwice<T>(first: T, second: T) returns (a: Option<Stored<T>>, b: Option<Stored<T>>)
    ensures a == Some(Stored(1, first)) && b == Some(Stored(2, second))
  {
    var store := new MemStorage<T>();
    var one := store.SaveAnalysis(first);
    var two := store.SaveAnalysis(second);
    a := store.GetAnalysis(one.id);
    b := store.GetAnalysis(two.id);
  }
}
