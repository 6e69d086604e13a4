/**
 * `Entry` (entry.go): per-key, per-process bookkeeping of which goroutines
 * currently hold the key locally, with a reenter count per goroutine.
 */
module Entries {
  import opened Goroutines

  /** The `GoroutineID` map: goroutine id to local reenter count (a Go `int`). */
  type Counts = map<GoroutineId, int>

  /** The invariant the two update operations keep: every stored count is at least 1. */
  predicate CountsPositive(m: Counts) {
    forall g :: g in m ==> m[g] >= 1
  }

  /** The map after `addGoroutineId(g)` (entry.go:13-21). */
  function Added(m: Counts, g: GoroutineId): (r: Counts)
    ensures r.Keys == m.Keys + {g}
    ensures g !in m ==> r[g] == 1
    ensures g in m ==> r[g] == m[g] + 1
    ensures forall h :: h in m && h != g ==> r[h] == m[h]
    ensures CountsPositive(m) ==> CountsPositive(r)
  {
    m[g := if g in m then m[g] + 1 else 1]
  }

  /** The map after `removeGoroutineId(g)` (entry.go:23-34). */
  function Removed(m: Counts, g: GoroutineId): (r: Counts)
    ensures g !in m ==> r == m
    ensures g in m && m[g] == 1 ==> r.Keys == m.Keys - {g}
    ensures g in m && m[g] != 1 ==> r.Keys == m.Keys && r[g] == m[g] - 1
    ensures forall h :: h in r && h != g ==> h in m && r[h] == m[h]
    ensures CountsPositive(m) ==> CountsPositive(r)
  {
    if g !in m then m
    else if m[g] - 1 == 0 then m - {g}
    else m[g := m[g] - 1]
  }

  class Entry {
    var goroutineIds: Counts

    /** `NewEntry` (entry.go:7-11): an entry with no goroutine. */
    constructor ()
      ensures goroutineIds == map[]
      ensures HasNoGoroutine()
    {
      goroutineIds := map[];
    }

    method AddGoroutineId(goroutineId: GoroutineId)
      modifies this
      ensures goroutineIds == Added(old(goroutineIds), goroutineId)
    {
      var count: int;
      var ok := goroutineId in goroutineIds;
      if ok {
        count := goroutineIds[goroutineId];
        count := count + 1;
      } else {
        count := 1;
      }
      goroutineIds := goroutineIds[goroutineId := count];
    }

    method RemoveGoroutineId(goroutineId: GoroutineId)
      modifies this
      ensures goroutineIds == Removed(old(goroutineIds), goroutineId)
    {
      if goroutineId !in goroutineIds {
        return;
      }
      var count := goroutineIds[goroutineId];
      count := count - 1;
      if count == 0 {
        goroutineIds := goroutineIds - {goroutineId};
      } else {
        goroutineIds := goroutineIds[goroutineId := count];
      }
    }

    /** `hasNoGoroutine` (entry.go:36-38): `len(GoroutineID) == 0`. */
    function HasNoGoroutine(): (r: bool)
      reads this
      ensures r <==> goroutineIds == map[]
      ensures r ==> forall g: GoroutineId :: g !in goroutineIds
    {
      |goroutineIds| == 0
    }
  }

  /** Adding a goroutine and then removing it gives back the original map. */
  lemma AddThenRemoveRestores(m: Counts, g: GoroutineId)
    requires g in m ==> m[g] != 0
    ensures Removed(Added(m, g), g) == m
  {
  }

  /** Removing a present goroutine and adding it back gives back the original map. */
  lemma RemoveThenAddRestores(m: Counts, g: GoroutineId)
    requires g in m
    ensures Added(Removed(m, g), g) == m
  {
  }

  /** The map after `k` successive `addGoroutineId(g)`. */
  function AddedTimes(m: Counts, g: GoroutineId, k: nat): (r: Counts)
    decreases k
  {
    if k == 0 then m else Added(AddedTimes(m, g, k - 1), g)
  }

  /** The map after `k` successive `removeGoroutineId(g)`. */
  function RemovedTimes(m: Counts, g: GoroutineId, k: nat): (r: Counts)
    decreases k
  {
    if k == 0 then m else RemovedTimes(Removed(m, g), g, k - 1)
  }

  lemma {:induction false} AddedTimesCount(m: Counts, g: GoroutineId, k: nat)
    requires CountsPositive(m)
    ensures CountsPositive(AddedTimes(m, g, k))
    ensures k > 0 ==> g in AddedTimes(m, g, k)
    ensures k > 0 ==> AddedTimes(m, g, k)[g] == (if g in m then m[g] else 0) + k
    decreases k
  {
    if k > 0 {
      AddedTimesCount(m, g, k - 1);
    }
  }

  /**
   * k adds of one goroutine followed by k removes of it restore the map; on a
   * fresh entry this leaves `hasNoGoroutine` true again.
   */
  lemma {:induction false} AddsThenRemovesRestore(m: Counts, g: GoroutineId, k: nat)
    requires CountsPositive(m)
    ensures RemovedTimes(AddedTimes(m, g, k), g, k) == m
    decreases k
  {
    if k > 0 {
      var before := AddedTimes(m, g, k - 1);
      AddedTimesCount(m, g, k - 1);
      AddThenRemoveRestores(before, g);
      calc {
        RemovedTimes(AddedTimes(m, g, k), g, k);
        RemovedTimes(Removed(Added(before, g), g), g, k - 1);
        RemovedTimes(before, g, k - 1);
        { AddsThenRemovesRestore(m, g, k - 1); }
        m;
      }
    }
  }

  lemma FreshEntryRoundTrip(g: GoroutineId, k: nat)
    ensures RemovedTimes(AddedTimes(map[], g, k), g, k) == map[]
    ensures k > 0 ==> AddedTimes(map[], g, k) != map[]
  {
    AddsThenRemovesRestore(map[], g, k);
    AddedTimesCount(map[], g, k);
  }
}
