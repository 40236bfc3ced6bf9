/**
 One run of a cleanup policy: list stale rows, delete what can be deleted, and list again until
 nothing is left, nothing moves any more, or the lock's time is up. Other actors answer the
 repository calls; here any answer they could give is allowed.
 */
module CleanupRun {
  import opened Prelude
  import opened Blobs
  import opened BlobWorld
  import opened BlobBooks

  const BATCH_LIMIT := 500
  const MAX_NO_PROGRESS := 3

  datatype Ending = Exhausted | NoProgress | Aborted | DryRun | ListFailed

  // ---------------------------------------------------------------- bytes over all stores

  ghost function StoreTotal(store: Id, objects: map<string, Object>): int {
    Total(objects)
  }

  ghost function GrandTotal(objects: map<Id, map<string, Object>>): int {
    Sum(objects, StoreTotal)
  }

  lemma GrandTotalDrop(objects: map<Id, map<string, Object>>, s: Id, key: string)
    requires s in objects && key in objects[s]
    ensures GrandTotal(objects[s := objects[s] - {key}]) == GrandTotal(objects) - Weight(key, objects[s][key])
  {
    SumWith(objects, StoreTotal, s, objects[s] - {key});
    SumWithout(objects[s], Weight, key);
  }

  // ---------------------------------------------------------------- the sums a report is about

  function SizeOf(w: World, ids: seq<nat>): nat
    requires forall id :: id in ids ==> id in w.rows
  {
    if ids == [] then 0 else SizeOf(w, ids[..|ids| - 1]) + w.rows[ids[|ids| - 1]].size
  }

  /** Rows and bytes are all there, and the counters say so. */
  ghost predicate Sound(w: World) {
    TrueSizes(w) && Balanced(w) && w.inflight == map[]
  }

  /** A listing names rows that are there and stale, none twice, at most a batch. */
  predicate Legal(rows: map<nat, Row>, stale: set<nat>, listing: seq<nat>) {
    && |listing| <= BATCH_LIMIT
    && (forall id :: id in listing ==> id in rows && id in stale)
    && (forall i, j :: 0 <= i < j < |listing| ==> listing[i] != listing[j])
  }

  class CleanupService {
    var world: World
    /** The rows the policy's criteria match; while the run lasts a row may stop matching, none starts to. */
    var stale: set<nat>

    constructor (world: World, stale: set<nat>)
      ensures this.world == world && this.stale == stale
    {
      this.world, this.stale := world, stale;
    }

    /** Lists up to a batch of the rows that match now; nothing is listed only when none is left. */
    method ListStale() returns (listing: Option<seq<nat>>)
      modifies this`stale
      ensures stale <= old(stale)
      ensures listing.Some? ==>
                Legal(world.rows, stale, listing.value) && (listing.value == [] ==> stale * world.rows.Keys == {})
    {
      var changed: set<nat> := *;
      stale := stale - changed;
      var fails: bool := *;
      if fails {
        return None;
      }
      var rows: seq<nat> := *;
      if Legal(world.rows, stale, rows) && rows != [] {
        return Some(rows);
      }
      var left := stale * world.rows.Keys;
      if left == {} {
        return Some([]);
      }
      var one :| one in left;
      return Some([one]);
    }

    /**
     Deletes one row if it is still what the scan read, and its bytes when no other row shares
     them. The bytes reported as freed are exactly those that left the store.
     */
    method DeleteStaleAsset(id: nat) returns (rowDeleted: bool, freed: nat)
      requires Sound(world)
      modifies this`world
      ensures Sound(world) && NoDangling(world)
      ensures rowDeleted ==> id in old(world.rows) && world.rows == old(world.rows) - {id}
      ensures !rowDeleted ==> world == old(world)
      ensures freed == GrandTotal(old(world.objects)) - GrandTotal(world.objects)
      ensures rowDeleted && freed > 0 ==> !Referenced(world, old(world.rows)[id].key)
    {
      rowDeleted, freed := false, 0;
      var lockFailed: bool := *;
      var changed: bool := *;
      if lockFailed || changed || id !in world.rows {
        return;
      }
      ghost var w0 := world;
      var row := world.rows[id];
      rowDeleted := true;
      world := world.(rows := world.rows - {id});
      assert Stored(w0, row.store, row.key) && HasStore(w0, row.store);
      KeptIsSound(w0, id);
      var countFailed: bool := *;
      if countFailed || Referenced(world, row.key) {
        return;
      }
      var deleteFailed: bool := *;
      if deleteFailed {
        return;
      }
      freed := row.size;
      GrandTotalDrop(world.objects, row.store, row.key);
      DeletedIsSound(w0, id);
      world := Charge(Drop(world, row.store, row.key), row.store, -(row.size as int));
      assert world == DeleteRow(w0, id, false);
    }

    /** Reads nothing new and deletes each listed row in turn. */
    method DeleteAll(listing: seq<nat>) returns (deleted: nat, freed: nat)
      requires Sound(world)
      modifies this`world
      ensures Sound(world)
      ensures world.rows.Keys <= old(world.rows).Keys
              && old(world.rows).Keys - world.rows.Keys <= set id | id in listing
      ensures deleted == |old(world.rows)| - |world.rows|
      ensures freed == GrandTotal(old(world.objects)) - GrandTotal(world.objects)
      ensures deleted == 0 ==> world == old(world)
    {
      hide Sound, NoDangling;
      deleted, freed := 0, 0;
      for i := 0 to |listing|
        invariant Sound(world)
        invariant world.rows.Keys <= old(world.rows).Keys
                && old(world.rows).Keys - world.rows.Keys <= set id | id in listing
        invariant deleted == |old(world.rows)| - |world.rows|
        invariant freed == GrandTotal(old(world.objects)) - GrandTotal(world.objects)
        invariant deleted == 0 ==> world == old(world)
      {
        ghost var before := world.rows;
        var gone, bytes := DeleteStaleAsset(listing[i]);
        if gone {
          assert before.Keys == world.rows.Keys + {listing[i]};
          deleted := deleted + 1;
          freed := freed + bytes;
        }
      }
    }

    /**
     A whole run. A dry run reports its first batch and touches nothing. A real run reports exactly
     the rows that are gone and the bytes that left the stores, whatever failed along the way, and
     is over within three listings for every stale row and three more. Unless it made no progress,
     met its deadline or could not list, no row that still matches is left. (A run that cannot list
     returns its error instead of a report.)
     */
    method RunPolicy(dryRun: bool) returns (deleted: nat, freed: nat, ending: Ending, passes: nat)
      requires Sound(world)
      modifies this
      ensures Sound(world) && NoDangling(world) && stale <= old(stale)
      ensures dryRun ==> world == old(world) && passes <= 1
      ensures !dryRun ==> deleted == |old(world.rows)| - |world.rows|
                          && freed == GrandTotal(old(world.objects)) - GrandTotal(world.objects)
      ensures passes <= 3 * (|old(stale) * old(world.rows).Keys| + 1)
      ensures ending.Exhausted? ==> stale * world.rows.Keys == {}
      ensures ending.NoProgress? ==> passes >= MAX_NO_PROGRESS
      ensures ending.DryRun? ==> dryRun && exists listing ::
                Legal(old(world.rows), stale, listing) && deleted == |listing| > 0
                     && freed == SizeOf(old(world), listing)
      ensures dryRun && !ending.DryRun? ==> deleted == 0 && freed == 0
    {
      hide Sound, NoDangling, GrandTotal, SizeOf;
      deleted, freed, passes := 0, 0, 0;
      var noProgress := 0;
      ending := Aborted;
      while true
        invariant Sound(world) && noProgress < MAX_NO_PROGRESS && noProgress <= passes
        invariant world.rows.Keys <= old(world.rows).Keys && stale <= old(stale)
        invariant deleted == |old(world.rows)| - |world.rows|
        invariant freed == GrandTotal(old(world.objects)) - GrandTotal(world.objects)
        invariant dryRun ==> world == old(world) && passes == 0
        invariant passes <= 3 * (|old(stale) * old(world.rows).Keys| - |stale * world.rows.Keys|) + noProgress
        invariant ending == Aborted
        decreases |stale * world.rows.Keys|, MAX_NO_PROGRESS - noProgress
      {
        StaleShrinks(stale, world.rows.Keys, old(stale), old(world.rows).Keys);
        var pastDeadline: bool := *;
        if pastDeadline {
          break;
        }
        ghost var matched := stale;
        var listed := ListStale();
        StaleShrinks(stale, world.rows.Keys, matched, world.rows.Keys);
        passes := passes + 1;
        if listed.None? {
          SoundHasItsBytes(world);
          return deleted, freed, ListFailed, passes;
        }
        var listing := listed.value;
        if |listing| == 0 {
          ending := Exhausted;
          break;
        }
        if dryRun {
          deleted, freed := |listing|, SizeOf(world, listing);
          SoundHasItsBytes(world);
          return deleted, freed, Ending.DryRun, passes;
        }
        ghost var before := world.rows.Keys;
        var d, f := DeleteAll(listing);
        deleted, freed := deleted + d, freed + f;
        StaleGoes(stale, before, world.rows.Keys, set id | id in listing);
        if d == 0 {
          noProgress := noProgress + 1;
          if noProgress >= MAX_NO_PROGRESS {
            ending := NoProgress;
            break;
          }
        } else {
          noProgress := 0;
        }
      }
      if !dryRun && ending != Aborted {
        var released: seq<nat> := *;
        var d, f := DeleteAll(released);
        deleted, freed := deleted + d, freed + f;
      }
      SoundHasItsBytes(world);
    }
  }

  lemma SoundHasItsBytes(w: World)
    requires Sound(w)
    ensures NoDangling(w)
  {
  }

  lemma KeptIsSound(w: World, id: nat)
    requires Sound(w) && id in w.rows
    ensures Sound(w.(rows := w.rows - {id}))
  {
    SoundHasItsBytes(w);
    DeleteKeepsTrueSizes(w, id, true);
  }

  lemma DeletedIsSound(w: World, id: nat)
    requires Sound(w) && id in w.rows && !Referenced(w.(rows := w.rows - {id}), w.rows[id].key)
    ensures var row := w.rows[id];
            HasStore(w, row.store) && Stored(w, row.store, row.key) && Sound(DeleteRow(w, id, false))
            && Weight(row.key, w.objects[row.store][row.key]) == row.size
  {
    DeleteKeepsTrueSizes(w, id, false);
  }

  lemma StaleShrinks(staleNow: set<nat>, now: set<nat>, staleFirst: set<nat>, first: set<nat>)
    requires now <= first && staleNow <= staleFirst
    ensures |staleNow * now| <= |staleFirst * first|
  {
    Smaller(staleNow * now, staleFirst * first);
  }

  /** Rows that went were listed, hence stale: at least one stale row fewer when any went. */
  lemma StaleGoes(stale: set<nat>, before: set<nat>, after: set<nat>, listed: set<nat>)
    requires after <= before && before - after <= listed <= stale
    ensures |stale * after| == |stale * before| - (|before| - |after|)
  {
    var gone := before - after;
    assert stale * before == stale * after + gone;
    assert before == after + gone;
  }

  lemma Smaller(a: set<nat>, b: set<nat>)
    requires a <= b
    ensures |a| <= |b|
  {
    assert b == a + (b - a);
  }
}
