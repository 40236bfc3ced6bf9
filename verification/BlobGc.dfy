/**
 Blob garbage collection on one snapshot of the references: what no asset row names, is no backup
 and is older than the grace period goes. Several logical stores may share one physical store.
 */
module BlobGc {
  import opened Prelude
  import opened Blobs

  /** A distinct (key, store id) pair named by asset rows; the store id may be empty. */
  datatype Ref = Ref(key: string, store: Id)

  /**
   A configured store. `location` is where its bytes really are, None when it cannot be opened;
   `identity` is what is worked out of its configuration, "" when that cannot be.
   */
  datatype Store = Store(id: Id, name: Id, isGroup: bool, location: Option<Id>, identity: string)

  /** A stored object; `modified` is None when the backend does not say. */
  datatype Object = Object(size: nat, modified: Option<int>)

  datatype Index = Index(byStore: map<Id, set<string>>, byPhysical: map<string, set<string>>, anyPos: set<string>)

  datatype Report = Report(orphans: nat, freed: nat, errors: nat, aborted: bool)

  predicate Has(x: Index, store: Id, physical: string, key: string) {
    || key in x.anyPos
    || (physical in x.byPhysical && key in x.byPhysical[physical])
    || (store in x.byStore && key in x.byStore[store])
  }

  function IdentityOf(stores: seq<Store>, id: Id): string {
    if stores == [] then ""
    else if stores[|stores| - 1].id == id then stores[|stores| - 1].identity
    else IdentityOf(stores[..|stores| - 1], id)
  }

  /** Some row names the key in this store, in one known to be the same place, or nowhere in particular. */
  predicate Named(refs: seq<Ref>, stores: seq<Store>, store: Id, physical: string, key: string) {
    exists r :: r in refs && r.key == key
                && (r.store == "" || r.store == store
                    || (IdentityOf(stores, r.store) != "" && IdentityOf(stores, r.store) == physical))
  }

  /** A row reaches the object under `key` at `location`: through its own store, or, with none recorded, any. */
  predicate Reaches(stores: seq<Store>, r: Ref, location: Id) {
    r.store == "" || exists s :: s in stores && s.id == r.store && s.location == Some(location)
  }

  /** Ids are unique, and stores in one place are recognised as such. */
  predicate StoresOk(stores: seq<Store>) {
    && (forall i, j :: 0 <= i < j < |stores| ==> stores[i].id != stores[j].id)
    && (forall s, t :: s in stores && t in stores && s.location.Some? && s.location == t.location ==>
          s.identity == t.identity && s.identity != "")
  }

  lemma {:induction false} IdentityOfMember(stores: seq<Store>, s: Store)
    requires s in stores && forall i, j :: 0 <= i < j < |stores| ==> stores[i].id != stores[j].id
    ensures IdentityOf(stores, s.id) == s.identity
  {
    if stores[|stores| - 1] != s {
      IdentityOfMember(stores[..|stores| - 1], s);
    }
  }

  /** Whatever a row reaches at a store's place, the store's own pass finds named. */
  lemma ReachedIsNamed(refs: seq<Ref>, stores: seq<Store>, s: Store, r: Ref)
    requires StoresOk(stores) && s in stores && s.location.Some?
    requires r in refs && Reaches(stores, r, s.location.value)
    ensures Named(refs, stores, s.id, s.identity, r.key)
  {
    if r.store != "" {
      var t :| t in stores && t.id == r.store && t.location == s.location;
      IdentityOfMember(stores, t);
    }
  }

  function Add(m: map<string, set<string>>, bucket: string, key: string): map<string, set<string>> {
    m[bucket := (if bucket in m then m[bucket] else {}) + {key}]
  }

  predicate NamedInStore(refs: seq<Ref>, store: Id, key: string) {
    store != "" && Ref(key, store) in refs
  }

  predicate NamedAtPlace(refs: seq<Ref>, stores: seq<Store>, physical: string, key: string) {
    physical != "" && exists r :: r in refs && r.key == key && r.store != "" && IdentityOf(stores, r.store) == physical
  }

  lemma PlaceStep(refs: seq<Ref>, stores: seq<Store>, r: Ref)
    ensures forall physical, key :: NamedAtPlace(refs + [r], stores, physical, key) <==>
              NamedAtPlace(refs, stores, physical, key)
              || (physical != "" && r.key == key && r.store != "" && IdentityOf(stores, r.store) == physical)
  {
    assert r in refs + [r];
    forall physical, key | NamedAtPlace(refs, stores, physical, key)
      ensures NamedAtPlace(refs + [r], stores, physical, key)
    {
      var s :| s in refs && s.key == key && s.store != "" && IdentityOf(stores, s.store) == physical;
      assert s in refs + [r];
    }
  }

  ghost predicate Answers(x: Index, refs: seq<Ref>, stores: seq<Store>) {
    forall store, physical, key :: store != "" && physical != "" ==>
      (Has(x, store, physical, key) <==> Named(refs, stores, store, physical, key))
  }

  /** The index answers exactly whether some reference names the key. */
  method ReferencedSet(refs: seq<Ref>, stores: seq<Store>) returns (x: Index)
    ensures Answers(x, refs, stores)
  {
    x := Index(map[], map[], {});
    for i := 0 to |refs|
      invariant forall key :: key in x.anyPos <==> Ref(key, "") in refs[..i]
      invariant forall store, key :: store in x.byStore && key in x.byStore[store] <==>
                NamedInStore(refs[..i], store, key)
      invariant forall physical, key :: physical in x.byPhysical && key in x.byPhysical[physical] <==>
                  NamedAtPlace(refs[..i], stores, physical, key)
    {
      var r := refs[i];
      assert refs[..i + 1] == refs[..i] + [r];
      PlaceStep(refs[..i], stores, r);
      assert forall store, key :: NamedInStore(refs[..i + 1], store, key) <==>
               NamedInStore(refs[..i], store, key) || (store != "" && Ref(key, store) == r);
      if r.store == "" {
        x := x.(anyPos := x.anyPos + {r.key});
        continue;
      }
      x := x.(byStore := Add(x.byStore, r.store, r.key));
      var physical := IdentityOf(stores, r.store);
      if physical != "" {
        x := x.(byPhysical := Add(x.byPhysical, physical, r.key));
      }
    }
    assert refs[..|refs|] == refs;
    forall store, physical, key | store != "" && physical != ""
      ensures Has(x, store, physical, key) <==> Named(refs, stores, store, physical, key)
    {
      NamedSplits(refs, stores, store, physical, key);
    }
  }

  lemma NamedSplits(refs: seq<Ref>, stores: seq<Store>, store: Id, physical: string, key: string)
    requires store != "" && physical != ""
    ensures Named(refs, stores, store, physical, key) <==>
              Ref(key, "") in refs || NamedInStore(refs, store, key) || NamedAtPlace(refs, stores, physical, key)
  {
    if Named(refs, stores, store, physical, key) {
      var r :| r in refs && r.key == key && (r.store == "" || r.store == store
                 || (IdentityOf(stores, r.store) != "" && IdentityOf(stores, r.store) == physical));
      assert r == Ref(key, r.store);
    }
  }

  /** Too young to judge: it may be an upload whose row is not committed yet. */
  predicate Young(o: Object, minAge: int, now: int) {
    minAge > 0 && o.modified.Some? && now - o.modified.value < minAge
  }

  ghost function SizeOf(key: string, o: Object): int {
    o.size
  }

  ghost function Bytes(objects: map<string, Object>): int {
    Sum(objects, SizeOf)
  }

  /** Named by nothing, no backup, and past its grace. */
  predicate Collectable(x: Index, s: Store, key: string, o: Object, minAge: int, now: int) {
    !Has(x, s.id, s.identity, key) && !IsBackup(key) && !Young(o, minAge, now)
  }

  /** What a pass over one place may have done: it removed nothing but collectable objects. */
  predicate OnlyCollected(before: map<string, Object>, after: map<string, Object>, x: Index, s: Store, minAge: int,
                          now: int) {
    && after.Keys <= before.Keys
    && (forall k :: k in after ==> after[k] == before[k])
    && (forall k :: k in before && k !in after ==> Collectable(x, s, k, before[k], minAge, now))
  }

  predicate Swept(x: Index, s: Store, objects: map<string, Object>, minAge: int, now: int) {
    forall k :: k in objects ==> !Collectable(x, s, k, objects[k], minAge, now)
  }

  /** The bytes removed are those that left; an error-free report counts them and the objects exactly. */
  ghost predicate Tally(report: Report, place: map<string, Object>, left: map<string, Object>, removed: nat) {
    && removed == Bytes(place) - Bytes(left)
    && (report.errors == 0 ==> report.freed == removed && report.orphans == |place| - |left|)
  }

  lemma TallyGives(report: Report, place: map<string, Object>, left: map<string, Object>, removed: nat)
    ensures Tally(report, place, left, removed) ==>
              removed == Bytes(place) - Bytes(left)
              && (report.errors == 0 ==> report.freed == removed && report.orphans == |place| - |left|)
  {
  }

  lemma TallyAborts(report: Report, place: map<string, Object>, left: map<string, Object>, removed: nat)
    ensures Tally(report, place, left, removed) ==> Tally(report.(aborted := true), place, left, removed)
  {
  }

  lemma NothingYet(place: map<string, Object>, x: Index, s: Store, minAge: int, now: int)
    ensures OnlyCollected(place, place, x, s, minAge, now) && Tally(Report(0, 0, 0, false), place, place, 0)
  {
  }

  lemma SweptNow(x: Index, s: Store, left: map<string, Object>, minAge: int, now: int)
    ensures (forall k :: k in left ==> !Collectable(x, s, k, left[k], minAge, now)) ==> Swept(x, s, left, minAge, now)
  {
  }

  /** Deleting one collectable object keeps the pass honest, and so does failing to. */
  lemma CollectStep(place: map<string, Object>, left: map<string, Object>, x: Index, s: Store, minAge: int, now: int,
                    key: string, report: Report, removed: nat)
    requires OnlyCollected(place, left, x, s, minAge, now) && key in left
            && Collectable(x, s, key, left[key], minAge, now)
    ensures OnlyCollected(place, left - {key}, x, s, minAge, now)
    ensures var next := report.(orphans := report.orphans + 1, freed := report.freed + left[key].size);
            Tally(report, place, left, removed) ==>
              Tally(next, place, left - {key}, removed + left[key].size)
              && Tally(next.(errors := next.errors + 1), place, left, removed)
  {
    hide Collectable;
    SumWithout(left, SizeOf, key);
    assert left.Keys == (left - {key}).Keys + {key};
  }

  /** Every object some row reaches is still there, as it was. */
  ghost predicate Survive(refs: seq<Ref>, stores: seq<Store>, before: map<Id, map<string, Object>>,
                          after: map<Id, map<string, Object>>) {
    forall r, l :: r in refs && l in before && l in after && Reaches(stores, r, l) && r.key in before[l] ==>
      r.key in after[l] && after[l][r.key] == before[l][r.key]
  }

  lemma AllSurvive(refs: seq<Ref>, stores: seq<Store>, objects: map<Id, map<string, Object>>)
    ensures Survive(refs, stores, objects, objects)
  {
  }

  /** One store's pass spares whatever is reached at its place, through this store or any other. */
  lemma PassKeeps(refs: seq<Ref>, stores: seq<Store>, s: Store, x: Index, first: map<Id, map<string, Object>>,
                  before: map<Id, map<string, Object>>, after: map<Id, map<string, Object>>, minAge: int, now: int)
    requires StoresOk(stores) && s in stores && s.location.Some? && s.location.value in before
            && s.location.value in after
    requires Answers(x, refs, stores) && s.id != "" && s.identity != ""
    requires Survive(refs, stores, first, before) && before.Keys == after.Keys == first.Keys
    requires OnlyCollected(before[s.location.value], after[s.location.value], x, s, minAge, now)
    requires forall l :: l in after && l != s.location.value ==> after[l] == before[l]
    ensures Survive(refs, stores, first, after)
  {
    hide Reaches, Has, Named;
    forall r, l | r in refs && l in first && l in after && Reaches(stores, r, l) && r.key in first[l]
      ensures r.key in after[l] && after[l][r.key] == first[l][r.key]
    {
      if l == s.location.value {
        ReachedIsNamed(refs, stores, s, r);
        assert Has(x, s.id, s.identity, r.key);
      }
    }
  }

  lemma StillSwept(x: Index, s: Store, t: Store, before: map<string, Object>, after: map<string, Object>, minAge: int,
                   now: int)
    requires OnlyCollected(before, after, x, s, minAge, now) && Swept(x, t, before, minAge, now)
    ensures Swept(x, t, after, minAge, now)
  {
    hide Collectable;
  }

  lemma NothingToCollect(refs: seq<Ref>, stores: seq<Store>, s: Store, x: Index, objects: map<string, Object>,
                         minAge: int, now: int)
    requires Answers(x, refs, stores) && s.id != "" && s.identity != "" && Swept(x, s, objects, minAge, now)
    ensures forall k :: k in objects ==>
              Named(refs, stores, s.id, s.identity, k) || IsBackup(k) || Young(objects[k], minAge, now)
  {
    hide Has, Named;
    forall k | k in objects
      ensures Named(refs, stores, s.id, s.identity, k) || IsBackup(k) || Young(objects[k], minAge, now)
    {
      assert !Collectable(x, s, k, objects[k], minAge, now);
    }
  }

  class Collector {
    /** What each place holds, and each store's used_bytes. */
    var objects: map<Id, map<string, Object>>
    var used: map<Id, int>

    constructor (objects: map<Id, map<string, Object>>, used: map<Id, int>)
      ensures this.objects == objects && this.used == used
    {
      this.objects, this.used := objects, used;
    }

    /**
     One store's pass. It may stop at the lock's deadline, and any delete may fail; a pass that did
     neither leaves nothing collectable. The counter gives back exactly the bytes that left.
     */
    method Compact(s: Store, location: Id, x: Index, dryRun: bool, minAge: int, now: int) returns (report: Report)
      requires location in objects && s.name in used
      modifies this
      ensures objects.Keys == old(objects).Keys && used.Keys == old(used).Keys
      ensures forall l :: l in objects && l != location ==> objects[l] == old(objects)[l]
      ensures OnlyCollected(old(objects)[location], objects[location], x, s, minAge, now)
      ensures dryRun ==> objects == old(objects) && used == old(used)
      ensures !dryRun && !report.aborted && report.errors == 0 ==>
                Swept(x, s, objects[location], minAge, now)
      ensures !dryRun && report.errors == 0 ==>
                used == old(used)[s.name := old(used)[s.name]
                                                - (Bytes(old(objects)[location]) - Bytes(objects[location]))]
      ensures !dryRun && report.errors == 0 ==> report.orphans == |old(objects)[location]| - |objects[location]|
                                                && report.freed
                                                   == Bytes(old(objects)[location]) - Bytes(objects[location])
    {
      hide Collectable, OnlyCollected, Swept, Tally;
      report := Report(0, 0, 0, false);
      ghost var place := objects[location];
      var listFails: bool := *;
      if listFails {
        NothingYet(place, x, s, minAge, now);
        return report.(errors := 1);
      }
      var todo := objects[location].Keys;
      var removed: nat := 0;
      NothingYet(place, x, s, minAge, now);
      while todo != {}
        invariant location in objects && objects == old(objects)[location := objects[location]] && used == old(used)
        invariant todo <= objects[location].Keys && !report.aborted
        invariant OnlyCollected(place, objects[location], x, s, minAge, now)
        invariant dryRun ==> objects == old(objects) && removed == 0
        invariant !dryRun ==> Tally(report, place, objects[location], removed)
        invariant !dryRun && report.errors == 0 ==>
                    forall k :: k in objects[location] && k !in todo ==>
                           !Collectable(x, s, k, objects[location][k], minAge, now)
        decreases todo
      {
        var pastDeadline: bool := *;
        if pastDeadline {
          report := report.(aborted := true);
          TallyAborts(report.(aborted := false), place, objects[location], removed);
          break;
        }
        var key :| key in todo;
        todo := todo - {key};
        var o := objects[location][key];
        if !Collectable(x, s, key, o, minAge, now) {
          continue;
        }
        CollectStep(place, objects[location], x, s, minAge, now, key, report, removed);
        report := report.(orphans := report.orphans + 1, freed := report.freed + o.size);
        if !dryRun {
          var deleteFails: bool := *;
          if deleteFails {
            report := report.(errors := report.errors + 1);
            continue;
          }
          removed := removed + o.size;
          objects := objects[location := objects[location] - {key}];
        }
      }
      TallyGives(report, place, objects[location], removed);
      SweptNow(x, s, objects[location], minAge, now);
      if removed > 0 {
        var updateFails: bool := *;
        if updateFails {
          report := report.(errors := report.errors + 1);
        } else {
          used := used[s.name := used[s.name] - removed];
        }
      }
    }

    /**
     Every store in turn, on one snapshot of the references. Nothing a row reaches is ever deleted,
     though stores share a place or rows carry no store id; and when no pass was cut short and
     nothing failed, every place is left without an unreferenced, non-backup object past its grace.
     */
    method CompactAll(refs: seq<Ref>, stores: seq<Store>, dryRun: bool, minAge: int, now: int)
      returns (reports: seq<Report>)
      requires StoresOk(stores)
      requires forall s :: s in stores ==>
                s.id != "" && s.name in used && (s.location.Some? ==> s.location.value in objects)
      modifies this
      ensures objects.Keys == old(objects).Keys
      ensures Survive(refs, stores, old(objects), objects)
      ensures forall l :: l in objects ==> (dryRun || !PlaceOf(stores, l) ==> objects[l] == old(objects)[l])
      ensures !dryRun && (forall i :: 0 <= i < |reports| ==> reports[i].errors == 0 && !reports[i].aborted) ==>
                forall s :: s in stores && !s.isGroup ==>
                  s.location.Some? && forall k :: k in objects[s.location.value] ==>
                       Named(refs, stores, s.id, s.identity, k) || IsBackup(k)
                            || Young(objects[s.location.value][k], minAge, now)
    {
      hide Has, Collectable, Reaches, Named, Survive, Swept;
      var x := ReferencedSet(refs, stores);
      AllSurvive(refs, stores, objects);
      reports := [];
      for i := 0 to |stores|
        invariant objects.Keys == old(objects).Keys && used.Keys == old(used).Keys
        invariant Survive(refs, stores, old(objects), objects)
        invariant forall l :: l in objects ==> (dryRun || !PlaceOf(stores, l) ==> objects[l] == old(objects)[l])
        invariant !dryRun && (forall k :: 0 <= k < |reports| ==> reports[k].errors == 0 && !reports[k].aborted) ==>
                    forall j :: 0 <= j < i && !stores[j].isGroup ==>
                      stores[j].location.Some? && Swept(x, stores[j], objects[stores[j].location.value], minAge, now)
      {
        var s := stores[i];
        if s.isGroup {
          continue;
        }
        if s.location.None? {
          reports := reports + [Report(0, 0, 1, false)];
          assert reports[|reports| - 1].errors == 1;
          continue;
        }
        ghost var before := objects;
        ghost var earlier := reports;
        var report := Compact(s, s.location.value, x, dryRun, minAge, now);
        reports := reports + [report];
        assert forall k :: 0 <= k < |earlier| ==> reports[k] == earlier[k];
        assert reports[|earlier|] == report;
        PassKeeps(refs, stores, s, x, old(objects), before, objects, minAge, now);
        forall j | 0 <= j < i && !stores[j].isGroup && stores[j].location.Some?
                   && Swept(x, stores[j], before[stores[j].location.value], minAge, now)
          ensures Swept(x, stores[j], objects[stores[j].location.value], minAge, now)
        {
          if stores[j].location == s.location {
            StillSwept(x, s, stores[j], before[s.location.value], objects[s.location.value], minAge, now);
          }
        }
      }
      forall j | 0 <= j < |stores| && !stores[j].isGroup && stores[j].location.Some?
                 && Swept(x, stores[j], objects[stores[j].location.value], minAge, now)
        ensures forall k :: k in objects[stores[j].location.value] ==>
                  Named(refs, stores, stores[j].id, stores[j].identity, k) || IsBackup(k)
                  || Young(objects[stores[j].location.value][k], minAge, now)
      {
        NothingToCollect(refs, stores, stores[j], x, objects[stores[j].location.value], minAge, now);
      }
    }
  }

  predicate PlaceOf(stores: seq<Store>, l: Id) {
    exists s :: s in stores && s.location == Some(l)
  }
}
