/**
 The copy behind a promotion: rows and blobs go one at a time, any step may fail, and a failure is
 compensated by removing what this call created.
 */
module PromotionCopy {
  import opened Prelude

  datatype Coordinates = Coordinates(group: string, name: string, version: string)

  datatype Component = Component(coordinates: Coordinates, extra: map<string, string>)

  datatype Row = Row(id: nat, componentId: nat, blobKey: string, sha256: string)

  /** A source asset; `bytes` is None when its blob cannot be read. */
  datatype Asset = Asset(path: string, sha256: string, bytes: Option<string>)

  /** One component's worth of assets to copy. */
  datatype Unit = Unit(component: Component, assets: seq<Asset>, contentAddressed: bool)

  /** The target repository's components and asset rows (by path), and the store its blobs go to. */
  datatype Target = Target(components: map<nat, Component>, rows: map<string, Row>,
                           blobs: map<string, string>, nextId: nat)

  /** Coordinates name one component. */
  predicate ComponentsOk(components: map<nat, Component>, nextId: nat) {
    && (forall c :: c in components ==> c < nextId)
    && (forall c, d :: c in components && d in components && components[c].coordinates == components[d].coordinates ==>
            c == d)
  }

  /** Row ids are unique, and every row belongs to a component that is there. */
  predicate RowsOk(rows: map<string, Row>, components: set<nat>, nextId: nat) {
    && (forall p :: p in rows ==> rows[p].id < nextId && rows[p].componentId in components)
    && (forall p, q :: p in rows && q in rows && rows[p].id == rows[q].id ==> p == q)
  }

  predicate TargetOk(t: Target) {
    ComponentsOk(t.components, t.nextId) && RowsOk(t.rows, t.components.Keys, t.nextId)
  }

  /** The rows and blobs a copy created fresh, and every component it touched. */
  datatype Rollback = Rollback(rowIds: set<nat>, blobKeys: set<string>, components: set<nat>)

  predicate Referenced(rows: map<string, Row>, component: nat) {
    exists p :: p in rows && rows[p].componentId == component
  }

  /** The deletes of a rollback that fail: nothing looks at their errors. */
  datatype Faults = Faults(rows: set<nat>, blobs: set<string>, components: set<nat>)

  const NO_FAULTS := Faults({}, {}, {})

  /**
   The target once a rollback has run: fresh rows go, then their bytes, then touched components
   nothing references, each unless its own delete fails.
   */
  function Undone(t: Target, rb: Rollback, f: Faults): Target {
    var rows := RowsBut(t.rows, rb.rowIds, f.rows);
    Target(ComponentsBut(t.components, rb.components, rows, f.components), rows,
           BlobsBut(t.blobs, rb.blobKeys, f.blobs), t.nextId)
  }

  /** Without the listed rows, save those `kept`. */
  function RowsBut(rows: map<string, Row>, listed: set<nat>, kept: set<nat>): map<string, Row> {
    map p | p in rows && (rows[p].id in listed ==> rows[p].id in kept) :: rows[p]
  }

  function BlobsBut(blobs: map<string, string>, listed: set<string>, kept: set<string>): map<string, string> {
    map k | k in blobs && (k in listed ==> k in kept) :: blobs[k]
  }

  function ComponentsBut(components: map<nat, Component>, listed: set<nat>, rows: map<string, Row>, kept: set<nat>)
    : map<nat, Component>
  {
    map c | c in components && (c in listed ==> Referenced(rows, c) || c in kept) :: components[c]
  }

  function RolledBack(t: Target, rb: Rollback): Target {
    Undone(t, rb, NO_FAULTS)
  }

  // ---------------------------------------------------------------- planning

  /** What the target lacks: absent paths, and paths whose recorded hash differs or cannot be compared. */
  predicate Lacks(t: Target, a: Asset) {
    a.path !in t.rows || a.sha256 == "" || t.rows[a.path].sha256 != a.sha256
  }

  /** The wanted elements, in order. */
  function Chosen(wanted: Asset -> bool, s: seq<Asset>): seq<Asset> {
    if s == [] then []
    else Chosen(wanted, s[..|s| - 1]) + if wanted(s[|s| - 1]) then [s[|s| - 1]] else []
  }

  lemma {:induction false} ChosenHas(wanted: Asset -> bool, s: seq<Asset>, a: Asset)
    ensures a in Chosen(wanted, s) <==> a in s && wanted(a)
  {
    if s != [] {
      ChosenHas(wanted, s[..|s| - 1], a);
      assert s == s[..|s| - 1] + [s[|s| - 1]];
    }
  }

  /** `part` is `whole` without its unwanted elements: it is read off at `at`, exactly the wanted places, in order. */
  ghost predicate Sieved(part: seq<Asset>, whole: seq<Asset>, wanted: Asset -> bool, at: seq<nat>) {
    && |at| == |part|
    && (forall k, l :: 0 <= k < l < |at| ==> at[k] < at[l])
    && (forall k :: 0 <= k < |at| ==> at[k] < |whole| && part[k] == whole[at[k]])
    && (forall i: nat :: i < |whole| ==> (wanted(whole[i]) <==> i in at))
  }

  ghost predicate Sieves(part: seq<Asset>, whole: seq<Asset>, wanted: Asset -> bool) {
    exists at :: Sieved(part, whole, wanted, at)
  }

  lemma {:induction false} ChosenSieved(wanted: Asset -> bool, s: seq<Asset>) returns (at: seq<nat>)
    ensures Sieved(Chosen(wanted, s), s, wanted, at)
  {
    if s == [] {
      return [];
    }
    var n := |s| - 1;
    var before := ChosenSieved(wanted, s[..n]);
    at := before + if wanted(s[n]) then [n] else [];
    forall i: nat | i < |s| ensures wanted(s[i]) <==> i in at {
      if i < n {
        assert s[..n][i] == s[i];
      }
    }
  }

  lemma {:induction false} ChosenTwice(first: Asset -> bool, then_: Asset -> bool, both: Asset -> bool, s: seq<Asset>)
    requires forall a :: a in s ==> both(a) == (first(a) && then_(a))
    ensures Chosen(then_, Chosen(first, s)) == Chosen(both, s)
  {
    if s != [] {
      ChosenTwice(first, then_, both, s[..|s| - 1]);
      var kept, last := Chosen(first, s[..|s| - 1]), s[|s| - 1];
      if first(last) {
        assert (kept + [last])[..|kept|] == kept;
      } else {
        assert kept + [] == kept;
      }
    }
  }

  function Missing(t: Target, assets: seq<Asset>): seq<Asset> {
    Chosen(a => Lacks(t, a), assets)
  }

  method MissingInTarget(t: Target, assets: seq<Asset>) returns (out: seq<Asset>)
    ensures out == Missing(t, assets)
    ensures Sieves(out, assets, a => Lacks(t, a))
  {
    out := [];
    for i := 0 to |assets|
      invariant out == Missing(t, assets[..i])
    {
      assert assets[..i + 1][..i] == assets[..i];
      if assets[i].path !in t.rows {
        out := out + [assets[i]];
      } else if assets[i].sha256 == "" || t.rows[assets[i].path].sha256 != assets[i].sha256 {
        out := out + [assets[i]];
      }
    }
    assert assets[..|assets|] == assets;
    ghost var at := ChosenSieved((a: Asset) => Lacks(t, a), assets);
  }

  predicate Skips(onlyMissing: bool, u: Unit) {
    onlyMissing || u.contentAddressed
  }

  /** Whether a plan writes an asset of a unit. */
  predicate Writes(t: Target, side: string -> bool, onlyMissing: bool, u: Unit, a: Asset) {
    (onlyMissing ==> !side(a.path)) && (Skips(onlyMissing, u) ==> Lacks(t, a))
  }

  /** The part of a unit a plan copies. */
  function PendingOf(t: Target, side: string -> bool, onlyMissing: bool, u: Unit): seq<Asset> {
    Chosen(a => Writes(t, side, onlyMissing, u, a), u.assets)
  }

  /**
   The plan writes, of each unit and in the unit's order, exactly the assets the target lacks, or
   all of them for a component promoted by hand; a side file is never written automatically.
   */
  method PlanCopy(t: Target, side: string -> bool, onlyMissing: bool, units: seq<Unit>)
    returns (pending: seq<seq<Asset>>)
    ensures |pending| == |units|
    ensures forall i :: 0 <= i < |units| ==> pending[i] == PendingOf(t, side, onlyMissing, units[i])
    ensures forall i :: 0 <= i < |units| ==>
              Sieves(pending[i], units[i].assets, a => Writes(t, side, onlyMissing, units[i], a))
    ensures forall p :: p in PlannedPaths(pending) <==>
              exists i, a :: 0 <= i < |units| && a in units[i].assets && a.path == p
                   && Writes(t, side, onlyMissing, units[i], a)
  {
    pending := [];
    for i := 0 to |units|
      invariant |pending| == i
      invariant forall k :: 0 <= k < i ==> pending[k] == PendingOf(t, side, onlyMissing, units[k])
    {
      var u := units[i];
      var p := u.assets;
      if onlyMissing {
        p := WithoutSideFiles(side, p);
      }
      if Skips(onlyMissing, u) {
        p := MissingInTarget(t, p);
      }
      PendingInSteps(t, side, onlyMissing, u);
      pending := pending + [p];
    }
    PlannedExactly(t, side, onlyMissing, units, pending);
    forall i | 0 <= i < |units|
      ensures Sieves(pending[i], units[i].assets, a => Writes(t, side, onlyMissing, units[i], a))
    {
      var wanted := a => Writes(t, side, onlyMissing, units[i], a);
      var at := ChosenSieved(wanted, units[i].assets);
      ChosenSame(wanted, a => Writes(t, side, onlyMissing, units[i], a), units[i].assets);
    }
  }

  function WithoutSideFiles(side: string -> bool, assets: seq<Asset>): seq<Asset> {
    Chosen((a: Asset) => !side(a.path), assets)
  }

  lemma PendingInSteps(t: Target, side: string -> bool, onlyMissing: bool, u: Unit)
    ensures var kept := if onlyMissing then WithoutSideFiles(side, u.assets) else u.assets;
            PendingOf(t, side, onlyMissing, u) == if Skips(onlyMissing, u) then Missing(t, kept) else kept
  {
    var writes := (a: Asset) => Writes(t, side, onlyMissing, u, a);
    var plain := (a: Asset) => !side(a.path);
    if onlyMissing {
      ChosenTwice(plain, a => Lacks(t, a), writes, u.assets);
      ChosenSame((a: Asset) => !side(a.path), plain, u.assets);
    } else if u.contentAddressed {
      ChosenSame(a => Lacks(t, a), writes, u.assets);
    } else {
      ChosenAll(writes, u.assets);
    }
  }

  lemma {:induction false} ChosenSame(p: Asset -> bool, q: Asset -> bool, s: seq<Asset>)
    requires forall a :: a in s ==> p(a) == q(a)
    ensures Chosen(p, s) == Chosen(q, s)
  {
    if s != [] {
      ChosenSame(p, q, s[..|s| - 1]);
    }
  }

  lemma {:induction false} ChosenAll(p: Asset -> bool, s: seq<Asset>)
    requires forall a :: a in s ==> p(a)
    ensures Chosen(p, s) == s
  {
    if s != [] {
      ChosenAll(p, s[..|s| - 1]);
      assert s == s[..|s| - 1] + [s[|s| - 1]];
    }
  }

  lemma PendingHas(t: Target, side: string -> bool, onlyMissing: bool, u: Unit)
    ensures forall a :: a in PendingOf(t, side, onlyMissing, u) <==> a in u.assets && Writes(t, side, onlyMissing, u, a)
  {
    forall a ensures a in PendingOf(t, side, onlyMissing, u) <==> a in u.assets && Writes(t, side, onlyMissing, u, a) {
      ChosenHas(a => Writes(t, side, onlyMissing, u, a), u.assets, a);
    }
  }

  lemma PlannedExactly(t: Target, side: string -> bool, onlyMissing: bool, units: seq<Unit>, pending: seq<seq<Asset>>)
    requires |pending| == |units| && forall i :: 0 <= i < |units| ==>
              pending[i] == PendingOf(t, side, onlyMissing, units[i])
    ensures forall p :: p in PlannedPaths(pending) <==>
              exists i, a :: 0 <= i < |units| && a in units[i].assets && a.path == p
                   && Writes(t, side, onlyMissing, units[i], a)
  {
    hide PendingOf, Writes;
    forall i, a | 0 <= i < |units| && a in units[i].assets && Writes(t, side, onlyMissing, units[i], a)
      ensures a.path in PlannedPaths(pending)
    {
      PendingHas(t, side, onlyMissing, units[i]);
      var k :| 0 <= k < |pending[i]| && pending[i][k] == a;
    }
    forall p | p in PlannedPaths(pending)
      ensures exists i, a ::
                0 <= i < |units| && a in units[i].assets && a.path == p && Writes(t, side, onlyMissing, units[i], a)
    {
      var i, k :| 0 <= i < |pending| && 0 <= k < |pending[i]| && pending[i][k].path == p;
      PendingHas(t, side, onlyMissing, units[i]);
      assert pending[i][k] in units[i].assets;
    }
  }

  // ---------------------------------------------------------------- the copy

  /** The paths a plan may write. */
  function PlannedPaths(pending: seq<seq<Asset>>): set<string> {
    set i, k | 0 <= i < |pending| && 0 <= k < |pending[i]| :: pending[i][k].path
  }

  predicate PathsApart(pending: seq<seq<Asset>>) {
    forall i, k, j, l ::
      0 <= i < |pending| && 0 <= k < |pending[i]| && 0 <= j < |pending| && 0 <= l < |pending[j]|
      && pending[i][k].path == pending[j][l].path
      ==> i == j && k == l
  }

  ghost predicate Injective(key: string -> string) {
    forall p, q {:trigger key(p), key(q)} :: key(p) == key(q) ==> p == q
  }

  /** The target holds the asset: its row carries the source's hash, and its blob the source's bytes. */
  predicate Holds(t: Target, key: string -> string, a: Asset) {
    && a.path in t.rows
    && t.rows[a.path].sha256 == a.sha256
    && t.rows[a.path].blobKey == key(a.path)
    && key(a.path) in t.blobs && Some(t.blobs[key(a.path)]) == a.bytes
  }

  /** Earlier rows stay and only planned ones are written; the fresh ones are exactly those listed. */
  ghost predicate MidRows(t0: Target, rows: map<string, Row>, listed: set<nat>, touched: set<nat>,
                          planned: set<string>) {
    && (forall p :: p in t0.rows ==>
            p in rows && rows[p].id == t0.rows[p].id && rows[p].componentId == t0.rows[p].componentId)
    && (forall p :: p in t0.rows && p !in planned ==> rows[p] == t0.rows[p])
    && (forall p :: p in rows && p !in t0.rows ==>
            p in planned && rows[p].id in listed && rows[p].componentId in touched)
    && (forall p :: p in t0.rows ==> t0.rows[p].id !in listed)
  }

  /** Earlier components keep their coordinates; new and rewritten ones are listed. */
  ghost predicate MidComponents(t0: Target, components: map<nat, Component>, touched: set<nat>) {
    && (forall c :: c in t0.components ==> c in components && components[c].coordinates == t0.components[c].coordinates)
    && (forall c :: c in components && c !in touched ==> c in t0.components && components[c] == t0.components[c])
  }

  /** Earlier blobs stay, only planned keys are written, and the listed keys are those of fresh paths. */
  ghost predicate MidBlobs(t0: Target, blobs: map<string, string>, listed: set<string>, key: string -> string,
                           planned: set<string>) {
    && (forall k :: k in t0.blobs ==> k in blobs)
    && (forall k :: k in blobs && (forall p :: p in planned ==> key(p) != k) ==>
            k in t0.blobs && blobs[k] == t0.blobs[k])
    && (forall k :: k in listed ==> exists p :: p in planned && p !in t0.rows && key(p) == k)
    && (forall p :: p in planned && p !in t0.rows && key(p) in blobs && key(p) !in t0.blobs ==> key(p) in listed)
  }

  /** A fresh row has its bytes, under its own path's key, and the rollback knows the key. */
  ghost predicate MidBacked(t0: Target, t: Target, listed: set<string>, key: string -> string) {
    forall p :: p in t.rows && p !in t0.rows ==> t.rows[p].blobKey == key(p) && key(p) in t.blobs && key(p) in listed
  }

  /** Where a copy stands: what it may have changed of `t0`, and what its rollback knows about that. */
  ghost predicate Midway(t0: Target, t: Target, rb: Rollback, key: string -> string, planned: set<string>) {
    && MidBacked(t0, t, rb.blobKeys, key)
    && TargetOk(t) && t0.nextId <= t.nextId
    && MidRows(t0, t.rows, rb.rowIds, rb.components, planned)
    && MidComponents(t0, t.components, rb.components)
    && MidBlobs(t0, t.blobs, rb.blobKeys, key, planned)
  }

  /** What a failed copy leaves of the target it started from. */
  ghost predicate Compensated(t0: Target, t: Target, rb: Rollback, key: string -> string, planned: set<string>) {
    // no fresh row, no fresh component, no fresh blob
    && t.rows.Keys == t0.rows.Keys
    && t.components.Keys <= t0.components.Keys
    && (forall p :: p in planned && p !in t0.rows && key(p) !in t0.blobs ==> key(p) !in t.blobs)
    // every earlier row stays where it was; those the plan does not name are untouched
    && (forall p :: p in t0.rows ==> t.rows[p].id == t0.rows[p].id && t.rows[p].componentId == t0.rows[p].componentId)
    && (forall p :: p in t0.rows && p !in planned ==> t.rows[p] == t0.rows[p])
    // every earlier component that held an asset stays
    && (forall c :: c in t0.components && Referenced(t0.rows, c) ==>
          c in t.components && t.components[c].coordinates == t0.components[c].coordinates)
    // of the earlier blobs exactly those under the rolled-back keys are gone
    && (forall k :: k in t0.blobs ==> (k in t.blobs <==> k !in rb.blobKeys))
    && (forall k :: k in rb.blobKeys ==> exists p :: p in planned && p !in t0.rows && key(p) == k)
  }

  lemma ReferencedEarlier(t0: Target, rows: map<string, Row>, c: nat)
    requires TargetOk(t0) && Referenced(rows, c)
    requires forall p :: p in rows ==> p in t0.rows && rows[p].componentId == t0.rows[p].componentId
    ensures c in t0.components
  {
    var p :| p in rows && rows[p].componentId == c;
    assert t0.rows[p].componentId in t0.components;
  }

  /** Every delete the rollback has to make goes through. */
  ghost predicate AllDeleted(t0: Target, t: Target, rb: Rollback, f: Faults) {
    && (forall p :: p in t.rows && t.rows[p].id in rb.rowIds ==> t.rows[p].id !in f.rows)
    && (forall k :: k in rb.blobKeys && k in t.blobs ==> k !in f.blobs)
    && (forall c :: c in t.components && c !in t0.components ==> c !in f.components)
  }

  /** A failed copy is compensated exactly when no delete of its rollback fails. */
  lemma RollbackCompensates(t0: Target, t: Target, rb: Rollback, key: string -> string, planned: set<string>, f: Faults)
    requires TargetOk(t0) && Injective(key) && Midway(t0, t, rb, key, planned)
    ensures Compensated(t0, Undone(t, rb, f), rb, key, planned) <==> AllDeleted(t0, t, rb, f)
  {
    if AllDeleted(t0, t, rb, f) {
      DeletedMeansCompensated(t0, t, rb, key, planned, f);
    }
    var back := Undone(t, rb, f);
    if Compensated(t0, back, rb, key, planned) {
      forall p | p in t.rows && t.rows[p].id in rb.rowIds ensures t.rows[p].id !in f.rows {
        assert p !in t0.rows;
        assert p in back.rows <==> t.rows[p].id in f.rows;
      }
      forall k | k in rb.blobKeys && k in t.blobs ensures k !in f.blobs {
        assert k in back.blobs <==> k in f.blobs;
      }
      forall c | c in t.components && c !in t0.components ensures c !in f.components {
        assert c in f.components ==> c in back.components;
      }
    }
  }

  lemma DeletedMeansCompensated(t0: Target, t: Target, rb: Rollback, key: string -> string, planned: set<string>,
                                f: Faults)
    requires TargetOk(t0) && Injective(key) && Midway(t0, t, rb, key, planned) && AllDeleted(t0, t, rb, f)
    ensures Compensated(t0, Undone(t, rb, f), rb, key, planned)
  {
    DeletedRows(t0, t, rb, key, planned, f);
    DeletedComponents(t0, t, rb, key, planned, f);
    DeletedBlobs(t0, t, rb, key, planned, f);
    hide Undone, AllDeleted, MidBacked, MidRows, MidComponents, RowsOk, ComponentsOk, Referenced;
  }

  lemma DeletedRows(t0: Target, t: Target, rb: Rollback, key: string -> string, planned: set<string>, f: Faults)
    requires Midway(t0, t, rb, key, planned) && AllDeleted(t0, t, rb, f)
    ensures var rows := Undone(t, rb, f).rows;
            && rows.Keys == t0.rows.Keys
            && (forall p :: p in t0.rows ==> rows[p] == t.rows[p])
            && (forall p :: p in t0.rows ==>
                    rows[p].id == t0.rows[p].id && rows[p].componentId == t0.rows[p].componentId)
            && (forall p :: p in t0.rows && p !in planned ==> rows[p] == t0.rows[p])
  {
    hide MidBacked, MidBlobs, MidComponents, TargetOk;
  }

  lemma DeletedBlobs(t0: Target, t: Target, rb: Rollback, key: string -> string, planned: set<string>, f: Faults)
    requires Midway(t0, t, rb, key, planned) && AllDeleted(t0, t, rb, f)
    ensures var blobs := Undone(t, rb, f).blobs;
            && (forall p :: p in planned && p !in t0.rows && key(p) !in t0.blobs ==> key(p) !in blobs)
            && (forall k :: k in t0.blobs ==> (k in blobs <==> k !in rb.blobKeys))
            && (forall k :: k in rb.blobKeys ==> exists p :: p in planned && p !in t0.rows && key(p) == k)
  {
    hide MidBacked, MidRows, MidComponents, TargetOk;
  }

  lemma DeletedComponents(t0: Target, t: Target, rb: Rollback, key: string -> string, planned: set<string>, f: Faults)
    requires TargetOk(t0) && Midway(t0, t, rb, key, planned) && AllDeleted(t0, t, rb, f)
    ensures var components := Undone(t, rb, f).components;
            && components.Keys <= t0.components.Keys
            && forall c :: c in t0.components && Referenced(t0.rows, c) ==>
                 c in components && components[c].coordinates == t0.components[c].coordinates
  {
    DeletedRows(t0, t, rb, key, planned, f);
    hide MidBacked, MidBlobs, MidRows;
    var back := Undone(t, rb, f);
    forall c | c in t0.components && Referenced(t0.rows, c) ensures Referenced(back.rows, c) {
      var p :| p in t0.rows && t0.rows[p].componentId == c;
      assert p in back.rows && back.rows[p].componentId == c;
    }
    forall c | c in back.components ensures c in t0.components {
      if Referenced(back.rows, c) {
        ReferencedEarlier(t0, back.rows, c);
      }
    }
  }

  /**
   A fresh row is left behind exactly when its own delete fails, and then without bytes exactly when
   that of its blob does not.
   */
  lemma FreshRowDanglesExactly(t0: Target, t: Target, rb: Rollback, key: string -> string, planned: set<string>,
                               f: Faults, p: string)
    requires Midway(t0, t, rb, key, planned) && p in t.rows && p !in t0.rows
    ensures var back := Undone(t, rb, f);
            && (p in back.rows <==> t.rows[p].id in f.rows)
            && (p in back.rows && back.rows[p].blobKey !in back.blobs <==> t.rows[p].id in f.rows && key(p) !in f.blobs)
  {
    hide TargetOk, MidComponents, MidBlobs;
  }

  /**
   A caller that goes away fails the copy and every row delete after it, while a local store still
   deletes the bytes.
   */
  lemma CancelledCopyLeavesRowsWithoutBytes(key: string -> string)
    requires Injective(key)
    ensures var t0 := Target(map[], map[], map[], 0);
            var t := Target(map[0 := Component(Coordinates("", "c", "1"), map[])],
                           map["/a" := Row(1, 0, key("/a"), "h")],
                            map[key("/a") := "bytes"], 2);
            var rb := Rollback({1}, {key("/a")}, {0});
            var back := Undone(t, rb, Faults({1}, {}, {0}));
            TargetOk(t0) && Midway(t0, t, rb, key, {"/a", "/b"})
            && "/a" !in t0.rows && "/a" in back.rows && back.rows["/a"].blobKey !in back.blobs
  {
    assert "/a" in {"/a", "/b"};
    assert 1 in {1};
  }

  /**
   What even a perfect rollback does not promise: whichever way the copy fails, the bytes under a
   key stay (for any row that uses it, of this repository or another) exactly when the key is not
   that of a path the plan writes and the target does not have.
   */
  lemma SurvivorsKeepTheirBytesExactly(t0: Target, key: string -> string, planned: set<string>, k: string)
    requires TargetOk(t0) && Injective(key) && k in t0.blobs
    ensures (forall t, rb :: Midway(t0, t, rb, key, planned) ==> k in RolledBack(t, rb).blobs)
            <==> (forall p :: p in planned && p !in t0.rows ==> key(p) != k)
  {
    if p :| p in planned && p !in t0.rows && key(p) == k {
      MidwayStarts(t0, key, planned);
      PutKeepsMidway(t0, t0, Rollback({}, {}, {}), key, planned, p, "");
      var t := t0.(blobs := t0.blobs[k := ""]);
      assert Midway(t0, t, Rollback({}, {} + {k}, {}), key, planned);
      assert k !in RolledBack(t, Rollback({}, {} + {k}, {})).blobs;
    } else {
      forall t, rb | Midway(t0, t, rb, key, planned) ensures k in RolledBack(t, rb).blobs {
        hide MidRows, MidComponents, TargetOk, MidBacked;
      }
    }
  }

  /**
   And that does happen: in any target where one row is filed under the key of another path it
   lacks, a copy of that path that fails once its bytes are in leaves the row without bytes.
   */
  lemma SharedFreshKeyDangles(t0: Target, key: string -> string, c: nat, old_: string, fresh_: string, bytes: string)
    requires TargetOk(t0) && Injective(key) && c in t0.components && fresh_ !in t0.rows
    requires old_ in t0.rows && t0.rows[old_].blobKey == key(fresh_) && key(fresh_) in t0.blobs
    ensures var written := t0.(blobs := t0.blobs[key(fresh_) := bytes]);
            var back := RolledBack(written, Rollback({}, {key(fresh_)}, {c}));
            Midway(t0, written, Rollback({}, {key(fresh_)}, {c}), key, {fresh_})
            && old_ in back.rows && back.rows[old_].blobKey !in back.blobs
  {
    KeyTakenBack(t0.(blobs := t0.blobs[key(fresh_) := bytes]), Rollback({}, {key(fresh_)}, {c}), old_, key(fresh_));
    hide Midway, Injective, RolledBack;
    MidwayStarts(t0, key, {fresh_});
    TouchedMidway(t0, t0, t0, Rollback({}, {}, {}), key, {fresh_}, c);
    PutKeepsMidway(t0, t0, Rollback({}, {}, {c}), key, {fresh_}, fresh_, bytes);
    assert {} + {key(fresh_)} == {key(fresh_)};
    assert {} + {c} == {c};
  }

  lemma KeyTakenBack(t: Target, rb: Rollback, p: string, k: string)
    requires p in t.rows && t.rows[p].blobKey == k && t.rows[p].id !in rb.rowIds && k in rb.blobKeys
    ensures var back := RolledBack(t, rb); p in back.rows && back.rows[p].blobKey !in back.blobs
  {
  }

  lemma MidwayStarts(t0: Target, key: string -> string, planned: set<string>)
    requires TargetOk(t0)
    ensures Midway(t0, t0, Rollback({}, {}, {}), key, planned)
  {
  }

  lemma MidwayGives(t0: Target, t: Target, rb: Rollback, key: string -> string, planned: set<string>)
    requires Midway(t0, t, rb, key, planned)
    ensures TargetOk(t)
    ensures forall p :: p in t0.rows && p !in planned ==> p in t.rows && t.rows[p] == t0.rows[p]
    ensures forall p :: p in t0.rows ==> p in t.rows
  {
  }

  /** Bytes arrive under a planned path's key; a fresh path's key is listed. */
  lemma PutKeepsMidway(t0: Target, t: Target, rb: Rollback, key: string -> string, planned: set<string>, p: string,
                       bytes: string)
    requires Injective(key) && Midway(t0, t, rb, key, planned) && p in planned && (p in t.rows ==> p in t0.rows)
    ensures Midway(t0, t.(blobs := t.blobs[key(p) := bytes]),
                   if p in t.rows then rb else rb.(blobKeys := rb.blobKeys + {key(p)}), key, planned)
  {
    hide RowsOk, ComponentsOk, MidComponents;
    assert p in t0.rows ==> p in t.rows;
  }

  lemma FreshRowOk(rows: map<string, Row>, components: set<nat>, nextId: nat, p: string, row: Row)
    requires RowsOk(rows, components, nextId) && p !in rows && row.id == nextId && row.componentId in components
    ensures RowsOk(rows[p := row], components, nextId + 1)
  {
  }

  /** A fresh path gets a listed row. */
  lemma FreshRowKeepsMidway(t0: Target, t: Target, rb: Rollback, key: string -> string, planned: set<string>,
                            p: string, row: Row)
    requires TargetOk(t0) && Midway(t0, t, rb, key, planned) && p in planned && p !in t.rows
    requires row.id == t.nextId && row.componentId in t.components && row.componentId in rb.components
    requires row.blobKey == key(p) && key(p) in t.blobs && key(p) in rb.blobKeys
    ensures Midway(t0, t.(rows := t.rows[p := row], nextId := t.nextId + 1),
                   rb.(rowIds := rb.rowIds + {t.nextId}), key, planned)
  {
    FreshRowOk(t.rows, t.components.Keys, t.nextId, p, row);
    assert ComponentsOk(t.components, t.nextId + 1);
    assert forall q :: q in t0.rows ==> t0.rows[q].id < t.nextId;
    hide MidBlobs, RowsOk, ComponentsOk, MidComponents;
    FreshRowListed(t0, t.rows, rb.rowIds, rb.components, planned, p, row);
    FreshRowBacked(t0, t, rb.blobKeys, key, p, row);
    hide MidRows, MidBacked;
  }

  lemma FreshRowBacked(t0: Target, t: Target, listed: set<string>, key: string -> string, p: string, row: Row)
    requires MidBacked(t0, t, listed, key) && row.blobKey == key(p) && key(p) in t.blobs && key(p) in listed
    ensures MidBacked(t0, t.(rows := t.rows[p := row], nextId := t.nextId + 1), listed, key)
  {
  }

  lemma FreshRowListed(t0: Target, rows: map<string, Row>, listed: set<nat>, touched: set<nat>, planned: set<string>,
                       p: string, row: Row)
    requires MidRows(t0, rows, listed, touched, planned) && p in planned && p !in rows && row.componentId in touched
    requires forall q :: q in t0.rows ==> t0.rows[q].id < row.id
    ensures MidRows(t0, rows[p := row], listed + {row.id}, touched, planned)
  {
  }

  /** A path already there keeps its row's id and component. */
  lemma OverwriteKeepsMidway(t0: Target, t: Target, rb: Rollback, key: string -> string, planned: set<string>,
                             p: string, row: Row)
    requires Midway(t0, t, rb, key, planned) && p in planned && p in t.rows && p in t0.rows
    requires row.id == t.rows[p].id && row.componentId == t.rows[p].componentId
    ensures Midway(t0, t.(rows := t.rows[p := row]), rb, key, planned)
  {
    hide MidBlobs, ComponentsOk, MidComponents;
  }

  class Copier {
    const key: string -> string
    var target: Target
    var rollback: Rollback

    constructor (key: string -> string, target: Target)
      ensures this.key == key && this.target == target && rollback == Rollback({}, {}, {})
    {
      this.key, this.target, rollback := key, target, Rollback({}, {}, {});
    }

    /** Upserts on the coordinates; a component already there keeps its id and takes the new extra. */
    method CreateComponent(c: Component) returns (id: Option<nat>)
      requires TargetOk(target)
      modifies this`target
      ensures id.None? ==> target == old(target)
      ensures id.Some? ==> TargetOk(target) && id.value in target.components && target.components[id.value] == c
                           && target.nextId >= old(target.nextId)
                           && target.rows == old(target.rows) && target.blobs == old(target.blobs)
                           && target.components == old(target.components)[id.value := c]
                           && (id.value in old(target.components) ==>
                                 old(target.components)[id.value].coordinates == c.coordinates)
    {
      var fails: bool := *;
      if fails { return None; }
      if found :| found in target.components && target.components[found].coordinates == c.coordinates {
        target := target.(components := target.components[found := c]);
        return Some(found);
      }
      target := target.(components := target.components[target.nextId := c], nextId := target.nextId + 1);
      return Some(target.nextId - 1);
    }

    /** Copies one asset's bytes and row into the component; any of its steps may fail. */
    method CopyAsset(a: Asset, component: nat, ghost t0: Target, ghost planned: set<string>) returns (ok: bool)
      requires Injective(key) && TargetOk(t0) && Midway(t0, target, rollback, key, planned)
      requires a.path in planned && component in rollback.components && component in target.components
      requires a.path in target.rows ==> a.path in t0.rows
      modifies this`target, this`rollback
      ensures Midway(t0, target, rollback, key, planned)
      ensures rollback.components == old(rollback.components) && target.components == old(target.components)
      ensures ok ==> Holds(target, key, a) && target.rows.Keys == old(target.rows.Keys) + {a.path}
      ensures forall p :: p != a.path && p in old(target.rows) ==>
                p in target.rows && target.rows[p] == old(target.rows)[p]
      ensures forall k :: k != key(a.path) && k in old(target.blobs) ==>
                k in target.blobs && target.blobs[k] == old(target.blobs)[k]
    {
      hide Midway, TargetOk, Injective;
      var fails: bool := *;
      if fails { return false; }
      var k := key(a.path);
      var fresh_ := a.path !in target.rows;
      if a.bytes.None? { return false; }
      fails := *;
      if fails { return false; }
      PutKeepsMidway(t0, target, rollback, key, planned, a.path, a.bytes.value);
      target := target.(blobs := target.blobs[k := a.bytes.value]);
      if fresh_ {
        rollback := rollback.(blobKeys := rollback.blobKeys + {k});
      }
      fails := *;
      if fails { return false; }
      if fresh_ {
        var id := target.nextId;
        var row := Row(id, component, k, a.sha256);
        FreshRowKeepsMidway(t0, target, rollback, key, planned, a.path, row);
        target := target.(rows := target.rows[a.path := row], nextId := id + 1);
        rollback := rollback.(rowIds := rollback.rowIds + {id});
      } else {
        var row := target.rows[a.path].(blobKey := k, sha256 := a.sha256);
        OverwriteKeepsMidway(t0, target, rollback, key, planned, a.path, row);
        target := target.(rows := target.rows[a.path := row]);
      }
      return true;
    }

    /** The listed rows go, each unless its delete fails. */
    method DeleteRows() returns (ghost kept: set<nat>)
      modifies this`target
      ensures target == old(target).(rows := RowsBut(old(target.rows), rollback.rowIds, kept))
    {
      kept := {};
      var todo := rollback.rowIds;
      while todo != {}
        invariant todo <= rollback.rowIds && todo !! kept
        invariant target == old(target).(rows := RowsBut(old(target.rows), rollback.rowIds, todo + kept))
        decreases todo
      {
        var id :| id in todo;
        ghost var left := todo + kept;
        todo := todo - {id};
        var fails: bool := *;
        if fails {
          kept := kept + {id};
          assert todo + kept == left;
        } else {
          target := target.(rows := map p | p in target.rows && target.rows[p].id != id :: target.rows[p]);
          assert todo + kept == left - {id};
        }
      }
      assert todo + kept == kept;
    }

    /** Then their bytes. */
    method DeleteBlobs() returns (ghost kept: set<string>)
      modifies this`target
      ensures target == old(target).(blobs := BlobsBut(old(target.blobs), rollback.blobKeys, kept))
    {
      kept := {};
      var todo := rollback.blobKeys;
      while todo != {}
        invariant todo <= rollback.blobKeys && todo !! kept
        invariant target == old(target).(blobs := BlobsBut(old(target.blobs), rollback.blobKeys, todo + kept))
        decreases todo
      {
        var k :| k in todo;
        ghost var left := todo + kept;
        todo := todo - {k};
        var fails: bool := *;
        if fails {
          kept := kept + {k};
          assert todo + kept == left;
        } else {
          target := target.(blobs := target.blobs - {k});
          assert todo + kept == left - {k};
        }
      }
      assert todo + kept == kept;
    }

    /** Then every touched component no row refers to; one whose rows cannot be listed stays too. */
    method DeleteComponents() returns (ghost kept: set<nat>)
      modifies this`target
      ensures target == old(target).(components :=
                ComponentsBut(old(target.components), rollback.components, old(target.rows), kept))
    {
      kept := {};
      var todo := rollback.components;
      while todo != {}
        invariant todo <= rollback.components && todo !! kept
        invariant target == old(target).(components :=
                    ComponentsBut(old(target.components), rollback.components, old(target.rows), todo + kept))
        decreases todo
      {
        var c :| c in todo;
        ghost var left := todo + kept;
        todo := todo - {c};
        var fails: bool := *;
        if fails {
          kept := kept + {c};
          assert todo + kept == left;
        } else {
          if !Referenced(target.rows, c) {
            target := target.(components := target.components - {c});
          }
          assert todo + kept == left - {c};
        }
      }
      assert todo + kept == kept;
    }

    /** Deletes what the copy created; errors are passed over, and `faults` says which there were. */
    method Run() returns (ghost faults: Faults)
      modifies this`target
      ensures target == Undone(old(target), rollback, faults)
    {
      hide RowsBut, BlobsBut, ComponentsBut;
      ghost var rows := DeleteRows();
      ghost var blobs := DeleteBlobs();
      ghost var components := DeleteComponents();
      faults := Faults(rows, blobs, components);
    }

    /** The pending assets of one unit, into its target component. */
    method CopyUnit(assets: seq<Asset>, component: nat, ghost t0: Target, ghost planned: set<string>,
                    ghost done: set<string>)
      returns (ok: bool)
      requires Injective(key) && TargetOk(t0) && Midway(t0, target, rollback, key, planned)
      requires component in rollback.components && component in target.components
      requires UnitApart(assets, planned, done) && target.rows.Keys <= t0.rows.Keys + done
      modifies this`target, this`rollback
      ensures Midway(t0, target, rollback, key, planned)
      ensures ok ==> AllHeld(target, key, assets) && target.rows.Keys <= t0.rows.Keys + done + Paths(assets)
      ensures forall a: Asset :: a.path in done && Holds(old(target), key, a) ==> Holds(target, key, a)
    {
      hide Midway, TargetOk, Holds;
      for i := 0 to |assets|
        invariant Midway(t0, target, rollback, key, planned)
        invariant component in rollback.components && component in target.components
        invariant target.rows.Keys <= t0.rows.Keys + done + Paths(assets[..i])
        invariant AllHeld(target, key, assets[..i])
        invariant forall a: Asset :: a.path in done && Holds(old(target), key, a) ==> Holds(target, key, a)
      {
        var a := assets[i];
        assert a.path !in Paths(assets[..i]);
        ghost var before := target;
        ok := CopyAsset(a, component, t0, planned);
        forall b: Asset | b.path != a.path && Holds(before, key, b) ensures Holds(target, key, b) {
          HoldsStays(before, target, key, a.path, b);
        }
        if !ok { return; }
        assert assets[..i + 1] == assets[..i] + [a];
        assert Paths(assets[..i + 1]) == Paths(assets[..i]) + {a.path};
      }
      assert assets[..|assets|] == assets;
      return true;
    }

    /**
     Writes a plan. On success the target holds every planned path with the source's hash and
     bytes and no other row moved; on failure, wherever it struck, the target is compensated exactly
     when no delete of the rollback failed (`faults`, of the target as it was `midway`).
     A unit with nothing pending is passed over where the plan copies only what is missing.
     */
    method ExecuteCopy(units: seq<Unit>, pending: seq<seq<Asset>>, onlyMissing: bool)
      returns (ok: bool, ghost midway: Target, ghost faults: Faults)
      requires TargetOk(target) && Injective(key) && rollback == Rollback({}, {}, {})
      requires |pending| == |units| && PathsApart(pending)
      modifies this`target, this`rollback
      ensures ok ==> forall i :: 0 <= i < |pending| ==> AllHeld(target, key, pending[i])
      ensures ok ==> TargetOk(target) && target.rows.Keys <= old(target.rows).Keys + PlannedPaths(pending)
      ensures ok ==> forall p :: p in old(target.rows) && p !in PlannedPaths(pending) ==>
                p in target.rows && target.rows[p] == old(target.rows)[p]
      ensures !ok ==>
                Midway(old(target), midway, rollback, key, PlannedPaths(pending))
                     && target == Undone(midway, rollback, faults)
      ensures !ok ==> (Compensated(old(target), target, rollback, key, PlannedPaths(pending))
                       <==> AllDeleted(old(target), midway, rollback, faults))
    {
      hide Midway, TargetOk, Holds, Compensated, PlannedPaths, PathsApart, UnitApart, Injective, Undone, AllDeleted;
      midway, faults := target, NO_FAULTS;
      ghost var t0 := target;
      ghost var planned := PlannedPaths(pending);
      MidwayStarts(t0, key, planned);
      NothingPlanned(pending);
      for i := 0 to |units|
        invariant Midway(t0, target, rollback, key, planned)
        invariant target.rows.Keys <= t0.rows.Keys + PlannedPaths(pending[..i])
        invariant forall j :: 0 <= j < i ==> AllHeld(target, key, pending[j])
      {
        PlannedStep(pending, i);
        if Skips(onlyMissing, units[i]) && pending[i] == [] {
          continue;
        }
        ghost var before := target;
        MidwayGives(t0, target, rollback, key, planned);
        var id := CreateComponent(units[i].component);
        if id.None? {
          midway := target;
          faults := Run();
          RollbackCompensates(t0, midway, rollback, key, planned, faults);
          return false, midway, faults;
        }
        TouchedMidway(t0, before, target, rollback, key, planned, id.value);
        rollback := rollback.(components := rollback.components + {id.value});
        ghost var middle := target;
        var copied := CopyUnit(pending[i], id.value, t0, planned, PlannedPaths(pending[..i]));
        if !copied {
          midway := target;
          faults := Run();
          RollbackCompensates(t0, midway, rollback, key, planned, faults);
          return false, midway, faults;
        }
        forall j | 0 <= j < i ensures AllHeld(target, key, pending[j]) {
          forall a | a in pending[j] ensures Holds(target, key, a) {
            PlannedHas(pending, i, j, a);
            assert Holds(before, key, a);
            HoldsSame(before, middle, key, a);
          }
        }
      }
      assert pending[..|pending|] == pending;
      MidwayGives(t0, target, rollback, key, planned);
      return true, target, NO_FAULTS;
    }
  }

  function Paths(assets: seq<Asset>): set<string> {
    set a | a in assets :: a.path
  }

  predicate AllHeld(t: Target, key: string -> string, assets: seq<Asset>) {
    forall a :: a in assets ==> Holds(t, key, a)
  }

  lemma HoldsStays(before: Target, after: Target, key: string -> string, p: string, b: Asset)
    requires Injective(key) && Holds(before, key, b) && b.path != p
    requires forall q :: q != p && q in before.rows ==> q in after.rows && after.rows[q] == before.rows[q]
    requires forall k :: k != key(p) && k in before.blobs ==> k in after.blobs && after.blobs[k] == before.blobs[k]
    ensures Holds(after, key, b)
  {
    assert key(b.path) != key(p);
  }

  lemma HoldsSame(before: Target, after: Target, key: string -> string, b: Asset)
    requires Holds(before, key, b) && after.rows == before.rows && after.blobs == before.blobs
    ensures Holds(after, key, b)
  {
  }

  lemma NothingPlanned(pending: seq<seq<Asset>>)
    ensures PlannedPaths(pending[..0]) == {}
  {
  }

  predicate UnitApart(assets: seq<Asset>, planned: set<string>, done: set<string>) {
    && Paths(assets) <= planned && Paths(assets) !! done
    && forall i, j :: 0 <= i < j < |assets| ==> assets[i].path != assets[j].path
  }

  lemma PlannedHas(pending: seq<seq<Asset>>, i: nat, j: nat, a: Asset)
    requires j < i <= |pending| && a in pending[j]
    ensures a.path in PlannedPaths(pending[..i])
  {
    var k :| 0 <= k < |pending[j]| && pending[j][k] == a;
    assert pending[..i][j][k].path == a.path;
  }

  lemma NotPlanned(pending: seq<seq<Asset>>, n: nat, p: string)
    requires n <= |pending| && forall j, l :: 0 <= j < n && 0 <= l < |pending[j]| ==> pending[j][l].path != p
    ensures p !in PlannedPaths(pending[..n])
  {
  }

  lemma PlannedStep(pending: seq<seq<Asset>>, i: nat)
    requires i < |pending| && PathsApart(pending)
    ensures UnitApart(pending[i], PlannedPaths(pending), PlannedPaths(pending[..i]))
    ensures PlannedPaths(pending[..i]) + Paths(pending[i]) <= PlannedPaths(pending[..i + 1])
  {
    forall a | a in pending[i]
      ensures a.path in PlannedPaths(pending) && a.path in PlannedPaths(pending[..i + 1])
              && a.path !in PlannedPaths(pending[..i])
    {
      assert pending[..|pending|] == pending;
      PlannedHas(pending, |pending|, i, a);
      PlannedHas(pending, i + 1, i, a);
      var k :| 0 <= k < |pending[i]| && pending[i][k] == a;
      NotPlanned(pending, i, pending[i][k].path);
    }
    forall p | p in PlannedPaths(pending[..i]) ensures p in PlannedPaths(pending[..i + 1]) {
      var j, l :| 0 <= j < i && 0 <= l < |pending[..i][j]| && pending[..i][j][l].path == p;
      assert pending[..i + 1][j][l].path == p;
    }
  }

  /** Upserting a component and listing it keeps the copy sound. */
  lemma TouchedMidway(t0: Target, before: Target, after: Target, rb: Rollback, key: string -> string,
                      planned: set<string>, id: nat)
    requires Midway(t0, before, rb, key, planned) && TargetOk(after) && id in after.components
            && after.nextId >= before.nextId
    requires after.rows == before.rows && after.blobs == before.blobs
    requires after.components == before.components[id := after.components[id]]
    requires id in before.components ==> before.components[id].coordinates == after.components[id].coordinates
    ensures Midway(t0, after, rb.(components := rb.components + {id}), key, planned)
  {
  }

  // ---------------------------------------------------------------- promoting again

  lemma UnitAgain(t0: Target, t: Target, key: string -> string, side: string -> bool, u: Unit)
    requires AllHeld(t, key, PendingOf(t0, side, true, u))
    requires forall a :: a in u.assets && a !in PendingOf(t0, side, true, u) && a.path in t0.rows ==>
               a.path in t.rows && t.rows[a.path] == t0.rows[a.path]
    ensures PendingOf(t, side, true, u) == [] <==> forall a :: a in u.assets && !side(a.path) ==> a.sha256 != ""
  {
    PendingHas(t0, side, true, u);
    PendingHas(t, side, true, u);
    hide PendingOf;
    forall a | a in u.assets && !side(a.path) ensures Writes(t, side, true, u, a) <==> a.sha256 == "" {
      assert Writes(t0, side, true, u, a) ==> a in PendingOf(t0, side, true, u);
    }
    if PendingOf(t, side, true, u) != [] {
      assert PendingOf(t, side, true, u)[0] in PendingOf(t, side, true, u);
    }
  }

  /** No path twice across the units of a plan. */
  predicate UnitsApart(units: seq<Unit>) {
    forall i, j, a, b :: 0 <= i < |units| && 0 <= j < |units| && a in units[i].assets && b in units[j].assets
         && a.path == b.path
      ==> i == j && a == b
  }

  lemma SkippedIsUnplanned(t0: Target, side: string -> bool, units: seq<Unit>, pending: seq<seq<Asset>>, i: nat,
                           a: Asset)
    requires |pending| == |units| && forall j :: 0 <= j < |units| ==> pending[j] == PendingOf(t0, side, true, units[j])
    requires UnitsApart(units) && i < |units| && a in units[i].assets && a !in pending[i]
    ensures a.path !in PlannedPaths(pending)
  {
    forall j, l | 0 <= j < |pending| && 0 <= l < |pending[j]| ensures pending[j][l].path != a.path {
      assert pending[j][l] in pending[j];
      PendingIsListed(t0, side, units[j], pending[j][l]);
    }
    NotPlanned(pending, |pending|, a.path);
    assert pending[..|pending|] == pending;
  }

  lemma PendingIsListed(t0: Target, side: string -> bool, u: Unit, a: Asset)
    requires a in PendingOf(t0, side, true, u)
    ensures a in u.assets
  {
    PendingHas(t0, side, true, u);
  }

  /**
   An automatic promotion run again right after it succeeded has nothing to copy exactly when every
   file of it, side files apart, recorded a hash: an asset without one is copied again every time.
   (`t` is what ExecuteCopy promises of the target it leaves.)
   */
  lemma PromotingAgainCopiesNothing(t0: Target, t: Target, key: string -> string, side: string -> bool,
                                    units: seq<Unit>, pending: seq<seq<Asset>>)
    requires |pending| == |units| && forall i :: 0 <= i < |units| ==> pending[i] == PendingOf(t0, side, true, units[i])
    requires UnitsApart(units)
    requires forall i :: 0 <= i < |pending| ==> AllHeld(t, key, pending[i])
    requires forall p :: p in t0.rows && p !in PlannedPaths(pending) ==> p in t.rows && t.rows[p] == t0.rows[p]
    ensures (forall i :: 0 <= i < |units| ==> PendingOf(t, side, true, units[i]) == [])
            <==> forall i, a :: 0 <= i < |units| && a in units[i].assets && !side(a.path) ==> a.sha256 != ""
  {
    hide PlannedPaths, UnitsApart;
    forall i | 0 <= i < |units|
      ensures PendingOf(t, side, true, units[i]) == []
              <==> forall a :: a in units[i].assets && !side(a.path) ==> a.sha256 != ""
    {
      forall a | a in units[i].assets && a !in pending[i] ensures a.path !in PlannedPaths(pending) {
        SkippedIsUnplanned(t0, side, units, pending, i, a);
      }
      UnitAgain(t0, t, key, side, units[i]);
    }
  }

  /** Such an asset: copied into an empty target, it is planned again from the target that holds it. */
  lemma UnhashedIsCopiedAgain(key: string -> string, side: string -> bool)
    requires !side("/a")
    ensures var a := Asset("/a", "", Some("bytes"));
            var u := Unit(Component(Coordinates("", "c", "1"), map[]), [a], false);
            var t0 := Target(map[], map[], map[], 0);
            var t := Target(map[0 := u.component], map["/a" := Row(1, 0, key("/a"), "")], map[key("/a") := "bytes"], 2);
            PendingOf(t0, side, true, u) == [a] && AllHeld(t, key, [a]) && PendingOf(t, side, true, u) == [a]
  {
    var a := Asset("/a", "", Some("bytes"));
    var u := Unit(Component(Coordinates("", "c", "1"), map[]), [a], false);
    UnhashedIsPending(Target(map[], map[], map[], 0), side, u, a);
    UnhashedIsPending(Target(map[0 := u.component], map["/a" := Row(1, 0, key("/a"), "")],
                             map[key("/a") := "bytes"], 2),
                      side, u, a);
    hide PendingOf;
  }

  lemma UnhashedIsPending(t: Target, side: string -> bool, u: Unit, a: Asset)
    requires u.assets == [a] && a.sha256 == "" && !side(a.path)
    ensures PendingOf(t, side, true, u) == [a]
  {
    var writes := (b: Asset) => Writes(t, side, true, u, b);
    assert [a][..0] == [] && Chosen(writes, [a][..0]) == [];
    ChosenSame(writes, b => Writes(t, side, true, u, b), [a]);
  }
}
