/**
 Restore of an archive, in place, into an instance that assigns its own ids. A restored export is the
 exported instance under a renaming of ids: rows correspond one to one, every link leads to the
 corresponding row, and every asset has its bytes.
 */
module BackupRestore {
  import opened Prelude
  import opened Backup
  import opened RestoreRules

  // ---------------------------------------------------------------- renamings

  /** Old ids to new ones and back. */
  datatype Renaming = Renaming(to: map<Id, Id>, from: map<Id, Id>)

  const NOTHING := Renaming(map[], map[])

  ghost predicate Renames(f: Renaming, olds: set<Id>, news: set<Id>) {
    && f.to.Keys == olds && f.from.Keys == news
    && (forall o :: o in f.to ==> f.to[o] in f.from && f.from[f.to[o]] == o)
    && (forall n :: n in f.from ==> f.from[n] in f.to && f.to[f.from[n]] == n)
  }

  ghost function Extend(f: Renaming, o: Id, n: Id): Renaming {
    Renaming(f.to[o := n], f.from[n := o])
  }

  lemma RenamesOneMore(f: Renaming, olds: set<Id>, news: set<Id>, o: Id, n: Id)
    requires Renames(f, olds, news) && o !in olds && n !in news
    ensures Renames(Extend(f, o, n), olds + {o}, news + {n})
  {
  }

  datatype Renamings = Renamings(stores: Renaming, repos: Renaming, components: Renaming, assets: Renaming)

  predicate SameStore(s: Store, d: Store, to: map<Id, Id>) {
    match s
    case Physical(_, _) => d == s
    case Group(name, settings, members) =>
      && d.Group? && d.name == name && d.settings == settings && |d.members| == |members|
      && forall k :: 0 <= k < |members| ==> members[k] in to && d.members[k] == to[members[k]]
  }

  predicate SameRepo(r: Repo, d: Repo, stores: map<Id, Id>) {
    && d.name == r.name && d.settings == r.settings
    && match r.store
       case None => d.store.None?
       case Some(s) => s in stores && d.store == Some(stores[s])
  }

  predicate SameComponent(c: Component, d: Component, repos: map<Id, Id>) {
    c.repo in repos && d == c.(repo := repos[c.repo])
  }

  predicate SameAsset(a: Asset, d: Asset, stores: map<Id, Id>, repos: map<Id, Id>, components: map<Id, Id>) {
    && a.repo in repos && a.component in components && a.store in stores
    && d == a.(repo := repos[a.repo], component := components[a.component], store := stores[a.store])
  }

  /** `dst` is `src` with its ids renamed by `f`, bytes included. */
  ghost predicate Isomorphic(src: Instance, dst: Instance, f: Renamings) {
    && Renames(f.stores, src.stores.Keys, dst.stores.Keys)
    && Renames(f.repos, src.repos.Keys, dst.repos.Keys)
    && Renames(f.components, src.components.Keys, dst.components.Keys)
    && Renames(f.assets, src.assets.Keys, dst.assets.Keys)
    && (forall s :: s in src.stores ==> SameStore(src.stores[s], dst.stores[f.stores.to[s]], f.stores.to))
    && (forall r :: r in src.repos ==> SameRepo(src.repos[r], dst.repos[f.repos.to[r]], f.stores.to))
    && (forall c :: c in src.components ==>
          SameComponent(src.components[c], dst.components[f.components.to[c]], f.repos.to))
    && (forall a :: a in src.assets ==>
          SameAsset(src.assets[a], dst.assets[f.assets.to[a]], f.stores.to, f.repos.to, f.components.to))
    && SameBytes(src, dst, f.assets.to)
  }

  /** An asset that had its bytes has them still. */
  ghost predicate SameBytes(src: Instance, dst: Instance, to: map<Id, Id>) {
    forall a :: a in src.assets && src.assets[a].key != "" && Place(src.assets[a]) in src.objects ==>
      && a in to && to[a] in dst.assets && Place(dst.assets[to[a]]) in dst.objects
      && dst.objects[Place(dst.assets[to[a]])] == src.objects[Place(src.assets[a])]
  }

  // ---------------------------------------------------------------- blob stores

  /** The stable sort that puts the stores a group may name before the groups. */
  function PhysicalFirst(es: seq<Entry<Store>>): seq<Entry<Store>> {
    Pick(es, false) + Pick(es, true)
  }

  function Pick(es: seq<Entry<Store>>, groups: bool): seq<Entry<Store>> {
    if es == [] then []
    else Pick(es[..|es| - 1], groups) + (if es[|es| - 1].data.Group? == groups then [es[|es| - 1]] else [])
  }

  ghost predicate DistinctIds<T>(es: seq<Entry<T>>) {
    forall i, j :: 0 <= i < j < |es| ==> es[i].id != es[j].id
  }

  lemma {:induction false} Picked(es: seq<Entry<Store>>, groups: bool)
    ensures forall e :: e in Pick(es, groups) <==> e in es && e.data.Group? == groups
    ensures DistinctIds(es) ==> DistinctIds(Pick(es, groups))
  {
    if es != [] {
      var before, last := es[..|es| - 1], es[|es| - 1];
      Picked(before, groups);
      assert es == before + [last];
      if DistinctIds(es) {
        assert forall e :: e in before ==> e.id != last.id;
      }
    }
  }

  ghost predicate GroupsLast(es: seq<Entry<Store>>) {
    forall i, j :: 0 <= i <= j < |es| && es[i].data.Group? ==> es[j].data.Group?
  }

  /** The sorted list has the same entries, and a group's members come before it. */
  lemma Sorted(es: seq<Entry<Store>>, src: map<Id, Store>)
    requires ListsAll(es, src)
    ensures ListsAll(PhysicalFirst(es), src)
    ensures GroupsLast(PhysicalFirst(es))
  {
    Picked(es, false);
    Picked(es, true);
    var plain, groups := Pick(es, false), Pick(es, true);
    var all := PhysicalFirst(es);
    forall i | 0 <= i < |all| ensures all[i] in es && (all[i].data.Group? <==> i >= |plain|) {
      assert if i < |plain| then all[i] in plain else all[i] in groups;
    }
    forall id | id in src ensures exists i :: 0 <= i < |all| && all[i].id == id {
      var i :| 0 <= i < |es| && es[i].id == id;
      assert es[i] in es;
      assert es[i] in all;
    }
    forall i, j | 0 <= i < j < |all| ensures all[i].id != all[j].id {
      assert all[i].data == src[all[i].id] && all[j].data == src[all[j].id];
    }
  }

  function NameOf(id: Id, names: map<Id, Id>): Id {
    if id in names then names[id] else ""
  }

  /** Archived member ids as ids of this instance, without those that have no counterpart. */
  function Remapped(ids: seq<Id>, oldName: map<Id, Id>, byName: map<Id, Id>): seq<Id> {
    if ids == [] then []
    else
      var name := NameOf(ids[|ids| - 1], oldName);
      Remapped(ids[..|ids| - 1], oldName, byName) + (if name in byName then [byName[name]] else [])
  }

  lemma {:induction false} RemappedInFull(ids: seq<Id>, oldName: map<Id, Id>, byName: map<Id, Id>)
    requires forall k :: 0 <= k < |ids| ==> NameOf(ids[k], oldName) in byName
    ensures |Remapped(ids, oldName, byName)| == |ids|
    ensures forall k :: 0 <= k < |ids| ==> Remapped(ids, oldName, byName)[k] == byName[NameOf(ids[k], oldName)]
  {
    if ids != [] {
      RemappedInFull(ids[..|ids| - 1], oldName, byName);
    }
  }

  /**
   The group's members in their order, under their new ids: exactly those whose archived name has a
   store here, each as often as the archive lists it (`at` says where the members come from).
   */
  method RemapGroupMembers(ids: seq<Id>, oldName: map<Id, Id>, byName: map<Id, Id>)
    returns (out: seq<Id>, ghost at: seq<nat>)
    ensures out == Remapped(ids, oldName, byName)
    ensures |at| == |out| && forall k, l :: 0 <= k < l < |at| ==> at[k] < at[l]
    ensures forall i: nat :: i in at <==> i < |ids| && NameOf(ids[i], oldName) in byName
    ensures forall k :: 0 <= k < |out| ==> at[k] in at && out[k] == byName[NameOf(ids[at[k]], oldName)]
  {
    out, at := [], [];
    for n := 0 to |ids|
      invariant out == Remapped(ids[..n], oldName, byName)
      invariant |at| == |out| && forall k, l :: 0 <= k < l < |at| ==> at[k] < at[l]
      invariant forall i: nat :: i in at <==> i < n && NameOf(ids[i], oldName) in byName
      invariant forall k :: 0 <= k < |out| ==> at[k] in at && out[k] == byName[NameOf(ids[at[k]], oldName)]
    {
      assert ids[..n + 1][..n] == ids[..n];
      var name := NameOf(ids[n], oldName);
      if name in byName {
        out, at := out + [byName[name]], at + [n];
      }
    }
    assert ids[..|ids|] == ids;
  }

  ghost predicate NamesKnown(src: map<Id, Store>, oldName: map<Id, Id>) {
    forall id :: id in src ==> id in oldName && oldName[id] == src[id].name
  }

  method OldNames(es: seq<Entry<Store>>, ghost src: map<Id, Store>) returns (oldName: map<Id, Id>)
    ensures ListsAll(es, src) ==> NamesKnown(src, oldName)
    ensures OldNamesAre(es, oldName)
  {
    oldName := map[];
    for i := 0 to |es|
      invariant ListsAll(es, src) ==> forall j :: 0 <= j < i ==>
                es[j].id in oldName && oldName[es[j].id] == es[j].data.name
      invariant forall j :: 0 <= j < i ==> es[j].id in oldName
      invariant forall id :: id in oldName ==>
                exists j :: 0 <= j < i && es[j].id == id && es[j].data.name == oldName[id]
    {
      oldName := oldName[es[i].id := es[i].data.name];
    }
  }

  /** The store called "default", or the first by name. */
  method FallbackStore(byName: map<Id, Id>) returns (id: Id)
    ensures byName.Keys == {} ==> id == ""
    ensures "default" in byName ==> id == byName["default"]
    ensures byName.Keys != {} && "default" !in byName ==>
              exists n :: n in byName && id == byName[n] && forall m :: m in byName ==> !Before(m, n)
    ensures id == Fallback(byName)
  {
    if "default" in byName {
      return byName["default"];
    }
    var todo := byName.Keys;
    if todo == {} {
      return "";
    }
    var least :| least in todo;
    while todo != {}
      invariant todo <= byName.Keys && least in byName
      invariant forall m :: m in byName && m !in todo ==> !Before(m, least)
      decreases |todo|
    {
      var n :| n in todo;
      todo := todo - {n};
      BeforeIsIrreflexive(n);
      if Before(n, least) {
        forall m | m in byName && m !in todo ensures !Before(m, n) {
          if Before(m, n) {
            BeforeIsTransitive(m, n, least);
          }
        }
        least := n;
      }
    }
    FallbackIs(byName, least);
    id := byName[least];
  }

  method ResolveStore(archived: Id, storeByName: map<Id, Id>, oldName: map<Id, Id>) returns (store: Id)
    ensures store == StoreOf(archived, storeByName, oldName)
  {
    if archived in oldName && oldName[archived] in storeByName {
      return storeByName[oldName[archived]];
    }
    store := FallbackStore(storeByName);
  }

  method Fresh(used: set<Id>) returns (id: Id)
    ensures id !in used && id != ""
  {
    id := "0";
    var todo := used;
    while todo != {}
      invariant id != "" && forall x :: x in used && x !in todo ==> |x| < |id|
      decreases |todo|
    {
      var x :| x in todo;
      todo := todo - {x};
      if |id| <= |x| {
        id := x + "0";
      }
    }
  }

  // ---------------------------------------------------------------- restore

  /** The stores restored so far, `f` renaming them, are the archived ones, and `byName` finds them. */
  ghost predicate StoresMatch(src: map<Id, Store>, stores: map<Id, Store>, byName: map<Id, Id>, f: Renaming) {
    && Renames(f, f.to.Keys, stores.Keys) && f.to.Keys <= src.Keys
    && (forall o :: o in f.to ==> SameStore(src[o], stores[f.to[o]], f.to))
    && NamesMatch(src, StoreName, byName, f.to)
  }

  /** `byName` finds the new ids of the rows restored, and no others. */
  ghost predicate NamesMatch<T>(src: map<Id, T>, nameOf: T -> Id, byName: map<Id, Id>, to: map<Id, Id>) {
    && to.Keys <= src.Keys
    && (forall o :: o in to ==> nameOf(src[o]) in byName && byName[nameOf(src[o])] == to[o])
    && (forall n :: n in byName ==> exists o :: o in to && nameOf(src[o]) == n)
  }

  function StoreName(s: Store): Id {
    s.name
  }

  function RepoName(r: Repo): Id {
    r.name
  }

  ghost predicate UniqueNames<T>(src: map<Id, T>, nameOf: T -> Id) {
    forall s, t :: s in src && t in src && nameOf(src[s]) == nameOf(src[t]) ==> s == t
  }

  /** Exactly the first `n` entries have been restored. */
  ghost predicate Done<T>(es: seq<Entry<T>>, n: nat, f: Renaming) {
    forall i :: 0 <= i < |es| ==> (es[i].id in f.to <==> i < n)
  }

  ghost predicate FlatStores(src: map<Id, Store>) {
    forall g, k :: g in src && src[g].Group? && 0 <= k < |src[g].members| ==>
      src[g].members[k] in src && src[src[g].members[k]].Physical?
  }

  lemma DoneNext<T>(es: seq<Entry<T>>, i: nat, rows: map<Id, T>, f: Renaming, n: Id)
    requires ListsAll(es, rows) && i < |es| && Done(es, i, f)
    ensures es[i].id !in f.to && es[i].id in rows && es[i].data == rows[es[i].id]
    ensures Done(es, i + 1, Extend(f, es[i].id, n))
  {
    assert es[i].id in f.to <==> i < i;
  }

  lemma AllDone<T>(es: seq<Entry<T>>, rows: map<Id, T>, f: Renaming)
    requires ListsAll(es, rows) && Done(es, |es|, f) && f.to.Keys <= rows.Keys
    ensures f.to.Keys == rows.Keys
  {
    forall id | id in rows ensures id in f.to {
      var i :| 0 <= i < |es| && es[i].id == id;
      assert es[i].id in f.to <==> i < |es|;
    }
  }

  lemma NothingDone<T>(es: seq<Entry<T>>)
    ensures Done(es, 0, NOTHING)
  {
  }

  lemma KeysWithin(src: map<Id, Store>, stores: map<Id, Store>, byName: map<Id, Id>, f: Renaming)
    requires StoresMatch(src, stores, byName, f)
    ensures f.to.Keys <= src.Keys
  {
  }

  lemma StoreNameIsNew(before: map<Id, Store>, stores: map<Id, Store>, id: Id, row: Store)
    requires Kept(before, stores) && NewNames(before, stores, StoreName)
    requires forall s :: s in stores ==> stores[s].name != row.name
    ensures NewNames(before, stores[id := row], StoreName)
  {
    OneMoreName(before, stores, StoreName, id, row);
  }

  lemma NamesInAnyOrder(byName: map<Id, Id>, es: seq<Entry<Store>>, stores: map<Id, Store>)
    requires KnowsNames(byName, PhysicalFirst(es), |PhysicalFirst(es)|, stores, StoreName)
    ensures KnowsNames(byName, es, |es|, stores, StoreName)
  {
    Picked(es, false);
    Picked(es, true);
    var sorted := PhysicalFirst(es);
    forall k | k in byName ensures exists i :: 0 <= i < |es| && StoreName(es[i].data) == k {
      var i :| 0 <= i < |sorted| && StoreName(sorted[i].data) == k;
      assert sorted[i] in es;
    }
    forall i, r | 0 <= i < |es| && r in stores && StoreName(stores[r]) == StoreName(es[i].data)
      ensures StoreName(es[i].data) in byName
    {
      assert es[i] in sorted;
    }
  }

  lemma NoStores(src: map<Id, Store>)
    ensures StoresMatch(src, map[], map[], NOTHING)
  {
  }

  lemma StoreIsNew(src: map<Id, Store>, stores: map<Id, Store>, byName: map<Id, Id>, f: Renaming, o: Id)
    requires StoresMatch(src, stores, byName, f) && UniqueNames(src, StoreName) && o in src && o !in f.to
    ensures forall s :: s in stores ==> stores[s].name != src[o].name
  {
    forall s | s in stores ensures stores[s].name != src[o].name {
      assert s in f.from;
      var p := f.from[s];
      assert SameStore(src[p], stores[f.to[p]], f.to);
    }
  }

  /** The members of a group are physical, so they are restored, and found by name, before the group. */
  lemma GroupRemapped(es: seq<Entry<Store>>, i: nat, src: map<Id, Store>, stores: map<Id, Store>,
                      byName: map<Id, Id>, oldName: map<Id, Id>, f: Renaming)
    requires ListsAll(es, src) && GroupsLast(es) && FlatStores(src) && i < |es| && Done(es, i, f)
    requires StoresMatch(src, stores, byName, f) && es[i].data.Group?
    requires NamesKnown(src, oldName)
    ensures SameStore(es[i].data, es[i].data.(members := Remapped(es[i].data.members, oldName, byName)), f.to)
  {
    var ids := es[i].data.members;
    forall k | 0 <= k < |ids|
      ensures ids[k] in f.to && NameOf(ids[k], oldName) in byName && byName[NameOf(ids[k], oldName)] == f.to[ids[k]]
    {
      assert src[es[i].id].Group? && src[es[i].id].members[k] in src;
      var j :| 0 <= j < |es| && es[j].id == ids[k];
      assert j < i;
      assert es[j].id in f.to;
    }
    RemappedInFull(ids, oldName, byName);
  }

  lemma StoreMatchesNext(src: map<Id, Store>, stores: map<Id, Store>, byName: map<Id, Id>, f: Renaming, o: Id, n: Id,
                         d: Store)
    requires StoresMatch(src, stores, byName, f) && UniqueNames(src, StoreName)
    requires o in src && o !in f.to && n !in stores && SameStore(src[o], d, f.to)
    ensures StoresMatch(src, stores[n := d], byName[src[o].name := n], Extend(f, o, n))
  {
    hide SameStore, Renames, NamesMatch, UniqueNames;
    RenamesNext(f, stores, o, n, d);
    StoresStaySame(src, stores, f, o, n, d);
    NamesMatchNext(src, StoreName, byName, f.to, o, n);
    var g := Extend(f, o, n);
    assert g.to == f.to[o := n];
    hide Extend;
  }

  lemma RenamesNext<T>(f: Renaming, rows: map<Id, T>, o: Id, n: Id, d: T)
    requires Renames(f, f.to.Keys, rows.Keys) && o !in f.to && n !in rows
    ensures Renames(Extend(f, o, n), Extend(f, o, n).to.Keys, rows[n := d].Keys)
  {
    RenamesOneMore(f, f.to.Keys, rows.Keys, o, n);
    assert Extend(f, o, n).to.Keys == f.to.Keys + {o} && rows[n := d].Keys == rows.Keys + {n};
  }

  lemma StoresStaySame(src: map<Id, Store>, stores: map<Id, Store>, f: Renaming, o: Id, n: Id, d: Store)
    requires Renames(f, f.to.Keys, stores.Keys) && f.to.Keys <= src.Keys
    requires forall p :: p in f.to ==> SameStore(src[p], stores[f.to[p]], f.to)
    requires o in src && o !in f.to && n !in stores && SameStore(src[o], d, f.to)
    ensures var to := Extend(f, o, n).to;
            forall p :: p in to ==> to[p] in stores[n := d] && SameStore(src[p], stores[n := d][to[p]], to)
  {
    var to := Extend(f, o, n).to;
    hide SameStore;
    forall p | p in to ensures to[p] in stores[n := d] && SameStore(src[p], stores[n := d][to[p]], to) {
      StoreStaysSame(src, stores, f, o, n, d, p);
    }
  }

  lemma StoreStaysSame(src: map<Id, Store>, stores: map<Id, Store>, f: Renaming, o: Id, n: Id, d: Store, p: Id)
    requires Renames(f, f.to.Keys, stores.Keys) && f.to.Keys <= src.Keys
            && (p in f.to ==> SameStore(src[p], stores[f.to[p]], f.to))
    requires o in src && o !in f.to && n !in stores && SameStore(src[o], d, f.to) && (p == o || p in f.to)
    ensures var to := Extend(f, o, n).to;
            to[p] in stores[n := d] && SameStore(src[p], stores[n := d][to[p]], to)
  {
    hide SameStore;
    if p == o {
      SameStoreGrows(src[o], d, f.to, o, n);
    } else {
      SameStoreGrows(src[p], stores[f.to[p]], f.to, o, n);
    }
  }

  lemma NamesMatchNext<T>(src: map<Id, T>, nameOf: T -> Id, byName: map<Id, Id>, to: map<Id, Id>, o: Id, n: Id)
    requires NamesMatch(src, nameOf, byName, to) && UniqueNames(src, nameOf) && o in src && o !in to
    ensures NamesMatch(src, nameOf, byName[nameOf(src[o]) := n], to[o := n])
  {
    var names := byName[nameOf(src[o]) := n];
    forall p | p in to[o := n] ensures nameOf(src[p]) in names && names[nameOf(src[p])] == to[o := n][p] {
      if p != o {
        assert nameOf(src[p]) != nameOf(src[o]);
      }
    }
    hide UniqueNames;
    forall m | m in names.Keys ensures exists p :: p in to[o := n] && nameOf(src[p]) == m {
      if m == nameOf(src[o]) {
        assert o in to[o := n];
      } else {
        var p :| p in to && nameOf(src[p]) == m;
        assert p in to[o := n];
      }
    }
  }

  /** No row is lost or changed. */
  ghost predicate Kept<T>(before: map<Id, T>, rows: map<Id, T>) {
    forall id :: id in before ==> id in rows && rows[id] == before[id]
  }

  /** A name leads to a row of that name. */
  ghost predicate Finds<T>(byName: map<Id, Id>, rows: map<Id, T>, nameOf: T -> Id) {
    forall n :: n in byName ==> byName[n] in rows && nameOf(rows[byName[n]]) == n
  }

  lemma KeptNext<T>(before: map<Id, T>, rows: map<Id, T>, byName: map<Id, Id>, nameOf: T -> Id, id: Id, row: T)
    requires Kept(before, rows) && Finds(byName, rows, nameOf) && id !in rows
    ensures Kept(before, rows[id := row]) && Finds(byName[nameOf(row) := id], rows[id := row], nameOf)
  {
  }

  lemma FindsExisting<T>(byName: map<Id, Id>, rows: map<Id, T>, nameOf: T -> Id, id: Id)
    requires Finds(byName, rows, nameOf) && id in rows
    ensures Finds(byName[nameOf(rows[id]) := id], rows, nameOf)
  {
  }

  lemma NothingLost<T>(rows: map<Id, T>, nameOf: T -> Id)
    ensures Kept(rows, rows) && Finds(map[], rows, nameOf)
  {
  }

  /** The rows restored so far correspond to archived rows, as `same` says. */
  ghost predicate RowsMatch<T>(src: map<Id, T>, rows: map<Id, T>, f: Renaming, same: (T, T) -> bool) {
    && Renames(f, f.to.Keys, rows.Keys) && f.to.Keys <= src.Keys
    && forall o :: o in f.to ==> same(src[o], rows[f.to[o]])
  }

  lemma RowsMatchNext<T>(src: map<Id, T>, rows: map<Id, T>, f: Renaming, same: (T, T) -> bool, o: Id, n: Id, d: T)
    requires RowsMatch(src, rows, f, same) && o in src && o !in f.to && n !in rows && same(src[o], d)
    ensures RowsMatch(src, rows[n := d], Extend(f, o, n), same)
  {
    RenamesNext(f, rows, o, n, d);
  }

  lemma KeysMatch<T>(src: map<Id, T>, rows: map<Id, T>, f: Renaming, same: (T, T) -> bool)
    requires RowsMatch(src, rows, f, same)
    ensures f.to.Keys <= src.Keys
  {
  }

  ghost function RepoUnder(to: map<Id, Id>): (Repo, Repo) -> bool {
    (r, d) => SameRepo(r, d, to)
  }

  ghost function ComponentUnder(to: map<Id, Id>): (Component, Component) -> bool {
    (c, d) => SameComponent(c, d, to)
  }

  ghost function AssetUnder(stores: map<Id, Id>, repos: map<Id, Id>, components: map<Id, Id>): (Asset, Asset) -> bool {
    (a, d) => SameAsset(a, d, stores, repos, components)
  }

  lemma ReposUnder(src: map<Id, Repo>, repos: map<Id, Repo>, f: map<Id, Id>, to: map<Id, Id>)
    requires forall r :: r in src ==> r in f && f[r] in repos && RepoUnder(to)(src[r], repos[f[r]])
    ensures forall r :: r in src ==> SameRepo(src[r], repos[f[r]], to)
  {
    hide SameRepo;
  }

  lemma ComponentsUnder(src: map<Id, Component>, components: map<Id, Component>, f: map<Id, Id>, to: map<Id, Id>)
    requires forall c :: c in src ==> c in f && f[c] in components && ComponentUnder(to)(src[c], components[f[c]])
    ensures forall c :: c in src ==> SameComponent(src[c], components[f[c]], to)
  {
    hide SameComponent;
  }

  lemma AssetsUnder(src: map<Id, Asset>, assets: map<Id, Asset>, f: map<Id, Id>, stores: map<Id, Id>,
                    repos: map<Id, Id>, components: map<Id, Id>)
    requires forall a :: a in src ==>
              a in f && f[a] in assets && AssetUnder(stores, repos, components)(src[a], assets[f[a]])
    ensures forall a :: a in src ==> SameAsset(src[a], assets[f[a]], stores, repos, components)
  {
    hide SameAsset;
  }

  /** All rows are restored: every archived row has its counterpart, and there are no others. */
  lemma AllRows<T>(es: seq<Entry<T>>, src: map<Id, T>, rows: map<Id, T>, f: Renaming, same: (T, T) -> bool)
    requires ListsAll(es, src) && Done(es, |es|, f) && RowsMatch(src, rows, f, same)
    ensures Renames(f, src.Keys, rows.Keys)
    ensures forall o :: o in src ==> o in f.to && f.to[o] in rows && same(src[o], rows[f.to[o]])
  {
    AllDone(es, src, f);
  }

  /** A store as it is restored: a group with its members under their new ids. */
  function RestoredStore(s: Store, oldName: map<Id, Id>, byName: map<Id, Id>): Store {
    match s
    case Physical(_, _) => s
    case Group(_, _, members) => s.(members := Remapped(members, oldName, byName))
  }

  method RenameMembers(s: Store, oldName: map<Id, Id>, byName: map<Id, Id>) returns (d: Store)
    ensures d == RestoredStore(s, oldName, byName) && d.name == s.name && (d.Group? <==> s.Group?)
  {
    d := s;
    if s.Group? {
      var members, _ := RemapGroupMembers(s.members, oldName, byName);
      d := s.(members := members);
    }
  }

  lemma StoreRestored(es: seq<Entry<Store>>, i: nat, src: map<Id, Store>, stores: map<Id, Store>,
                      byName: map<Id, Id>, oldName: map<Id, Id>, f: Renaming, n: Id)
    requires ListsAll(es, src) && GroupsLast(es) && FlatStores(src) && UniqueNames(src, StoreName)
            && NamesKnown(src, oldName)
    requires i < |es| && Done(es, i, f) && StoresMatch(src, stores, byName, f) && n !in stores
    ensures var e := es[i];
            && StoresMatch(src, stores[n := RestoredStore(e.data, oldName, byName)], byName[e.data.name := n],
                              Extend(f, e.id, n))
            && Done(es, i + 1, Extend(f, e.id, n))
  {
    hide ListsAll, GroupsLast, FlatStores, UniqueNames, NamesKnown, StoresMatch, Done, Remapped, Extend;
    DoneNext(es, i, src, f, n);
    if es[i].data.Group? {
      GroupRemapped(es, i, src, stores, byName, oldName, f);
    }
    StoreMatchesNext(src, stores, byName, f, es[i].id, n, RestoredStore(es[i].data, oldName, byName));
  }

  lemma SameStoreGrows(s: Store, d: Store, to: map<Id, Id>, o: Id, n: Id)
    requires SameStore(s, d, to) && o !in to
    ensures SameStore(s, d, to[o := n])
  {
  }

  /** Every store a repository is on can be found by its archived name. */
  ghost predicate StoresKnown(src: map<Id, Repo>, srcStores: map<Id, Store>, storeByName: map<Id, Id>,
                              oldName: map<Id, Id>, to: map<Id, Id>) {
    && (forall r :: r in src && src[r].store.Some? ==> src[r].store.value in srcStores)
    && (forall s :: s in srcStores ==> KnownStore(s, storeByName, oldName, to))
  }

  predicate KnownStore(s: Id, storeByName: map<Id, Id>, oldName: map<Id, Id>, to: map<Id, Id>) {
    s in to && s in oldName && oldName[s] in storeByName && storeByName[oldName[s]] == to[s]
  }

  /** A repository as it is restored: on the store found by its archived store's name, or on none. */
  function RestoredRepo(r: Repo, storeByName: map<Id, Id>, oldName: map<Id, Id>): (d: Repo)
    ensures d.name == r.name
  {
    match r.store
    case None => r
    case Some(s) =>
      r.(store := if s in oldName && oldName[s] in storeByName then Some(storeByName[oldName[s]]) else None)
  }

  lemma RepoRestored(es: seq<Entry<Repo>>, i: nat, src: map<Id, Repo>, repos: map<Id, Repo>, byName: map<Id, Id>,
                     f: Renaming,
                     srcStores: map<Id, Store>, storeByName: map<Id, Id>, oldName: map<Id, Id>,
                     to: map<Id, Id>, n: Id)
    requires ListsAll(es, src) && UniqueNames(src, RepoName) && StoresKnown(src, srcStores, storeByName, oldName, to)
    requires i < |es| && ReposSoFar(es, i, src, repos, byName, f, to) && n !in repos
    ensures var row := RestoredRepo(es[i].data, storeByName, oldName);
            ReposSoFar(es, i + 1, src, repos[n := row], byName[row.name := n], Extend(f, es[i].id, n), to)
  {
    DoneNext(es, i, src, f, n);
    var o := es[i].id;
    var row := RestoredRepo(src[o], storeByName, oldName);
    assert SameRepo(src[o], row, to) by {
      if src[o].store.Some? {
        assert KnownStore(src[o].store.value, storeByName, oldName, to);
      }
    }
    hide ListsAll, UniqueNames, StoresKnown, Done, RowsMatch, NamesMatch, RestoredRepo, SameRepo;
    assert RepoUnder(to)(src[o], row);
    hide RepoUnder;
    RowsMatchNext(src, repos, f, RepoUnder(to), o, n, row);
    NamesMatchNext(src, RepoName, byName, f.to, o, n);
  }

  /** The first `n` repositories are restored, and nothing else. */
  ghost predicate ReposSoFar(es: seq<Entry<Repo>>, n: nat, src: map<Id, Repo>, repos: map<Id, Repo>,
                             byName: map<Id, Id>, f: Renaming, to: map<Id, Id>) {
    Done(es, n, f) && RowsMatch(src, repos, f, RepoUnder(to)) && NamesMatch(src, RepoName, byName, f.to)
  }

  ghost predicate ReposRestored(src: map<Id, Repo>, repos: map<Id, Repo>, byName: map<Id, Id>, f: Renaming,
                                to: map<Id, Id>) {
    && NamesMatch(src, RepoName, byName, f.to) && Renames(f, src.Keys, repos.Keys)
    && forall r :: r in src ==> SameRepo(src[r], repos[f.to[r]], to)
  }

  lemma NoReposYet(es: seq<Entry<Repo>>, src: map<Id, Repo>, to: map<Id, Id>)
    ensures ReposSoFar(es, 0, src, map[], map[], NOTHING, to)
  {
  }

  lemma AllRepos(es: seq<Entry<Repo>>, src: map<Id, Repo>, repos: map<Id, Repo>, byName: map<Id, Id>, f: Renaming,
                 to: map<Id, Id>)
    requires ListsAll(es, src) && ReposSoFar(es, |es|, src, repos, byName, f, to)
    ensures ReposRestored(src, repos, byName, f, to)
  {
    AllRows(es, src, repos, f, RepoUnder(to));
    ReposUnder(src, repos, f.to, to);
  }

  lemma RepoIsNew(es: seq<Entry<Repo>>, i: nat, src: map<Id, Repo>, repos: map<Id, Repo>, byName: map<Id, Id>,
                  f: Renaming, to: map<Id, Id>)
    requires ListsAll(es, src) && UniqueNames(src, RepoName) && i < |es| && ReposSoFar(es, i, src, repos, byName, f, to)
    ensures forall r :: r in repos ==> repos[r].name != es[i].data.name
  {
    DoneNext(es, i, src, f, "");
    forall r | r in repos ensures repos[r].name != es[i].data.name {
      assert r in f.from;
      assert RepoUnder(to)(src[f.from[r]], repos[r]);
    }
  }

  ghost predicate NewReposLinked(before: map<Id, Repo>, repos: map<Id, Repo>, stores: map<Id, Store>) {
    forall r :: r in repos && r !in before && repos[r].store.Some? ==> repos[r].store.value in stores
  }

  lemma NewRepoLinked(before: map<Id, Repo>, repos: map<Id, Repo>, stores: map<Id, Store>,
                      storeByName: map<Id, Id>, oldName: map<Id, Id>, id: Id, r: Repo)
    requires NewReposLinked(before, repos, stores) && Finds(storeByName, stores, StoreName)
    ensures NewReposLinked(before, repos[id := RestoredRepo(r, storeByName, oldName)], stores)
  {
  }

  /** Every archived row names a repository that can be found, and that is the counterpart of its own. */
  ghost predicate OwnersKnown<T>(es: seq<Entry<T>>, repoOf: T -> Id, byName: map<Id, Id>, to: map<Id, Id>) {
    forall i :: 0 <= i < |es| ==>
      es[i].owner in byName && repoOf(es[i].data) in to && byName[es[i].owner] == to[repoOf(es[i].data)]
  }

  lemma OwnerFound<T>(es: seq<Entry<T>>, i: nat, repoOf: T -> Id, byName: map<Id, Id>, to: map<Id, Id>)
    requires OwnersKnown(es, repoOf, byName, to) && i < |es|
    ensures es[i].owner in byName && repoOf(es[i].data) in to && byName[es[i].owner] == to[repoOf(es[i].data)]
  {
  }

  ghost predicate UniqueReleases(src: map<Id, Component>) {
    forall c, d :: c in src && d in src && SameRelease(src[c], src[d]) ==> c == d
  }

  ghost predicate UniquePaths(src: map<Id, Asset>) {
    forall a, b :: a in src && b in src && SamePath(src[a], src[b]) ==> a == b
  }

  ghost predicate Injective(to: map<Id, Id>) {
    forall a, b :: a in to && b in to && to[a] == to[b] ==> a == b
  }

  /** The first `n` components are restored, and nothing else. */
  ghost predicate ComponentsSoFar(es: seq<Entry<Component>>, n: nat, src: map<Id, Component>,
                                  rows: map<Id, Component>, f: Renaming, to: map<Id, Id>) {
    Done(es, n, f) && RowsMatch(src, rows, f, ComponentUnder(to))
  }

  ghost predicate ComponentsRestored(src: map<Id, Component>, rows: map<Id, Component>, f: Renaming, to: map<Id, Id>) {
    && Renames(f, src.Keys, rows.Keys)
    && forall c :: c in src ==> SameComponent(src[c], rows[f.to[c]], to)
  }

  /** No component is lost, and those written are in repositories that exist. */
  ghost predicate ComponentsLinked(before: map<Id, Component>, rows: map<Id, Component>, repos: map<Id, Repo>) {
    && (forall c :: c in before ==> c in rows)
    && (forall c :: c in rows ==> rows[c].repo in repos || (c in before && rows[c] == before[c]))
  }

  lemma NoComponentsYet(es: seq<Entry<Component>>, src: map<Id, Component>, to: map<Id, Id>)
    ensures ComponentsSoFar(es, 0, src, map[], NOTHING, to)
  {
  }

  lemma ComponentLinked(before: map<Id, Component>, rows: map<Id, Component>, repos: map<Id, Repo>, n: Id,
                        row: Component)
    requires ComponentsLinked(before, rows, repos) && row.repo in repos
    ensures ComponentsLinked(before, rows[n := row], repos)
  {
  }

  lemma ExtendTo(f: Renaming, o: Id, n: Id)
    ensures Extend(f, o, n).to == f.to[o := n]
  {
  }

  lemma AllComponents(es: seq<Entry<Component>>, src: map<Id, Component>, rows: map<Id, Component>, f: Renaming,
                      to: map<Id, Id>)
    requires ListsAll(es, src) && ComponentsSoFar(es, |es|, src, rows, f, to)
    ensures ComponentsRestored(src, rows, f, to)
  {
    AllRows(es, src, rows, f, ComponentUnder(to));
    ComponentsUnder(src, rows, f.to, to);
  }

  /** The next component gets a row of its own: no row restored before is of the same release. */
  lemma ComponentRestored(es: seq<Entry<Component>>, i: nat, src: map<Id, Component>, rows: map<Id, Component>,
                          f: Renaming, to: map<Id, Id>, n: Id)
    requires ListsAll(es, src) && UniqueReleases(src) && Injective(to) && i < |es|
            && ComponentsSoFar(es, i, src, rows, f, to)
    requires es[i].data.repo in to
    requires var row := es[i].data.(repo := to[es[i].data.repo]);
             if n in rows then SameRelease(rows[n], row) else forall c :: c in rows ==> !SameRelease(rows[c], row)
    ensures ComponentsSoFar(es, i + 1, src, rows[n := es[i].data.(repo := to[es[i].data.repo])],
                            Extend(f, es[i].id, n), to)
  {
    var row := es[i].data.(repo := to[es[i].data.repo]);
    DoneNext(es, i, src, f, n);
    ComponentRemapped(es[i].data, row, to);
    ReleaseIsNew(src, rows, f, to, es[i].id, row);
    RowsMatchNext(src, rows, f, ComponentUnder(to), es[i].id, n, row);
  }

  lemma ComponentRestoredNext(es: seq<Entry<Component>>, i: nat, src: map<Id, Component>, rows: map<Id, Component>,
                              f: Renaming, to: map<Id, Id>, repoByName: map<Id, Id>, n: Option<Id>)
    requires ListsAll(es, src) && UniqueReleases(src) && Injective(to) && i < |es|
    requires OwnersKnown(es, RepoOfComponent, repoByName, to) && ComponentsSoFar(es, i, src, rows, f, to)
    requires n.Some? ==> es[i].owner in repoByName && PlaceOfRelease(rows, n.value, ReleaseFor(es[i], repoByName))
    ensures es[i].owner in repoByName
    ensures n.Some? ==>
              && ComponentsSoFar(es, i + 1, src, rows[n.value := ReleaseFor(es[i], repoByName)],
                                 Extend(f, es[i].id, n.value), to)
              && Extend(f, es[i].id, n.value).to == f.to[es[i].id := n.value]
  {
    hide ListsAll, UniqueReleases, Injective, ComponentsSoFar, SameRelease, Extend;
    OwnerFound(es, i, RepoOfComponent, repoByName, to);
    if n.Some? {
      ComponentRestored(es, i, src, rows, f, to, n.value);
      ExtendTo(f, es[i].id, n.value);
    }
  }

  lemma ReleaseIsNew(src: map<Id, Component>, rows: map<Id, Component>, f: Renaming,
                     to: map<Id, Id>, o: Id, d: Component)
    requires RowsMatch(src, rows, f, ComponentUnder(to)) && UniqueReleases(src) && Injective(to) && o in src
            && o !in f.to
    requires SameComponent(src[o], d, to)
    ensures forall c :: c in rows ==> !SameRelease(rows[c], d)
  {
    forall c | c in rows ensures !SameRelease(rows[c], d) {
      assert c in f.from;
      assert ComponentUnder(to)(src[f.from[c]], rows[c]);
      var x, y := src[f.from[c]], src[o];
      assert SameRelease(rows[c], d) ==> SameRelease(x, y);
    }
  }

  lemma ComponentRemapped(c: Component, d: Component, to: map<Id, Id>)
    requires c.repo in to && d == c.(repo := to[c.repo])
    ensures SameComponent(c, d, to) && ComponentUnder(to)(c, d)
  {
  }

  lemma PathIsNew(src: map<Id, Asset>, rows: map<Id, Asset>, f: Renaming,
                  stores: map<Id, Id>, repos: map<Id, Id>, components: map<Id, Id>, o: Id, d: Asset)
    requires RowsMatch(src, rows, f, AssetUnder(stores, repos, components)) && UniquePaths(src) && Injective(repos)
            && o in src && o !in f.to
    requires SameAsset(src[o], d, stores, repos, components)
    ensures forall a :: a in rows ==> !SamePath(rows[a], d)
  {
    forall a | a in rows ensures !SamePath(rows[a], d) {
      assert a in f.from;
      assert AssetUnder(stores, repos, components)(src[f.from[a]], rows[a]);
      var x, y := src[f.from[a]], src[o];
      assert SamePath(rows[a], d) ==> SamePath(x, y);
    }
  }

  /** The bytes of every asset restored are on its store. */
  ghost predicate BytesMatch(src: map<Id, Asset>, done: set<Id>, stores: map<Id, Id>, blobs: map<Id, Id>,
                             objects: map<(Id, Id), Id>) {
    forall o :: o in done && o in src && src[o].store in stores && src[o].key != "" && src[o].key in blobs ==>
      (stores[src[o].store], src[o].key) in objects && objects[(stores[src[o].store], src[o].key)] == blobs[src[o].key]
  }

  ghost predicate HasBytes(a: Asset, blobs: map<Id, Id>, objects: map<(Id, Id), Id>) {
    a.key != "" && a.key in blobs ==> Place(a) in objects && objects[Place(a)] == blobs[a.key]
  }

  /** What was written since is archived content under its own key. */
  ghost predicate Grown(before: map<(Id, Id), Id>, objects: map<(Id, Id), Id>, blobs: map<Id, Id>) {
    forall p :: p in before ==>
      p in objects && (objects[p] == before[p] || (p.1 in blobs && objects[p] == blobs[p.1]))
  }

  /** That harms no other asset: a key has one content in an archive. */
  lemma BytesStay(src: map<Id, Asset>, done: set<Id>, stores: map<Id, Id>, blobs: map<Id, Id>,
                  objects: map<(Id, Id), Id>, more: map<(Id, Id), Id>)
    requires BytesMatch(src, done, stores, blobs, objects) && Grown(objects, more, blobs)
    ensures BytesMatch(src, done, stores, blobs, more)
  {
  }

  lemma BytesOfOneMore(src: map<Id, Asset>, done: set<Id>, stores: map<Id, Id>, blobs: map<Id, Id>,
                       objects: map<(Id, Id), Id>, o: Id, d: Asset)
    requires BytesMatch(src, done, stores, blobs, objects) && o in src
    requires src[o].store in stores && d.store == stores[src[o].store] && d.key == src[o].key
            && HasBytes(d, blobs, objects)
    ensures BytesMatch(src, done + {o}, stores, blobs, objects)
  {
  }

  /** Every component and store an asset refers to can be found. */
  ghost predicate LinksKnown(src: map<Id, Asset>, componentIds: map<Id, Id>, storeByName: map<Id, Id>,
                             oldName: map<Id, Id>, to: map<Id, Id>) {
    forall a :: a in src ==> src[a].component in componentIds && KnownStore(src[a].store, storeByName, oldName, to)
  }

  /** The first `n` assets are restored with their bytes, and nothing else. */
  ghost predicate AssetsSoFar(es: seq<Entry<Asset>>, n: nat, src: map<Id, Asset>, rows: map<Id, Asset>, f: Renaming,
                              stores: map<Id, Id>, repos: map<Id, Id>, components: map<Id, Id>,
                              blobs: map<Id, Id>, objects: map<(Id, Id), Id>) {
    && Done(es, n, f) && RowsMatch(src, rows, f, AssetUnder(stores, repos, components))
    && BytesMatch(src, f.to.Keys, stores, blobs, objects)
  }

  ghost predicate AssetsRestored(src: map<Id, Asset>, rows: map<Id, Asset>, f: Renaming,
                                 stores: map<Id, Id>, repos: map<Id, Id>, components: map<Id, Id>,
                                 blobs: map<Id, Id>, objects: map<(Id, Id), Id>) {
    && Renames(f, src.Keys, rows.Keys)
    && (forall a :: a in src ==> SameAsset(src[a], rows[f.to[a]], stores, repos, components))
    && BytesMatch(src, src.Keys, stores, blobs, objects)
  }

  ghost predicate AssetsLinked(rows: map<Id, Asset>, stores: map<Id, Store>, repos: map<Id, Repo>,
                               components: map<Id, Component>) {
    forall a :: a in rows ==> AssetLinks(rows[a], stores, repos, components)
  }

  ghost predicate AssetsStayLinked(before: map<Id, Asset>, rows: map<Id, Asset>,
                                   stores: map<Id, Store>, repos: map<Id, Repo>, components: map<Id, Component>) {
    AssetsLinked(before, stores, repos, components) ==> AssetsLinked(rows, stores, repos, components)
  }

  /** Whatever failed, a row that was written has the archive's bytes, if the archive has any for its key. */
  ghost predicate Backed(before: map<Id, Asset>, rows: map<Id, Asset>, blobs: map<Id, Id>, objects: map<(Id, Id), Id>) {
    forall a :: a in rows ==> HasBytes(rows[a], blobs, objects) || (a in before && rows[a] == before[a])
  }

  lemma NoAssetsYet(es: seq<Entry<Asset>>, src: map<Id, Asset>, stores: map<Id, Id>, repos: map<Id, Id>,
                    components: map<Id, Id>, blobs: map<Id, Id>, objects: map<(Id, Id), Id>)
    ensures AssetsSoFar(es, 0, src, map[], NOTHING, stores, repos, components, blobs, objects)
  {
  }

  lemma BytesGrown(es: seq<Entry<Asset>>, n: nat, src: map<Id, Asset>, rows: map<Id, Asset>, f: Renaming,
                   stores: map<Id, Id>, repos: map<Id, Id>, components: map<Id, Id>,
                   blobs: map<Id, Id>, objects: map<(Id, Id), Id>, more: map<(Id, Id), Id>)
    requires Grown(objects, more, blobs)
    ensures AssetsSoFar(es, n, src, rows, f, stores, repos, components, blobs, objects) ==>
              AssetsSoFar(es, n, src, rows, f, stores, repos, components, blobs, more)
  {
    hide Done, RowsMatch;
    if BytesMatch(src, f.to.Keys, stores, blobs, objects) {
      BytesStay(src, f.to.Keys, stores, blobs, objects, more);
    }
    hide BytesMatch;
  }

  lemma RowBacked(before: map<Id, Asset>, rows: map<Id, Asset>, blobs: map<Id, Id>, objects: map<(Id, Id), Id>, n: Id,
                  row: Asset)
    requires Backed(before, rows, blobs, objects) && HasBytes(row, blobs, objects)
    ensures Backed(before, rows[n := row], blobs, objects)
  {
  }

  /** The next asset gets a row of its own: no row restored before has the same path. */
  lemma AssetRestored(es: seq<Entry<Asset>>, i: nat, src: map<Id, Asset>, rows: map<Id, Asset>, f: Renaming,
                      stores: map<Id, Id>, repos: map<Id, Id>, components: map<Id, Id>,
                      blobs: map<Id, Id>, objects: map<(Id, Id), Id>, n: Id, row: Asset)
    requires ListsAll(es, src) && UniquePaths(src) && Injective(repos) && i < |es|
    requires AssetsSoFar(es, i, src, rows, f, stores, repos, components, blobs, objects)
    requires SameAsset(es[i].data, row, stores, repos, components) && HasBytes(row, blobs, objects)
    requires PlaceOfRow(rows, n, row)
    ensures Upserted(row, rows, n) == row
    ensures AssetsSoFar(es, i + 1, src, rows[n := row], Extend(f, es[i].id, n),
                        stores, repos, components, blobs, objects)
  {
    hide ListsAll, UniquePaths, Injective, BytesMatch, HasBytes, Done, SamePath, RowsMatch, Extend;
    var o := es[i].id;
    DoneNext(es, i, src, f, n);
    KeysMatch(src, rows, f, AssetUnder(stores, repos, components));
    PathIsNew(src, rows, f, stores, repos, components, o, row);
    BytesOfOneMore(src, f.to.Keys, stores, blobs, objects, o, row);
    hide SameAsset;
    assert AssetUnder(stores, repos, components)(src[o], row);
    hide AssetUnder;
    RowsMatchNext(src, rows, f, AssetUnder(stores, repos, components), o, n, row);
    ExtendTo(f, o, n);
    assert Extend(f, o, n).to.Keys == f.to.Keys + {o};
  }

  lemma AllAssets(es: seq<Entry<Asset>>, src: map<Id, Asset>, rows: map<Id, Asset>, f: Renaming,
                  stores: map<Id, Id>, repos: map<Id, Id>, components: map<Id, Id>,
                  blobs: map<Id, Id>, objects: map<(Id, Id), Id>)
    requires ListsAll(es, src) && AssetsSoFar(es, |es|, src, rows, f, stores, repos, components, blobs, objects)
    ensures AssetsRestored(src, rows, f, stores, repos, components, blobs, objects)
  {
    AllRows(es, src, rows, f, AssetUnder(stores, repos, components));
    AssetsUnder(src, rows, f.to, stores, repos, components);
  }

  // ---------------------------------------------------------------- tying the tables together

  ghost predicate StoresRestored(src: map<Id, Store>, stores: map<Id, Store>, byName: map<Id, Id>,
                                 oldName: map<Id, Id>, f: Renaming) {
    StoresMatch(src, stores, byName, f) && f.to.Keys == src.Keys && NamesKnown(src, oldName)
  }

  lemma SourceSound(a: Archive, src: Instance)
    requires ArchiveOf(a, src) && Sound(src)
    ensures ListsAll(a.stores, src.stores) && UniqueNames(src.stores, StoreName) && FlatStores(src.stores)
    ensures ListsAll(a.repos, src.repos) && UniqueNames(src.repos, RepoName)
    ensures ListsAll(a.components, src.components) && UniqueReleases(src.components)
    ensures ListsAll(a.assets, src.assets) && UniquePaths(src.assets)
  {
    hide ListsAll, BlobsOf, OneContentPerKey;
  }

  lemma RenamesInjectively(f: Renaming, olds: set<Id>, news: set<Id>)
    requires Renames(f, olds, news)
    ensures Injective(f.to)
  {
    assert forall o :: o in f.to ==> f.from[f.to[o]] == o;
  }

  lemma RenamedRepos(src: map<Id, Repo>, repos: map<Id, Repo>, byName: map<Id, Id>, f: Renaming, to: map<Id, Id>)
    requires ReposRestored(src, repos, byName, f, to)
    ensures Injective(f.to)
  {
    hide SameRepo, NamesMatch;
    RenamesInjectively(f, src.Keys, repos.Keys);
  }

  lemma StoreKnown(src: map<Id, Store>, stores: map<Id, Store>, byName: map<Id, Id>, oldName: map<Id, Id>, f: Renaming)
    requires StoresRestored(src, stores, byName, oldName, f)
    ensures forall s :: s in src ==> KnownStore(s, byName, oldName, f.to)
  {
  }

  lemma RepoStoresKnown(src: Instance, stores: map<Id, Store>, byName: map<Id, Id>, oldName: map<Id, Id>, f: Renaming)
    requires StoresRestored(src.stores, stores, byName, oldName, f) && Linked(src)
    ensures StoresKnown(src.repos, src.stores, byName, oldName, f.to)
  {
    StoreKnown(src.stores, stores, byName, oldName, f);
    hide StoresRestored, KnownStore;
  }

  lemma ComponentOwnersKnown(a: Archive, src: Instance, repos: map<Id, Repo>, byName: map<Id, Id>, f: Renaming,
                             to: map<Id, Id>)
    requires ArchiveOf(a, src) && ReposRestored(src.repos, repos, byName, f, to)
    ensures OwnersKnown(a.components, RepoOfComponent, byName, f.to)
  {
    hide ListsAll, BlobsOf, SameRepo;
    forall i | 0 <= i < |a.components|
      ensures a.components[i].owner in byName && RepoOfComponent(a.components[i].data) in f.to
              && byName[a.components[i].owner] == f.to[RepoOfComponent(a.components[i].data)]
    {
      assert a.components[i].owner == RepoName(src.repos[a.components[i].data.repo]);
    }
  }

  lemma AssetOwnersKnown(a: Archive, src: Instance, repos: map<Id, Repo>, byName: map<Id, Id>, f: Renaming,
                         to: map<Id, Id>)
    requires ArchiveOf(a, src) && ReposRestored(src.repos, repos, byName, f, to)
    ensures OwnersKnown(a.assets, RepoOfAsset, byName, f.to)
  {
    hide ListsAll, BlobsOf, SameRepo;
    forall i | 0 <= i < |a.assets|
      ensures a.assets[i].owner in byName && RepoOfAsset(a.assets[i].data) in f.to
              && byName[a.assets[i].owner] == f.to[RepoOfAsset(a.assets[i].data)]
    {
      assert a.assets[i].owner == RepoName(src.repos[a.assets[i].data.repo]);
    }
  }

  lemma AssetLinksKnown(src: Instance, stores: map<Id, Store>, byName: map<Id, Id>, oldName: map<Id, Id>, f: Renaming,
                        components: map<Id, Component>, fc: Renaming, to: map<Id, Id>)
    requires StoresRestored(src.stores, stores, byName, oldName, f) && Linked(src)
            && ComponentsRestored(src.components, components, fc, to)
    ensures LinksKnown(src.assets, fc.to, byName, oldName, f.to)
  {
    StoreKnown(src.stores, stores, byName, oldName, f);
    hide StoresRestored, KnownStore, SameComponent;
  }

  /** The bytes an asset had at the source are those the archive has for it, and so those it has now. */
  lemma BytesPreserved(a: Archive, src: Instance, rows: map<Id, Asset>, f: Renaming, stores: map<Id, Id>,
                       repos: map<Id, Id>, components: map<Id, Id>,
                       objects: map<(Id, Id), Id>, o: Id)
    requires ListsAll(a.assets, src.assets) && BlobsOf(a.assets, src, a.blobs) && Complete(a)
    requires AssetsRestored(src.assets, rows, f, stores, repos, components, a.blobs, objects)
    requires o in src.assets && src.assets[o].key != "" && Place(src.assets[o]) in src.objects
    ensures Place(rows[f.to[o]]) in objects && objects[Place(rows[f.to[o]])] == src.objects[Place(src.assets[o])]
  {
    var i :| 0 <= i < |a.assets| && a.assets[i].id == o;
    assert a.assets[i].data == src.assets[o];
    assert SameAsset(src.assets[o], rows[f.to[o]], stores, repos, components);
  }

  /** What the names and ids of an archive were found to mean, with the tables restored. */
  ghost predicate Understood(a: Archive, refused: set<Id>, unwritable: set<Id>, before: Instance, after: Instance,
                             x: Setting) {
    && x == x.(refused := refused, unwritable := unwritable, blobs := a.blobs,
               stores := after.stores, repos := after.repos, components := after.components)
    && KnowsNames(x.storeByName, a.stores, |a.stores|, after.stores, StoreName) && OldNamesAre(a.stores, x.oldName)
    && KnowsNames(x.repoByName, a.repos, |a.repos|, after.repos, RepoName)
    && KnowsComponents(x.componentIds, after.components, a.components, |a.components|, x.repoByName, refused,
                       after.repos)
    && Kept(before.stores, after.stores) && NewNames(before.stores, after.stores, StoreName)
    && Kept(before.repos, after.repos) && NewNames(before.repos, after.repos, RepoName)
  }

  lemma TablesTogether(a: Archive, before: Instance, after: Instance, x: Setting)
    requires x.blobs == a.blobs && x.stores == after.stores && x.repos == after.repos
            && x.components == after.components
    requires KnowsNames(x.storeByName, a.stores, |a.stores|, after.stores, StoreName)
            && OldNamesAre(a.stores, x.oldName)
    requires KnowsNames(x.repoByName, a.repos, |a.repos|, after.repos, RepoName)
    requires KnowsComponents(x.componentIds, after.components, a.components, |a.components|, x.repoByName, x.refused,
                             after.repos)
    requires Kept(before.stores, after.stores) && NewNames(before.stores, after.stores, StoreName)
    requires Kept(before.repos, after.repos) && NewNames(before.repos, after.repos, RepoName)
    requires NewReposLinked(before.repos, after.repos, after.stores)
    requires ComponentsLinked(before.components, after.components, after.repos) && after.assets == before.assets
    ensures Understood(a, x.refused, x.unwritable, before, after, x) && TablesLinked(before, after)
  {
  }

  /** Table after table: what each needs of the source and of the tables before it is there. */
  lemma TablesAreRestored(a: Archive, src: Instance, dst: Instance, x: Setting, fs: Renaming, fr: Renaming,
                          fc: Renaming)
    requires ArchiveOf(a, src) && Sound(src)
    requires ListsAll(a.stores, src.stores) && UniqueNames(src.stores, StoreName) && FlatStores(src.stores) ==>
               StoresRestored(src.stores, dst.stores, x.storeByName, x.oldName, fs)
    requires ListsAll(a.repos, src.repos) && UniqueNames(src.repos, RepoName)
             && StoresKnown(src.repos, src.stores, x.storeByName, x.oldName, fs.to) ==>
               ReposRestored(src.repos, dst.repos, x.repoByName, fr, fs.to)
    requires ListsAll(a.components, src.components) && UniqueReleases(src.components) && Injective(fr.to)
             && OwnersKnown(a.components, RepoOfComponent, x.repoByName, fr.to) ==>
               x.componentIds == fc.to && ComponentsRestored(src.components, dst.components, fc, fr.to)
    ensures TablesRestored(a, src, dst, x, fs, fr, fc)
  {
    SourceSound(a, src);
    assert Linked(src);
    hide ArchiveOf, Sound, ListsAll, UniqueNames, FlatStores, UniqueReleases, Linked, Injective, StoresRestored,
      ReposRestored, ComponentsRestored, StoresKnown, OwnersKnown, LinksKnown;
    RepoStoresKnown(src, dst.stores, x.storeByName, x.oldName, fs);
    ComponentOwnersKnown(a, src, dst.repos, x.repoByName, fr, fs.to);
    AssetOwnersKnown(a, src, dst.repos, x.repoByName, fr, fs.to);
    RenamedRepos(src.repos, dst.repos, x.repoByName, fr, fs.to);
    AssetLinksKnown(src, dst.stores, x.storeByName, x.oldName, fs, dst.components, fc, fr.to);
  }

  lemma UnderstoodGives(a: Archive, refused: set<Id>, unwritable: set<Id>, before: Instance, after: Instance,
                        x: Setting)
    requires Understood(a, refused, unwritable, before, after, x)
    ensures x.refused == refused && x.unwritable == unwritable && x.blobs == a.blobs
    ensures x.stores == after.stores && x.repos == after.repos && x.components == after.components
    ensures Kept(before.stores, after.stores) && Kept(before.repos, after.repos)
    ensures KnowsNames(x.storeByName, a.stores, |a.stores|, after.stores, StoreName) && OldNamesAre(a.stores, x.oldName)
    ensures KnowsNames(x.repoByName, a.repos, |a.repos|, after.repos, RepoName)
    ensures KnowsComponents(x.componentIds, after.components, a.components, |a.components|, x.repoByName, refused,
                            after.repos)
    ensures NewNames(before.stores, after.stores, StoreName) && NewNames(before.repos, after.repos, RepoName)
  {
  }

  lemma UnderstoodStays(a: Archive, refused: set<Id>, unwritable: set<Id>, before: Instance, tables: Instance,
                        after: Instance, x: Setting)
    requires Understood(a, refused, unwritable, before, tables, x)
    requires after == tables.(assets := after.assets, objects := after.objects)
    ensures Understood(a, refused, unwritable, before, after, x)
  {
  }

  ghost predicate TablesLinked(before: Instance, after: Instance) {
    && Kept(before.stores, after.stores) && Kept(before.repos, after.repos)
    && NewReposLinked(before.repos, after.repos, after.stores)
    && ComponentsLinked(before.components, after.components, after.repos)
    && after.assets == before.assets
  }

  /** Into an empty instance: the tables are the source's, and all that assets need is known. */
  ghost predicate TablesRestored(a: Archive, src: Instance, dst: Instance, x: Setting, fs: Renaming, fr: Renaming,
                                 fc: Renaming) {
    && StoresRestored(src.stores, dst.stores, x.storeByName, x.oldName, fs)
    && ReposRestored(src.repos, dst.repos, x.repoByName, fr, fs.to)
    && ComponentsRestored(src.components, dst.components, fc, fr.to)
    && x.componentIds == fc.to && Injective(fr.to) && OwnersKnown(a.assets, RepoOfAsset, x.repoByName, fr.to)
    && LinksKnown(src.assets, fc.to, x.storeByName, x.oldName, fs.to)
  }

  lemma TablesGive(a: Archive, src: Instance, dst: Instance, x: Setting, fs: Renaming, fr: Renaming, fc: Renaming)
    requires TablesRestored(a, src, dst, x, fs, fr, fc)
    ensures x.componentIds == fc.to && Injective(fr.to) && OwnersKnown(a.assets, RepoOfAsset, x.repoByName, fr.to)
    ensures LinksKnown(src.assets, x.componentIds, x.storeByName, x.oldName, fs.to)
  {
  }

  lemma IsomorphicWhole(a: Archive, src: Instance, tables: Instance, dst: Instance, f: Renamings, x: Setting)
    requires ArchiveOf(a, src) && Complete(a) && x.blobs == a.blobs
    requires TablesRestored(a, src, tables, x, f.stores, f.repos, f.components)
    requires dst == tables.(assets := dst.assets, objects := dst.objects)
    requires AssetsRestored(src.assets, dst.assets, f.assets, f.stores.to, f.repos.to, x.componentIds,
                            x.blobs, dst.objects)
    ensures Isomorphic(src, dst, f)
  {
    hide SameStore, SameRepo, SameComponent, SameAsset, ArchiveOf, Complete, NamesMatch, BytesMatch, Place, SameBytes,
      Renames, NamesKnown, Injective, OwnersKnown, LinksKnown;
    AllBytesPreserved(a, src, dst, f);
  }

  lemma AllBytesPreserved(a: Archive, src: Instance, dst: Instance, f: Renamings)
    requires ArchiveOf(a, src) && Complete(a)
    requires AssetsRestored(src.assets, dst.assets, f.assets, f.stores.to, f.repos.to, f.components.to,
                            a.blobs, dst.objects)
    ensures SameBytes(src, dst, f.assets.to)
  {
    forall o | o in src.assets && src.assets[o].key != "" && Place(src.assets[o]) in src.objects
      ensures f.assets.to[o] in dst.assets && Place(dst.assets[f.assets.to[o]]) in dst.objects
              && dst.objects[Place(dst.assets[f.assets.to[o]])] == src.objects[Place(src.assets[o])]
    {
      BytesPreserved(a, src, dst.assets, f.assets, f.stores.to, f.repos.to, f.components.to, dst.objects, o);
    }
    hide ArchiveOf, Complete, BytesMatch, SameAsset, Place;
  }

  lemma LinkedWhole(before: Instance, tables: Instance, dst: Instance)
    requires TablesLinked(before, tables) && dst == tables.(assets := dst.assets, objects := dst.objects)
    requires AssetsStayLinked(tables.assets, dst.assets, dst.stores, dst.repos, dst.components)
    ensures Linked(before) ==> Linked(dst)
  {
    if Linked(before) {
      assert AssetsLinked(before.assets, dst.stores, dst.repos, dst.components);
      assert forall a :: a in dst.assets ==> AssetLinks(dst.assets[a], dst.stores, dst.repos, dst.components);
    }
  }

  // ---------------------------------------------------------------- what a restore overwrites

  /** The archive has a component of this release, for a repository known here. */
  predicate HasRelease(archived: seq<Entry<Component>>, repoByName: map<Id, Id>, c: Component) {
    exists i :: 0 <= i < |archived| && archived[i].owner in repoByName
                && SameRelease(archived[i].data.(repo := repoByName[archived[i].owner]), c)
  }

  /** Every earlier component keeps its id and release, and the archive overwrites only those it has. */
  ghost predicate ReleasesStay(before: map<Id, Component>, rows: map<Id, Component>, archived: seq<Entry<Component>>,
                               repoByName: map<Id, Id>) {
    forall c :: c in before ==>
      && c in rows && SameRelease(rows[c], before[c])
      && (rows[c] == before[c] || HasRelease(archived, repoByName, before[c]))
  }

  /** The archive has an asset of this path, for a repository known here. */
  predicate HasPath(archived: seq<Entry<Asset>>, repoByName: map<Id, Id>, a: Asset) {
    exists i :: 0 <= i < |archived| && archived[i].owner in repoByName
                && SamePath(archived[i].data.(repo := repoByName[archived[i].owner]), a)
  }

  /** Every earlier asset keeps its id, path and component, and the archive overwrites only those it has. */
  ghost predicate PathsStay(before: map<Id, Asset>, rows: map<Id, Asset>, archived: seq<Entry<Asset>>,
                            repoByName: map<Id, Id>) {
    forall a :: a in before ==>
      && a in rows && SamePath(rows[a], before[a]) && rows[a].component == before[a].component
      && (rows[a] == before[a] || HasPath(archived, repoByName, before[a]))
  }

  // ---------------------------------------------------------------- repositories, step by step

  /** All that restoring repositories keeps true. */
  ghost predicate ReposGo(before: map<Id, Repo>, repos: map<Id, Repo>, stores: map<Id, Store>, es: seq<Entry<Repo>>,
                          n: nat, byName: map<Id, Id>) {
    && Kept(before, repos) && Finds(byName, repos, RepoName) && NewReposLinked(before, repos, stores)
    && KnowsNames(byName, es, n, repos, RepoName) && NewNames(before, repos, RepoName)
  }

  lemma NoReposGone(repos: map<Id, Repo>, stores: map<Id, Store>, es: seq<Entry<Repo>>)
    ensures ReposGo(repos, repos, stores, es, 0, map[])
  {
  }

  lemma RepoExists(before: map<Id, Repo>, repos: map<Id, Repo>, stores: map<Id, Store>, es: seq<Entry<Repo>>, i: nat,
                   byName: map<Id, Id>, id: Id)
    requires ReposGo(before, repos, stores, es, i, byName) && i < |es| && id in repos
            && repos[id].name == es[i].data.name
    ensures ReposGo(before, repos, stores, es, i + 1, byName[es[i].data.name := id])
  {
    FindsExisting(byName, repos, RepoName, id);
    NameExists(byName, es, i, repos, RepoName, id);
    hide Kept, Finds, KnowsNames;
  }

  lemma RepoRefused(before: map<Id, Repo>, repos: map<Id, Repo>, stores: map<Id, Store>, es: seq<Entry<Repo>>, i: nat,
                    byName: map<Id, Id>)
    requires ReposGo(before, repos, stores, es, i, byName) && i < |es|
    requires forall r :: r in repos ==> repos[r].name != es[i].data.name
    ensures ReposGo(before, repos, stores, es, i + 1, byName)
  {
    NameRefused(byName, es, i, repos, RepoName);
    hide Kept, Finds, KnowsNames;
  }

  lemma RepoAdded(before: map<Id, Repo>, repos: map<Id, Repo>, stores: map<Id, Store>, es: seq<Entry<Repo>>, i: nat,
                  byName: map<Id, Id>, id: Id, storeByName: map<Id, Id>, oldName: map<Id, Id>)
    requires ReposGo(before, repos, stores, es, i, byName) && i < |es| && id !in repos
    requires forall r :: r in repos ==> repos[r].name != es[i].data.name
    requires Finds(storeByName, stores, StoreName)
    ensures var row := RestoredRepo(es[i].data, storeByName, oldName);
            ReposGo(before, repos[id := row], stores, es, i + 1, byName[es[i].data.name := id])
  {
    var row := RestoredRepo(es[i].data, storeByName, oldName);
    KeptNext(before, repos, byName, RepoName, id, row);
    NewRepoLinked(before, repos, stores, storeByName, oldName, id, es[i].data);
    NameAdded(byName, es, i, repos, RepoName, id, row);
    OneMoreName(before, repos, RepoName, id, row);
    hide Kept, Finds, KnowsNames, NewReposLinked, RestoredRepo, NewNames;
  }

  lemma ReposWent(before: map<Id, Repo>, repos: map<Id, Repo>, stores: map<Id, Store>, es: seq<Entry<Repo>>, n: nat,
                  byName: map<Id, Id>)
    requires ReposGo(before, repos, stores, es, n, byName)
    ensures Kept(before, repos) && Finds(byName, repos, RepoName) && NewReposLinked(before, repos, stores)
    ensures KnowsNames(byName, es, n, repos, RepoName) && NewNames(before, repos, RepoName)
  {
  }

  // ---------------------------------------------------------------- components, step by step

  /** All that restoring components keeps true, whatever fails on the way. */
  ghost predicate ComponentsGo(before: map<Id, Component>, rows: map<Id, Component>, es: seq<Entry<Component>>, n: nat,
                               repoByName: map<Id, Id>, refused: set<Id>, repos: map<Id, Repo>, ids: map<Id, Id>)
    requires n <= |es|
  {
    && ComponentsLinked(before, rows, repos)
    && ReleasesStay(before, rows, es, repoByName)
    && ReleasesDecided(before, rows, es, n, repoByName, refused, repos)
    && KnowsComponents(ids, rows, es, n, repoByName, refused, repos)
  }

  lemma NoComponentsGone(rows: map<Id, Component>, es: seq<Entry<Component>>, repoByName: map<Id, Id>,
                         refused: set<Id>, repos: map<Id, Repo>)
    ensures ComponentsGo(rows, rows, es, 0, repoByName, refused, repos, map[])
  {
  }

  lemma ReleaseWritten(before: map<Id, Component>, rows: map<Id, Component>, archived: seq<Entry<Component>>,
                       repoByName: map<Id, Id>, i: nat, n: Id)
    requires ReleasesStay(before, rows, archived, repoByName) && i < |archived| && archived[i].owner in repoByName
    requires PlaceOfRelease(rows, n, ReleaseFor(archived[i], repoByName))
    ensures ReleasesStay(before, rows[n := ReleaseFor(archived[i], repoByName)], archived, repoByName)
  {
    if n in before {
      assert HasRelease(archived, repoByName, before[n]);
    }
  }

  lemma ComponentGoes(before: map<Id, Component>, rows: map<Id, Component>, es: seq<Entry<Component>>, i: nat,
                      repoByName: map<Id, Id>, refused: set<Id>, repos: map<Id, Repo>, ids: map<Id, Id>, n: Option<Id>)
    requires i < |es| && ComponentsGo(before, rows, es, i, repoByName, refused, repos, ids)
    requires n.Some? <==> ReleaseLands(es[i], repoByName, refused, repos)
    requires n.Some? ==> PlaceOfRelease(rows, n.value, ReleaseFor(es[i], repoByName))
    ensures n.Some? ==> ComponentsGo(before, rows[n.value := ReleaseFor(es[i], repoByName)], es, i + 1, repoByName,
                                     refused, repos, ids[es[i].id := n.value])
    ensures n.None? ==> ComponentsGo(before, rows, es, i + 1, repoByName, refused, repos, ids)
  {
    ReleaseDecided(before, rows, es, i, repoByName, refused, repos, n);
    ComponentKnown(ids, rows, es, i, repoByName, refused, repos, n);
    if n.Some? {
      ComponentLinked(before, rows, repos, n.value, ReleaseFor(es[i], repoByName));
      ReleaseWritten(before, rows, es, repoByName, i, n.value);
    }
    hide ComponentsLinked, ReleasesStay, ReleasesDecided, KnowsComponents;
  }

  lemma ComponentsWent(before: map<Id, Component>, rows: map<Id, Component>, es: seq<Entry<Component>>, n: nat,
                       repoByName: map<Id, Id>, refused: set<Id>, repos: map<Id, Repo>, ids: map<Id, Id>)
    requires n <= |es| && ComponentsGo(before, rows, es, n, repoByName, refused, repos, ids)
    ensures ComponentsLinked(before, rows, repos) && ReleasesStay(before, rows, es, repoByName)
    ensures ReleasesDecided(before, rows, es, n, repoByName, refused, repos)
    ensures KnowsComponents(ids, rows, es, n, repoByName, refused, repos)
  {
  }

  // ---------------------------------------------------------------- assets, step by step

  /** All that restoring assets keeps true, whatever fails on the way. */
  ghost predicate AssetsGo(before: map<Id, Asset>, rows: map<Id, Asset>, first: map<(Id, Id), Id>,
                           objects: map<(Id, Id), Id>, es: seq<Entry<Asset>>, n: nat, x: Setting)
    requires n <= |es|
  {
    && AssetsStayLinked(before, rows, x.stores, x.repos, x.components)
    && Backed(before, rows, x.blobs, objects)
    && PathsStay(before, rows, es, x.repoByName)
    && PathsDecided(before, rows, es, n, x)
    && BytesDecided(first, objects, es, n, x)
  }

  lemma NoAssetsGone(rows: map<Id, Asset>, objects: map<(Id, Id), Id>, es: seq<Entry<Asset>>, x: Setting)
    ensures AssetsGo(rows, rows, objects, objects, es, 0, x)
  {
    NothingDecided(rows, objects, es, x);
  }

  lemma AssetsWent(before: map<Id, Asset>, rows: map<Id, Asset>, first: map<(Id, Id), Id>, objects: map<(Id, Id), Id>,
                   es: seq<Entry<Asset>>, n: nat, x: Setting)
    requires n <= |es| && AssetsGo(before, rows, first, objects, es, n, x)
    ensures AssetsStayLinked(before, rows, x.stores, x.repos, x.components) && Backed(before, rows, x.blobs, objects)
    ensures PathsStay(before, rows, es, x.repoByName) && Grown(first, objects, x.blobs)
    ensures PathsDecided(before, rows, es, n, x) && BytesDecided(first, objects, es, n, x)
  {
    hide BytesPut;
  }

  lemma PathWritten(before: map<Id, Asset>, rows: map<Id, Asset>, es: seq<Entry<Asset>>, x: Setting, i: nat, n: Id)
    requires PathsStay(before, rows, es, x.repoByName) && i < |es| && Placed(es[i], x)
    requires PlaceOfRow(rows, n, RowFor(es[i], x))
    ensures PathsStay(before, rows[n := Upserted(RowFor(es[i], x), rows, n)], es, x.repoByName)
  {
    if n in before {
      assert HasPath(es, x.repoByName, before[n]);
    }
  }

  lemma StepGrows(e: Entry<Asset>, x: Setting, rows: map<Id, Asset>, objects: map<(Id, Id), Id>,
                  rows': map<Id, Asset>, objects': map<(Id, Id), Id>, n: Option<Id>)
    requires Stepped(e, x, rows, objects, rows', objects', n)
    ensures Grown(objects, objects', x.blobs)
    ensures n.Some? ==> HasBytes(RowFor(e, x), x.blobs, objects')
  {
    hide StoreFor, PlaceOfRow;
  }

  lemma StepBacked(before: map<Id, Asset>, e: Entry<Asset>, x: Setting, rows: map<Id, Asset>,
                   objects: map<(Id, Id), Id>, rows': map<Id, Asset>, objects': map<(Id, Id), Id>, n: Option<Id>)
    requires Stepped(e, x, rows, objects, rows', objects', n) && Backed(before, rows, x.blobs, objects)
    ensures Backed(before, rows', x.blobs, objects')
  {
    StepGrows(e, x, rows, objects, rows', objects', n);
    BackedGrows(before, rows, x.blobs, objects, objects');
    if n.Some? {
      RowBacked(before, rows, x.blobs, objects', n.value, Upserted(RowFor(e, x), rows, n.value));
    }
    hide Backed, PutsBytes, RowFor, PlaceOfRow;
  }

  lemma BackedGrows(before: map<Id, Asset>, rows: map<Id, Asset>, blobs: map<Id, Id>, objects: map<(Id, Id), Id>,
                    more: map<(Id, Id), Id>)
    requires Backed(before, rows, blobs, objects) && Grown(objects, more, blobs)
    ensures Backed(before, rows, blobs, more)
  {
  }

  lemma StepLinked(before: map<Id, Asset>, e: Entry<Asset>, x: Setting, rows: map<Id, Asset>,
                   objects: map<(Id, Id), Id>, rows': map<Id, Asset>, objects': map<(Id, Id), Id>, n: Option<Id>)
    requires Stepped(e, x, rows, objects, rows', objects', n)
    requires AssetsStayLinked(before, rows, x.stores, x.repos, x.components)
    ensures AssetsStayLinked(before, rows', x.stores, x.repos, x.components)
  {
    hide StoreFor, PlaceOfRow, PutsBytes;
  }

  lemma AssetGoes(before: map<Id, Asset>, first: map<(Id, Id), Id>, es: seq<Entry<Asset>>, i: nat, x: Setting,
                  rows: map<Id, Asset>, objects: map<(Id, Id), Id>, rows': map<Id, Asset>,
                  objects': map<(Id, Id), Id>, n: Option<Id>)
    requires i < |es| && AssetsGo(before, rows, first, objects, es, i, x)
    requires Stepped(es[i], x, rows, objects, rows', objects', n)
    ensures AssetsGo(before, rows', first, objects', es, i + 1, x)
  {
    StepLinked(before, es[i], x, rows, objects, rows', objects', n);
    StepBacked(before, es[i], x, rows, objects, rows', objects', n);
    PathDecided(before, rows, es, i, x, n, rows');
    ByteDecided(first, objects, es, i, x);
    if n.Some? {
      PathWritten(before, rows, es, x, i, n.value);
    }
    hide AssetsStayLinked, Backed, PathsStay, PathsDecided, BytesDecided, PutsBytes, RowFor, PlaceOfRow, Upserted;
  }

  /** Into an empty instance, an asset of a sound source is placed, and if written gets a row of its own. */
  lemma AssetRestoredNext(es: seq<Entry<Asset>>, i: nat, src: map<Id, Asset>, f: Renaming, x: Setting,
                          stores: map<Id, Id>, repos: map<Id, Id>,
                          rows: map<Id, Asset>, objects: map<(Id, Id), Id>, rows': map<Id, Asset>,
                          objects': map<(Id, Id), Id>, n: Option<Id>)
    requires ListsAll(es, src) && UniquePaths(src) && Injective(repos) && i < |es|
    requires OwnersKnown(es, RepoOfAsset, x.repoByName, repos)
    requires LinksKnown(src, x.componentIds, x.storeByName, x.oldName, stores)
    requires AssetsSoFar(es, i, src, rows, f, stores, repos, x.componentIds, x.blobs, objects)
    requires Stepped(es[i], x, rows, objects, rows', objects', n)
    ensures Placed(es[i], x)
    ensures n.Some? ==> AssetsSoFar(es, i + 1, src, rows', Extend(f, es[i].id, n.value), stores, repos, x.componentIds,
                                    x.blobs, objects')
  {
    RowIsSame(es, i, src, x, stores, repos);
    StepGrows(es[i], x, rows, objects, rows', objects', n);
    BytesGrown(es, i, src, rows, f, stores, repos, x.componentIds, x.blobs, objects, objects');
    if n.Some? {
      AssetRestored(es, i, src, rows, f, stores, repos, x.componentIds, x.blobs, objects', n.value, RowFor(es[i], x));
    }
    hide ListsAll, UniquePaths, Injective, OwnersKnown, LinksKnown, AssetsSoFar, RowFor, PutsBytes, PlaceOfRow,
      Upserted,
      Lands, Extend;
  }

  lemma RowIsSame(es: seq<Entry<Asset>>, i: nat, src: map<Id, Asset>, x: Setting, stores: map<Id, Id>,
                  repos: map<Id, Id>)
    requires ListsAll(es, src) && i < |es| && OwnersKnown(es, RepoOfAsset, x.repoByName, repos)
    requires LinksKnown(src, x.componentIds, x.storeByName, x.oldName, stores)
    ensures Placed(es[i], x) && SameAsset(es[i].data, RowFor(es[i], x), stores, repos, x.componentIds)
  {
    OwnerFound(es, i, RepoOfAsset, x.repoByName, repos);
    assert src[es[i].id] == es[i].data;
    assert KnownStore(es[i].data.store, x.storeByName, x.oldName, stores);
  }

  class Restorer {
    var stores: map<Id, Store>
    var repos: map<Id, Repo>
    var components: map<Id, Component>
    var assets: map<Id, Asset>
    var objects: map<(Id, Id), Id>

    constructor ()
      ensures State() == EMPTY
    {
      stores, repos, components, assets, objects := map[], map[], map[], map[], map[];
    }

    function State(): Instance
      reads this
    {
      Instance(stores, repos, components, assets, objects)
    }

    method StoreNamed(name: Id) returns (id: Option<Id>)
      ensures id.Some? ==> id.value in stores && stores[id.value].name == name
      ensures id.None? ==> forall s :: s in stores ==> stores[s].name != name
    {
      if s :| s in stores && stores[s].name == name {
        return Some(s);
      }
      return None;
    }

    method RestoreStores(archived: seq<Entry<Store>>, refused: set<Id>, ghost src: map<Id, Store>)
      returns (byName: map<Id, Id>, oldName: map<Id, Id>, failed: nat, ghost f: Renaming)
      modifies `stores
      ensures Kept(old(stores), stores) && Finds(byName, stores, StoreName)
      ensures KnowsNames(byName, archived, |archived|, stores, StoreName) && OldNamesAre(archived, oldName)
      ensures NewNames(old(stores), stores, StoreName)
      ensures ListsAll(archived, src) && UniqueNames(src, StoreName) && FlatStores(src) && old(stores) == map[]
              && failed == 0 ==>
                StoresRestored(src, stores, byName, oldName, f)
    {
      ghost var good := ListsAll(archived, src) && UniqueNames(src, StoreName) && FlatStores(src) && stores == map[];
      byName, failed, f := map[], 0, NOTHING;
      oldName := OldNames(archived, src);
      var sorted := PhysicalFirst(archived);
      if good {
        Sorted(archived, src);
      }
      hide ListsAll, PhysicalFirst, UniqueNames, FlatStores, StoresMatch, Done, GroupsLast, SameStore, NamesKnown,
        Remapped, Renames, Extend, RestoredStore, Kept, Finds, KnowsNames, OldNamesAre,
        NewNames;
      NothingLost(stores, StoreName);
      NoNewNames(stores, StoreName);
      NoNamesYet(sorted, stores, StoreName);
      NoStores(src);
      NothingDone(sorted);
      for i := 0 to |sorted|
        invariant Kept(old(stores), stores) && Finds(byName, stores, StoreName)
        invariant KnowsNames(byName, sorted, i, stores, StoreName) && NewNames(old(stores), stores, StoreName)
        invariant good && failed == 0 ==> StoresMatch(src, stores, byName, f) && Done(sorted, i, f)
      {
        var e := sorted[i];
        if good && failed == 0 {
          DoneNext(sorted, i, src, f, "");
          StoreIsNew(src, stores, byName, f, e.id);
        }
        var existing := StoreNamed(e.data.name);
        if existing.Some? {
          FindsExisting(byName, stores, StoreName, existing.value);
          NameExists(byName, sorted, i, stores, StoreName, existing.value);
          byName := byName[e.data.name := existing.value];
          continue;
        }
        var row := RenameMembers(e.data, oldName, byName);
        if (row.Group? && row.members == []) || e.id in refused {
          NameRefused(byName, sorted, i, stores, StoreName);
          failed := failed + 1;
          continue;
        }
        var id := Fresh(stores.Keys);
        if good && failed == 0 {
          StoreRestored(sorted, i, src, stores, byName, oldName, f, id);
          f := Extend(f, e.id, id);
        }
        KeptNext(old(stores), stores, byName, StoreName, id, row);
        NameAdded(byName, sorted, i, stores, StoreName, id, row);
        StoreNameIsNew(old(stores), stores, id, row);
        stores := stores[id := row];
        byName := byName[e.data.name := id];
      }
      NamesInAnyOrder(byName, archived, stores);
      if good && failed == 0 {
        KeysWithin(src, stores, byName, f);
        AllDone(sorted, src, f);
      }
    }

    method RepoNamed(name: Id) returns (id: Option<Id>)
      ensures id.Some? ==> id.value in repos && repos[id.value].name == name
      ensures id.None? ==> forall r :: r in repos ==> repos[r].name != name
    {
      if r :| r in repos && repos[r].name == name {
        return Some(r);
      }
      return None;
    }

    /** A repository whose store could not be restored falls back to the default one. */
    method RestoreRepos(archived: seq<Entry<Repo>>, storeByName: map<Id, Id>, oldName: map<Id, Id>, refused: set<Id>,
                        ghost src: map<Id, Repo>, ghost srcStores: map<Id, Store>, ghost fs: Renaming)
      returns (byName: map<Id, Id>, failed: nat, ghost f: Renaming)
      requires Finds(storeByName, stores, StoreName)
      modifies `repos
      ensures Kept(old(repos), repos) && Finds(byName, repos, RepoName)
      ensures KnowsNames(byName, archived, |archived|, repos, RepoName) && NewNames(old(repos), repos, RepoName)
      ensures NewReposLinked(old(repos), repos, stores)
      ensures ListsAll(archived, src) && UniqueNames(src, RepoName) && old(repos) == map[] && failed == 0
              && StoresKnown(src, srcStores, storeByName, oldName, fs.to) ==>
                ReposRestored(src, repos, byName, f, fs.to)
    {
      ghost var good := ListsAll(archived, src) && UniqueNames(src, RepoName) && repos == map[]
                        && StoresKnown(src, srcStores, storeByName, oldName, fs.to);
      hide ListsAll, UniqueNames, StoresKnown, ReposSoFar, ReposRestored, Kept, Finds, Extend, RestoredRepo,
        NewReposLinked, ReposGo, KnowsNames, NewNames;
      byName, failed, f := map[], 0, NOTHING;
      ghost var was, held := repos, stores;
      NoReposYet(archived, src, fs.to);
      NoReposGone(repos, held, archived);
      for i := 0 to |archived|
        invariant ReposGo(was, repos, held, archived, i, byName)
        invariant good && failed == 0 ==> ReposSoFar(archived, i, src, repos, byName, f, fs.to)
      {
        var e := archived[i];
        if good && failed == 0 {
          RepoIsNew(archived, i, src, repos, byName, f, fs.to);
        }
        var existing := RepoNamed(e.data.name);
        if existing.Some? {
          RepoExists(was, repos, held, archived, i, byName, existing.value);
          byName := byName[e.data.name := existing.value];
          continue;
        }
        var row := RestoredRepo(e.data, storeByName, oldName);
        if e.id in refused {
          RepoRefused(was, repos, held, archived, i, byName);
          failed := failed + 1;
          continue;
        }
        var id := Fresh(repos.Keys);
        RepoAdded(was, repos, held, archived, i, byName, id, storeByName, oldName);
        if good && failed == 0 {
          RepoRestored(archived, i, src, repos, byName, f, srcStores, storeByName, oldName, fs.to, id);
          f := Extend(f, e.id, id);
        }
        repos := repos[id := row];
        byName := byName[e.data.name := id];
      }
      ReposWent(was, repos, held, archived, |archived|, byName);
      if good && failed == 0 {
        AllRepos(archived, src, repos, byName, f, fs.to);
      }
    }

    /** An insert that replaces the row of the same release, in a repository that must exist. */
    method CreateComponent(row: Component, refuse: bool) returns (id: Option<Id>)
      modifies `components
      ensures id.Some? <==> !refuse && row.repo in repos
      ensures id.Some? ==>
                components == old(components)[id.value := row] && PlaceOfRelease(old(components), id.value, row)
      ensures id.None? ==> components == old(components)
    {
      if refuse || row.repo !in repos {
        return None;
      }
      if c :| c in components && SameRelease(components[c], row) {
        components := components[c := row];
        return Some(c);
      }
      var unused := Fresh(components.Keys);
      components := components[unused := row];
      return Some(unused);
    }

    /** One archived component. */
    method RestoreComponent(e: Entry<Component>, repoByName: map<Id, Id>, refused: set<Id>)
      returns (id: Option<Id>, failed: bool)
      modifies `components
      ensures id.Some? <==> ReleaseLands(e, repoByName, refused, repos)
      ensures id.Some? ==> e.owner in repoByName && components == old(components)[id.value := ReleaseFor(e, repoByName)]
                           && PlaceOfRelease(old(components), id.value, ReleaseFor(e, repoByName))
      ensures id.None? ==> components == old(components)
      ensures failed <==> e.owner in repoByName && id.None?
    {
      if e.owner !in repoByName {
        return None, false;
      }
      id := CreateComponent(e.data.(repo := repoByName[e.owner]), e.id in refused);
      failed := id.None?;
    }

    /** Of each release the last archived component that is written decides, over rows that were there too. */
    method RestoreComponents(archived: seq<Entry<Component>>, repoByName: map<Id, Id>, refused: set<Id>,
                             ghost src: map<Id, Component>, ghost to: map<Id, Id>)
      returns (newId: map<Id, Id>, failed: nat, ghost f: Renaming)
      modifies `components
      ensures ComponentsLinked(old(components), components, repos)
      ensures ReleasesStay(old(components), components, archived, repoByName)
      ensures ReleasesDecided(old(components), components, archived, |archived|, repoByName, refused, repos)
      ensures KnowsComponents(newId, components, archived, |archived|, repoByName, refused, repos)
      ensures ListsAll(archived, src) && UniqueReleases(src) && Injective(to) && old(components) == map[] && failed == 0
              && OwnersKnown(archived, RepoOfComponent, repoByName, to) ==>
                newId == f.to && ComponentsRestored(src, components, f, to)
    {
      ghost var good := ListsAll(archived, src) && UniqueReleases(src) && Injective(to) && components == map[]
                        && OwnersKnown(archived, RepoOfComponent, repoByName, to);
      hide ListsAll, UniqueReleases, OwnersKnown, Injective, ComponentsSoFar, ComponentsRestored, ComponentsLinked,
        Extend, SameRelease, ReleasesStay, ReleasesDecided, KnowsComponents, ComponentsGo, PlaceOfRelease, ReleaseFor,
        ReleaseLands;
      ghost var was, held := components, repos;
      newId, failed, f := map[], 0, NOTHING;
      NoComponentsYet(archived, src, to);
      NoComponentsGone(components, archived, repoByName, refused, held);
      for i := 0 to |archived|
        invariant ComponentsGo(was, components, archived, i, repoByName, refused, held, newId)
        invariant good && failed == 0 ==> newId == f.to && ComponentsSoFar(archived, i, src, components, f, to)
      {
        ghost var before := components;
        var id, fails := RestoreComponent(archived[i], repoByName, refused);
        ComponentGoes(was, before, archived, i, repoByName, refused, held, newId, id);
        if good && failed == 0 {
          ComponentRestoredNext(archived, i, src, before, f, to, repoByName, id);
        }
        if id.Some? {
          newId := newId[archived[i].id := id.value];
          f := Extend(f, archived[i].id, id.value);
        }
        if fails {
          failed := failed + 1;
        }
      }
      ComponentsWent(was, components, archived, |archived|, repoByName, refused, held, newId);
      if good && failed == 0 {
        AllComponents(archived, src, components, f, to);
      }
    }

    /** A group, or an unknown store, holds no bytes; with no store at all there is still the built-in one. */
    method PutArchivedBlob(store: Id, key: Id, bytes: Id, fails: bool) returns (ok: bool)
      modifies `objects
      ensures ok <==> !fails && (store == "" || (store in stores && stores[store].Physical?))
      ensures objects == if ok then old(objects)[(store, key) := bytes] else old(objects)
    {
      if fails || (store != "" && (store !in stores || stores[store].Group?)) {
        return false;
      }
      objects := objects[(store, key) := bytes];
      return true;
    }

    /** An insert that replaces the row of the same path, which stays with its component. */
    method CreateAsset(row: Asset, refuse: bool) returns (id: Option<Id>)
      modifies `assets
      ensures id.None? <==> refuse || !AssetLinks(row, stores, repos, components)
      ensures id.None? ==> assets == old(assets)
      ensures id.Some? ==> assets == old(assets)[id.value := Upserted(row, old(assets), id.value)]
      ensures id.Some? ==> PlaceOfRow(old(assets), id.value, row)
    {
      if refuse || !AssetLinks(row, stores, repos, components) {
        return None;
      }
      if a :| a in assets && SamePath(assets[a], row) {
        assets := assets[a := row.(component := assets[a].component)];
        return Some(a);
      }
      var unused := Fresh(assets.Keys);
      assets := assets[unused := row];
      return Some(unused);
    }

    /**
     One archived asset: its bytes, if the archive has any, and then its row. A blob that cannot be
     written leaves it out.
     */
    method RestoreAsset(e: Entry<Asset>, x: Setting) returns (id: Option<Id>, failed: bool)
      requires x.stores == stores && x.repos == repos && x.components == components
      modifies `assets, `objects
      ensures Stepped(e, x, old(assets), old(objects), assets, objects, id)
      ensures failed <==> Placed(e, x) && id.None?
    {
      hide AssetLinks, PlaceOfRow, Upserted, StoreOf;
      if e.owner !in x.repoByName || e.data.component !in x.componentIds {
        return None, false;
      }
      var store := ResolveStore(e.data.store, x.storeByName, x.oldName);
      var key := e.data.key;
      if key != "" && key in x.blobs {
        var ok := PutArchivedBlob(store, key, x.blobs[key], key in x.unwritable);
        if !ok {
          return None, true;
        }
      }
      var row := e.data.(repo := x.repoByName[e.owner], component := x.componentIds[e.data.component], store := store);
      assert row == RowFor(e, x);
      id := CreateAsset(row, e.id in x.refused);
      failed := id.None?;
    }

    /**
     Of each path the last archived asset that is written decides, over rows that were there too; of
     each object the archive.
     */
    method RestoreAssets(archived: seq<Entry<Asset>>, x: Setting,
                         ghost src: map<Id, Asset>, ghost stoTo: map<Id, Id>, ghost repTo: map<Id, Id>)
      returns (failed: nat, ghost f: Renaming)
      requires x.stores == stores && x.repos == repos && x.components == components
      modifies `assets, `objects
      ensures AssetsStayLinked(old(assets), assets, stores, repos, components)
      ensures Backed(old(assets), assets, x.blobs, objects)
      ensures PathsStay(old(assets), assets, archived, x.repoByName) && Grown(old(objects), objects, x.blobs)
      ensures PathsDecided(old(assets), assets, archived, |archived|, x)
      ensures BytesDecided(old(objects), objects, archived, |archived|, x)
      ensures ListsAll(archived, src) && UniquePaths(src) && Injective(repTo) && old(assets) == map[] && failed == 0
              && OwnersKnown(archived, RepoOfAsset, x.repoByName, repTo)
              && LinksKnown(src, x.componentIds, x.storeByName, x.oldName, stoTo) ==>
                AssetsRestored(src, assets, f, stoTo, repTo, x.componentIds, x.blobs, objects)
    {
      ghost var good := ListsAll(archived, src) && UniquePaths(src) && Injective(repTo) && assets == map[]
                        && OwnersKnown(archived, RepoOfAsset, x.repoByName, repTo)
                        && LinksKnown(src, x.componentIds, x.storeByName, x.oldName, stoTo);
      hide ListsAll, UniquePaths, Injective, OwnersKnown, LinksKnown, AssetsSoFar, AssetsRestored, Backed, Extend,
        AssetsGo, Stepped, Grown, PathsStay, PathsDecided, BytesDecided, AssetsStayLinked, Placed;
      ghost var was, first := assets, objects;
      failed, f := 0, NOTHING;
      NoAssetsYet(archived, src, stoTo, repTo, x.componentIds, x.blobs, objects);
      NoAssetsGone(assets, objects, archived, x);
      for i := 0 to |archived|
        invariant AssetsGo(was, assets, first, objects, archived, i, x)
        invariant good && failed == 0 ==>
                    AssetsSoFar(archived, i, src, assets, f, stoTo, repTo, x.componentIds, x.blobs, objects)
      {
        ghost var rows, held := assets, objects;
        var id, fails := RestoreAsset(archived[i], x);
        AssetGoes(was, first, archived, i, x, rows, held, assets, objects, id);
        if good && failed == 0 {
          AssetRestoredNext(archived, i, src, f, x, stoTo, repTo, rows, held, assets, objects, id);
        }
        if id.Some? {
          f := Extend(f, archived[i].id, id.value);
        }
        if fails {
          failed := failed + 1;
        }
      }
      AssetsWent(was, assets, first, objects, archived, |archived|, x);
      if good && failed == 0 {
        AllAssets(archived, src, assets, f, stoTo, repTo, x.componentIds, x.blobs, objects);
      }
    }

    /** The tables assets hang on, and what their names and archived ids were found to mean. */
    method RestoreTables(a: Archive, refused: set<Id>, unwritable: set<Id>, ghost src: Instance)
      returns (x: Setting, failed: nat, ghost fs: Renaming, ghost fr: Renaming, ghost fc: Renaming)
      modifies `stores, `repos, `components
      ensures Understood(a, refused, unwritable, old(State()), State(), x)
      ensures ReleasesStay(old(components), components, a.components, x.repoByName)
      ensures ReleasesDecided(old(components), components, a.components, |a.components|, x.repoByName, refused, repos)
      ensures TablesLinked(old(State()), State())
      ensures old(State()) == EMPTY && failed == 0 && ArchiveOf(a, src) && Sound(src) ==>
                TablesRestored(a, src, State(), x, fs, fr, fc)
    {
      hide ArchiveOf, Sound, ListsAll, UniqueNames, FlatStores, UniqueReleases, Injective, Kept, Finds, NewReposLinked,
        ComponentsLinked, StoresRestored, ReposRestored, ComponentsRestored, StoresKnown, OwnersKnown, ReleasesStay,
        ReleasesDecided, KnowsNames, OldNamesAre, KnowsComponents, NewNames, Understood, TablesLinked, TablesRestored;
      ghost var before := State();
      var storeByName, oldName, repoByName, componentIds, failedStores, failedRepos, failedComponents;
      storeByName, oldName, failedStores, fs := RestoreStores(a.stores, refused, src.stores);
      repoByName, failedRepos, fr := RestoreRepos(a.repos, storeByName, oldName, refused, src.repos, src.stores, fs);
      componentIds, failedComponents, fc := RestoreComponents(a.components, repoByName, refused, src.components, fr.to);
      failed := failedStores + failedRepos + failedComponents;
      x := Setting(repoByName, componentIds, storeByName, oldName, refused, unwritable, a.blobs,
                   stores, repos, components);
      TablesTogether(a, before, State(), x);
      if before == EMPTY && failed == 0 && ArchiveOf(a, src) && Sound(src) {
        TablesAreRestored(a, src, State(), x, fs, fr, fc);
      }
    }

    /**
     Restores an archive table by table. Restored into an empty instance without a failure, a complete
     archive of a sound instance gives back that instance under a renaming of ids. Into any instance,
     and whatever fails: links stay intact; no row is written without the bytes the archive has for it;
     stores and repositories stay as they are; and of components, assets and objects none is lost. An
     earlier component or asset is as it was exactly when nothing archived is written to its release
     or path, and otherwise what was written there last; an object is what the archive has exactly
     when some entry writes its place. `x` says what the names and ids of the archive were found to mean.
     */
    method Restore(a: Archive, refused: set<Id>, unwritable: set<Id>, ghost src: Instance)
      returns (failed: nat, ghost f: Renamings, ghost x: Setting)
      modifies this
      ensures old(State()) == EMPTY && failed == 0 && ArchiveOf(a, src) && Complete(a) && Sound(src) ==>
                Isomorphic(src, State(), f)
      ensures Understood(a, refused, unwritable, old(State()), State(), x)
      ensures Kept(old(stores), stores) && Kept(old(repos), repos) && Grown(old(objects), objects, a.blobs)
      ensures ReleasesStay(old(components), components, a.components, x.repoByName)
      ensures PathsStay(old(assets), assets, a.assets, x.repoByName)
      ensures ReleasesDecided(old(components), components, a.components, |a.components|, x.repoByName, refused, repos)
      ensures PathsDecided(old(assets), assets, a.assets, |a.assets|, x)
      ensures BytesDecided(old(objects), objects, a.assets, |a.assets|, x)
      ensures old(Linked(State())) ==> Linked(State())
      ensures Backed(old(assets), assets, a.blobs, objects)
    {
      ghost var good := State() == EMPTY && ArchiveOf(a, src) && Complete(a) && Sound(src);
      ghost var before := State();
      if good {
        SourceSound(a, src);
      }
      hide ArchiveOf, Complete, Sound, ListsAll, UniqueNames, FlatStores, UniqueReleases, UniquePaths, Linked,
        Isomorphic,
        Injective, Kept, TablesLinked, AssetsStayLinked, Backed, TablesRestored, AssetsRestored, OwnersKnown,
        LinksKnown,
        ReleasesStay, PathsStay, Grown, ReleasesDecided, PathsDecided, BytesDecided, Understood;
      var setting, failedTables, failedAssets;
      ghost var fs, fr, fc, fa;
      setting, failedTables, fs, fr, fc := RestoreTables(a, refused, unwritable, src);
      x := setting;
      ghost var tables := State();
      UnderstoodGives(a, refused, unwritable, before, tables, x);
      if good && failedTables == 0 {
        TablesGive(a, src, tables, x, fs, fr, fc);
      }
      failedAssets, fa := RestoreAssets(a.assets, setting, src.assets, fs.to, fr.to);
      failed := failedTables + failedAssets;
      f := Renamings(fs, fr, fc, fa);
      ghost var after := State();
      if good && failed == 0 {
        IsomorphicWhole(a, src, tables, after, f, x);
      }
      UnderstoodStays(a, refused, unwritable, before, tables, after, x);
      LinkedWhole(before, tables, after);
    }
  }

  /**
   Export, then restore into an empty instance: if no page failed, no blob was missing and nothing was
   refused, the result is the exported instance with its ids renamed.
   */
  method RestoreOfExport(src: Instance, order: Listing, unreadable: set<(Id, Id)>,
                         brokenComponents: Id -> set<nat>, brokenAssets: Id -> set<nat>,
                         refused: set<Id>, unwritable: set<Id>)
    returns (copy: Restorer, exported: bool, missing: nat, failed: nat, ghost f: Renamings)
    requires Lists(order, src) && Linked(src)
    ensures fresh(copy)
    ensures exported && missing == 0 && failed == 0 && Sound(src) ==> Isomorphic(src, copy.State(), f)
  {
    hide Lists, Linked, OneContentPerKey, ArchiveOf, Complete, Isomorphic, Backed, Unique, Flat;
    copy := new Restorer();
    failed, f := 0, Renamings(NOTHING, NOTHING, NOTHING, NOTHING);
    var archive;
    archive, missing := Export(src, order, unreadable, brokenComponents, brokenAssets);
    exported := archive.Some?;
    if exported {
      ghost var x;
      failed, f, x := copy.Restore(archive.value, refused, unwritable, src);
    }
  }

  /** An archive of one asset and what it hangs on. */
  function OneAsset(store: Id, repo: Id, component: Id, asset: Id, storeRow: Store, repoRow: Repo, c: Component,
                    a: Asset, bytes: Id): Archive {
    Archive([Entry(store, "", storeRow)], [Entry(repo, "", repoRow)], [Entry(component, repoRow.name, c)],
            [Entry(asset, repoRow.name, a)], map[a.key := bytes])
  }

  /**
   Not every record that exists is skipped. Into an instance that has the archived store, repository,
   release and path already, a restore of that archive gives the component and the asset there the
   archived content, all but the asset's own component, and their object the archived bytes.
   */
  method ExistingRecordsAreOverwritten(r: Restorer, archived: Archive, s: Id, q: Id, c: Id, a: Id, bytes: Id)
    returns (failed: nat)
    requires |archived.stores| == |archived.repos| == |archived.components| == |archived.assets| == 1
    requires var store, repo := archived.stores[0], archived.repos[0];
             var component, asset := archived.components[0], archived.assets[0];
             && archived == OneAsset(store.id, repo.id, component.id, asset.id, store.data, repo.data, component.data,
                                     asset.data, bytes)
             && asset.data.store == store.id && asset.data.component == component.id && asset.data.key != ""
             && s in r.stores && r.stores[s].Physical?
             && (forall t :: t in r.stores ==> (r.stores[t].name == store.data.name <==> t == s))
             && q in r.repos && (forall t :: t in r.repos ==> (r.repos[t].name == repo.data.name <==> t == q))
             && AloneRelease(r.components, c) && SameRelease(r.components[c], component.data.(repo := q))
             && AlonePath(r.assets, a) && SamePath(r.assets[a], asset.data.(repo := q))
    modifies r
    ensures c in r.components && r.components[c] == archived.components[0].data.(repo := q)
    ensures a in r.assets
            && r.assets[a] == archived.assets[0].data.(repo := q, component := old(r.assets)[a].component, store := s)
    ensures (s, archived.assets[0].data.key) in r.objects && r.objects[(s, archived.assets[0].data.key)] == bytes
  {
    hide Understood, Linked, Isomorphic, Sound, ArchiveOf, Complete, KnowsNames, OldNamesAre, KnowsComponents,
      ReleasesStay,
      PathsStay, ReleasesDecided, PathsDecided, BytesDecided, Backed, Grown, AloneRelease, AlonePath, SameRelease,
      SamePath, NewNames;
    ghost var store, repo, component, asset := archived.stores[0], archived.repos[0], archived.components[0],
                                               archived.assets[0];
    ghost var stores, repos, was, rows, objects := r.stores, r.repos, r.components, r.assets, r.objects;
    ghost var f, x;
    ghost var before := r.State();
    failed, f, x := r.Restore(archived, {}, {}, EMPTY);
    UnderstoodGives(archived, {}, {}, before, r.State(), x);
    OneName(x.repoByName, repo, repos, r.repos, RepoName, q);
    OneName(x.storeByName, store, stores, r.stores, StoreName, s);
    OneStore(asset, x, store, s);
    OneComponent(was, r.components, component, x.repoByName, x.componentIds, r.repos, c);
    OneRow(rows, r.assets, objects, r.objects, asset, x, q, s, a);
  }

  lemma OneName<T(!new)>(byName: map<Id, Id>, e: Entry<T>, before: map<Id, T>, rows: map<Id, T>, nameOf: T -> Id,
                  id: Id)
    requires KnowsNames(byName, [e], 1, rows, nameOf) && Kept(before, rows) && NewNames(before, rows, nameOf)
    requires id in before && forall r :: r in before ==> (nameOf(before[r]) == nameOf(e.data) <==> r == id)
    ensures nameOf(e.data) in byName && byName[nameOf(e.data)] == id
  {
    assert [e][0] == e;
  }

  lemma OneStore(e: Entry<Asset>, x: Setting, store: Entry<Store>, s: Id)
    requires OldNamesAre([store], x.oldName) && e.data.store == store.id
    requires store.data.name in x.storeByName && x.storeByName[store.data.name] == s
    ensures StoreFor(e, x) == s
  {
    assert [store][0] == store;
  }

  lemma OneComponent(before: map<Id, Component>, rows: map<Id, Component>, e: Entry<Component>, repoByName: map<Id, Id>,
                     ids: map<Id, Id>, repos: map<Id, Repo>, c: Id)
    requires ReleasesDecided(before, rows, [e], 1, repoByName, {}, repos)
    requires KnowsComponents(ids, rows, [e], 1, repoByName, {}, repos)
    requires e.owner in repoByName && repoByName[e.owner] in repos
    requires AloneRelease(before, c) && SameRelease(before[c], ReleaseFor(e, repoByName))
    ensures c in rows && rows[c] == ReleaseFor(e, repoByName) && e.id in ids && ids[e.id] in rows
  {
    assert [e][0] == e;
    var last := LastRelease([e], 1, repoByName, {}, repos, before[c]);
    assert ReleaseLands([e][0], repoByName, {}, repos);
  }

  lemma OneRow(before: map<Id, Asset>, rows: map<Id, Asset>, held: map<(Id, Id), Id>, objects: map<(Id, Id), Id>,
               e: Entry<Asset>, x: Setting, q: Id, s: Id, a: Id)
    requires PathsDecided(before, rows, [e], 1, x) && BytesDecided(held, objects, [e], 1, x)
    requires Placed(e, x) && x.repoByName[e.owner] == q && StoreFor(e, x) == s && x.refused == {} && x.unwritable == {}
    requires e.data.key != "" && e.data.key in x.blobs && s in x.stores && x.stores[s].Physical? && q in x.repos
    requires x.componentIds[e.data.component] in x.components
    requires AlonePath(before, a) && SamePath(before[a], e.data.(repo := q))
    ensures a in rows && rows[a] == e.data.(repo := q, component := before[a].component, store := s)
    ensures (s, e.data.key) in objects && objects[(s, e.data.key)] == x.blobs[e.data.key]
  {
    hide StoreFor;
    assert [e][0] == e && Lands([e][0], x) && PutsBytes([e][0], x);
    assert BytesPut([e], 1, x, (s, e.data.key));
    var last := LastPath([e], 1, x, before[a]);
  }
}
