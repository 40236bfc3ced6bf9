/**
 Export of a whole instance to an archive, and restore of an archive into an instance that assigns
 its own ids. Rows are kept by id, and refer to one another by id; the archive names repositories and
 blob stores so that the restored rows can be tied together again.
 */
module Backup {
  import opened Prelude

  const PAGE := 500

  /** The type of `Group` is the source's "group": it holds no bytes and names its members by id. */
  datatype Store = Physical(name: Id, settings: Id) | Group(name: Id, settings: Id, members: seq<Id>)

  datatype Repo = Repo(name: Id, store: Option<Id>, settings: Id)

  datatype Component = Component(repo: Id, coordinates: Id, extra: Id)

  datatype Asset = Asset(repo: Id, component: Id, path: Id, store: Id, key: Id, facts: Id)

  datatype Instance = Instance(
    stores: map<Id, Store>,
    repos: map<Id, Repo>,
    components: map<Id, Component>,
    assets: map<Id, Asset>,
    objects: map<(Id, Id), Id>)

  /** A row in an archive, with the name of its repository if it has one. */
  datatype Entry<T> = Entry(id: Id, owner: Id, data: T)

  datatype Archive = Archive(
    stores: seq<Entry<Store>>,
    repos: seq<Entry<Repo>>,
    components: seq<Entry<Component>>,
    assets: seq<Entry<Asset>>,
    blobs: map<Id, Id>)

  // ---------------------------------------------------------------- the instances

  /** What foreign keys enforce. */
  ghost predicate Linked(i: Instance) {
    && (forall r :: r in i.repos && i.repos[r].store.Some? ==> i.repos[r].store.value in i.stores)
    && (forall c :: c in i.components ==> i.components[c].repo in i.repos)
    && (forall a :: a in i.assets ==>
          i.assets[a].repo in i.repos && i.assets[a].component in i.components && i.assets[a].store in i.stores)
  }

  predicate SameRelease(c: Component, d: Component) {
    c.repo == d.repo && c.coordinates == d.coordinates
  }

  predicate SamePath(a: Asset, b: Asset) {
    a.repo == b.repo && a.path == b.path
  }

  /** What unique constraints enforce. */
  ghost predicate Unique(i: Instance) {
    && (forall s, t :: s in i.stores && t in i.stores && i.stores[s].name == i.stores[t].name ==> s == t)
    && (forall r, q :: r in i.repos && q in i.repos && i.repos[r].name == i.repos[q].name ==> r == q)
    && (forall c, d :: c in i.components && d in i.components && SameRelease(i.components[c], i.components[d]) ==>
            c == d)
    && (forall a, b :: a in i.assets && b in i.assets && SamePath(i.assets[a], i.assets[b]) ==> a == b)
  }

  /** Groups are of physical stores, and assets are on physical stores. */
  ghost predicate Flat(i: Instance) {
    && (forall g, k :: g in i.stores && i.stores[g].Group? && 0 <= k < |i.stores[g].members| ==>
          i.stores[g].members[k] in i.stores && i.stores[i.stores[g].members[k]].Physical?)
    && (forall a :: a in i.assets && i.assets[a].store in i.stores ==> i.stores[i.assets[a].store].Physical?)
  }

  /** Assets that name the same key hold the same bytes, on whatever store. */
  ghost predicate OneContentPerKey(i: Instance) {
    forall a, b :: a in i.assets && b in i.assets && i.assets[a].key == i.assets[b].key != "" ==>
      Place(i.assets[a]) in i.objects && Place(i.assets[b]) in i.objects ==>
        i.objects[Place(i.assets[a])] == i.objects[Place(i.assets[b])]
  }

  function Place(a: Asset): (Id, Id) {
    (a.store, a.key)
  }

  ghost predicate Sound(i: Instance) {
    Linked(i) && Unique(i) && Flat(i) && OneContentPerKey(i)
  }

  const EMPTY := Instance(map[], map[], map[], map[], map[])

  // ---------------------------------------------------------------- export

  /** Every row is listed once. */
  ghost predicate ListsAll<T>(es: seq<Entry<T>>, rows: map<Id, T>) {
    && (forall i, j :: 0 <= i < j < |es| ==> es[i].id != es[j].id)
    && (forall i :: 0 <= i < |es| ==> es[i].id in rows && es[i].data == rows[es[i].id])
    && (forall id :: id in rows ==> exists i :: 0 <= i < |es| && es[i].id == id)
  }

  ghost predicate RowsOf(a: Archive, src: Instance) {
    && ListsAll(a.stores, src.stores)
    && ListsAll(a.repos, src.repos)
    && ListsAll(a.components, src.components)
    && ListsAll(a.assets, src.assets)
    && (forall i :: 0 <= i < |a.components| ==>
          a.components[i].data.repo in src.repos && a.components[i].owner == src.repos[a.components[i].data.repo].name)
    && (forall i :: 0 <= i < |a.assets| ==>
          a.assets[i].data.repo in src.repos && a.assets[i].owner == src.repos[a.assets[i].data.repo].name)
  }

  /** Every row once, and every blob with the bytes of each asset that names it. */
  ghost predicate ArchiveOf(a: Archive, src: Instance) {
    RowsOf(a, src) && BlobsOf(a.assets, src, a.blobs)
  }

  ghost predicate BlobsOf(es: seq<Entry<Asset>>, src: Instance, blobs: map<Id, Id>) {
    forall i :: 0 <= i < |es| && es[i].data.key in blobs && Place(es[i].data) in src.objects ==>
      blobs[es[i].data.key] == src.objects[Place(es[i].data)]
  }

  /** Every key an asset names is there to be restored. */
  ghost predicate Complete(a: Archive) {
    forall i :: 0 <= i < |a.assets| && a.assets[i].data.key != "" ==>
      a.assets[i].data.key in a.blobs
  }

  /** A listing that is cut short by a page that fails is an error: it never passes for a complete one. */
  method CollectAll<T>(rows: seq<T>, broken: set<nat>) returns (out: Option<seq<T>>)
    ensures out.Some? ==> out.value == rows
    ensures out.None? <==> exists k: nat :: k * PAGE <= |rows| && k * PAGE in broken
  {
    var got: seq<T> := [];
    var offset := 0;
    ghost var k: nat := 0;
    while true
      invariant offset == k * PAGE && offset <= |rows|
      invariant got == rows[..offset]
      invariant forall j: nat :: j < k ==> j * PAGE !in broken
      decreases |rows| - offset
    {
      if offset in broken {
        return None;
      }
      var page := if offset + PAGE <= |rows| then rows[offset..offset + PAGE] else rows[offset..];
      got := got + page;
      if |page| < PAGE {
        forall j: nat | j * PAGE <= |rows| ensures j * PAGE !in broken {
          assert j <= k;
        }
        return Some(got);
      }
      offset := offset + PAGE;
      k := k + 1;
    }
  }

  function KeysOf(es: seq<Entry<Asset>>): set<Id> {
    set i | 0 <= i < |es| && es[i].data.key != "" :: es[i].data.key
  }

  /** Entry `i` is the first with its key. */
  predicate First(es: seq<Entry<Asset>>, i: nat) {
    i < |es| && forall j :: 0 <= j < i ==> es[j].data.key != es[i].data.key
  }

  /** The archive has the asset's key exactly when its bytes can be read, and then with those bytes. */
  predicate Carried(a: Asset, objects: map<(Id, Id), Id>, unreadable: set<(Id, Id)>, blobs: map<Id, Id>) {
    && (a.key in blobs <==> Place(a) in objects && Place(a) !in unreadable)
    && (a.key in blobs && Place(a) in objects ==> blobs[a.key] == objects[Place(a)])
  }

  ghost predicate Written(es: seq<Entry<Asset>>, n: nat, objects: map<(Id, Id), Id>, unreadable: set<(Id, Id)>,
                          blobs: map<Id, Id>) {
    forall i :: 0 <= i < n <= |es| && First(es, i) && es[i].data.key != "" ==>
           Carried(es[i].data, objects, unreadable, blobs)
  }

  /** Each key once, with the bytes of the first asset that names it; the keys left out are counted. */
  method WriteBlobs(es: seq<Entry<Asset>>, objects: map<(Id, Id), Id>, unreadable: set<(Id, Id)>)
    returns (blobs: map<Id, Id>, missing: nat)
    ensures blobs.Keys <= KeysOf(es) && missing == |KeysOf(es) - blobs.Keys|
    ensures Written(es, |es|, objects, unreadable, blobs)
  {
    hide KeysOf, First, Written, Carried, Place;
    blobs, missing := map[], 0;
    var seen: set<Id> := {};
    ghost var lost: set<Id> := {};
    NoneWritten(es, objects, unreadable);
    for i := 0 to |es|
      invariant seen == KeysOf(es[..i])
      invariant (forall k :: k in seen <==> k in blobs || k in lost) && (forall k :: k in lost ==> k !in blobs)
      invariant missing == |lost|
      invariant Written(es, i, objects, unreadable, blobs)
    {
      var a := es[i].data;
      KeysOfNext(es, i);
      WrittenNext(es, i, objects, unreadable, blobs);
      if a.key != "" && a.key !in seen {
        seen := seen + {a.key};
        if Place(a) !in objects || Place(a) in unreadable {
          lost := lost + {a.key};
          missing := missing + 1;
        } else {
          blobs := blobs[a.key := objects[Place(a)]];
        }
      }
    }
    assert es[..|es|] == es;
    assert KeysOf(es) - blobs.Keys == lost;
  }

  lemma NoneWritten(es: seq<Entry<Asset>>, objects: map<(Id, Id), Id>, unreadable: set<(Id, Id)>)
    ensures KeysOf(es[..0]) == {} && Written(es, 0, objects, unreadable, map[])
  {
  }

  lemma WrittenNext(es: seq<Entry<Asset>>, i: nat, objects: map<(Id, Id), Id>, unreadable: set<(Id, Id)>,
                    blobs: map<Id, Id>)
    requires i < |es| && Written(es, i, objects, unreadable, blobs)
    ensures var a := es[i].data;
            if a.key == "" || a.key in KeysOf(es[..i]) then Written(es, i + 1, objects, unreadable, blobs)
            else if a.key in blobs then true
            else if Place(a) in objects && Place(a) !in unreadable then
              Written(es, i + 1, objects, unreadable, blobs[a.key := objects[Place(a)]])
            else Written(es, i + 1, objects, unreadable, blobs)
  {
    KeysOfNext(es, i);
    hide KeysOf, First, Place;
    var a := es[i].data;
    if First(es, i) && a.key != "" && a.key !in blobs && Place(a) in objects {
      var more := blobs[a.key := objects[Place(a)]];
      forall j | 0 <= j < i && First(es, j) && es[j].data.key != ""
        ensures Carried(es[j].data, objects, unreadable, more)
      {
        assert Carried(es[j].data, objects, unreadable, blobs);
      }
    }
  }

  lemma KeysOfNext(es: seq<Entry<Asset>>, i: nat)
    requires i < |es|
    ensures KeysOf(es[..i + 1]) == KeysOf(es[..i]) + (if es[i].data.key == "" then {} else {es[i].data.key})
    ensures es[i].data.key != "" ==> (First(es, i) <==> es[i].data.key !in KeysOf(es[..i]))
    ensures First(es, i) ==> forall j :: 0 <= j < i ==> es[j].data.key != es[i].data.key
  {
    assert es[..i + 1] == es[..i] + [es[i]];
    forall k | k in KeysOf(es[..i]) ensures k in KeysOf(es[..i + 1]) {
      var j :| 0 <= j < i && es[..i][j].data.key == k;
      assert es[..i + 1][j].data.key == k;
    }
    assert es[..i + 1][i] == es[i];
    if !First(es, i) {
      var j :| 0 <= j < i && es[j].data.key == es[i].data.key;
      assert es[..i][j] == es[j];
    }
  }

  function RepoOfComponent(c: Component): Id {
    c.repo
  }

  function RepoOfAsset(a: Asset): Id {
    a.repo
  }

  /** The order in which rows are listed: each row once, and under its own repository. */
  datatype Listing = Listing(stores: seq<Id>, repos: seq<Id>, components: map<Id, seq<Id>>, assets: map<Id, seq<Id>>)

  ghost predicate Distinct(ids: seq<Id>) {
    forall i, j :: 0 <= i < j < |ids| ==> ids[i] != ids[j]
  }

  ghost predicate ListsOf<T>(ids: seq<Id>, rows: map<Id, T>, repoOf: T -> Id, r: Id) {
    && Distinct(ids)
    && (forall k :: 0 <= k < |ids| ==> ids[k] in rows && repoOf(rows[ids[k]]) == r)
    && (forall id :: id in rows && repoOf(rows[id]) == r ==> id in ids)
  }

  ghost predicate Lists(order: Listing, src: Instance) {
    && Distinct(order.stores) && (forall id :: id in order.stores <==> id in src.stores)
    && Distinct(order.repos) && (forall id :: id in order.repos <==> id in src.repos)
    && (forall r :: r in src.repos ==>
          && r in order.components && ListsOf(order.components[r], src.components, RepoOfComponent, r)
          && r in order.assets && ListsOf(order.assets[r], src.assets, RepoOfAsset, r))
  }

  function Entries<T>(ids: seq<Id>, owner: Id, rows: map<Id, T>): (es: seq<Entry<T>>)
    requires forall k :: 0 <= k < |ids| ==> ids[k] in rows
    ensures |es| == |ids| && forall k :: 0 <= k < |es| ==> es[k] == Entry(ids[k], owner, rows[ids[k]])
  {
    seq(|ids|, k requires 0 <= k < |ids| => Entry(ids[k], owner, rows[ids[k]]))
  }

  /** The rows of the repositories listed, each once and with its repository's name. */
  ghost predicate Gathered<T>(es: seq<Entry<T>>, repoIds: seq<Id>, repos: map<Id, Repo>, rows: map<Id, T>,
                              repoOf: T -> Id) {
    && (forall i, j :: 0 <= i < j < |es| ==> es[i].id != es[j].id)
    && (forall i :: 0 <= i < |es| ==>
          && es[i].id in rows && es[i].data == rows[es[i].id] && repoOf(es[i].data) in repoIds
          && repoOf(es[i].data) in repos && es[i].owner == repos[repoOf(es[i].data)].name)
    && (forall id :: id in rows && repoOf(rows[id]) in repoIds ==> exists i :: 0 <= i < |es| && es[i].id == id)
  }

  lemma GatherNext<T>(es: seq<Entry<T>>, repoIds: seq<Id>, r: Id, ids: seq<Id>,
                      repos: map<Id, Repo>, rows: map<Id, T>, repoOf: T -> Id)
    requires Gathered(es, repoIds, repos, rows, repoOf) && r !in repoIds && r in repos && ListsOf(ids, rows, repoOf, r)
    ensures Gathered(es + Entries(ids, repos[r].name, rows), repoIds + [r], repos, rows, repoOf)
  {
    var more := Entries(ids, repos[r].name, rows);
    var all := es + more;
    forall id | id in rows && repoOf(rows[id]) in repoIds + [r] ensures exists i :: 0 <= i < |all| && all[i].id == id {
      if repoOf(rows[id]) in repoIds {
        var i :| 0 <= i < |es| && es[i].id == id;
        assert all[i].id == id;
      } else {
        var k :| 0 <= k < |ids| && ids[k] == id;
        assert all[|es| + k] == more[k];
      }
    }
  }

  method CollectOwned<T>(repoIds: seq<Id>, repos: map<Id, Repo>, listing: map<Id, seq<Id>>, rows: map<Id, T>,
                         ghost repoOf: T -> Id, broken: Id -> set<nat>)
    returns (out: Option<seq<Entry<T>>>)
    requires Distinct(repoIds)
    requires forall r :: r in repoIds ==> r in repos && r in listing && ListsOf(listing[r], rows, repoOf, r)
    ensures out.Some? ==> Gathered(out.value, repoIds, repos, rows, repoOf)
    ensures out.None? ==> exists r, k: nat :: r in repoIds && k * PAGE <= |listing[r]| && k * PAGE in broken(r)
  {
    hide Gathered;
    var got: seq<Entry<T>> := [];
    NothingGathered(repos, rows, repoOf);
    for i := 0 to |repoIds|
      invariant Gathered(got, repoIds[..i], repos, rows, repoOf)
    {
      var r := repoIds[i];
      assert ListsOf(listing[r], rows, repoOf, r);
      var page := CollectAll(Entries(listing[r], repos[r].name, rows), broken(r));
      if page.None? {
        return None;
      }
      GatherNext(got, repoIds[..i], r, listing[r], repos, rows, repoOf);
      assert repoIds[..i + 1] == repoIds[..i] + [r];
      got := got + page.value;
    }
    assert repoIds[..|repoIds|] == repoIds;
    return Some(got);
  }

  lemma NothingGathered<T>(repos: map<Id, Repo>, rows: map<Id, T>, repoOf: T -> Id)
    ensures Gathered([], [], repos, rows, repoOf)
  {
  }

  lemma FirstWithKey(es: seq<Entry<Asset>>, i: nat) returns (j: nat)
    requires i < |es|
    ensures First(es, j) && es[j].data.key == es[i].data.key
  {
    j := i;
    while !First(es, j)
      invariant j <= i && es[j].data.key == es[i].data.key
      decreases j
    {
      var k := j;
      j :| 0 <= j < k && es[j].data.key == es[k].data.key;
    }
  }

  /**
   With no key left out, the archive has every asset's bytes exactly when assets that share a key
   share their bytes.
   */
  lemma BlobsFaithful(es: seq<Entry<Asset>>, src: Instance, unreadable: set<(Id, Id)>, blobs: map<Id, Id>)
    requires ListsAll(es, src.assets) && Written(es, |es|, src.objects, unreadable, blobs) && blobs.Keys <= KeysOf(es)
    ensures OneContentPerKey(src) ==> BlobsOf(es, src, blobs)
    ensures BlobsOf(es, src, blobs) && KeysOf(es) <= blobs.Keys ==> OneContentPerKey(src)
  {
    if OneContentPerKey(src) {
      forall i | 0 <= i < |es| && es[i].data.key in blobs && Place(es[i].data) in src.objects
        ensures blobs[es[i].data.key] == src.objects[Place(es[i].data)]
      {
        var j := FirstWithKey(es, i);
        assert Carried(es[j].data, src.objects, unreadable, blobs);
      }
    }
    if BlobsOf(es, src, blobs) && KeysOf(es) <= blobs.Keys {
      forall a, b | a in src.assets && b in src.assets && src.assets[a].key == src.assets[b].key != ""
                    && Place(src.assets[a]) in src.objects && Place(src.assets[b]) in src.objects
        ensures src.objects[Place(src.assets[a])] == src.objects[Place(src.assets[b])]
      {
        var i :| 0 <= i < |es| && es[i].id == a;
        var j :| 0 <= j < |es| && es[j].id == b;
        assert es[i].data.key in KeysOf(es);
      }
    }
  }

  lemma AllGathered<T>(es: seq<Entry<T>>, repoIds: seq<Id>, repos: map<Id, Repo>, rows: map<Id, T>, repoOf: T -> Id)
    requires Gathered(es, repoIds, repos, rows, repoOf)
    requires forall id :: id in rows ==> repoOf(rows[id]) in repoIds
    ensures ListsAll(es, rows)
    ensures forall i :: 0 <= i < |es| ==> repoOf(es[i].data) in repos && es[i].owner == repos[repoOf(es[i].data)].name
  {
  }

  lemma AllListed<T>(ids: seq<Id>, rows: map<Id, T>)
    requires Distinct(ids) && forall id :: id in ids <==> id in rows
    ensures ListsAll(Entries(ids, "", rows), rows)
  {
    forall id | id in rows ensures exists i :: 0 <= i < |ids| && Entries(ids, "", rows)[i].id == id {
      var i :| 0 <= i < |ids| && ids[i] == id;
      assert Entries(ids, "", rows)[i].id == id;
    }
  }

  /**
   An export either fails on a page it could not read, or lists every row once. It reports no missing
   blob exactly when every key is in the archive, and is then faithful exactly when no two contents
   share a key.
   */
  method Export(src: Instance, order: Listing, unreadable: set<(Id, Id)>,
                brokenComponents: Id -> set<nat>, brokenAssets: Id -> set<nat>)
    returns (r: Option<Archive>, missing: nat)
    requires Lists(order, src) && Linked(src)
    ensures r.Some? ==> RowsOf(r.value, src) && (missing == 0 <==> Complete(r.value))
    ensures r.Some? && AllReadable(src, unreadable) ==> missing == 0
    ensures r.Some? && OneContentPerKey(src) ==> ArchiveOf(r.value, src)
    ensures r.Some? && missing == 0 && ArchiveOf(r.value, src) ==> OneContentPerKey(src)
    ensures r.None? ==> exists repo, k: nat :: k * PAGE in brokenComponents(repo) + brokenAssets(repo)
  {
    hide ListsAll, Gathered, Written, KeysOf, ListsOf, OneContentPerKey, BlobsOf, Complete, Lists, Linked, Distinct,
      AllReadable;
    missing := 0;
    ListedApart(order, src);
    var components := CollectOwned(order.repos, src.repos, order.components, src.components,
                                          RepoOfComponent, brokenComponents);
    if components.None? {
      ghost var repo, k: nat :| k * PAGE in brokenComponents(repo);
      assert k * PAGE in brokenComponents(repo) + brokenAssets(repo);
      return None, 0;
    }
    var assets := CollectOwned(order.repos, src.repos, order.assets, src.assets, RepoOfAsset, brokenAssets);
    if assets.None? {
      ghost var repo, k: nat :| k * PAGE in brokenAssets(repo);
      assert k * PAGE in brokenComponents(repo) + brokenAssets(repo);
      return None, 0;
    }
    var blobs;
    blobs, missing := WriteBlobs(assets.value, src.objects, unreadable);
    var a := Archive(Entries(order.stores, "", src.stores), Entries(order.repos, "", src.repos),
                     components.value, assets.value, blobs);
    ArchiveFaithful(a, src, order, unreadable);
    NoneMissing(a, missing);
    if AllReadable(src, unreadable) {
      ReadableIsWritten(assets.value, src, unreadable, blobs);
    }
    return Some(a), missing;
  }

  /** Every asset's bytes are there to be read. */
  ghost predicate AllReadable(src: Instance, unreadable: set<(Id, Id)>) {
    forall a :: a in src.assets && src.assets[a].key != "" ==>
      Place(src.assets[a]) in src.objects && Place(src.assets[a]) !in unreadable
  }

  lemma ReadableIsWritten(es: seq<Entry<Asset>>, src: Instance, unreadable: set<(Id, Id)>, blobs: map<Id, Id>)
    requires ListsAll(es, src.assets) && AllReadable(src, unreadable)
    requires Written(es, |es|, src.objects, unreadable, blobs)
    ensures KeysOf(es) <= blobs.Keys
  {
    forall k | k in KeysOf(es) ensures k in blobs {
      var i :| 0 <= i < |es| && es[i].data.key != "" && es[i].data.key == k;
      var j := FirstWithKey(es, i);
      assert Carried(es[j].data, src.objects, unreadable, blobs);
    }
  }

  /** Where one key has two contents, an export succeeds, misses nothing, and gives some asset another's bytes. */
  method SplitKeyIsArchivedWrong(src: Instance, order: Listing, a: Id, b: Id) returns (r: Option<Archive>, missing: nat)
    requires Lists(order, src) && Linked(src) && AllReadable(src, {})
    requires a in src.assets && b in src.assets && src.assets[a].key == src.assets[b].key != ""
    requires Place(src.assets[a]) in src.objects && Place(src.assets[b]) in src.objects
    requires src.objects[Place(src.assets[a])] != src.objects[Place(src.assets[b])]
    ensures r.Some? && missing == 0 && RowsOf(r.value, src)
    ensures exists i :: 0 <= i < |r.value.assets| && r.value.assets[i].data.key in r.value.blobs
                        && Place(r.value.assets[i].data) in src.objects
                        && r.value.blobs[r.value.assets[i].data.key] != src.objects[Place(r.value.assets[i].data)]
  {
    hide Lists, Linked, AllReadable, RowsOf, Complete;
    r, missing := Export(src, order, {}, _ => {}, _ => {});
    assert !OneContentPerKey(src);
  }

  lemma ListedApart(order: Listing, src: Instance)
    requires Lists(order, src) && Linked(src)
    ensures Distinct(order.repos)
    ensures forall r :: r in order.repos ==>
              && r in src.repos && r in order.components && r in order.assets
              && ListsOf(order.components[r], src.components, RepoOfComponent, r)
              && ListsOf(order.assets[r], src.assets, RepoOfAsset, r)
    ensures forall k :: 0 <= k < |order.stores| ==> order.stores[k] in src.stores
    ensures forall k :: 0 <= k < |order.repos| ==> order.repos[k] in src.repos
  {
  }

  lemma ArchiveFaithful(a: Archive, src: Instance, order: Listing, unreadable: set<(Id, Id)>)
    requires Lists(order, src) && Linked(src)
    requires forall k :: 0 <= k < |order.stores| ==> order.stores[k] in src.stores
    requires forall k :: 0 <= k < |order.repos| ==> order.repos[k] in src.repos
    requires a.stores == Entries(order.stores, "", src.stores) && a.repos == Entries(order.repos, "", src.repos)
    requires Gathered(a.components, order.repos, src.repos, src.components, RepoOfComponent)
    requires Gathered(a.assets, order.repos, src.repos, src.assets, RepoOfAsset)
    requires Written(a.assets, |a.assets|, src.objects, unreadable, a.blobs) && a.blobs.Keys <= KeysOf(a.assets)
    ensures RowsOf(a, src) && (OneContentPerKey(src) ==> ArchiveOf(a, src))
    ensures ArchiveOf(a, src) && KeysOf(a.assets) <= a.blobs.Keys ==> OneContentPerKey(src)
  {
    hide ListsAll, Gathered, Written, KeysOf, ListsOf, OneContentPerKey, BlobsOf, Entries;
    AllListed(order.stores, src.stores);
    AllListed(order.repos, src.repos);
    AllGathered(a.components, order.repos, src.repos, src.components, RepoOfComponent);
    AllGathered(a.assets, order.repos, src.repos, src.assets, RepoOfAsset);
    BlobsFaithful(a.assets, src, unreadable, a.blobs);
  }

  lemma NoneMissing(a: Archive, missing: nat)
    requires missing == |KeysOf(a.assets) - a.blobs.Keys|
    ensures missing == 0 <==> KeysOf(a.assets) <= a.blobs.Keys
    ensures missing == 0 <==> Complete(a)
  {
    var lost := KeysOf(a.assets) - a.blobs.Keys;
    assert missing == 0 <==> lost == {};
    assert forall k :: k in KeysOf(a.assets) ==> k in a.blobs.Keys || k in lost;
    forall i | 0 <= i < |a.assets| && a.assets[i].data.key != "" ensures a.assets[i].data.key in KeysOf(a.assets) {
    }
  }
}
