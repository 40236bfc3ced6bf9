/**
 What a restore makes of an instance that need not be empty: which archived rows it writes, which
 rows that were there it overwrites, and with what. The rules are stated on the archive and the
 tables, whatever order rows are found in; `BackupRestore` follows them.
 */
module RestoreRules {
  import opened Prelude
  import opened Backup

  // ---------------------------------------------------------------- which store

  predicate Before(a: string, b: string) {
    b != "" && (a == "" || a[0] < b[0] || (a[0] == b[0] && Before(a[1..], b[1..])))
  }

  lemma {:induction false} BeforeIsTransitive(a: string, b: string, c: string)
    requires Before(a, b) && Before(b, c)
    ensures Before(a, c)
  {
    if a != "" && a[0] == b[0] == c[0] {
      BeforeIsTransitive(a[1..], b[1..], c[1..]);
    }
  }

  lemma {:induction false} BeforeIsIrreflexive(a: string)
    ensures !Before(a, a)
  {
    if a != "" {
      BeforeIsIrreflexive(a[1..]);
    }
  }

  lemma {:induction false} BeforeIsTotal(a: string, b: string)
    ensures a == b || Before(a, b) || Before(b, a)
  {
    if a != "" && b != "" && a[0] == b[0] {
      BeforeIsTotal(a[1..], b[1..]);
      assert a == [a[0]] + a[1..] && b == [b[0]] + b[1..];
    }
  }

  ghost predicate Least(byName: map<Id, Id>, n: Id) {
    n in byName && forall m :: m in byName ==> !Before(m, n)
  }

  /** The store called "default", or the first by name, or none. */
  ghost function Fallback(byName: map<Id, Id>): Id {
    if "default" in byName then byName["default"]
    else if n :| Least(byName, n) then byName[n]
    else ""
  }

  lemma FallbackIs(byName: map<Id, Id>, n: Id)
    requires Least(byName, n) && "default" !in byName
    ensures Fallback(byName) == byName[n]
  {
    var m :| Least(byName, m) && Fallback(byName) == byName[m];
    BeforeIsTotal(n, m);
  }

  /** Where an archived asset of the store goes. */
  ghost function StoreOf(archived: Id, byName: map<Id, Id>, oldName: map<Id, Id>): Id {
    if archived in oldName && oldName[archived] in byName then byName[oldName[archived]] else Fallback(byName)
  }

  // ---------------------------------------------------------------- what is known of the tables

  /** The names looked up while a table is restored: the archived ones for which there is a row, whoever made it. */
  ghost predicate KnowsNames<T(!new)>(byName: map<Id, Id>, es: seq<Entry<T>>, n: nat, rows: map<Id, T>,
                               nameOf: T -> Id) {
    && (forall k :: k in byName ==> byName[k] in rows && nameOf(rows[byName[k]]) == k)
    && (forall k :: k in byName ==> exists i :: 0 <= i < n && i < |es| && nameOf(es[i].data) == k)
    && (forall i, r :: 0 <= i < n && i < |es| && r in rows && nameOf(rows[r]) == nameOf(es[i].data) ==>
            nameOf(es[i].data) in byName)
  }

  /** A row that is new has a name no earlier row has. */
  ghost predicate NewNames<T>(before: map<Id, T>, rows: map<Id, T>, nameOf: T -> Id) {
    forall r, t :: r in rows && r !in before && t in before ==> nameOf(before[t]) != nameOf(rows[r])
  }

  lemma NoNewNames<T>(rows: map<Id, T>, nameOf: T -> Id)
    ensures NewNames(rows, rows, nameOf)
  {
  }

  lemma OneMoreName<T>(before: map<Id, T>, rows: map<Id, T>, nameOf: T -> Id, id: Id, row: T)
    requires NewNames(before, rows, nameOf) && forall r :: r in before ==> r in rows && rows[r] == before[r]
    requires forall r :: r in rows ==> nameOf(rows[r]) != nameOf(row)
    ensures NewNames(before, rows[id := row], nameOf)
  {
  }

  /** The names the archive has for its stores. */
  ghost predicate OldNamesAre(es: seq<Entry<Store>>, oldName: map<Id, Id>) {
    && (forall i :: 0 <= i < |es| ==> es[i].id in oldName)
    && (forall id :: id in oldName ==> exists i :: 0 <= i < |es| && es[i].id == id && es[i].data.name == oldName[id])
  }

  lemma NoNamesYet<T(!new)>(es: seq<Entry<T>>, rows: map<Id, T>, nameOf: T -> Id)
    ensures KnowsNames(map[], es, 0, rows, nameOf)
  {
  }

  lemma NameExists<T(!new)>(byName: map<Id, Id>, es: seq<Entry<T>>, n: nat, rows: map<Id, T>, nameOf: T -> Id, id: Id)
    requires KnowsNames(byName, es, n, rows, nameOf) && n < |es| && id in rows && nameOf(rows[id]) == nameOf(es[n].data)
    ensures KnowsNames(byName[nameOf(rows[id]) := id], es, n + 1, rows, nameOf)
  {
  }

  lemma NameRefused<T(!new)>(byName: map<Id, Id>, es: seq<Entry<T>>, n: nat, rows: map<Id, T>, nameOf: T -> Id)
    requires KnowsNames(byName, es, n, rows, nameOf) && n < |es|
    requires forall r :: r in rows ==> nameOf(rows[r]) != nameOf(es[n].data)
    ensures KnowsNames(byName, es, n + 1, rows, nameOf)
  {
  }

  lemma NameAdded<T(!new)>(byName: map<Id, Id>, es: seq<Entry<T>>, n: nat, rows: map<Id, T>, nameOf: T -> Id,
                           id: Id, row: T)
    requires KnowsNames(byName, es, n, rows, nameOf) && n < |es| && id !in rows && nameOf(row) == nameOf(es[n].data)
    ensures KnowsNames(byName[nameOf(row) := id], es, n + 1, rows[id := row], nameOf)
  {
  }

  // ---------------------------------------------------------------- components

  /** An archived component is written: its repository is known and there, and nothing refuses it. */
  predicate ReleaseLands(e: Entry<Component>, repoByName: map<Id, Id>, refused: set<Id>, repos: map<Id, Repo>) {
    e.owner in repoByName && e.id !in refused && repoByName[e.owner] in repos
  }

  function ReleaseFor(e: Entry<Component>, repoByName: map<Id, Id>): Component
    requires e.owner in repoByName
  {
    e.data.(repo := repoByName[e.owner])
  }

  /** The last of the first `n` entries that is written to the release of `c`. */
  function LastRelease(es: seq<Entry<Component>>, n: nat, repoByName: map<Id, Id>, refused: set<Id>,
                       repos: map<Id, Repo>, c: Component): (last: Option<nat>)
    requires n <= |es|
    ensures last.None? ==> forall i :: 0 <= i < n && ReleaseLands(es[i], repoByName, refused, repos) ==>
                             !SameRelease(ReleaseFor(es[i], repoByName), c)
    ensures last.Some? ==>
              && last.value < n && ReleaseLands(es[last.value], repoByName, refused, repos)
              && SameRelease(ReleaseFor(es[last.value], repoByName), c)
              && forall i :: last.value < i < n && ReleaseLands(es[i], repoByName, refused, repos) ==>
                   !SameRelease(ReleaseFor(es[i], repoByName), c)
  {
    if n == 0 then None
    else if ReleaseLands(es[n - 1], repoByName, refused, repos) && SameRelease(ReleaseFor(es[n - 1], repoByName), c)
    then Some(n - 1)
    else LastRelease(es, n - 1, repoByName, refused, repos, c)
  }

  ghost predicate AloneRelease(rows: map<Id, Component>, c: Id) {
    c in rows && forall d :: d in rows && SameRelease(rows[d], rows[c]) ==> d == c
  }

  /**
   An earlier component of a release of its own is as it was exactly when no archived component of
   that release is written; otherwise it is the last one that is.
   */
  ghost predicate ReleasesDecided(before: map<Id, Component>, rows: map<Id, Component>, es: seq<Entry<Component>>,
                                  n: nat, repoByName: map<Id, Id>, refused: set<Id>, repos: map<Id, Repo>)
    requires n <= |es|
  {
    forall c :: AloneRelease(before, c) ==>
      && AloneRelease(rows, c)
      && rows[c] == match LastRelease(es, n, repoByName, refused, repos, before[c])
                    case None => before[c]
                    case Some(i) => ReleaseFor(es[i], repoByName)
  }

  /** Where an insert that replaces the row of the same release puts its row. */
  ghost predicate PlaceOfRelease(rows: map<Id, Component>, n: Id, row: Component) {
    if n in rows then SameRelease(rows[n], row) else forall c :: c in rows ==> !SameRelease(rows[c], row)
  }

  lemma ReleaseDecided(before: map<Id, Component>, rows: map<Id, Component>, es: seq<Entry<Component>>, i: nat,
                       repoByName: map<Id, Id>, refused: set<Id>, repos: map<Id, Repo>, n: Option<Id>)
    requires i < |es| && ReleasesDecided(before, rows, es, i, repoByName, refused, repos)
    requires n.Some? <==> ReleaseLands(es[i], repoByName, refused, repos)
    requires n.Some? ==> PlaceOfRelease(rows, n.value, ReleaseFor(es[i], repoByName))
    ensures ReleasesDecided(before, if n.Some? then rows[n.value := ReleaseFor(es[i], repoByName)] else rows, es, i + 1,
                            repoByName, refused, repos)
  {
  }

  /** The archived components that got a row, by their archived ids. */
  ghost predicate KnowsComponents(ids: map<Id, Id>, rows: map<Id, Component>, es: seq<Entry<Component>>, n: nat,
                                  repoByName: map<Id, Id>, refused: set<Id>, repos: map<Id, Repo>)
    requires n <= |es|
  {
    && (forall id :: id in ids ==> ids[id] in rows)
    && (forall id :: id in ids <==>
          exists i :: 0 <= i < n && ReleaseLands(es[i], repoByName, refused, repos) && es[i].id == id)
  }

  lemma ComponentKnown(ids: map<Id, Id>, rows: map<Id, Component>, es: seq<Entry<Component>>, i: nat,
                       repoByName: map<Id, Id>, refused: set<Id>, repos: map<Id, Repo>, n: Option<Id>)
    requires i < |es| && KnowsComponents(ids, rows, es, i, repoByName, refused, repos)
    requires n.Some? <==> ReleaseLands(es[i], repoByName, refused, repos)
    ensures n.Some? ==> KnowsComponents(ids[es[i].id := n.value], rows[n.value := ReleaseFor(es[i], repoByName)], es,
                                        i + 1, repoByName, refused, repos)
    ensures n.None? ==> KnowsComponents(ids, rows, es, i + 1, repoByName, refused, repos)
  {
  }

  // ---------------------------------------------------------------- assets and their objects

  /** What assets are restored against: the names and ids found before, the tables, and what fails. */
  datatype Setting = Setting(
    repoByName: map<Id, Id>,
    componentIds: map<Id, Id>,
    storeByName: map<Id, Id>,
    oldName: map<Id, Id>,
    refused: set<Id>,
    unwritable: set<Id>,
    blobs: map<Id, Id>,
    stores: map<Id, Store>,
    repos: map<Id, Repo>,
    components: map<Id, Component>)

  predicate AssetLinks(a: Asset, stores: map<Id, Store>, repos: map<Id, Repo>, components: map<Id, Component>) {
    a.repo in repos && a.component in components && a.store in stores
  }

  predicate Placed(e: Entry<Asset>, x: Setting) {
    e.owner in x.repoByName && e.data.component in x.componentIds
  }

  ghost function StoreFor(e: Entry<Asset>, x: Setting): Id {
    StoreOf(e.data.store, x.storeByName, x.oldName)
  }

  ghost function RowFor(e: Entry<Asset>, x: Setting): Asset
    requires Placed(e, x)
  {
    e.data.(repo := x.repoByName[e.owner], component := x.componentIds[e.data.component], store := StoreFor(e, x))
  }

  predicate HasBlob(e: Entry<Asset>, x: Setting) {
    e.data.key != "" && e.data.key in x.blobs
  }

  /** A group, or an unknown store, holds no bytes; with no store at all there is still the built-in one. */
  ghost predicate Writable(e: Entry<Asset>, x: Setting) {
    e.data.key !in x.unwritable
    && (StoreFor(e, x) == "" || (StoreFor(e, x) in x.stores && x.stores[StoreFor(e, x)].Physical?))
  }

  /** The archived bytes are written, whatever becomes of the row. */
  ghost predicate PutsBytes(e: Entry<Asset>, x: Setting) {
    Placed(e, x) && HasBlob(e, x) && Writable(e, x)
  }

  /**
   An archived asset is written: its links are there, its bytes are written if the archive has any,
   and nothing refuses it.
   */
  ghost predicate Lands(e: Entry<Asset>, x: Setting) {
    && Placed(e, x) && (HasBlob(e, x) ==> Writable(e, x))
    && e.id !in x.refused && AssetLinks(RowFor(e, x), x.stores, x.repos, x.components)
  }

  /** The last of the first `n` entries that is written to the path of `a`. */
  ghost function LastPath(es: seq<Entry<Asset>>, n: nat, x: Setting, a: Asset): (last: Option<nat>)
    requires n <= |es|
    ensures last.None? ==> forall i :: 0 <= i < n && Lands(es[i], x) ==> !SamePath(RowFor(es[i], x), a)
    ensures last.Some? ==>
              && last.value < n && Lands(es[last.value], x) && SamePath(RowFor(es[last.value], x), a)
              && forall i :: last.value < i < n && Lands(es[i], x) ==> !SamePath(RowFor(es[i], x), a)
  {
    if n == 0 then None
    else if Lands(es[n - 1], x) && SamePath(RowFor(es[n - 1], x), a) then Some(n - 1)
    else LastPath(es, n - 1, x, a)
  }

  ghost predicate AlonePath(rows: map<Id, Asset>, a: Id) {
    a in rows && forall b :: b in rows && SamePath(rows[b], rows[a]) ==> b == a
  }

  /**
   An earlier asset of a path of its own is as it was exactly when no archived asset of that path is
   written; otherwise it is the last one that is, but for the component, which stays.
   */
  ghost predicate PathsDecided(before: map<Id, Asset>, rows: map<Id, Asset>, es: seq<Entry<Asset>>, n: nat, x: Setting)
    requires n <= |es|
  {
    forall a :: AlonePath(before, a) ==>
      && AlonePath(rows, a)
      && rows[a] == match LastPath(es, n, x, before[a])
                    case None => before[a]
                    case Some(i) => RowFor(es[i], x).(component := before[a].component)
  }

  /** Some of the first `n` entries writes the place. */
  ghost predicate BytesPut(es: seq<Entry<Asset>>, n: nat, x: Setting, p: (Id, Id)) {
    exists i :: 0 <= i < n && i < |es| && PutsBytes(es[i], x) && (StoreFor(es[i], x), es[i].data.key) == p
  }

  /**
   The objects are those there were and those written; the latter hold what the archive has, the
   others what they held.
   */
  ghost predicate BytesDecided(before: map<(Id, Id), Id>, objects: map<(Id, Id), Id>, es: seq<Entry<Asset>>, n: nat,
                               x: Setting) {
    && (forall p :: p in objects <==> p in before || BytesPut(es, n, x, p))
    && (forall p :: p in objects ==>
          if BytesPut(es, n, x, p) then p.1 in x.blobs && objects[p] == x.blobs[p.1] else objects[p] == before[p])
  }

  /** A row written over another stays with that one's component. */
  function Upserted(row: Asset, rows: map<Id, Asset>, n: Id): Asset {
    if n in rows then row.(component := rows[n].component) else row
  }

  /** `n` is the row of the same path, or a new one if there is none. */
  ghost predicate PlaceOfRow(rows: map<Id, Asset>, n: Id, row: Asset) {
    if n in rows then SamePath(rows[n], row) else forall a :: a in rows ==> !SamePath(rows[a], row)
  }

  /** What restoring one entry does to the rows and the objects; `n` is the row it wrote, if any. */
  ghost predicate Stepped(e: Entry<Asset>, x: Setting, rows: map<Id, Asset>, objects: map<(Id, Id), Id>,
                          rows': map<Id, Asset>, objects': map<(Id, Id), Id>, n: Option<Id>) {
    && (n.Some? <==> Lands(e, x))
    && (n.Some? ==>
            PlaceOfRow(rows, n.value, RowFor(e, x)) && rows' == rows[n.value := Upserted(RowFor(e, x), rows, n.value)])
    && (n.None? ==> rows' == rows)
    && objects' == if PutsBytes(e, x) then objects[(StoreFor(e, x), e.data.key) := x.blobs[e.data.key]] else objects
  }

  lemma NothingDecided(rows: map<Id, Asset>, objects: map<(Id, Id), Id>, es: seq<Entry<Asset>>, x: Setting)
    ensures PathsDecided(rows, rows, es, 0, x) && BytesDecided(objects, objects, es, 0, x)
  {
  }

  lemma PathDecided(before: map<Id, Asset>, rows: map<Id, Asset>, es: seq<Entry<Asset>>, i: nat, x: Setting,
                    n: Option<Id>, rows': map<Id, Asset>)
    requires i < |es| && PathsDecided(before, rows, es, i, x) && (n.Some? <==> Lands(es[i], x))
    requires n.Some? ==> PlaceOfRow(rows, n.value, RowFor(es[i], x))
                         && rows' == rows[n.value := Upserted(RowFor(es[i], x), rows, n.value)]
    requires n.None? ==> rows' == rows
    ensures PathsDecided(before, rows', es, i + 1, x)
  {
    hide Lands, StoreFor;
  }

  lemma ByteDecided(before: map<(Id, Id), Id>, objects: map<(Id, Id), Id>, es: seq<Entry<Asset>>, i: nat, x: Setting)
    requires i < |es| && BytesDecided(before, objects, es, i, x)
    ensures var put := (StoreFor(es[i], x), es[i].data.key);
            BytesDecided(before, if PutsBytes(es[i], x) then objects[put := x.blobs[put.1]] else objects, es, i + 1, x)
  {
    hide Writable, Placed, StoreFor;
    forall p ensures BytesPut(es, i + 1, x, p) <==>
                       BytesPut(es, i, x, p) || (PutsBytes(es[i], x) && (StoreFor(es[i], x), es[i].data.key) == p)
    {
      if PutsBytes(es[i], x) && (StoreFor(es[i], x), es[i].data.key) == p {
        assert BytesPut(es, i + 1, x, p);
      }
    }
  }
}
