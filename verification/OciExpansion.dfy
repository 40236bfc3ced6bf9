/**
 The closure of a Docker/OCI image: which stored components must travel with a manifest for the
 target to hold a pullable image.
 */
module OciExpansion {
  import opened Prelude

  // ---------------------------------------------------------------- paths

  const MANIFEST_PREFIX := "/manifests/"
  const BLOB_PREFIX := "/blobs/"
  const MAX_INDEX_DEPTH := 4

  function ManifestPath(image: string, reference: string): string {
    MANIFEST_PREFIX + image + "/" + reference
  }

  function BlobPath(image: string, digest: string): string {
    BLOB_PREFIX + image + "/" + digest
  }

  /** Index of the last '/', or -1. */
  function LastSlash(s: string): (i: int)
    ensures -1 <= i < |s|
    ensures i >= 0 ==> s[i] == '/'
    ensures forall k :: i < k < |s| ==> s[k] != '/'
  {
    if s == "" then -1
    else if s[|s| - 1] == '/' then |s| - 1
    else LastSlash(s[..|s| - 1])
  }

  /** Splits "/manifests/<image>/<reference>"; the image may contain slashes, the reference never does. */
  function SplitManifestPath(p: string): (r: Option<(string, string)>)
    ensures r.Some? ==> p == ManifestPath(r.value.0, r.value.1) && r.value.0 != "" && r.value.1 != ""
                        && '/' !in r.value.1
  {
    if !(MANIFEST_PREFIX <= p) then None
    else
      var rest := p[|MANIFEST_PREFIX|..];
      var i := LastSlash(rest);
      if i <= 0 || i == |rest| - 1 then None else Some((rest[..i], rest[i + 1..]))
  }

  lemma SplitOfManifestPath(image: string, reference: string)
    requires image != "" && reference != "" && '/' !in reference
    ensures SplitManifestPath(ManifestPath(image, reference)) == Some((image, reference))
  {
    var p := ManifestPath(image, reference);
    var rest := p[|MANIFEST_PREFIX|..];
    assert rest == image + "/" + reference;
    var i := LastSlash(rest);
    assert rest[|image|] == '/';
    assert forall k :: |image| < k < |rest| ==> rest[k] == reference[k - |image| - 1];
    assert i == |image|;
    assert rest[..i] == image && rest[i + 1..] == reference;
  }

  lemma PathsApart(image: string, digest: string)
    ensures SplitManifestPath(BlobPath(image, digest)) == None
  {
    var p := BlobPath(image, digest);
    assert p[1] == 'b' && MANIFEST_PREFIX[1] == 'm';
  }

  predicate Alnum(c: char) { 'a' <= c <= 'z' || '0' <= c <= '9' }
  predicate Separator(c: char) { c == '+' || c == '.' || c == '_' || c == '-' }
  predicate Encoded(c: char) {
    'a' <= c <= 'z' || 'A' <= c <= 'Z' || '0' <= c <= '9' || c == '=' || c == '_' || c == '-'
  }

  /** The algorithm part: runs of alphanumerics joined by single separators. */
  predicate AlgorithmOk(s: string) {
    && s != "" && Alnum(s[0]) && Alnum(s[|s| - 1])
    && (forall i :: 0 <= i < |s| ==> Alnum(s[i]) || Separator(s[i]))
    && (forall i :: 0 < i < |s| ==> Alnum(s[i - 1]) || Alnum(s[i]))
  }

  /** The OCI digest grammar. */
  predicate ValidDigest(d: string) {
    exists i :: 0 < i < |d| - 1 && d[i] == ':' && AlgorithmOk(d[..i]) && forall k :: i < k < |d| ==> Encoded(d[k])
  }

  lemma DigestHasNoSlash(d: string)
    requires ValidDigest(d)
    ensures d != "" && '/' !in d
  {
    var i :| 0 < i < |d| - 1 && d[i] == ':' && AlgorithmOk(d[..i]) && forall k :: i < k < |d| ==> Encoded(d[k]);
    forall k | 0 <= k < |d| ensures d[k] != '/' {
      if k < i { assert d[..i][k] == d[k]; }
    }
  }

  // ---------------------------------------------------------------- the source repository

  datatype Descriptor = Descriptor(digest: string, foreign: bool)

  /** What a manifest names: config, layers, artifact blobs and fsLayers, and an index's children. */
  datatype Doc = Doc(config: Option<Descriptor>, layers: seq<Descriptor>, blobs: seq<Descriptor>,
                     fsLayers: seq<string>, manifests: seq<Descriptor>)

  /** Stored bytes, as far as expansion reads them: their SHA-256 and what they parse to, None when not JSON. */
  datatype Content = Content(sha256: string, doc: Option<Doc>)

  datatype Component = Component(group: string, name: string, version: string, extra: map<string, string>)

  /** A stored asset; `content` is None when its bytes are gone, unreadable or over the manifest cap. */
  datatype Asset = Asset(path: string, stored: bool, content: Option<Content>, component: Option<Component>)

  /** The assets of one repository by path, and the paths whose lookup fails. */
  datatype Source = Source(assets: map<string, Asset>, failing: set<string>)

  datatype Unit = Unit(component: Component, asset: Asset)

  datatype Refusal =
    | InvalidDigest(digest: string)
    | MissingBlob(path: string)
    | MissingManifest(path: string)
    | Unreadable(path: string)
    | NotJson(path: string)
    | LookupFailed(path: string)
    | ContentGone(path: string)
    | TooDeep(path: string)

  predicate SourceOk(src: Source) {
    forall p :: p in src.assets ==> src.assets[p].path == p
  }

  /** Every blob descriptor of a manifest, in the order expansion meets them. */
  function BlobsOf(doc: Doc): seq<Descriptor> {
    (if doc.config.Some? && doc.config.value.digest != "" then [doc.config.value] else [])
    + doc.layers + doc.blobs
    + seq(|doc.fsLayers|, i requires 0 <= i < |doc.fsLayers| => Descriptor(doc.fsLayers[i], false))
  }

  // ---------------------------------------------------------------- what a closed plan is

  ghost predicate InPlan(own: map<string, Asset>, units: seq<Unit>, a: Asset) {
    (a.path in own && own[a.path] == a) || exists u :: u in units && u.asset == a
  }

  ghost predicate Carries(own: map<string, Asset>, units: seq<Unit>, p: string) {
    p in own || exists u :: u in units && u.asset.path == p
  }

  predicate IsManifest(a: Asset) {
    SplitManifestPath(a.path).Some?
  }

  function ImageOf(a: Asset): string
    requires IsManifest(a)
  {
    SplitManifestPath(a.path).value.0
  }

  predicate Parsed(a: Asset) {
    a.content.Some? && a.content.value.doc.Some?
  }

  /** `m` names the blob stored at `p` by descriptor `d`. */
  predicate NamesBlob(m: Asset, d: Descriptor, p: string) {
    IsManifest(m) && Parsed(m) && d in BlobsOf(m.content.value.doc.value) && BlobPath(ImageOf(m), d.digest) == p
  }

  predicate NamesChild(m: Asset, p: string) {
    && IsManifest(m) && Parsed(m)
    && exists d :: d in m.content.value.doc.value.manifests && ManifestPath(ImageOf(m), d.digest) == p
  }

  /** A layer no registry holds: absent from the source, and some manifest of the plan gives urls for it. */
  ghost predicate ForeignLayer(src: Source, own: map<string, Asset>, units: seq<Unit>, p: string) {
    p !in src.assets && exists m, d :: InPlan(own, units, m) && NamesBlob(m, d, p) && d.foreign
  }

  /** A pullable image: every manifest in the plan parses, and all it names is in the plan too. */
  ghost predicate PlanClosed(src: Source, own: map<string, Asset>, units: seq<Unit>) {
    forall m :: InPlan(own, units, m) && IsManifest(m) ==>
      && Parsed(m)
      && (forall d :: d in BlobsOf(m.content.value.doc.value) ==>
            ValidDigest(d.digest)
            && (Carries(own, units, BlobPath(ImageOf(m), d.digest))
                || ForeignLayer(src, own, units, BlobPath(ImageOf(m), d.digest))))
      && (forall d :: d in m.content.value.doc.value.manifests ==>
            ValidDigest(d.digest) && Carries(own, units, ManifestPath(ImageOf(m), d.digest)))
  }

  /** What the source stores under the digest of one of the component's tags is that tag's content. */
  ghost predicate DigestsFaithful(src: Source, own: map<string, Asset>) {
    forall p, tag :: AliasOf(own, p, tag) ==>
      && '/' !in tag.content.value.sha256
      && (p in src.assets ==> src.assets[p].content == tag.content)
  }

  /** Manifests each naming the next, from one of the component's own down to `p`: too long a chain. */
  ghost predicate NestsTooDeep(src: Source, own: map<string, Asset>, p: string) {
    exists chain: seq<Asset> ::
      |chain| == MAX_INDEX_DEPTH + 1 && NestedChain(src, own, chain) && NamesChild(chain[|chain| - 1], p)
  }

  ghost predicate NestedChain(src: Source, own: map<string, Asset>, chain: seq<Asset>) {
    && chain != [] && chain[0].path in own && own[chain[0].path] == chain[0]
    && forall i :: 0 < i < |chain| ==>
         chain[i].path in src.assets && src.assets[chain[i].path] == chain[i] && NamesChild(chain[i - 1], chain[i].path)
  }

  /** Some manifest names `p` by a descriptor without urls. */
  ghost predicate NamedPlainly(src: Source, own: map<string, Asset>, p: string) {
    exists m, d :: Held(src, own, m) && NamesBlob(m, d, p) && !d.foreign
  }

  /** One of the component's own assets, or of the source's. */
  predicate Held(src: Source, own: map<string, Asset>, m: Asset) {
    (m.path in own && own[m.path] == m) || (m.path in src.assets && src.assets[m.path] == m)
  }

  /** A refusal names a real defect of the source. */
  ghost predicate Justified(src: Source, own: map<string, Asset>, r: Refusal) {
    match r
    case InvalidDigest(d) => !ValidDigest(d)
    case MissingBlob(p) => p !in src.assets && NamedPlainly(src, own, p)
    case MissingManifest(p) => p !in src.assets
    case Unreadable(p) => (p in own && own[p].content.None?) || (p in src.assets && src.assets[p].content.None?)
    case NotJson(p) => (p in own && !Parsed(own[p])) || (p in src.assets && !Parsed(src.assets[p]))
    case LookupFailed(p) => p in src.failing || (p in src.assets && src.assets[p].component.None?)
    case ContentGone(p) => p in src.assets && !src.assets[p].stored
    case TooDeep(p) => NestsTooDeep(src, own, p)
  }

  // ---------------------------------------------------------------- the state of an expansion

  predicate AliasOf(own: map<string, Asset>, p: string, tag: Asset) {
    && tag.path in own && own[tag.path] == tag && IsManifest(tag) && tag.content.Some?
    && p == ManifestPath(ImageOf(tag), "sha256:" + tag.content.value.sha256)
  }

  /** The alias of a tag: the tag's own bytes and metadata, filed under its digest. */
  function AliasUnit(tag: Asset, p: string): Unit
    requires tag.content.Some? && tag.component.Some?
  {
    Unit(tag.component.value.(version := "sha256:" + tag.content.value.sha256), tag.(path := p))
  }

  /** A unit is the source's row, or an alias made up for a tag that has no alias row. */
  predicate UnitOk(src: Source, aliases: map<string, Asset>, u: Unit) {
    var p := u.asset.path;
    || (p in src.assets && src.assets[p] == u.asset && u.asset.component == Some(u.component))
    || (p !in src.assets && p in aliases && aliases[p].content.Some? && aliases[p].component.Some?
          && u == AliasUnit(aliases[p], p))
  }

  /** Something before it asks for `p`: one of the component's tags for its alias, or a manifest that names it. */
  ghost predicate AskedFor(own: map<string, Asset>, earlier: seq<Unit>, p: string) {
    || (exists tag :: AliasOf(own, p, tag))
    || (exists m :: InPlan(own, earlier, m) && (NamesChild(m, p) || exists d :: NamesBlob(m, d, p)))
  }

  /** Nothing travels that the image does not need: each unit is asked for by the component or a unit before it. */
  ghost predicate NothingExtra(own: map<string, Asset>, units: seq<Unit>) {
    forall i :: 0 <= i < |units| ==> AskedFor(own, units[..i], units[i].asset.path)
  }

  lemma NothingExtraNext(own: map<string, Asset>, units: seq<Unit>, u: Unit)
    requires NothingExtra(own, units) && AskedFor(own, units, u.asset.path)
    ensures NothingExtra(own, units + [u])
  {
    hide AskedFor;
    var all := units + [u];
    forall i | 0 <= i < |all| ensures AskedFor(own, all[..i], all[i].asset.path) {
      if i < |units| {
        assert all[..i] == units[..i];
      } else {
        assert all[..i] == units;
      }
    }
  }

  lemma AsksForBlob(own: map<string, Asset>, units: seq<Unit>, m: Asset, d: Descriptor, p: string)
    requires InPlan(own, units, m) && NamesBlob(m, d, p)
    ensures AskedFor(own, units, p)
  {
  }

  lemma AsksForChild(own: map<string, Asset>, units: seq<Unit>, m: Asset, p: string)
    requires InPlan(own, units, m) && NamesChild(m, p)
    ensures AskedFor(own, units, p)
  {
  }

  /** What excused a foreign layer: the manifest and the descriptor that gave urls for it. */
  ghost predicate Excused(src: Source, own: map<string, Asset>, units: seq<Unit>, p: string, why: (Asset, Descriptor)) {
    p !in src.assets && SplitManifestPath(p).None? && why.1.foreign && InPlan(own, units, why.0)
         && NamesBlob(why.0, why.1, p)
  }

  ghost predicate PlanOk(src: Source, own: map<string, Asset>, seen: set<string>, units: seq<Unit>,
                         foreign: map<string, (Asset, Descriptor)>, aliases: map<string, Asset>)
  {
    && SourceOk(src) && (forall p :: p in own ==> own[p].path == p)
    && own.Keys <= seen && foreign.Keys <= seen && aliases.Keys <= seen
    && (forall p :: p in seen ==> Carries(own, units, p) || p in foreign)
    && (forall i, j :: 0 <= i < j < |units| ==> units[i].asset.path != units[j].asset.path)
    && (forall u :: u in units ==> u.asset.path in seen && u.asset.path !in own && u.asset.path !in foreign)
    && (forall u :: u in units ==> UnitOk(src, aliases, u))
    && (forall p :: p in foreign ==> Excused(src, own, units, p, foreign[p]))
    && (forall p :: p in aliases ==> p !in own && AliasOf(own, p, aliases[p]))
  }

  /** All that `m` names has been taken. */
  predicate ClosedAt(seen: set<string>, m: Asset) {
    IsManifest(m) ==>
      && Parsed(m)
      && (forall d :: d in BlobsOf(m.content.value.doc.value) ==>
            ValidDigest(d.digest) && BlobPath(ImageOf(m), d.digest) in seen)
      && (forall d :: d in m.content.value.doc.value.manifests ==>
            ValidDigest(d.digest) && ManifestPath(ImageOf(m), d.digest) in seen)
  }

  /** Everything but the manifests still being worked on (`open`) and the aliases is closed. */
  ghost predicate ClosedExcept(own: map<string, Asset>, seen: set<string>, units: seq<Unit>,
                               aliases: map<string, Asset>, open: set<string>)
  {
    && (forall p :: p in own && p !in open ==> ClosedAt(seen, own[p]))
    && (forall u :: u in units && u.asset.path !in open && u.asset.path !in aliases ==> ClosedAt(seen, u.asset))
  }

  lemma ClosedGrows(seen: set<string>, more: set<string>, m: Asset)
    requires ClosedAt(seen, m) && seen <= more
    ensures ClosedAt(more, m)
  {
    hide ManifestPath, BlobPath, ValidDigest, SplitManifestPath, BlobsOf;
  }

  lemma PlanGrows(src: Source, own: map<string, Asset>, units: seq<Unit>, u: Unit, p: string, why: (Asset, Descriptor))
    ensures Carries(own, units, p) ==> Carries(own, units + [u], p)
    ensures Excused(src, own, units, p, why) ==> Excused(src, own, units + [u], p, why)
    ensures Carries(own, units + [u], u.asset.path)
  {
    hide ManifestPath, BlobPath, ValidDigest, SplitManifestPath, NamesBlob, BlobsOf;
    assert forall v :: v in units + [u] <==> v in units || v == u;
    assert u in units + [u];
  }

  /** Appending a unit under a path not seen yet keeps the plan sound, whether a row or a made-up alias. */
  lemma AppendKeeps(src: Source, own: map<string, Asset>, seen: set<string>, units: seq<Unit>,
                    foreign: map<string, (Asset, Descriptor)>, aliases: map<string, Asset>,
                    more: map<string, Asset>, u: Unit)
    requires PlanOk(src, own, seen, units, foreign, aliases)
    requires u.asset.path !in seen && UnitOk(src, more, u)
    requires more == aliases || (u.asset.path in more && more == aliases[u.asset.path := more[u.asset.path]]
                                 && AliasOf(own, u.asset.path, more[u.asset.path]))
    ensures PlanOk(src, own, seen + {u.asset.path}, units + [u], foreign, more)
  {
    hide ManifestPath, BlobPath, ValidDigest, SplitManifestPath, AliasOf, Excused, Carries;
    var units' := units + [u];
    forall p | p in foreign ensures Excused(src, own, units', p, foreign[p]) {
      PlanGrows(src, own, units, u, p, foreign[p]);
    }
    forall p | p in seen + {u.asset.path} ensures Carries(own, units', p) || p in foreign {
      PlanGrows(src, own, units, u, p, (u.asset, Descriptor("", false)));
    }
    assert forall v :: v in units' <==> v in units || v == u;
  }

  lemma AppendClosed(own: map<string, Asset>, seen: set<string>, units: seq<Unit>, aliases: map<string, Asset>,
                     more: map<string, Asset>, open: set<string>, u: Unit)
    requires ClosedExcept(own, seen, units, aliases, open) && aliases.Keys <= more.Keys
    ensures ClosedExcept(own, seen + {u.asset.path}, units + [u], more, open + {u.asset.path})
  {
    hide ManifestPath, BlobPath, ValidDigest, SplitManifestPath, ClosedAt;
    var seen' := seen + {u.asset.path};
    forall p | p in own && p !in open ensures ClosedAt(seen', own[p]) {
      ClosedGrows(seen, seen', own[p]);
    }
    forall v | v in units + [u] && v.asset.path !in open + {u.asset.path} && v.asset.path !in more
      ensures ClosedAt(seen', v.asset)
    {
      assert v in units;
      ClosedGrows(seen, seen', v.asset);
    }
  }

  /** Excusing a foreign layer. */
  lemma ExcuseKeeps(src: Source, own: map<string, Asset>, seen: set<string>, units: seq<Unit>,
                    foreign: map<string, (Asset, Descriptor)>, aliases: map<string, Asset>,
                    p: string, why: (Asset, Descriptor))
    requires PlanOk(src, own, seen, units, foreign, aliases)
    requires p !in seen && Excused(src, own, units, p, why)
    ensures PlanOk(src, own, seen + {p}, units, foreign[p := why], aliases)
  {
    hide ManifestPath, BlobPath, ValidDigest, SplitManifestPath, NamesBlob, AliasOf, BlobsOf, Excused, UnitOk;
    forall q | q in seen + {p} ensures Carries(own, units, q) || q in foreign[p := why] {
      assert q in seen ==> Carries(own, units, q) || q in foreign;
    }
  }

  lemma ExcuseClosed(own: map<string, Asset>, seen: set<string>, units: seq<Unit>, aliases: map<string, Asset>,
                     open: set<string>, p: string)
    requires ClosedExcept(own, seen, units, aliases, open)
    ensures ClosedExcept(own, seen + {p}, units, aliases, open)
  {
    hide ManifestPath, BlobPath, ValidDigest, SplitManifestPath, ClosedAt;
    forall q | q in own && q !in open ensures ClosedAt(seen + {p}, own[q]) {
      ClosedGrows(seen, seen + {p}, own[q]);
    }
    forall u | u in units && u.asset.path !in open && u.asset.path !in aliases ensures ClosedAt(seen + {p}, u.asset) {
      ClosedGrows(seen, seen + {p}, u.asset);
    }
  }

  // ---------------------------------------------------------------- the expansion

  /** How far an expansion has got. */
  datatype Progress = Progress(seen: set<string>, units: seq<Unit>)

  function Looked(src: Source, p: string): Result<Option<Unit>, Refusal> {
    if p in src.failing then Err(LookupFailed(p))
    else if p !in src.assets then Ok(None)
    else if src.assets[p].component.None? then Err(LookupFailed(p))
    else if !src.assets[p].stored then Err(ContentGone(p))
    else Ok(Some(Unit(src.assets[p].component.value, src.assets[p])))
  }

  /** A blob descriptor: taken, excused when absent and foreign, or refused. */
  function WithBlob(src: Source, image: string, d: Descriptor, s: Progress): Result<Progress, Refusal> {
    var p := BlobPath(image, d.digest);
    if !ValidDigest(d.digest) then Err(InvalidDigest(d.digest))
    else if p in s.seen then Ok(s)
    else
      match Looked(src, p)
      case Err(e) => Err(e)
      case Ok(None) => if d.foreign then Ok(Progress(s.seen + {p}, s.units)) else Err(MissingBlob(p))
      case Ok(Some(u)) => Ok(Progress(s.seen + {p}, s.units + [u]))
  }

  function WithBlobs(src: Source, image: string, ds: seq<Descriptor>, s: Progress): Result<Progress, Refusal> {
    if ds == [] then Ok(s)
    else
      match WithBlob(src, image, ds[0], s)
      case Err(e) => Err(e)
      case Ok(s') => WithBlobs(src, image, ds[1..], s')
  }

  /** A child manifest and all below it. */
  function WithChild(src: Source, image: string, d: Descriptor, depth: nat, s: Progress): Result<Progress, Refusal>
    requires depth <= MAX_INDEX_DEPTH
    decreases MAX_INDEX_DEPTH - depth, 0, 0
  {
    var p := ManifestPath(image, d.digest);
    if !ValidDigest(d.digest) then Err(InvalidDigest(d.digest))
    else if p in s.seen then Ok(s)
    else if depth >= MAX_INDEX_DEPTH then Err(TooDeep(p))
    else
      match Looked(src, p)
      case Err(e) => Err(e)
      case Ok(None) => Err(MissingManifest(p))
      case Ok(Some(u)) =>
        if u.asset.content.None? then Err(Unreadable(p))
        else WithReferences(src, image, p, u.asset.content.value, depth + 1, Progress(s.seen + {p}, s.units + [u]))
  }

  function WithChildren(src: Source, image: string, ds: seq<Descriptor>, depth: nat, s: Progress): Result<Progress,
                        Refusal>
    requires depth <= MAX_INDEX_DEPTH
    decreases MAX_INDEX_DEPTH - depth, 1, |ds|
  {
    if ds == [] then Ok(s)
    else
      match WithChild(src, image, ds[0], depth, s)
      case Err(e) => Err(e)
      case Ok(s') => WithChildren(src, image, ds[1..], depth, s')
  }

  /** What the manifest at `p` names: its blobs, then its children. */
  function WithReferences(src: Source, image: string, p: string, content: Content, depth: nat,
                          s: Progress): Result<Progress, Refusal>
    requires depth <= MAX_INDEX_DEPTH
    decreases MAX_INDEX_DEPTH - depth, 2, 0
  {
    match content.doc
    case None => Err(NotJson(p))
    case Some(doc) =>
      match WithBlobs(src, image, BlobsOf(doc), s)
      case Err(e) => Err(e)
      case Ok(s') => WithChildren(src, image, doc.manifests, depth, s')
  }

  function WithAlias(src: Source, tag: Asset, digestRef: string, s: Progress): Result<Progress, Refusal>
    requires IsManifest(tag) && tag.component.Some?
  {
    var p := ManifestPath(ImageOf(tag), digestRef);
    if p in s.seen then Ok(s)
    else
      match Looked(src, p)
      case Err(e) => Err(e)
      case Ok(found) =>
        var u := if found.Some? then found.value else Unit(tag.component.value.(version := digestRef), tag.(path := p));
        Ok(Progress(s.seen + {p}, s.units + [u]))
  }

  /** One of the component's own assets. */
  function WithAsset(src: Source, a: Asset, s: Progress): Result<Progress, Refusal>
    requires a.component.Some?
  {
    if !IsManifest(a) then Ok(s)
    else if a.content.None? then Err(Unreadable(a.path))
    else
      var digestRef := "sha256:" + a.content.value.sha256;
      match (if SplitManifestPath(a.path).value.1 != digestRef then WithAlias(src, a, digestRef, s) else Ok(s))
      case Err(e) => Err(e)
      case Ok(s') => WithReferences(src, ImageOf(a), a.path, a.content.value, 0, s')
  }

  function WithAssets(src: Source, assets: seq<Asset>, s: Progress): Result<Progress, Refusal>
    requires forall a :: a in assets ==> a.component.Some?
  {
    if assets == [] then Ok(s)
    else
      match WithAsset(src, assets[0], s)
      case Err(e) => Err(e)
      case Ok(s') => WithAssets(src, assets[1..], s')
  }

  class ImageExpansion {
    const src: Source
    const own: map<string, Asset>
    var seen: set<string>
    var units: seq<Unit>
    /** Foreign layers, with the manifest and descriptor that excused each. */
    ghost var foreign: map<string, (Asset, Descriptor)>
    /** Digest aliases added for a tag; the tag's own expansion closes them. */
    ghost var aliases: map<string, Asset>

    ghost predicate Valid()
      reads this
    {
      PlanOk(src, own, seen, units, foreign, aliases) && NothingExtra(own, units)
    }

    ghost predicate Closed(open: set<string>)
      reads this
    {
      ClosedExcept(own, seen, units, aliases, open)
    }

    constructor (src: Source, own: map<string, Asset>)
      requires SourceOk(src) && forall p :: p in own ==> own[p].path == p
      ensures Valid() && Closed(own.Keys)
      ensures foreign == map[] && aliases == map[]
      ensures this.src == src && this.own == own && units == [] && seen == own.Keys
    {
      this.src, this.own := src, own;
      seen, units := own.Keys, [];
      foreign, aliases := map[], map[];
    }

    function At(): Progress
      reads this
    {
      Progress(seen, units)
    }

    /** The call went as `r` says. */
    predicate Did(r: Result<Progress, Refusal>, err: Option<Refusal>)
      reads this
    {
      match r
      case Ok(s) => err.None? && At() == s
      case Err(e) => err == Some(e)
    }

    /** Finds the asset stored at a path; Ok(None) only when there is no row. */
    method Lookup(p: string) returns (r: Result<Option<Unit>, Refusal>)
      requires SourceOk(src)
      ensures r.Err? ==> Justified(src, own, r.error)
      ensures r == Looked(src, p)
      ensures r == Ok(None) ==> p !in src.assets
      ensures r.Ok? && r.value.Some? ==> p in src.assets && r.value.value.asset == src.assets[p] && src.assets[p].stored
                                         && src.assets[p].component == Some(r.value.value.component)
    {
      if p in src.failing { return Err(LookupFailed(p)); }
      if p !in src.assets { return Ok(None); }
      var a := src.assets[p];
      if a.component.None? { return Err(LookupFailed(p)); }
      if !a.stored { return Err(ContentGone(p)); }
      return Ok(Some(Unit(a.component.value, a)));
    }

    /** The plan only grows. */
    twostate predicate Grown()
      reads this
    {
      old(seen) <= seen && old(units) <= units && old(aliases) == aliases
    }

    method Take(u: Unit, ghost open: set<string>)
      requires Valid() && Closed(open)
      requires u.asset.path !in seen && u.asset.path in src.assets && src.assets[u.asset.path] == u.asset
      requires u.asset.component == Some(u.component) && AskedFor(own, units, u.asset.path)
      modifies this
      ensures Valid() && Closed(open + {u.asset.path})
      ensures units == old(units) + [u] && seen == old(seen) + {u.asset.path} && aliases == old(aliases)
    {
      hide ManifestPath, BlobPath, ValidDigest, SplitManifestPath, PlanOk, ClosedExcept, NothingExtra, AskedFor;
      NothingExtraNext(own, units, u);
      AppendKeeps(src, own, seen, units, foreign, aliases, aliases, u);
      AppendClosed(own, seen, units, aliases, aliases, open, u);
      seen := seen + {u.asset.path};
      units := units + [u];
    }

    method AddBlob(m: Asset, d: Descriptor, ghost open: set<string>) returns (err: Option<Refusal>)
      requires Valid() && Closed(open)
      requires InPlan(own, units, m) && Held(src, own, m)
      requires IsManifest(m) && Parsed(m) && d in BlobsOf(m.content.value.doc.value)
      modifies this
      ensures Did(WithBlob(src, ImageOf(m), d, old(At())), err)
      ensures Valid() && Grown()
      ensures err.None? ==> Closed(open) && ValidDigest(d.digest) && BlobPath(ImageOf(m), d.digest) in seen
      ensures err.Some? ==> Justified(src, own, err.value)
    {
      hide ManifestPath, BlobPath, ValidDigest, SplitManifestPath, BlobsOf, NothingExtra, AskedFor;
      if !ValidDigest(d.digest) { return Some(InvalidDigest(d.digest)); }
      var p := BlobPath(ImageOf(m), d.digest);
      if p in seen { return None; }
      PathsApart(ImageOf(m), d.digest);
      var found := Lookup(p);
      match found {
        case Err(e) => return Some(e);
        case Ok(None) =>
          if d.foreign {
            assert Excused(src, own, units, p, (m, d));
            ExcuseKeeps(src, own, seen, units, foreign, aliases, p, (m, d));
            ExcuseClosed(own, seen, units, aliases, open, p);
            seen := seen + {p};
            foreign := foreign[p := (m, d)];
            return None;
          }
          assert NamedPlainly(src, own, p);
          return Some(MissingBlob(p));
        case Ok(Some(u)) =>
          AsksForBlob(own, units, m, d, p);
          Take(u, open);
          BlobClosed(own, seen, units, aliases, open, u.asset);
          return None;
      }
    }

    method AddChildManifest(m: Asset, d: Descriptor, depth: nat, ghost open: set<string>, ghost chain: seq<Asset>)
      returns (err: Option<Refusal>)
      requires Valid() && Closed(open)
      requires InPlan(own, units, m) && IsManifest(m) && Parsed(m) && d in m.content.value.doc.value.manifests
      requires depth <= MAX_INDEX_DEPTH && |chain| == depth + 1 && NestedChain(src, own, chain) && chain[depth] == m
      modifies this
      ensures Did(WithChild(src, ImageOf(m), d, depth, old(At())), err)
      ensures Valid() && Grown()
      ensures err.None? ==> Closed(open) && ValidDigest(d.digest) && ManifestPath(ImageOf(m), d.digest) in seen
      ensures err.Some? ==> Justified(src, own, err.value)
      decreases MAX_INDEX_DEPTH - depth, 0
    {
      hide ManifestPath, BlobPath, ValidDigest, SplitManifestPath, BlobsOf, PlanOk, NothingExtra, AskedFor;
      if !ValidDigest(d.digest) { return Some(InvalidDigest(d.digest)); }
      var p := ManifestPath(ImageOf(m), d.digest);
      if p in seen { return None; }
      assert NamesChild(m, p);
      if depth >= MAX_INDEX_DEPTH { return Some(TooDeep(p)); }
      assert SourceOk(src) by { PlanHasSource(src, own, seen, units, foreign, aliases); }
      var found := Lookup(p);
      if found.Err? { return Some(found.error); }
      if found.value.None? { return Some(MissingManifest(p)); }
      var u := found.value.value;
      AsksForChild(own, units, m, p);
      Take(u, open);
      if u.asset.content.None? { return Some(Unreadable(p)); }
      DigestHasNoSlash(d.digest);
      SplitOfManifestPath(ImageOf(m), d.digest);
      assert u in units;
      err := AddReferences(u.asset, depth + 1, open + {p}, chain + [u.asset]);
      if err.None? {
        CloseOne(src, own, seen, units, foreign, aliases, open, u);
      }
    }

    method AddReferences(m: Asset, depth: nat, ghost open: set<string>, ghost chain: seq<Asset>)
      returns (err: Option<Refusal>)
      requires Valid() && Closed(open)
      requires InPlan(own, units, m) && IsManifest(m) && m.content.Some?
      requires depth <= MAX_INDEX_DEPTH && |chain| == depth + 1 && NestedChain(src, own, chain) && chain[depth] == m
      modifies this
      ensures Did(WithReferences(src, ImageOf(m), m.path, m.content.value, depth, old(At())), err)
      ensures Valid() && Grown()
      ensures err.None? ==> Closed(open) && ClosedAt(seen, m)
      ensures err.Some? ==> Justified(src, own, err.value)
      decreases MAX_INDEX_DEPTH - depth, 1
    {
      hide ManifestPath, BlobPath, ValidDigest, SplitManifestPath, BlobsOf, PlanOk, ClosedExcept, NothingExtra;
      if m.content.value.doc.None? {
        ChainIsStored(src, own, chain);
        return Some(NotJson(m.path));
      }
      ChainIsStored(src, own, chain);
      var doc := m.content.value.doc.value;
      var blobs := BlobsOf(doc);
      assert blobs[0..] == blobs;
      for i := 0 to |blobs|
        invariant WithBlobs(src, ImageOf(m), blobs[i..], At()) == WithBlobs(src, ImageOf(m), blobs, old(At()))
        invariant Valid() && Grown() && Closed(open) && InPlan(own, units, m)
        invariant forall k :: 0 <= k < i ==>
                  ValidDigest(blobs[k].digest) && BlobPath(ImageOf(m), blobs[k].digest) in seen
      {
        assert blobs[i..][0] == blobs[i] && blobs[i..][1..] == blobs[i + 1..];
        err := AddBlob(m, blobs[i], open);
        if err.Some? { return; }
      }
      assert WithBlobs(src, ImageOf(m), blobs, old(At())) == Ok(At());
      ghost var taken := At();
      assert doc.manifests[0..] == doc.manifests;
      for i := 0 to |doc.manifests|
        invariant WithChildren(src, ImageOf(m), doc.manifests[i..], depth, At())
                  == WithChildren(src, ImageOf(m), doc.manifests, depth, taken)
        invariant Valid() && Grown() && Closed(open) && InPlan(own, units, m)
        invariant forall k :: 0 <= k < |blobs| ==>
                  ValidDigest(blobs[k].digest) && BlobPath(ImageOf(m), blobs[k].digest) in seen
        invariant forall k :: 0 <= k < i ==>
                    ValidDigest(doc.manifests[k].digest) && ManifestPath(ImageOf(m), doc.manifests[k].digest) in seen
      {
        assert doc.manifests[i..][0] == doc.manifests[i] && doc.manifests[i..][1..] == doc.manifests[i + 1..];
        err := AddChildManifest(m, doc.manifests[i], depth, open, chain);
        if err.Some? { return; }
      }
      err := None;
    }

    /** Brings a tag's by-digest path along; the target gets one even when the source has none. */
    method AddAlias(tag: Asset, digestRef: string, ghost open: set<string>) returns (err: Option<Refusal>)
      requires Valid() && Closed(open)
      requires tag.path in own && own[tag.path] == tag && IsManifest(tag) && tag.content.Some? && tag.component.Some?
      requires digestRef == "sha256:" + tag.content.value.sha256
      modifies this
      ensures Did(WithAlias(src, tag, digestRef, old(At())), err)
      ensures Valid() && old(seen) <= seen
      ensures err.None? ==> Closed(open) && ManifestPath(ImageOf(tag), digestRef) in seen
      ensures err.Some? ==> Justified(src, own, err.value)
    {
      hide ManifestPath, BlobPath, ValidDigest, SplitManifestPath, BlobsOf, PlanOk, ClosedExcept, NothingExtra;
      var p := ManifestPath(ImageOf(tag), digestRef);
      if p in seen { return None; }
      assert SourceOk(src) by { PlanHasSource(src, own, seen, units, foreign, aliases); }
      var found := Lookup(p);
      if found.Err? { return Some(found.error); }
      var u := if found.value.Some? then found.value.value
               else Unit(tag.component.value.(version := digestRef), tag.(path := p));
      ghost var more := aliases[p := tag];
      assert AliasOf(own, p, tag) && AskedFor(own, units, p);
      NothingExtraNext(own, units, u);
      AppendKeeps(src, own, seen, units, foreign, aliases, more, u);
      AppendClosed(own, seen, units, aliases, more, open, u);
      OwnIsSeen(src, own, seen, units, foreign, aliases);
      AliasClosed(own, seen + {p}, units + [u], more, open, p);
      seen := seen + {p};
      units := units + [u];
      aliases := more;
      return None;
    }
  }

  lemma PlanHasSource(src: Source, own: map<string, Asset>, seen: set<string>, units: seq<Unit>,
                      foreign: map<string, (Asset, Descriptor)>, aliases: map<string, Asset>)
    requires PlanOk(src, own, seen, units, foreign, aliases)
    ensures SourceOk(src) && forall p :: p in own ==> own[p].path == p
  {
  }

  /** A unit that is no manifest is closed by itself. */
  lemma BlobClosed(own: map<string, Asset>, seen: set<string>, units: seq<Unit>, aliases: map<string, Asset>,
                   open: set<string>, a: Asset)
    requires ClosedExcept(own, seen, units, aliases, open + {a.path})
    requires !IsManifest(a) && a.path !in own && forall u :: u in units && u.asset.path == a.path ==> u.asset == a
    ensures ClosedExcept(own, seen, units, aliases, open)
  {
    hide ManifestPath, BlobPath, ValidDigest, SplitManifestPath, BlobsOf;
  }

  /** Once all it names is taken, a manifest is no longer open. */
  lemma CloseOne(src: Source, own: map<string, Asset>, seen: set<string>, units: seq<Unit>,
                 foreign: map<string, (Asset, Descriptor)>, aliases: map<string, Asset>, open: set<string>, u: Unit)
    requires PlanOk(src, own, seen, units, foreign, aliases)
    requires u in units && ClosedExcept(own, seen, units, aliases, open + {u.asset.path}) && ClosedAt(seen, u.asset)
    ensures ClosedExcept(own, seen, units, aliases, open)
  {
    hide ManifestPath, BlobPath, ValidDigest, SplitManifestPath, BlobsOf, ClosedAt;
    forall v | v in units && v.asset.path == u.asset.path ensures v == u {
    }
  }

  lemma AliasClosed(own: map<string, Asset>, seen: set<string>, units: seq<Unit>, aliases: map<string, Asset>,
                    open: set<string>, p: string)
    requires ClosedExcept(own, seen, units, aliases, open + {p}) && p in aliases && p !in own
    ensures ClosedExcept(own, seen, units, aliases, open)
  {
    hide ManifestPath, BlobPath, ValidDigest, SplitManifestPath, BlobsOf, ClosedAt;
  }

  lemma ChainIsStored(src: Source, own: map<string, Asset>, chain: seq<Asset>)
    requires NestedChain(src, own, chain)
    ensures Held(src, own, chain[|chain| - 1])
  {
    hide ManifestPath, BlobPath, ValidDigest, SplitManifestPath, NamesChild;
  }

  /** What the finished expansion promises, in terms of its results only. */
  lemma ExpansionCloses(src: Source, own: map<string, Asset>, seen: set<string>, units: seq<Unit>,
                        foreign: map<string, (Asset, Descriptor)>, aliases: map<string, Asset>)
    requires PlanOk(src, own, seen, units, foreign, aliases) && ClosedExcept(own, seen, units, aliases, {})
    requires DigestsFaithful(src, own)
    ensures PlanClosed(src, own, units)
  {
    hide ManifestPath, BlobPath, ValidDigest, SplitManifestPath, BlobsOf;
    forall m | InPlan(own, units, m) && IsManifest(m) ensures ClosedAt(seen, m) {
      if !(m.path in own && own[m.path] == m) {
        var u :| u in units && u.asset == m;
        if m.path in aliases {
          AliasIsTag(src, own, seen, units, foreign, aliases, u);
        }
      }
    }
    forall p | p in seen ensures Carries(own, units, p) || ForeignLayer(src, own, units, p) {
      if p in foreign {
        assert Excused(src, own, units, p, foreign[p]);
      }
    }
    forall m, d | InPlan(own, units, m) && IsManifest(m) && Parsed(m) && d in m.content.value.doc.value.manifests
      ensures ValidDigest(d.digest) && Carries(own, units, ManifestPath(ImageOf(m), d.digest))
    {
      assert ClosedAt(seen, m);
      DigestHasNoSlash(d.digest);
      SplitOfManifestPath(ImageOf(m), d.digest);
    }
  }

  /** An alias holds its tag's bytes, so what closes the tag closes the alias. */
  lemma AliasIsTag(src: Source, own: map<string, Asset>, seen: set<string>, units: seq<Unit>,
                   foreign: map<string, (Asset, Descriptor)>, aliases: map<string, Asset>, u: Unit)
    requires PlanOk(src, own, seen, units, foreign, aliases) && ClosedExcept(own, seen, units, aliases, {})
    requires DigestsFaithful(src, own)
    requires u in units && u.asset.path in aliases
    ensures ClosedAt(seen, u.asset)
  {
    hide ManifestPath, BlobPath, ValidDigest, SplitManifestPath, BlobsOf, Excused, Carries;
    var p := u.asset.path;
    var tag := aliases[p];
    assert AliasOf(own, p, tag) && ClosedAt(seen, own[tag.path]);
    var h := tag.content.value.sha256;
    assert '/' !in "sha256:" + h;
    SplitOfManifestPath(ImageOf(tag), "sha256:" + h);
    assert UnitOk(src, aliases, u);
    assert u.asset.content == tag.content;
  }

  /** No path twice, and none of the component's own. */
  predicate UnitsApart(own: map<string, Asset>, units: seq<Unit>) {
    && (forall i, j :: 0 <= i < j < |units| ==> units[i].asset.path != units[j].asset.path)
    && (forall u :: u in units ==> u.asset.path !in own)
  }

  /** A unit is a source row with its component, or the alias of one of the component's tags. */
  ghost predicate Genuine(src: Source, own: map<string, Asset>, units: seq<Unit>) {
    forall u :: u in units ==>
      || (u.asset.path in src.assets && src.assets[u.asset.path] == u.asset && u.asset.component == Some(u.component))
      || (u.asset.path !in src.assets
          && exists tag :: AliasOf(own, u.asset.path, tag) && tag.component.Some? && u == AliasUnit(tag, u.asset.path))
  }

  /** Every manifest of the component is in the plan under its digest too. */
  ghost predicate AliasesCarried(own: map<string, Asset>, units: seq<Unit>, assets: seq<Asset>) {
    forall a :: a in assets && IsManifest(a) ==>
      a.content.Some?
      && ('/' !in a.content.value.sha256 ==>
            Carries(own, units, ManifestPath(ImageOf(a), "sha256:" + a.content.value.sha256)))
  }

  function PathsFrom(assets: seq<Asset>, i: nat): set<string>
    requires i <= |assets|
  {
    set a | a in assets[i..] :: a.path
  }

  lemma PathsStep(assets: seq<Asset>, i: nat)
    requires i < |assets|
    ensures PathsFrom(assets, i) == PathsFrom(assets, i + 1) + {assets[i].path}
  {
    assert assets[i..] == [assets[i]] + assets[i + 1..];
  }

  lemma PathsOfOwn(own: map<string, Asset>, assets: seq<Asset>)
    requires forall a :: a in assets ==> a.path in own && own[a.path] == a
    requires forall p :: p in own ==> own[p] in assets && own[p].path == p
    ensures PathsFrom(assets, 0) == own.Keys && PathsFrom(assets, |assets|) == {}
  {
    assert assets[0..] == assets;
  }

  predicate DistinctPaths(assets: seq<Asset>) {
    forall i, j :: 0 <= i < j < |assets| ==> assets[i].path != assets[j].path
  }

  /** What an expansion comes to. */
  function Expansion(src: Source, assets: seq<Asset>): Result<seq<Unit>, Refusal>
    requires forall a :: a in assets ==> a.component.Some?
  {
    match WithAssets(src, assets, Progress(set a | a in assets :: a.path, []))
    case Ok(s) => Ok(s.units)
    case Err(e) => Err(e)
  }

  /**
   The components that must travel with a component: nothing for another format, otherwise the
   closure of every manifest among its assets. Reading only: a refusal names a real defect, and
   a plan never lists a path twice or repeats one of the component's own.
   */
  method ExpandImage(src: Source, isOci: bool, assets: seq<Asset>) returns (r: Result<seq<Unit>, Refusal>)
    requires SourceOk(src) && DistinctPaths(assets)
    requires forall a :: a in assets ==> a.component.Some?
    ensures !isOci ==> r == Ok([])
    ensures isOci ==> r == Expansion(src, assets)
    ensures isOci && r.Ok? && DigestsFaithful(src, OwnAssets(assets)) ==> PlanClosed(src, OwnAssets(assets), r.value)
    ensures r.Ok? ==> UnitsApart(OwnAssets(assets), r.value)
    ensures isOci && r.Ok? ==> AliasesCarried(OwnAssets(assets), r.value, assets)
    ensures r.Ok? ==> NothingExtra(OwnAssets(assets), r.value) && Genuine(src, OwnAssets(assets), r.value)
    ensures r.Err? ==> Justified(src, OwnAssets(assets), r.error)
  {
    hide ManifestPath, BlobPath, ValidDigest, SplitManifestPath, PlanClosed, DigestsFaithful, AliasesCarried,
      Justified, AskedFor;
    if !isOci { return Ok([]); }
    assert OwnAssets(assets).Keys == set a | a in assets :: a.path;
    r := ExpandAll(src, OwnAssets(assets), assets);
  }

  method ExpandAll(src: Source, own: map<string, Asset>, assets: seq<Asset>) returns (r: Result<seq<Unit>, Refusal>)
    requires SourceOk(src) && (forall a :: a in assets ==> a.component.Some?)
    requires forall a :: a in assets ==> a.path in own && own[a.path] == a
    requires forall p :: p in own ==> own[p] in assets && own[p].path == p
    ensures match WithAssets(src, assets, Progress(own.Keys, []))
            case Ok(s) => r == Ok(s.units)
            case Err(e) => r == Err(e)
    ensures r.Ok? && DigestsFaithful(src, own) ==> PlanClosed(src, own, r.value)
    ensures r.Ok? ==> UnitsApart(own, r.value) && AliasesCarried(own, r.value, assets)
    ensures r.Ok? ==> NothingExtra(own, r.value) && Genuine(src, own, r.value)
    ensures r.Err? ==> Justified(src, own, r.error)
  {
    hide ManifestPath, BlobPath, ValidDigest, SplitManifestPath, BlobsOf, PlanOk, ClosedExcept, DigestsFaithful,
      PlanClosed, AliasTaken, Justified, Carries,
         NothingExtra, Genuine, AliasesCarried, UnitsApart, IsManifest, SourceOk, PathsFrom;
    var x := new ImageExpansion(src, own);
    PathsOfOwn(own, assets);
    assert assets[0..] == assets;
    for i := 0 to |assets|
      invariant fresh(x) && x.src == src && x.own == own && x.Valid()
      invariant WithAssets(src, assets[i..], x.At()) == WithAssets(src, assets, Progress(own.Keys, []))
      invariant x.Closed(PathsFrom(assets, i))
      invariant forall k :: 0 <= k < i ==> AliasTaken(x.seen, assets[k])
    {
      ghost var rest := PathsFrom(assets, i + 1);
      PathsStep(assets, i);
      ghost var before := x.seen;
      assert assets[i..][0] == assets[i] && assets[i..][1..] == assets[i + 1..];
      var err := ExpandOne(x, assets[i], rest);
      if err.Some? { return Err(err.value); }
      AliasesStay(before, x.seen, assets, i);
    }
    if DigestsFaithful(src, own) {
      ExpansionCloses(src, own, x.seen, x.units, x.foreign, x.aliases);
    }
    FinishedPlan(src, own, x.seen, x.units, x.foreign, x.aliases);
    TakenAreCarried(own, x.seen, x.units, assets);
    return Ok(x.units);
  }

  predicate AliasTaken(seen: set<string>, a: Asset) {
    IsManifest(a) ==> a.content.Some? && ManifestPath(ImageOf(a), "sha256:" + a.content.value.sha256) in seen
  }

  lemma AliasesStay(seen: set<string>, more: set<string>, assets: seq<Asset>, n: nat)
    requires n <= |assets| && seen <= more && forall k :: 0 <= k < n ==> AliasTaken(seen, assets[k])
    ensures forall k :: 0 <= k < n ==> AliasTaken(more, assets[k])
  {
    hide ManifestPath, SplitManifestPath;
  }

  lemma TakenAreCarried(own: map<string, Asset>, seen: set<string>, units: seq<Unit>, assets: seq<Asset>)
    requires forall k :: 0 <= k < |assets| ==> AliasTaken(seen, assets[k])
    requires forall p :: p in seen && SplitManifestPath(p).Some? ==> Carries(own, units, p)
    ensures AliasesCarried(own, units, assets)
  {
    hide ManifestPath, SplitManifestPath, Carries;
    forall a | a in assets && IsManifest(a)
      ensures a.content.Some?
              && ('/' !in a.content.value.sha256 ==>
                    Carries(own, units, ManifestPath(ImageOf(a), "sha256:" + a.content.value.sha256)))
    {
      assert AliasTaken(seen, a);
      if '/' !in a.content.value.sha256 {
        SplitOfManifestPath(ImageOf(a), "sha256:" + a.content.value.sha256);
      }
    }
  }

  /** One of the component's own assets: a manifest brings its alias and its references along. */
  method ExpandOne(x: ImageExpansion, a: Asset, ghost rest: set<string>) returns (err: Option<Refusal>)
    requires x.Valid() && x.Closed(rest + {a.path})
    requires a.path in x.own && x.own[a.path] == a && a.component.Some?
    modifies x
    ensures x.Did(WithAsset(x.src, a, old(x.At())), err)
    ensures x.Valid() && old(x.seen) <= x.seen
    ensures err.None? ==> x.Closed(rest) && AliasTaken(x.seen, a)
    ensures err.Some? ==> Justified(x.src, x.own, err.value)
  {
    hide ManifestPath, BlobPath, ValidDigest, SplitManifestPath, BlobsOf, PlanOk, ClosedExcept, NamesChild,
      NothingExtra;
    PlanHasSource(x.src, x.own, x.seen, x.units, x.foreign, x.aliases);
    OwnIsSeen(x.src, x.own, x.seen, x.units, x.foreign, x.aliases);
    if IsManifest(a) {
      if a.content.None? { return Some(Unreadable(a.path)); }
      var digestRef := "sha256:" + a.content.value.sha256;
      if SplitManifestPath(a.path).value.1 != digestRef {
        err := x.AddAlias(a, digestRef, rest + {a.path});
        if err.Some? { return; }
      } else {
        assert ManifestPath(ImageOf(a), digestRef) == a.path;
      }
      assert NestedChain(x.src, x.own, [a]);
      err := x.AddReferences(a, 0, rest + {a.path}, [a]);
      if err.Some? { return; }
    }
    FinishedPlan(x.src, x.own, x.seen, x.units, x.foreign, x.aliases);
    CloseOwn(x.own, x.seen, x.units, x.aliases, rest, a);
    err := None;
  }

  lemma OwnIsSeen(src: Source, own: map<string, Asset>, seen: set<string>, units: seq<Unit>,
                  foreign: map<string, (Asset, Descriptor)>, aliases: map<string, Asset>)
    requires PlanOk(src, own, seen, units, foreign, aliases)
    ensures own.Keys <= seen
  {
  }

  lemma CloseOwn(own: map<string, Asset>, seen: set<string>, units: seq<Unit>, aliases: map<string, Asset>,
                 rest: set<string>, a: Asset)
    requires ClosedExcept(own, seen, units, aliases, rest + {a.path}) && a.path in own && own[a.path] == a
    requires ClosedAt(seen, a) && forall u :: u in units ==> u.asset.path !in own
    ensures ClosedExcept(own, seen, units, aliases, rest)
  {
    hide ManifestPath, BlobPath, ValidDigest, SplitManifestPath, BlobsOf, ClosedAt;
  }

  lemma FinishedPlan(src: Source, own: map<string, Asset>, seen: set<string>, units: seq<Unit>,
                     foreign: map<string, (Asset, Descriptor)>, aliases: map<string, Asset>)
    requires PlanOk(src, own, seen, units, foreign, aliases)
    ensures UnitsApart(own, units) && Genuine(src, own, units)
    ensures forall p :: p in seen && SplitManifestPath(p).Some? ==> Carries(own, units, p)
  {
    hide ManifestPath, BlobPath, ValidDigest, SplitManifestPath, BlobsOf;
  }

  /** A component's assets by path. */
  function OwnAssets(assets: seq<Asset>): (m: map<string, Asset>)
    requires DistinctPaths(assets)
    ensures forall a :: a in assets ==> a.path in m && m[a.path] == a
    ensures forall p :: p in m ==> m[p] in assets && m[p].path == p
  {
    if assets == [] then map[] else OwnAssets(assets[1..])[assets[0].path := assets[0]]
  }

  // ---------------------------------------------------------------- layers no registry holds

  /**
   In a plan an expansion returned, a blob some manifest names is carried exactly when it is stored at
   all; and one that is not carried is given urls by some manifest of the plan, though not
   necessarily by every manifest that names it.
   */
  lemma BlobCarriedExactly(src: Source, own: map<string, Asset>, units: seq<Unit>, m: Asset, d: Descriptor, p: string)
    requires PlanClosed(src, own, units) && Genuine(src, own, units)
    requires InPlan(own, units, m) && NamesBlob(m, d, p)
    ensures Carries(own, units, p) <==> p in own || p in src.assets
    ensures !Carries(own, units, p) ==> exists n, e :: InPlan(own, units, n) && NamesBlob(n, e, p) && e.foreign
  {
    hide SplitManifestPath, ValidDigest, BlobsOf;
    if Carries(own, units, p) && p !in own {
      var u :| u in units && u.asset.path == p;
      BlobIsNoAlias(own, p, ImageOf(m), d.digest);
    }
  }

  lemma BlobIsNoAlias(own: map<string, Asset>, p: string, image: string, digest: string)
    requires p == BlobPath(image, digest)
    ensures forall tag :: !AliasOf(own, p, tag)
  {
    forall tag: Asset | IsManifest(tag) && tag.content.Some? ensures !AliasOf(own, p, tag) {
      ManifestIsNoBlob(ImageOf(tag), "sha256:" + tag.content.value.sha256, image, digest);
    }
  }

  lemma ManifestIsNoBlob(image: string, reference: string, other: string, digest: string)
    ensures ManifestPath(image, reference) != BlobPath(other, digest)
  {
    assert ManifestPath(image, reference)[1] == 'm' && BlobPath(other, digest)[1] == 'b';
  }

  /** A child that names one layer and nothing else. */
  function LeafDoc(layer: Descriptor): Doc {
    Doc(None, [layer], [], [], [])
  }

  lemma LeafChild(src: Source, image: string, d: Descriptor, layer: Descriptor, depth: nat, s: Progress, u: Unit)
    requires depth < MAX_INDEX_DEPTH && ValidDigest(d.digest) && ManifestPath(image, d.digest) !in s.seen
    requires Looked(src, ManifestPath(image, d.digest)) == Ok(Some(u))
    requires u.asset.content.Some? && u.asset.content.value.doc == Some(LeafDoc(layer))
    ensures WithChild(src, image, d, depth, s)
            == WithBlob(src, image, layer, Progress(s.seen + {ManifestPath(image, d.digest)}, s.units + [u]))
  {
    hide ManifestPath, BlobPath, ValidDigest, Looked;
    var s' := Progress(s.seen + {ManifestPath(image, d.digest)}, s.units + [u]);
    assert BlobsOf(LeafDoc(layer)) == [layer];
    var r := WithBlob(src, image, layer, s');
    assert WithBlobs(src, image, [layer], s') == r by {
      assert [layer][1..] == [];
    }
    assert r.Ok? ==> WithChildren(src, image, [], depth + 1, r.value) == r;
  }

  const SOME_COMPONENT := Component("", "img", "1", map[])

  const LAYER := "a:d"

  function Leaf(digest: string, foreign: bool): Asset {
    Asset(ManifestPath("img", digest), true, Some(Content(digest, Some(LeafDoc(Descriptor(LAYER, foreign))))),
          Some(SOME_COMPONENT))
  }

  /** Two stored children: "a:b" gives urls for the layer, "a:c" does not; the layer itself is not stored. */
  function TwoChildren(): Source {
    Source(map[ManifestPath("img", "a:b") := Leaf("a:b", true), ManifestPath("img", "a:c") := Leaf("a:c", false)], {})
  }

  function IndexOver(first: string, second: string): Asset {
    Asset(ManifestPath("img", "a:i"), true,
          Some(Content("i", Some(Doc(None, [], [], [], [Descriptor(first, false), Descriptor(second, false)])))),
          Some(SOME_COMPONENT))
  }

  lemma SmallDigest(c: char)
    requires 'a' <= c <= 'z'
    ensures ValidDigest(['a', ':', c])
  {
    var d := ['a', ':', c];
    assert d[1] == ':' && AlgorithmOk(d[..1]) && forall k :: 1 < k < |d| ==> Encoded(d[k]);
  }

  lemma ManifestPathsDiffer(image: string, a: string, b: string)
    ensures ManifestPath(image, a) == ManifestPath(image, b) <==> a == b
  {
    var n := |MANIFEST_PREFIX + image + "/"|;
    assert ManifestPath(image, a)[n..] == a && ManifestPath(image, b)[n..] == b;
  }

  lemma OrderOfChildrenDecides(s: Progress)
    requires ManifestPath("img", "a:b") !in s.seen && ManifestPath("img", "a:c") !in s.seen
            && BlobPath("img", LAYER) !in s.seen
    ensures var src := TwoChildren();
            var one, two := IndexOver("a:b", "a:c"), IndexOver("a:c", "a:b");
            && WithReferences(src, "img", one.path, one.content.value, 0, s).Ok?
            && BlobPath("img", LAYER) !in src.assets
            && WithReferences(src, "img", two.path, two.content.value, 0, s) == Err(MissingBlob(BlobPath("img", LAYER)))
  {
    var src := TwoChildren();
    SmallDigest('b');
    SmallDigest('c');
    SmallDigest('d');
    ManifestPathsDiffer("img", "a:b", "a:c");
    var b, c, layer := Descriptor("a:b", false), Descriptor("a:c", false), BlobPath("img", LAYER);
    var ub, uc := Unit(SOME_COMPONENT, Leaf("a:b", true)), Unit(SOME_COMPONENT, Leaf("a:c", false));
    ManifestIsNoBlob("img", "a:b", "img", LAYER);
    ManifestIsNoBlob("img", "a:c", "img", LAYER);
    hide ManifestPath, BlobPath, ValidDigest;
    var sb := Progress(s.seen + {ManifestPath("img", "a:b"), layer}, s.units + [ub]);
    LeafChild(src, "img", b, Descriptor(LAYER, true), 0, s, ub);
    assert WithChild(src, "img", b, 0, s) == Ok(sb) by {
      assert s.seen + {ManifestPath("img", "a:b")} + {layer} == sb.seen;
    }
    LeafChild(src, "img", c, Descriptor(LAYER, false), 0, sb, uc);
    LeafChild(src, "img", c, Descriptor(LAYER, false), 0, s, uc);
    hide WithChild, WithBlob;
    TwoInTurn(src, "img", b, c, s);
    TwoInTurn(src, "img", c, b, s);
    NoBlobs(b, c);
    NoBlobs(c, b);
  }

  lemma NoBlobs(b: Descriptor, c: Descriptor)
    ensures BlobsOf(Doc(None, [], [], [], [b, c])) == []
  {
  }

  lemma TwoInTurn(src: Source, image: string, b: Descriptor, c: Descriptor, s: Progress)
    ensures var first := WithChild(src, image, b, 0, s);
            WithChildren(src, image, [b, c], 0, s)
            == if first.Err? then first else WithChild(src, image, c, 0, first.value)
  {
    hide WithChild;
    assert [b, c][1..] == [c] && [c][1..] == [];
    var first := WithChild(src, image, b, 0, s);
    if first.Ok? {
      assert WithChildren(src, image, [c], 0, first.value) == WithChild(src, image, c, 0, first.value);
    }
  }

  /**
   The order of an index's children decides: with the child that gives urls first the image expands
   without the layer, although the second child names it plainly; the other way round it is refused.
   */
  lemma ExpansionDependsOnOrder()
    ensures var src := TwoChildren();
            && Expansion(src, [IndexOver("a:b", "a:c")]).Ok?
            && Expansion(src, [IndexOver("a:c", "a:b")]) == Err(MissingBlob(BlobPath("img", LAYER)))
  {
    var start, alias := ManifestPath("img", "a:i"), ManifestPath("img", "sha256:i");
    SplitOfManifestPath("img", "a:i");
    forall r | r in {"a:b", "a:c"} ensures ManifestPath("img", r) !in {start, alias} {
      ManifestPathsDiffer("img", r, "a:i");
      ManifestPathsDiffer("img", r, "sha256:i");
    }
    ManifestPathsDiffer("img", "sha256:i", "a:i");
    ManifestIsNoBlob("img", "a:i", "img", LAYER);
    ManifestIsNoBlob("img", "sha256:i", "img", LAYER);
    hide ManifestPath, BlobPath, SplitManifestPath, WithReferences;
    OneIndexExpands("a:b", "a:c");
    OneIndexExpands("a:c", "a:b");
    OrderOfChildrenDecides(Progress({start, alias}, [AliasOfIndex("a:b", "a:c")]));
    OrderOfChildrenDecides(Progress({start, alias}, [AliasOfIndex("a:c", "a:b")]));
  }

  function AliasOfIndex(first: string, second: string): Unit {
    Unit(SOME_COMPONENT.(version := "sha256:i"), IndexOver(first, second).(path := ManifestPath("img", "sha256:i")))
  }

  /** An index alone: its alias, then its children. */
  lemma OneIndexExpands(first: string, second: string)
    ensures var a := IndexOver(first, second);
            var r := WithReferences(TwoChildren(), "img", a.path, a.content.value, 0,
                                    Progress({a.path, ManifestPath("img", "sha256:i")}, [AliasOfIndex(first, second)]));
            Expansion(TwoChildren(), [a]) == if r.Ok? then Ok(r.value.units) else Err(r.error)
  {
    var a, src := IndexOver(first, second), TwoChildren();
    SplitOfManifestPath("img", "a:i");
    AliasOfOne(first, second);
    hide ManifestPath, SplitManifestPath, WithReferences, WithAlias, TwoChildren, AliasOfIndex;
    assert "sha256:" + "i" == "sha256:i" && "a:i" != "sha256:i";
    ExpansionOfOne(src, a);
  }

  lemma ExpansionOfOne(src: Source, a: Asset)
    requires a.component.Some?
    ensures var r := WithAsset(src, a, Progress({a.path}, []));
            Expansion(src, [a]) == if r.Ok? then Ok(r.value.units) else Err(r.error)
  {
    hide WithAsset;
    assert (set x | x in [a] :: x.path) == {a.path};
    assert [a][1..] == [];
    var r := WithAsset(src, a, Progress({a.path}, []));
    assert r.Ok? ==> WithAssets(src, [], r.value) == r;
  }

  lemma AliasOfOne(first: string, second: string)
    ensures var a := IndexOver(first, second);
            && IsManifest(a)
            && WithAlias(TwoChildren(), a, "sha256:i", Progress({a.path}, []))
               == Ok(Progress({a.path, ManifestPath("img", "sha256:i")}, [AliasOfIndex(first, second)]))
  {
    var a, src, alias := IndexOver(first, second), TwoChildren(), ManifestPath("img", "sha256:i");
    SplitOfManifestPath("img", "a:i");
    ManifestPathsDiffer("img", "sha256:i", "a:i");
    ManifestPathsDiffer("img", "sha256:i", "a:b");
    ManifestPathsDiffer("img", "sha256:i", "a:c");
    hide ManifestPath, SplitManifestPath;
    assert alias !in src.assets.Keys && Looked(src, alias) == Ok(None);
    assert ImageOf(a) == "img";
    var r := WithAlias(src, a, "sha256:i", Progress({a.path}, []));
    assert r == Ok(Progress({a.path} + {alias}, [] + [AliasOfIndex(first, second)]));
    assert {a.path} + {alias} == {a.path, alias};
    assert [] + [AliasOfIndex(first, second)] == [AliasOfIndex(first, second)];
  }
}
