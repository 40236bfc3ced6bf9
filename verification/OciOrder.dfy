/**
 Which mention of a layer decides whether an image may do without it: the first, in the depth-first
 order in which expansion meets every manifest, blob by blob and then child by child.
 */
module OciOrder {
  import opened Prelude
  import opened OciExpansion

  /** One manifest names a blob, with urls (`foreign`) or without. */
  datatype Mention = Mention(path: string, foreign: bool)

  /** A walk over everything expansion would meet if no blob were ever missed, and the blobs it met on the way. */
  datatype Walk = Walk(at: Progress, met: seq<Mention>)

  function WalkBlob(src: Source, image: string, d: Descriptor, w: Walk): Result<Walk, Refusal> {
    var p := BlobPath(image, d.digest);
    var met := w.met + [Mention(p, d.foreign)];
    if !ValidDigest(d.digest) then Err(InvalidDigest(d.digest))
    else if p in w.at.seen then Ok(Walk(w.at, met))
    else
      match Looked(src, p)
      case Err(e) => Err(e)
      case Ok(None) => Ok(Walk(Progress(w.at.seen + {p}, w.at.units), met))
      case Ok(Some(u)) => Ok(Walk(Progress(w.at.seen + {p}, w.at.units + [u]), met))
  }

  function WalkBlobs(src: Source, image: string, ds: seq<Descriptor>, w: Walk): Result<Walk, Refusal> {
    if ds == [] then Ok(w)
    else
      match WalkBlob(src, image, ds[0], w)
      case Err(e) => Err(e)
      case Ok(w') => WalkBlobs(src, image, ds[1..], w')
  }

  function WalkChild(src: Source, image: string, d: Descriptor, depth: nat, w: Walk): Result<Walk, Refusal>
    requires depth <= MAX_INDEX_DEPTH
    decreases MAX_INDEX_DEPTH - depth, 0, 0
  {
    var p := ManifestPath(image, d.digest);
    if !ValidDigest(d.digest) then Err(InvalidDigest(d.digest))
    else if p in w.at.seen then Ok(w)
    else if depth >= MAX_INDEX_DEPTH then Err(TooDeep(p))
    else
      match Looked(src, p)
      case Err(e) => Err(e)
      case Ok(None) => Err(MissingManifest(p))
      case Ok(Some(u)) =>
        if u.asset.content.None? then Err(Unreadable(p))
        else WalkReferences(src, image, p, u.asset.content.value, depth + 1,
                            Walk(Progress(w.at.seen + {p}, w.at.units + [u]), w.met))
  }

  function WalkChildren(src: Source, image: string, ds: seq<Descriptor>, depth: nat, w: Walk): Result<Walk, Refusal>
    requires depth <= MAX_INDEX_DEPTH
    decreases MAX_INDEX_DEPTH - depth, 1, |ds|
  {
    if ds == [] then Ok(w)
    else
      match WalkChild(src, image, ds[0], depth, w)
      case Err(e) => Err(e)
      case Ok(w') => WalkChildren(src, image, ds[1..], depth, w')
  }

  function WalkReferences(src: Source, image: string, p: string, content: Content, depth: nat, w: Walk)
    : Result<Walk, Refusal>
    requires depth <= MAX_INDEX_DEPTH
    decreases MAX_INDEX_DEPTH - depth, 2, 0
  {
    match content.doc
    case None => Err(NotJson(p))
    case Some(doc) =>
      match WalkBlobs(src, image, BlobsOf(doc), w)
      case Err(e) => Err(e)
      case Ok(w') => WalkChildren(src, image, doc.manifests, depth, w')
  }

  function WalkAsset(src: Source, a: Asset, w: Walk): Result<Walk, Refusal>
    requires a.component.Some?
  {
    if !IsManifest(a) then Ok(w)
    else if a.content.None? then Err(Unreadable(a.path))
    else
      var digestRef := "sha256:" + a.content.value.sha256;
      match (if SplitManifestPath(a.path).value.1 != digestRef then WithAlias(src, a, digestRef, w.at) else Ok(w.at))
      case Err(e) => Err(e)
      case Ok(s) => WalkReferences(src, ImageOf(a), a.path, a.content.value, 0, Walk(s, w.met))
  }

  function WalkAssets(src: Source, assets: seq<Asset>, w: Walk): Result<Walk, Refusal>
    requires forall a :: a in assets ==> a.component.Some?
  {
    if assets == [] then Ok(w)
    else
      match WalkAsset(src, assets[0], w)
      case Err(e) => Err(e)
      case Ok(w') => WalkAssets(src, assets[1..], w')
  }

  // ---------------------------------------------------------------- what decides

  /** A blob that is not stored, and that the component does not bring itself. */
  predicate Wanting(src: Source, start: set<string>, p: string) {
    p !in src.assets && p !in start
  }

  predicate ExcusedBy(met: seq<Mention>, i: int, p: string) {
    exists j :: 0 <= j < i && j < |met| && met[j] == Mention(p, true)
  }

  /** Every wanting blob met without urls was met with urls before. */
  predicate AllExcused(src: Source, start: set<string>, met: seq<Mention>) {
    forall i :: 0 <= i < |met| && !met[i].foreign && Wanting(src, start, met[i].path) ==> ExcusedBy(met, i, met[i].path)
  }

  predicate BlobLike(p: string) {
    |p| > 1 && p[1] == 'b'
  }

  predicate Met(met: seq<Mention>, p: string) {
    exists i :: 0 <= i < |met| && met[i].path == p
  }

  /** Of blobs, a walk has seen what it started with and what it met. */
  ghost predicate Tracks(start: set<string>, w: Walk) {
    && (forall i :: 0 <= i < |w.met| ==> w.met[i].path in w.at.seen)
    && (forall p :: p in w.at.seen && BlobLike(p) ==> p in start || Met(w.met, p))
    && start <= w.at.seen
  }

  /** A walk goes on from `w`, and keeps track. */
  ghost predicate Follows(start: set<string>, w: Walk, walked: Result<Walk, Refusal>) {
    walked.Ok? ==> Tracks(start, walked.value) && w.met <= walked.value.met
  }

  /**
   What a walk says of expansion from where it began: it comes to the same, if every wanting blob is
   excused, and otherwise misses a blob. What stops the walk stops expansion too, if nothing did before.
   */
  ghost predicate Decides(src: Source, start: set<string>, walked: Result<Walk, Refusal>,
                          r: Result<Progress, Refusal>) {
    match walked
    case Err(_) => r.Err?
    case Ok(w) => if AllExcused(src, start, w.met) then r == Ok(w.at) else r.Err? && r.error.MissingBlob?
  }

  lemma ExcuseStep(src: Source, start: set<string>, met: seq<Mention>, m: Mention)
    requires AllExcused(src, start, met)
    ensures AllExcused(src, start, met + [m]) <==>
              m.foreign || !Wanting(src, start, m.path) || ExcusedBy(met, |met|, m.path)
  {
    var more := met + [m];
    assert more[|met|] == m;
    forall i | 0 <= i < |met|
      ensures more[i] == met[i] && (ExcusedBy(met, i, met[i].path) ==> ExcusedBy(more, i, met[i].path))
    {
      if ExcusedBy(met, i, met[i].path) {
        var j :| 0 <= j < i && met[j] == Mention(met[i].path, true);
        assert more[j] == met[j];
      }
    }
    if ExcusedBy(met, |met|, m.path) {
      var j :| 0 <= j < |met| && met[j] == Mention(m.path, true);
      assert more[j] == met[j];
    }
    if ExcusedBy(more, |met|, m.path) {
      var j :| 0 <= j < |met| && more[j] == Mention(m.path, true);
      assert met[j] == more[j];
    }
  }

  /** An excuse once missing stays missing. */
  lemma UnexcusedStays(src: Source, start: set<string>, met: seq<Mention>, more: seq<Mention>)
    requires met <= more && AllExcused(src, start, more)
    ensures AllExcused(src, start, met)
  {
    forall i | 0 <= i < |met| && !met[i].foreign && Wanting(src, start, met[i].path)
      ensures ExcusedBy(met, i, met[i].path)
    {
      assert more[i] == met[i];
      var j :| 0 <= j < i && j < |more| && more[j] == Mention(met[i].path, true);
      assert met[j] == more[j];
    }
  }

  // ---------------------------------------------------------------- walks keep track

  lemma BlobTracks(src: Source, start: set<string>, image: string, d: Descriptor, w: Walk)
    requires Tracks(start, w)
    ensures Follows(start, w, WalkBlob(src, image, d, w))
  {
    var p := BlobPath(image, d.digest);
    MetGrows(w.met, Mention(p, d.foreign));
    hide BlobPath, ValidDigest, Met, BlobLike;
  }

  lemma {:induction false} BlobsTrack(src: Source, start: set<string>, image: string, ds: seq<Descriptor>, w: Walk)
    requires Tracks(start, w)
    ensures Follows(start, w, WalkBlobs(src, image, ds, w))
    decreases |ds|
  {
    hide WalkBlob, Tracks;
    if ds != [] {
      BlobTracks(src, start, image, ds[0], w);
      var next := WalkBlob(src, image, ds[0], w);
      if next.Ok? {
        BlobsTrack(src, start, image, ds[1..], next.value);
      }
    }
  }

  lemma ManifestTracks(start: set<string>, w: Walk, image: string, reference: string, units: seq<Unit>)
    requires Tracks(start, w)
    ensures Tracks(start, Walk(Progress(w.at.seen + {ManifestPath(image, reference)}, units), w.met))
  {
    assert ManifestPath(image, reference)[1] == 'm';
    hide ManifestPath, Met;
  }

  lemma {:induction false} ChildTracks(src: Source, start: set<string>, image: string, d: Descriptor, depth: nat,
                                       w: Walk)
    requires Tracks(start, w) && depth <= MAX_INDEX_DEPTH
    ensures Follows(start, w, WalkChild(src, image, d, depth, w))
    decreases MAX_INDEX_DEPTH - depth, 0, 0
  {
    hide Tracks, ValidDigest, ManifestPath, Looked, WalkReferences;
    var p := ManifestPath(image, d.digest);
    if depth < MAX_INDEX_DEPTH && Looked(src, p).Ok? && Looked(src, p).value.Some? {
      var u := Looked(src, p).value.value;
      ManifestTracks(start, w, image, d.digest, w.at.units + [u]);
      if u.asset.content.Some? {
        ReferencesTrack(src, start, image, p, u.asset.content.value, depth + 1,
                        Walk(Progress(w.at.seen + {p}, w.at.units + [u]), w.met));
      }
    }
  }

  lemma {:induction false} ChildrenTrack(src: Source, start: set<string>, image: string, ds: seq<Descriptor>,
                                         depth: nat,
                                         w: Walk)
    requires Tracks(start, w) && depth <= MAX_INDEX_DEPTH
    ensures Follows(start, w, WalkChildren(src, image, ds, depth, w))
    decreases MAX_INDEX_DEPTH - depth, 1, |ds|
  {
    hide Tracks, WalkChild;
    if ds != [] {
      ChildTracks(src, start, image, ds[0], depth, w);
      var next := WalkChild(src, image, ds[0], depth, w);
      if next.Ok? {
        ChildrenTrack(src, start, image, ds[1..], depth, next.value);
      }
    }
  }

  lemma {:induction false} ReferencesTrack(src: Source, start: set<string>, image: string, p: string, content: Content,
                                           depth: nat, w: Walk)
    requires Tracks(start, w) && depth <= MAX_INDEX_DEPTH
    ensures Follows(start, w, WalkReferences(src, image, p, content, depth, w))
    decreases MAX_INDEX_DEPTH - depth, 2, 0
  {
    hide Tracks, WalkBlobs, WalkChildren;
    if content.doc.Some? {
      var blobs := BlobsOf(content.doc.value);
      BlobsTrack(src, start, image, blobs, w);
      var next := WalkBlobs(src, image, blobs, w);
      if next.Ok? {
        ChildrenTrack(src, start, image, content.doc.value.manifests, depth, next.value);
      }
    }
  }

  lemma AliasTracks(src: Source, start: set<string>, a: Asset, digestRef: string, w: Walk)
    requires Tracks(start, w) && IsManifest(a) && a.component.Some?
    ensures var r := WithAlias(src, a, digestRef, w.at); r.Ok? ==> Tracks(start, Walk(r.value, w.met))
  {
    forall units
      ensures Tracks(start, Walk(Progress(w.at.seen + {ManifestPath(ImageOf(a), digestRef)}, units), w.met))
    {
      ManifestTracks(start, w, ImageOf(a), digestRef, units);
    }
    assert Walk(w.at, w.met) == w;
    hide Tracks, ManifestPath, Looked;
  }

  lemma AssetTracks(src: Source, start: set<string>, a: Asset, w: Walk)
    requires Tracks(start, w) && a.component.Some?
    ensures Follows(start, w, WalkAsset(src, a, w))
  {
    hide Tracks, WithAlias, WalkReferences, ManifestPath;
    if IsManifest(a) && a.content.Some? {
      var digestRef := "sha256:" + a.content.value.sha256;
      AliasTracks(src, start, a, digestRef, w);
      assert Walk(w.at, w.met) == w;
      var tagged := SplitManifestPath(a.path).value.1 != digestRef;
      var named := if tagged then WithAlias(src, a, digestRef, w.at) else Ok(w.at);
      if named.Ok? {
        ReferencesTrack(src, start, ImageOf(a), a.path, a.content.value, 0, Walk(named.value, w.met));
      }
    }
  }

  lemma {:induction false} AssetsTrack(src: Source, start: set<string>, assets: seq<Asset>, w: Walk)
    requires Tracks(start, w) && forall a :: a in assets ==> a.component.Some?
    ensures Follows(start, w, WalkAssets(src, assets, w))
    decreases |assets|
  {
    hide Tracks, WalkAsset;
    if assets != [] {
      AssetTracks(src, start, assets[0], w);
      var next := WalkAsset(src, assets[0], w);
      if next.Ok? {
        AssetsTrack(src, start, assets[1..], next.value);
      }
    }
  }

  // ---------------------------------------------------------------- and decide

  lemma BlobDecides(src: Source, start: set<string>, image: string, d: Descriptor, w: Walk)
    requires Tracks(start, w) && AllExcused(src, start, w.met)
    ensures Decides(src, start, WalkBlob(src, image, d, w), WithBlob(src, image, d, w.at))
  {
    var p := BlobPath(image, d.digest);
    if ValidDigest(d.digest) && (p in w.at.seen || Looked(src, p).Ok?) {
      var m := Mention(p, d.foreign);
      ExcuseStep(src, start, w.met, m);
      BlobPathIsBlobLike(image, d.digest);
      hide BlobPath, ValidDigest;
      if p in w.at.seen && p !in start {
        var i :| 0 <= i < |w.met| && w.met[i].path == p;
        if !w.met[i].foreign && Wanting(src, start, p) {
          var j :| 0 <= j < i && w.met[j] == Mention(p, true);
          assert ExcusedBy(w.met, |w.met|, p);
        }
      }
      hide AllExcused;
    }
  }

  /** What follows a first part, decided each for itself, is decided together. */
  lemma DecidesOn(src: Source, start: set<string>, first: Result<Walk, Refusal>, r: Result<Progress, Refusal>,
                  all: Result<Walk, Refusal>, whole: Result<Progress, Refusal>)
    requires Decides(src, start, first, r) && first.Ok? && (all.Ok? ==> first.value.met <= all.value.met)
    requires if r.Ok? then Decides(src, start, all, whole) else whole == r
    ensures Decides(src, start, all, whole)
  {
    if all.Ok? && AllExcused(src, start, all.value.met) {
      UnexcusedStays(src, start, first.value.met, all.value.met);
    }
  }

  lemma {:induction false} BlobsDecide(src: Source, start: set<string>, image: string, ds: seq<Descriptor>, w: Walk)
    requires Tracks(start, w) && AllExcused(src, start, w.met)
    ensures Decides(src, start, WalkBlobs(src, image, ds, w), WithBlobs(src, image, ds, w.at))
    decreases |ds|
  {
    hide WalkBlob, WithBlob, Tracks, AllExcused;
    if ds != [] {
      BlobDecides(src, start, image, ds[0], w);
      BlobTracks(src, start, image, ds[0], w);
      var next := WalkBlob(src, image, ds[0], w);
      if next.Ok? {
        BlobsTrack(src, start, image, ds[1..], next.value);
        if AllExcused(src, start, next.value.met) {
          BlobsDecide(src, start, image, ds[1..], next.value);
        }
        DecidesOn(src, start, next, WithBlob(src, image, ds[0], w.at), WalkBlobs(src, image, ds, w),
                  WithBlobs(src, image, ds, w.at));
      }
    }
  }

  lemma {:induction false} ChildDecides(src: Source, start: set<string>, image: string, d: Descriptor, depth: nat,
                                        w: Walk)
    requires Tracks(start, w) && AllExcused(src, start, w.met) && depth <= MAX_INDEX_DEPTH
    ensures Decides(src, start, WalkChild(src, image, d, depth, w), WithChild(src, image, d, depth, w.at))
    decreases MAX_INDEX_DEPTH - depth, 0, 0
  {
    hide Tracks, AllExcused, ValidDigest, ManifestPath, Looked, WalkReferences, WithReferences;
    var p := ManifestPath(image, d.digest);
    if depth < MAX_INDEX_DEPTH && Looked(src, p).Ok? && Looked(src, p).value.Some? {
      var u := Looked(src, p).value.value;
      ManifestTracks(start, w, image, d.digest, w.at.units + [u]);
      if u.asset.content.Some? {
        ReferencesDecide(src, start, image, p, u.asset.content.value, depth + 1,
                         Walk(Progress(w.at.seen + {p}, w.at.units + [u]), w.met));
      }
    }
  }

  lemma {:induction false} ChildrenDecide(src: Source, start: set<string>, image: string, ds: seq<Descriptor>,
                                          depth: nat,
                                          w: Walk)
    requires Tracks(start, w) && AllExcused(src, start, w.met) && depth <= MAX_INDEX_DEPTH
    ensures Decides(src, start, WalkChildren(src, image, ds, depth, w), WithChildren(src, image, ds, depth, w.at))
    decreases MAX_INDEX_DEPTH - depth, 1, |ds|
  {
    hide Tracks, AllExcused, WalkChild, WithChild;
    if ds != [] {
      ChildDecides(src, start, image, ds[0], depth, w);
      ChildTracks(src, start, image, ds[0], depth, w);
      var next := WalkChild(src, image, ds[0], depth, w);
      if next.Ok? {
        ChildrenTrack(src, start, image, ds[1..], depth, next.value);
        if AllExcused(src, start, next.value.met) {
          ChildrenDecide(src, start, image, ds[1..], depth, next.value);
        }
        DecidesOn(src, start, next, WithChild(src, image, ds[0], depth, w.at), WalkChildren(src, image, ds, depth, w),
                  WithChildren(src, image, ds, depth, w.at));
      }
    }
  }

  lemma {:induction false} ReferencesDecide(src: Source, start: set<string>, image: string, p: string, content: Content,
                                            depth: nat, w: Walk)
    requires Tracks(start, w) && AllExcused(src, start, w.met) && depth <= MAX_INDEX_DEPTH
    ensures Decides(src, start, WalkReferences(src, image, p, content, depth, w),
                    WithReferences(src, image, p, content, depth, w.at))
    decreases MAX_INDEX_DEPTH - depth, 2, 0
  {
    hide Tracks, AllExcused, WalkBlobs, WalkChildren, WithBlobs, WithChildren;
    if content.doc.Some? {
      var blobs, children := BlobsOf(content.doc.value), content.doc.value.manifests;
      BlobsDecide(src, start, image, blobs, w);
      BlobsTrack(src, start, image, blobs, w);
      var next := WalkBlobs(src, image, blobs, w);
      if next.Ok? {
        ChildrenTrack(src, start, image, children, depth, next.value);
        if AllExcused(src, start, next.value.met) {
          ChildrenDecide(src, start, image, children, depth, next.value);
        }
        DecidesOn(src, start, next, WithBlobs(src, image, blobs, w.at),
                  WalkReferences(src, image, p, content, depth, w),
                  WithReferences(src, image, p, content, depth, w.at));
      }
    }
  }

  lemma AssetDecides(src: Source, start: set<string>, a: Asset, w: Walk)
    requires Tracks(start, w) && AllExcused(src, start, w.met) && a.component.Some?
    ensures Decides(src, start, WalkAsset(src, a, w), WithAsset(src, a, w.at))
  {
    hide Tracks, AllExcused, WithAlias, WalkReferences, WithReferences, ManifestPath;
    if IsManifest(a) && a.content.Some? {
      var digestRef := "sha256:" + a.content.value.sha256;
      AliasTracks(src, start, a, digestRef, w);
      assert Walk(w.at, w.met) == w;
      var tagged := SplitManifestPath(a.path).value.1 != digestRef;
      var named := if tagged then WithAlias(src, a, digestRef, w.at) else Ok(w.at);
      if named.Ok? {
        ReferencesDecide(src, start, ImageOf(a), a.path, a.content.value, 0, Walk(named.value, w.met));
      }
    }
  }

  lemma {:induction false} AssetsDecide(src: Source, start: set<string>, assets: seq<Asset>, w: Walk)
    requires Tracks(start, w) && AllExcused(src, start, w.met) && forall a :: a in assets ==> a.component.Some?
    ensures Decides(src, start, WalkAssets(src, assets, w), WithAssets(src, assets, w.at))
    decreases |assets|
  {
    hide Tracks, AllExcused, WalkAsset, WithAsset;
    if assets != [] {
      AssetDecides(src, start, assets[0], w);
      AssetTracks(src, start, assets[0], w);
      var next := WalkAsset(src, assets[0], w);
      if next.Ok? {
        AssetsTrack(src, start, assets[1..], next.value);
        if AllExcused(src, start, next.value.met) {
          AssetsDecide(src, start, assets[1..], next.value);
        }
        DecidesOn(src, start, next, WithAsset(src, assets[0], w.at), WalkAssets(src, assets, w),
                  WithAssets(src, assets, w.at));
      }
    }
  }

  /**
   The order decides, over a whole image. Where nothing else is wrong with it, it expands exactly when
   every blob that is not stored, and that a manifest names without urls, was named with urls earlier
   on the walk; if not, it is refused for a missing blob. Where something else is wrong it is refused
   whatever the order.
   */
  lemma FirstMentionDecides(src: Source, assets: seq<Asset>)
    requires forall a :: a in assets ==> a.component.Some?
    ensures var start := set a | a in assets :: a.path;
            var walked := WalkAssets(src, assets, Walk(Progress(start, []), []));
            match walked
            case Err(_) => Expansion(src, assets).Err?
            case Ok(w) =>
              if AllExcused(src, start, w.met) then Expansion(src, assets) == Ok(w.at.units)
              else Expansion(src, assets).Err? && Expansion(src, assets).error.MissingBlob?
  {
    var start := set a | a in assets :: a.path;
    AssetsDecide(src, start, assets, Walk(Progress(start, []), []));
    hide WalkAssets, WithAssets;
  }

  lemma BlobPathIsBlobLike(image: string, digest: string)
    ensures BlobLike(BlobPath(image, digest))
  {
  }

  lemma MetGrows(met: seq<Mention>, m: Mention)
    ensures forall p :: Met(met + [m], p) <==> Met(met, p) || p == m.path
  {
    var more := met + [m];
    forall p ensures Met(more, p) <==> Met(met, p) || p == m.path {
      if Met(met, p) {
        var i :| 0 <= i < |met| && met[i].path == p;
        assert more[i] == met[i];
      }
      assert more[|met|] == m;
    }
  }
}
