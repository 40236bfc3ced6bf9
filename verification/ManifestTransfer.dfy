/**
 Bringing an image manifest from a source Nexus with everything it names: children and blobs
 first, the manifest last, so the destination never holds a manifest that points at nothing.
 */
module ManifestTransfer {
  import opened Prelude

  const MAX_MANIFEST_DEPTH := 4

  /** What a manifest names. Blank digests are passed over. */
  datatype Doc = Doc(config: string, layers: seq<string>, manifests: seq<string>)

  /** One destination image: stored manifests by reference, and the digests of its stored blobs. */
  datatype Image = Image(manifests: map<string, Doc>, blobs: set<string>)

  /** Everything a manifest names is stored. */
  predicate Complete(image: Image, doc: Doc) {
    && (doc.config != "" ==> doc.config in image.blobs)
    && (forall l :: l in doc.layers && l != "" ==> l in image.blobs)
    && (forall m :: m in doc.manifests && m != "" ==> m in image.manifests)
  }

  /** Every stored manifest is complete: no client can be sent after something missing. */
  predicate Closed(image: Image) {
    forall r :: r in image.manifests ==> Complete(image, image.manifests[r])
  }

  predicate Grown(before: Image, after: Image) {
    before.blobs <= after.blobs && before.manifests.Keys <= after.manifests.Keys
  }

  class Destination {
    var image: Image
    /** Every state the image has been in, oldest first. */
    ghost var history: seq<Image>

    constructor (image: Image)
      requires Closed(image)
      ensures this.image == image && Valid()
    {
      this.image, history := image, [image];
    }

    /** The image is closed now and was in each of its states. */
    ghost predicate Valid()
      reads this
    {
      && history != [] && history[|history| - 1] == image
      && forall i :: 0 <= i < |history| ==> Closed(history[i])
    }

    /** Stores a blob under its digest; the write may fail. */
    method StoreBlob(digest: string) returns (ok: bool)
      requires Valid()
      modifies this
      ensures Valid() && Grown(old(image), image) && old(history) <= history
      ensures ok ==> digest in image.blobs
      ensures image.manifests == old(image.manifests)
    {
      ok := *;
      if ok {
        image := image.(blobs := image.blobs + {digest});
        history := history + [image];
      }
    }

    /** Stores a manifest all of whose references are in place; every other reference keeps its document. */
    method StoreManifest(reference: string, doc: Doc) returns (ok: bool)
      requires Valid() && Complete(image, doc)
      modifies this
      ensures Valid() && Grown(old(image), image) && old(history) <= history
      ensures forall r :: r in old(image.manifests) && r != reference ==> image.manifests[r] == old(image.manifests)[r]
      ensures ok ==> reference in image.manifests && image.manifests[reference] == doc
    {
      ok := *;
      if ok {
        ghost var before := image;
        image := image.(manifests := image.manifests[reference := doc]);
        assert Complete(image, doc) && forall r :: r in before.manifests ==> Complete(image, before.manifests[r]);
        history := history + [image];
      }
    }

    /** Copies one blob unless the image has it. */
    method EnsureBlob(digest: string) returns (ok: bool)
      requires Valid()
      modifies this
      ensures Valid() && Grown(old(image), image) && old(history) <= history
      ensures ok ==> digest in image.blobs
      ensures digest in old(image.blobs) ==> ok && image == old(image)
      ensures image.manifests == old(image.manifests)
    {
      if digest in image.blobs {
        return true;
      }
      var fetched: bool := *;
      if !fetched {
        return false;
      }
      ok := StoreBlob(digest);
    }

    /** What the source answers for a reference: any document, or none, and another one next time. */
    method DownloadManifest(reference: string) returns (doc: Option<Doc>)
    {
      doc := *;
    }

    /**
     Transfers one manifest and all below it. It ends however the source's indexes refer to one
     another; wherever it stops, every state the image went through is closed; and on success the
     reference is stored.
     */
    method TransferManifest(reference: string, depth: nat, digestOf: Doc -> string) returns (ok: bool)
      requires Valid()
      modifies this
      ensures Valid() && Grown(old(image), image) && old(history) <= history
      ensures ok ==> reference in image.manifests && depth <= MAX_MANIFEST_DEPTH
      decreases MAX_MANIFEST_DEPTH + 1 - depth
    {
      if depth > MAX_MANIFEST_DEPTH {
        return false;
      }
      var downloaded := DownloadManifest(reference);
      if downloaded.None? {
        return false;
      }
      var doc := downloaded.value;
      for i := 0 to |doc.manifests|
        invariant Valid() && Grown(old(image), image) && old(history) <= history
        invariant forall k :: 0 <= k < i && doc.manifests[k] != "" ==> doc.manifests[k] in image.manifests
      {
        if doc.manifests[i] == "" {
          continue;
        }
        ok := TransferManifest(doc.manifests[i], depth + 1, digestOf);
        if !ok {
          return;
        }
      }
      var digests := (if doc.config != "" then [doc.config] else []) + doc.layers;
      for i := 0 to |digests|
        invariant Valid() && Grown(old(image), image) && old(history) <= history
        invariant forall m :: m in doc.manifests && m != "" ==> m in image.manifests
        invariant forall k :: 0 <= k < i && digests[k] != "" ==> digests[k] in image.blobs
      {
        if digests[i] == "" {
          continue;
        }
        ok := EnsureBlob(digests[i]);
        if !ok {
          return;
        }
      }
      assert doc.config != "" ==> digests[0] == doc.config;
      forall l | l in doc.layers && l != "" ensures l in image.blobs {
        var k :| 0 <= k < |doc.layers| && doc.layers[k] == l;
        assert digests[k + |digests| - |doc.layers|] == l;
      }
      if reference in image.manifests {
        return true;
      }
      ok := StoreManifest(reference, doc);
      if ok {
        RegisterAlias(digestOf(doc), doc);
      }
    }

    /** Stores the manifest under its digest too, best-effort. */
    method RegisterAlias(digest: string, doc: Doc)
      requires Valid() && Complete(image, doc)
      modifies this
      ensures Valid() && Grown(old(image), image) && old(history) <= history
    {
      var _ := StoreManifest(digest, doc);
    }
  }

  /** What a client pulling along `path` asks for: each reference named by the manifest before it. */
  predicate Pull(image: Image, path: seq<string>) {
    && path != [] && path[0] in image.manifests
    && forall i :: 0 <= i < |path| - 1 ==>
         path[i] in image.manifests ==> path[i + 1] in image.manifests[path[i]].manifests && path[i + 1] != ""
  }

  /** In a closed image a client starting at any stored manifest finds every manifest and blob it is sent to. */
  lemma {:induction false} PullFindsEverything(image: Image, path: seq<string>)
    requires Closed(image) && Pull(image, path)
    ensures path[|path| - 1] in image.manifests && Complete(image, image.manifests[path[|path| - 1]])
    decreases |path|
  {
    if |path| > 1 {
      var init := path[..|path| - 1];
      assert Pull(image, init) by {
        forall i | 0 <= i < |init| - 1 && init[i] in image.manifests
          ensures init[i + 1] in image.manifests[init[i]].manifests && init[i + 1] != ""
        {
          assert path[i] == init[i] && path[i + 1] == init[i + 1];
        }
      }
      PullFindsEverything(image, init);
      var last := path[|path| - 2];
      assert path[|path| - 2 + 1] in image.manifests[last].manifests;
    }
  }
}
