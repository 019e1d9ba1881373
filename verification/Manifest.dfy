/** The artifact manifest and its builder. */
module Manifest {
  import opened Wrappers
  import opened ErrClass
  import opened Deployment
  import opened Types

  datatype ManifestFile = ManifestFile(
    path: string, storageKey: string, contentHash: string, sizeBytes: nat, mimeType: string, cacheControl: string)

  datatype Manifest = Manifest(
    dep: string, site: string, page: string, slug: string, version: string, environment: string, renderMode: string,
    basePath: string, entry: string, files: seq<ManifestFile>, route: string, createdAt: string)

  /** One uploaded file, as the manifest will record it. */
  datatype FileInput = FileInput(
    path: string, storageKey: string, sha: string, sizeBytes: nat, mimeType: string, cacheControl: string)

  /** Hashing, the JSON encoding and the schema check. `text` tells valid UTF-8, which is all JSON keeps. */
  datatype Codec = Codec(
    sha: Bytes -> string,
    encode: Manifest -> Bytes,
    decode: Bytes -> Option<Manifest>,
    schemaValid: Bytes -> bool,
    text: string -> bool)
  {
    predicate IsText(m: Manifest) {
      && text(m.dep) && text(m.site) && text(m.page) && text(m.slug) && text(m.version) && text(m.environment)
      && text(m.renderMode) && text(m.basePath) && text(m.entry) && text(m.route) && text(m.createdAt)
      && forall f :: f in m.files ==> text(f.path) && text(f.storageKey) && text(f.contentHash)
                                      && text(f.mimeType) && text(f.cacheControl)
    }

    /** Decoding undoes encoding for every manifest whose strings are text. */
    ghost predicate Invertible() {
      forall m :: IsText(m) ==> decode(encode(m)) == Some(m)
    }
  }

  const HASH_PREFIX := "sha256-"

  function Recorded(f: FileInput): ManifestFile {
    ManifestFile(f.path, f.storageKey, HASH_PREFIX + f.sha, f.sizeBytes, f.mimeType, f.cacheControl)
  }

  function ManifestOf(dep: string, rec: Record, basePath: string, entry: string, route: string,
                      files: seq<FileInput>, createdAt: string): Manifest {
    Manifest(dep, rec.site, rec.page, rec.slug, rec.version, rec.environment, rec.renderMode, basePath, entry,
             seq(|files|, i requires 0 <= i < |files| => Recorded(files[i])), route, createdAt)
  }

  /** Assembles the manifest, its encoding and its digest; a manifest that fails its own schema is never
      handed out. */
  method BuildManifest(codec: Codec, dep: string, rec: Record, basePath: string, entry: string, route: string,
                       inputs: seq<FileInput>, createdAt: string)
    returns (r: Result<(Manifest, Bytes, string), Code>)
    ensures r.Success? <==> codec.schemaValid(codec.encode(ManifestOf(dep, rec, basePath, entry, route, inputs,
                                                                      createdAt)))
    ensures r.Success? ==>
              && r.value.0 == ManifestOf(dep, rec, basePath, entry, route, inputs, createdAt)
              && r.value.1 == codec.encode(r.value.0) && r.value.2 == HASH_PREFIX + codec.sha(r.value.1)
    ensures r.Failure? ==> r.error == VALIDATION_FAILED
  {
    var files: seq<ManifestFile> := [];
    for i := 0 to |inputs|
      invariant |files| == i && forall k :: 0 <= k < i ==> files[k] == Recorded(inputs[k])
    {
      files := files + [Recorded(inputs[i])];
    }
    var m := Manifest(dep, rec.site, rec.page, rec.slug, rec.version, rec.environment, rec.renderMode, basePath, entry,
                      files, route, createdAt);
    assert m == ManifestOf(dep, rec, basePath, entry, route, inputs, createdAt);
    var encoded := codec.encode(m);
    if !codec.schemaValid(encoded) {
      return Failure(VALIDATION_FAILED);
    }
    return Success((m, encoded, HASH_PREFIX + codec.sha(encoded)));
  }

  function SumSizes(files: seq<ManifestFile>): nat {
    if files == [] then 0 else SumSizes(files[..|files| - 1]) + files[|files| - 1].sizeBytes
  }
}
