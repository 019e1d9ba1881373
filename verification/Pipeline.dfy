/** What the export pipeline computes locally: storage objects, manifest, pointer and ready facts. */
module Pipeline {
  import opened Wrappers
  import opened ErrClass
  import opened Deployment
  import opened Types
  import opened Manifest
  import opened Protocol
  import Backoff
  import Paths

  /** Settings of the pipeline; `cacheControl` maps an artifact path and MIME type to a cache class. */
  datatype Pipeline = Pipeline(
    basePrefix: string, maxTotalBytes: int, codec: Codec, cacheControl: (string, string) -> string)

  const CACHE_CONTROL_MANIFEST := "private, max-age=0, no-store"

  function BasePathOf(p: Pipeline, dep: string, rec: Record): string {
    Paths.BasePath(p.basePrefix, rec.site, dep)
  }

  function ManifestKeyOf(p: Pipeline, dep: string, rec: Record): string {
    Paths.ManifestKey(BasePathOf(p, dep, rec))
  }

  function ObjectOf(p: Pipeline, key: string, f: File): Object {
    Object(key, f.body, f.mimeType, p.cacheControl(f.path, f.mimeType), p.codec.sha(f.body))
  }

  function InputOf(p: Pipeline, key: string, f: File): FileInput {
    FileInput(f.path, key, p.codec.sha(f.body), |f.body|, f.mimeType, p.cacheControl(f.path, f.mimeType))
  }

  function TotalBytes(files: seq<File>): nat {
    if files == [] then 0 else TotalBytes(files[..|files| - 1]) + |files[|files| - 1].body|
  }

  /** One object per file, in order; the first path without a storage key fails the whole list. */
  function ObjectsFor(p: Pipeline, base: string, files: seq<File>): (r: Result<seq<Object>, Code>)
    ensures r.Success? ==> |r.value| == |files|
  {
    if files == [] then Success([])
    else
      match ObjectsFor(p, base, files[..|files| - 1])
      case Failure(code) => Failure(code)
      case Success(objects) =>
        var last := files[|files| - 1];
        match Paths.StorageKeyOf(base, last.path)
        case Failure(code) => Failure(code)
        case Success(key) => Success(objects + [ObjectOf(p, key, last)])
  }

  /** The whole-bundle limit is checked before anything is uploaded. */
  function LimitedObjects(p: Pipeline, base: string, files: seq<File>): Result<seq<Object>, Code> {
    match ObjectsFor(p, base, files)
    case Failure(code) => Failure(code)
    case Success(objects) =>
      if p.maxTotalBytes > 0 && TotalBytes(files) > p.maxTotalBytes then Failure(VALIDATION_FAILED)
          else Success(objects)
  }

  function InputsOf(p: Pipeline, objects: seq<Object>, files: seq<File>): seq<FileInput>
    requires |objects| == |files|
  {
    seq(|files|, i requires 0 <= i < |files| => InputOf(p, objects[i].key, files[i]))
  }

  function ManifestObject(p: Pipeline, dep: string, rec: Record, m: Manifest): Result<Object, Code> {
    var encoded := p.codec.encode(m);
    if p.codec.schemaValid(encoded) then
      Success(Object(ManifestKeyOf(p, dep, rec), encoded, "application/json", CACHE_CONTROL_MANIFEST,
                     p.codec.sha(encoded)))
    else Failure(VALIDATION_FAILED)
  }

  /** The manifest of an export of these files with this date; there is none where an earlier stage fails. */
  function ManifestFor(p: Pipeline, dep: string, rec: Record, files: seq<File>, at: string): Result<Manifest, Code> {
    var base := BasePathOf(p, dep, rec);
    match Paths.SlugPaths(rec.slug)
    case Failure(code) => Failure(code)
    case Success(paths) =>
      match LimitedObjects(p, base, files)
      case Failure(code) => Failure(code)
      case Success(objects) => Success(ManifestOf(dep, rec, base, paths.0, paths.1, InputsOf(p, objects, files), at))
  }

  function StoredManifest(p: Pipeline, dep: string, rec: Record, files: seq<File>, at: string): Result<Object, Code> {
    match ManifestFor(p, dep, rec, files, at)
    case Failure(code) => Failure(code)
    case Success(m) => ManifestObject(p, dep, rec, m)
  }

  function SlugErrorOf(rec: Record): Option<Code> {
    match Paths.SlugPaths(rec.slug)
    case Failure(code) => Some(code)
    case Success(_) => None
  }

  function EntryOf(rec: Record): (string, string) {
    match Paths.SlugPaths(rec.slug)
    case Failure(_) => ("", "")
    case Success(paths) => paths
  }

  function PointerFor(p: Pipeline, dep: string, rec: Record, files: seq<File>, m: Object): Pointer {
    Pointer(ManifestKeyOf(p, dep, rec), BasePathOf(p, dep, rec), HASH_PREFIX + m.sha, EntryOf(rec).0, EntryOf(rec).1,
            |files|, TotalBytes(files))
  }

  /** A ready event, apart from its event id, trace id and creation time. */
  function BuildReady(p: Pipeline, dep: string, rec: Record, digest: string, entry: string, filesCount: nat,
                      totalBytes: nat): ReadyFacts {
    ReadyFacts(dep, rec.team, rec.site, rec.page, rec.slug, rec.version, rec.environment, rec.renderMode,
               BasePathOf(p, dep, rec), ManifestKeyOf(p, dep, rec), digest, entry, filesCount, totalBytes)
  }

  /** Where a deployment's files are kept. */
  function Home(p: Pipeline, dep: string, rec: Record): string {
    p.basePrefix + "/" + rec.site + "/deployments/" + dep
  }

  /** The event repeats the record's own fields and says where the artifact is. */
  predicate StatesRecord(p: Pipeline, dep: string, rec: Record, facts: ReadyFacts) {
    && facts.dep == dep && facts.team == rec.team && facts.site == rec.site && facts.page == rec.page
    && facts.slug == rec.slug && facts.version == rec.version && facts.environment == rec.environment
    && facts.renderMode == rec.renderMode && facts.basePath == Home(p, dep, rec)
    && facts.manifestKey == Home(p, dep, rec) + "/artifact-manifest.json"
  }

  lemma BuiltEventStatesRecord(p: Pipeline, dep: string, rec: Record, digest: string, entry: string, filesCount: nat,
                               totalBytes: nat)
    ensures StatesRecord(p, dep, rec, BuildReady(p, dep, rec, digest, entry, filesCount, totalBytes))
  {
    var base := BasePathOf(p, dep, rec);
    assert (base + "/") + "artifact-manifest.json" == base + ("/" + "artifact-manifest.json");
    assert "/" + "artifact-manifest.json" == "/artifact-manifest.json";
  }

  function FactsFor(p: Pipeline, dep: string, rec: Record, files: seq<File>, m: Object): ReadyFacts {
    BuildReady(p, dep, rec, HASH_PREFIX + m.sha, EntryOf(rec).0, |files|, TotalBytes(files))
  }

  /** The same event rebuilt from a stored manifest alone. */
  function StoredFactsFor(p: Pipeline, dep: string, rec: Record, body: Bytes): Option<ReadyFacts> {
    match p.codec.decode(body)
    case None => None
    case Some(m) =>
      Some(BuildReady(p, dep, rec, HASH_PREFIX + p.codec.sha(body), m.entry, |m.files|, SumSizes(m.files)))
  }

  /** The date of a manifest whose event has none: the stored manifest's, else the clock's. */
  function StoredDate(p: Pipeline, stored: Fetched, clock: string): string {
    if stored.FetchedBytes? && p.codec.decode(stored.body).Some? && p.codec.decode(stored.body).value.createdAt != ""
    then p.codec.decode(stored.body).value.createdAt
    else clock
  }

  function DateOf(p: Pipeline, eventCreatedAt: string, stored: Fetched, clock: string): string {
    if eventCreatedAt != "" then eventCreatedAt else StoredDate(p, stored, clock)
  }

  /** The protocol run with this pipeline. */
  function ConfigFor(p: Pipeline, maxRetries: nat, backoff: Backoff.Policy): Config {
    Config(maxRetries, backoff,
           (rec: Record) => SlugErrorOf(rec),
           (dep: string, rec: Record) => ManifestKeyOf(p, dep, rec),
           (dep: string, rec: Record, files: seq<File>) => LimitedObjects(p, BasePathOf(p, dep, rec), files),
           (dep: string, rec: Record, files: seq<File>, at: string) => StoredManifest(p, dep, rec, files, at),
           (dep: string, rec: Record, files: seq<File>, m: Object) => PointerFor(p, dep, rec, files, m),
           (dep: string, rec: Record, files: seq<File>, m: Object) => FactsFor(p, dep, rec, files, m),
           (dep: string, rec: Record, body: Bytes) => StoredFactsFor(p, dep, rec, body),
           (stored: Fetched, clock: string) => StoredDate(p, stored, clock))
  }

  // ---- Objects ----

  /** The file's body under its key, with its MIME type, its cache class and its content hash. */
  predicate IsObjectOf(p: Pipeline, base: string, f: File, o: Object) {
    && o.key == base + f.path && o.body == f.body && o.mimeType == f.mimeType
    && o.cacheControl == p.cacheControl(f.path, f.mimeType) && o.sha == p.codec.sha(f.body)
  }

  /** What the object list holds, file by file. */
  lemma {:induction false} ObjectsMatchFiles(p: Pipeline, base: string, files: seq<File>)
    requires ObjectsFor(p, base, files).Success?
    ensures forall i :: 0 <= i < |files| ==> IsObjectOf(p, base, files[i], ObjectsFor(p, base, files).value[i])
    ensures forall i :: 0 <= i < |files| ==> Paths.StorageKeyOf(base, files[i].path) == Success(base + files[i].path)
  {
    if files != [] {
      ObjectsMatchFiles(p, base, files[..|files| - 1]);
      forall i | 0 <= i < |files|
        ensures IsObjectOf(p, base, files[i], ObjectsFor(p, base, files).value[i])
        ensures Paths.StorageKeyOf(base, files[i].path) == Success(base + files[i].path)
      {
        if i < |files| - 1 {
          assert files[..|files| - 1][i] == files[i];
        }
      }
    }
  }

  /** A prefix that fails fails the list with the same error. */
  lemma {:induction false} FirstBadPathDecides(p: Pipeline, base: string, files: seq<File>, n: nat)
    requires n <= |files| && ObjectsFor(p, base, files[..n]).Failure?
    ensures ObjectsFor(p, base, files) == ObjectsFor(p, base, files[..n])
    decreases |files|
  {
    if n == |files| {
      assert files[..n] == files;
    } else {
      assert files[..|files| - 1][..n] == files[..n];
      FirstBadPathDecides(p, base, files[..|files| - 1], n);
    }
  }

  /** The loop over the files that prepares the uploads and the manifest. */
  method CollectObjects(p: Pipeline, base: string, files: seq<File>)
    returns (r: Result<(seq<Object>, seq<FileInput>, nat), Code>)
    ensures match ObjectsFor(p, base, files)
            case Failure(code) => r == Failure(code)
            case Success(objects) => r == Success((objects, InputsOf(p, objects, files), TotalBytes(files)))
  {
    var objects: seq<Object> := [];
    var inputs: seq<FileInput> := [];
    var totalBytes := 0;
    for i := 0 to |files|
      invariant ObjectsFor(p, base, files[..i]) == Success(objects)
      invariant inputs == InputsOf(p, objects, files[..i])
      invariant totalBytes == TotalBytes(files[..i])
    {
      var f := files[i];
      assert files[..i + 1][..i] == files[..i] && files[..i + 1][i] == f;
      var key := Paths.StorageKey(base, f.path);
      if key.Failure? {
        FirstBadPathDecides(p, base, files, i + 1);
        return Failure(key.error);
      }
      objects := objects + [ObjectOf(p, key.value, f)];
      inputs := inputs + [InputOf(p, key.value, f)];
      totalBytes := totalBytes + |f.body|;
    }
    assert files[..|files|] == files;
    return Success((objects, inputs, totalBytes));
  }

  /** The whole-bundle limit, exactly: what is prepared is every file's object, unless a path has no key or the bodies
      together exceed a positive limit. */
  lemma BundleLimitExactly(p: Pipeline, base: string, files: seq<File>)
    ensures LimitedObjects(p, base, files).Success? <==>
              && ObjectsFor(p, base, files).Success? && (p.maxTotalBytes <= 0 || TotalBytes(files) <= p.maxTotalBytes)
    ensures LimitedObjects(p, base, files).Success? ==> LimitedObjects(p, base, files) == ObjectsFor(p, base, files)
    ensures ObjectsFor(p, base, files).Success? && LimitedObjects(p, base, files).Failure? ==>
              LimitedObjects(p, base, files).error == VALIDATION_FAILED
  {
  }

  /** Every file has an object exactly when every path has a key. */
  lemma {:induction false} ObjectsExistIff(p: Pipeline, base: string, files: seq<File>)
    ensures ObjectsFor(p, base, files).Success? <==>
              forall i :: 0 <= i < |files| ==> Paths.StorageKeyOf(base, files[i].path).Success?
  {
    if files != [] {
      var n := |files| - 1;
      ObjectsExistIff(p, base, files[..n]);
      assert forall i :: 0 <= i < n ==> files[..n][i] == files[i];
    }
  }

  /** The stored manifest object: the manifest's encoding under its key, as uncached JSON with the encoding's hash; it
      exists only if it passes its schema. */
  lemma ManifestObjectSays(p: Pipeline, dep: string, rec: Record, files: seq<File>, at: string, m: Object)
    requires StoredManifest(p, dep, rec, files, at) == Success(m)
    ensures ManifestFor(p, dep, rec, files, at).Success?
    ensures m.body == p.codec.encode(ManifestFor(p, dep, rec, files, at).value) && p.codec.schemaValid(m.body)
    ensures m.key == p.basePrefix + "/" + rec.site + "/deployments/" + dep + "/" + "artifact-manifest.json"
    ensures m.sha == p.codec.sha(m.body) && m.mimeType == "application/json"
    ensures m.cacheControl == "private, max-age=0, no-store"
  {
  }

  // ---- Re-emission ----

  lemma {:induction false} SizesAreRecorded(files: seq<File>, recorded: seq<ManifestFile>)
    requires |files| == |recorded|
    requires forall i :: 0 <= i < |files| ==> recorded[i].sizeBytes == |files[i].body|
    ensures SumSizes(recorded) == TotalBytes(files)
  {
    if files != [] {
      var n := |files| - 1;
      SizesAreRecorded(files[..n], recorded[..n]);
    }
  }

  /** Re-emission fidelity: the event rebuilt from a stored manifest equals the original in every field but
      event id, trace id and creation time, whatever the status the record has reached since. */
  lemma ReemitFidelity(p: Pipeline, dep: string, rec: Record, files: seq<File>, at: string, m: Object, now: Record)
    requires p.codec.Invertible() && StoredManifest(p, dep, rec, files, at) == Success(m)
    requires p.codec.IsText(ManifestFor(p, dep, rec, files, at).value)
    requires now.(status := rec.status) == rec
    ensures StoredFactsFor(p, dep, now, m.body) == Some(FactsFor(p, dep, rec, files, m))
  {
    var manifest := ManifestFor(p, dep, rec, files, at).value;
    assert p.codec.decode(m.body) == Some(manifest);
    SizesAreRecorded(files, manifest.files);
  }

  /** Where a manifest's date comes from, in order of preference: the event; the manifest already stored, if it can be
      read and has a date; the clock. */
  lemma DateHasAnOrder(p: Pipeline, eventCreatedAt: string, stored: Fetched, clock: string)
    ensures eventCreatedAt != "" ==> DateOf(p, eventCreatedAt, stored, clock) == eventCreatedAt
    ensures eventCreatedAt == "" && stored.FetchedBytes? ==>
              forall m :: p.codec.decode(stored.body) == Some(m) ==>
                DateOf(p, eventCreatedAt, stored, clock) == if m.createdAt != "" then m.createdAt else clock
    ensures eventCreatedAt == "" && (stored.Absent? || stored.FetchFailed?) ==>
              DateOf(p, eventCreatedAt, stored, clock) == clock
    ensures eventCreatedAt == "" && stored.FetchedBytes? && p.codec.decode(stored.body).None? ==>
              DateOf(p, eventCreatedAt, stored, clock) == clock
  {
  }

  // ---- Re-runs ----

  /** Re-running an export rebuilds the very same manifest object, hence the same digest, whatever the clock:
      always when the event carries a date, otherwise whenever the stored manifest can be read back. */
  lemma RerunRebuildsTheManifest(p: Pipeline, dep: string, rec: Record, files: seq<File>, eventCreatedAt: string,
                                 first: Fetched, clock: string, m: Object, again: Fetched, later: string, now: Record)
    requires p.codec.Invertible()
    requires StoredManifest(p, dep, rec, files, DateOf(p, eventCreatedAt, first, clock)) == Success(m)
    requires p.codec.IsText(ManifestFor(p, dep, rec, files, DateOf(p, eventCreatedAt, first, clock)).value)
    requires eventCreatedAt != "" || (clock != "" && again == FetchedBytes(m.body))
    requires now.(status := rec.status) == rec
    ensures StoredManifest(p, dep, now, files, DateOf(p, eventCreatedAt, again, later)) == Success(m)
  {
    var manifest := ManifestFor(p, dep, rec, files, DateOf(p, eventCreatedAt, first, clock)).value;
    assert p.codec.decode(m.body) == Some(manifest);
  }
}
