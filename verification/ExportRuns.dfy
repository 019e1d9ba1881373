/** The run theorems for the concrete pipeline: its configuration meets their hypotheses, with the storage keys
    kept apart by the path algebra and the harvester's allowlist. */
module ExportRuns {
  import opened Wrappers
  import opened Text
  import opened Deployment
  import opened Types
  import opened Manifest
  import opened Machine
  import opened Pipeline
  import opened Paths
  import opened Harvest
  import opened ArtifactComplete
  import ReadyAgreement
  import ExpiredUpload
  import LostEvents
  import Scripts
  import Backoff
  import ErrClass
  import ReadyEvent

  const MANIFEST_PATH := "/" + MANIFEST_FILENAME

  // ---- The pipeline as a configuration ----

  lemma PipelineIgnoresStatus(p: Pipeline, maxRetries: nat, backoff: Backoff.Policy)
    ensures IgnoresStatus(ConfigFor(p, maxRetries, backoff))
  {
  }

  /** Manifests are stored under the deployment's manifest key, and events name their deployment. */
  lemma PipelineNamesItsDeployment(p: Pipeline, maxRetries: nat, backoff: Backoff.Policy)
    ensures ReadyEvent.ConfigOk(ConfigFor(p, maxRetries, backoff))
  {
  }

  // ---- Bundles ----

  /** The harvesters: one allowlist and one limit, and for each deployment what its pinned version serves. */
  datatype Sources = Sources(allow: seq<string>, maxTotalBytes: int, origins: string -> Origin)
  {
    function For(dep: string): Harvester {
      Harvester(origins(dep), allow, maxTotalBytes)
    }
  }

  /** What rendering and harvesting a page yields: the page at its slug's entry, then the closure's files,
      sorted; the allowlist admits neither the entry nor the manifest's name. */
  ghost predicate IsBundle(h: Harvester, rec: Record, files: seq<File>) {
    && SlugPaths(rec.slug).Success? && files != [] && files[0].path == SlugPaths(rec.slug).value.0
    && AreDependencies(h, files[0].body, files[1..])
    && !Allows(h.allow, files[0].path) && !Allows(h.allow, MANIFEST_PATH)
  }

  ghost predicate AreDependencies(h: Harvester, page: Bytes, deps: seq<File>) {
    StrictlySorted(deps) && forall f :: f in deps ==> InClosure(h, page, f.path)
  }

  /** Ids hold no slash, and what a deployment renders is a bundle; a record without a valid slug renders nothing. */
  ghost predicate PinsOk(sources: Sources, pins: map<string, Pin>) {
    forall d :: d in pins ==>
      && '/' !in d && '/' !in pins[d].rec.site
      && (IsBundle(sources.For(d), pins[d].rec, pins[d].files)
          || (SlugErrorOf(pins[d].rec).Some? && pins[d].files == []))
  }

  lemma EntryIsNotTheManifest(slug: string)
    requires SlugPaths(slug).Success?
    ensures SlugPaths(slug).value.0 != MANIFEST_PATH
  {
    var entry := SlugPaths(slug).value.0;
    assert |INDEX_FILENAME| == 10 && INDEX_FILENAME[9] == 'l';
    assert entry[|entry| - 1] == 'l';
    assert |MANIFEST_FILENAME| == 22 && MANIFEST_FILENAME[21] == 'n';
    assert MANIFEST_PATH[|MANIFEST_PATH| - 1] == 'n';
  }

  lemma {:induction false} PathLessIsIrreflexive(a: string)
    ensures !PathLess(a, a)
  {
    if a != "" {
      PathLessIsIrreflexive(a[1..]);
    }
  }

  lemma UsedPathIsAllowed(h: Harvester, ref: Ref)
    requires Judge(h, ref).Use?
    ensures Allows(h.allow, Judge(h, ref).path)
  {
  }

  lemma ClosureIsAllowed(h: Harvester, page: Bytes, p: string)
    requires InClosure(h, page, p)
    ensures Allows(h.allow, p)
  {
    var ref :| Reachable(h, page, ref) && Judge(h, ref) == Use(p);
    UsedPathIsAllowed(h, ref);
  }

  lemma DependenciesAreAllowed(h: Harvester, page: Bytes, deps: seq<File>, i: nat)
    requires AreDependencies(h, page, deps) && i < |deps|
    ensures Allows(h.allow, deps[i].path)
  {
    ClosureIsAllowed(h, page, deps[i].path);
  }

  /** What the keys depend on: sorted, admitted dependencies behind a page that is not admitted. */
  ghost predicate Admitted(allow: seq<string>, files: seq<File>) {
    && files != [] && !Allows(allow, files[0].path) && StrictlySorted(files[1..])
    && forall i :: 0 < i < |files| ==> Allows(allow, files[i].path)
  }

  lemma BundleIsAdmitted(h: Harvester, rec: Record, files: seq<File>)
    requires IsBundle(h, rec, files)
    ensures Admitted(h.allow, files)
  {
    forall i | 0 < i < |files|
      ensures Allows(h.allow, files[i].path)
    {
      DependenciesAreAllowed(h, files[0].body, files[1..], i - 1);
    }
  }

  lemma BundlePathsDiffer(allow: seq<string>, files: seq<File>, i: nat, j: nat)
    requires Admitted(allow, files) && i < j < |files|
    ensures files[i].path != files[j].path
  {
    if i > 0 {
      assert files[1..][i - 1] == files[i] && files[1..][j - 1] == files[j];
      PathLessIsIrreflexive(files[i].path);
    }
  }

  lemma BundleLeavesOut(allow: seq<string>, files: seq<File>, i: nat, path: string)
    requires Admitted(allow, files) && i < |files| && !Allows(allow, path) && files[0].path != path
    ensures files[i].path != path
  {
    if i > 0 {
      assert Allows(allow, files[i].path);
    }
  }

  lemma BundleLeavesTheManifestName(h: Harvester, rec: Record, files: seq<File>, i: nat)
    requires IsBundle(h, rec, files) && i < |files|
    ensures files[i].path != MANIFEST_PATH
  {
    BundleIsAdmitted(h, rec, files);
    EntryIsNotTheManifest(rec.slug);
    BundleLeavesOut(h.allow, files, i, MANIFEST_PATH);
  }

  // ---- Keys ----

  lemma ObjectKeys(p: Pipeline, maxRetries: nat, backoff: Backoff.Policy, pins: map<string, Pin>, dep: string, i: nat)
    requires i < |ObjectsOf(ConfigFor(p, maxRetries, backoff), pins, dep)|
    ensures dep in pins && i < |pins[dep].files|
    ensures var o := ObjectsOf(ConfigFor(p, maxRetries, backoff), pins, dep)[i];
            IsObjectOf(p, BasePathOf(p, dep, pins[dep].rec), pins[dep].files[i], o)
    ensures HasPrefix(pins[dep].files[i].path, "/")
  {
    ObjectsMatchFiles(p, BasePathOf(p, dep, Identity(pins[dep].rec)), pins[dep].files);
  }

  lemma ManifestKeyIsUnderBase(p: Pipeline, dep: string, rec: Record)
    ensures ManifestKeyOf(p, dep, rec) == BasePathOf(p, dep, rec) + MANIFEST_PATH && HasPrefix(MANIFEST_PATH, "/")
  {
    var base := BasePathOf(p, dep, rec);
    assert (base + "/") + MANIFEST_FILENAME == base + ("/" + MANIFEST_FILENAME);
  }

  lemma ManifestObjectKey(p: Pipeline, maxRetries: nat, backoff: Backoff.Policy, pins: map<string, Pin>, dep: string,
                          m: Object)
    requires IsManifest(ConfigFor(p, maxRetries, backoff), pins, dep, m)
    ensures dep in pins && m.key == BasePathOf(p, dep, pins[dep].rec) + MANIFEST_PATH
    ensures HasPrefix(MANIFEST_PATH, "/")
  {
    ManifestKeyIsUnderBase(p, dep, pins[dep].rec);
  }

  /** Two deployments' keys coincide only for the same deployment and the same path. */
  lemma SameKeySamePath(p: Pipeline, sources: Sources, pins: map<string, Pin>, d: string, path: string, d': string,
                        path': string)
    requires PinsOk(sources, pins) && d in pins && d' in pins && HasPrefix(path, "/") && HasPrefix(path', "/")
    requires BasePathOf(p, d, pins[d].rec) + path == BasePathOf(p, d', pins[d'].rec) + path'
    ensures d == d' && path == path'
  {
    KeysOfDeploymentsAreDisjoint(p.basePrefix, pins[d].rec.site, d, path, pins[d'].rec.site, d', path');
  }

  /** No two objects of the pinned exports, manifests included, share a key. */
  lemma PipelineKeysAreApart(p: Pipeline, maxRetries: nat, backoff: Backoff.Policy, sources: Sources,
                             pins: map<string, Pin>)
    requires PinsOk(sources, pins)
    ensures KeysApart(ConfigFor(p, maxRetries, backoff), pins)
  {
    var c := ConfigFor(p, maxRetries, backoff);
    forall d, i, d', j | 0 <= i < |ObjectsOf(c, pins, d)| && 0 <= j < |ObjectsOf(c, pins, d')| &&
                         ObjectsOf(c, pins, d)[i].key == ObjectsOf(c, pins, d')[j].key
      ensures d == d' && i == j
    {
      ObjectKeys(p, maxRetries, backoff, pins, d, i);
      ObjectKeys(p, maxRetries, backoff, pins, d', j);
      SameKeySamePath(p, sources, pins, d, pins[d].files[i].path, d', pins[d'].files[j].path);
      if i != j {
        BundleIsAdmitted(sources.For(d), pins[d].rec, pins[d].files);
        BundlePathsDiffer(sources.allow, pins[d].files, if i < j then i else j, if i < j then j else i);
      }
    }
    forall d, i, d', m | 0 <= i < |ObjectsOf(c, pins, d)| && IsManifest(c, pins, d', m)
      ensures ObjectsOf(c, pins, d)[i].key != m.key
    {
      ObjectKeys(p, maxRetries, backoff, pins, d, i);
      ManifestObjectKey(p, maxRetries, backoff, pins, d', m);
      BundleLeavesTheManifestName(sources.For(d), pins[d].rec, pins[d].files, i);
      if ObjectsOf(c, pins, d)[i].key == m.key {
        SameKeySamePath(p, sources, pins, d, pins[d].files[i].path, d', MANIFEST_PATH);
      }
    }
    forall d, m, d', m' | IsManifest(c, pins, d, m) && IsManifest(c, pins, d', m') && m.key == m'.key
      ensures d == d'
    {
      ManifestObjectKey(p, maxRetries, backoff, pins, d, m);
      ManifestObjectKey(p, maxRetries, backoff, pins, d', m');
      SameKeySamePath(p, sources, pins, d, MANIFEST_PATH, d', MANIFEST_PATH);
    }
  }

  // ---- The artifact ----

  /** A manifest line says what the file is and where it is kept. */
  predicate LineStates(p: Pipeline, home: string, line: ManifestFile, f: File) {
    && line.path == f.path && line.storageKey == home + f.path
    && line.contentHash == "sha256-" + p.codec.sha(f.body) && line.sizeBytes == |f.body|
    && line.mimeType == f.mimeType && line.cacheControl == p.cacheControl(f.path, f.mimeType)
  }

  /** A manifest says what the record says, where the artifact is, and each file of it. */
  predicate ManifestStates(p: Pipeline, dep: string, pin: Pin, m: Manifest) {
    && m.dep == dep && m.site == pin.rec.site && m.page == pin.rec.page && m.slug == pin.rec.slug
    && m.version == pin.rec.version && m.environment == pin.rec.environment && m.renderMode == pin.rec.renderMode
    && m.basePath == Home(p, dep, pin.rec) && m.createdAt == pin.createdAt
    && SlugPaths(pin.rec.slug) == Success((m.entry, m.route))
    && |m.files| == |pin.files|
    && forall i :: 0 <= i < |m.files| ==> LineStates(p, Home(p, dep, pin.rec), m.files[i], pin.files[i])
  }

  /** The pointer registered with the deployment service. */
  predicate PointerStates(p: Pipeline, dep: string, pin: Pin, digest: string, pointer: Pointer) {
    && pointer.manifestKey == Home(p, dep, pin.rec) + "/artifact-manifest.json" && pointer.digest == digest
    && pointer.basePath == Home(p, dep, pin.rec) && SlugPaths(pin.rec.slug) == Success((pointer.entry, pointer.route))
    && pointer.filesCount == |pin.files| && pointer.totalBytes == TotalBytes(pin.files)
  }

  /** The ready event: the record's own fields, where the artifact is, its digest, its entry and its size. */
  predicate EventStates(p: Pipeline, dep: string, pin: Pin, digest: string, facts: ReadyFacts) {
    && StatesRecord(p, dep, pin.rec, facts) && facts.digest == digest
    && SlugPaths(pin.rec.slug).Success? && facts.entry == SlugPaths(pin.rec.slug).value.0
    && facts.filesCount == |pin.files| && facts.totalBytes == TotalBytes(pin.files)
  }

  /** The object under a line's key has the hash the line records. */
  ghost predicate LineStored(w: World, line: ManifestFile) {
    line.storageKey in w.store && HASH_PREFIX + w.store[line.storageKey].sha == line.contentHash
  }

  /** The artifact in the systems around the worker, as this manifest describes it. */
  ghost predicate DescribedBy(p: Pipeline, w: World, dep: string, pin: Pin, m: Manifest) {
    var digest := "sha256-" + p.codec.sha(p.codec.encode(m));
    var key := Home(p, dep, pin.rec) + "/artifact-manifest.json";
    && ManifestStates(p, dep, pin, m)
    && key in w.store && HASH_PREFIX + w.store[key].sha == digest
    && dep in w.pointers && PointerStates(p, dep, pin, digest, w.pointers[dep])
    && forall i :: 0 <= i < |m.files| ==> LineStored(w, m.files[i])
  }

  /** The stored manifest of this deployment describes what is stored. */
  ghost predicate ArtifactStored(p: Pipeline, w: World, dep: string, pin: Pin) {
    exists m :: DescribedBy(p, w, dep, pin, m)
  }

  /** The manifest computed for a pin states what it should. */
  lemma ManifestSays(p: Pipeline, dep: string, pin: Pin)
    requires ManifestFor(p, dep, pin.rec, pin.files, pin.createdAt).Success?
    ensures ManifestStates(p, dep, pin, ManifestFor(p, dep, pin.rec, pin.files, pin.createdAt).value)
  {
    ObjectsMatchFiles(p, BasePathOf(p, dep, pin.rec), pin.files);
    assert BasePathOf(p, dep, pin.rec) == Home(p, dep, pin.rec);
  }

  lemma ManifestStatesOneThing(p: Pipeline, dep: string, pin: Pin, m: Manifest, n: Manifest)
    requires ManifestStates(p, dep, pin, m) && ManifestStates(p, dep, pin, n)
    ensures m == n
  {
    forall i | 0 <= i < |m.files|
      ensures m.files[i] == n.files[i]
    {
      assert LineStates(p, Home(p, dep, pin.rec), m.files[i], pin.files[i]);
      assert LineStates(p, Home(p, dep, pin.rec), n.files[i], pin.files[i]);
    }
  }

  /** What a pinned manifest object is. */
  lemma ManifestOfPin(p: Pipeline, maxRetries: nat, backoff: Backoff.Policy, pins: map<string, Pin>, dep: string,
                      m: Object)
    requires IsManifest(ConfigFor(p, maxRetries, backoff), pins, dep, m)
    ensures dep in pins && var pin := pins[dep];
            && ManifestFor(p, dep, pin.rec, pin.files, pin.createdAt).Success?
            && m.key == ManifestKeyOf(p, dep, pin.rec)
            && m.sha == p.codec.sha(p.codec.encode(ManifestFor(p, dep, pin.rec, pin.files, pin.createdAt).value))
            && ObjectsFor(p, BasePathOf(p, dep, pin.rec), pin.files)
                == Success(ObjectsOf(ConfigFor(p, maxRetries, backoff), pins, dep))
  {
    var pin := pins[dep];
    assert ManifestFor(p, dep, pin.rec, pin.files, pin.createdAt)
           == ManifestFor(p, dep, Identity(pin.rec), pin.files, pin.createdAt);
  }

  /** The manifest lists the objects, file by file. */
  lemma ManifestListsObjects(p: Pipeline, dep: string, rec: Record, files: seq<File>, at: string, objects: seq<Object>,
                             i: nat)
    requires ManifestFor(p, dep, rec, files, at).Success? && i < |files|
    requires ObjectsFor(p, BasePathOf(p, dep, rec), files) == Success(objects)
    ensures var m := ManifestFor(p, dep, rec, files, at).value;
            && |m.files| == |files| == |objects|
            && m.files[i].path == files[i].path && m.files[i].storageKey == objects[i].key
            && m.files[i].contentHash == HASH_PREFIX + objects[i].sha && objects[i].sha == p.codec.sha(files[i].body)
  {
    ObjectsMatchFiles(p, BasePathOf(p, dep, rec), files);
  }

  lemma CompleteMeansStored(p: Pipeline, maxRetries: nat, backoff: Backoff.Policy, pins: map<string, Pin>, w: World,
                            dep: string)
    requires Complete(ConfigFor(p, maxRetries, backoff), pins, w, dep)
    ensures dep in pins && ArtifactStored(p, w, dep, pins[dep])
  {
    var c := ConfigFor(p, maxRetries, backoff);
    var m :| IsManifest(c, pins, dep, m) && Right(w, m) && dep in w.pointers
             && w.pointers[dep] == c.pointer(dep, Identity(PinOf(pins, dep).rec), PinOf(pins, dep).files, m);
    ManifestOfPin(p, maxRetries, backoff, pins, dep, m);
    var pin := pins[dep];
    var manifest := ManifestFor(p, dep, pin.rec, pin.files, pin.createdAt).value;
    var objects := ObjectsOf(c, pins, dep);
    ManifestSays(p, dep, pin);
    forall i | 0 <= i < |manifest.files|
      ensures LineStored(w, manifest.files[i])
    {
      ManifestListsObjects(p, dep, pin.rec, pin.files, pin.createdAt, objects, i);
      assert Right(w, objects[i]);
    }
    PointerSays(p, dep, pin, m);
    ManifestKeyIsUnderBase(p, dep, pin.rec);
    assert DescribedBy(p, w, dep, pin, manifest);
  }

  lemma PointerSays(p: Pipeline, dep: string, pin: Pin, m: Object)
    requires SlugPaths(pin.rec.slug).Success?
    ensures PointerStates(p, dep, pin, "sha256-" + m.sha, PointerFor(p, dep, Identity(pin.rec), pin.files, m))
  {
    ManifestKeyIsUnderBase(p, dep, pin.rec);
  }

  /** ARTIFACT_READY implies a complete artifact, for the pipeline as it is: after any run with pinned renders
      and dates, a deployment a worker ever set ARTIFACT_READY has its manifest stored, a registered pointer
      carrying that manifest's digest, and every file the manifest lists stored under its key with the
      recorded hash. */
  lemma ReadyArtifactIsStored(p: Pipeline, maxRetries: nat, backoff: Backoff.Policy, sources: Sources,
                              pins: map<string, Pin>,
                              s: Sys, actions: seq<Action>, i: nat)
    requires PinsOk(sources, pins) && Initial(s) && RecordsPinned(s.w.records, pins)
    requires var c := ConfigFor(p, maxRetries, backoff); PinnedRun(c, pins, s, actions)
    requires var t := End(ConfigFor(p, maxRetries, backoff), s, actions);
             i < |t.hist.moves| && t.hist.moves[i].to.ArtifactReady?
    ensures var t := End(ConfigFor(p, maxRetries, backoff), s, actions);
            var dep := t.hist.moves[i].dep;
            dep in pins && ArtifactStored(p, t.w, dep, pins[dep])
  {
    var c := ConfigFor(p, maxRetries, backoff);
    PipelineIgnoresStatus(p, maxRetries, backoff);
    PipelineKeysAreApart(p, maxRetries, backoff, sources, pins);
    ReadyMeansComplete(c, pins, s, actions, i);
    CompleteMeansStored(p, maxRetries, backoff, pins, End(c, s, actions).w, End(c, s, actions).hist.moves[i].dep);
  }

  // ---- What goes wrong without the hypotheses ----

  lemma PipelineCaseFits(p: Pipeline, maxRetries: nat, backoff: Backoff.Policy, dep: string, pin: Pin,
                         objects: seq<Object>, m: Object)
    requires pin.rec.status.ExportQueued? && pin.createdAt != ""
    requires LimitedObjects(p, BasePathOf(p, dep, pin.rec), pin.files) == Success(objects)
    requires StoredManifest(p, dep, pin.rec, pin.files, pin.createdAt) == Success(m)
    ensures Scripts.Case(dep, pin.rec, pin.files, objects, pin.createdAt, m).Fits(ConfigFor(p, maxRetries, backoff))
  {
  }

  /** The ready event of every queued deployment of this pipeline whose export has a valid manifest can be lost in
      each of four ways: with every rule kept, by an invalid payload that displaces the retry or by a delivery
      given up; and with one rule broken, by a reclaimed twin or by a late removal. */
  lemma PipelineCanLoseTheReadyEvent(p: Pipeline, maxRetries: nat, backoff: Backoff.Policy, keyOf: string -> string,
                                     s: Sys, dep: string, pin: Pin, objects: seq<Object>, m: Object,
                                     code: ErrClass.Code, refused: ErrClass.Code)
    requires Initial(s) && dep in s.w.records && s.w.records[dep] == pin.rec && maxRetries >= 1
    requires pin.rec.status.ExportQueued? && pin.createdAt != ""
    requires LimitedObjects(p, BasePathOf(p, dep, pin.rec), pin.files) == Success(objects)
    requires StoredManifest(p, dep, pin.rec, pin.files, pin.createdAt) == Success(m)
    requires ErrClass.Retryable(code) && !ErrClass.Retryable(refused)
    ensures var c := ConfigFor(p, maxRetries, backoff);
            && ReadyEvent.ConfigOk(c)
            && (exists actions :: ReadyEvent.GuardedRun(c, keyOf, s, actions) &&
                  var t := End(c, s, actions); LostEvents.EventLost(t, dep) && dep in t.hist.displaced)
            && (exists actions :: ReadyEvent.GuardedRun(c, keyOf, s, actions) &&
                  var t := End(c, s, actions); LostEvents.EventLost(t, dep) && ReadyEvent.DroppedReady(t.hist, dep))
            && (exists t :: Scripts.Reaches(Scripts.Rules(c, keyOf, false, true, true), s, t) &&
                  LostEvents.EventLost(t, dep) && LostEvents.NothingGivenUp(t.hist))
            && (exists t :: Scripts.Reaches(Scripts.Rules(c, keyOf, true, false, true), s, t) &&
                  LostEvents.EventLost(t, dep) && LostEvents.NothingGivenUp(t.hist))
  {
    var c := ConfigFor(p, maxRetries, backoff);
    var e := Scripts.Case(dep, pin.rec, pin.files, objects, pin.createdAt, m);
    PipelineNamesItsDeployment(p, maxRetries, backoff);
    PipelineCaseFits(p, maxRetries, backoff, dep, pin, objects, m);
    LostEvents.InvalidPayloadCanLoseTheReadyEvent(c, keyOf, s, e, code);
    LostEvents.DroppedDeliveryCanLoseTheReadyEvent(c, keyOf, s, e, refused);
    LostEvents.ReclaimedTwinCanLoseTheReadyEvent(c, keyOf, s, e);
    LostEvents.LateRemovalCanLoseTheReadyEvent(c, keyOf, s, e, code);
  }

  /** Without the pinned upload context it fails for this pipeline too: from every initial state with nothing
      stored, for every queued deployment whose export has a valid manifest, this run ends ARTIFACT_READY, with
      the manifest stored and its first file, the page, missing. */
  lemma ExpiryLeavesThePageUnstored(p: Pipeline, maxRetries: nat, backoff: Backoff.Policy, s: Sys, dep: string,
                                    pin: Pin,
                                    objects: seq<Object>, m: Object)
    requires Initial(s) && s.w.store == map[] && dep in s.w.records && s.w.records[dep] == pin.rec
    requires pin.rec.status.ExportQueued? && pin.createdAt != ""
    requires pin.files != [] && pin.files[0].path != MANIFEST_PATH
    requires LimitedObjects(p, BasePathOf(p, dep, pin.rec), pin.files) == Success(objects)
    requires StoredManifest(p, dep, pin.rec, pin.files, pin.createdAt) == Success(m)
    ensures var c, e := ConfigFor(p, maxRetries, backoff),
              Scripts.Case(dep, pin.rec, pin.files, objects, pin.createdAt, m);
            Run(c, s, ExpiredUpload.Steps(e)) &&
            var t := End(c, s, ExpiredUpload.Steps(e));
            && dep in t.w.records && t.w.records[dep].status.ArtifactReady? && m.key in t.w.store
            && |t.w.ready| > 0 && !ArtifactStored(p, t.w, dep, pin)
  {
    var c := ConfigFor(p, maxRetries, backoff);
    var e := Scripts.Case(dep, pin.rec, pin.files, objects, pin.createdAt, m);
    PipelineCaseFits(p, maxRetries, backoff, dep, pin, objects, m);
    ObjectsMatchFiles(p, BasePathOf(p, dep, pin.rec), pin.files);
    PageKeyIsNotTheManifests(p, dep, pin.rec, pin.files[0].path);
    ManifestListsObjects(p, dep, pin.rec, pin.files, pin.createdAt, objects, 0);
    ExpiredUpload.ExpiryCanFinishIncomplete(c, s, e, 0);
    var t := End(c, s, ExpiredUpload.Steps(e));
    assert BasePathOf(p, dep, pin.rec) == Home(p, dep, pin.rec);
    forall n | ManifestStates(p, dep, pin, n)
      ensures !LineStored(t.w, n.files[0])
    {
      assert LineStates(p, Home(p, dep, pin.rec), n.files[0], pin.files[0]);
    }
  }

  lemma PageKeyIsNotTheManifests(p: Pipeline, dep: string, rec: Record, path: string)
    requires path != MANIFEST_PATH
    ensures BasePathOf(p, dep, rec) + path != ManifestKeyOf(p, dep, rec)
  {
    var base := BasePathOf(p, dep, rec);
    ManifestKeyIsUnderBase(p, dep, rec);
    assert (base + path)[|base|..] == path && (base + MANIFEST_PATH)[|base|..] == MANIFEST_PATH;
  }

  // ---- The events ----

  /** JSON keeps the pinned manifests whole. */
  ghost predicate TextManifests(p: Pipeline, pins: map<string, Pin>) {
    forall d :: d in pins && ManifestFor(p, d, pins[d].rec, pins[d].files, pins[d].createdAt).Success? ==>
      p.codec.IsText(ManifestFor(p, d, pins[d].rec, pins[d].files, pins[d].createdAt).value)
  }

  lemma StoredEventIsPinned(p: Pipeline, maxRetries: nat, backoff: Backoff.Policy, pins: map<string, Pin>, dep: string,
                            m: Object, rec: Record)
    requires p.codec.Invertible() && TextManifests(p, pins)
    requires IsManifest(ConfigFor(p, maxRetries, backoff), pins, dep, m)
    requires Identity(rec) == Identity(PinOf(pins, dep).rec)
    ensures StoredFactsFor(p, dep, rec, m.body) == Some(FactsFor(p, dep, Identity(pins[dep].rec), pins[dep].files, m))
  {
    var pin := pins[dep];
    assert ManifestFor(p, dep, pin.rec, pin.files, pin.createdAt)
           == ManifestFor(p, dep, Identity(pin.rec), pin.files, pin.createdAt);
    assert StoredManifest(p, dep, Identity(pin.rec), pin.files, pin.createdAt) == Success(m);
    assert rec.(status := Pending) == Identity(pin.rec);
    ReemitFidelity(p, dep, Identity(pin.rec), pin.files, pin.createdAt, m, rec);
  }

  lemma ManifestKeysAreTheirOwn(p: Pipeline, maxRetries: nat, backoff: Backoff.Policy, sources: Sources,
                                pins: map<string, Pin>,
                                dep: string, i: nat, d: string)
    requires PinsOk(sources, pins) && d in pins && i < |ObjectsOf(ConfigFor(p, maxRetries, backoff), pins, dep)|
    ensures ObjectsOf(ConfigFor(p, maxRetries, backoff), pins, dep)[i].key != ManifestKeyOf(p, d, pins[d].rec)
  {
    ObjectKeys(p, maxRetries, backoff, pins, dep, i);
    BundleLeavesTheManifestName(sources.For(dep), pins[dep].rec, pins[dep].files, i);
    ManifestKeyIsUnderBase(p, d, pins[d].rec);
    if ObjectsOf(ConfigFor(p, maxRetries, backoff), pins, dep)[i].key == ManifestKeyOf(p, d, pins[d].rec) {
      SameKeySamePath(p, sources, pins, dep, pins[dep].files[i].path, d, MANIFEST_PATH);
    }
  }

  lemma PipelineRebuildsEvents(p: Pipeline, maxRetries: nat, backoff: Backoff.Policy, sources: Sources,
                               pins: map<string, Pin>)
    requires PinsOk(sources, pins) && p.codec.Invertible() && TextManifests(p, pins)
    ensures ReadyAgreement.EventsRebuild(ConfigFor(p, maxRetries, backoff), pins)
  {
    var c := ConfigFor(p, maxRetries, backoff);
    forall dep, m | IsManifest(c, pins, dep, m)
      ensures m.key == ReadyAgreement.KeyOf(c, pins, dep)
    {
      ManifestObjectKey(p, maxRetries, backoff, pins, dep, m);
      ManifestKeyIsUnderBase(p, dep, pins[dep].rec);
    }
    forall dep, i, d | 0 <= i < |ObjectsOf(c, pins, dep)| && d in pins
      ensures ObjectsOf(c, pins, dep)[i].key != ReadyAgreement.KeyOf(c, pins, d)
    {
      ManifestKeysAreTheirOwn(p, maxRetries, backoff, sources, pins, dep, i, d);
    }
    forall d, e | d in pins && e in pins && ReadyAgreement.KeyOf(c, pins, d) == ReadyAgreement.KeyOf(c, pins, e)
      ensures d == e
    {
      SameManifestKey(p, sources, pins, d, e);
    }
    forall dep, m, rec | IsManifest(c, pins, dep, m) && Identity(rec) == Identity(PinOf(pins, dep).rec)
      ensures c.storedFacts(dep, rec, m.body)
                == Some(c.facts(dep, Identity(PinOf(pins, dep).rec), PinOf(pins, dep).files, m))
    {
      StoredEventIsPinned(p, maxRetries, backoff, pins, dep, m, rec);
    }
  }

  lemma SameManifestKey(p: Pipeline, sources: Sources, pins: map<string, Pin>, d: string, e: string)
    requires PinsOk(sources, pins) && d in pins && e in pins
    requires ManifestKeyOf(p, d, pins[d].rec) == ManifestKeyOf(p, e, pins[e].rec)
    ensures d == e
  {
    ManifestKeyIsUnderBase(p, d, pins[d].rec);
    ManifestKeyIsUnderBase(p, e, pins[e].rec);
    SameKeySamePath(p, sources, pins, d, MANIFEST_PATH, e, MANIFEST_PATH);
  }

  /** Duplicate ready events of the pipeline are exact, re-emissions from stored manifests included. */
  lemma PipelineEventsAgree(p: Pipeline, maxRetries: nat, backoff: Backoff.Policy, sources: Sources,
                            pins: map<string, Pin>,
                            s: Sys, actions: seq<Action>, i: nat, j: nat)
    requires PinsOk(sources, pins) && p.codec.Invertible() && TextManifests(p, pins)
    requires Initial(s) && RecordsPinned(s.w.records, pins)
    requires forall d :: d in pins ==> ManifestKeyOf(p, d, pins[d].rec) !in s.w.store
    requires var c := ConfigFor(p, maxRetries, backoff); PinnedRun(c, pins, s, actions)
    requires var ready := End(ConfigFor(p, maxRetries, backoff), s, actions).w.ready;
             i < |ready| && j < |ready| && ready[i].dep == ready[j].dep
    ensures var ready := End(ConfigFor(p, maxRetries, backoff), s, actions).w.ready; ready[i] == ready[j]
  {
    var c := ConfigFor(p, maxRetries, backoff);
    PipelineIgnoresStatus(p, maxRetries, backoff);
    PipelineKeysAreApart(p, maxRetries, backoff, sources, pins);
    PipelineRebuildsEvents(p, maxRetries, backoff, sources, pins);
    KeysAbsent(p, maxRetries, backoff, pins, s.w.store);
    ReadyAgreement.ReadyEventsOfADeploymentAgree(c, pins, s, actions, i, j);
  }

  lemma FactsSay(p: Pipeline, dep: string, pin: Pin, m: Object)
    requires SlugPaths(pin.rec.slug).Success?
    ensures EventStates(p, dep, pin, "sha256-" + m.sha, FactsFor(p, dep, Identity(pin.rec), pin.files, m))
  {
    ManifestKeyIsUnderBase(p, dep, pin.rec);
  }

  lemma EventSays(p: Pipeline, maxRetries: nat, backoff: Backoff.Policy, pins: map<string, Pin>, dep: string,
                  facts: ReadyFacts)
    requires ReadyAgreement.IsEvent(ConfigFor(p, maxRetries, backoff), pins, dep, facts)
    ensures dep in pins
    ensures exists m :: ManifestStates(p, dep, pins[dep], m) &&
                        EventStates(p, dep, pins[dep], "sha256-" + p.codec.sha(p.codec.encode(m)), facts)
  {
    var c := ConfigFor(p, maxRetries, backoff);
    var m :| IsManifest(c, pins, dep, m)
             && facts == c.facts(dep, Identity(PinOf(pins, dep).rec), PinOf(pins, dep).files, m);
    ManifestOfPin(p, maxRetries, backoff, pins, dep, m);
    ManifestSays(p, dep, pins[dep]);
    FactsSay(p, dep, pins[dep], m);
  }

  /** What the ready events say, re-emissions from stored manifests included: in every pinned run, every event on the
      outcome stream has its deployment's record fields, the place of its artifact, the digest of the manifest that
      states this artifact, the slug's entry, and the number and total size of its files. */
  lemma PipelineEventsStateTheArtifact(p: Pipeline, maxRetries: nat, backoff: Backoff.Policy, sources: Sources,
                                       pins: map<string, Pin>, s: Sys, actions: seq<Action>, i: nat)
    requires PinsOk(sources, pins) && p.codec.Invertible() && TextManifests(p, pins)
    requires Initial(s) && RecordsPinned(s.w.records, pins)
    requires forall d :: d in pins ==> ManifestKeyOf(p, d, pins[d].rec) !in s.w.store
    requires var c := ConfigFor(p, maxRetries, backoff); PinnedRun(c, pins, s, actions)
    requires i < |End(ConfigFor(p, maxRetries, backoff), s, actions).w.ready|
    ensures var facts := End(ConfigFor(p, maxRetries, backoff), s, actions).w.ready[i];
            facts.dep in pins &&
            exists m :: ManifestStates(p, facts.dep, pins[facts.dep], m) &&
              EventStates(p, facts.dep, pins[facts.dep], "sha256-" + p.codec.sha(p.codec.encode(m)), facts)
  {
    var c := ConfigFor(p, maxRetries, backoff);
    PipelineIgnoresStatus(p, maxRetries, backoff);
    PipelineKeysAreApart(p, maxRetries, backoff, sources, pins);
    PipelineRebuildsEvents(p, maxRetries, backoff, sources, pins);
    KeysAbsent(p, maxRetries, backoff, pins, s.w.store);
    ReadyAgreement.EveryEventIsPinned(c, pins, s, actions, i);
    EventSays(p, maxRetries, backoff, pins, End(c, s, actions).w.ready[i].dep, End(c, s, actions).w.ready[i]);
  }

  lemma KeysAbsent(p: Pipeline, maxRetries: nat, backoff: Backoff.Policy, pins: map<string, Pin>,
                   store: map<string, Object>)
    requires forall d :: d in pins ==> ManifestKeyOf(p, d, pins[d].rec) !in store
    ensures forall d :: d in pins ==> ReadyAgreement.KeyOf(ConfigFor(p, maxRetries, backoff), pins, d) !in store
  {
    forall d | d in pins
      ensures ReadyAgreement.KeyOf(ConfigFor(p, maxRetries, backoff), pins, d) !in store
    {
      assert ReadyAgreement.KeyOf(ConfigFor(p, maxRetries, backoff), pins, d) == ManifestKeyOf(p, d, pins[d].rec);
    }
  }
}
