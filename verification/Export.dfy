/** The export pipeline as the worker runs it, stage by stage: render and harvest, upload, manifest, pointer,
    status write, ready event. */
module Export {
  import opened Wrappers
  import opened ErrClass
  import opened Deployment
  import opened Types
  import opened Manifest
  import opened Protocol
  import opened Pipeline
  import opened Session
  import Paths

  /** What the exporter returns: nil, the emit-pending marker, or a classified error. */
  datatype ExportResult = ExportDone | EmitPending | ExportError(code: Code)

  /** What the uploads came to. */
  datatype UploadResult = UploadDone | UploadFailed(code: Code)

  ghost predicate Runs(s: Conversation, p: Pipeline)
    reads s
  {
    s.Valid() && exists maxRetries: nat, backoff :: s.config == ConfigFor(p, maxRetries, backoff)
  }

  /** The protocol is where an exporter that returned this leaves it. */
  ghost predicate Reports(s: Conversation, rec: Record, e: ExportResult)
    reads s
  {
    match e
    case ExportDone => s.pc == Acking(AckReason.Exported)
    case EmitPending => s.pc == Done(NoAck)
    case ExportError(code) => s.pc == FailPc(s.config, s.job, Some(rec), code)
  }

  /** Waits for every object to be stored or found stored; stops at the first failure. A pool whose context
      expires while objects are still being handed out ends without an error. */
  method UploadObjects(s: Conversation, p: Pipeline, rec: Record, files: seq<File>, objects: seq<Object>)
    returns (u: UploadResult)
    requires Runs(s, p) && s.pc == UploadPc(s.config, s.job, rec, files, objects, Indices(|objects|))
    modifies s
    ensures Runs(s, p)
    ensures match u
            case UploadDone => s.pc == ManifestPc(s.config, s.job, rec, files)
            case UploadFailed(code) => s.pc == FailPc(s.config, s.job, Some(rec), code)
  {
    var left := Indices(|objects|);
    while left != {}
      invariant Runs(s, p) && s.pc == UploadPc(s.config, s.job, rec, files, objects, left)
      decreases left
    {
      var r := s.Call(AwaitUpload(objects, left));
      match r {
        case Uploaded(index) => left := left - {index};
        case Skipped(index) => left := left - {index};
        case Expired => return UploadDone;
        case UploadLost(_, code) => return UploadFailed(code);
        case Err(code) => return UploadFailed(code);
        case _ => assert false;
      }
    }
    return UploadDone;
  }

  /** EXPORTING to ARTIFACT_READY; says whether the ready event is to be emitted. */
  method CasReady(s: Conversation, p: Pipeline, rec: Record, files: seq<File>, manifest: Object)
    returns (emit: bool, code: Option<Code>)
    requires Runs(s, p) && s.pc == Pc.CasReady(rec, files, manifest)
    modifies s
    ensures Runs(s, p)
    ensures exists r :: s.trace == old(s.trace) + [Event(Cas(DepOf(s.job.payload), Exporting, ArtifactReady), r)]
    ensures match code
            case Some(c) => s.pc == FailPc(s.config, s.job, Some(rec), c)
            case None =>
              s.pc == if emit then Emitting(FactsFor(p, DepOf(s.job.payload), rec, files, manifest))
                  else Acking(AckReason.Exported)
  {
    var r := s.Call(Cas(DepOf(s.job.payload), Exporting, ArtifactReady));
    match r {
      case Ok => return true, None;
      case Conflict(current) =>
        if current.ArtifactReady? {
          return true, None;
        }
        if NonActionable(current) {
          return false, None;
        }
        return false, Some(VALIDATION_FAILED);
      case Err(c) => return false, Some(c);
      case Lost(c) => return false, Some(c);
      case _ => assert false;
    }
  }

  /** The manifest's date: the event's, else that of a readable stored manifest, else the clock's. Only an
      undated event asks the storage, and whatever it answers the export goes on with that date. */
  method ManifestCreatedAt(s: Conversation, p: Pipeline, rec: Record, files: seq<File>, key: string)
    returns (at: string)
    requires Runs(s, p) && s.pc == ManifestPc(s.config, s.job, rec, files)
    requires key == ManifestKeyOf(p, DepOf(s.job.payload), rec)
    modifies s
    ensures Runs(s, p) && s.pc == DatedPc(s.config, s.job, rec, files, at)
    ensures CreatedAtOf(s.job.payload) != "" ==> s.trace == old(s.trace) && at == CreatedAtOf(s.job.payload)
    ensures CreatedAtOf(s.job.payload) == "" ==>
              exists stored, clock ::
                && s.trace == old(s.trace) + [Event(ChooseCreatedAt(key), Prior(stored, clock))]
                && at == StoredDate(p, stored, clock)
  {
    at := CreatedAtOf(s.job.payload);
    if at != "" {
      return;
    }
    var r := s.Call(ChooseCreatedAt(key));
    at := r.clock;
    if r.stored.FetchedBytes? {
      var prior := p.codec.decode(r.stored.body);
      if prior.Some? && prior.value.createdAt != "" {
        at := prior.value.createdAt;
      }
    }
    assert at == StoredDate(p, r.stored, r.clock);
  }

  /** Stores the manifest and registers its pointer. */
  method Register(s: Conversation, p: Pipeline, rec: Record, files: seq<File>, manifest: Object, pointer: Pointer)
    returns (code: Option<Code>)
    requires Runs(s, p) && s.pc == PuttingManifest(rec, files, manifest)
    requires pointer == PointerFor(p, DepOf(s.job.payload), rec, files, manifest)
    modifies s
    ensures Runs(s, p)
    ensures s.pc == match code
                    case Some(c) => FailPc(s.config, s.job, Some(rec), c)
                    case None => Pc.CasReady(rec, files, manifest)
  {
    var put := s.Call(PutManifest(manifest));
    if put.Err? || put.Lost? {
      return Some(put.code);
    }
    var submitted := s.Call(SubmitPointer(DepOf(s.job.payload), pointer));
    code := ErrorOf(submitted);
  }

  /** Writes ARTIFACT_READY and emits the ready event. */
  method Announce(s: Conversation, p: Pipeline, rec: Record, files: seq<File>, manifest: Object,
                  entry: string, totalBytes: nat)
    returns (e: ExportResult)
    requires Runs(s, p) && s.pc == Pc.CasReady(rec, files, manifest)
    requires entry == EntryOf(rec).0 && totalBytes == TotalBytes(files)
    modifies s
    ensures Runs(s, p) && Reports(s, rec, e)
    ensures old(s.trace) <= s.trace
    ensures forall k :: |old(s.trace)| <= k < |s.trace| && s.trace[k].op.EmitReady? ==>
              var facts := s.trace[k].op.facts;
              && k == |s.trace| - 1 && (e.ExportDone? <==> s.trace[k].reply.Ok?)
              && StatesRecord(p, DepOf(s.job.payload), rec, facts) && facts.digest == "sha256-" + manifest.sha
              && facts.entry == entry && facts.filesCount == |files| && facts.totalBytes == totalBytes
  {
    var emit, failure := CasReady(s, p, rec, files, manifest);
    if failure.Some? {
      return ExportError(failure.value);
    }
    if !emit {
      return ExportDone;
    }
    var digest := HASH_PREFIX + manifest.sha;
    var facts := BuildReady(p, DepOf(s.job.payload), rec, digest, entry, |files|, totalBytes);
    BuiltEventStatesRecord(p, DepOf(s.job.payload), rec, digest, entry, |files|, totalBytes);
    var emitted := s.Call(EmitReady(facts));
    e := if emitted.Ok? then ExportDone else EmitPending;
  }

  /** After the uploads: manifest, pointer, status write and event. */
  method FinishExport(s: Conversation, p: Pipeline, rec: Record, files: seq<File>, ghost objects: seq<Object>,
                      inputs: seq<FileInput>, totalBytes: nat, entry: string, route: string)
    returns (e: ExportResult)
    requires Runs(s, p) && s.pc == ManifestPc(s.config, s.job, rec, files)
    requires Paths.SlugPaths(rec.slug) == Success((entry, route))
    requires LimitedObjects(p, BasePathOf(p, DepOf(s.job.payload), rec), files) == Success(objects)
    requires |objects| == |files| && inputs == InputsOf(p, objects, files) && totalBytes == TotalBytes(files)
    modifies s
    ensures Runs(s, p) && Reports(s, rec, e)
  {
    var dep := DepOf(s.job.payload);
    var base := BasePathOf(p, dep, rec);
    var key := ManifestKeyOf(p, dep, rec);
    var at := ManifestCreatedAt(s, p, rec, files, key);
    var built := BuildManifest(p.codec, dep, rec, base, entry, route, inputs, at);
    if built.Failure? {
      return ExportError(built.error);
    }
    var encoded := built.value.1;
    var manifest := Object(key, encoded, "application/json", CACHE_CONTROL_MANIFEST, p.codec.sha(encoded));
    var pointer := Pointer(key, base, built.value.2, entry, route, |built.value.0.files|, totalBytes);
    var refused := Register(s, p, rec, files, manifest, pointer);
    if refused.Some? {
      return ExportError(refused.value);
    }
    e := Announce(s, p, rec, files, manifest, entry, totalBytes);
  }

  /** The exporter: one locked, EXPORTING deployment. */
  method Export(s: Conversation, p: Pipeline, rec: Record) returns (e: ExportResult)
    requires Runs(s, p) && s.pc == ExportPc(s.config, s.job, rec)
    modifies s
    ensures Runs(s, p) && Reports(s, rec, e)
  {
    var dep := DepOf(s.job.payload);
    var base := BasePathOf(p, dep, rec);
    var slug := Paths.MapSlug(rec.slug);
    if slug.Failure? {
      return ExportError(slug.error);
    }
    var (entry, route) := slug.value;
    var harvested := s.Call(RenderAndHarvest(dep, rec));
    if harvested.Err? {
      return ExportError(harvested.code);
    }
    var files := harvested.files;
    var collected := CollectObjects(p, base, files);
    if collected.Failure? {
      return ExportError(collected.error);
    }
    var (objects, inputs, totalBytes) := collected.value;
    if p.maxTotalBytes > 0 && totalBytes > p.maxTotalBytes {
      return ExportError(VALIDATION_FAILED);
    }
    var upload := UploadObjects(s, p, rec, files, objects);
    if upload.UploadFailed? {
      return ExportError(upload.code);
    }
    e := FinishExport(s, p, rec, files, objects, inputs, totalBytes, entry, route);
  }

  /** Redelivery after ARTIFACT_READY: the ready event again, from the stored manifest alone. `found` without
      an error means the event went out; no manifest means there is nothing to emit. */
  method ReemitReady(s: Conversation, p: Pipeline, rec: Record) returns (ok: bool, found: bool)
    requires Runs(s, p) && s.pc == FetchingManifest(rec)
    modifies s
    ensures Runs(s, p)
    ensures s.pc == if ok then Acking(AlreadyTerminal) else Done(NoAck)
    ensures ok && found ==>
              exists body :: StoredFactsFor(p, DepOf(s.job.payload), rec, body).Some?
                && s.trace == old(s.trace)
                   + [Event(FetchStored(ManifestKeyOf(p, DepOf(s.job.payload), rec)), Found(body)),
                      Event(EmitReady(StoredFactsFor(p, DepOf(s.job.payload), rec, body).value), Ok)]
                && StatesRecord(p, DepOf(s.job.payload), rec, StoredFactsFor(p, DepOf(s.job.payload), rec, body).value)
  {
    var dep := DepOf(s.job.payload);
    var fetched := s.Call(FetchStored(ManifestKeyOf(p, dep, rec)));
    if fetched.NotFound? {
      return true, false;
    }
    if !fetched.Found? {
      return false, false;
    }
    var m := p.codec.decode(fetched.body);
    if m.None? {
      return false, true;
    }
    var totalBytes := 0;
    for i := 0 to |m.value.files|
      invariant totalBytes == SumSizes(m.value.files[..i])
    {
      assert m.value.files[..i + 1][..i] == m.value.files[..i];
      totalBytes := totalBytes + m.value.files[i].sizeBytes;
    }
    assert m.value.files[..|m.value.files|] == m.value.files;
    var facts := BuildReady(p, dep, rec, HASH_PREFIX + p.codec.sha(fetched.body), m.value.entry, |m.value.files|,
                            totalBytes);
    assert Some(facts) == StoredFactsFor(p, dep, rec, fetched.body);
    BuiltEventStatesRecord(p, dep, rec, HASH_PREFIX + p.codec.sha(fetched.body), m.value.entry, |m.value.files|,
                           totalBytes);
    var emitted := s.Call(EmitReady(facts));
    return emitted.Ok?, true;
  }
}
