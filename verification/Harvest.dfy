/** The dependency harvester: a worklist walk over the references of a page and its stylesheets,
    proved equal to reachability. External mirroring is off (FetchExternal is nil). */
module Harvest {
  import opened Wrappers
  import opened Text
  import opened ErrClass
  import opened Paths
  import opened Types

  datatype Asset = Asset(body: Bytes, mimeType: string)

  /** A reference; baseDir is the directory of the stylesheet it came from, "" for the page. */
  datatype Ref = Ref(raw: string, baseDir: string)

  /** What the walk asks of the outside: reference extraction, MIME parsing and the render origin. */
  datatype Origin = Origin(
    htmlRefs: Bytes -> seq<string>,
    cssRefs: Bytes -> seq<string>,
    isCssMime: string -> bool,
    fetch: string -> Result<Asset, Code>)
  {
    /** A `url(...)` reference takes at least one byte. */
    ghost predicate Valid() {
      cssRefs("") == []
    }
  }

  datatype Harvester = Harvester(origin: Origin, allow: seq<string>, maxTotalBytes: int)

  // ---- Allowlist and guards ----

  predicate Matches(entry: string, p: string) {
    if HasSuffix(entry, "/*") then HasPrefix(p, entry[..|entry| - 2] + "/") else p == entry
  }

  predicate Allows(allow: seq<string>, p: string) {
    exists entry :: entry in allow && Matches(entry, p)
  }

  const ASSET_SCHEME := "asset://"
  const IMAGE_OPTIMIZER := "/_next/image"

  function GuardHTML(body: Bytes): Option<Code> {
    if ContainsText(body, ASSET_SCHEME) then Some(UNRESOLVED_ASSET_REF)
    else if ContainsText(body, IMAGE_OPTIMIZER) then Some(UNSUPPORTED_DYNAMIC_IMAGE_OPTIMIZER)
    else None
  }

  // ---- Path joining ----

  /** path.Clean of a rooted path. */
  function Clean(rooted: string): string {
    "/" + Join(Resolve([], Split(rooted, '/')), '/')
  }

  /** path.Dir of a rooted path. */
  function Dir(p: string): string {
    var segments := Split(p, '/');
    Clean(Join(segments[..|segments| - 1], '/'))
  }

  /** path.Join of a rooted directory and a non-empty relative reference. */
  function JoinPath(dir: string, raw: string): string {
    Clean(dir + "/" + raw)
  }

  // ---- One reference ----

  function UpToQuery(raw: string): string {
    if raw == "" || raw[0] == '?' || raw[0] == '#' then "" else [raw[0]] + UpToQuery(raw[1..])
  }

  predicate IsInline(raw: string) {
    HasPrefix(raw, "data:") || HasPrefix(raw, "blob:") || HasPrefix(raw, "mailto:") ||
    HasPrefix(raw, "javascript:") || HasPrefix(raw, "#") || HasPrefix(raw, "about:")
  }

  predicate IsExternal(raw: string) {
    HasPrefix(raw, "http://") || HasPrefix(raw, "https://") || HasPrefix(raw, "//")
  }

  datatype Verdict = Skip | Redirect(ref: Ref) | Reject(code: Code) | Use(path: string)

  function SameOriginVerdict(h: Harvester, raw: string): Verdict {
    var trimmed := UpToQuery(raw);
    if HasPrefix(trimmed, IMAGE_OPTIMIZER) then Reject(UNSUPPORTED_DYNAMIC_IMAGE_OPTIMIZER)
    else match Normalized(trimmed)
      case Failure(code) => Reject(code)
      case Success(p) => if Allows(h.allow, p) then Use(p) else Skip
  }

  /** What a reference means to the walk. */
  function Judge(h: Harvester, ref: Ref): Verdict {
    var raw := TrimSpace(ref.raw);
    if raw == "" || IsInline(raw) then Skip
    else if HasPrefix(raw, ASSET_SCHEME) then Reject(UNRESOLVED_ASSET_REF)
    else if IsExternal(raw) then Skip
    else if HasPrefix(raw, "/") then SameOriginVerdict(h, raw)
    else if ref.baseDir != "" then Redirect(Ref(JoinPath(ref.baseDir, raw), ""))
    else Skip
  }

  predicate IsCss(h: Harvester, p: string, mimeType: string) {
    h.origin.isCssMime(mimeType) || HasSuffix(p, ".css")
  }

  /** Why a used path cannot be harvested, if it cannot. */
  function PathError(h: Harvester, p: string): Option<Code> {
    match h.origin.fetch(p)
    case Failure(code) => Some(code)
    case Success(asset) =>
      if IsCss(h, p, asset.mimeType) && ContainsText(asset.body, ASSET_SCHEME) then Some(UNRESOLVED_ASSET_REF) else None
  }

  function BodyOf(h: Harvester, p: string): Bytes {
    match h.origin.fetch(p)
    case Failure(_) => ""
    case Success(asset) => asset.body
  }

  function WithBase(raws: seq<string>, baseDir: string): (refs: seq<Ref>)
    ensures |refs| == |raws| && forall i :: 0 <= i < |raws| ==> refs[i] == Ref(raws[i], baseDir)
  {
    seq(|raws|, i requires 0 <= i < |raws| => Ref(raws[i], baseDir))
  }

  /** The references a harvested path contributes. */
  function PathRefs(h: Harvester, p: string): seq<Ref> {
    match h.origin.fetch(p)
    case Failure(_) => []
    case Success(asset) => if IsCss(h, p, asset.mimeType) then WithBase(h.origin.cssRefs(asset.body), Dir(p)) else []
  }

  // ---- Reachability ----

  /** A reference that makes the walk fail. */
  ghost predicate Bad(h: Harvester, ref: Ref) {
    var v := Judge(h, ref);
    v.Reject? || (v.Use? && PathError(h, v.path).Some?)
  }

  ghost function Successors(h: Harvester, ref: Ref): seq<Ref> {
    match Judge(h, ref)
    case Redirect(next) => [next]
    case Use(p) => PathRefs(h, p)
    case _ => []
  }

  function PageRefs(h: Harvester, page: Bytes): seq<Ref> {
    WithBase(h.origin.htmlRefs(page), "")
  }

  ghost predicate IsChain(h: Harvester, page: Bytes, chain: seq<Ref>) {
    && |chain| >= 1 && chain[0] in PageRefs(h, page)
    && forall i :: 0 <= i < |chain| - 1 ==> chain[i + 1] in Successors(h, chain[i])
  }

  ghost predicate Reachable(h: Harvester, page: Bytes, ref: Ref) {
    exists chain :: IsChain(h, page, chain) && chain[|chain| - 1] == ref
  }

  /** The allowlisted paths some reachable reference uses. */
  ghost predicate InClosure(h: Harvester, page: Bytes, p: string) {
    exists ref :: Reachable(h, page, ref) && Judge(h, ref) == Use(p)
  }

  ghost predicate IsClosure(h: Harvester, page: Bytes, paths: set<string>) {
    forall p :: p in paths <==> InClosure(h, page, p)
  }

  ghost function BodyBytes(h: Harvester, paths: set<string>): nat {
    if paths == {} then 0
    else var p :| p in paths; |BodyOf(h, p)| + BodyBytes(h, paths - {p})
  }

  /** The byte budget, as the walk enforces it: checked only when a dependency is added. */
  ghost predicate Fits(h: Harvester, page: Bytes, paths: set<string>) {
    h.maxTotalBytes <= 0 || paths == {} || |page| + BodyBytes(h, paths) <= h.maxTotalBytes
  }

  /** The condition under which the walk succeeds. */
  ghost predicate Harvestable(h: Harvester, page: Bytes) {
    && GuardHTML(page).None?
    && (forall ref :: Reachable(h, page, ref) ==> !Bad(h, ref))
    && exists paths :: IsClosure(h, page, paths) && Fits(h, page, paths)
  }

  lemma PageRefsAreReachable(h: Harvester, page: Bytes, ref: Ref)
    requires ref in PageRefs(h, page)
    ensures Reachable(h, page, ref)
  {
    assert IsChain(h, page, [ref]);
  }

  lemma SuccessorsAreReachable(h: Harvester, page: Bytes, ref: Ref, next: Ref)
    requires Reachable(h, page, ref) && next in Successors(h, ref)
    ensures Reachable(h, page, next)
  {
    var chain :| IsChain(h, page, chain) && chain[|chain| - 1] == ref;
    var longer := chain + [next];
    forall i | 0 <= i < |longer| - 1
      ensures longer[i + 1] in Successors(h, longer[i])
    {
      if i < |chain| - 1 {
        assert chain[i + 1] in Successors(h, chain[i]);
      }
    }
    assert IsChain(h, page, longer);
  }

  /** A set that holds the page's references and is closed under successors holds all reachable ones. */
  lemma ClosedSetIsComplete(h: Harvester, page: Bytes, closed: set<Ref>, ref: Ref)
    requires forall r :: r in PageRefs(h, page) ==> r in closed
    requires forall r, next :: r in closed && next in Successors(h, r) ==> next in closed
    requires Reachable(h, page, ref)
    ensures ref in closed
  {
    var chain :| IsChain(h, page, chain) && chain[|chain| - 1] == ref;
    for i := 0 to |chain| - 1
      invariant chain[i] in closed
    {
      assert chain[i + 1] in Successors(h, chain[i]);
    }
  }

  // ---- Byte sums ----

  lemma {:induction false} BodyBytesRemove(h: Harvester, paths: set<string>, p: string)
    requires p in paths
    ensures BodyBytes(h, paths) == |BodyOf(h, p)| + BodyBytes(h, paths - {p})
  {
    var q :| q in paths && BodyBytes(h, paths) == |BodyOf(h, q)| + BodyBytes(h, paths - {q});
    if q != p {
      BodyBytesRemove(h, paths - {q}, p);
      BodyBytesRemove(h, paths - {p}, q);
      assert paths - {q} - {p} == paths - {p} - {q};
    }
  }

  lemma {:induction false} BodyBytesMonotone(h: Harvester, small: set<string>, large: set<string>)
    requires small <= large
    ensures BodyBytes(h, small) <= BodyBytes(h, large)
  {
    if small != {} {
      var p :| p in small;
      BodyBytesRemove(h, small, p);
      BodyBytesRemove(h, large, p);
      BodyBytesMonotone(h, small - {p}, large - {p});
    }
  }

  // ---- Sorting by path ----

  predicate PathLess(a: string, b: string) {
    b != "" && (a == "" || a[0] < b[0] || (a[0] == b[0] && PathLess(a[1..], b[1..])))
  }

  /** The order is byte by byte: the first difference decides, and a proper prefix comes first. */
  lemma {:induction false} PathLessIsByteOrder(a: string, b: string)
    ensures PathLess(a, b) <==>
              exists k: nat :: k <= |a| && k < |b| && a[..k] == b[..k] && (k == |a| || a[k] < b[k])
  {
    if a != "" && b != "" && a[0] == b[0] {
      PathLessIsByteOrder(a[1..], b[1..]);
      if PathLess(a[1..], b[1..]) {
        var k: nat :| k <= |a[1..]| && k < |b[1..]| && a[1..][..k] == b[1..][..k]
                      && (k == |a[1..]| || a[1..][k] < b[1..][k]);
        assert a[..k + 1] == [a[0]] + a[1..][..k] && b[..k + 1] == [b[0]] + b[1..][..k];
      }
      if k: nat :| k <= |a| && k < |b| && a[..k] == b[..k] && (k == |a| || a[k] < b[k]) {
        assert a[1..][..k - 1] == a[..k][1..] && b[1..][..k - 1] == b[..k][1..];
      }
    } else if b != "" && (a == "" || a[0] < b[0]) {
      assert a[..0] == b[..0];
    } else {
      assert forall k: nat :: 0 < k <= |a| && k < |b| ==> a[..k][0] != b[..k][0];
    }
  }

  lemma {:induction false} PathLessIsTotal(a: string, b: string)
    ensures PathLess(a, b) || PathLess(b, a) || a == b
  {
    if a != "" && b != "" && a[0] == b[0] {
      PathLessIsTotal(a[1..], b[1..]);
      assert [a[0]] + a[1..] == a && [b[0]] + b[1..] == b;
    }
  }

  lemma {:induction false} PathLessIsTransitive(a: string, b: string, c: string)
    requires PathLess(a, b) && PathLess(b, c)
    ensures PathLess(a, c)
  {
    if a != "" && a[0] == b[0] && b[0] == c[0] {
      PathLessIsTransitive(a[1..], b[1..], c[1..]);
    }
  }

  ghost predicate StrictlySorted(files: seq<File>) {
    forall i, j :: 0 <= i < j < |files| ==> PathLess(files[i].path, files[j].path)
  }

  ghost predicate DistinctPaths(files: seq<File>) {
    forall i, j :: 0 <= i < j < |files| ==> files[i].path != files[j].path
  }

  function FilePaths(files: seq<File>): set<string> {
    set f | f in files :: f.path
  }

  function Insert(files: seq<File>, f: File): (r: seq<File>)
    ensures forall x :: x in r <==> x in files || x == f
  {
    if files == [] then [f]
    else if PathLess(f.path, files[0].path) then [f] + files
    else [files[0]] + Insert(files[1..], f)
  }

  lemma {:induction false} InsertKeepsSorted(files: seq<File>, f: File)
    requires StrictlySorted(files) && forall x :: x in files ==> x.path != f.path
    ensures StrictlySorted(Insert(files, f))
  {
    var r := Insert(files, f);
    if files != [] {
      if PathLess(f.path, files[0].path) {
        forall i, j | 0 <= i < j < |r|
          ensures PathLess(r[i].path, r[j].path)
        {
          if i == 0 && j > 1 {
            PathLessIsTransitive(f.path, files[0].path, files[j - 1].path);
          }
        }
      } else {
        InsertKeepsSorted(files[1..], f);
        PathLessIsTotal(f.path, files[0].path);
        forall j | 0 < j < |r|
          ensures PathLess(r[0].path, r[j].path)
        {
          assert r[j] in Insert(files[1..], f);
        }
      }
    }
  }

  /** sort.Slice by path. */
  function SortByPath(files: seq<File>): (r: seq<File>)
    ensures forall x :: x in r <==> x in files
  {
    if files == [] then [] else Insert(SortByPath(files[1..]), files[0])
  }

  lemma {:induction false} SortByPathSorts(files: seq<File>)
    requires DistinctPaths(files)
    ensures StrictlySorted(SortByPath(files))
  {
    if files != [] {
      SortByPathSorts(files[1..]);
      InsertKeepsSorted(SortByPath(files[1..]), files[0]);
    }
  }

  // ---- The walk ----

  /** The visited map, shared by reference between Run and harvestSameOrigin. */
  class Visited {
    var paths: set<string>

    constructor ()
      ensures paths == {}
    {
      paths := {};
    }
  }

  /** The files held so far and the bytes they and the page take. */
  class Bundle {
    const page: Bytes
    const limit: int
    var files: seq<File>
    var totalBytes: nat

    constructor (page: Bytes, limit: int)
      ensures this.page == page && this.limit == limit && files == [] && totalBytes == |page|
    {
      this.page, this.limit := page, limit;
      files, totalBytes := [], |page|;
    }

    ghost predicate WithinLimit()
      reads this
    {
      limit > 0 && files != [] ==> totalBytes <= limit
    }

    /** Adds a file, then checks the budget: at most one body over the limit is ever held. */
    method AppendFile(f: File) returns (ok: bool)
      requires WithinLimit() && (files == [] ==> totalBytes == |page|)
      modifies this
      ensures files == old(files) + [f] && totalBytes == old(totalBytes) + |f.body|
      ensures ok == WithinLimit()
      ensures limit > 0 ==> totalBytes <= (if limit < |page| then |page| else limit) + |f.body|
    {
      files := files + [f];
      totalBytes := totalBytes + |f.body|;
      ok := !(limit > 0 && totalBytes > limit);
    }
  }

  method HarvestSameOrigin(h: Harvester, raw: string, visited: Visited)
    returns (r: Result<(seq<File>, seq<Ref>), Code>)
    modifies visited
    ensures match SameOriginVerdict(h, raw)
            case Reject(code) => r == Failure(code) && visited.paths == old(visited.paths)
            case Use(p) =>
              if p in old(visited.paths) then r == Success(([], [])) && visited.paths == old(visited.paths)
              else
                && visited.paths == old(visited.paths) + {p}
                && (match PathError(h, p)
                    case Some(code) => r == Failure(code)
                    case None =>
                      r == Success(([File(p, BodyOf(h, p), h.origin.fetch(p).value.mimeType)], PathRefs(h, p))))
            case _ => r == Success(([], [])) && visited.paths == old(visited.paths)
  {
    var trimmed := UpToQuery(raw);
    if HasPrefix(trimmed, IMAGE_OPTIMIZER) {
      return Failure(UNSUPPORTED_DYNAMIC_IMAGE_OPTIMIZER);
    }
    var normalized := NormalizePath(trimmed);
    if normalized.Failure? {
      return Failure(normalized.error);
    }
    var p := normalized.value;
    if !Allows(h.allow, p) || p in visited.paths {
      return Success(([], []));
    }
    visited.paths := visited.paths + {p};
    var fetched := h.origin.fetch(p);
    if fetched.Failure? {
      return Failure(fetched.error);
    }
    var asset := fetched.value;
    var newRefs: seq<Ref> := [];
    if IsCss(h, p, asset.mimeType) {
      if ContainsText(asset.body, ASSET_SCHEME) {
        return Failure(UNRESOLVED_ASSET_REF);
      }
      newRefs := WithBase(h.origin.cssRefs(asset.body), Dir(p));
    }
    return Success(([File(p, asset.body, asset.mimeType)], newRefs));
  }
}
