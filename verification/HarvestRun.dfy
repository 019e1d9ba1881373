/** Harvester.Run: the breadth-first worklist loop, its termination, and its equality with reachability. */
module HarvestRun {
  import opened Wrappers
  import opened Text
  import opened ErrClass
  import opened Paths
  import opened Types
  import opened Harvest

  // ---- The loop invariant ----

  /** A harvested path: fetched, guarded, its references already taken over by the walk. */
  ghost predicate Settled(h: Harvester, page: Bytes, p: string, processed: set<Ref>, queue: seq<Ref>) {
    && InClosure(h, page, p) && PathError(h, p).None?
    && forall next :: next in PathRefs(h, p) ==> next in processed || next in queue
  }

  ghost predicate Done(h: Harvester, ref: Ref, processed: set<Ref>, queue: seq<Ref>, visited: set<string>) {
    match Judge(h, ref)
    case Skip => true
    case Redirect(next) => next in processed || next in queue
    case Reject(_) => false
    case Use(p) => p in visited
  }

  ghost predicate WalkInv(h: Harvester, page: Bytes, processed: set<Ref>, queue: seq<Ref>, visited: set<string>) {
    && (forall r :: r in PageRefs(h, page) ==> r in processed || r in queue)
    && (forall r :: r in processed || r in queue ==> Reachable(h, page, r))
    && (forall r :: r in processed ==> Done(h, r, processed, queue, visited))
    && (forall p :: p in visited ==> Settled(h, page, p, processed, queue))
  }

  ghost predicate FilesMatch(h: Harvester, files: seq<File>, visited: set<string>) {
    && DistinctPaths(files)
    && FilePaths(files) == visited
    && forall f :: f in files ==> h.origin.fetch(f.path) == Success(Asset(f.body, f.mimeType))
  }

  /** The walk knows the reference: it is dealt with or will be. */
  ghost predicate Known(processed: set<Ref>, queue: seq<Ref>, ref: Ref) {
    ref in processed || ref in queue
  }

  ghost predicate Forgets(processed: set<Ref>, queue: seq<Ref>, processed': set<Ref>, queue': seq<Ref>) {
    exists r :: Known(processed, queue, r) && !Known(processed', queue', r)
  }

  lemma DoneLasts(h: Harvester, ref: Ref, processed: set<Ref>, queue: seq<Ref>, visited: set<string>,
                  processed': set<Ref>, queue': seq<Ref>, visited': set<string>)
    requires Done(h, ref, processed, queue, visited)
    requires !Forgets(processed, queue, processed', queue') && visited <= visited'
    ensures Done(h, ref, processed', queue', visited')
  {
    if Judge(h, ref).Redirect? {
      assert Known(processed, queue, Judge(h, ref).ref);
    }
  }

  lemma SettledLasts(h: Harvester, page: Bytes, p: string, processed: set<Ref>, queue: seq<Ref>,
                     processed': set<Ref>, queue': seq<Ref>)
    requires Settled(h, page, p, processed, queue) && !Forgets(processed, queue, processed', queue')
    ensures Settled(h, page, p, processed', queue')
  {
    forall next | next in PathRefs(h, p)
      ensures next in processed' || next in queue'
    {
      assert Known(processed, queue, next);
    }
  }

  lemma NewlySettled(h: Harvester, page: Bytes, head: Ref, p: string, processed': set<Ref>, rest: seq<Ref>)
    requires Reachable(h, page, head) && Judge(h, head) == Use(p) && PathError(h, p).None?
    ensures Settled(h, page, p, processed', rest + PathRefs(h, p))
  {
  }

  lemma AdvanceForgetsNothing(processed: set<Ref>, queue: seq<Ref>, more: seq<Ref>)
    requires queue != []
    ensures !Forgets(processed, queue, processed + {queue[0]}, queue[1..] + more)
  {
    forall r | Known(processed, queue, r)
      ensures Known(processed + {queue[0]}, queue[1..] + more, r)
    {
      assert r in queue ==> r == queue[0] || r in queue[1..];
    }
  }

  /** The head of the queue has been dealt with. */
  lemma AdvanceKeepsInv(h: Harvester, page: Bytes, processed: set<Ref>, queue: seq<Ref>, visited: set<string>,
                        more: seq<Ref>, visited': set<string>)
    requires queue != [] && WalkInv(h, page, processed, queue, visited)
    requires visited <= visited'
    requires forall r :: r in more ==> r in Successors(h, queue[0])
    requires Done(h, queue[0], processed + {queue[0]}, queue[1..] + more, visited')
    requires forall p :: p in visited' - visited ==>
              Judge(h, queue[0]) == Use(p) && PathError(h, p).None? && more == PathRefs(h, p)
    ensures WalkInv(h, page, processed + {queue[0]}, queue[1..] + more, visited')
  {
    var head := queue[0];
    var processed' := processed + {head};
    var queue' := queue[1..] + more;
    AdvanceForgetsNothing(processed, queue, more);
    forall r | r in PageRefs(h, page)
      ensures r in processed' || r in queue'
    {
      assert Known(processed, queue, r);
    }
    forall r | r in processed' || r in queue'
      ensures Reachable(h, page, r)
    {
      if r in more {
        SuccessorsAreReachable(h, page, head, r);
      }
    }
    forall r | r in processed'
      ensures Done(h, r, processed', queue', visited')
    {
      if r in processed {
        DoneLasts(h, r, processed, queue, visited, processed', queue', visited');
      }
    }
    forall p | p in visited'
      ensures Settled(h, page, p, processed', queue')
    {
      if p in visited {
        SettledLasts(h, page, p, processed, queue, processed', queue');
      } else {
        NewlySettled(h, page, head, p, processed', queue[1..]);
      }
    }
  }

  /** An empty queue means the walk has seen everything: no reachable reference is bad and the visited
      paths are exactly the closure. */
  lemma EmptyQueueIsClosure(h: Harvester, page: Bytes, processed: set<Ref>, visited: set<string>)
    requires WalkInv(h, page, processed, [], visited)
    ensures forall ref :: Reachable(h, page, ref) ==> !Bad(h, ref)
    ensures IsClosure(h, page, visited)
  {
    forall r, next | r in processed && next in Successors(h, r)
      ensures next in processed
    {
      assert Done(h, r, processed, [], visited);
      if Judge(h, r).Use? {
        assert Settled(h, page, Judge(h, r).path, processed, []);
      }
    }
    forall ref | Reachable(h, page, ref)
      ensures ref in processed && !Bad(h, ref)
    {
      ClosedSetIsComplete(h, page, processed, ref);
      assert Done(h, ref, processed, [], visited);
      if Judge(h, ref).Use? {
        assert Settled(h, page, Judge(h, ref).path, processed, []);
      }
    }
    forall p
      ensures p in visited <==> InClosure(h, page, p)
    {
      if p in visited {
        assert Settled(h, page, p, processed, []);
      }
      if InClosure(h, page, p) {
        var ref :| Reachable(h, page, ref) && Judge(h, ref) == Use(p);
        assert Done(h, ref, processed, [], visited);
      }
    }
  }

  ghost function FileBytes(files: seq<File>): nat {
    if files == [] then 0 else FileBytes(files[..|files| - 1]) + |files[|files| - 1].body|
  }

  lemma FileBytesAppend(files: seq<File>, f: File)
    ensures FileBytes(files + [f]) == FileBytes(files) + |f.body|
  {
    assert (files + [f])[..|files|] == files;
  }

  /** Bytes counted file by file equal bytes counted over the set of paths. */
  lemma {:induction false} FileBytesAreBodyBytes(h: Harvester, files: seq<File>)
    requires FilesMatch(h, files, FilePaths(files))
    ensures FileBytes(files) == BodyBytes(h, FilePaths(files))
  {
    if files != [] {
      var last := files[|files| - 1];
      var rest := files[..|files| - 1];
      assert files == rest + [last];
      assert FilePaths(rest) == FilePaths(files) - {last.path} by {
        assert last.path in FilePaths(files);
        forall f | f in rest ensures f.path != last.path { }
        assert forall f :: f in files ==> f in rest || f == last;
      }
      assert FilesMatch(h, rest, FilePaths(rest));
      FileBytesAreBodyBytes(h, rest);
      BodyBytesRemove(h, FilePaths(files), last.path);
    }
  }

  /** A walk that is over budget is over budget for every closure. */
  lemma OverBudgetIsFinal(h: Harvester, page: Bytes, files: seq<File>)
    requires FilesMatch(h, files, FilePaths(files)) && files != []
    requires forall f :: f in files ==> InClosure(h, page, f.path)
    requires h.maxTotalBytes > 0 && |page| + FileBytes(files) > h.maxTotalBytes
    ensures !Harvestable(h, page)
  {
    forall paths | IsClosure(h, page, paths)
      ensures !Fits(h, page, paths)
    {
      assert files[0].path in FilePaths(files);
      assert FilePaths(files) <= paths;
      FileBytesAreBodyBytes(h, files);
      BodyBytesMonotone(h, FilePaths(files), paths);
    }
  }

  // ---- Termination ----

  /** A stylesheet-relative reference is looked at twice: once to resolve it, once resolved. */
  function Weight(ref: Ref): nat {
    if ref.baseDir != "" then 2 else 1
  }

  function QueueWeight(queue: seq<Ref>): nat {
    if queue == [] then 0 else Weight(queue[0]) + QueueWeight(queue[1..])
  }

  lemma {:induction false} QueueWeightOfConcat(a: seq<Ref>, b: seq<Ref>)
    ensures QueueWeight(a + b) == QueueWeight(a) + QueueWeight(b)
  {
    if a == [] {
      assert a + b == b;
    } else {
      assert (a + b)[1..] == a[1..] + b;
      QueueWeightOfConcat(a[1..], b);
    }
  }

  /** What shrinks when a file is added: the remaining budget, or, without a budget, the part of the
      finite closure not yet visited. */
  ghost function Remaining(h: Harvester, closure: set<string>, totalBytes: nat, visited: set<string>): nat {
    if h.maxTotalBytes > 0 then (if totalBytes <= h.maxTotalBytes then h.maxTotalBytes - totalBytes else 0)
    else |closure - visited|
  }

  /** A file that contributes references has a body, so it uses up budget. */
  lemma NewFileUsesBudget(h: Harvester, page: Bytes, closure: set<string>, p: string, totalBytes: nat, totalBytes': nat,
                          visited: set<string>)
    requires h.origin.Valid() && PathError(h, p).None? && totalBytes' == totalBytes + |BodyOf(h, p)|
    requires h.maxTotalBytes > 0 ==> totalBytes' <= h.maxTotalBytes
    requires h.maxTotalBytes <= 0 ==> p in closure && p !in visited
    ensures Remaining(h, closure, totalBytes', visited + {p}) < Remaining(h, closure, totalBytes, visited)
            || (h.maxTotalBytes > 0 && totalBytes' == totalBytes && PathRefs(h, p) == [])
  {
    if h.maxTotalBytes <= 0 {
      assert closure - (visited + {p}) < closure - visited;
      SmallerSet(closure - (visited + {p}), closure - visited);
    }
  }

  lemma SmallerSet(a: set<string>, b: set<string>)
    requires a < b
    ensures |a| < |b|
  {
    assert a + (b - a) == b;
    assert b - a != {};
  }

  /** The walk's variant went down, lexicographically. */
  ghost predicate Progress(h: Harvester, closure: set<string>, totalBytes: nat, visited: set<string>, queue: seq<Ref>,
                           totalBytes': nat, visited': set<string>, queue': seq<Ref>) {
    || Remaining(h, closure, totalBytes', visited') < Remaining(h, closure, totalBytes, visited)
    || (Remaining(h, closure, totalBytes', visited') == Remaining(h, closure, totalBytes, visited)
        && QueueWeight(queue') < QueueWeight(queue))
  }

  // ---- One iteration ----

  lemma PassOver(h: Harvester, page: Bytes, processed: set<Ref>, queue: seq<Ref>, visited: set<string>)
    requires queue != [] && WalkInv(h, page, processed, queue, visited)
    requires Judge(h, queue[0]).Skip? || (Judge(h, queue[0]).Use? && Judge(h, queue[0]).path in visited)
    ensures WalkInv(h, page, processed + {queue[0]}, queue[1..], visited)
    ensures QueueWeight(queue[1..]) < QueueWeight(queue)
  {
    assert queue[1..] + [] == queue[1..];
    AdvanceKeepsInv(h, page, processed, queue, visited, [], visited);
  }

  lemma Resolved(h: Harvester, page: Bytes, processed: set<Ref>, queue: seq<Ref>, visited: set<string>, next: Ref)
    requires queue != [] && WalkInv(h, page, processed, queue, visited)
    requires queue[0].baseDir != "" && Judge(h, queue[0]) == Redirect(next) && next.baseDir == ""
    ensures WalkInv(h, page, processed + {queue[0]}, queue[1..] + [next], visited)
    ensures QueueWeight(queue[1..] + [next]) < QueueWeight(queue)
  {
    AdvanceKeepsInv(h, page, processed, queue, visited, [next], visited);
    QueueWeightOfConcat(queue[1..], [next]);
  }

  lemma Harvested(h: Harvester, page: Bytes, closure: set<string>, processed: set<Ref>, queue: seq<Ref>,
                  visited: set<string>,
                  p: string, totalBytes: nat)
    requires queue != [] && WalkInv(h, page, processed, queue, visited)
    requires Judge(h, queue[0]) == Use(p) && p !in visited && PathError(h, p).None? && h.origin.Valid()
    requires h.maxTotalBytes > 0 ==> totalBytes + |BodyOf(h, p)| <= h.maxTotalBytes
    requires h.maxTotalBytes <= 0 ==> IsClosure(h, page, closure)
    ensures WalkInv(h, page, processed + {queue[0]}, queue[1..] + PathRefs(h, p), visited + {p})
    ensures Progress(h, closure, totalBytes, visited, queue,
                     totalBytes + |BodyOf(h, p)|, visited + {p}, queue[1..] + PathRefs(h, p))
  {
    AdvanceKeepsInv(h, page, processed, queue, visited, PathRefs(h, p), visited + {p});
    assert InClosure(h, page, p);
    NewFileUsesBudget(h, page, closure, p, totalBytes, totalBytes + |BodyOf(h, p)|, visited);
    QueueWeightOfConcat(queue[1..], PathRefs(h, p));
  }

  lemma BadMeansNotHarvestable(h: Harvester, page: Bytes, processed: set<Ref>, queue: seq<Ref>, visited: set<string>)
    requires queue != [] && WalkInv(h, page, processed, queue, visited) && Bad(h, queue[0])
    ensures !Harvestable(h, page)
  {
    assert Reachable(h, page, queue[0]);
  }

  lemma OverBudgetStep(h: Harvester, page: Bytes, processed: set<Ref>, queue: seq<Ref>, visited: set<string>,
                       files: seq<File>, f: File)
    requires queue != [] && WalkInv(h, page, processed, queue, visited) && FilesMatch(h, files, visited)
    requires Judge(h, queue[0]) == Use(f.path) && f.path !in visited
    requires h.origin.fetch(f.path) == Success(Asset(f.body, f.mimeType))
    requires h.maxTotalBytes > 0 && |page| + FileBytes(files) + |f.body| > h.maxTotalBytes
    ensures !Harvestable(h, page)
  {
    assert Reachable(h, page, queue[0]);
    assert InClosure(h, page, f.path);
    ExtendedFilesMatch(h, files, visited, f);
    assert FilePaths(files + [f]) == visited + {f.path};
    assert (files + [f])[..|files|] == files;
    FilesAreInClosure(h, page, processed, queue, visited, files, f);
    OverBudgetIsFinal(h, page, files + [f]);
  }

  /** The end of the walk. */
  lemma WalkEnds(h: Harvester, page: Bytes, processed: set<Ref>, visited: set<string>, files: seq<File>)
    requires GuardHTML(page).None?
    requires WalkInv(h, page, processed, [], visited) && FilesMatch(h, files, visited)
    requires h.maxTotalBytes > 0 && files != [] ==> |page| + FileBytes(files) <= h.maxTotalBytes
    ensures Harvestable(h, page)
    ensures StrictlySorted(SortByPath(files)) && IsClosure(h, page, FilePaths(SortByPath(files)))
    ensures forall f :: f in SortByPath(files) ==> h.origin.fetch(f.path) == Success(Asset(f.body, f.mimeType))
  {
    EmptyQueueIsClosure(h, page, processed, visited);
    FileBytesAreBodyBytes(h, files);
    if files == [] {
      assert visited == {};
    }
    assert Fits(h, page, visited);
    SortByPathSorts(files);
    assert FilePaths(SortByPath(files)) == FilePaths(files);
  }

  // ---- Run ----

  /** The closure to visit, known to be finite when no budget bounds the walk. */
  ghost predicate Bounded(h: Harvester, page: Bytes, closure: set<string>) {
    h.maxTotalBytes <= 0 ==> IsClosure(h, page, closure)
  }

  /** Succeeds exactly on harvestable pages, and then returns exactly the closure, each path once, sorted
      by path, with the fetched body. It terminates for every origin when a budget is set, and without
      one when the closure is finite. */
  method Run(h: Harvester, page: Bytes, ghost closure: set<string>) returns (r: Result<seq<File>, Code>)
    requires h.origin.Valid() && Bounded(h, page, closure)
    ensures r.Success? <==> Harvestable(h, page)
    ensures r.Success? ==>
              && StrictlySorted(r.value)
              && IsClosure(h, page, FilePaths(r.value))
              && forall f :: f in r.value ==> h.origin.fetch(f.path) == Success(Asset(f.body, f.mimeType))
  {
    if GuardHTML(page).Some? {
      return Failure(GuardHTML(page).value);
    }
    var queue := PageRefs(h, page);
    var visited := new Visited();
    var bundle := new Bundle(page, h.maxTotalBytes);
    ghost var processed: set<Ref> := {};
    assert WalkInv(h, page, processed, queue, visited.paths) by {
      forall ref | ref in queue
        ensures Reachable(h, page, ref)
      {
        PageRefsAreReachable(h, page, ref);
      }
    }
    while queue != []
      invariant fresh(visited) && fresh(bundle) && bundle.page == page && bundle.limit == h.maxTotalBytes
      invariant WalkInv(h, page, processed, queue, visited.paths)
      invariant FilesMatch(h, bundle.files, visited.paths)
      invariant bundle.totalBytes == |page| + FileBytes(bundle.files) && bundle.WithinLimit()
      decreases Remaining(h, closure, bundle.totalBytes, visited.paths), QueueWeight(queue)
    {
      var current := queue[0];
      var raw := TrimSpace(current.raw);
      if raw == "" || IsInline(raw) {
        PassOver(h, page, processed, queue, visited.paths);
        queue := queue[1..];
      } else if HasPrefix(raw, ASSET_SCHEME) {
        BadMeansNotHarvestable(h, page, processed, queue, visited.paths);
        return Failure(UNRESOLVED_ASSET_REF);
      } else if IsExternal(raw) {
        PassOver(h, page, processed, queue, visited.paths);
        queue := queue[1..];
      } else if HasPrefix(raw, "/") {
        var code: Option<Code>;
        code, queue := FollowSameOrigin(h, page, closure, raw, queue, processed, visited, bundle);
        if code.Some? {
          return Failure(code.value);
        }
      } else if current.baseDir != "" {
        var next := Ref(JoinPath(current.baseDir, raw), "");
        Resolved(h, page, processed, queue, visited.paths, next);
        queue := queue[1..] + [next];
      } else {
        PassOver(h, page, processed, queue, visited.paths);
        queue := queue[1..];
      }
      processed := processed + {current};
    }
    WalkEnds(h, page, processed, visited.paths, bundle.files);
    r := Success(SortByPath(bundle.files));
  }

  /** The same-origin case of the loop: harvest the path, add its file, queue its references. */
  method FollowSameOrigin(h: Harvester, page: Bytes, ghost closure: set<string>, raw: string, queue: seq<Ref>,
                          ghost processed: set<Ref>, visited: Visited, bundle: Bundle)
    returns (code: Option<Code>, rest: seq<Ref>)
    requires h.origin.Valid() && Bounded(h, page, closure)
    requires queue != [] && raw == TrimSpace(queue[0].raw) && Judge(h, queue[0]) == SameOriginVerdict(h, raw)
    requires bundle.page == page && bundle.limit == h.maxTotalBytes && bundle.WithinLimit()
    requires WalkInv(h, page, processed, queue, visited.paths) && FilesMatch(h, bundle.files, visited.paths)
    requires bundle.totalBytes == |page| + FileBytes(bundle.files)
    modifies visited, bundle
    ensures code.Some? ==> !Harvestable(h, page)
    ensures code.None? ==>
              && WalkInv(h, page, processed + {queue[0]}, rest, visited.paths)
                  && FilesMatch(h, bundle.files, visited.paths)
              && bundle.totalBytes == |page| + FileBytes(bundle.files) && bundle.WithinLimit()
              && Progress(h, closure, old(bundle.totalBytes), old(visited.paths), queue, bundle.totalBytes,
                          visited.paths, rest)
  {
    var found := HarvestSameOrigin(h, raw, visited);
    if found.Failure? {
      BadMeansNotHarvestable(h, page, processed, queue, old(visited.paths));
      return Some(found.error), queue;
    }
    var newFiles, newRefs := found.value.0, found.value.1;
    if newFiles == [] {
      PassOver(h, page, processed, queue, visited.paths);
      return None, queue[1..];
    }
    assert newRefs == PathRefs(h, newFiles[0].path);
    code := KeepFile(h, page, closure, queue, processed, old(visited.paths), bundle, newFiles[0]);
    rest := queue[1..] + newRefs;
  }

  /** A newly harvested file joins the bundle, unless it breaks the budget. */
  method KeepFile(h: Harvester, page: Bytes, ghost closure: set<string>, ghost queue: seq<Ref>,
                  ghost processed: set<Ref>,
                  ghost seen: set<string>, bundle: Bundle, f: File)
    returns (code: Option<Code>)
    requires h.origin.Valid() && Bounded(h, page, closure)
    requires queue != [] && WalkInv(h, page, processed, queue, seen) && FilesMatch(h, bundle.files, seen)
    requires Judge(h, queue[0]) == Use(f.path) && f.path !in seen && PathError(h, f.path).None?
    requires h.origin.fetch(f.path) == Success(Asset(f.body, f.mimeType))
    requires bundle.page == page && bundle.limit == h.maxTotalBytes && bundle.WithinLimit()
    requires bundle.totalBytes == |page| + FileBytes(bundle.files)
    modifies bundle
    ensures code.Some? ==> !Harvestable(h, page)
    ensures code.None? ==>
              && WalkInv(h, page, processed + {queue[0]}, queue[1..] + PathRefs(h, f.path), seen + {f.path})
              && FilesMatch(h, bundle.files, seen + {f.path})
              && bundle.totalBytes == |page| + FileBytes(bundle.files) && bundle.WithinLimit()
              && Progress(h, closure, old(bundle.totalBytes), seen, queue, bundle.totalBytes, seen + {f.path},
                          queue[1..] + PathRefs(h, f.path))
  {
    var ok := bundle.AppendFile(f);
    if !ok {
      OverBudgetStep(h, page, processed, queue, seen, old(bundle.files), f);
      return Some(VALIDATION_FAILED);
    }
    FileBytesAppend(old(bundle.files), f);
    ExtendedFilesMatch(h, old(bundle.files), seen, f);
    Harvested(h, page, closure, processed, queue, seen, f.path, old(bundle.totalBytes));
    return None;
  }

  lemma ExtendedFilesMatch(h: Harvester, files: seq<File>, visited: set<string>, f: File)
    requires FilesMatch(h, files, visited) && f.path !in visited
    requires h.origin.fetch(f.path) == Success(Asset(f.body, f.mimeType))
    ensures FilesMatch(h, files + [f], visited + {f.path})
  {
    assert forall g :: g in files ==> g.path in FilePaths(files);
    assert forall g :: g in files + [f] <==> g in files || g == f;
    assert FilePaths(files + [f]) == FilePaths(files) + {f.path};
    forall i, j | 0 <= i < j < |files + [f]|
      ensures (files + [f])[i].path != (files + [f])[j].path
    {
      if j == |files| {
        assert files[i] in files;
      }
    }
  }

  lemma FilesAreInClosure(h: Harvester, page: Bytes, processed: set<Ref>, queue: seq<Ref>, visited: set<string>,
                          files: seq<File>, f: File)
    requires WalkInv(h, page, processed, queue, visited) && FilesMatch(h, files, visited) && InClosure(h, page, f.path)
    ensures forall g :: g in files + [f] ==> InClosure(h, page, g.path)
  {
    forall g | g in files + [f]
      ensures InClosure(h, page, g.path)
    {
      if g in files {
        assert g.path in FilePaths(files);
        assert Settled(h, page, g.path, processed, queue);
      }
    }
  }

  // ---- The budget, exactly ----

  /** "The page and all bodies fit the budget." */
  ghost predicate WholeBundleFits(h: Harvester, page: Bytes, paths: set<string>) {
    |page| + BodyBytes(h, paths) <= h.maxTotalBytes
  }

  lemma ClosureIsUnique(h: Harvester, page: Bytes, paths: set<string>, other: set<string>)
    requires IsClosure(h, page, paths) && IsClosure(h, page, other)
    ensures paths == other
  {
    forall p
      ensures p in paths <==> p in other
    {
    }
  }

  /** What a successful harvest returned is within the whole-bundle limit exactly when the page alone fits or has
      a dependency: the budget is looked at only when a dependency is added. */
  lemma WalkEnforcesBundleLimitIff(h: Harvester, page: Bytes, paths: set<string>)
    requires h.maxTotalBytes > 0 && Harvestable(h, page) && IsClosure(h, page, paths)
    ensures WholeBundleFits(h, page, paths) <==> (|page| <= h.maxTotalBytes || paths != {})
  {
    var walked :| IsClosure(h, page, walked) && Fits(h, page, walked);
    ClosureIsUnique(h, page, paths, walked);
    if paths == {} {
      assert BodyBytes(h, paths) == 0;
    }
  }

  /** The failing half: every acceptable page over the limit whose references lead to no dependency succeeds, and
      nothing with a dependency does while being over the limit. */
  lemma OversizedPageWithoutDependenciesIsHarvested(h: Harvester, page: Bytes, paths: set<string>)
    requires h.maxTotalBytes > 0 && IsClosure(h, page, paths) && !WholeBundleFits(h, page, paths)
    ensures Harvestable(h, page) <==>
              && paths == {} && GuardHTML(page).None?
              && forall ref :: Reachable(h, page, ref) ==> !Bad(h, ref)
  {
    if Harvestable(h, page) {
      WalkEnforcesBundleLimitIff(h, page, paths);
    } else if paths == {} {
      assert Fits(h, page, paths);
    }
  }

  /** Such a page: two bytes under a limit of one, without references. */
  lemma OversizedPageExample()
    ensures var h := Harvester(Origin((_: Bytes) => [], (_: Bytes) => [], (_: string) => false,
                                      (_: string) => Failure(VALIDATION_FAILED)), [], 1);
            Harvestable(h, "ab") && IsClosure(h, "ab", {}) && !WholeBundleFits(h, "ab", {})
  {
    var h := Harvester(Origin((_: Bytes) => [], (_: Bytes) => [], (_: string) => false,
                              (_: string) => Failure(VALIDATION_FAILED)), [], 1);
    var page := "ab";
    assert GuardHTML(page).None?;
    forall ref
      ensures !Reachable(h, page, ref)
    {
      if chain :| IsChain(h, page, chain) && chain[|chain| - 1] == ref {
        assert false;
      }
    }
    assert IsClosure(h, page, {});
    OversizedPageWithoutDependenciesIsHarvested(h, page, {});
  }

  // ---- Relative references ----

  lemma {:induction false} ResolveYieldsPlain(stack: seq<string>, segments: seq<string>)
    requires PlainSegments(stack)
    ensures PlainSegments(Resolve(stack, segments))
    decreases |segments|
  {
    if segments != [] {
      var s := segments[0];
      if s == "" || s == "." {
        ResolveYieldsPlain(stack, segments[1..]);
      } else if s == ".." {
        var popped := if stack == [] then [] else stack[..|stack| - 1];
        assert forall x :: x in popped ==> x in stack;
        ResolveYieldsPlain(popped, segments[1..]);
      } else {
        ResolveYieldsPlain(stack + [s], segments[1..]);
      }
    }
  }

  /** Whatever a stylesheet writes, its relative references resolve below the origin's root: the joined
      path is rooted and free of empty and dot segments, and it is the stylesheet's directory followed by
      the reference, resolved segment by segment. */
  lemma RelativeReferencesStayInOrigin(dir: string, raw: string)
    ensures var segments := Resolve(Resolve([], Split(dir, '/')), Split(raw, '/'));
            PlainSegments(segments) && JoinPath(dir, raw) == "/" + Join(segments, '/')
  {
    SplitAtSeparator(dir, raw, '/');
    ResolveConcat([], Split(dir, '/'), Split(raw, '/'));
    ResolveYieldsPlain([], Split(dir, '/'));
    ResolveYieldsPlain(Resolve([], Split(dir, '/')), Split(raw, '/'));
    assert dir + "/" + raw == dir + ['/'] + raw;
  }
}
