/** What references mean, told from their text: which ones the walk follows, where a stylesheet's relative references
    lead, and what the guards and the allowlist let through. */
module References {
  import opened Wrappers
  import opened Text
  import opened ErrClass
  import opened Types
  import opened Paths
  import opened PathRules
  import opened Harvest

  // ---- Searching text ----

  lemma ContainsIff(s: string, needle: string)
    ensures ContainsText(s, needle) <==> exists a, b :: s == a + needle + b
  {
    if ContainsText(s, needle) {
      var i :| 0 <= i <= |s| - |needle| && s[i..][..|needle|] == needle;
      assert s == s[..i] + needle + s[i..][|needle|..];
    }
    if a, b :| s == a + needle + b {
      assert s[|a|..][..|needle|] == needle;
    }
  }

  /** The page guard, exactly: any asset reference is unresolved, and otherwise any mention of the image optimizer is
      unsupported. */
  lemma PageGuardExactly(body: Bytes)
    ensures GuardHTML(body) == Some(UNRESOLVED_ASSET_REF) <==> exists a, b :: body == a + "asset://" + b
    ensures GuardHTML(body) == Some(UNSUPPORTED_DYNAMIC_IMAGE_OPTIMIZER) <==>
              (forall a, b :: body != a + "asset://" + b) && exists a, b :: body == a + "/_next/image" + b
    ensures GuardHTML(body).None? <==>
              (forall a, b :: body != a + "asset://" + b) && forall a, b :: body != a + "/_next/image" + b
  {
    ContainsIff(body, "asset://");
    ContainsIff(body, "/_next/image");
    assert UNRESOLVED_ASSET_REF[2] == 'R' && UNSUPPORTED_DYNAMIC_IMAGE_OPTIMIZER[2] == 'S';
  }

  /** A fetched path can be harvested unless it is a stylesheet that still mentions an asset reference. */
  lemma StylesheetGuardExactly(h: Harvester, p: string, asset: Asset)
    requires h.origin.fetch(p) == Success(asset)
    ensures PathError(h, p) ==
              if (h.origin.isCssMime(asset.mimeType) || (|p| >= 4 && p[|p| - 4..] == ".css"))
                 && exists a, b :: asset.body == a + "asset://" + b
              then Some(UNRESOLVED_ASSET_REF) else None
  {
    ContainsIff(asset.body, "asset://");
  }

  // ---- The allowlist ----

  predicate EndsInStar(entry: string) {
    |entry| >= 2 && entry[|entry| - 2] == '/' && entry[|entry| - 1] == '*'
  }

  /** The directory, a slash, and anything or nothing. */
  predicate Below(dir: string, p: string) {
    |p| > |dir| && p[..|dir|] == dir && p[|dir|] == '/'
  }

  lemma StarEntryMeans(dir: string, p: string)
    ensures Matches(dir + "/*", p) <==> Below(dir, p)
  {
    var entry := dir + "/*";
    assert entry[..|entry| - 2] == dir && entry[|entry| - 2..] == "/*";
    if Below(dir, p) {
      assert p[..|dir| + 1] == dir + "/";
    }
  }

  lemma EntryMeans(entry: string, p: string)
    ensures EndsInStar(entry) <==> HasSuffix(entry, "/*")
    ensures !EndsInStar(entry) ==> (Matches(entry, p) <==> p == entry)
    ensures EndsInStar(entry) ==> entry == entry[..|entry| - 2] + "/*"
  {
    if EndsInStar(entry) {
      assert entry[|entry| - 2..] == "/*";
    }
  }

  /** An entry ending in a star admits what lies below its directory, and nothing that merely begins alike; any other
      entry admits itself. */
  lemma AllowlistMeans(allow: seq<string>, p: string)
    ensures Allows(allow, p) <==>
              exists entry :: entry in allow &&
                if EndsInStar(entry) then Below(entry[..|entry| - 2], p) else p == entry
  {
    forall entry | entry in allow
      ensures Matches(entry, p) <==>
                if EndsInStar(entry) then Below(entry[..|entry| - 2], p) else p == entry
    {
      EntryMeans(entry, p);
      if EndsInStar(entry) {
        StarEntryMeans(entry[..|entry| - 2], p);
      }
    }
  }

  // ---- Rooted references ----

  predicate StartsQuery(s: string) {
    s == "" || s[0] == '?' || s[0] == '#'
  }

  lemma {:induction false} UpToQueryStops(a: string, query: string)
    requires StartsQuery(query) && '?' !in a && '#' !in a
    ensures UpToQuery(a + query) == a
  {
    if a == "" {
      assert a + query == query;
    } else {
      assert (a + query)[1..] == a[1..] + query;
      UpToQueryStops(a[1..], query);
    }
  }

  lemma WithoutQuery(a: string)
    requires '?' !in a && '#' !in a
    ensures UpToQuery(a) == a
  {
    UpToQueryStops(a, "");
    assert a + "" == a;
  }

  /** A text without white space at its ends. */
  predicate IsTrim(s: string) {
    s == "" || (!IsWhite(s[0]) && !IsWhite(s[|s| - 1]))
  }

  /** A rooted reference to an acceptable path means that path, whatever query or fragment follows it and whatever white
      space is around it: it is used if it is allowlisted, and skipped if not. */
  lemma RootedReferenceMeans(h: Harvester, lead: string, p: string, query: string, trail: string, baseDir: string)
    requires AllSpaces(lead) && AllSpaces(trail) && IsTrim(p + query) && StartsQuery(query)
    requires Canonical(p) && '?' !in p && '#' !in p && !HasPrefix(p, "/_next/image")
    ensures Judge(h, Ref(lead + (p + query) + trail, baseDir)) == if Allows(h.allow, p) then Use(p) else Skip
  {
    SecondIsNoSlash(p);
    TrimSpaceKeeps(lead, p + query, trail);
    UpToQueryStops(p, query);
    TrimmedIsJudged(h, lead + (p + query) + trail, p + query, baseDir);
    CanonicalVerdict(h, p + query, p);
  }

  lemma CanonicalVerdict(h: Harvester, raw: string, p: string)
    requires UpToQuery(raw) == p && Canonical(p) && !HasPrefix(p, "/_next/image")
    ensures SameOriginVerdict(h, raw) == if Allows(h.allow, p) then Use(p) else Skip
  {
    assert Layers(0, p) == Some(p);
    NormalizeAcceptsExactly(p, p);
  }

  lemma TrimmedIsJudged(h: Harvester, spaced: string, raw: string, baseDir: string)
    requires TrimSpace(spaced) == raw && |raw| >= 2 && raw[0] == '/' && raw[1] != '/'
    ensures Judge(h, Ref(spaced, baseDir)) == SameOriginVerdict(h, raw)
  {
    assert !IsInline(raw) && !IsExternal(raw) && !HasPrefix(raw, "asset://") && HasPrefix(raw, "/");
  }

  lemma SecondIsNoSlash(p: string)
    requires Canonical(p)
    ensures |p| >= 2 && p[1] != '/'
  {
    var segments := Split(p[1..], '/');
    assert segments[0] in segments;
  }

  /** A reference no rule but the relative one applies to. */
  predicate IsRelative(raw: string) {
    raw != "" && IsTrim(raw) && raw[0] != '/' && !IsInline(raw) && !IsExternal(raw) && !HasPrefix(raw, "asset://")
  }

  // ---- References that are not followed ----

  lemma WithoutWhiteSpace(raw: string)
    requires IsTrim(raw)
    ensures TrimSpace(raw) == raw
  {
    assert "" + raw + "" == raw;
    TrimSpaceKeeps("", raw, "");
  }

  /** Inline and external references are skipped, and so are blank ones and the page's own relative ones. */
  lemma SkippedReferences(h: Harvester, kind: string, rest: string, baseDir: string)
    requires kind in {"data:", "blob:", "mailto:", "javascript:", "#", "about:", "http://", "https://", "//"}
    requires IsTrim(kind + rest)
    ensures Judge(h, Ref(kind + rest, baseDir)) == Skip
  {
    var raw := kind + rest;
    WithoutWhiteSpace(raw);
    assert HasPrefix(raw, kind) && raw[0] == kind[0];
    assert |kind| > 1 ==> raw[1] == kind[1];
  }

  lemma RelativeOrBlankIsSkipped(h: Harvester, raw: string)
    requires AllSpaces(raw) || IsRelative(raw)
    ensures Judge(h, Ref(raw, "")) == Skip
  {
    if AllSpaces(raw) {
      assert raw + "" + "" == raw;
      TrimSpaceKeeps(raw, "", "");
    } else {
      WithoutWhiteSpace(raw);
    }
  }

  /** An asset reference rejects the page, and so does the image optimizer. */
  lemma AssetReferenceIsRejected(h: Harvester, rest: string, baseDir: string)
    requires IsTrim("asset://" + rest)
    ensures Judge(h, Ref("asset://" + rest, baseDir)) == Reject(UNRESOLVED_ASSET_REF)
  {
    var raw := "asset://" + rest;
    WithoutWhiteSpace(raw);
    assert raw[0] == 'a' && raw[1] == 's' && !IsInline(raw);
  }

  lemma OptimizerReferenceIsRejected(h: Harvester, rest: string, baseDir: string)
    requires IsTrim("/_next/image" + rest)
    ensures Judge(h, Ref("/_next/image" + rest, baseDir)) == Reject(UNSUPPORTED_DYNAMIC_IMAGE_OPTIMIZER)
  {
    var raw := "/_next/image" + rest;
    WithoutWhiteSpace(raw);
    assert raw[0] == '/' && raw[1] == '_' && !IsInline(raw) && !IsExternal(raw);
    UpToQueryKeepsHead("/_next/image", rest);
  }

  lemma {:induction false} UpToQueryKeepsHead(a: string, b: string)
    requires '?' !in a && '#' !in a
    ensures HasPrefix(UpToQuery(a + b), a)
  {
    if a != "" {
      assert (a + b)[1..] == a[1..] + b;
      UpToQueryKeepsHead(a[1..], b);
      assert a == [a[0]] + a[1..];
    }
  }

  // ---- Relative references ----

  /** Path parts without slashes, none of them empty or a dot segment. */
  predicate AreNames(parts: seq<string>) {
    forall part :: part in parts ==> IsName(part) && '/' !in part
  }

  lemma NamesArePlain(parts: seq<string>)
    requires AreNames(parts)
    ensures PlainSegments(parts)
  {
  }

  function At(parts: seq<string>): string {
    "/" + Join(parts, '/')
  }

  lemma ResolvedAt(parts: seq<string>)
    requires AreNames(parts)
    ensures Resolve([], Split(At(parts), '/')) == parts
  {
    NamesArePlain(parts);
    SplitAtSeparator("", Join(parts, '/'), '/');
    assert At(parts) == "" + ['/'] + Join(parts, '/');
    if parts == [] {
      assert Split(At(parts), '/') == ["", ""];
      assert ["", ""][1..] == [""] && [""][1..] == [];
    } else {
      SplitOfJoin(parts, '/');
      assert Split(At(parts), '/') == [""] + parts;
      assert ([""] + parts)[1..] == parts;
      ResolvePlain([], parts);
      assert [] + parts == parts;
    }
  }

  lemma SplitOfFile(parts: seq<string>, name: string)
    requires AreNames(parts) && AreNames([name])
    ensures Split(At(parts + [name]), '/') == [""] + parts + [name]
  {
    assert name in [name];
    assert forall part :: part in parts + [name] ==> part in parts || part == name;
    SplitAtSeparator("", Join(parts + [name], '/'), '/');
    assert At(parts + [name]) == "" + ['/'] + Join(parts + [name], '/');
    SplitOfJoin(parts + [name], '/');
  }

  /** The directory of a file is the path without its last part. */
  lemma DirectoryOfFile(parts: seq<string>, name: string)
    requires AreNames(parts) && AreNames([name])
    ensures Dir(At(parts + [name])) == At(parts)
  {
    SplitOfFile(parts, name);
    var segments := Split(At(parts + [name]), '/');
    assert segments[..|segments| - 1] == [""] + parts;
    ResolvedAt(parts);
    if parts == [] {
      assert Join([""] + parts, '/') == "";
    } else {
      assert ([""] + parts)[1..] == parts;
      assert Join([""] + parts, '/') == "" + ['/'] + Join(parts, '/');
      assert Join([""] + parts, '/') == At(parts);
    }
  }

  /** That many steps up. */
  function Up(k: nat): seq<string> {
    if k == 0 then [] else [".."] + Up(k - 1)
  }

  function Above(parts: seq<string>, k: nat): seq<string> {
    if k <= |parts| then parts[..|parts| - k] else []
  }

  lemma {:induction false} ClimbingResolves(parts: seq<string>, k: nat)
    ensures Resolve(parts, Up(k)) == Above(parts, k)
    decreases k
  {
    if k > 0 {
      var up := if parts == [] then [] else parts[..|parts| - 1];
      assert Up(k)[0] == ".." && Up(k)[1..] == Up(k - 1);
      ClimbingResolves(up, k - 1);
    }
  }

  lemma {:induction false} UpIsSlashFree(k: nat)
    ensures |Up(k)| == k && forall part :: part in Up(k) ==> part == ".."
  {
    if k > 0 {
      UpIsSlashFree(k - 1);
    }
  }

  /** Joining a relative reference to a directory climbs one part for each leading "..", never above the root, and
      appends what is left. */
  lemma JoiningClimbs(parts: seq<string>, k: nat, names: seq<string>)
    requires AreNames(parts) && AreNames(names) && names != []
    ensures JoinPath(At(parts), Join(Up(k) + names, '/')) == At(Above(parts, k) + names)
  {
    var raw := Join(Up(k) + names, '/');
    UpIsSlashFree(k);
    assert forall part :: part in Up(k) + names ==> part in Up(k) || part in names;
    SplitOfJoin(Up(k) + names, '/');
    SplitAtSeparator(At(parts), raw, '/');
    assert At(parts) + "/" + raw == At(parts) + ['/'] + raw;
    ResolveConcat([], Split(At(parts), '/'), Split(raw, '/'));
    ResolvedAt(parts);
    ResolveConcat(parts, Up(k), names);
    ClimbingResolves(parts, k);
    NamesArePlain(names);
    ResolvePlain(Above(parts, k), names);
  }

  /** A leading "./" changes nothing. */
  lemma JoiningHere(dir: string, raw: string)
    ensures JoinPath(dir, "./" + raw) == JoinPath(dir, raw)
  {
    SplitAtSeparator(dir, "./" + raw, '/');
    SplitAtSeparator(dir, raw, '/');
    SplitAtSeparator(".", raw, '/');
    SplitSeparatorFree(".", '/');
    assert "./" + raw == "." + ['/'] + raw;
    assert dir + "/" + ("./" + raw) == dir + ['/'] + ("./" + raw) && dir + "/" + raw == dir + ['/'] + raw;
    ResolveConcat([], Split(dir, '/'), Split("./" + raw, '/'));
    ResolveConcat([], Split(dir, '/'), Split(raw, '/'));
    assert Split("./" + raw, '/') == ["."] + Split(raw, '/');
    assert (["."] + Split(raw, '/'))[1..] == Split(raw, '/');
  }

  /** Where a stylesheet's relative reference leads: to the path it names from the stylesheet's directory. */
  lemma StylesheetReferenceLeads(h: Harvester, parts: seq<string>, file: string, k: nat, names: seq<string>)
    requires AreNames(parts) && AreNames([file]) && AreNames(names) && names != []
    requires IsRelative(Join(Up(k) + names, '/'))
    ensures Judge(h, Ref(Join(Up(k) + names, '/'), Dir(At(parts + [file]))))
              == Redirect(Ref(At(Above(parts, k) + names), ""))
  {
    var raw := Join(Up(k) + names, '/');
    WithoutWhiteSpace(raw);
    DirectoryOfFile(parts, file);
    JoiningClimbs(parts, k, names);
  }

  /** The bundle holds what its stylesheets refer to: when a harvested stylesheet has a relative reference, the path it
      names from the stylesheet's directory is in the closure if it is acceptable and allowlisted. */
  lemma StylesheetReferencesAreHarvested(h: Harvester, page: Bytes, parts: seq<string>, file: string, asset: Asset,
                                         k: nat, names: seq<string>)
    requires AreNames(parts) && AreNames([file]) && AreNames(names) && names != []
    requires InClosure(h, page, At(parts + [file])) && h.origin.fetch(At(parts + [file])) == Success(asset)
    requires h.origin.isCssMime(asset.mimeType) || HasSuffix(file, ".css")
    requires Join(Up(k) + names, '/') in h.origin.cssRefs(asset.body) && IsRelative(Join(Up(k) + names, '/'))
    requires var target := At(Above(parts, k) + names);
             && Canonical(target) && '?' !in target && '#' !in target && !HasPrefix(target, "/_next/image")
             && IsTrim(target) && Allows(h.allow, target)
    ensures InClosure(h, page, At(Above(parts, k) + names))
  {
    var target := At(Above(parts, k) + names);
    var raw := Join(Up(k) + names, '/');
    FileNameEndsPath(parts, file);
    StylesheetReferenceLeads(h, parts, file, k, names);
    TargetIsUsed(h, target);
    RedirectedReferenceIsHarvested(h, page, At(parts + [file]), asset, raw, target);
  }

  lemma TargetIsUsed(h: Harvester, target: string)
    requires Canonical(target) && '?' !in target && '#' !in target && !HasPrefix(target, "/_next/image")
    requires IsTrim(target) && Allows(h.allow, target)
    ensures Judge(h, Ref(target, "")) == Use(target)
  {
    SecondIsNoSlash(target);
    WithoutWhiteSpace(target);
    WithoutQuery(target);
    TrimmedIsJudged(h, target, target, "");
    CanonicalVerdict(h, target, target);
  }

  /** A fetched stylesheet contributes its references in order, each with the stylesheet's directory. */
  lemma StylesheetContributes(h: Harvester, p: string, asset: Asset, i: nat)
    requires h.origin.fetch(p) == Success(asset) && IsCss(h, p, asset.mimeType) && i < |h.origin.cssRefs(asset.body)|
    ensures |PathRefs(h, p)| == |h.origin.cssRefs(asset.body)|
    ensures PathRefs(h, p)[i] == Ref(h.origin.cssRefs(asset.body)[i], Dir(p))
  {
  }

  lemma RedirectedReferenceIsHarvested(h: Harvester, page: Bytes, p: string, asset: Asset, raw: string, target: string)
    requires InClosure(h, page, p) && h.origin.fetch(p) == Success(asset) && IsCss(h, p, asset.mimeType)
    requires raw in h.origin.cssRefs(asset.body)
    requires Judge(h, Ref(raw, Dir(p))) == Redirect(Ref(target, "")) && Judge(h, Ref(target, "")) == Use(target)
    ensures InClosure(h, page, target)
  {
    var ref :| Reachable(h, page, ref) && Judge(h, ref) == Use(p);
    var i :| 0 <= i < |h.origin.cssRefs(asset.body)| && h.origin.cssRefs(asset.body)[i] == raw;
    StylesheetContributes(h, p, asset, i);
    SuccessorsAreReachable(h, page, ref, Ref(raw, Dir(p)));
    SuccessorsAreReachable(h, page, Ref(raw, Dir(p)), Ref(target, ""));
  }

  lemma FileNameEndsPath(parts: seq<string>, file: string)
    ensures HasSuffix(file, ".css") ==> HasSuffix(At(parts + [file]), ".css")
  {
    JoinEndsWith(parts, file);
    var p, n := At(parts + [file]), |file|;
    if HasSuffix(file, ".css") {
      assert p[|p| - n..] == file;
      assert p[|p| - 4..] == p[|p| - n..][n - 4..];
    }
  }

  lemma {:induction false} JoinEndsWith(parts: seq<string>, last: string)
    ensures HasSuffix(Join(parts + [last], '/'), last)
  {
    if parts != [] {
      assert (parts + [last])[1..] == parts[1..] + [last];
      JoinEndsWith(parts[1..], last);
      var rest := Join(parts[1..] + [last], '/');
      var whole := Join(parts + [last], '/');
      assert whole == parts[0] + ['/'] + rest;
      assert whole[|whole| - |last|..] == rest[|rest| - |last|..];
    }
  }
}
