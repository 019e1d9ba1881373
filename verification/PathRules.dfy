/** The path rules, told from the parts of a path: which rooted paths are accepted, which have a storage key, and
    where a page's slug leads. */
module PathRules {
  import opened Wrappers
  import opened Text
  import opened ErrClass
  import opened Paths

  predicate SlashFree(parts: seq<string>) {
    |parts| >= 1 && forall part :: part in parts ==> '/' !in part
  }

  function Rooted(parts: seq<string>): string {
    "/" + Join(parts, '/')
  }

  lemma {:induction false} CharsOfJoin(parts: seq<string>, sep: char, c: char)
    requires c != sep
    ensures c in Join(parts, sep) <==> exists part :: part in parts && c in part
  {
    if |parts| == 1 {
      assert parts[0] in parts;
    } else if |parts| > 1 {
      CharsOfJoin(parts[1..], sep, c);
      assert parts == [parts[0]] + parts[1..];
      assert Join(parts, sep) == parts[0] + [sep] + Join(parts[1..], sep);
    }
  }

  lemma PartsOfRooted(parts: seq<string>)
    requires SlashFree(parts)
    ensures Split(Rooted(parts)[1..], '/') == parts && HasPrefix(Rooted(parts), "/")
    ensures TrimPrefix(Rooted(parts), "/") == Join(parts, '/')
  {
    SplitOfJoin(parts, '/');
    assert Rooted(parts)[1..] == Join(parts, '/');
  }

  // ---- Acceptance ----

  /** A part that is neither empty nor a dot segment. */
  predicate IsName(part: string) {
    part != "" && part != "." && part != ".."
  }

  predicate IsPrintable(part: string) {
    forall i :: 0 <= i < |part| ==> 32 <= part[i] as int && part[i] as int != 127 && part[i] != '\\'
  }

  /** A letter, then a colon. */
  predicate NamesDrive(part: string) {
    |part| >= 2 && part[1] == ':' && (65 <= part[0] as int <= 90 || 97 <= part[0] as int <= 122)
  }

  lemma DriveOfRooted(parts: seq<string>)
    requires SlashFree(parts)
    ensures HasDrivePrefix(Join(parts, '/')) <==> NamesDrive(parts[0])
  {
    assert parts[0] in parts;
    if |parts| > 1 {
      assert Join(parts, '/') == parts[0] + ['/'] + Join(parts[1..], '/');
    }
  }

  lemma PrintableRooted(parts: seq<string>)
    requires SlashFree(parts)
    ensures (forall c :: c in Rooted(parts) ==> !IsControl(c)) && '\\' !in Rooted(parts) <==>
              forall part :: part in parts ==> IsPrintable(part)
  {
    forall c: char | c != '/'
      ensures c in Rooted(parts) <==> exists part :: part in parts && c in part
    {
      CharsOfJoin(parts, '/', c);
    }
    if forall part :: part in parts ==> IsPrintable(part) {
      forall c | c in Rooted(parts)
        ensures !IsControl(c) && c != '\\'
      {
        if c != '/' {
          var part :| part in parts && c in part;
        }
      }
    } else {
      var part :| part in parts && !IsPrintable(part);
      var i :| 0 <= i < |part| && !(32 <= part[i] as int && part[i] as int != 127 && part[i] != '\\');
      assert part[i] in part && part[i] in Rooted(parts);
    }
  }

  /** Which unescaped rooted paths are accepted: those whose parts are all names of printable characters other than the
      backslash, unless the first one names a drive. They come back as they are. */
  lemma RootedPathAcceptedIff(parts: seq<string>)
    requires SlashFree(parts) && forall part :: part in parts ==> '%' !in part
    ensures Normalized(Rooted(parts)) ==
              if (forall part :: part in parts ==> IsName(part) && IsPrintable(part)) && !NamesDrive(parts[0])
              then Success(Rooted(parts)) else Failure(PATH_TRAVERSAL_DETECTED)
  {
    var p := Rooted(parts);
    CharsOfJoin(parts, '/', '%');
    UnescapePlain(p);
    PartsOfRooted(parts);
    DriveOfRooted(parts);
    PrintableRooted(parts);
    CheckedIsCanonical(p, p);
    assert p[1..] == Join(parts, '/');
    assert !HasDrivePrefix(p);
  }

  /** A path that is not rooted is never accepted. */
  lemma UnrootedPathFails(p: string)
    requires '%' !in p && !HasPrefix(p, "/")
    ensures Normalized(p) == Failure(PATH_TRAVERSAL_DETECTED)
  {
    UnescapePlain(p);
  }

  // ---- Storage keys ----

  /** Which artifact paths have a key: the rooted ones whose parts are all names without a backslash. The key is the
      base followed by the path. */
  lemma KeyExistsIff(base: string, parts: seq<string>)
    requires SlashFree(parts)
    ensures StorageKeyOf(base, Rooted(parts)) ==
              if forall part :: part in parts ==> IsName(part) && '\\' !in part then Success(base + Rooted(parts))
              else Failure(PATH_TRAVERSAL_DETECTED)
  {
    PartsOfRooted(parts);
    CharsOfJoin(parts, '/', '\\');
    assert '\\' in Rooted(parts) <==> exists part :: part in parts && '\\' in part;
  }

  lemma UnrootedPathHasNoKey(base: string, p: string)
    requires !HasPrefix(p, "/")
    ensures StorageKeyOf(base, p) == Failure(PATH_TRAVERSAL_DETECTED)
  {
  }

  // ---- Slugs ----

  predicate AllSlashes(s: string) {
    forall i :: 0 <= i < |s| ==> s[i] == '/'
  }

  lemma {:induction false} TrimLeadingSlashes(a: string, b: string)
    requires AllSlashes(a) && (b == "" || b[0] != '/')
    ensures TrimLeftChar(a + b, '/') == b
  {
    if a == "" {
      assert a + b == b;
    } else {
      assert (a + b)[1..] == a[1..] + b;
      TrimLeadingSlashes(a[1..], b);
    }
  }

  lemma {:induction false} TrimTrailingSlashes(b: string, a: string)
    requires AllSlashes(a) && (b == "" || b[|b| - 1] != '/')
    ensures TrimRightChar(b + a, '/') == b
  {
    if a == "" {
      assert b + a == b;
    } else {
      assert (b + a)[..|b + a| - 1] == b + a[..|a| - 1];
      TrimTrailingSlashes(b, a[..|a| - 1]);
    }
  }

  /** A slug up to white space around it and slashes at its ends. */
  predicate IsSlugOf(slug: string, lead: string, left: string, body: string, right: string, trail: string) {
    && slug == lead + (left + body + right) + trail
    && AllSpaces(lead) && AllSpaces(trail) && AllSlashes(left) && AllSlashes(right)
    && body != "" && body[0] != '/' && body[|body| - 1] != '/' && !IsWhite(body[0]) && !IsWhite(body[|body| - 1])
  }

  lemma IndexFileOf(raw: string)
    ensures Normalized(raw).Success? ==>
              Normalized(raw).value + "/" + INDEX_FILENAME == Normalized(raw).value + "/index.html"
    ensures "/" + INDEX_FILENAME == "/index.html"
  {
    assert "/" + INDEX_FILENAME == "/index.html";
    if Normalized(raw).Success? {
      assert Normalized(raw).value + "/" + INDEX_FILENAME == Normalized(raw).value + ("/" + INDEX_FILENAME);
    }
  }

  /** Where a slug leads: white space around it and slashes at its ends do not matter; "index" alone is the root;
      every other body is the route of that name and its entry the index file in it, if the route is acceptable. */
  lemma SlugLeadsTo(slug: string, lead: string, left: string, body: string, right: string, trail: string)
    requires IsSlugOf(slug, lead, left, body, right, trail)
    ensures SlugPaths(slug) ==
              if left + body + right == "index" then Success(("/index.html", "/"))
              else match Normalized("/" + body)
                case Failure(_) => Failure(INVALID_SLUG)
                case Success(route) => Success((route + "/index.html", route))
  {
    var middle := left + body + right;
    assert left != "" ==> middle[0] == '/';
    assert left == "" ==> middle[0] == body[0];
    assert right != "" ==> middle[|middle| - 1] == '/';
    assert right == "" ==> middle[|middle| - 1] == body[|body| - 1];
    TrimSpaceKeeps(lead, middle, trail);
    assert middle == left + (body + right);
    TrimLeadingSlashes(left, body + right);
    TrimTrailingSlashes(body, right);
    assert middle[|left|] == body[0];
    IndexFileOf("/" + body);
  }

  /** The root: nothing but white space, or one slash. Two slashes or more lead nowhere. */
  lemma BlankSlugs(lead: string, slashes: string, trail: string)
    requires AllSpaces(lead) && AllSpaces(trail) && AllSlashes(slashes)
    ensures SlugPaths(lead + slashes + trail) ==
              if |slashes| <= 1 then Success(("/index.html", "/")) else Failure(INVALID_SLUG)
  {
    TrimSpaceKeeps(lead, slashes, trail);
    IndexFileOf("/");
    if |slashes| == 0 {
      assert slashes == "";
    } else if |slashes| == 1 {
      assert slashes == "/";
    } else {
      assert slashes + "" == slashes;
      TrimLeadingSlashes(slashes, "");
      assert "/" + "" == "/" && Rooted([""]) == "/";
      assert "" in [""] && !IsName("");
      RootedPathAcceptedIff([""]);
    }
  }
}
