/** Path safety: percent-decoding to a fixed point, canonical artifact paths, slug mapping and
    storage-key confinement. */
module Paths {
  import opened Wrappers
  import opened Text
  import opened ErrClass

  // ---- Percent-decoding (section 2.1 of RFC 3986), as url.PathUnescape does it ----

  predicate IsHex(c: char) {
    '0' <= c <= '9' || 'a' <= c <= 'f' || 'A' <= c <= 'F'
  }

  function HexValue(c: char): (v: nat)
    requires IsHex(c)
    ensures v < 16
  {
    if c <= '9' then (c - '0') as nat
    else if c <= 'F' then 10 + (c - 'A') as nat
    else 10 + (c - 'a') as nat
  }

  /** One decoding round; None when an escape is malformed. */
  function Unescape(s: string): Option<string> {
    if s == "" then Some("")
    else if s[0] == '%' then
      if |s| >= 3 && IsHex(s[1]) && IsHex(s[2]) then
        match Unescape(s[3..])
        case None => None
        case Some(rest) => Some([(16 * HexValue(s[1]) + HexValue(s[2])) as char] + rest)
      else None
    else
      match Unescape(s[1..])
      case None => None
      case Some(rest) => Some([s[0]] + rest)
  }

  /** Exactly n decoding rounds. */
  function Layers(n: nat, s: string): Option<string> {
    if n == 0 then Some(s)
    else match Unescape(s)
      case None => None
      case Some(next) => Layers(n - 1, next)
  }

  /** At most n decoding rounds, stopping at a fixed point. */
  function DecodeRounds(n: nat, s: string): Option<string> {
    if n == 0 then Some(s)
    else match Unescape(s)
      case None => None
      case Some(next) => if next == s then Some(s) else DecodeRounds(n - 1, next)
  }

  // ---- Canonical paths ----

  predicate IsControl(c: char) {
    c < ' ' || c as int == 0x7f
  }

  predicate IsDotSegment(segment: string) {
    segment == "." || segment == ".."
  }

  predicate IsLetter(c: char) {
    'A' <= c <= 'Z' || 'a' <= c <= 'z'
  }

  predicate HasDrivePrefix(s: string) {
    |s| >= 2 && IsLetter(s[0]) && s[1] == ':'
  }

  predicate PlainSegments(segments: seq<string>) {
    forall segment :: segment in segments ==> segment != "" && !IsDotSegment(segment)
  }

  /** Rooted, already decoded, free of backslashes, control characters, drive prefixes, and of
      empty and dot segments. */
  predicate Canonical(p: string) {
    && |p| >= 1 && p[0] == '/'
    && '%' !in p && '\\' !in p
    && (forall c :: c in p ==> !IsControl(c))
    && !HasDrivePrefix(p[1..])
    && PlainSegments(Split(p[1..], '/'))
  }

  /** The checks applied to a decoded path. */
  function CheckDecoded(decoded: string): Result<string, Code> {
    if '%' in decoded then Failure(PATH_TRAVERSAL_DETECTED)
    else if exists c :: c in decoded && IsControl(c) then Failure(PATH_TRAVERSAL_DETECTED)
    else if '\\' in decoded then Failure(PATH_TRAVERSAL_DETECTED)
    else if HasDrivePrefix(TrimPrefix(decoded, "/")) || HasDrivePrefix(decoded) then Failure(PATH_TRAVERSAL_DETECTED)
    else if !HasPrefix(decoded, "/") then Failure(PATH_TRAVERSAL_DETECTED)
    else
      var segments := Split(TrimPrefix(decoded, "/"), '/');
      if !PlainSegments(segments) then Failure(PATH_TRAVERSAL_DETECTED)
      else Success("/" + Join(segments, '/'))
  }

  /** What NormalizePath computes. */
  function Normalized(raw: string): Result<string, Code> {
    match DecodeRounds(4, raw)
    case None => Failure(PATH_TRAVERSAL_DETECTED)
    case Some(decoded) => CheckDecoded(decoded)
  }

  /** The bounded decoding loop, then the per-character and per-segment checks. */
  method NormalizePath(raw: string) returns (r: Result<string, Code>)
    ensures r == Normalized(raw)
  {
    var decoded := raw;
    var round := 0;
    var settled := false;
    while round < 4 && !settled
      invariant 0 <= round <= 4
      invariant settled ==> Some(decoded) == DecodeRounds(4, raw)
      invariant !settled ==> DecodeRounds(4 - round, decoded) == DecodeRounds(4, raw)
      decreases 4 - round, if settled then 0 else 1
    {
      var next := Unescape(decoded);
      if next.None? {
        return Failure(PATH_TRAVERSAL_DETECTED);
      }
      if next.value == decoded {
        settled := true;
      } else {
        decoded := next.value;
        round := round + 1;
      }
    }
    if '%' in decoded {
      return Failure(PATH_TRAVERSAL_DETECTED);
    }
    for i := 0 to |decoded|
      invariant forall k :: 0 <= k < i ==> !IsControl(decoded[k])
    {
      if IsControl(decoded[i]) {
        assert decoded[i] in decoded;
        return Failure(PATH_TRAVERSAL_DETECTED);
      }
    }
    if '\\' in decoded {
      return Failure(PATH_TRAVERSAL_DETECTED);
    }
    if HasDrivePrefix(TrimPrefix(decoded, "/")) || HasDrivePrefix(decoded) {
      return Failure(PATH_TRAVERSAL_DETECTED);
    }
    if !HasPrefix(decoded, "/") {
      return Failure(PATH_TRAVERSAL_DETECTED);
    }
    var segments := Split(TrimPrefix(decoded, "/"), '/');
    for i := 0 to |segments|
      invariant forall k :: 0 <= k < i ==> segments[k] != "" && !IsDotSegment(segments[k])
    {
      if segments[i] == "" || segments[i] == "." || segments[i] == ".." {
        assert segments[i] in segments;
        return Failure(PATH_TRAVERSAL_DETECTED);
      }
    }
    return Success("/" + Join(segments, '/'));
  }

  // ---- What normalization achieves ----

  lemma {:induction false} UnescapePlain(s: string)
    requires '%' !in s
    ensures Unescape(s) == Some(s)
  {
    if s != "" {
      UnescapePlain(s[1..]);
      assert [s[0]] + s[1..] == s;
    }
  }

  lemma {:induction false} LayersPlain(n: nat, s: string)
    requires '%' !in s
    ensures Layers(n, s) == Some(s)
  {
    if n > 0 {
      UnescapePlain(s);
      LayersPlain(n - 1, s);
    }
  }

  /** Early stopping is sound: the bounded loop yields exactly what some number of full rounds yields. */
  lemma {:induction false} RoundsAreLayers(n: nat, s: string) returns (k: nat)
    ensures k <= n && DecodeRounds(n, s) == Layers(k, s)
  {
    if n == 0 || Unescape(s).None? {
      k := n;
    } else if Unescape(s).value == s {
      k := 0;
    } else {
      var m := RoundsAreLayers(n - 1, Unescape(s).value);
      k := m + 1;
    }
  }

  /** If some number of rounds up to n removes every '%', the bounded loop finds that text. */
  lemma {:induction false} LayersAreRounds(n: nat, k: nat, s: string, plain: string)
    requires k <= n && Layers(k, s) == Some(plain) && '%' !in plain
    ensures DecodeRounds(n, s) == Some(plain)
  {
    if n > 0 {
      if k == 0 {
        UnescapePlain(s);
      } else if Unescape(s).value == s {
        LayersOfFixedPoint(k, s);
      } else {
        LayersAreRounds(n - 1, k - 1, Unescape(s).value, plain);
      }
    }
  }

  lemma {:induction false} LayersOfFixedPoint(k: nat, s: string)
    requires Unescape(s) == Some(s)
    ensures Layers(k, s) == Some(s)
  {
    if k > 0 {
      LayersOfFixedPoint(k - 1, s);
    }
  }

  lemma CheckedIsCanonical(decoded: string, r: string)
    ensures CheckDecoded(decoded) == Success(r) <==> Canonical(decoded) && r == decoded
  {
    if HasPrefix(decoded, "/") {
      assert TrimPrefix(decoded, "/") == decoded[1..];
      JoinOfSplit(decoded[1..], '/');
      assert "/" + decoded[1..] == decoded;
    }
  }

  /** The exact acceptance condition: a path is accepted, with result r, iff r is canonical and at most
      four full decoding rounds take the input to r. */
  lemma NormalizeAcceptsExactly(raw: string, r: string)
    ensures Normalized(raw) == Success(r) <==> Canonical(r) && exists n: nat :: n <= 4 && Layers(n, raw) == Some(r)
  {
    if Normalized(raw) == Success(r) {
      CheckedIsCanonical(DecodeRounds(4, raw).value, r);
      var n := RoundsAreLayers(4, raw);
      assert n <= 4 && Layers(n, raw) == Some(r);
    }
    if Canonical(r) && exists n: nat :: n <= 4 && Layers(n, raw) == Some(r) {
      var n: nat :| n <= 4 && Layers(n, raw) == Some(r);
      LayersAreRounds(4, n, raw, r);
      CheckedIsCanonical(r, r);
    }
  }

  /** Decoding has reached a fixed point: a second normalization changes nothing. */
  lemma NormalizeIsIdempotent(raw: string, r: string)
    requires Normalized(raw) == Success(r)
    ensures Canonical(r) && Normalized(r) == Success(r)
  {
    NormalizeAcceptsExactly(raw, r);
    assert Layers(0, r) == Some(r);
    NormalizeAcceptsExactly(r, r);
  }

  // ---- Escape layers ----

  predicate IsByteText(s: string) {
    forall i :: 0 <= i < |s| ==> s[i] as int < 256
  }

  const UPPER_HEX := "0123456789ABCDEF"
  const LOWER_HEX := "0123456789abcdef"

  /** The digit of a value in either case. */
  function HexDigit(v: nat, upper: bool): char
    requires v < 16
  {
    if upper then UPPER_HEX[v] else LOWER_HEX[v]
  }

  lemma HexDigitsHaveTheirValue(v: nat, upper: bool)
    requires v < 16
    ensures IsHex(HexDigit(v, upper)) && HexValue(HexDigit(v, upper)) == v
  {
    var c := HexDigit(v, upper);
    if v < 10 {
      assert UPPER_HEX[v] == LOWER_HEX[v] == '0' + v as char;
    } else {
      assert UPPER_HEX[v] == 'A' + (v - 10) as char && LOWER_HEX[v] == 'a' + (v - 10) as char;
    }
  }

  /** Only these characters are hex digits. */
  lemma HexDigitsAre(c: char)
    ensures IsHex(c) <==> c in UPPER_HEX || c in LOWER_HEX
  {
    if IsHex(c) {
      var v := HexValue(c);
      HexDigitsHaveTheirValue(v, true);
      HexDigitsHaveTheirValue(v, false);
      assert c == UPPER_HEX[v] || c == LOWER_HEX[v];
    }
    if c in UPPER_HEX {
      var v :| 0 <= v < 16 && UPPER_HEX[v] == c;
      HexDigitsHaveTheirValue(v, true);
    }
    if c in LOWER_HEX {
      var v :| 0 <= v < 16 && LOWER_HEX[v] == c;
      HexDigitsHaveTheirValue(v, false);
    }
  }

  /** How one character is written in an escape layer; a '%' is always escaped. */
  datatype Spelling = Plain | Escaped(upperHigh: bool, upperLow: bool)

  function Spell(how: Spelling, c: char): string
    requires c as int < 256
  {
    match how
    case Plain => if c == '%' then "%25" else [c]
    case Escaped(high, low) => ['%', HexDigit(c as int / 16, high), HexDigit(c as int % 16, low)]
  }

  /** Any byte, escaped in either case, decodes to itself, whatever comes after it. */
  lemma UnescapeOfSpelling(how: Spelling, c: char, rest: string)
    requires c as int < 256
    ensures Unescape(Spell(how, c) + rest) == match Unescape(rest) case None => None case Some(r) => Some([c] + r)
  {
    var s := Spell(how, c) + rest;
    if how.Escaped? {
      HexDigitsHaveTheirValue(c as int / 16, how.upperHigh);
      HexDigitsHaveTheirValue(c as int % 16, how.upperLow);
    }
    if how.Escaped? || c == '%' {
      assert s[3..] == rest;
    } else {
      assert s[1..] == rest;
    }
  }

  /** A '%' that two hex digits do not follow. */
  predicate Malformed(s: string, i: nat) {
    i < |s| && s[i] == '%' && !(i + 2 < |s| && IsHex(s[i + 1]) && IsHex(s[i + 2]))
  }

  lemma MalformedLater(s: string, n: nat, i: nat)
    requires n <= |s|
    ensures Malformed(s[n..], i) <==> Malformed(s, n + i)
  {
  }

  /** A decoding round fails exactly on a malformed escape. */
  lemma {:induction false} UnescapeFailsIff(s: string)
    ensures Unescape(s).None? <==> exists i: nat :: Malformed(s, i)
  {
    if s != "" && !Malformed(s, 0) {
      var n := if s[0] == '%' then 3 else 1;
      UnescapeFailsIff(s[n..]);
      if i: nat :| Malformed(s, i) {
        assert i < n ==> IsHex(s[i]);
        MalformedLater(s, n, i - n);
      }
      if i: nat :| Malformed(s[n..], i) {
        MalformedLater(s, n, i);
      }
    }
  }

  /** One valid escape layer, each character spelled as chosen. */
  function EscapeLayer(how: seq<Spelling>, s: string): string
    requires |how| == |s| && IsByteText(s)
  {
    if s == "" then "" else Spell(how[0], s[0]) + EscapeLayer(how[1..], s[1..])
  }

  lemma {:induction false} UnescapeOfEscape(how: seq<Spelling>, s: string)
    requires |how| == |s| && IsByteText(s)
    ensures Unescape(EscapeLayer(how, s)) == Some(s)
  {
    if s != "" {
      UnescapeOfEscape(how[1..], s[1..]);
      UnescapeOfSpelling(how[0], s[0], EscapeLayer(how[1..], s[1..]));
      assert [s[0]] + s[1..] == s;
    }
  }

  /** The escape layers, applied one after the other. */
  function EscapeLayers(layers: seq<seq<Spelling>>, s: string): (r: Option<string>)
  {
    if layers == [] then Some(s)
    else if |layers[0]| != |s| || !IsByteText(s) then None
    else EscapeLayers(layers[1..], EscapeLayer(layers[0], s))
  }

  lemma {:induction false} LayersCompose(m: nat, n: nat, s: string)
    ensures Layers(m + n, s) == match Layers(m, s) case None => None case Some(t) => Layers(n, t)
  {
    if m > 0 && Unescape(s).Some? {
      LayersCompose(m - 1, n, Unescape(s).value);
    }
  }

  lemma {:induction false} LayersOfEscapes(layers: seq<seq<Spelling>>, s: string)
    requires EscapeLayers(layers, s).Some?
    ensures Layers(|layers|, EscapeLayers(layers, s).value) == Some(s)
  {
    if layers != [] {
      var once := EscapeLayer(layers[0], s);
      UnescapeOfEscape(layers[0], s);
      LayersOfEscapes(layers[1..], once);
      LayersCompose(|layers| - 1, 1, EscapeLayers(layers, s).value);
      assert Layers(1, once) == Layers(0, s);
    }
  }

  /** A canonical path hidden under up to four escape layers, in upper or lower case, is recovered exactly. */
  lemma EscapedPathIsRecovered(layers: seq<seq<Spelling>>, p: string)
    requires Canonical(p) && |layers| <= 4 && EscapeLayers(layers, p).Some?
    ensures Normalized(EscapeLayers(layers, p).value) == Success(p)
  {
    LayersOfEscapes(layers, p);
    NormalizeAcceptsExactly(EscapeLayers(layers, p).value, p);
  }

  // ---- Slugs ----

  const INDEX_FILENAME := "index.html"

  /** Entry path and public route of a slug. */
  function SlugPaths(slug: string): Result<(string, string), Code> {
    var trimmed := TrimSpace(slug);
    if trimmed == "/" || trimmed == "index" || trimmed == "" then Success(("/" + INDEX_FILENAME, "/"))
    else
      match Normalized("/" + TrimRightChar(TrimLeftChar(trimmed, '/'), '/'))
      case Failure(_) => Failure(INVALID_SLUG)
      case Success(p) => Success((p + "/" + INDEX_FILENAME, p))
  }

  method MapSlug(slug: string) returns (r: Result<(string, string), Code>)
    ensures r == SlugPaths(slug)
  {
    var trimmed := TrimSpace(slug);
    if trimmed == "/" || trimmed == "index" || trimmed == "" {
      return Success(("/" + INDEX_FILENAME, "/"));
    }
    var normalized := NormalizePath("/" + TrimRightChar(TrimLeftChar(trimmed, '/'), '/'));
    if normalized.Failure? {
      return Failure(INVALID_SLUG);
    }
    return Success((normalized.value + "/" + INDEX_FILENAME, normalized.value));
  }

  // ---- Storage keys ----

  /** The key of an artifact path below a deployment's base path. */
  function StorageKeyOf(basePath: string, artifactPath: string): Result<string, Code> {
    if !HasPrefix(artifactPath, "/") || '\\' in artifactPath then Failure(PATH_TRAVERSAL_DETECTED)
    else if !PlainSegments(Split(TrimPrefix(artifactPath, "/"), '/')) then Failure(PATH_TRAVERSAL_DETECTED)
    else Success(basePath + artifactPath)
  }

  method StorageKey(basePath: string, artifactPath: string) returns (r: Result<string, Code>)
    ensures r == StorageKeyOf(basePath, artifactPath)
  {
    if !HasPrefix(artifactPath, "/") || '\\' in artifactPath {
      return Failure(PATH_TRAVERSAL_DETECTED);
    }
    var segments := Split(TrimPrefix(artifactPath, "/"), '/');
    for i := 0 to |segments|
      invariant forall k :: 0 <= k < i ==> segments[k] != "" && !IsDotSegment(segments[k])
    {
      if segments[i] == "" || segments[i] == "." || segments[i] == ".." {
        assert segments[i] in segments;
        return Failure(PATH_TRAVERSAL_DETECTED);
      }
    }
    return Success(basePath + artifactPath);
  }

  lemma CanonicalPathHasKey(base: string, p: string)
    requires Canonical(p)
    ensures StorageKeyOf(base, p) == Success(base + p)
  {
    assert TrimPrefix(p, "/") == p[1..];
  }

  /** Appending a plain segment keeps a path canonical. */
  lemma CanonicalExtension(p: string, segment: string)
    requires Canonical(p)
    requires PlainName(segment)
    ensures Canonical(p + "/" + segment)
  {
    var q := p + "/" + segment;
    assert q[1..] == p[1..] + "/" + segment;
    SplitAtSeparator(p[1..], segment, '/');
    SplitSeparatorFree(segment, '/');
    SplitPartsAreSeparatorFree(p[1..], '/');
  }

  /** StorageKey never rejects what the two path producers accept. */
  lemma ProducedPathsHaveKeys(base: string, raw: string)
    ensures Normalized(raw).Success? ==>
              StorageKeyOf(base, Normalized(raw).value) == Success(base + Normalized(raw).value)
    ensures SlugPaths(raw).Success? ==>
              Canonical(SlugPaths(raw).value.0)
                  && StorageKeyOf(base, SlugPaths(raw).value.0) == Success(base + SlugPaths(raw).value.0)
  {
    if Normalized(raw).Success? {
      NormalizeAcceptsExactly(raw, Normalized(raw).value);
      CanonicalPathHasKey(base, Normalized(raw).value);
    }
    if SlugPaths(raw).Success? {
      SlugEntryIsCanonical(raw);
      CanonicalPathHasKey(base, SlugPaths(raw).value.0);
    }
  }

  lemma SlugEntryIsCanonical(slug: string)
    requires SlugPaths(slug).Success?
    ensures Canonical(SlugPaths(slug).value.0)
  {
    IndexIsPlainName();
    RootFileIsCanonical(INDEX_FILENAME);
    var route := SlugPaths(slug).value.1;
    if SlugPaths(slug).value.0 != "/" + INDEX_FILENAME {
      var inner := "/" + TrimRightChar(TrimLeftChar(TrimSpace(slug), '/'), '/');
      NormalizeAcceptsExactly(inner, route);
      CanonicalExtension(route, INDEX_FILENAME);
    }
  }

  predicate PlainName(segment: string) {
    && segment != "" && !IsDotSegment(segment)
    && '/' !in segment && '%' !in segment && '\\' !in segment
    && forall c :: c in segment ==> !IsControl(c)
  }

  lemma IndexIsPlainName()
    ensures PlainName(INDEX_FILENAME) && !HasDrivePrefix(INDEX_FILENAME)
  {
    var s := INDEX_FILENAME;
    assert |s| == 10 && s[0] == 'i' && s[1] == 'n' && s[2] == 'd' && s[3] == 'e' && s[4] == 'x';
    assert s[5] == '.' && s[6] == 'h' && s[7] == 't' && s[8] == 'm' && s[9] == 'l';
  }

  lemma RootFileIsCanonical(name: string)
    requires PlainName(name) && !HasDrivePrefix(name)
    ensures Canonical("/" + name)
  {
    var p := "/" + name;
    assert p[1..] == name;
    SplitSeparatorFree(name, '/');
  }

  // ---- Confinement ----

  /** Lexical resolution of path segments: empty and "." segments vanish, ".." removes its predecessor. */
  function Resolve(stack: seq<string>, segments: seq<string>): seq<string>
    decreases |segments|
  {
    if segments == [] then stack
    else
      var s := segments[0];
      if s == "" || s == "." then Resolve(stack, segments[1..])
      else if s == ".." then Resolve(if stack == [] then [] else stack[..|stack| - 1], segments[1..])
      else Resolve(stack + [s], segments[1..])
  }

  lemma {:induction false} ResolvePlain(stack: seq<string>, segments: seq<string>)
    requires PlainSegments(segments)
    ensures Resolve(stack, segments) == stack + segments
    decreases |segments|
  {
    if segments != [] {
      assert segments[0] in segments;
      assert forall s :: s in segments[1..] ==> s in segments;
      ResolvePlain(stack + [segments[0]], segments[1..]);
      assert stack + [segments[0]] + segments[1..] == stack + segments;
    }
  }

  lemma {:induction false} ResolveConcat(stack: seq<string>, a: seq<string>, b: seq<string>)
    ensures Resolve(stack, a + b) == Resolve(Resolve(stack, a), b)
    decreases |a|
  {
    if a == [] {
      assert a + b == b;
    } else {
      assert (a + b)[1..] == a[1..] + b;
      var s := a[0];
      if s == "" || s == "." { ResolveConcat(stack, a[1..], b); }
      else if s == ".." { ResolveConcat(if stack == [] then [] else stack[..|stack| - 1], a[1..], b); }
      else { ResolveConcat(stack + [s], a[1..], b); }
    }
  }

  /** A produced key lies strictly below its base path, even after lexical resolution of dot segments. */
  lemma KeyIsConfined(base: string, p: string, key: string)
    requires StorageKeyOf(base, p) == Success(key)
    ensures |Split(p[1..], '/')| >= 1 && PlainSegments(Split(p[1..], '/'))
    ensures Resolve([], Split(key, '/')) == Resolve([], Split(base, '/')) + Split(p[1..], '/')
  {
    assert TrimPrefix(p, "/") == p[1..];
    assert key == base + "/" + p[1..];
    SplitAtSeparator(base, p[1..], '/');
    ResolveConcat([], Split(base, '/'), Split(p[1..], '/'));
    ResolvePlain(Resolve([], Split(base, '/')), Split(p[1..], '/'));
  }

  lemma KeyIsInjective(base: string, p: string, q: string)
    requires StorageKeyOf(base, p).Success? && StorageKeyOf(base, p) == StorageKeyOf(base, q)
    ensures p == q
  {
    assert (base + p)[|base|..] == p && (base + q)[|base|..] == q;
  }

  /** Where a deployment's artifact lives: prefix/site/deployments/deployment. */
  function BasePath(prefix: string, site: string, deployment: string): string {
    prefix + "/" + site + "/deployments/" + deployment
  }

  const MANIFEST_FILENAME := "artifact-manifest.json"

  function ManifestKey(basePath: string): string {
    basePath + "/" + MANIFEST_FILENAME
  }

  /** Keys of different (site, deployment) pairs never coincide, provided the ids hold no slash. */
  lemma KeysOfDeploymentsAreDisjoint(prefix: string, site: string, deployment: string, p: string,
                                     site': string, deployment': string, p': string)
    requires '/' !in site && '/' !in deployment && '/' !in site' && '/' !in deployment'
    requires HasPrefix(p, "/") && HasPrefix(p', "/")
    requires BasePath(prefix, site, deployment) + p == BasePath(prefix, site', deployment') + p'
    ensures site == site' && deployment == deployment' && p == p'
  {
    var key := BasePath(prefix, site, deployment) + p;
    var tail := "deployments/" + deployment + p;
    var tail' := "deployments/" + deployment' + p';
    assert p == "/" + p[1..] && p' == "/" + p'[1..];
    assert key == (prefix + "/") + (site + "/" + tail);
    assert key == (prefix + "/") + (site' + "/" + tail');
    assert key[|prefix| + 1..] == site + "/" + tail;
    assert key[|prefix| + 1..] == site' + "/" + tail';
    FirstSeparatorIsUnique(site, tail, site', tail', '/');
    assert tail[12..] == deployment + "/" + p[1..];
    assert tail'[12..] == deployment' + "/" + p'[1..];
    FirstSeparatorIsUnique(deployment, p[1..], deployment', p'[1..], '/');
  }
}
