/** Byte strings and the handful of string operations the worker relies on.

A Go string is a sequence of bytes; here it is a `string` whose characters stand for those bytes. */
module Text {

  predicate HasPrefix(s: string, prefix: string) {
    prefix <= s
  }

  predicate HasSuffix(s: string, suffix: string) {
    |suffix| <= |s| && s[|s| - |suffix|..] == suffix
  }

  predicate ContainsText(s: string, needle: string) {
    exists i :: 0 <= i <= |s| - |needle| && s[i..][..|needle|] == needle
  }

  function TrimPrefix(s: string, prefix: string): string {
    if HasPrefix(s, prefix) then s[|prefix|..] else s
  }

  /** Splits at every occurrence of the separator; always yields at least one part. */
  function Split(s: string, sep: char): (parts: seq<string>)
    ensures |parts| >= 1
  {
    if s == "" then [""]
    else
      var rest := Split(s[1..], sep);
      if s[0] == sep then [""] + rest
      else [[s[0]] + rest[0]] + rest[1..]
  }

  function Join(parts: seq<string>, sep: char): string {
    if |parts| == 0 then ""
    else if |parts| == 1 then parts[0]
    else parts[0] + [sep] + Join(parts[1..], sep)
  }

  /** Splitting loses nothing. */
  lemma {:induction false} JoinOfSplit(s: string, sep: char)
    ensures Join(Split(s, sep), sep) == s
  {
    if s != "" {
      JoinOfSplit(s[1..], sep);
      var rest := Split(s[1..], sep);
      var parts := Split(s, sep);
      if s[0] == sep {
        assert parts[1..] == rest;
        assert parts[0] == "";
      } else {
        assert parts[1..] == rest[1..];
        assert parts[0] == [s[0]] + rest[0];
        assert [s[0]] + s[1..] == s;
      }
    }
  }

  /** No part of a split contains the separator. */
  lemma {:induction false} SplitPartsAreSeparatorFree(s: string, sep: char)
    ensures forall part :: part in Split(s, sep) ==> sep !in part
  {
    if s != "" {
      SplitPartsAreSeparatorFree(s[1..], sep);
    }
  }

  lemma {:induction false} SplitSeparatorFree(s: string, sep: char)
    requires sep !in s
    ensures Split(s, sep) == [s]
  {
    if s != "" {
      SplitSeparatorFree(s[1..], sep);
      assert [s[0]] + s[1..] == s;
    }
  }

  lemma SplitCons(s: string, c: char, t: string, sep: char)
    requires s == [c] + t
    ensures Split(s, sep) == Prepend(c, Split(t, sep), sep)
  {
    assert s[1..] == t;
  }

  /** Splitting one character more. */
  function Prepend(c: char, parts: seq<string>, sep: char): seq<string>
    requires parts != []
  {
    if c == sep then [""] + parts else [[c] + parts[0]] + parts[1..]
  }

  lemma PrependToConcat(c: char, x: seq<string>, y: seq<string>, sep: char)
    requires x != []
    ensures Prepend(c, x + y, sep) == Prepend(c, x, sep) + y
  {
  }

  /** A separator between two texts separates their splits. */
  lemma {:induction false} SplitAtSeparator(a: string, b: string, sep: char)
    ensures Split(a + [sep] + b, sep) == Split(a, sep) + Split(b, sep)
  {
    if a == "" {
      SplitCons([sep] + b, sep, b, sep);
      assert a + [sep] + b == [sep] + b;
    } else {
      SplitAtSeparator(a[1..], b, sep);
      calc {
        Split(a + [sep] + b, sep);
        { SplitCons(a + [sep] + b, a[0], a[1..] + [sep] + b, sep); }
        Prepend(a[0], Split(a[1..] + [sep] + b, sep), sep);
        Prepend(a[0], Split(a[1..], sep) + Split(b, sep), sep);
        { PrependToConcat(a[0], Split(a[1..], sep), Split(b, sep), sep); }
        Prepend(a[0], Split(a[1..], sep), sep) + Split(b, sep);
        { SplitCons(a, a[0], a[1..], sep); }
        Split(a, sep) + Split(b, sep);
      }
    }
  }

  /** Joining separator-free parts and splitting again gives the parts back. */
  lemma {:induction false} SplitOfJoin(parts: seq<string>, sep: char)
    requires |parts| >= 1
    requires forall part :: part in parts ==> sep !in part
    ensures Split(Join(parts, sep), sep) == parts
  {
    if |parts| == 1 {
      SplitSeparatorFree(parts[0], sep);
    } else {
      SplitOfJoin(parts[1..], sep);
      SplitSeparatorFree(parts[0], sep);
      SplitAtSeparator(parts[0], Join(parts[1..], sep), sep);
      assert [parts[0]] + parts[1..] == parts;
    }
  }

  /** Two texts that agree up to a separator that neither head contains agree on both sides of it. */
  lemma FirstSeparatorIsUnique(a: string, x: string, b: string, y: string, sep: char)
    requires sep !in a && sep !in b
    requires a + [sep] + x == b + [sep] + y
    ensures a == b && x == y
  {
    var s := a + [sep] + x;
    assert s[|a|] == sep && s[|b|] == sep;
    assert a == s[..|a|] && b == s[..|b|];
    assert x == s[|a| + 1..] && y == s[|b| + 1..];
  }

  /** The same for the last separator. */
  lemma LastSeparatorIsUnique(a: string, x: string, b: string, y: string, sep: char)
    requires sep !in x && sep !in y
    requires a + [sep] + x == b + [sep] + y
    ensures a == b && x == y
  {
    var s := a + [sep] + x;
    assert s[|a|] == sep && s[|b|] == sep;
    assert a == s[..|a|] && b == s[..|b|];
    assert x == s[|a| + 1..] && y == s[|b| + 1..];
  }

  predicate IsSpace(c: char) {
    c == ' ' || '\t' <= c <= '\r'
  }

  function TrimLeftSpace(s: string): string {
    if s != "" && IsSpace(s[0]) then TrimLeftSpace(s[1..]) else s
  }

  function TrimRightSpace(s: string): string {
    if s != "" && IsSpace(s[|s| - 1]) then TrimRightSpace(s[..|s| - 1]) else s
  }

  function TrimSpace(s: string): string {
    TrimRightSpace(TrimLeftSpace(s))
  }

  /** Tab, line feed, vertical tab, form feed, carriage return and the space itself. */
  predicate IsWhite(c: char) {
    c as int in {9, 10, 11, 12, 13, 32}
  }

  predicate AllSpaces(s: string) {
    forall i :: 0 <= i < |s| ==> IsWhite(s[i])
  }

  lemma {:induction false} TrimLeadingSpace(lead: string, t: string)
    requires AllSpaces(lead) && (t == "" || !IsWhite(t[0]))
    ensures TrimLeftSpace(lead + t) == t
  {
    if lead == "" {
      assert lead + t == t;
    } else {
      assert (lead + t)[1..] == lead[1..] + t;
      TrimLeadingSpace(lead[1..], t);
    }
  }

  lemma {:induction false} TrimTrailingSpace(t: string, trail: string)
    requires AllSpaces(trail) && (t == "" || !IsWhite(t[|t| - 1]))
    ensures TrimRightSpace(t + trail) == t
  {
    if trail == "" {
      assert t + trail == t;
    } else {
      assert (t + trail)[..|t + trail| - 1] == t + trail[..|trail| - 1];
      TrimTrailingSpace(t, trail[..|trail| - 1]);
    }
  }

  /** Trimming takes the white space around a text and nothing else. */
  lemma TrimSpaceKeeps(lead: string, t: string, trail: string)
    requires AllSpaces(lead) && AllSpaces(trail)
    requires t == "" || (!IsWhite(t[0]) && !IsWhite(t[|t| - 1]))
    ensures TrimSpace(lead + t + trail) == t
  {
    if t == "" {
      assert AllSpaces(lead + trail) && lead + t + trail == (lead + trail) + "";
      TrimLeadingSpace(lead + trail, "");
    } else {
      assert lead + t + trail == lead + (t + trail);
      assert (t + trail)[0] == t[0];
      TrimLeadingSpace(lead, t + trail);
      TrimTrailingSpace(t, trail);
    }
  }

  function TrimLeftChar(s: string, c: char): string {
    if s != "" && s[0] == c then TrimLeftChar(s[1..], c) else s
  }

  function TrimRightChar(s: string, c: char): string {
    if s != "" && s[|s| - 1] == c then TrimRightChar(s[..|s| - 1], c) else s
  }
}
