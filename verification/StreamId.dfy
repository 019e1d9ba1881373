/** Redis stream entry ids: the 64-bit pair "milliseconds-sequence" and its text form. */
module StreamId {
  import opened Wrappers
  import opened Decimal

  datatype Id = Id(ms: nat, count: nat) {
    /** Both halves fit 64 bits. */
    predicate InRange() {
      ms <= MAX_UINT64 && count <= MAX_UINT64
    }

    predicate Less(other: Id) {
      ms < other.ms || (ms == other.ms && count < other.count)
    }

    predicate AtMost(other: Id) {
      !other.Less(this)
    }
  }

  const ZERO := Id(0, 0)
  const LAST := Id(MAX_UINT64, MAX_UINT64)

  function Format(id: Id): string {
    FormatUint(id.ms) + "-" + FormatUint(id.count)
  }

  /** The text before the first separator, and the text after it if there is one. */
  function Cut(s: string, sep: char): (string, Option<string>) {
    if s == "" then ("", None)
    else if s[0] == sep then ("", Some(s[1..]))
    else var (before, after) := Cut(s[1..], sep); ([s[0]] + before, after)
  }

  /** "ms-seq"; a bare "ms" means sequence 0. */
  function Parse(text: string): Option<Id> {
    var (msPart, rest) := Cut(text, '-');
    match ParseUint(msPart)
    case None => None
    case Some(ms) =>
      match ParseUint(if rest.Some? then rest.value else "0")
      case None => None
      case Some(seqNo) => Some(Id(ms, seqNo))
  }

  /** The numerically smaller id; an unparseable side loses. */
  function MinStreamId(a: string, b: string): string {
    if Parse(a).None? then b
    else if Parse(b).None? then a
    else if Parse(b).value.Less(Parse(a).value) then b
    else a
  }

  /** The next id in text form; the 64-bit increment of the milliseconds wraps. */
  function NextStreamId(text: string): string {
    match Parse(text)
    case None => text
    case Some(id) =>
      if id.count == MAX_UINT64 then FormatUint((id.ms + 1) % (MAX_UINT64 + 1)) + "-0"
      else Format(Id(id.ms, id.count + 1))
  }

  /** The horizon of a wall-clock time: signed epoch milliseconds, sequence 0. */
  function MinIdAt(horizonMs: int): string {
    Itoa(horizonMs) + "-0"
  }

  // ---- Meaning of the text operations ----

  lemma {:induction false} CutAtSeparator(before: string, after: string, sep: char)
    requires sep !in before
    ensures Cut(before + [sep] + after, sep) == (before, Some(after))
  {
    var s := before + [sep] + after;
    if before == "" {
      assert s[1..] == after;
    } else {
      assert s[1..] == before[1..] + [sep] + after;
      CutAtSeparator(before[1..], after, sep);
      assert [before[0]] + before[1..] == before;
    }
  }

  lemma DigitsHoldNoDash(n: nat)
    ensures '-' !in FormatUint(n)
  {
    var s := FormatUint(n);
    assert forall i :: 0 <= i < |s| ==> IsDigit(s[i]);
  }

  lemma ParseOfFormatted(id: Id)
    requires id.InRange()
    ensures Parse(Format(id)) == Some(id)
  {
    DigitsHoldNoDash(id.ms);
    CutAtSeparator(FormatUint(id.ms), FormatUint(id.count), '-');
    ParseOfFormat(id.ms);
    ParseOfFormat(id.count);
  }

  lemma ParseOfZeroSequence(ms: nat)
    requires ms <= MAX_UINT64
    ensures Parse(FormatUint(ms) + "-0") == Some(Id(ms, 0))
  {
    assert [DigitChar(0)] == "0";
    assert FormatUint(ms) + "-0" == FormatUint(ms) + "-" + "0";
    ParseOfFormatted(Id(ms, 0));
  }

  /** The id the successor text stands for: the next pair, or 0-0 past the last one. */
  function Successor(id: Id): Id {
    if id.count < MAX_UINT64 then Id(id.ms, id.count + 1)
    else if id.ms < MAX_UINT64 then Id(id.ms + 1, 0)
    else ZERO
  }

  lemma WrapOfSuccessor(ms: nat)
    requires ms <= MAX_UINT64
    ensures (ms + 1) % (MAX_UINT64 + 1) == if ms < MAX_UINT64 then ms + 1 else 0
  {
  }

  lemma NextParses(id: Id)
    requires id.InRange()
    ensures Parse(NextStreamId(Format(id))) == Some(Successor(id))
  {
    ParseOfFormatted(id);
    if id.count == MAX_UINT64 {
      WrapOfSuccessor(id.ms);
      ParseOfZeroSequence(if id.ms < MAX_UINT64 then id.ms + 1 else 0);
    } else {
      ParseOfFormatted(Id(id.ms, id.count + 1));
    }
  }

  /** Successor is the least larger id, except at the last id, where it wraps to the smallest one. */
  lemma SuccessorIsLeastAbove(id: Id)
    requires id.InRange()
    ensures id.Less(Successor(id)) <==> id != LAST
    ensures id != LAST ==> forall x: Id :: x.InRange() && id.Less(x) ==> Successor(id).AtMost(x)
    ensures forall x: Id :: x.InRange() && x.Less(Successor(id)) ==> x.AtMost(id)
  {
  }

  /** MinStreamId denotes the minimum of the ids its arguments denote. */
  lemma MinParses(a: string, b: string)
    requires Parse(a).Some? && Parse(b).Some?
    ensures Parse(MinStreamId(a, b)).Some?
    ensures Parse(MinStreamId(a, b)).value in {Parse(a).value, Parse(b).value}
    ensures Parse(MinStreamId(a, b)).value.AtMost(Parse(a).value)
    ensures Parse(MinStreamId(a, b)).value.AtMost(Parse(b).value)
  {
  }

  /** A side that is no id loses, and a time without a sequence is that time's first id. */
  lemma UnparseableLoses(a: string, b: string, ms: nat)
    ensures Parse(a).None? ==> MinStreamId(a, b) == b
    ensures Parse(a).Some? && Parse(b).None? ==> MinStreamId(a, b) == a
    ensures Parse(a).None? ==> NextStreamId(a) == a
    ensures ms <= MAX_UINT64 ==> Parse(FormatUint(ms)) == Some(Id(ms, 0))
  {
    DigitsHoldNoDash(ms);
    CutWithoutSeparator(FormatUint(ms), '-');
    ParseOfFormat(ms);
    ParseOfFormat(0);
    assert FormatUint(0) == "0";
  }

  lemma {:induction false} CutWithoutSeparator(s: string, sep: char)
    requires sep !in s
    ensures Cut(s, sep) == (s, None)
  {
    if s != "" {
      CutWithoutSeparator(s[1..], sep);
      assert [s[0]] + s[1..] == s;
    }
  }

  /** A horizon parses iff it is at or after the epoch (and within 64 bits). */
  lemma HorizonParses(horizonMs: int)
    ensures Parse(MinIdAt(horizonMs)) == if 0 <= horizonMs <= MAX_UINT64 then Some(Id(horizonMs, 0)) else None
  {
    if horizonMs < 0 {
      var text := MinIdAt(horizonMs);
      assert text[0] == '-';
      assert Cut(text, '-').0 == "";
    } else {
      DigitsHoldNoDash(horizonMs);
      CutAtSeparator(FormatUint(horizonMs), "0", '-');
      assert FormatUint(horizonMs) + ['-'] + "0" == MinIdAt(horizonMs);
      ParseOfFormat(horizonMs);
      assert FormatUint(0) == "0";
      ParseOfFormat(0);
    }
  }
}
