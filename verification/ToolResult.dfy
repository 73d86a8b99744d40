/**
  Shrinking a tool result until its event fits the payload budget: first the output preview, then the
  diffs, then the name. `fits` says whether the event of a draft stays within the budget.
*/
module ToolResult {
  import opened Wrappers
  import opened Utf8Text

  const MIN_DIFF_TEXT := 64
  const MAX_NAME_BYTES := 256
  const MAX_NAME_RUNES := 128

  datatype Diff = Diff(oldText: Text, newText: Text, oldCut: bool, newCut: bool)

  datatype Draft = Draft(output: Text, truncated: bool, diffs: seq<Diff>, name: Text)

  type Fits = Draft -> bool

  // ---- One round ----

  /** The longest valid prefix of at most `limit` bytes. */
  function ValidPrefix(t: Text, limit: nat): (r: nat)
    requires limit <= |t|
    ensures r <= limit
  {
    if limit > 0 && !ValidUtf8(t[..limit]) then ValidPrefix(t, limit - 1) else limit
  }

  /** A text cut to at most `limit` bytes on a rune boundary. */
  function BoundText(t: Text, limit: nat): Text {
    t[..PrefixEnd(t, limit)]
  }

  function ShrinkDiff(d: Diff): Option<Diff> {
    if |d.oldText| <= MIN_DIFF_TEXT && |d.newText| <= MIN_DIFF_TEXT then None
    else
      var shrunk := Diff(BoundText(d.oldText, |d.oldText| / 2), BoundText(d.newText, |d.newText| / 2),
                         d.oldCut || d.oldText != [], d.newCut || d.newText != []);
      if shrunk.oldText == [] && shrunk.newText == [] then None else Some(shrunk)
  }

  datatype Round = Final | Again(draft: Draft)

  function NextRound(fits: Fits, d: Draft): Round
    requires ValidUtf8(d.name)
  {
    if fits(d) then Final
    else if d.output != [] then
      Again(d.(output := d.output[..ValidPrefix(d.output, |d.output| / 2)], truncated := true))
    else if |d.diffs| > 1 then Again(d.(diffs := d.diffs[..|d.diffs| - 1]))
    else if |d.diffs| == 1 then
      var shrunk := ShrinkDiff(d.diffs[0]);
      Again(d.(diffs := if shrunk.Some? then [shrunk.value] else []))
    else if |d.name| > MAX_NAME_BYTES then Again(d.(name := TakeRunes(d.name, MAX_NAME_RUNES)))
    else Final
  }

  function DiffBytes(diffs: seq<Diff>): nat {
    if diffs == [] then 0 else |diffs[0].oldText| + |diffs[0].newText|
  }

  lemma ShrinkDiffIsSmaller(d: Diff)
    ensures ShrinkDiff(d).Some? ==> DiffBytes([ShrinkDiff(d).value]) < DiffBytes([d])
  {
  }

  lemma RoundKeepsName(fits: Fits, d: Draft)
    requires ValidUtf8(d.name)
    ensures NextRound(fits, d).Again? ==> ValidUtf8(NextRound(fits, d).draft.name)
  {
    TakeRunesLaw(d.name, MAX_NAME_RUNES);
  }

  /** The draft the loop ends with, or nothing when a round changes nothing. */
  function Shrunk(fits: Fits, d: Draft): Option<Draft>
    requires ValidUtf8(d.name)
    decreases |d.output|, |d.diffs|, DiffBytes(d.diffs), |d.name|
  {
    RoundKeepsName(fits, d);
    RoundIsSmaller(fits, d);
    match NextRound(fits, d)
    case Final => Some(d)
    case Again(next) => if next == d then None else Shrunk(fits, next)
  }

  predicate Smaller(a: Draft, b: Draft) {
    || |a.output| < |b.output|
    || (|a.output| == |b.output| && |a.diffs| < |b.diffs|)
    || (|a.output| == |b.output| && |a.diffs| == |b.diffs| && DiffBytes(a.diffs) < DiffBytes(b.diffs))
    || (|a.output| == |b.output| && |a.diffs| == |b.diffs| && DiffBytes(a.diffs) == DiffBytes(b.diffs) &&
        |a.name| < |b.name|)
  }

  /** Output, number of diffs, diff text and name go down lexicographically, unless the round changes nothing. */
  lemma RoundIsSmaller(fits: Fits, d: Draft)
    requires ValidUtf8(d.name)
    ensures NextRound(fits, d).Again? ==> Smaller(NextRound(fits, d).draft, d) || NextRound(fits, d).draft == d
  {
    TakeRunesLaw(d.name, MAX_NAME_RUNES);
    if d.diffs != [] {
      ShrinkDiffIsSmaller(d.diffs[0]);
    }
    hide ValidUtf8, ShrinkDiff, TakeRunes;
    if |d.diffs| == 1 {
      assert d.diffs == [d.diffs[0]];
    }
    if |TakeRunes(d.name, MAX_NAME_RUNES)| == |d.name| {
      assert TakeRunes(d.name, MAX_NAME_RUNES) == d.name[..|d.name|] == d.name;
    }
  }

  // ---- When it ends ----

  /** The draft after `n` rounds. */
  function Rounds(fits: Fits, d: Draft, n: nat): Draft
    requires ValidUtf8(d.name)
    decreases n
  {
    RoundKeepsName(fits, d);
    if n == 0 || NextRound(fits, d).Final? then d else Rounds(fits, NextRound(fits, d).draft, n - 1)
  }

  /** A round that changes nothing is repeated forever. */
  lemma {:induction false} UnchangedRoundRepeats(fits: Fits, d: Draft, n: nat)
    requires ValidUtf8(d.name) && NextRound(fits, d) == Again(d)
    ensures Rounds(fits, d, n) == d
    decreases n
  {
    hide NextRound, ValidUtf8;
    if n > 0 {
      UnchangedRoundRepeats(fits, d, n - 1);
    }
  }

  /** The name's first 128 runes take at most 256 bytes. */
  predicate ShortName(name: Text)
    requires ValidUtf8(name)
  {
    |TakeRunes(name, MAX_NAME_RUNES)| <= MAX_NAME_BYTES
  }

  lemma RoundKeepsShortness(fits: Fits, d: Draft)
    requires ValidUtf8(d.name) && NextRound(fits, d).Again?
    ensures ValidUtf8(NextRound(fits, d).draft.name)
    ensures ShortName(NextRound(fits, d).draft.name) <==> ShortName(d.name)
    ensures NextRound(fits, d).draft == d ==> !ShortName(d.name)
  {
    RoundKeepsName(fits, d);
    TakeRunesLaw(d.name, MAX_NAME_RUNES);
    if d.diffs != [] {
      ShrinkDiffIsSmaller(d.diffs[0]);
    }
    hide ShrinkDiff, ValidUtf8;
    if |d.diffs| == 1 {
      assert d.diffs == [d.diffs[0]];
    }
  }

  lemma {:induction false} ShortNameEnds(fits: Fits, d: Draft)
    requires ValidUtf8(d.name) && ShortName(d.name)
    ensures Shrunk(fits, d).Some?
    decreases |d.output|, |d.diffs|, DiffBytes(d.diffs), |d.name|
  {
    hide NextRound, ValidUtf8, ShortName, TakeRunes;
    if NextRound(fits, d).Again? {
      RoundKeepsShortness(fits, d);
      RoundIsSmaller(fits, d);
      ShortNameEnds(fits, NextRound(fits, d).draft);
    }
  }

  function Never(): Fits {
    _ => false
  }

  lemma {:induction false} LongNameStalls(d: Draft)
    requires ValidUtf8(d.name) && !ShortName(d.name)
    ensures Shrunk(Never(), d) == None
    decreases |d.output|, |d.diffs|, DiffBytes(d.diffs), |d.name|
  {
    TakeRunesLaw(d.name, MAX_NAME_RUNES);
    assert NextRound(Never(), d).Again?;
    var next := NextRound(Never(), d).draft;
    hide NextRound, ValidUtf8, TakeRunes;
    RoundKeepsShortness(Never(), d);
    RoundIsSmaller(Never(), d);
    if next != d {
      LongNameStalls(next);
    }
  }

  /** Shrinking ends for every budget exactly when the name's first 128 runes take at most 256 bytes. */
  lemma ShrinkingEnds(d: Draft)
    requires ValidUtf8(d.name)
    ensures (forall fits: Fits :: Shrunk(fits, d).Some?) <==> ShortName(d.name)
  {
    if ShortName(d.name) {
      forall fits: Fits
        ensures Shrunk(fits, d).Some?
      {
        ShortNameEnds(fits, d);
      }
    } else {
      LongNameStalls(d);
    }
  }

  // ---- What it ends with ----

  /** What is left when nothing more can be dropped. */
  predicate Exhausted(d: Draft) {
    d.output == [] && d.diffs == [] && |d.name| <= MAX_NAME_BYTES
  }

  /** The result fits or is exhausted, its output is a prefix of the given one, and a draft that fits is kept whole. */
  lemma {:induction false} ShrunkLaw(fits: Fits, d: Draft)
    requires ValidUtf8(d.name) && Shrunk(fits, d).Some?
    ensures var r := Shrunk(fits, d).value;
            && (fits(r) || Exhausted(r)) && r.output <= d.output && |r.diffs| <= |d.diffs|
            && (fits(d) ==> r == d) && (r.output == d.output || r.truncated)
    decreases |d.output|, |d.diffs|, DiffBytes(d.diffs), |d.name|
  {
    RoundKeepsName(fits, d);
    RoundIsSmaller(fits, d);
    if NextRound(fits, d).Again? {
      var next := NextRound(fits, d).draft;
      assert next.output <= d.output && |next.diffs| <= |d.diffs| && (next.output == d.output || next.truncated);
      assert d.truncated ==> next.truncated;
      hide NextRound, ValidUtf8;
      ShrunkLaw(fits, next);
      TruncatedStays(fits, next);
    }
  }

  lemma {:induction false} TruncatedStays(fits: Fits, d: Draft)
    requires ValidUtf8(d.name) && Shrunk(fits, d).Some?
    ensures d.truncated ==> Shrunk(fits, d).value.truncated
    decreases |d.output|, |d.diffs|, DiffBytes(d.diffs), |d.name|
  {
    RoundKeepsName(fits, d);
    RoundIsSmaller(fits, d);
    if NextRound(fits, d).Again? {
      assert d.truncated ==> NextRound(fits, d).draft.truncated;
      hide NextRound, ValidUtf8;
      TruncatedStays(fits, NextRound(fits, d).draft);
    }
  }

  /** It is valid, and no longer prefix within the limit is. */
  lemma {:induction false} ValidPrefixLaw(t: Text, limit: nat)
    requires limit <= |t|
    ensures ValidUtf8(t[..ValidPrefix(t, limit)])
    ensures forall k :: ValidPrefix(t, limit) < k <= limit ==> !ValidUtf8(t[..k])
    decreases limit
  {
    if limit > 0 && !ValidUtf8(t[..limit]) {
      ValidPrefixLaw(t, limit - 1);
    }
  }

  /** A round that cuts the output leaves its longest valid prefix of at most half the bytes. */
  lemma RoundHalvesOutput(fits: Fits, d: Draft)
    requires ValidUtf8(d.name) && !fits(d) && d.output != []
    ensures var next := NextRound(fits, d);
            && next.Again? && next.draft == d.(output := next.draft.output, truncated := true)
            && next.draft.output <= d.output && |next.draft.output| <= |d.output| / 2 && ValidUtf8(next.draft.output)
            && (forall k :: |next.draft.output| < k <= |d.output| / 2 ==> !ValidUtf8(d.output[..k]))
  {
    ValidPrefixLaw(d.output, |d.output| / 2);
  }

  /** Each side is a prefix of the same side, and is marked as cut exactly when it was or became shorter. */
  predicate CutOf(a: Diff, b: Diff) {
    && b.oldText <= a.oldText && b.newText <= a.newText
    && (b.oldCut <==> a.oldCut || b.oldText != a.oldText)
    && (b.newCut <==> a.newCut || b.newText != a.newText)
  }

  /** `part` is the text up to the last rune boundary in its first half. */
  ghost predicate HalfOf(text: Text, part: Text) {
    && part <= text && |part| <= |text| / 2 && Boundary(text, |part|)
    && forall b: nat :: Boundary(text, b) && b <= |text| / 2 ==> b <= |part|
  }

  /**
    A diff shrinks to a half of each side; there is nothing left of it exactly when both sides are short
    already or not a single rune fits in either half.
  */
  lemma ShrinkDiffLaw(d: Diff)
    requires ValidUtf8(d.oldText) && ValidUtf8(d.newText)
    ensures var s := ShrinkDiff(d);
            && (s.Some? ==> CutOf(d, s.value) && HalfOf(d.oldText, s.value.oldText) &&
                            HalfOf(d.newText, s.value.newText))
            && (s.None? <==> || (|d.oldText| <= MIN_DIFF_TEXT && |d.newText| <= MIN_DIFF_TEXT)
                             || (HalfOf(d.oldText, []) && HalfOf(d.newText, [])))
  {
    PrefixEndLaw(d.oldText, |d.oldText| / 2);
    PrefixEndLaw(d.newText, |d.newText| / 2);
    hide ValidUtf8;
  }

  /** What the loop keeps: output goes first, then whole diffs from the end, then the first's texts, then the name. */
  ghost predicate Keeps(d: Draft, r: Draft) {
    && r.output <= d.output && (r.truncated <==> d.truncated || r.output != d.output)
    && |r.diffs| <= |d.diffs| && (r.diffs != d.diffs ==> r.output == [])
    && (forall i :: 0 <= i < |r.diffs| ==> CutOf(d.diffs[i], r.diffs[i]))
    && (|r.diffs| > 1 ==> r.diffs == d.diffs[..|r.diffs|])
    && r.name <= d.name && (r.name != d.name ==> r.output == [] && r.diffs == [])
  }

  lemma ShrinkCuts(d: Diff)
    ensures CutOf(d, d) && (ShrinkDiff(d).Some? ==> CutOf(d, ShrinkDiff(d).value))
  {
  }

  lemma SameCuts(diffs: seq<Diff>)
    ensures forall i :: 0 <= i < |diffs| ==> CutOf(diffs[i], diffs[i])
  {
  }

  lemma RoundKeeps(fits: Fits, d: Draft)
    requires ValidUtf8(d.name) && NextRound(fits, d).Again?
    ensures Keeps(d, NextRound(fits, d).draft)
  {
    SameCuts(d.diffs);
    if d.output != [] {
      OutputRoundKeeps(fits, d);
    } else if d.diffs != [] {
      ShrinkCuts(d.diffs[0]);
      hide ValidUtf8, TakeRunes, ShrinkDiff, CutOf;
    } else {
      TakeRunesLaw(d.name, MAX_NAME_RUNES);
      hide ValidUtf8, TakeRunes;
    }
  }

  lemma OutputRoundKeeps(fits: Fits, d: Draft)
    requires ValidUtf8(d.name) && NextRound(fits, d).Again? && d.output != []
    ensures Keeps(d, NextRound(fits, d).draft)
  {
    SameCuts(d.diffs);
    hide ValidUtf8, TakeRunes, ShrinkDiff, CutOf;
    var next := NextRound(fits, d).draft;
    assert next.diffs == d.diffs && |next.output| < |d.output|;
    assert d.diffs[..|d.diffs|] == d.diffs;
  }

  lemma KeepsCompose(a: Draft, b: Draft, c: Draft)
    requires Keeps(a, b) && Keeps(b, c)
    ensures Keeps(a, c)
  {
    if c.output == a.output {
      assert b.output == a.output;
    }
    forall i | 0 <= i < |c.diffs|
      ensures CutOf(a.diffs[i], c.diffs[i])
    {
      CutsCompose(a.diffs[i], b.diffs[i], c.diffs[i]);
    }
    hide CutOf;
    if c.diffs == a.diffs {
      assert |b.diffs| == |a.diffs|;
    }
  }

  lemma CutsCompose(a: Diff, b: Diff, c: Diff)
    requires CutOf(a, b) && CutOf(b, c)
    ensures CutOf(a, c)
  {
    if c.oldText == a.oldText {
      assert b.oldText == a.oldText;
    }
    if c.newText == a.newText {
      assert b.newText == a.newText;
    }
  }

  /** The loop stops at the first draft that fits, and keeps what it has no reason to drop. */
  lemma {:induction false} ShrunkKeeps(fits: Fits, d: Draft) returns (n: nat)
    requires ValidUtf8(d.name) && Shrunk(fits, d).Some?
    ensures Keeps(d, Shrunk(fits, d).value)
    ensures Rounds(fits, d, n) == Shrunk(fits, d).value
    ensures forall k: nat :: k < n ==> !fits(Rounds(fits, d, k))
    decreases |d.output|, |d.diffs|, DiffBytes(d.diffs), |d.name|
  {
    RoundKeepsName(fits, d);
    RoundIsSmaller(fits, d);
    n := 0;
    if NextRound(fits, d).Again? {
      var next := NextRound(fits, d).draft;
      assert !fits(d);
      RoundKeeps(fits, d);
      hide NextRound, ValidUtf8, Keeps;
      var m := ShrunkKeeps(fits, next);
      KeepsCompose(d, next, Shrunk(fits, next).value);
      n := m + 1;
      forall k: nat | k < n
        ensures !fits(Rounds(fits, d, k))
      {
        if k > 0 {
          assert Rounds(fits, d, k) == Rounds(fits, next, k - 1);
        }
      }
    } else {
      SameDraftKeeps(d);
    }
  }

  lemma SameDraftKeeps(d: Draft)
    ensures Keeps(d, d)
  {
  }

  // ---- The loop ----

  method FindValidPrefix(t: Text, limit: nat) returns (r: nat)
    requires limit <= |t|
    ensures r == ValidPrefix(t, limit)
  {
    r := limit;
    while r > 0 && !ValidUtf8(t[..r])
      invariant r <= limit && ValidPrefix(t, r) == ValidPrefix(t, limit)
    {
      r := r - 1;
    }
  }

  /** The draft of the event that is published; nothing when the loop would not end. */
  method ShrinkResult(fits: Fits, draft: Draft) returns (r: Option<Draft>)
    requires ValidUtf8(draft.name)
    ensures r == Shrunk(fits, draft)
    ensures r.Some? ==> fits(r.value) || Exhausted(r.value)
    ensures ShortName(draft.name) ==> r.Some?
  {
    if ShortName(draft.name) {
      ShortNameEnds(fits, draft);
    }
    if Shrunk(fits, draft).Some? {
      ShrunkLaw(fits, draft);
    }
    var d := draft;
    while true
      invariant ValidUtf8(d.name) && Shrunk(fits, d) == Shrunk(fits, draft)
      decreases |d.output|, |d.diffs|, DiffBytes(d.diffs), |d.name|
    {
      RoundKeepsName(fits, d);
      RoundIsSmaller(fits, d);
      var next := OneRound(fits, d);
      hide NextRound, ValidUtf8, ShortName, Exhausted;
      if next.Final? {
        return Some(d);
      }
      if next.draft == d {
        return None;
      }
      d := next.draft;
    }
  }

  method OneRound(fits: Fits, d: Draft) returns (next: Round)
    requires ValidUtf8(d.name)
    ensures next == NextRound(fits, d)
  {
    if fits(d) {
      return Final;
    }
    if d.output != [] {
      var limit := FindValidPrefix(d.output, |d.output| / 2);
      return Again(d.(output := d.output[..limit], truncated := true));
    }
    if |d.diffs| > 1 {
      return Again(d.(diffs := d.diffs[..|d.diffs| - 1]));
    }
    if |d.diffs| == 1 {
      var shrunk := ShrinkDiff(d.diffs[0]);
      return Again(d.(diffs := if shrunk.Some? then [shrunk.value] else []));
    }
    if d.name != [] && |d.name| > MAX_NAME_BYTES {
      return Again(d.(name := TakeRunes(d.name, MAX_NAME_RUNES)));
    }
    return Final;
  }
}
