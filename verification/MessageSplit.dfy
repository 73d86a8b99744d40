/**
  Splitting a message into events that fit a payload budget. `fits` says whether the event for a text
  stays within the budget; it may depend on the text in any way, as JSON escaping and encryption do.
*/
module MessageSplit {
  import opened Wrappers
  import opened Utf8Text

  const MAX_CHUNK := 8192

  type Fits = Text -> bool

  /** Halving `end` on rune boundaries until the prefix fits or is down to one byte. */
  function Halve(fits: Fits, r: Text, end: nat): (e: nat)
    requires end <= |r|
    ensures e <= end
    decreases end
  {
    if end > 1 && !fits(r[..end]) then Halve(fits, r, PrefixEnd(r, end / 2)) else end
  }

  function FirstEnd(r: Text): nat
    requires r != []
  {
    var end := PrefixEnd(r, if |r| > MAX_CHUNK then MAX_CHUNK else |r|);
    if end == 0 then 1 else end
  }

  /** How much of the remaining text the next event takes. */
  function ChunkEnd(fits: Fits, r: Text): (e: nat)
    requires r != []
    ensures e <= |r|
  {
    Halve(fits, r, FirstEnd(r))
  }

  /** The parts in order, or nothing when a chunk comes out empty. */
  function Parts(fits: Fits, text: Text): Option<seq<Text>>
    decreases |text|
  {
    if text == [] then Some([])
    else
      var end := ChunkEnd(fits, text);
      if end == 0 then None
      else
        var others := Parts(fits, text[end..]);
        if others.None? then None else Some([text[..end]] + others.value)
  }

  /** The remaining text after `n` rounds of the loop. */
  function Remaining(fits: Fits, text: Text, n: nat): Text
    decreases n
  {
    if n == 0 || text == [] then text else Remaining(fits, text[ChunkEnd(fits, text)..], n - 1)
  }

  /** An empty chunk leaves the remaining text as it was, so the loop goes on forever. */
  lemma {:induction false} EmptyChunkRepeats(fits: Fits, text: Text, n: nat)
    requires text != [] && ChunkEnd(fits, text) == 0
    ensures Remaining(fits, text, n) == text
    decreases n
  {
    if n > 0 {
      assert text[0..] == text;
      EmptyChunkRepeats(fits, text, n - 1);
    }
  }

  // ---- When every chunk makes progress ----

  /** Every text of at least two bytes that is shorter than twice its first rune fits. */
  ghost predicate SmallFits(fits: Fits) {
    forall t :: ValidUtf8(t) && 2 <= |t| < 2 * Width(t) ==> fits(t)
  }

  /** Halving stays on boundaries; it reaches zero only past a small text that does not fit. */
  lemma {:induction false} HalveLaw(fits: Fits, r: Text, end: nat)
    requires ValidUtf8(r) && r != [] && end <= |r| && Boundary(r, end)
    ensures Boundary(r, Halve(fits, r, end))
    ensures Halve(fits, r, end) > 0 ==> fits(r[..Halve(fits, r, end)]) || Halve(fits, r, end) == 1
    ensures SmallFits(fits) && end > 0 ==> Halve(fits, r, end) > 0
    decreases end
  {
    if end > 1 && !fits(r[..end]) {
      PrefixEndLaw(r, end / 2);
      HalveLaw(fits, r, PrefixEnd(r, end / 2));
      PrefixEndZero(r, end / 2);
      CutIsValid(r, end);
      FirstBoundary(r, end);
      assert Width(r[..end]) == Width(r);
    }
  }

  lemma FirstEndLaw(r: Text)
    requires ValidUtf8(r) && r != []
    ensures Boundary(r, FirstEnd(r)) && 0 < FirstEnd(r) <= |r| && FirstEnd(r) <= MAX_CHUNK
  {
    var limit := if |r| > MAX_CHUNK then MAX_CHUNK else |r|;
    PrefixEndLaw(r, limit);
    PrefixEndZero(r, limit);
    FirstRuneBoundary(r);
    FirstBoundary(r, Width(r));
  }

  function Join(parts: seq<Text>): Text {
    if parts == [] then [] else parts[0] + Join(parts[1..])
  }

  /** A part is a whole number of runes, not empty, not too long, and fits unless it is a single byte. */
  predicate GoodPart(fits: Fits, part: Text) {
    part != [] && |part| <= MAX_CHUNK && ValidUtf8(part) && (fits(part) || |part| == 1)
  }

  /** The next chunk of a valid text, when it is not empty, is a good part and leaves a valid text. */
  lemma ChunkLaw(fits: Fits, text: Text)
    requires ValidUtf8(text) && text != [] && ChunkEnd(fits, text) > 0
    ensures GoodPart(fits, text[..ChunkEnd(fits, text)]) && ValidUtf8(text[ChunkEnd(fits, text)..])
  {
    FirstEndLaw(text);
    HalveLaw(fits, text, FirstEnd(text));
    CutIsValid(text, ChunkEnd(fits, text));
  }

  ghost predicate Good(fits: Fits, parts: seq<Text>) {
    forall i :: 0 <= i < |parts| ==> GoodPart(fits, parts[i])
  }

  /** The parts of a valid text are good and join to it. */
  lemma {:induction false} PartsLaw(fits: Fits, text: Text)
    requires ValidUtf8(text) && Parts(fits, text).Some?
    ensures Join(Parts(fits, text).value) == text && Good(fits, Parts(fits, text).value)
    decreases |text|
  {
    hide ValidUtf8, ChunkEnd, GoodPart;
    if text != [] {
      var end := ChunkEnd(fits, text);
      ChunkLaw(fits, text);
      PartsLaw(fits, text[end..]);
      var others := Parts(fits, text[end..]).value;
      Prepend(fits, text, end, others);
      assert Parts(fits, text).value == [text[..end]] + others;
    }
  }

  lemma Prepend(fits: Fits, text: Text, end: nat, others: seq<Text>)
    requires end <= |text| && Join(others) == text[end..] && GoodPart(fits, text[..end]) && Good(fits, others)
    ensures Join([text[..end]] + others) == text && Good(fits, [text[..end]] + others)
  {
    hide GoodPart;
    var parts := [text[..end]] + others;
    assert parts[1..] == others;
    assert text == text[..end] + text[end..];
  }

  // ---- No part is cut smaller than it has to be ----

  /** In a valid text no four bytes in a row are without a rune boundary. */
  lemma {:induction false} BoundaryNear(t: Text, end: nat)
    requires ValidUtf8(t) && end <= |t|
    ensures PrefixEnd(t, end) + 3 >= end
    decreases |t|
  {
    PrefixEndLaw(t, end);
    if t != [] {
      var w, rest := Width(t), t[Width(t)..];
      FirstRuneBoundary(t);
      FirstBoundary(t, w);
      hide ValidUtf8, PrefixEnd, Boundary;
      if end >= w {
        BoundaryNear(rest, end - w);
        PrefixEndLaw(rest, end - w);
        LaterBoundary(t, PrefixEnd(rest, end - w));
      }
    }
  }

  lemma LaterBoundary(t: Text, b: nat)
    requires ValidUtf8(t) && t != [] && Width(t) <= |t| && Boundary(t[Width(t)..], b)
    ensures Boundary(t, Width(t) + b)
  {
  }

  /** The longest prefix of whole runes that the size limit admits. */
  ghost predicate Longest(text: Text, end: nat) {
    Boundary(text, end) && end <= MAX_CHUNK && forall b: nat :: Boundary(text, b) && b <= MAX_CHUNK ==> b <= end
  }

  /** A prefix of whole runes that does not fit. */
  predicate TooLong(fits: Fits, text: Text, end: nat) {
    end <= |text| && Boundary(text, end) && !fits(text[..end])
  }

  /** It takes all that the size limit admits, or about twice as much was too long. */
  ghost predicate Tight(fits: Fits, text: Text, end: nat) {
    Longest(text, end) || exists longer: nat :: end < longer <= 2 * end + 7 && TooLong(fits, text, longer)
  }

  lemma {:induction false} HalveIsTight(fits: Fits, r: Text, end: nat)
    requires ValidUtf8(r) && end <= |r| && Boundary(r, end)
    ensures var e := Halve(fits, r, end);
            e == end || e == 0 || exists longer: nat :: e < longer <= 2 * e + 7 && TooLong(fits, r, longer)
    decreases end
  {
    if end > 1 && !fits(r[..end]) {
      assert TooLong(fits, r, end);
      PrefixEndLaw(r, end / 2);
      BoundaryNear(r, end / 2);
      HalveIsTight(fits, r, PrefixEnd(r, end / 2));
    }
  }

  lemma ChunkIsTight(fits: Fits, text: Text)
    requires ValidUtf8(text) && text != [] && ChunkEnd(fits, text) > 0
    ensures Tight(fits, text, ChunkEnd(fits, text))
  {
    FirstEndLaw(text);
    PrefixEndLaw(text, if |text| > MAX_CHUNK then MAX_CHUNK else |text|);
    assert Longest(text, FirstEnd(text));
    HalveIsTight(fits, text, FirstEnd(text));
    hide ValidUtf8, Boundary, Halve, TooLong;
  }

  ghost predicate TightParts(fits: Fits, text: Text, parts: seq<Text>) {
    if parts == [] then text == []
    else parts[0] <= text && Tight(fits, text, |parts[0]|) && TightParts(fits, text[|parts[0]|..], parts[1..])
  }

  /** Every part takes all that the size limit admits of what is left, unless about twice as much does not fit. */
  lemma {:induction false} PartsAreTight(fits: Fits, text: Text)
    requires ValidUtf8(text) && Parts(fits, text).Some?
    ensures TightParts(fits, text, Parts(fits, text).value)
    decreases |text|
  {
    hide ValidUtf8, ChunkEnd, Tight;
    if text != [] {
      var end := ChunkEnd(fits, text);
      ChunkLaw(fits, text);
      ChunkIsTight(fits, text);
      PartsAreTight(fits, text[end..]);
      var parts := Parts(fits, text).value;
      assert parts[0] == text[..end] && parts[1..] == Parts(fits, text[end..]).value;
    }
  }

  /** A text that fits, and is not longer than the size limit, is one part. */
  lemma WholeWhenItFits(fits: Fits, text: Text)
    requires text != [] && |text| <= MAX_CHUNK && fits(text)
    ensures Parts(fits, text) == Some([text])
  {
    assert FirstEnd(text) == |text| && text[..|text|] == text && text[|text|..] == [];
    assert ChunkEnd(fits, text) == |text|;
    assert Parts(fits, text[|text|..]) == Some([]) && [text] + [] == [text];
  }

  lemma {:induction false} PartsExist(fits: Fits, text: Text)
    requires ValidUtf8(text) && SmallFits(fits)
    ensures Parts(fits, text).Some?
    decreases |text|
  {
    if text != [] {
      FirstEndLaw(text);
      HalveLaw(fits, text, FirstEnd(text));
      CutIsValid(text, ChunkEnd(fits, text));
      PartsExist(fits, text[ChunkEnd(fits, text)..]);
    }
  }

  /** A small text that does not fit is halved to nothing. */
  lemma SmallTextStalls(fits: Fits, t: Text)
    requires ValidUtf8(t) && 2 <= |t| < 2 * Width(t) && !fits(t)
    ensures ChunkEnd(fits, t) == 0 && Parts(fits, t) == None
  {
    FirstEndLaw(t);
    FirstRuneBoundary(t);
    FirstBoundary(t, Width(t));
    assert |t| < 8;
    assert FirstEnd(t) == |t| && t[..|t|] == t;
    PrefixEndZero(t, |t| / 2);
  }

  /** Splitting ends on every valid text exactly when every small text fits. */
  lemma SplittingEnds(fits: Fits)
    ensures (forall text :: ValidUtf8(text) ==> Parts(fits, text).Some?) <==> SmallFits(fits)
  {
    if SmallFits(fits) {
      forall text | ValidUtf8(text)
        ensures Parts(fits, text).Some?
      {
        PartsExist(fits, text);
      }
    } else {
      var t :| ValidUtf8(t) && 2 <= |t| < 2 * Width(t) && !fits(t);
      SmallTextStalls(fits, t);
    }
  }

  predicate Nothing(t: Text) {
    t == []
  }

  /** It never ends on this two-byte text when the budget admits only the event of the empty text. */
  lemma SplitStalls(n: nat)
    ensures var t := [0xC3 as char, 0xA9 as char];
            ValidUtf8(t) && ChunkEnd(Nothing, t) == 0 && Remaining(Nothing, t, n) == t
  {
    var t := [0xC3 as char, 0xA9 as char];
    assert t[2..] == [];
    assert StartsRune(t, 2);
    SmallTextStalls(Nothing, t);
    EmptyChunkRepeats(Nothing, t, n);
  }

  // ---- The loop ----

  /** What the loop has produced, with the parts still to come, is the whole result. */
  ghost predicate Progress(fits: Fits, text: Text, result: seq<Text>, remaining: Text) {
    var rest := Parts(fits, remaining);
    Parts(fits, text) == if rest.None? then None else Some(result + rest.value)
  }

  lemma NextChunk(fits: Fits, text: Text, result: seq<Text>, remaining: Text, end: nat)
    requires Progress(fits, text, result, remaining) && remaining != [] && end == ChunkEnd(fits, remaining)
    ensures end == 0 ==> Parts(fits, text) == None
    ensures end > 0 ==> Progress(fits, text, result + [remaining[..end]], remaining[end..])
  {
    hide ChunkEnd;
    var rest := Parts(fits, remaining[end..]);
    if end > 0 && rest.Some? {
      assert result + ([remaining[..end]] + rest.value) == (result + [remaining[..end]]) + rest.value;
    }
  }

  method FindChunkEnd(fits: Fits, remaining: Text) returns (end: nat)
    requires remaining != []
    ensures end == ChunkEnd(fits, remaining)
  {
    end := |remaining|;
    if end > MAX_CHUNK {
      end := MAX_CHUNK;
    }
    end := FindPrefixEnd(remaining, end);
    if end == 0 {
      end := 1;
    }
    while end > 1 && !fits(remaining[..end])
      invariant end <= |remaining| && Halve(fits, remaining, end) == ChunkEnd(fits, remaining)
      decreases end
    {
      end := FindPrefixEnd(remaining, end / 2);
    }
  }

  /** The events' texts; nothing when the loop would not end. A budget below one drops the message. */
  method SplitMessage(text: Text, budget: int, fits: Fits) returns (parts: Option<seq<Text>>)
    ensures budget < 1 ==> parts == Some([])
    ensures budget >= 1 ==> parts == Parts(fits, text)
    ensures budget >= 1 && ValidUtf8(text) && parts.Some? ==> Join(parts.value) == text && Good(fits, parts.value)
  {
    if text == "" || budget < 1 {
      return Some([]);
    }
    if ValidUtf8(text) && Parts(fits, text).Some? {
      PartsLaw(fits, text);
    }
    var remaining := text;
    var result: seq<Text> := [];
    assert Progress(fits, text, result, remaining) by {
      var rest := Parts(fits, text);
      assert rest.Some? ==> [] + rest.value == rest.value;
    }
    hide Parts, ValidUtf8, ChunkEnd, Join, Good, Progress;
    while |remaining| > 0
      invariant Progress(fits, text, result, remaining)
      decreases |remaining|
    {
      var end := FindChunkEnd(fits, remaining);
      NextChunk(fits, text, result, remaining, end);
      if end == 0 {
        return None;
      }
      result := result + [remaining[..end]];
      remaining := remaining[end..];
    }
    NothingLeft(fits, text, result, remaining);
    return Some(result);
  }

  lemma NothingLeft(fits: Fits, text: Text, result: seq<Text>, remaining: Text)
    requires Progress(fits, text, result, remaining) && remaining == []
    ensures Parts(fits, text) == Some(result)
  {
    assert result + [] == result;
  }
}
