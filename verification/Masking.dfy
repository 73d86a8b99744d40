/**
  Streaming secret masking: the reference masking of a whole input, the chunk-by-chunk masker that
  holds back a tail, and the writer and reader built on it.

  Masked output is described by pieces that remember which input they stand for, so that one value
  gives both the bytes written and the bytes of the input that were replaced.
*/
module Masking {
  /** Text is handled byte by byte; a `char` stands for one byte. */
  type Bytes = string

  const MIN_SECRET_LENGTH := 4
  const DEFAULT_REPLACEMENT: Bytes := "[MASKED]"

  datatype Masker = Masker(secrets: seq<Bytes>, replacement: Bytes, keepTail: nat)

  /** What `NewWithReplacement` guarantees of a masker. */
  ghost predicate WellFormed(m: Masker) {
    && (forall s :: s in m.secrets ==> MIN_SECRET_LENGTH <= |s| <= m.keepTail + 1)
    && (m.secrets == [] ==> m.keepTail == 0)
    && m.replacement != []
  }

  // ---- Matching ----

  predicate IsPrefix(pattern: Bytes, text: Bytes) {
    |pattern| <= |text| && text[..|pattern|] == pattern
  }

  /** The length of the longest secret that `text` starts with, zero when there is none. */
  function LongestPrefix(secrets: seq<Bytes>, text: Bytes): nat {
    if secrets == [] then 0
    else
      var last := secrets[|secrets| - 1];
      var others := LongestPrefix(secrets[..|secrets| - 1], text);
      if IsPrefix(last, text) && |last| > others then |last| else others
  }

  lemma {:induction false} LongestPrefixLaw(secrets: seq<Bytes>, text: Bytes)
    ensures forall s :: s in secrets && IsPrefix(s, text) ==> |s| <= LongestPrefix(secrets, text)
    ensures LongestPrefix(secrets, text) > 0 ==>
              exists s :: s in secrets && IsPrefix(s, text) && |s| == LongestPrefix(secrets, text)
  {
    if secrets != [] {
      var front, last := secrets[..|secrets| - 1], secrets[|secrets| - 1];
      LongestPrefixLaw(front, text);
      assert secrets == front + [last];
      assert last in secrets;
    }
  }

  /** Nothing in `secrets` occurs at a position of `text` before `end`. */
  ghost predicate NoMatchBefore(secrets: seq<Bytes>, text: Bytes, end: nat)
    requires end <= |text|
  {
    forall j :: 0 <= j < end ==> LongestPrefix(secrets, text[j..]) == 0
  }

  /** The leftmost position where a secret occurs, or the length of the text. */
  function FirstMatch(secrets: seq<Bytes>, text: Bytes): (i: nat)
    ensures i <= |text|
  {
    if text == [] || LongestPrefix(secrets, text) > 0 then 0 else 1 + FirstMatch(secrets, text[1..])
  }

  lemma {:induction false} FirstMatchLaw(secrets: seq<Bytes>, text: Bytes)
    ensures NoMatchBefore(secrets, text, FirstMatch(secrets, text))
    ensures FirstMatch(secrets, text) < |text| ==> LongestPrefix(secrets, text[FirstMatch(secrets, text)..]) > 0
  {
    assert text[0..] == text;
    if text != [] && LongestPrefix(secrets, text) == 0 {
      FirstMatchLaw(secrets, text[1..]);
      assert forall j :: 0 < j <= |text| ==> text[j..] == text[1..][j - 1..];
    }
  }

  lemma FirstMatchUnique(secrets: seq<Bytes>, text: Bytes, i: nat)
    requires i <= |text| && NoMatchBefore(secrets, text, i)
    requires i < |text| ==> LongestPrefix(secrets, text[i..]) > 0
    ensures i == FirstMatch(secrets, text)
  {
    FirstMatchLaw(secrets, text);
  }

  // ---- Pieces of output ----

  /** A byte passed through, or a stretch of the input replaced by the marker. */
  datatype Piece = Raw(byte: char) | Masked(original: Bytes)

  function Render(replacement: Bytes, pieces: seq<Piece>): Bytes {
    if pieces == [] then []
    else (if pieces[0].Raw? then [pieces[0].byte] else replacement) + Render(replacement, pieces[1..])
  }

  /** The input the pieces stand for. */
  function Origin(pieces: seq<Piece>): Bytes {
    if pieces == [] then []
    else (if pieces[0].Raw? then [pieces[0].byte] else pieces[0].original) + Origin(pieces[1..])
  }

  /** For every byte of the origin, whether it was replaced. */
  function Flags(pieces: seq<Piece>): (flags: seq<bool>)
    ensures |flags| == |Origin(pieces)|
  {
    if pieces == [] then []
    else FlagsOf(pieces[0]) + Flags(pieces[1..])
  }

  function FlagsOf(piece: Piece): seq<bool> {
    if piece.Raw? then [false] else seq(|piece.original|, _ => true)
  }

  function Raws(text: Bytes): seq<Piece> {
    seq(|text|, i requires 0 <= i < |text| => Raw(text[i]))
  }

  lemma {:induction false} RenderConcat(r: Bytes, a: seq<Piece>, b: seq<Piece>)
    ensures Render(r, a + b) == Render(r, a) + Render(r, b)
  {
    if a == [] {
      assert a + b == b;
    } else {
      assert (a + b)[1..] == a[1..] + b;
      RenderConcat(r, a[1..], b);
    }
  }

  lemma {:induction false} OriginConcat(a: seq<Piece>, b: seq<Piece>)
    ensures Origin(a + b) == Origin(a) + Origin(b)
    ensures Flags(a + b) == Flags(a) + Flags(b)
  {
    if a == [] {
      assert a + b == b;
    } else {
      assert (a + b)[1..] == a[1..] + b;
      OriginConcat(a[1..], b);
      FlagsStep(a, b);
    }
  }

  lemma FlagsStep(a: seq<Piece>, b: seq<Piece>)
    requires a != [] && Flags(a[1..] + b) == Flags(a[1..]) + Flags(b)
    ensures Flags(a + b) == Flags(a) + Flags(b)
  {
    hide Origin, FlagsOf;
    assert (a + b)[1..] == a[1..] + b && (a + b)[0] == a[0];
  }

  lemma {:induction false} RawsLaw(r: Bytes, text: Bytes)
    ensures Render(r, Raws(text)) == text && Origin(Raws(text)) == text
    ensures Flags(Raws(text)) == seq(|text|, _ => false)
  {
    if text != [] {
      assert Raws(text)[1..] == Raws(text[1..]);
      RawsLaw(r, text[1..]);
    }
  }

  // ---- Reference: masking a whole input, position by position ----

  /** At every position the longest secret that starts there is replaced; otherwise the byte passes. */
  function Scan(secrets: seq<Bytes>, text: Bytes): seq<Piece>
    decreases |text|
  {
    if text == [] then []
    else
      var n := LongestPrefix(secrets, text);
      if 0 < n <= |text| then [Masked(text[..n])] + Scan(secrets, text[n..])
      else [Raw(text[0])] + Scan(secrets, text[1..])
  }

  lemma LongestPrefixFits(secrets: seq<Bytes>, text: Bytes)
    ensures LongestPrefix(secrets, text) <= |text|
  {
    LongestPrefixLaw(secrets, text);
  }

  /** The reference passes over bytes where nothing matches. */
  lemma {:induction false} ScanSkips(secrets: seq<Bytes>, text: Bytes, i: nat)
    requires i <= |text| && NoMatchBefore(secrets, text, i)
    ensures Scan(secrets, text) == Raws(text[..i]) + Scan(secrets, text[i..])
    decreases i
  {
    if i == 0 {
      assert text[0..] == text;
      assert Raws(text[..0]) == [];
    } else {
      assert text[0..] == text;
      forall j | 0 <= j < i - 1
        ensures LongestPrefix(secrets, text[1..][j..]) == 0
      {
        assert text[1..][j..] == text[j + 1..];
      }
      ScanSkips(secrets, text[1..], i - 1);
      assert text[1..][i - 1..] == text[i..];
      assert Raws(text[..i]) == [Raw(text[0])] + Raws(text[1..][..i - 1]);
    }
  }

  // ---- The chunk loop ----

  /** The pieces up to and including a match of length `n` at `i`. */
  function Head(data: Bytes, i: nat, n: nat): seq<Piece>
    requires i + n <= |data|
  {
    Raws(data[..i]) + [Masked(data[i..i + n])]
  }

  lemma HeadLaw(r: Bytes, data: Bytes, i: nat, n: nat)
    requires i + n <= |data|
    ensures Render(r, Head(data, i, n)) == data[..i] + r
    ensures Origin(Head(data, i, n)) == data[..i + n]
    ensures |Flags(Head(data, i, n))| == i + n
    ensures forall j :: i <= j < i + n ==> Flags(Head(data, i, n))[j]
  {
    var masked := [Masked(data[i..i + n])];
    RenderConcat(r, Raws(data[..i]), masked);
    OriginConcat(Raws(data[..i]), masked);
    RawsLaw(r, data[..i]);
    assert masked[1..] == [];
    assert Render(r, masked) == r + [] && Origin(masked) == data[i..i + n] + [];
    assert data[..i] + data[i..i + n] == data[..i + n];
  }

  /** The data after its first match. */
  function AfterMatch(m: Masker, data: Bytes): (tail: Bytes)
    requires FirstMatch(m.secrets, data) < |data|
    ensures |tail| < |data|
  {
    var i := FirstMatch(m.secrets, data);
    FirstMatchLaw(m.secrets, data);
    LongestPrefixFits(m.secrets, data[i..]);
    data[i + LongestPrefix(m.secrets, data[i..])..]
  }

  /** The pieces up to and including the first match of the data. */
  function ThroughMatch(m: Masker, data: Bytes): seq<Piece>
    requires FirstMatch(m.secrets, data) < |data|
  {
    var i := FirstMatch(m.secrets, data);
    FirstMatchLaw(m.secrets, data);
    LongestPrefixFits(m.secrets, data[i..]);
    Head(data, i, LongestPrefix(m.secrets, data[i..]))
  }

  function SafeLength(m: Masker, data: Bytes): nat {
    if m.keepTail > |data| then 0 else |data| - m.keepTail
  }

  /** What one call emits for its data. */
  function Emit(m: Masker, data: Bytes, flush: bool): seq<Piece>
    decreases |data|
  {
    if FirstMatch(m.secrets, data) < |data| then ThroughMatch(m, data) + Emit(m, AfterMatch(m, data), flush)
    else if flush then Raws(data)
    else Raws(data[..SafeLength(m, data)])
  }

  /** The tail it holds back. */
  function Hold(m: Masker, data: Bytes, flush: bool): Bytes
    decreases |data|
  {
    if FirstMatch(m.secrets, data) < |data| then Hold(m, AfterMatch(m, data), flush)
    else if flush then []
    else data[SafeLength(m, data)..]
  }

  /** The first match of the data, of length `n` at `i`. */
  lemma MatchParts(m: Masker, data: Bytes) returns (i: nat, n: nat)
    requires FirstMatch(m.secrets, data) < |data|
    ensures i == FirstMatch(m.secrets, data) && n == LongestPrefix(m.secrets, data[i..])
    ensures 0 < n && i + n <= |data|
    ensures ThroughMatch(m, data) == Head(data, i, n) && AfterMatch(m, data) == data[i + n..]
  {
    i := FirstMatch(m.secrets, data);
    n := LongestPrefix(m.secrets, data[i..]);
    FirstMatchLaw(m.secrets, data);
    LongestPrefixFits(m.secrets, data[i..]);
  }

  /** All pieces for a stream cut into `chunks`, starting with `pending` held back, final flush included. */
  function Stream(m: Masker, pending: Bytes, chunks: seq<Bytes>): seq<Piece>
    decreases |chunks|
  {
    if chunks == [] then Emit(m, pending, true)
    else Emit(m, pending + chunks[0], false) + Stream(m, Hold(m, pending + chunks[0], false), chunks[1..])
  }

  function Concat(chunks: seq<Bytes>): Bytes {
    if chunks == [] then [] else chunks[0] + Concat(chunks[1..])
  }
}
