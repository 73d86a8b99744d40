/** What the chunk-by-chunk masker guarantees, and when it agrees with masking the whole input. */
module MaskingProofs {
  import opened Masking

  // ---- Conservation ----

  /** One call accounts for all its data, and holds back at most `keepTail` bytes. */
  lemma {:induction false} FeedConserves(m: Masker, data: Bytes, flush: bool)
    ensures Origin(Emit(m, data, flush)) + Hold(m, data, flush) == data
    ensures |Hold(m, data, flush)| <= m.keepTail
    ensures flush ==> Hold(m, data, flush) == []
    decreases |data|
  {
    hide Origin, Flags, LongestPrefix;
    if FirstMatch(m.secrets, data) < |data| {
      var i, n := MatchParts(m, data);
      var tail := data[i + n..];
      FeedConserves(m, tail, flush);
      HeadLaw([], data, i, n);
      OriginConcat(Head(data, i, n), Emit(m, tail, flush));
      Rejoin(data[..i + n], Origin(Emit(m, tail, flush)), Hold(m, tail, flush), data);
    } else if flush {
      RawsLaw([], data);
    } else {
      var safe := if m.keepTail > |data| then 0 else |data| - m.keepTail;
      RawsLaw([], data[..safe]);
    }
  }

  lemma Rejoin(a: Bytes, b: Bytes, c: Bytes, all: Bytes)
    requires |a| <= |all| && a == all[..|a|] && b + c == all[|a|..]
    ensures (a + b) + c == all
  {
    assert all == all[..|a|] + all[|a|..];
  }

  /** A whole stream is accounted for, however it was cut. */
  lemma {:induction false} StreamConserves(m: Masker, pending: Bytes, chunks: seq<Bytes>)
    ensures Origin(Stream(m, pending, chunks)) == pending + Concat(chunks)
    decreases |chunks|
  {
    if chunks == [] {
      FeedConserves(m, pending, true);
    } else {
      var data := pending + chunks[0];
      var pieces, rest := Emit(m, data, false), Hold(m, data, false);
      FeedConserves(m, data, false);
      StreamConserves(m, rest, chunks[1..]);
      OriginConcat(pieces, Stream(m, rest, chunks[1..]));
      Regroup(Origin(pieces), rest, pending, chunks[0], Concat(chunks[1..]));
    }
  }

  lemma Regroup(a: Bytes, b: Bytes, c: Bytes, d: Bytes, e: Bytes)
    requires a + b == c + d
    ensures a + (b + e) == c + (d + e)
  {
    assert a + (b + e) == (a + b) + e;
    assert c + (d + e) == (c + d) + e;
  }

  // ---- No whole secret is emitted raw ----

  predicate OccursAt(secret: Bytes, text: Bytes, p: nat) {
    p <= |text| && IsPrefix(secret, text[p..])
  }

  /** Some byte of the stretch of length `n` at `p` was replaced. */
  ghost predicate Touched(flags: seq<bool>, p: nat, n: nat) {
    exists j :: p <= j < p + n && j < |flags| && flags[j]
  }

  lemma TouchedShift(a: seq<bool>, b: seq<bool>, p: nat, n: nat)
    ensures Touched(a, p, n) ==> Touched(a + b, p, n)
    ensures Touched(b, p, n) ==> Touched(a + b, |a| + p, n)
  {
    if Touched(a, p, n) {
      var j :| p <= j < p + n && j < |a| && a[j];
      assert (a + b)[j];
    }
    if Touched(b, p, n) {
      var j :| p <= j < p + n && j < |b| && b[j];
      assert (a + b)[|a| + j];
    }
  }

  lemma OccursShift(secret: Bytes, a: Bytes, b: Bytes, p: nat)
    requires p <= |b|
    ensures OccursAt(secret, a + b, |a| + p) <==> OccursAt(secret, b, p)
  {
    assert (a + b)[|a| + p..] == b[p..];
  }

  /** An occurrence that ends inside `data` is one that matching on `data` sees. */
  lemma SeenInside(m: Masker, data: Bytes, later: Bytes, p: nat, secret: Bytes)
    requires secret in m.secrets && secret != [] && OccursAt(secret, data + later, p) && p + |secret| <= |data|
    ensures p < |data| && LongestPrefix(m.secrets, data[p..]) > 0
    ensures FirstMatch(m.secrets, data) <= p
  {
    FirstMatchLaw(m.secrets, data);
    assert (data + later)[p..][..|secret|] == data[p..][..|secret|];
    LongestPrefixLaw(m.secrets, data[p..]);
  }

  /**
    What one call emitted cannot be the raw start of a secret, whatever arrives later: an occurrence
    that starts in it has a replaced byte.
  */
  lemma {:induction false} FeedGuards(m: Masker, data: Bytes, flush: bool, later: Bytes, p: nat, secret: Bytes)
    requires WellFormed(m) && secret in m.secrets && (flush ==> later == [])
    requires OccursAt(secret, data + later, p) && p < |Origin(Emit(m, data, flush))|
    ensures Touched(Flags(Emit(m, data, flush)), p, |secret|)
    decreases |data|
  {
    var i := FirstMatch(m.secrets, data);
    FeedConserves(m, data, flush);
    if i < |data| {
      FeedGuardsAtMatch(m, data, flush, later, p, secret);
    } else {
      // nothing matches in the data, and the emitted part cannot start a secret that reaches beyond it
      assert p + |secret| <= |data|;
      SeenInside(m, data, later, p, secret);
    }
  }

  lemma {:induction false} FeedGuardsAtMatch(m: Masker, data: Bytes, flush: bool, later: Bytes, p: nat, secret: Bytes)
    requires WellFormed(m) && secret in m.secrets && (flush ==> later == [])
    requires OccursAt(secret, data + later, p) && p < |Origin(Emit(m, data, flush))|
    requires FirstMatch(m.secrets, data) < |data|
    ensures Touched(Flags(Emit(m, data, flush)), p, |secret|)
    decreases |data|, 0
  {
    hide FirstMatch, LongestPrefix, Head;
    var i, n := MatchParts(m, data);
    var tail := data[i + n..];
    var head, pieces := Head(data, i, n), Emit(m, tail, flush);
    HeadLaw([], data, i, n);
    OriginConcat(head, pieces);
    if p < i + n {
      TouchesMatch(m, data, later, p, secret, i, n);
      TouchedShift(Flags(head), Flags(pieces), p, |secret|);
    } else {
      SkipHead(data, later, i + n, p, secret);
      FeedGuards(m, tail, flush, later, p - (i + n), secret);
      TouchedShift(Flags(head), Flags(pieces), p - (i + n), |secret|);
    }
  }

  lemma SkipHead(data: Bytes, later: Bytes, k: nat, p: nat, secret: Bytes)
    requires k <= |data| && k <= p && OccursAt(secret, data + later, p)
    ensures OccursAt(secret, data[k..] + later, p - k)
  {
    assert data + later == data[..k] + (data[k..] + later);
    OccursShift(secret, data[..k], data[k..] + later, p - k);
  }

  /** An occurrence that starts before the end of the first match overlaps that match. */
  lemma TouchesMatch(m: Masker, data: Bytes, later: Bytes, p: nat, secret: Bytes, i: nat, n: nat)
    requires WellFormed(m) && secret in m.secrets && OccursAt(secret, data + later, p)
    requires i == FirstMatch(m.secrets, data) && i + n <= |data| && n > 0 && p < i + n
    ensures Touched(Flags(Head(data, i, n)), p, |secret|)
  {
    HeadLaw([], data, i, n);
    if p + |secret| <= i {
      SeenInside(m, data, later, p, secret);
    }
    var j := if p < i then i else p;
    assert Flags(Head(data, i, n))[j];
  }

  lemma FlushGuards(m: Masker, pending: Bytes, p: nat, secret: Bytes)
    requires WellFormed(m) && secret in m.secrets && OccursAt(secret, pending, p)
    ensures Touched(Flags(Emit(m, pending, true)), p, |secret|)
  {
    assert pending + [] == pending;
    FeedConserves(m, pending, true);
    FeedGuards(m, pending, true, [], p, secret);
  }

  /**
    For any secrets and any chunking, every occurrence of a kept secret in the concatenated input has a
    byte that was replaced: no whole occurrence leaves the masker raw.
  */
  lemma {:induction false} NoSecretLeavesRaw(m: Masker, pending: Bytes, chunks: seq<Bytes>, p: nat, secret: Bytes)
    requires WellFormed(m) && secret in m.secrets && OccursAt(secret, pending + Concat(chunks), p)
    ensures Touched(Flags(Stream(m, pending, chunks)), p, |secret|)
    decreases |chunks|
  {
    if chunks == [] {
      assert pending + Concat(chunks) == pending;
      FlushGuards(m, pending, p, secret);
    } else {
      var data, later := pending + chunks[0], Concat(chunks[1..]);
      var pieces, rest := Emit(m, data, false), Hold(m, data, false);
      var others := Stream(m, rest, chunks[1..]);
      ConcatCons(pending, chunks);
      OriginConcat(pieces, others);
      var done := |Origin(pieces)|;
      if p < done {
        FeedGuards(m, data, false, later, p, secret);
        TouchedShift(Flags(pieces), Flags(others), p, |secret|);
      } else {
        RestOfData(m, data);
        SkipHead(data, later, done, p, secret);
        NoSecretLeavesRaw(m, rest, chunks[1..], p - done, secret);
        TouchedShift(Flags(pieces), Flags(others), p - done, |secret|);
      }
    }
  }

  lemma RestOfData(m: Masker, data: Bytes)
    ensures var done := |Origin(Emit(m, data, false))|;
            done <= |data| && data[done..] == Hold(m, data, false)
  {
    FeedConserves(m, data, false);
  }

  lemma ConcatCons(pending: Bytes, chunks: seq<Bytes>)
    requires chunks != []
    ensures pending + Concat(chunks) == (pending + chunks[0]) + Concat(chunks[1..])
  {
  }

  // ---- Agreement with the reference ----

  /** The reference over data whose first match is at `i`, of length `n`. */
  lemma ScanAtMatch(secrets: seq<Bytes>, text: Bytes, i: nat, n: nat)
    requires i + n <= |text| && n > 0 && NoMatchBefore(secrets, text, i) && LongestPrefix(secrets, text[i..]) == n
    ensures Scan(secrets, text) == Head(text, i, n) + Scan(secrets, text[i + n..])
  {
    ScanSkips(secrets, text, i);
    assert text[i..][..n] == text[i..i + n] && text[i..][n..] == text[i + n..];
  }

  /** Flushing everything at once is the reference scan. */
  lemma {:induction false} FlushIsScan(m: Masker, data: Bytes)
    ensures Emit(m, data, true) == Scan(m.secrets, data)
    decreases |data|
  {
    FirstMatchLaw(m.secrets, data);
    if FirstMatch(m.secrets, data) < |data| {
      var i, n := MatchParts(m, data);
      ScanAtMatch(m.secrets, data, i, n);
      FlushIsScan(m, data[i + n..]);
    } else {
      ScanSkips(m.secrets, data, |data|);
      assert data[|data|..] == [] && data[..|data|] == data;
    }
  }

  /** No kept secret occurs inside another one and ends before the other does. */
  ghost predicate NoneEndsInside(secrets: seq<Bytes>) {
    forall a, b, k: nat :: a in secrets && b in secrets && OccursAt(a, b, k) ==> k + |a| == |b|
  }

  /** An occurrence of `a` that lies within an occurrence of `b` is an occurrence of `a` in `b`. */
  lemma OccursWithin(a: Bytes, b: Bytes, text: Bytes, i: nat, j: nat)
    requires OccursAt(a, text, i) && OccursAt(b, text, j) && j <= i && i + |a| <= j + |b|
    ensures OccursAt(a, b, i - j)
  {
    var k := i - j;
    assert b[k..][..|a|] == text[i..][..|a|] by {
      assert forall x :: 0 <= x < |a| ==> b[k..][..|a|][x] == b[k + x] == text[j..][..|b|][k + x] == text[i + x];
    }
  }

  /** A secret that starts no later than the first match of the data ends within the data. */
  lemma EndsInData(m: Masker, data: Bytes, later: Bytes, i: nat, j: nat, b: Bytes)
    requires NoneEndsInside(m.secrets)
    requires i == FirstMatch(m.secrets, data) < |data|
    requires j <= i && b in m.secrets && OccursAt(b, data + later, j)
    ensures j + |b| <= |data|
  {
    hide FirstMatch, LongestPrefix;
    FirstMatchLaw(m.secrets, data);
    LongestPrefixLaw(m.secrets, data[i..]);
    var a :| a in m.secrets && IsPrefix(a, data[i..]);
    assert OccursAt(a, data + later, i) by {
      assert (data + later)[i..][..|a|] == data[i..][..|a|];
    }
    if i + |a| <= j + |b| {
      OccursWithin(a, b, data + later, i, j);
    }
  }

  /** If every secret found at `j` ends within the data, more input changes nothing at `j`. */
  lemma SamePrefixes(secrets: seq<Bytes>, data: Bytes, later: Bytes, j: nat)
    requires j <= |data|
    requires forall b :: b in secrets && OccursAt(b, data + later, j) ==> j + |b| <= |data|
    ensures LongestPrefix(secrets, (data + later)[j..]) == LongestPrefix(secrets, data[j..])
  {
    var longer, shorter := (data + later)[j..], data[j..];
    LongestPrefixLaw(secrets, longer);
    LongestPrefixLaw(secrets, shorter);
    forall b | b in secrets
      ensures IsPrefix(b, longer) <==> IsPrefix(b, shorter)
    {
      assert OccursAt(b, data + later, j) <==> IsPrefix(b, longer);
      assert j + |b| <= |data| ==> longer[..|b|] == shorter[..|b|];
    }
  }

  /** With such secrets, what matches first in the data is what matches first with more input. */
  lemma MatchIsStable(m: Masker, data: Bytes, later: Bytes, i: nat)
    requires WellFormed(m) && NoneEndsInside(m.secrets)
    requires i == FirstMatch(m.secrets, data) < |data|
    ensures NoMatchBefore(m.secrets, data + later, i)
    ensures LongestPrefix(m.secrets, (data + later)[i..]) == LongestPrefix(m.secrets, data[i..])
  {
    FirstMatchLaw(m.secrets, data);
    forall j | 0 <= j <= i
      ensures LongestPrefix(m.secrets, (data + later)[j..]) == LongestPrefix(m.secrets, data[j..])
    {
      forall b | b in m.secrets && OccursAt(b, data + later, j)
        ensures j + |b| <= |data|
      {
        EndsInData(m, data, later, i, j, b);
      }
      SamePrefixes(m.secrets, data, later, j);
    }
  }

  /** Bytes far enough from the end of the data cannot start a secret that reaches beyond it. */
  lemma SafePartIsStable(m: Masker, data: Bytes, later: Bytes)
    requires WellFormed(m) && FirstMatch(m.secrets, data) == |data|
    ensures NoMatchBefore(m.secrets, data + later, SafeLength(m, data))
  {
    FirstMatchLaw(m.secrets, data);
    forall j | 0 <= j < SafeLength(m, data)
      ensures LongestPrefix(m.secrets, (data + later)[j..]) == 0
    {
      SamePrefixes(m.secrets, data, later, j);
    }
  }

  lemma HeadOfLonger(data: Bytes, later: Bytes, i: nat, n: nat)
    requires i + n <= |data|
    ensures Head(data + later, i, n) == Head(data, i, n) && (data + later)[i + n..] == data[i + n..] + later
  {
    assert (data + later)[..i] == data[..i] && (data + later)[i..i + n] == data[i..i + n];
  }

  lemma FeedFollowsNoMatch(m: Masker, data: Bytes, later: Bytes)
    requires WellFormed(m) && FirstMatch(m.secrets, data) == |data|
    ensures Scan(m.secrets, data + later) == Emit(m, data, false) + Scan(m.secrets, Hold(m, data, false) + later)
  {
    var safe := SafeLength(m, data);
    SafePartIsStable(m, data, later);
    ScanSkips(m.secrets, data + later, safe);
    assert (data + later)[..safe] == data[..safe];
    assert (data + later)[safe..] == data[safe..] + later;
  }

  lemma Associate(a: seq<Piece>, b: seq<Piece>, c: seq<Piece>)
    ensures a + (b + c) == (a + b) + c
  {
  }

  /** One call with part of the input agrees with the reference on the whole of it. */
  lemma {:induction false} FeedFollowsScan(m: Masker, data: Bytes, later: Bytes)
    requires WellFormed(m) && NoneEndsInside(m.secrets)
    ensures Scan(m.secrets, data + later) == Emit(m, data, false) + Scan(m.secrets, Hold(m, data, false) + later)
    decreases |data|
  {
    if FirstMatch(m.secrets, data) < |data| {
      var i, n := MatchParts(m, data);
      var tail := data[i + n..];
      MatchIsStable(m, data, later, i);
      ScanAtMatch(m.secrets, data + later, i, n);
      HeadOfLonger(data, later, i, n);
      FeedFollowsScan(m, tail, later);
      Associate(Head(data, i, n), Emit(m, tail, false), Scan(m.secrets, Hold(m, tail, false) + later));
    } else {
      FeedFollowsNoMatch(m, data, later);
    }
  }

  /** With such secrets the stream's output is the reference masking, however the input was cut. */
  lemma {:induction false} StreamFollowsScan(m: Masker, pending: Bytes, chunks: seq<Bytes>)
    requires WellFormed(m) && NoneEndsInside(m.secrets)
    ensures Stream(m, pending, chunks) == Scan(m.secrets, pending + Concat(chunks))
    decreases |chunks|
  {
    if chunks == [] {
      assert pending + Concat(chunks) == pending;
      FlushIsScan(m, pending);
    } else {
      var data := pending + chunks[0];
      ConcatCons(pending, chunks);
      FeedFollowsScan(m, data, Concat(chunks[1..]));
      StreamFollowsScan(m, Hold(m, data, false), chunks[1..]);
    }
  }

  // ---- Exactly when chunking does not matter ----

  /** The bytes written do not depend on how the input was cut. */
  ghost predicate ChunkIndependent(m: Masker) {
    forall chunks ::
      Render(m.replacement, Stream(m, [], chunks)) == Render(m.replacement, Scan(m.secrets, Concat(chunks)))
  }

  /** Every piece costs at least one byte of output, and a replaced one a whole marker. */
  lemma {:induction false} RenderLength(r: Bytes, pieces: seq<Piece>)
    requires r != []
    ensures |Render(r, pieces)| >= |pieces|
    ensures (exists k :: 0 <= k < |pieces| && pieces[k].Masked?) ==> |Render(r, pieces)| >= |r| + |pieces| - 1
  {
    if pieces != [] {
      RenderLength(r, pieces[1..]);
      if k :| 0 <= k < |pieces| && pieces[k].Masked? {
        assert k > 0 ==> pieces[1..][k - 1] == pieces[k];
      }
    }
  }

  lemma OneChunkScan(m: Masker, b: Bytes)
    requires WellFormed(m) && b in m.secrets
    ensures Scan(m.secrets, b) == [Masked(b)]
  {
    LongestPrefixLaw(m.secrets, b);
    assert IsPrefix(b, b) by {
      assert b[..|b|] == b;
    }
    LongestPrefixFits(m.secrets, b);
    assert b[..|b|] == b && b[|b|..] == [];
  }

  /** A secret that ends inside another one, and a cut right after it, give a different output. */
  lemma CutAfterInnerSecret(m: Masker, a: Bytes, b: Bytes, k: nat)
    requires WellFormed(m) && a in m.secrets && b in m.secrets && OccursAt(a, b, k) && k + |a| < |b|
    ensures var chunks := [b[..k + |a|], b[k + |a|..]];
            Concat(chunks) == b &&
            |Render(m.replacement, Stream(m, [], chunks))| > |Render(m.replacement, Scan(m.secrets, b))|
  {
    var cut := k + |a|;
    var first, second := b[..cut], b[cut..];
    var chunks := [first, second];
    assert chunks[1..] == [second];
    assert Concat(chunks[1..]) == second + [];
    assert Concat(chunks) == b;
    StreamStartsWithMatch(m, first, second, a, k);
    RenderLength(m.replacement, Stream(m, [], chunks));
    OneChunkScan(m, b);
    var one := [Masked(b)];
    assert one[1..] == [] && Render(m.replacement, one) == m.replacement + [];
  }

  lemma StreamStartsWithMatch(m: Masker, first: Bytes, second: Bytes, a: Bytes, k: nat)
    requires WellFormed(m) && a in m.secrets && second != [] && k + |a| == |first|
    requires OccursAt(a, first + second, k)
    ensures var pieces := Stream(m, [], [first, second]);
            |pieces| >= 2 && exists k :: 0 <= k < |pieces| && pieces[k].Masked?
  {
    assert [] + first == first;
    SeenInside(m, first, second, k, a);
    var i, n := MatchParts(m, first);
    var pieces, rest := Emit(m, first, false), Hold(m, first, false);
    assert pieces[i].Masked? by {
      assert pieces[i] == Head(first, i, n)[i];
    }
    FeedConserves(m, first, false);
    assert [first, second][1..] == [second];
    var others := Stream(m, rest, [second]);
    StreamConserves(m, rest, [second]);
    assert Concat([second]) == second + Concat([]);
    assert others != [];
    assert Stream(m, [], [first, second]) == pieces + others;
    assert (pieces + others)[i].Masked?;
  }

  /** Chunking is invisible exactly when no kept secret ends strictly inside another one. */
  lemma ChunkIndependence(m: Masker)
    requires WellFormed(m)
    ensures ChunkIndependent(m) <==> NoneEndsInside(m.secrets)
  {
    if NoneEndsInside(m.secrets) {
      forall chunks: seq<Bytes>
        ensures Render(m.replacement, Stream(m, [], chunks)) == Render(m.replacement, Scan(m.secrets, Concat(chunks)))
      {
        StreamFollowsScan(m, [], chunks);
        assert [] + Concat(chunks) == Concat(chunks);
      }
    } else {
      var a, b, k: nat :| a in m.secrets && b in m.secrets && OccursAt(a, b, k) && k + |a| != |b|;
      CutAfterInnerSecret(m, a, b, k);
    }
  }

  // ---- One secret: the string masker ----

  /** The leftmost position of the pattern, or the length of the text. */
  function Index(text: Bytes, pattern: Bytes): (i: nat)
    ensures i <= |text|
  {
    if text == [] || IsPrefix(pattern, text) then 0 else 1 + Index(text[1..], pattern)
  }

  /** Every non-overlapping occurrence from the left is replaced. */
  function ReplaceAll(text: Bytes, pattern: Bytes, replacement: Bytes): Bytes
    requires pattern != []
    decreases |text|
  {
    var i := Index(text, pattern);
    if i + |pattern| <= |text| then
      text[..i] + replacement + ReplaceAll(text[i + |pattern|..], pattern, replacement)
    else text
  }

  lemma {:induction false} IndexIsFirstMatch(text: Bytes, secret: Bytes)
    requires secret != []
    ensures FirstMatch([secret], text) == Index(text, secret)
    ensures Index(text, secret) < |text| ==> LongestPrefix([secret], text[Index(text, secret)..]) == |secret|
    ensures Index(text, secret) < |text| <==> Index(text, secret) + |secret| <= |text|
  {
    SingletonPrefix(secret, text);
    if text != [] {
      assert text[0..] == text;
      IndexIsFirstMatch(text[1..], secret);
      assert forall j :: 0 < j <= |text| ==> text[j..] == text[1..][j - 1..];
    }
  }

  lemma SingletonPrefix(secret: Bytes, text: Bytes)
    ensures LongestPrefix([secret], text) == if IsPrefix(secret, text) then |secret| else 0
  {
    assert [secret][..0] == [];
    assert LongestPrefix([], text) == 0;
  }

  lemma NoMatchScan(r: Bytes, secrets: seq<Bytes>, text: Bytes)
    requires NoMatchBefore(secrets, text, |text|)
    ensures Render(r, Scan(secrets, text)) == text
  {
    ScanSkips(secrets, text, |text|);
    assert text[|text|..] == [] && text[..|text|] == text;
    assert Scan(secrets, text) == Raws(text) + [];
    RawsLaw(r, text);
  }

  lemma MatchScan(r: Bytes, secret: Bytes, text: Bytes, i: nat)
    requires i == Index(text, secret) && i < |text| && secret != []
    ensures i + |secret| <= |text|
    ensures Render(r, Scan([secret], text)) == text[..i] + r + Render(r, Scan([secret], text[i + |secret|..]))
  {
    hide FirstMatch, LongestPrefix, Scan, Index;
    FirstMatchLaw([secret], text);
    IndexIsFirstMatch(text, secret);
    ScanAtMatch([secret], text, i, |secret|);
    RenderConcat(r, Head(text, i, |secret|), Scan([secret], text[i + |secret|..]));
    HeadLaw(r, text, i, |secret|);
  }

  lemma {:induction false} SingleSecretScan(r: Bytes, secret: Bytes, text: Bytes)
    requires secret != []
    ensures Render(r, Scan([secret], text)) == ReplaceAll(text, secret, r)
    decreases |text|
  {
    FirstMatchLaw([secret], text);
    var i := Index(text, secret);
    IndexIsFirstMatch(text, secret);
    if i < |text| {
      MatchScan(r, secret, text, i);
      SingleSecretScan(r, secret, text[i + |secret|..]);
    } else {
      NoMatchScan(r, [secret], text);
    }
  }

  /** With one kept secret, the stream's output is what the string masker gives for the whole input. */
  lemma SingleSecretStream(m: Masker, chunks: seq<Bytes>)
    requires WellFormed(m) && |m.secrets| == 1
    ensures Render(m.replacement, Stream(m, [], chunks)) == ReplaceAll(Concat(chunks), m.secrets[0], m.replacement)
  {
    assert m.secrets == [m.secrets[0]];
    StreamFollowsScan(m, [], chunks);
    assert [] + Concat(chunks) == Concat(chunks);
    SingleSecretScan(m.replacement, m.secrets[0], Concat(chunks));
  }
}
