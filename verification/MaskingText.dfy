/**
  The string masker: one replacement pass per kept secret, each over the result of the one before. A later pass may
  match across a marker that an earlier one wrote, so its result is described byte by byte.
*/
module MaskingText {
  import opened Masking
  import opened MaskingProofs

  function ReplaceEach(secrets: seq<Bytes>, replacement: Bytes, text: Bytes): Bytes
    requires forall s :: s in secrets ==> s != []
  {
    if secrets == [] then text
    else
      assert secrets[0] in secrets && forall s :: s in secrets[1..] ==> s in secrets;
      ReplaceEach(secrets[1..], replacement, ReplaceAll(text, secrets[0], replacement))
  }

  // ---- Where each byte of the result comes from ----

  /** A byte of the result: one of the text that was kept, or one that a marker brought. */
  datatype Cell = Kept(pos: nat) | Marked(byte: char)

  function Shown(text: Bytes, c: Cell): char {
    if c.Marked? then c.byte else if c.pos < |text| then text[c.pos] else SPACE
  }

  const SPACE: char := ' '

  function Show(text: Bytes, cells: seq<Cell>): (shown: Bytes)
    ensures |shown| == |cells| && forall i :: 0 <= i < |cells| ==> shown[i] == Shown(text, cells[i])
  {
    seq(|cells|, i requires 0 <= i < |cells| => Shown(text, cells[i]))
  }

  /** Bytes of the text are kept in order, and two that were neighbours in the text still are. */
  ghost predicate Traces(text: Bytes, cells: seq<Cell>) {
    && (forall c :: c in cells && c.Kept? ==> c.pos < |text|)
    && (forall i, j :: 0 <= i < j < |cells| && cells[i].Kept? && cells[j].Kept? ==>
          cells[i].pos < cells[j].pos && (cells[i].pos + 1 == cells[j].pos ==> j == i + 1))
  }

  /** Some byte of the stretch of length `n` at `p` is gone. */
  ghost predicate Lost(cells: seq<Cell>, p: nat, n: nat) {
    exists j :: p <= j < p + n && Kept(j) !in cells
  }

  function Whole(text: Bytes): seq<Cell> {
    seq(|text|, i requires 0 <= i < |text| => Kept(i))
  }

  function Markers(marker: Bytes): seq<Cell> {
    seq(|marker|, i requires 0 <= i < |marker| => Marked(marker[i]))
  }

  /** One pass over the cells: raw pieces keep their cell, replaced ones give way to a marker. */
  function Apply(cells: seq<Cell>, pieces: seq<Piece>, marker: Bytes): seq<Cell>
    requires |cells| == |Origin(pieces)|
  {
    if pieces == [] then []
    else if pieces[0].Raw? then [cells[0]] + Apply(cells[1..], pieces[1..], marker)
    else Markers(marker) + Apply(cells[|pieces[0].original|..], pieces[1..], marker)
  }

  ghost predicate NoneEmpty(pieces: seq<Piece>) {
    forall k :: 0 <= k < |pieces| && pieces[k].Masked? ==> pieces[k].original != []
  }

  lemma TracesTail(text: Bytes, cells: seq<Cell>, n: nat)
    requires Traces(text, cells) && n <= |cells|
    ensures Traces(text, cells[n..])
  {
    var tail := cells[n..];
    assert forall c :: c in tail ==> c in cells;
    assert forall i :: 0 <= i < |tail| ==> tail[i] == cells[n + i];
  }

  /** The cell stands somewhere unflagged. */
  ghost predicate Unflagged(cells: seq<Cell>, flags: seq<bool>, c: Cell) {
    exists q :: 0 <= q < |cells| && q < |flags| && cells[q] == c && !flags[q]
  }

  lemma UnflaggedRaw(cells: seq<Cell>, later: seq<bool>, c: Cell)
    requires cells != []
    ensures Unflagged(cells, [false] + later, c) <==> c == cells[0] || Unflagged(cells[1..], later, c)
  {
    var flags := [false] + later;
    if q :| 0 <= q < |cells| && q < |flags| && cells[q] == c && !flags[q] {
      if q > 0 {
        assert cells[1..][q - 1] == c && !later[q - 1];
      }
    }
    if c == cells[0] {
      assert !flags[0];
    }
    if q :| 0 <= q < |cells[1..]| && q < |later| && cells[1..][q] == c && !later[q] {
      assert cells[q + 1] == c && !flags[q + 1];
    }
  }

  lemma UnflaggedMasked(cells: seq<Cell>, n: nat, later: seq<bool>, c: Cell)
    requires n <= |cells|
    ensures Unflagged(cells, seq(n, _ => true) + later, c) <==> Unflagged(cells[n..], later, c)
  {
    var flags := seq(n, _ => true) + later;
    if q :| 0 <= q < |cells| && q < |flags| && cells[q] == c && !flags[q] {
      assert cells[n..][q - n] == c && !later[q - n];
    }
    if q :| 0 <= q < |cells[n..]| && q < |later| && cells[n..][q] == c && !later[q] {
      assert cells[n + q] == c && !flags[n + q];
    }
  }

  /** A pass brings no byte of the text back, and drops exactly the flagged ones. */
  lemma {:induction false} ApplyKeeps(cells: seq<Cell>, pieces: seq<Piece>, marker: Bytes, c: Cell)
    requires |cells| == |Origin(pieces)| && c.Kept?
    ensures c in Apply(cells, pieces, marker) <==> Unflagged(cells, Flags(pieces), c)
    decreases |pieces|
  {
    hide Unflagged;
    if pieces == [] {
      NoneUnflagged(cells, c);
    } else {
      var n := if pieces[0].Raw? then 1 else |pieces[0].original|;
      var rest := Apply(cells[n..], pieces[1..], marker);
      ApplyKeeps(cells[n..], pieces[1..], marker, c);
      if pieces[0].Raw? {
        UnflaggedRaw(cells, Flags(pieces[1..]), c);
        assert c in [cells[0]] + rest <==> c == cells[0] || c in rest;
      } else {
        UnflaggedMasked(cells, n, Flags(pieces[1..]), c);
        assert c in Markers(marker) + rest <==> c in rest;
      }
    }
  }

  lemma NoneUnflagged(cells: seq<Cell>, c: Cell)
    requires cells == []
    ensures !Unflagged(cells, [], c)
  {
  }

  /** A kept byte that was first and survives the pass is first again. */
  lemma FirstStays(text: Bytes, cells: seq<Cell>, pieces: seq<Piece>, marker: Bytes)
    requires |cells| == |Origin(pieces)| && Traces(text, cells) && NoneEmpty(pieces)
    requires cells != [] && cells[0].Kept? && cells[0] in Apply(cells, pieces, marker)
    ensures Apply(cells, pieces, marker)[0] == cells[0]
  {
    ApplyKeeps(cells, pieces, marker, cells[0]);
    var q :| 0 <= q < |cells| && q < |Flags(pieces)| && cells[q] == cells[0] && !Flags(pieces)[q];
    assert q == 0;
    assert pieces != [] && pieces[0].Raw?;
  }

  lemma {:induction false} ApplyTraces(text: Bytes, cells: seq<Cell>, pieces: seq<Piece>, marker: Bytes)
    requires |cells| == |Origin(pieces)| && Traces(text, cells) && NoneEmpty(pieces)
    ensures Traces(text, Apply(cells, pieces, marker))
    decreases |pieces|
  {
    if pieces != [] {
      var n := if pieces[0].Raw? then 1 else |pieces[0].original|;
      var rest := Apply(cells[n..], pieces[1..], marker);
      TracesTail(text, cells, n);
      ApplyTraces(text, cells[n..], pieces[1..], marker);
      if pieces[0].Raw? {
        forall c | c in rest && c.Kept?
          ensures c in cells[1..]
        {
          ApplyKeeps(cells[1..], pieces[1..], marker, c);
        }
        if |cells| > 1 && cells[1].Kept? && cells[1] in rest {
          FirstStays(text, cells[1..], pieces[1..], marker);
        }
        ConsTraces(text, cells[0], cells, rest);
      } else {
        MarkersTrace(text, marker, rest);
      }
    }
  }

  lemma MarkersTrace(text: Bytes, marker: Bytes, rest: seq<Cell>)
    requires Traces(text, rest)
    ensures Traces(text, Markers(marker) + rest)
  {
    var all := Markers(marker) + rest;
    assert forall i :: 0 <= i < |marker| ==> all[i].Marked?;
    assert forall i :: |marker| <= i < |all| ==> all[i] == rest[i - |marker|];
  }

  lemma ConsTraces(text: Bytes, first: Cell, cells: seq<Cell>, rest: seq<Cell>)
    requires cells != [] && cells[0] == first && Traces(text, cells) && Traces(text, rest)
    requires forall c :: c in rest && c.Kept? ==> c in cells[1..]
    requires |cells| > 1 && cells[1].Kept? && cells[1] in rest ==> rest != [] && rest[0] == cells[1]
    ensures Traces(text, [first] + rest)
  {
    var all := [first] + rest;
    assert forall i :: 0 < i < |all| ==> all[i] == rest[i - 1] && all[i] in rest;
    forall j | 0 < j < |all| && all[0].Kept? && all[j].Kept?
      ensures all[0].pos < all[j].pos && (all[0].pos + 1 == all[j].pos ==> j == 1)
    {
      var k :| 0 <= k < |cells[1..]| && cells[1..][k] == all[j];
      assert cells[k + 1] == all[j];
      if all[0].pos + 1 == all[j].pos {
        assert cells[1] == all[j] && rest[0] == cells[1];
      }
    }
  }

  lemma ShowConcat(text: Bytes, a: seq<Cell>, b: seq<Cell>)
    ensures Show(text, a + b) == Show(text, a) + Show(text, b)
  {
  }

  lemma ShowMarkers(text: Bytes, marker: Bytes)
    ensures Show(text, Markers(marker)) == marker
  {
  }

  /** A pass over the cells shows what the pass over the bytes writes. */
  lemma {:induction false} ApplyShows(text: Bytes, cells: seq<Cell>, pieces: seq<Piece>, marker: Bytes)
    requires |cells| == |Origin(pieces)| && Show(text, cells) == Origin(pieces)
    ensures Show(text, Apply(cells, pieces, marker)) == Render(marker, pieces)
    decreases |pieces|
  {
    if pieces != [] {
      var n := if pieces[0].Raw? then 1 else |pieces[0].original|;
      var rest := Apply(cells[n..], pieces[1..], marker);
      assert Show(text, cells[n..]) == Show(text, cells)[n..] == Origin(pieces[1..]);
      ApplyShows(text, cells[n..], pieces[1..], marker);
      hide Show, Origin;
      if pieces[0].Raw? {
        ShowConcat(text, [cells[0]], rest);
        assert Show(text, [cells[0]]) == [pieces[0].byte];
      } else {
        ShowConcat(text, Markers(marker), rest);
        ShowMarkers(text, marker);
      }
    }
  }

  // ---- One pass ----

  /** Kept bytes that were neighbours in the text stand side by side. */
  lemma {:induction false} KeptRun(text: Bytes, cells: seq<Cell>, p: nat, n: nat) returns (q: nat)
    requires Traces(text, cells) && n > 0 && !Lost(cells, p, n)
    ensures q + n <= |cells| && forall i :: q <= i < q + n ==> cells[i] == Kept(p + (i - q))
    decreases n
  {
    assert Kept(p) in cells;
    if n == 1 {
      q :| 0 <= q < |cells| && cells[q] == Kept(p);
    } else {
      assert forall j :: p <= j < p + (n - 1) ==> Kept(j) in cells;
      q := KeptRun(text, cells, p, n - 1);
      assert Kept(p + n - 1) in cells;
      var last :| 0 <= last < |cells| && cells[last] == Kept(p + n - 1);
      assert cells[q + n - 2] == Kept(p + n - 2);
      assert last == q + n - 1;
    }
  }

  lemma RunOccurs(text: Bytes, cells: seq<Cell>, secret: Bytes, p: nat, q: nat)
    requires OccursAt(secret, text, p) && q + |secret| <= |cells|
    requires forall i :: q <= i < q + |secret| ==> cells[i] == Kept(p + (i - q))
    ensures OccursAt(secret, Show(text, cells), q)
  {
    var shown := Show(text, cells);
    forall k | 0 <= k < |secret|
      ensures shown[q..][..|secret|][k] == secret[k]
    {
      assert text[p..][..|secret|][k] == secret[k] && cells[q + k] == Kept(p + k);
    }
    assert shown[q..][..|secret|] == secret;
  }

  lemma {:induction false} ScanReplacesBytes(secrets: seq<Bytes>, text: Bytes)
    ensures NoneEmpty(Scan(secrets, text))
    decreases |text|
  {
    hide LongestPrefix;
    if text != [] {
      var n := LongestPrefix(secrets, text);
      var rest := if 0 < n <= |text| then text[n..] else text[1..];
      ScanReplacesBytes(secrets, rest);
      assert Scan(secrets, text)[1..] == Scan(secrets, rest);
    }
  }

  lemma ScanLaw(secret: Bytes, text: Bytes)
    ensures Origin(Scan([secret], text)) == text && NoneEmpty(Scan([secret], text))
  {
    var m := Masker([secret], "", 0);
    hide Scan, Origin, NoneEmpty;
    FlushIsScan(m, text);
    FeedConserves(m, text, true);
    ScanReplacesBytes([secret], text);
    assert Origin(Emit(m, text, true)) + [] == Origin(Emit(m, text, true));
  }

  /** The masker for one secret. */
  function Single(secret: Bytes, marker: Bytes): Masker {
    Masker([secret], marker, if secret == [] then 0 else |secret| - 1)
  }

  lemma SingleGuards(secret: Bytes, marker: Bytes, text: Bytes, q: nat)
    requires |secret| >= MIN_SECRET_LENGTH && marker != [] && OccursAt(secret, text, q)
    ensures Touched(Flags(Scan([secret], text)), q, |secret|)
  {
    var m := Single(secret, marker);
    FlushGuards(m, text, q, secret);
    FlushIsScan(m, text);
  }

  /** One pass replaces a byte of every occurrence in the text that earlier passes left whole. */
  lemma PassLoses(text: Bytes, cells: seq<Cell>, secret: Bytes, marker: Bytes, p: nat)
    requires Traces(text, cells) && |secret| >= MIN_SECRET_LENGTH && marker != [] && OccursAt(secret, text, p)
    requires Origin(Scan([secret], Show(text, cells))) == Show(text, cells)
    ensures Lost(Apply(cells, Scan([secret], Show(text, cells)), marker), p, |secret|)
  {
    var shown := Show(text, cells);
    var pieces := Scan([secret], shown);
    var flags, after := Flags(pieces), Apply(cells, pieces, marker);
    hide Show, Scan, Flags, Apply, Origin, OccursAt, Traces, Unflagged;
    if Lost(cells, p, |secret|) {
      var j :| p <= j < p + |secret| && Kept(j) !in cells;
      ApplyKeeps(cells, pieces, marker, Kept(j));
      assert Kept(j) !in after;
    } else {
      var q := KeptRun(text, cells, p, |secret|);
      RunOccurs(text, cells, secret, p, q);
      SingleGuards(secret, marker, shown, q);
      var x :| q <= x < q + |secret| && x < |flags| && flags[x];
      ApplyKeeps(cells, pieces, marker, cells[x]);
      FlaggedIsGone(text, cells, flags, x);
      assert Kept(p + (x - q)) !in after;
    }
  }

  lemma FlaggedIsGone(text: Bytes, cells: seq<Cell>, flags: seq<bool>, x: nat)
    requires Traces(text, cells) && x < |cells| && x < |flags| && flags[x] && cells[x].Kept?
    ensures !Unflagged(cells, flags, cells[x])
  {
  }

  // ---- All passes ----

  /** The passes from cells of the text: a trace of the result in which every occurrence has lost a byte. */
  lemma {:induction false} PassesTrace(secrets: seq<Bytes>, marker: Bytes, text: Bytes, cells: seq<Cell>)
    returns (after: seq<Cell>)
    requires (forall s :: s in secrets ==> |s| >= MIN_SECRET_LENGTH) && marker != [] && Traces(text, cells)
    ensures Traces(text, after) && Show(text, after) == ReplaceEach(secrets, marker, Show(text, cells))
    ensures forall c :: c in after && c.Kept? ==> c in cells
    ensures forall s, p: nat :: s in secrets && OccursAt(s, text, p) ==> Lost(after, p, |s|)
    decreases |secrets|
  {
    if secrets == [] {
      after := cells;
    } else {
      var secret, rest, shown := secrets[0], secrets[1..], Show(text, cells);
      assert secret in secrets && forall s :: s in rest ==> s in secrets;
      var pieces := Scan([secret], shown);
      ScanLaw(secret, shown);
      var once := Apply(cells, pieces, marker);
      ApplyTraces(text, cells, pieces, marker);
      ApplyShows(text, cells, pieces, marker);
      SingleSecretScan(marker, secret, shown);
      after := PassesTrace(rest, marker, text, once);
      forall c | c in after && c.Kept?
        ensures c in cells
      {
        ApplyKeeps(cells, pieces, marker, c);
      }
      forall s, p: nat | s in secrets && OccursAt(s, text, p)
        ensures Lost(after, p, |s|)
      {
        if s !in rest {
          PassLoses(text, cells, secret, marker, p);
          StaysLost(once, after, p, |s|);
        }
      }
    }
  }

  lemma StaysLost(before: seq<Cell>, after: seq<Cell>, p: nat, n: nat)
    requires Lost(before, p, n) && forall c :: c in after && c.Kept? ==> c in before
    ensures Lost(after, p, n)
  {
    var j :| p <= j < p + n && Kept(j) !in before;
    assert Kept(j) !in after;
  }

  lemma WholeTraces(text: Bytes)
    ensures Traces(text, Whole(text)) && Show(text, Whole(text)) == text
  {
  }

  /**
    Whatever the number of secrets: every byte of the result is a byte of the text, kept in order, or a byte that a
    marker brought, and every occurrence of a kept secret in the text has lost a byte.
  */
  lemma NoSecretStaysWhole(m: Masker, text: Bytes) returns (cells: seq<Cell>)
    requires WellFormed(m)
    ensures Traces(text, cells) && Show(text, cells) == ReplaceEach(m.secrets, m.replacement, text)
    ensures forall s, p: nat :: s in m.secrets && OccursAt(s, text, p) ==> Lost(cells, p, |s|)
  {
    WholeTraces(text);
    cells := PassesTrace(m.secrets, m.replacement, text, Whole(text));
  }

  /** A text in which no kept secret occurs comes back unchanged. */
  lemma {:induction false} CleanTextStays(secrets: seq<Bytes>, marker: Bytes, text: Bytes)
    requires forall s :: s in secrets ==> s != []
    requires forall s, p: nat :: s in secrets ==> !OccursAt(s, text, p)
    ensures ReplaceEach(secrets, marker, text) == text
    decreases |secrets|
  {
    if secrets != [] {
      assert secrets[0] in secrets;
      assert forall s :: s in secrets[1..] ==> s in secrets;
      AbsentStays(secrets[0], marker, text);
      CleanTextStays(secrets[1..], marker, text);
    }
  }

  lemma AbsentStays(secret: Bytes, marker: Bytes, text: Bytes)
    requires secret != [] && forall p: nat :: !OccursAt(secret, text, p)
    ensures ReplaceAll(text, secret, marker) == text
  {
    forall j | 0 <= j < |text|
      ensures LongestPrefix([secret], text[j..]) == 0
    {
      SingletonPrefix(secret, text[j..]);
      assert !OccursAt(secret, text, j);
    }
    NoMatchScan(marker, [secret], text);
    SingleSecretScan(marker, secret, text);
  }

  lemma {:induction false} IndexAt(before: Bytes, pattern: Bytes, rest: Bytes)
    requires pattern != [] && pattern[0] !in before
    ensures Index(before + pattern + rest, pattern) == |before|
    decreases |before|
  {
    var text := before + pattern + rest;
    if before == [] {
      assert text[..|pattern|] == pattern;
    } else {
      assert text[0] == before[0] != pattern[0];
      assert text[..|pattern|][0] == text[0];
      assert text[1..] == before[1..] + pattern + rest;
      IndexAt(before[1..], pattern, rest);
    }
  }

  /** The first match of a text that ends with it. */
  lemma ReplaceLast(before: Bytes, pattern: Bytes, rest: Bytes, marker: Bytes)
    requires pattern != [] && pattern[0] !in before && |rest| < |pattern|
    ensures ReplaceAll(before + pattern + rest, pattern, marker) == before + marker + rest
  {
    var text := before + pattern + rest;
    IndexAt(before, pattern, rest);
    assert text[..|before|] == before && text[|before| + |pattern|..] == rest;
    assert ReplaceAll(rest, pattern, marker) == rest;
  }

  /** A later secret may match across a marker, so a marker need not stay whole in the result. */
  lemma MarkerIsCut()
    ensures ReplaceEach(["alpha", "KED]x"], DEFAULT_REPLACEMENT, "alphax") == "[MAS[MASKED]"
  {
    var secrets := ["alpha", "KED]x"];
    ReplaceLast("", "alpha", "x", DEFAULT_REPLACEMENT);
    assert "" + "alpha" + "x" == "alphax" && "" + DEFAULT_REPLACEMENT + "x" == "[MASKED]x";
    ReplaceLast("[MAS", "KED]x", "", DEFAULT_REPLACEMENT);
    assert "[MAS" + "KED]x" + "" == "[MASKED]x" && "[MAS" + DEFAULT_REPLACEMENT + "" == "[MAS[MASKED]";
    assert secrets[1..] == ["KED]x"] && secrets[1..][1..] == [];
  }
}
