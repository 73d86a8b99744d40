/** The masker's operations as the source runs them, proved against the pieces model. */
module MaskingStreams {
  import opened Masking
  import opened MaskingProofs
  import opened MaskingText

  /**
    Keeps the distinct secrets of at least the minimum length, in order of first appearance, and holds
    back one byte less than the longest.
  */
  method NewWithReplacement(secrets: seq<Bytes>, replacement: Bytes) returns (m: Masker)
    ensures WellFormed(m)
    ensures m.replacement == if replacement == [] then DEFAULT_REPLACEMENT else replacement
    ensures forall s :: s in m.secrets <==> s in secrets && |s| >= MIN_SECRET_LENGTH
    ensures forall i, j :: 0 <= i < j < |m.secrets| ==> m.secrets[i] != m.secrets[j]
    ensures if m.secrets == [] then m.keepTail == 0
            else exists s :: s in m.secrets && m.keepTail == |s| - 1
  {
    var filtered: seq<Bytes> := [];
    var maxLen := 0;
    for k := 0 to |secrets|
      invariant forall s :: s in filtered <==> s in secrets[..k] && |s| >= MIN_SECRET_LENGTH
      invariant forall i, j :: 0 <= i < j < |filtered| ==> filtered[i] != filtered[j]
      invariant forall s :: s in filtered ==> |s| <= maxLen
      invariant if filtered == [] then maxLen == 0 else exists s :: s in filtered && |s| == maxLen
    {
      var secret := secrets[k];
      assert secrets[..k + 1] == secrets[..k] + [secret];
      if |secret| >= MIN_SECRET_LENGTH && secret !in filtered {
        ghost var before := filtered;
        filtered := filtered + [secret];
        assert secret in filtered;
        assert forall s :: s in filtered <==> s in before || s == secret;
        if |secret| > maxLen {
          maxLen := |secret|;
        }
      }
    }
    assert secrets[..|secrets|] == secrets;
    m := Masker(filtered, if replacement == [] then DEFAULT_REPLACEMENT else replacement,
                if maxLen > 1 then maxLen - 1 else 0);
  }

  /** The leftmost match, the longest one there; index -1 when nothing matches. */
  method NextMatch(m: Masker, data: Bytes) returns (index: int, secret: Bytes)
    requires WellFormed(m)
    ensures index == -1 <==> FirstMatch(m.secrets, data) == |data|
    ensures index != -1 ==> index == FirstMatch(m.secrets, data) && |secret| == LongestPrefix(m.secrets, data[index..])
  {
    index, secret := -1, [];
    for k := 0 to |m.secrets|
      invariant -1 <= index < |data|
      invariant index == -1 ==> NoMatchBefore(m.secrets[..k], data, |data|)
      invariant index != -1 ==> NoMatchBefore(m.secrets[..k], data, index)
      invariant index != -1 ==> |secret| == LongestPrefix(m.secrets[..k], data[index..]) > 0
    {
      var candidate := m.secrets[k];
      var i := Index(data, candidate);
      IndexIsFirstMatch(data, candidate);
      FirstMatchLaw([candidate], data);
      OneMoreSecret(m.secrets, k, data);
      if i < |data| {
        if index == -1 || i < index || (i == index && |candidate| > |secret|) {
          index, secret := i, candidate;
        }
      }
    }
    assert m.secrets[..|m.secrets|] == m.secrets;
    if index == -1 {
      FirstMatchUnique(m.secrets, data, |data|);
    } else {
      FirstMatchUnique(m.secrets, data, index);
    }
  }

  lemma OneMoreSecret(secrets: seq<Bytes>, k: nat, data: Bytes)
    requires k < |secrets|
    ensures forall j :: 0 <= j <= |data| ==>
              var others := LongestPrefix(secrets[..k], data[j..]);
              var one := LongestPrefix([secrets[k]], data[j..]);
              LongestPrefix(secrets[..k + 1], data[j..]) == if one > others then one else others
  {
    forall j | 0 <= j <= |data|
      ensures var others := LongestPrefix(secrets[..k], data[j..]);
              var one := LongestPrefix([secrets[k]], data[j..]);
              LongestPrefix(secrets[..k + 1], data[j..]) == if one > others then one else others
    {
      SingletonPrefix(secrets[k], data[j..]);
      assert secrets[..k + 1][..k] == secrets[..k];
    }
  }

  /** The bytes one call writes for its data. */
  function Written(m: Masker, data: Bytes, flush: bool): Bytes
    decreases |data|
  {
    var i := FirstMatch(m.secrets, data);
    if i < |data| then data[..i] + m.replacement + Written(m, AfterMatch(m, data), flush)
    else if flush then data
    else data[..SafeLength(m, data)]
  }

  /** They are the rendering of the pieces it emits. */
  lemma {:induction false} WrittenIsRender(m: Masker, data: Bytes, flush: bool)
    ensures Written(m, data, flush) == Render(m.replacement, Emit(m, data, flush))
    decreases |data|
  {
    if FirstMatch(m.secrets, data) < |data| {
      var i, n := MatchParts(m, data);
      WrittenIsRender(m, data[i + n..], flush);
      HeadLaw(m.replacement, data, i, n);
      RenderConcat(m.replacement, Head(data, i, n), Emit(m, data[i + n..], flush));
    } else {
      RawsLaw(m.replacement, data);
      RawsLaw(m.replacement, data[..SafeLength(m, data)]);
    }
  }

  lemma WrittenAtMatch(m: Masker, data: Bytes, flush: bool, i: nat, n: nat)
    requires i == FirstMatch(m.secrets, data) && i < |data| && n == LongestPrefix(m.secrets, data[i..])
    ensures 0 < n && i + n <= |data|
    ensures Written(m, data, flush) == data[..i] + m.replacement + Written(m, data[i + n..], flush)
    ensures Hold(m, data, flush) == Hold(m, data[i + n..], flush)
  {
    hide FirstMatch, LongestPrefix;
    var i', n' := MatchParts(m, data);
  }

  lemma WrittenAtEnd(m: Masker, data: Bytes, flush: bool)
    requires FirstMatch(m.secrets, data) == |data|
    ensures flush ==> Written(m, data, flush) == data && Hold(m, data, flush) == []
    ensures !flush ==>
              Written(m, data, flush) == data[..SafeLength(m, data)] &&
              Hold(m, data, flush) == data[SafeLength(m, data)..]
  {
  }

  /** `out` and what is left to write make up the total. */
  ghost predicate Splits(out: Bytes, left: Bytes, total: Bytes) {
    out + left == total
  }

  lemma Glue(out: Bytes, raw: Bytes, marker: Bytes, left: Bytes, total: Bytes)
    requires Splits(out, raw + marker + left, total)
    ensures Splits(out + raw + marker, left, total)
  {
  }

  /** One chunk through the masker: what it writes and what it holds back. */
  method MaskStreamChunk(m: Masker, pending: Bytes, chunk: Bytes, flush: bool) returns (out: Bytes, rest: Bytes)
    requires WellFormed(m)
    ensures out == Written(m, pending + chunk, flush)
    ensures rest == Hold(m, pending + chunk, flush)
  {
    hide FirstMatch, LongestPrefix, Written, Hold;
    var data := pending + chunk;
    if m.secrets == [] {
      NothingMatches(m, data);
      WrittenAtEnd(m, data, flush);
      assert data[..|data|] == data;
      return data, [];
    }
    out := [];
    ghost var total, left, held := Written(m, data, flush), Written(m, data, flush), Hold(m, data, flush);
    while |data| > 0
      invariant Splits(out, left, total) && left == Written(m, data, flush) && held == Hold(m, data, flush)
      decreases |data|
    {
      var index, secret := NextMatch(m, data);
      if index >= 0 {
        WrittenAtMatch(m, data, flush, index, |secret|);
        left := Written(m, data[index + |secret|..], flush);
        Glue(out, data[..index], m.replacement, left, total);
        out := out + data[..index];
        out := out + m.replacement;
        data := data[index + |secret|..];
      } else {
        WrittenAtEnd(m, data, flush);
        if flush {
          out := out + data;
          data := [];
        } else {
          var keep := if m.keepTail > |data| then |data| else m.keepTail;
          var safe := |data| - keep;
          out := out + data[..safe];
          data := data[safe..];
        }
        rest := data;
        return;
      }
    }
    WrittenAtEnd(m, data, flush);
    rest := data;
  }

  lemma NothingMatches(m: Masker, data: Bytes)
    requires m.secrets == []
    ensures FirstMatch(m.secrets, data) == |data|
  {
  }

  /** The string masker: one replacement pass per kept secret, in order. */
  method MaskString(m: Masker, text: Bytes) returns (masked: Bytes)
    requires WellFormed(m)
    ensures masked == ReplaceEach(m.secrets, m.replacement, text)
    ensures |m.secrets| == 1 ==> masked == Render(m.replacement, Scan(m.secrets, text))
  {
    masked := text;
    for k := 0 to |m.secrets|
      invariant ReplaceEach(m.secrets[k..], m.replacement, masked) == ReplaceEach(m.secrets, m.replacement, text)
    {
      assert m.secrets[k..][1..] == m.secrets[k + 1..];
      masked := ReplaceAll(masked, m.secrets[k], m.replacement);
    }
    if |m.secrets| == 1 {
      SingleSecretScan(m.replacement, m.secrets[0], text);
      assert m.secrets == [m.secrets[0]] && m.secrets[1..] == [];
    }
  }

  /** The tail held back after `chunks`, before any flush. */
  function Held(m: Masker, chunks: seq<Bytes>): Bytes {
    if chunks == [] then []
    else Hold(m, Held(m, chunks[..|chunks| - 1]) + chunks[|chunks| - 1], false)
  }

  /** The pieces emitted for `chunks`, before any flush. */
  function Sent(m: Masker, chunks: seq<Bytes>): seq<Piece> {
    if chunks == [] then []
    else
      var front := chunks[..|chunks| - 1];
      Sent(m, front) + Emit(m, Held(m, front) + chunks[|chunks| - 1], false)
  }

  /** Feeding chunk by chunk and then flushing gives the stream's pieces. */
  lemma {:induction false} SentThenFlushed(m: Masker, chunks: seq<Bytes>, later: seq<Bytes>)
    ensures Sent(m, chunks) + Stream(m, Held(m, chunks), later) == Stream(m, [], chunks + later)
    decreases |chunks|
  {
    hide Emit, Hold, Stream;
    if chunks == [] {
      assert chunks + later == later;
    } else {
      var front, last := chunks[..|chunks| - 1], chunks[|chunks| - 1];
      SentThenFlushed(m, front, [last] + later);
      assert front + ([last] + later) == chunks + later;
      StreamCons(m, Held(m, front), last, later);
      Associate(Sent(m, front), Emit(m, Held(m, front) + last, false), Stream(m, Held(m, chunks), later));
    }
  }

  lemma StreamCons(m: Masker, pending: Bytes, chunk: Bytes, later: seq<Bytes>)
    ensures Stream(m, pending, [chunk] + later) ==
            Emit(m, pending + chunk, false) + Stream(m, Hold(m, pending + chunk, false), later)
  {
    assert ([chunk] + later)[1..] == later;
  }

  lemma SentOneMore(m: Masker, chunks: seq<Bytes>, p: Bytes)
    ensures Held(m, chunks + [p]) == Hold(m, Held(m, chunks) + p, false)
    ensures |Hold(m, Held(m, chunks) + p, false)| <= m.keepTail
    ensures Render(m.replacement, Sent(m, chunks + [p])) ==
            Render(m.replacement, Sent(m, chunks)) + Written(m, Held(m, chunks) + p, false)
  {
    FeedConserves(m, Held(m, chunks) + p, false);
    WrittenIsRender(m, Held(m, chunks) + p, false);
    assert (chunks + [p])[..|chunks|] == chunks;
    RenderConcat(m.replacement, Sent(m, chunks), Emit(m, Held(m, chunks) + p, false));
  }

  /** What a sink takes of the bytes it is handed: some prefix, and it may report an error besides. */
  datatype SinkAnswer = SinkAnswer(taken: nat, fails: bool)

  function TakenBy(answer: SinkAnswer, bytes: Bytes): Bytes {
    if answer.taken < |bytes| then bytes[..answer.taken] else bytes
  }

  /** A sink that takes less than everything reports it; it is not called for no bytes at all. */
  predicate Succeeds(answer: SinkAnswer, bytes: Bytes) {
    bytes == [] || (|bytes| <= answer.taken && !answer.fails)
  }

  lemma LossIsFinal(sink: Bytes, produced: Bytes, answer: SinkAnswer, bytes: Bytes)
    requires |sink| <= |produced| && (|sink| == |produced| ==> sink == produced)
    ensures var sink', produced' := sink + TakenBy(answer, bytes), produced + bytes;
            && |sink'| <= |produced'| && (|sink'| == |produced'| ==> sink' == produced')
            && (sink' == produced' <==> sink == produced && |bytes| <= answer.taken)
  {
  }

  /** The masking writer over a sink that may fail or take only part of a write. */
  class Writer {
    const masker: Masker
    var sink: Bytes
    var sinkClosed: bool
    var pending: Bytes
    var closed: bool
    ghost var chunks: seq<Bytes>

    /** The masking of everything that was written, short of the held-back tail until it is closed. */
    ghost function Masked(): Bytes
      reads this
    {
      Render(masker.replacement, if closed then Stream(masker, [], chunks) else Sent(masker, chunks))
    }

    /** The sink never holds more than was produced, and what it lost is never made up for. */
    ghost predicate Valid()
      reads this
    {
      && WellFormed(masker) && |pending| <= masker.keepTail && (!closed ==> pending == Held(masker, chunks))
      && |sink| <= |Masked()| && (|sink| == |Masked()| ==> sink == Masked())
    }

    constructor (m: Masker)
      requires WellFormed(m)
      ensures Valid() && masker == m && !closed && !sinkClosed && chunks == [] && sink == Masked()
    {
      masker, sink, sinkClosed, pending, closed, chunks := m, [], false, [], false, [];
    }

    /**
      Masks `p` and hands the result to the sink. The chunk counts as consumed even when the sink fails, and then
      the caller is told that nothing was written. The sink is complete exactly as long as it took everything.
    */
    method Write(p: Bytes, answer: SinkAnswer) returns (ok: bool, n: nat)
      requires Valid()
      modifies this
      ensures Valid() && closed == old(closed) && sinkClosed == old(sinkClosed)
      ensures old(closed) ==> !ok && sink == old(sink) && pending == old(pending) && chunks == old(chunks)
      ensures !old(closed) ==>
                var masked := Written(masker, old(pending) + p, false);
                && ok == Succeeds(answer, masked)
                && chunks == old(chunks) + [p] && sink == old(sink) + TakenBy(answer, masked)
                && (sink == Masked() <==> old(sink == Masked()) && |masked| <= answer.taken)
      ensures n == if ok then |p| else 0
    {
      hide Render, Stream, Written, Hold, WellFormed, Sent, Held;
      if closed {
        return false, 0;
      }
      var masked, rest := MaskStreamChunk(masker, pending, p, false);
      SentOneMore(masker, chunks, p);
      LossIsFinal(sink, Masked(), answer, masked);
      pending := rest;
      chunks := chunks + [p];
      if |masked| > 0 {
        sink := sink + TakenBy(answer, masked);
        if !Succeeds(answer, masked) {
          return false, 0;
        }
      }
      return true, |p|;
    }

    /**
      Flushes the tail and closes the sink, which is left open when the flush fails. A sink that took everything
      then holds the masking of the whole stream.
    */
    method Close(answer: SinkAnswer, closeFails: bool) returns (ok: bool)
      requires Valid()
      modifies this
      ensures Valid() && closed && chunks == old(chunks)
      ensures old(closed) ==> ok && sink == old(sink) && sinkClosed == old(sinkClosed)
      ensures !old(closed) ==>
                var masked := Written(masker, old(pending), true);
                && ok == (Succeeds(answer, masked) && !closeFails)
                && sinkClosed == (old(sinkClosed) || Succeeds(answer, masked))
                && sink == old(sink) + TakenBy(answer, masked)
                && (sink == Render(masker.replacement, Stream(masker, [], chunks)) <==>
                    old(sink == Masked()) && |masked| <= answer.taken)
    {
      hide Render, Stream, Written, Hold, WellFormed, Sent, Held;
      if closed {
        return true;
      }
      var masked, rest := MaskStreamChunk(masker, pending, [], true);
      assert pending + [] == pending;
      ClosingLaw(masker, chunks, pending);
      LossIsFinal(sink, Masked(), answer, masked);
      closed := true;
      pending := rest;
      if |masked| > 0 {
        sink := sink + TakenBy(answer, masked);
        if !Succeeds(answer, masked) {
          return false;
        }
      }
      sinkClosed := true;
      ok := !closeFails;
    }
  }

  /** Flushing the held-back tail completes the masking of the stream. */
  lemma ClosingLaw(m: Masker, chunks: seq<Bytes>, pending: Bytes)
    requires pending == Held(m, chunks)
    ensures Render(m.replacement, Sent(m, chunks)) + Written(m, pending, true) ==
            Render(m.replacement, Stream(m, [], chunks))
    ensures Hold(m, pending, true) == []
  {
    hide Render, Sent, Held, Written;
    SentThenFlushed(m, chunks, []);
    assert chunks + [] == chunks;
    RenderConcat(m.replacement, Sent(m, chunks), Stream(m, pending, []));
    FlushIsStream(m, pending);
    FeedConserves(m, pending, true);
    WrittenIsRender(m, pending, true);
  }

  datatype Status = Fine | End | Broken

  /** One answer of the underlying reader. */
  datatype Input = Input(data: Bytes, status: Status)

  /** The chunks that the answers carry. */
  function Chunks(inputs: seq<Input>): seq<Bytes> {
    if inputs == [] then []
    else
      var front, last := Chunks(inputs[..|inputs| - 1]), inputs[|inputs| - 1].data;
      if last == [] then front else front + [last]
  }

  /** What the reader has produced, delivered or not, is the masking of what it has read. */
  ghost predicate Produced(m: Masker, chunks: seq<Bytes>, eof: bool, produced: Bytes, pending: Bytes) {
    if eof then produced == Render(m.replacement, Stream(m, [], chunks))
    else produced == Render(m.replacement, Sent(m, chunks)) && pending == Held(m, chunks)
  }

  lemma ProducedMore(m: Masker, chunks: seq<Bytes>, produced: Bytes, pending: Bytes, p: Bytes)
    requires Produced(m, chunks, false, produced, pending)
    ensures Produced(m, chunks + [p], false, produced + Written(m, pending + p, false), Hold(m, pending + p, false))
  {
    hide Render, Sent, Held, Written, Hold;
    SentOneMore(m, chunks, p);
  }

  lemma ProducedAll(m: Masker, chunks: seq<Bytes>, produced: Bytes, pending: Bytes)
    requires Produced(m, chunks, false, produced, pending)
    ensures Produced(m, chunks, true, produced + Written(m, pending + [], true), Hold(m, pending + [], true))
  {
    hide Render, Sent, Held, Written, Hold;
    assert pending + [] == pending;
    ClosingLaw(m, chunks, pending);
  }

  lemma FlushIsStream(m: Masker, pending: Bytes)
    ensures Stream(m, pending, []) == Emit(m, pending, true)
  {
  }

  /** The masking reader over an underlying reader whose answers are `inputs`, then end of file. */
  class Reader {
    const masker: Masker
    const inputs: seq<Input>
    var pos: nat
    var pending: Bytes
    var out: Bytes
    var eof: bool
    ghost var delivered: Bytes

    ghost predicate Valid()
      reads this
    {
      WellFormed(masker) && pos <= |inputs| && Produced(masker, Chunks(inputs[..pos]), eof, delivered + out, pending)
    }

    constructor (m: Masker, inputs: seq<Input>)
      requires WellFormed(m)
      ensures Valid() && masker == m && this.inputs == inputs && delivered == [] && pos == 0
    {
      masker, this.inputs, pos, pending, out, eof, delivered := m, inputs, 0, [], [], false, [];
    }

    /** One answer of the underlying reader goes through the masker. */
    method Fill() returns (status: Status)
      requires Valid() && !eof
      modifies this
      ensures Valid() && delivered == old(delivered) && old(pos) <= pos
      ensures status == End <==> eof
      ensures !eof ==> pos > old(pos)
    {
      hide Produced, WellFormed, Written, Hold;
      var input := if pos < |inputs| then inputs[pos] else Input([], End);
      var next := if pos < |inputs| then pos + 1 else pos;
      assert pos < |inputs| ==> inputs[..pos + 1][..pos] == inputs[..pos];
      if |input.data| > 0 {
        var masked, rest := MaskStreamChunk(masker, pending, input.data, false);
        ProducedMore(masker, Chunks(inputs[..pos]), delivered + out, pending, input.data);
        assert delivered + (out + masked) == (delivered + out) + masked;
        out, pending := out + masked, rest;
      }
      pos := next;
      assert Produced(masker, Chunks(inputs[..pos]), false, delivered + out, pending);
      if input.status == End {
        eof := true;
        var masked, rest := MaskStreamChunk(masker, pending, [], true);
        ProducedAll(masker, Chunks(inputs[..pos]), delivered + out, pending);
        assert delivered + (out + masked) == (delivered + out) + masked;
        out, pending := out + masked, rest;
      }
      status := input.status;
    }

    /**
      Delivers at most `limit` bytes. At end of file everything delivered so far is the masking of the
      whole stream that was read.
    */
    method Read(limit: nat) returns (data: Bytes, status: Status)
      requires Valid()
      modifies this
      ensures Valid() && delivered == old(delivered) + data && |data| <= limit
      ensures status == End ==>
                data == [] && delivered == Render(masker.replacement, Stream(masker, [], Chunks(inputs[..pos])))
      ensures status == Fine && limit > 0 ==> data != []
    {
      hide WellFormed, Chunks, Stream, Render, Sent, Held;
      assert old(delivered) + [] == old(delivered);
      if limit == 0 {
        return [], Fine;
      }
      while |out| == 0 && !eof
        invariant Valid() && delivered == old(delivered)
        decreases |inputs| - pos, !eof
      {
        var got := Fill();
        if got == End {
          break;
        }
        if got == Broken {
          return [], Broken;
        }
      }
      if |out| == 0 && eof {
        assert delivered + [] == delivered;
        return [], End;
      }
      var n := if limit < |out| then limit else |out|;
      data := out[..n];
      assert (delivered + data) + out[n..] == delivered + out;
      delivered := delivered + data;
      out := out[n..];
      status := Fine;
    }
  }
}
