/**
  The adapter event batcher: producers put items on a bounded queue, one loop collects them into a batch
  and flushes it when it is full, when its timer fires, or at shutdown. A flush appends the batch to the
  Store and, when that succeeds, broadcasts it under the sequence numbers the Store gave.
*/
module EventBatcher {
  datatype Phase = Running | Draining | Stopped

  datatype Sent<T> = Sent(seqNo: int, item: T)

  /**
    `accepted` are the items ever put on the queue, `flushed` the batches ever flushed and `log` what was
    broadcast; `latest` is the Store's newest sequence number.
  */
  datatype Batcher<T> = Batcher(
    maxEvents: nat, phase: Phase, cancelled: bool, queue: seq<T>, batch: seq<T>,
    accepted: seq<T>, flushed: seq<seq<T>>, latest: int, log: seq<Sent<T>>)

  /** `ok` in a step says whether the append of its flush succeeds. */
  datatype Step<T> =
    | Enqueue(item: T)
    | Receive(ok: bool)
    | Fire(ok: bool)
    | Cancel
    | StartDrain
    | DrainOne
    | FinishDrain(ok: bool)
    | AppendElsewhere(count: nat)

  function Numbered<T>(first: int, batch: seq<T>): seq<Sent<T>> {
    seq(|batch|, i requires 0 <= i < |batch| => Sent(first + i, batch[i]))
  }

  function Flush<T>(b: Batcher<T>, ok: bool): Batcher<T> {
    if b.batch == [] then b
    else
      var b' := b.(flushed := b.flushed + [b.batch], batch := []);
      if ok then b'.(latest := b.latest + |b.batch|, log := b.log + Numbered(b.latest + 1, b.batch)) else b'
  }

  predicate Enabled<T>(b: Batcher<T>, step: Step<T>) {
    match step
    case Enqueue(_) => |b.queue| < b.maxEvents
    case Receive(_) => b.phase.Running? && b.queue != []
    case Fire(_) => b.phase.Running? && b.batch != []
    case Cancel => true
    case StartDrain => b.phase.Running? && b.cancelled
    case DrainOne => b.phase.Draining? && b.queue != []
    case FinishDrain(_) => b.phase.Draining? && b.queue == []
    case AppendElsewhere(_) => true
  }

  function Collect<T>(b: Batcher<T>): Batcher<T>
    requires b.queue != []
  {
    b.(queue := b.queue[1..], batch := b.batch + [b.queue[0]])
  }

  function Next<T>(b: Batcher<T>, step: Step<T>): Batcher<T>
    requires Enabled(b, step)
  {
    match step
    case Enqueue(item) => b.(queue := b.queue + [item], accepted := b.accepted + [item])
    case Receive(ok) => if |b.batch| + 1 >= b.maxEvents then Flush(Collect(b), ok) else Collect(b)
    case Fire(ok) => Flush(b, ok)
    case Cancel => b.(cancelled := true)
    case StartDrain => b.(phase := Draining)
    case DrainOne => Collect(b)
    case FinishDrain(ok) => Flush(b, ok).(phase := Stopped)
    case AppendElsewhere(count) => b.(latest := b.latest + count)
  }

  function Fresh<T>(maxEvents: nat, latest: int): Batcher<T> {
    Batcher(maxEvents, Running, false, [], [], [], [], latest, [])
  }

  ghost predicate Execution<T(!new)>(trace: seq<Batcher<T>>, steps: seq<Step<T>>) {
    && |trace| == |steps| + 1 && trace[0].maxEvents > 0 && trace[0] == Fresh(trace[0].maxEvents, trace[0].latest)
    && forall i :: 0 <= i < |steps| ==> Enabled(trace[i], steps[i]) && trace[i + 1] == Next(trace[i], steps[i])
  }

  // ---- Conservation ----

  function Concat<T>(batches: seq<seq<T>>): seq<T> {
    if batches == [] then [] else Concat(batches[..|batches| - 1]) + batches[|batches| - 1]
  }

  /** Flushed batches, then the batch, then the queue, are everything accepted, in order. */
  ghost predicate Conserved<T>(b: Batcher<T>) {
    && Concat(b.flushed) + b.batch + b.queue == b.accepted
    && b.maxEvents > 0 && |b.queue| <= b.maxEvents && (b.phase.Stopped? ==> b.batch == [])
    && (b.phase.Running? ==> |b.batch| < b.maxEvents)
  }

  ghost predicate Sized<T>(b: Batcher<T>) {
    && (forall k :: 0 <= k < |b.flushed| ==> b.flushed[k] != [])
    && (!b.phase.Stopped? ==> forall k :: 0 <= k < |b.flushed| ==> |b.flushed[k]| <= b.maxEvents)
  }

  lemma Regroup<T>(a: seq<T>, b: seq<T>, c: seq<T>)
    requires c != []
    ensures a + (b + [c[0]]) + c[1..] == a + b + c
  {
  }

  lemma FlushConserves<T>(b: Batcher<T>, ok: bool)
    ensures Concat(Flush(b, ok).flushed) + Flush(b, ok).batch == Concat(b.flushed) + b.batch
    ensures Flush(b, ok).queue == b.queue && Flush(b, ok).accepted == b.accepted && Flush(b, ok).batch == []
  {
    if b.batch != [] {
      var flushed := b.flushed + [b.batch];
      assert flushed[..|flushed| - 1] == b.flushed;
    }
  }

  lemma StepConserves<T>(b: Batcher<T>, step: Step<T>)
    requires Conserved(b) && Enabled(b, step)
    ensures Conserved(Next(b, step))
  {
    hide Flush, Concat;
    match step
    case Enqueue(item) =>
      assert Concat(b.flushed) + b.batch + (b.queue + [item]) == (Concat(b.flushed) + b.batch + b.queue) + [item];
    case Receive(ok) =>
      Regroup(Concat(b.flushed), b.batch, b.queue);
      FlushConserves(Collect(b), ok);
      FlushKeeps(Collect(b), ok);
    case Fire(ok) =>
      FlushConserves(b, ok);
      FlushKeeps(b, ok);
    case Cancel =>
    case StartDrain =>
    case DrainOne => Regroup(Concat(b.flushed), b.batch, b.queue);
    case FinishDrain(ok) =>
      FlushConserves(b, ok);
      FlushKeeps(b, ok);
    case AppendElsewhere(_) =>
  }

  lemma FlushKeeps<T>(b: Batcher<T>, ok: bool)
    ensures Flush(b, ok).maxEvents == b.maxEvents && Flush(b, ok).phase == b.phase
  {
  }

  /** Every flushed batch is non-empty; until the final flush none is larger than the limit. */
  lemma StepKeepsSizes<T>(b: Batcher<T>, step: Step<T>)
    requires Conserved(b) && Sized(b) && Enabled(b, step)
    ensures Sized(Next(b, step))
  {
    hide Concat, Numbered;
  }

  lemma {:induction false} ExecutionOk<T(!new)>(trace: seq<Batcher<T>>, steps: seq<Step<T>>, n: nat)
    requires Execution(trace, steps) && n < |trace|
    ensures Conserved(trace[n]) && Sized(trace[n])
    decreases n
  {
    if n > 0 {
      ExecutionOk(trace, steps, n - 1);
      StepConserves(trace[n - 1], steps[n - 1]);
      StepKeepsSizes(trace[n - 1], steps[n - 1]);
    }
  }

  /**
    Whatever the interleaving: what was flushed so far, the current batch and the queue are exactly the
    accepted items in order, and once the loop has stopped only items accepted after its drain are left.
  */
  lemma ItemsConserved<T(!new)>(trace: seq<Batcher<T>>, steps: seq<Step<T>>, n: nat)
    requires Execution(trace, steps) && n < |trace|
    ensures var b := trace[n];
            && Concat(b.flushed) + b.batch + b.queue == b.accepted
            && (b.phase.Stopped? ==> Concat(b.flushed) + b.queue == b.accepted)
            && (forall k :: 0 <= k < |b.flushed| ==> b.flushed[k] != [])
            && (!b.phase.Stopped? ==> forall k :: 0 <= k < |b.flushed| ==> |b.flushed[k]| <= b.maxEvents)
  {
    ExecutionOk(trace, steps, n);
    assert Concat(trace[n].flushed) + [] == Concat(trace[n].flushed);
  }

  /** After the loop stopped nothing more is flushed or broadcast: a late item stays on the queue. */
  lemma {:induction false} StoppedIsFinal<T(!new)>(trace: seq<Batcher<T>>, steps: seq<Step<T>>, i: nat, j: nat)
    requires Execution(trace, steps) && i <= j < |trace| && trace[i].phase.Stopped?
    ensures trace[j].phase.Stopped? && trace[j].flushed == trace[i].flushed && trace[j].log == trace[i].log
    ensures trace[i].queue <= trace[j].queue
    decreases j
  {
    hide Flush;
    if i < j {
      StoppedIsFinal(trace, steps, i, j - 1);
    }
  }

  // ---- Sequence numbers ----

  /** Broadcast numbers rise strictly and are all in the Store. */
  ghost predicate LogOk<T>(b: Batcher<T>) {
    && (forall i, j :: 0 <= i < j < |b.log| ==> b.log[i].seqNo < b.log[j].seqNo)
    && (forall i :: 0 <= i < |b.log| ==> b.log[i].seqNo <= b.latest)
  }

  lemma FlushKeepsLog<T>(b: Batcher<T>, ok: bool)
    requires LogOk(b)
    ensures LogOk(Flush(b, ok))
  {
  }

  lemma {:induction false} NumbersRise<T(!new)>(trace: seq<Batcher<T>>, steps: seq<Step<T>>, n: nat)
    requires Execution(trace, steps) && n < |trace|
    ensures LogOk(trace[n])
    decreases n
  {
    hide Flush, LogOk;
    if n > 0 {
      NumbersRise(trace, steps, n - 1);
      var b, step := trace[n - 1], steps[n - 1];
      LogStep(b, step);
    } else {
      EmptyLog(trace[0]);
    }
  }

  lemma EmptyLog<T>(b: Batcher<T>)
    requires b.log == []
    ensures LogOk(b)
  {
  }

  lemma LogStep<T>(b: Batcher<T>, step: Step<T>)
    requires LogOk(b) && Enabled(b, step)
    ensures LogOk(Next(b, step))
  {
    if step.Receive? {
      FlushKeepsLog(Collect(b), step.ok);
    } else if step.Fire? || step.FinishDrain? {
      FlushKeepsLog(b, step.ok);
    }
    hide Flush;
  }

  /** What a step hands to the Store: a full batch, or what was collected when the timer or the end comes. */
  function Handed<T>(b: Batcher<T>, step: Step<T>): seq<T>
    requires Enabled(b, step)
  {
    match step
    case Enqueue(_) => []
    case Receive(_) => if |b.batch| + 1 < b.maxEvents then [] else b.batch + [b.queue[0]]
    case Fire(_) => b.batch
    case Cancel => []
    case StartDrain => []
    case DrainOne => []
    case FinishDrain(_) => b.batch
    case AppendElsewhere(_) => []
  }

  /** The append of the step succeeds. */
  predicate Stores<T>(step: Step<T>) {
    (step.Receive? && step.ok) || (step.Fire? && step.ok) || (step.FinishDrain? && step.ok)
  }

  lemma HandedFlushes<T>(b: Batcher<T>, step: Step<T>)
    requires Enabled(b, step)
    ensures var items, b' := Handed(b, step), Next(b, step);
            && b'.flushed == b.flushed + (if items == [] then [] else [items])
            && (items != [] && Stores(step) ==>
                  b'.latest == b.latest + |items| && b'.log == b.log + Numbered(b.latest + 1, items))
            && (items == [] || !Stores(step) ==>
                  b'.log == b.log && b'.latest == b.latest + (if step.AppendElsewhere? then step.count else 0))
  {
  }

  /** The batches that the first `n` steps handed to the Store. */
  ghost function HandedBy<T(!new)>(trace: seq<Batcher<T>>, steps: seq<Step<T>>, n: nat): seq<seq<T>>
    requires Execution(trace, steps) && n < |trace|
  {
    if n == 0 then []
    else
      var items := Handed(trace[n - 1], steps[n - 1]);
      HandedBy(trace, steps, n - 1) + (if items == [] then [] else [items])
  }

  /** Whatever the run: each full batch, and what was collected when the timer or the end came, is handed over once. */
  lemma {:induction false} FlushedIsHanded<T(!new)>(trace: seq<Batcher<T>>, steps: seq<Step<T>>, n: nat)
    requires Execution(trace, steps) && n < |trace|
    ensures trace[n].flushed == HandedBy(trace, steps, n)
    decreases n
  {
    hide Next, Handed, Enabled;
    if n > 0 {
      FlushedIsHanded(trace, steps, n - 1);
      HandedFlushes(trace[n - 1], steps[n - 1]);
    }
  }

  /**
    With failures and other writers anywhere in the run, a batch whose append succeeded is broadcast where the log
    then ended, under the consecutive numbers that follow the Store's newest one.
  */
  lemma {:induction false} StoredIsBroadcast<T(!new)>(
    trace: seq<Batcher<T>>, steps: seq<Step<T>>, j: nat, n: nat, i: nat)
    requires Execution(trace, steps) && j < n < |trace| && Stores(steps[j]) && i < |Handed(trace[j], steps[j])|
    ensures var k := |trace[j].log| + i;
            && k < |trace[n].log|
            && trace[n].log[k] == Sent(trace[j].latest + 1 + i, Handed(trace[j], steps[j])[i])
    decreases n
  {
    hide Next, Handed, Enabled;
    HandedFlushes(trace[n - 1], steps[n - 1]);
    if j < n - 1 {
      StoredIsBroadcast(trace, steps, j, n - 1, i);
      assert trace[n - 1].log <= trace[n].log;
    }
  }

  /** Nothing else is broadcast: every entry of the log comes from a step that stored its item. */
  lemma {:induction false} BroadcastWasStored<T(!new)>(trace: seq<Batcher<T>>, steps: seq<Step<T>>, n: nat, k: nat)
    returns (j: nat, i: nat)
    requires Execution(trace, steps) && n < |trace| && k < |trace[n].log|
    ensures j < n && Stores(steps[j]) && i < |Handed(trace[j], steps[j])| && k == |trace[j].log| + i
    decreases n
  {
    hide Next, Handed, Enabled;
    var b, step := trace[n - 1], steps[n - 1];
    HandedFlushes(b, step);
    if k < |b.log| {
      j, i := BroadcastWasStored(trace, steps, n - 1, k);
    } else {
      j, i := n - 1, k - |b.log|;
    }
  }

  /** A step whose append fails leaves the log and the Store's newest number as they were. */
  lemma FailedAppendIsSilent<T(!new)>(trace: seq<Batcher<T>>, steps: seq<Step<T>>, n: nat)
    requires Execution(trace, steps) && n < |steps| && !Stores(steps[n]) && !steps[n].AppendElsewhere?
    ensures trace[n + 1].log == trace[n].log && trace[n + 1].latest == trace[n].latest
  {
    HandedFlushes(trace[n], steps[n]);
    hide Next;
  }

  /** The step is not a failed append, and not an append by somebody else. */
  predicate Sole<T>(step: Step<T>) {
    !step.AppendElsewhere? && (step.Receive? ==> step.ok) && (step.Fire? ==> step.ok) && (step.FinishDrain? ==> step.ok)
  }

  lemma NumberedJoins<T>(first: int, a: seq<T>, b: seq<T>)
    ensures Numbered(first, a + b) == Numbered(first, a) + Numbered(first + |a|, b)
  {
  }

  lemma FlushNumbers<T>(b: Batcher<T>, base: int)
    requires b.log == Numbered(base + 1, Concat(b.flushed)) && b.latest == base + |b.log|
    ensures Flush(b, true).log == Numbered(base + 1, Concat(Flush(b, true).flushed))
    ensures Flush(b, true).latest == base + |Flush(b, true).log|
  {
    if b.batch != [] {
      var flushed := b.flushed + [b.batch];
      assert flushed[..|flushed| - 1] == b.flushed;
      NumberedJoins(base + 1, Concat(b.flushed), b.batch);
    }
  }

  /** When every append succeeds and nobody else appends, the flushed items are broadcast under consecutive numbers. */
  lemma {:induction false} ConsecutiveNumbers<T(!new)>(trace: seq<Batcher<T>>, steps: seq<Step<T>>, n: nat)
    requires Execution(trace, steps) && n < |trace| && forall i :: 0 <= i < n ==> Sole(steps[i])
    ensures trace[n].log == Numbered(trace[0].latest + 1, Concat(trace[n].flushed))
    ensures trace[n].latest == trace[0].latest + |trace[n].log|
    decreases n
  {
    hide Flush, Numbered, Concat;
    if n > 0 {
      ConsecutiveNumbers(trace, steps, n - 1);
      var b, step := trace[n - 1], steps[n - 1];
      if step.Receive? {
        FlushNumbers(Collect(b), trace[0].latest);
      } else {
        FlushNumbers(b, trace[0].latest);
      }
    } else {
      NothingNumbered<T>(trace[0].latest + 1);
    }
  }

  lemma NothingNumbered<T>(first: int)
    ensures Numbered<T>(first, Concat<T>([])) == []
  {
  }

  // ---- The batcher as it updates its fields ----

  class AdapterEventBatcher<T(!new)> {
    const maxEvents: nat
    var phase: Phase
    var cancelled: bool
    var queue: seq<T>
    var batch: seq<T>
    ghost var accepted: seq<T>
    ghost var flushed: seq<seq<T>>
    var latest: int
    var log: seq<Sent<T>>

    ghost function View(): Batcher<T>
      reads this
    {
      Batcher(maxEvents, phase, cancelled, queue, batch, accepted, flushed, latest, log)
    }

    ghost predicate Valid()
      reads this
    {
      Conserved(View()) && LogOk(View())
    }

    constructor (max: nat, latest: int)
      requires max > 0
      ensures Valid() && View() == Fresh(max, latest)
    {
      maxEvents, phase, cancelled, queue, batch := max, Running, false, [], [];
      accepted, flushed, this.latest, log := [], [], latest, [];
    }

    /** Puts an item on the queue while it has room. */
    method Put(item: T) returns (ok: bool)
      requires Valid()
      modifies this
      ensures Valid() && ok == (|old(queue)| < maxEvents)
      ensures View() == if ok then Next(old(View()), Enqueue(item)) else old(View())
    {
      ok := |queue| < maxEvents;
      if ok {
        StepConserves(View(), Enqueue(item));
        LogStep(View(), Enqueue(item));
        queue := queue + [item];
        accepted := accepted + [item];
      }
    }

    /** Appends the batch and broadcasts it, numbered from the Store's answer. */
    method FlushBatch(ok: bool)
      requires LogOk(View())
      modifies this
      ensures View() == Flush(old(View()), ok) && LogOk(View())
    {
      FlushKeepsLog(View(), ok);
      if |batch| == 0 {
        return;
      }
      flushed := flushed + [batch];
      if ok {
        var first := latest + 1;
        latest := latest + |batch|;
        var i := 0;
        while i < |batch|
          invariant 0 <= i <= |batch| && log == old(log) + Numbered(first, batch[..i])
          invariant View() ==
                    old(View()).(flushed := old(flushed) + [batch], latest := old(latest) + |batch|, log := log)
        {
          assert batch[..i + 1] == batch[..i] + [batch[i]];
          NumberedJoins(first, batch[..i], [batch[i]]);
          assert Numbered(first + i, [batch[i]]) == [Sent(first + i, batch[i])];
          log := log + [Sent(first + i, batch[i])];
          i := i + 1;
        }
        assert batch[..|batch|] == batch;
      }
      batch := [];
    }

    method ReceiveItem(ok: bool)
      requires Valid() && Enabled(View(), Receive(ok))
      modifies this
      ensures Valid() && View() == Next(old(View()), Receive(ok))
    {
      StepConserves(View(), Receive(ok));
      LogStep(View(), Receive(ok));
      hide Flush, LogOk, Conserved;
      var item := queue[0];
      queue := queue[1..];
      batch := batch + [item];
      if |batch| >= maxEvents {
        SameLog(old(View()), View());
        FlushBatch(ok);
      }
    }

    /** Shutdown: drains the queue, flushes what was collected and stops. */
    method Shutdown(ok: bool)
      requires Valid() && phase.Running? && cancelled
      modifies this
      ensures Valid() && phase.Stopped? && queue == [] && batch == []
      ensures Concat(flushed) == accepted && accepted == old(accepted)
    {
      hide Flush, LogOk, Concat;
      StepConserves(View(), StartDrain);
      phase := Draining;
      SameLog(old(View()), View());
      while |queue| > 0
        invariant Conserved(View()) && LogOk(View()) && phase.Draining? && accepted == old(accepted)
        decreases |queue|
      {
        StepConserves(View(), DrainOne);
        ghost var before := View();
        batch := batch + [queue[0]];
        queue := queue[1..];
        SameLog(before, View());
      }
      FlushConserves(View(), ok);
      StepConserves(View(), FinishDrain(ok));
      FlushKeeps(View(), ok);
      FlushBatch(ok);
      ghost var flushedAll := View();
      phase := Stopped;
      SameLog(flushedAll, View());
      assert Concat(flushed) + [] + [] == Concat(flushed);
    }
  }

  lemma SameLog<T>(a: Batcher<T>, b: Batcher<T>)
    requires LogOk(a) && b.log == a.log && b.latest == a.latest
    ensures LogOk(b)
  {
  }

  // ---- Shutting down ----

  ghost predicate StepBefore<T(!new)>(steps: seq<Step<T>>, n: nat, step: Step<T>)
    requires n <= |steps|
  {
    exists j :: 0 <= j < n && steps[j] == step
  }

  ghost predicate FinishedBefore<T(!new)>(steps: seq<Step<T>>, n: nat)
    requires n <= |steps|
  {
    exists j :: 0 <= j < n && steps[j].FinishDrain?
  }

  /**
    The loop is cancelled exactly when that was asked for, leaves its normal course exactly when it started to
    drain, and has stopped exactly when the drain was finished, which is never before it was cancelled.
  */
  lemma {:induction false} PhaseIff<T(!new)>(trace: seq<Batcher<T>>, steps: seq<Step<T>>, n: nat)
    requires Execution(trace, steps) && n < |trace|
    ensures trace[n].cancelled <==> StepBefore(steps, n, Cancel)
    ensures !trace[n].phase.Running? <==> StepBefore(steps, n, StartDrain)
    ensures trace[n].phase.Stopped? <==> FinishedBefore(steps, n)
    ensures !trace[n].phase.Running? ==> trace[n].cancelled
    decreases n
  {
    if n > 0 {
      PhaseIff(trace, steps, n - 1);
      PhaseStep(trace[n - 1], steps[n - 1]);
      hide Next;
    }
  }

  lemma PhaseStep<T>(b: Batcher<T>, step: Step<T>)
    requires Enabled(b, step)
    ensures Next(b, step).cancelled == (b.cancelled || step.Cancel?)
    ensures Next(b, step).phase == if step.StartDrain? then Draining else if step.FinishDrain? then Stopped else b.phase
  {
  }
}
