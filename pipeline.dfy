/**
  One run of the worker from the loaded table to its last signal: normalisation, the
  valid-CPF list, the batches, the enrichment loop and the merge, with the paths that end
  in `error` instead of `finished`.
*/
module Pipeline {
  import opened Normalizer
  import opened Batching
  import opened Merge
  import opened Enrichment

  /**
    What the worker gets from the ZIP file: the rows of its first CSV, or the message of the
    exception raised while opening or reading it (a missing file, an empty archive, an
    unreadable CSV, fewer than nine columns).
  */
  datatype Source = Loaded(raws: seq<RawRow>) | Unreadable(message: string)

  /** The message of the exception `range(0, n, 0)` raises. */
  const ZeroStepMessage: string := "range() arg 3 must not be zero"

  /** The signals of a run, and whether it stopped on the cancel flag. */
  datatype RunResult = RunResult(trace: seq<Event>, cancelled: bool)

  /** The batch comprehension: `range(0, n, size)` is empty for a negative size. */
  function Batches(cpfs: seq<string>, size: int): seq<seq<string>>
    requires size != 0
  {
    if size < 0 then [] else Chunk(cpfs, size)
  }

  /**
    A negative batch size makes no batch; a positive one splits the list into batches of
    one to `size` CPFs that, concatenated in order, give the list back.
  */
  lemma BatchesCover(cpfs: seq<string>, size: int)
    requires size != 0
    ensures size < 0 ==> Batches(cpfs, size) == []
    ensures size > 0 ==> Flatten(Batches(cpfs, size)) == cpfs
    ensures size > 0 ==> forall b :: b in Batches(cpfs, size) ==> 0 < |b| <= size
  {
    if size > 0 {
      ChunkFlatten(cpfs, size);
    }
  }

  /** The rows of the selected table. */
  function Rows(source: Source): seq<NormRow>
    requires source.Loaded?
  {
    NormaliseTable(source.raws)
  }

  /** The end of a run that was not cancelled: progress 100, then `finished` with the merged table. */
  function Finish(rows: seq<NormRow>, results: seq<LookupResult>, hash: string -> string): seq<Event> {
    [Progress(100), Finished(MergeTable(rows, results, hash))]
  }

  /** The run from the batch loop on: the loop, then the merge unless the loop was cancelled. */
  function Complete(rows: seq<NormRow>, bs: seq<seq<string>>, env: Env, hash: string -> string): RunResult {
    var p := Enrich(bs, 0, 0, [], env);
    if p.cancelled then RunResult(p.trace, true)
    else RunResult(p.trace + Finish(rows, p.results, hash), false)
  }

  /** Reference definition of a run of `ProcessWorker.run` with batch size `size`. */
  function RunSpec(source: Source, size: int, env: Env, hash: string -> string): RunResult {
    match source
    case Unreadable(message) => RunResult([Error(message)], false)
    case Loaded(raws) =>
      var rows := NormaliseTable(raws);
      var cpfs := ValidCpfs(rows);
      if cpfs == [] then RunResult([Progress(100)] + Finish(rows, [], hash), false)
      else if size == 0 then RunResult([Error(ZeroStepMessage)], false)
      else Complete(rows, Batches(cpfs, size), env, hash)
  }

  /** The run reaches the batch loop: the table loads, has a valid CPF, and the size is not zero. */
  predicate Enriches(source: Source, size: int) {
    source.Loaded? && ValidCpfs(Rows(source)) != [] && size != 0
  }

  lemma {:induction false} OneTerminalIsLast(t: seq<Event>)
    requires t != [] && Terminals(t) == 1 && IsTerminal(t[|t| - 1])
    ensures forall l :: 0 <= l < |t| - 1 ==> !IsTerminal(t[l])
  {
    if |t| > 1 {
      assert t[1..][|t| - 2] == t[|t| - 1];
      TerminalCounted(t[1..], |t| - 2);
      OneTerminalIsLast(t[1..]);
      forall l | 1 <= l < |t| - 1 ensures !IsTerminal(t[l]) {
        assert t[l] == t[1..][l - 1];
      }
    }
  }

  lemma EndTrace(table: seq<FinalRow>)
    ensures var t := [Progress(100), Finished(table)];
      && ProgressValues(t) == [100] && BatchPayloads(t) == [] && SingleCpfs(t) == [] && Terminals(t) == 1
  {
    SingleEvent(Progress(100));
    SingleEvent(Finished(table));
    assert [Progress(100), Finished(table)] == [Progress(100)] + [Finished(table)];
    TraceAppend([Progress(100)], [Finished(table)]);
  }

  lemma FinishTrace(rows: seq<NormRow>, results: seq<LookupResult>, hash: string -> string)
    ensures var t := Finish(rows, results, hash);
      && ProgressValues(t) == [100] && BatchPayloads(t) == [] && SingleCpfs(t) == [] && Terminals(t) == 1
  {
    EndTrace(MergeTable(rows, results, hash));
  }

  /** A trace with a terminal signal in it counts at least one. */
  lemma {:induction false} TerminalCounted(t: seq<Event>, l: nat)
    requires l < |t| && IsTerminal(t[l])
    ensures Terminals(t) >= 1
  {
    if l > 0 {
      assert t[1..][l - 1] == t[l];
      TerminalCounted(t[1..], l - 1);
    }
  }

  /** The views of a run from the loop on are those of the loop, followed by those of the merge. */
  lemma CompleteTrace(rows: seq<NormRow>, bs: seq<seq<string>>, env: Env, hash: string -> string)
    ensures var r := Complete(rows, bs, env, hash); var p := Enrich(bs, 0, 0, [], env);
      && r.cancelled == p.cancelled
      && (r.cancelled ==> r.trace == p.trace)
      && (!r.cancelled ==>
            && ProgressValues(r.trace) == ProgressValues(p.trace) + [100]
            && BatchPayloads(r.trace) == BatchPayloads(p.trace)
            && SingleCpfs(r.trace) == SingleCpfs(p.trace)
            && Terminals(r.trace) == Terminals(p.trace) + 1
            && r.trace[|r.trace| - 1] == Finished(MergeTable(rows, p.results, hash)))
  {
    var p := Enrich(bs, 0, 0, [], env);
    FinishTrace(rows, p.results, hash);
    TraceAppend(p.trace, Finish(rows, p.results, hash));
  }

  /** The three runs that never reach the loop. */
  lemma ShortRuns(source: Source, size: int, env: Env, hash: string -> string)
    requires !Enriches(source, size)
    ensures var r := RunSpec(source, size, env, hash);
      && !r.cancelled
      && BatchPayloads(r.trace) == [] && SingleCpfs(r.trace) == [] && Terminals(r.trace) == 1
      && r.trace != [] && IsTerminal(r.trace[|r.trace| - 1])
      && (source.Loaded? && ValidCpfs(Rows(source)) == [] ==> ProgressValues(r.trace) == [100, 100])
      && (source.Unreadable? || ValidCpfs(Rows(source)) != [] ==> ProgressValues(r.trace) == [])
      && (source.Unreadable? ==> r.trace == [Error(source.message)])
      && (source.Loaded? && ValidCpfs(Rows(source)) != [] && size == 0 ==> r.trace == [Error(ZeroStepMessage)])
      && (source.Loaded? && ValidCpfs(Rows(source)) == [] ==>
            r.trace[|r.trace| - 1] == Finished(MergeTable(Rows(source), [], hash)))
  {
    var r := RunSpec(source, size, env, hash);
    if source.Loaded? && ValidCpfs(Rows(source)) == [] {
      var rows := Rows(source);
      FinishTrace(rows, [], hash);
      assert [Progress(100)][1..] == [];
      TraceAppend([Progress(100)], Finish(rows, [], hash));
    }
  }

  /** The progress of a run that never reaches the loop: none, or 100 twice when no CPF is valid. */
  lemma ShortProgress(source: Source, size: int, env: Env, hash: string -> string)
    requires !Enriches(source, size)
    ensures var r := RunSpec(source, size, env, hash); var pv := ProgressValues(r.trace);
      && !r.cancelled
      && (pv == [] || pv == [100, 100])
      && (source.Loaded? && ValidCpfs(Rows(source)) == [] ==> pv == [100, 100])
  {
    ShortRuns(source, size, env, hash);
  }

  /** A run that reaches the loop is the loop followed by the merge. */
  lemma LongRun(source: Source, size: int, env: Env, hash: string -> string)
    requires Enriches(source, size)
    ensures RunSpec(source, size, env, hash) == Complete(Rows(source), Batches(ValidCpfs(Rows(source)), size), env, hash)
  {
  }

  /** Every run ends with exactly one `finished` or `error` signal, and emits nothing after it. */
  lemma RunEndsOnce(source: Source, size: int, env: Env, hash: string -> string)
    ensures var t := RunSpec(source, size, env, hash).trace;
      && t != [] && Terminals(t) == 1 && IsTerminal(t[|t| - 1])
      && forall l :: 0 <= l < |t| - 1 ==> !IsTerminal(t[l])
  {
    var t := RunSpec(source, size, env, hash).trace;
    if Enriches(source, size) {
      var rows := Rows(source);
      var bs := Batches(ValidCpfs(rows), size);
      LongRun(source, size, env, hash);
      EnrichTerminal(bs, 0, 0, [], env);
      CompleteTrace(rows, bs, env, hash);
      if Complete(rows, bs, env, hash).cancelled {
        assert t[|t| - 1] == CancelTail[1];
      }
    } else {
      ShortRuns(source, size, env, hash);
    }
    OneTerminalIsLast(t);
  }

  /**
    From the loop on, progress stays within 0..100; without a cancel it never goes down and
    ends at 100; with one it ends at 0.
  */
  lemma CompleteProgress(rows: seq<NormRow>, bs: seq<seq<string>>, env: Env, hash: string -> string)
    ensures var r := Complete(rows, bs, env, hash); var pv := ProgressValues(r.trace);
      && (forall l :: 0 <= l < |pv| ==> 0 <= pv[l] <= 100)
      && (!r.cancelled ==> forall a, b :: 0 <= a <= b < |pv| ==> pv[a] <= pv[b])
      && pv != [] && pv[|pv| - 1] == (if r.cancelled then 0 else 100)
  {
    var n := |bs|;
    EnrichProgress(bs, 0, 0, [], env);
    CompleteTrace(rows, bs, env, hash);
    var p := Enrich(bs, 0, 0, [], env);
    if p.cancelled {
      var j :| 0 <= j < n && ProgressValues(p.trace) == Pcts(0, j, n) + [0];
      RisingThen(Pcts(0, j, n), 0);
    } else {
      RisingThen(Pcts(0, n, n), 100);
    }
  }

  /** Values in 0..100 followed by `last`: all in 0..100, and non-decreasing when `last` is 100. */
  lemma RisingThen(ps: seq<int>, last: int)
    requires (exists i, j, n :: i <= j <= n && ps == Pcts(i, j, n)) && 0 <= last <= 100
    ensures var pv := ps + [last];
      && (forall l :: 0 <= l < |pv| ==> 0 <= pv[l] <= 100)
      && (last == 100 ==> forall a, b :: 0 <= a <= b < |pv| ==> pv[a] <= pv[b])
      && pv[|pv| - 1] == last
  {
    var i, j, n :| i <= j <= n && ps == Pcts(i, j, n);
    PctsRising(i, j, n);
  }

  /**
    Progress stays within 0..100. A run that is not cancelled reports non-decreasing progress,
    and ends at 100 unless it failed; a cancelled one reports 0 last.
  */
  lemma RunProgress(source: Source, size: int, env: Env, hash: string -> string)
    ensures var r := RunSpec(source, size, env, hash); var pv := ProgressValues(r.trace);
      && (forall l :: 0 <= l < |pv| ==> 0 <= pv[l] <= 100)
      && (!r.cancelled ==> forall a, b :: 0 <= a <= b < |pv| ==> pv[a] <= pv[b])
      && (source.Loaded? && !r.cancelled && (size != 0 || ValidCpfs(Rows(source)) == []) ==>
            pv != [] && pv[|pv| - 1] == 100)
      && (r.cancelled ==> pv != [] && pv[|pv| - 1] == 0)
  {
    if Enriches(source, size) {
      LongRun(source, size, env, hash);
      CompleteProgress(Rows(source), Batches(ValidCpfs(Rows(source)), size), env, hash);
    } else {
      ShortProgress(source, size, env, hash);
    }
  }

  /**
    From the loop on: a cancelled run has seen the flag at some checkpoint and ends with
    progress 0 and an empty `finished`; with the flag set from the start and a batch to send,
    that is all it emits.
  */
  lemma CompleteCancelled(rows: seq<NormRow>, bs: seq<seq<string>>, env: Env, hash: string -> string)
    ensures var r := Complete(rows, bs, env, hash);
      && (r.cancelled ==> exists j :: env.CancelSeen(j))
      && (r.cancelled ==> |r.trace| >= 2 && r.trace[|r.trace| - 2..] == CancelTail)
      && (env.flagAtStart && bs != [] ==> r.cancelled && r.trace == CancelTail)
  {
    EnrichTerminal(bs, 0, 0, [], env);
    EnrichChecks(bs, 0, 0, [], env);
    var p := Enrich(bs, 0, 0, [], env);
    if p.cancelled {
      assert env.CancelSeen(p.checks - 1);
    }
  }

  /**
    A run stops on the cancel flag only after a checkpoint of the loop saw it, and then ends with
    progress 0 and `finished` with an empty table; with the flag set before the run starts, a
    run that has batches to send emits exactly that and makes no lookup.
  */
  lemma RunCancelled(source: Source, size: int, env: Env, hash: string -> string)
    ensures var r := RunSpec(source, size, env, hash);
      && (r.cancelled ==> Enriches(source, size) && exists j :: env.CancelSeen(j))
      && (r.cancelled ==> |r.trace| >= 2 && r.trace[|r.trace| - 2..] == CancelTail)
      && (env.flagAtStart && Enriches(source, size) && size > 0 ==> r.cancelled && r.trace == CancelTail)
  {
    if Enriches(source, size) {
      LongRun(source, size, env, hash);
      CompleteCancelled(Rows(source), Batches(ValidCpfs(Rows(source)), size), env, hash);
    } else {
      ShortRuns(source, size, env, hash);
    }
  }

  /**
    From the loop on, every CPF sent to the service comes from a batch; a run that is not
    cancelled sends the batches themselves, once each, in order.
  */
  lemma CompleteQueries(rows: seq<NormRow>, bs: seq<seq<string>>, env: Env, hash: string -> string)
    ensures var r := Complete(rows, bs, env, hash);
      && (forall b :: b in BatchPayloads(r.trace) ==> b in bs)
      && (forall c :: c in SingleCpfs(r.trace) ==> exists l :: 0 <= l < |bs| && c in bs[l])
      && (!r.cancelled ==> BatchPayloads(r.trace) == bs)
  {
    EnrichQueries(bs, 0, 0, [], env);
    CompleteTrace(rows, bs, env, hash);
    assert bs[0..] == bs;
  }

  /**
    Every CPF sent to the service, in a batch or alone, is a valid CPF of the table, and every
    batch holds between 1 and `size` CPFs. When the run is not cancelled and the size is positive,
    the batches it sends, put together in order, are the valid-CPF list.
  */
  lemma RunQueries(source: Source, size: int, env: Env, hash: string -> string)
    ensures var r := RunSpec(source, size, env, hash);
      && (forall b, c :: b in BatchPayloads(r.trace) && c in b ==>
            source.Loaded? && c in ValidCpfs(Rows(source)) && IsValid(c))
      && (forall c :: c in SingleCpfs(r.trace) ==> source.Loaded? && c in ValidCpfs(Rows(source)) && IsValid(c))
      && (forall b :: b in BatchPayloads(r.trace) ==> 0 < |b| <= size)
      && (!r.cancelled && source.Loaded? && size > 0 ==> Flatten(BatchPayloads(r.trace)) == ValidCpfs(Rows(source)))
  {
    if Enriches(source, size) {
      var r := RunSpec(source, size, env, hash);
      var cpfs := ValidCpfs(Rows(source));
      var bs := Batches(cpfs, size);
      LongRun(source, size, env, hash);
      CompleteQueries(Rows(source), bs, env, hash);
      ValidCpfsOfTable(source.raws);
      forall b, c | b in BatchPayloads(r.trace) && c in b ensures c in cpfs {
        var l :| 0 <= l < |bs| && bs[l] == b;
        ChunkMember(cpfs, size, l, c);
      }
      forall c | c in SingleCpfs(r.trace) ensures c in cpfs {
        var l :| 0 <= l < |bs| && c in bs[l];
        ChunkMember(cpfs, size, l, c);
      }
      if size > 0 {
        ChunkFlatten(cpfs, size);
      }
    } else {
      ShortRuns(source, size, env, hash);
    }
  }

  /** A cancel request before checkpoint `j` bounds the lookups of the whole run to `j`. */
  lemma RunCancelBound(source: Source, size: int, env: Env, hash: string -> string, j: nat)
    requires env.CancelSeen(j)
    ensures Queries(RunSpec(source, size, env, hash).trace) <= j
  {
    if Enriches(source, size) {
      var bs := Batches(ValidCpfs(Rows(source)), size);
      LongRun(source, size, env, hash);
      EnrichCancelBound(bs, 0, 0, [], env, j);
      CompleteTrace(Rows(source), bs, env, hash);
    } else {
      ShortRuns(source, size, env, hash);
    }
  }

  /** From the loop on, a run that is not cancelled finishes with the merge of what every batch yields. */
  lemma CompleteTable(rows: seq<NormRow>, bs: seq<seq<string>>, env: Env, hash: string -> string)
    ensures var r := Complete(rows, bs, env, hash);
      !r.cancelled ==> r.trace != [] && r.trace[|r.trace| - 1] == Finished(MergeTable(rows, EnrichYield(bs, env.service), hash))
  {
    EnrichResults(bs, 0, 0, [], env);
    CompleteTrace(rows, bs, env, hash);
    var p := Enrich(bs, 0, 0, [], env);
    if !p.cancelled {
      assert bs[0..] == bs;
      assert p.results == [] + EnrichYield(bs, env.service) == EnrichYield(bs, env.service);
    }
  }

  /**
    A run that is not cancelled and reaches the loop finishes with the merge of the table and
    what every batch yields, in batch order: the batch's list, or its fallback's successes.
  */
  lemma RunSuccessTable(source: Source, size: int, env: Env, hash: string -> string)
    requires Enriches(source, size)
    ensures var r := RunSpec(source, size, env, hash);
      !r.cancelled ==>
        r.trace != [] &&
        r.trace[|r.trace| - 1] ==
          Finished(MergeTable(Rows(source), EnrichYield(Batches(ValidCpfs(Rows(source)), size), env.service), hash))
  {
    LongRun(source, size, env, hash);
    CompleteTable(Rows(source), Batches(ValidCpfs(Rows(source)), size), env, hash);
  }
}
