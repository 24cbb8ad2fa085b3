/**
  The worker object itself: its batch size, its cancel flag, and `run` as loops that poll the
  flag, call the service and emit signals, each proved to follow the reference definitions
  of the Pipeline and Enrichment modules.
*/
module Worker {
  import opened Wrappers
  import opened Normalizer
  import opened Merge
  import opened Enrichment
  import opened Pipeline

  class ProcessWorker {
    /** `lote_size`: how many CPFs go in one batch request. */
    const batchSize: int
    /** `_is_cancelled`: set by `cancel`, polled by `run`. */
    var isCancelled: bool
    /** The signals emitted and the lookups made so far, in order. */
    var events: seq<Event>

    constructor (batchSize: int := 10)
      ensures this.batchSize == batchSize && !isCancelled && events == []
    {
      this.batchSize := batchSize;
      isCancelled := false;
      events := [];
    }

    /** `cancel`: raise the flag; the run stops at its next checkpoint. */
    method Cancel()
      modifies this`isCancelled
      ensures isCancelled
    {
      isCancelled := true;
    }

    /** Checkpoint `k`: a `cancel` requested just before it takes effect, then the flag is polled. */
    method Checkpoint(env: Env, k: nat) returns (seen: bool)
      requires isCancelled == env.flagAtStart
      modifies this`isCancelled
      ensures seen == env.CancelSeen(k) && isCancelled == seen
    {
      if k < |env.requests| && env.requests[k] {
        Cancel();
      }
      seen := isCancelled;
    }

    /**
      The fallback after a failed batch, from checkpoint `k0` with the results `acc`: for each
      CPF, poll the flag, GET the single-CPF endpoint and append what it returns; on the flag,
      emit progress 0 and an empty `finished` and discard everything.
    */
    method LookUpEach(batch: seq<string>, env: Env, k0: nat, acc: seq<LookupResult>)
      returns (k: nat, results: seq<LookupResult>, cancelled: bool)
      requires isCancelled == env.flagAtStart
      modifies this`isCancelled, this`events
      ensures var f := Fallback(batch, k0, acc, env);
        && events == old(events) + f.trace
        && k == f.checks && results == f.results && cancelled == f.cancelled
        && isCancelled == (env.flagAtStart || cancelled)
    {
      k, results, cancelled := k0, acc, false;
      var j := 0;
      while j < |batch|
        invariant 0 <= j <= |batch|
        invariant isCancelled == env.flagAtStart
        invariant var f0 := Fallback(batch, k0, acc, env); var f := Fallback(batch[j..], k, results, env);
          && f0.results == f.results && f0.checks == f.checks && f0.cancelled == f.cancelled
          && old(events) + f0.trace == events + f.trace
      {
        ghost var before, f := events, Fallback(batch[j..], k, results, env);
        var seen := Checkpoint(env, k);
        if seen {
          assert f == Pass(CancelTail, [], k + 1, true);
          events := events + CancelTail;
          return k + 1, [], true;
        }
        var cpf := batch[j];
        ghost var next := results + Found(cpf, env.service.single(cpf));
        assert batch[j..][0] == cpf && batch[j..][1..] == batch[j + 1..];
        ghost var rest := Fallback(batch[j + 1..], k + 1, next, env);
        assert f == rest.(trace := [SingleQuery(cpf)] + rest.trace);
        events := events + [SingleQuery(cpf)];
        match env.service.single(cpf) {
          case Success(user) =>
            results := results + [LookupResult(cpf, user.id, user.name)];
          case Failure =>
        }
        assert results == next;
        AppendAssoc(before, [SingleQuery(cpf)], rest.trace);
        k := k + 1;
        j := j + 1;
      }
      assert batch[j..] == [];
    }

    /**
      One turn of the batch loop once its checkpoint has passed: send batch `i`, on failure fall
      back to one lookup per CPF, then report progress unless the fallback saw the flag.
    */
    method LookUpBatch(batches: seq<seq<string>>, i: nat, env: Env, k0: nat, acc: seq<LookupResult>)
      returns (k: nat, results: seq<LookupResult>, cancelled: bool)
      requires i < |batches| && isCancelled == env.flagAtStart
      modifies this`isCancelled, this`events
      ensures var s := Step(batches, i, k0, acc, env);
        && events == old(events) + s.trace
        && k == s.checks && results == s.results && cancelled == s.cancelled
        && isCancelled == (env.flagAtStart || cancelled)
    {
      var batch := batches[i];
      events := events + [BatchQuery(batch)];
      match env.service.batch(batch) {
        case Success(rs) =>
          k, results, cancelled := k0 + 1, acc + rs, false;
        case Failure =>
          k, results, cancelled := LookUpEach(batch, env, k0 + 1, acc);
          if cancelled {
            return;
          }
      }
      events := events + [Progress(Percent(i + 1, |batches|))];
    }

    /**
      The loop over the batches: poll the flag, then take the batch's turn; on the flag, emit
      progress 0 and an empty `finished`.
    */
    method LookUpBatches(batches: seq<seq<string>>, env: Env) returns (results: seq<LookupResult>, cancelled: bool)
      requires isCancelled == env.flagAtStart
      modifies this`isCancelled, this`events
      ensures var p := Enrich(batches, 0, 0, [], env);
        && events == old(events) + p.trace
        && results == p.results && cancelled == p.cancelled
        && isCancelled == (env.flagAtStart || cancelled)
    {
      results, cancelled := [], false;
      var i, k := 0, 0;
      while i < |batches|
        invariant 0 <= i <= |batches|
        invariant isCancelled == env.flagAtStart
        invariant var p0 := Enrich(batches, 0, 0, [], env); var p := Enrich(batches, i, k, results, env);
          && p0.results == p.results && p0.cancelled == p.cancelled
          && old(events) + p0.trace == events + p.trace
      {
        ghost var before, p, s := events, Enrich(batches, i, k, results, env), Step(batches, i, k, results, env);
        var seen := Checkpoint(env, k);
        if seen {
          assert p == Pass(CancelTail, [], k + 1, true);
          events := events + CancelTail;
          return [], true;
        }
        k, results, cancelled := LookUpBatch(batches, i, env, k, results);
        if cancelled {
          assert p == s;
          return;
        }
        ghost var rest := Enrich(batches, i + 1, k, results, env);
        assert p == rest.(trace := s.trace + rest.trace);
        AppendAssoc(before, s.trace, rest.trace);
        i := i + 1;
      }
    }

    /**
      The run from the batch loop on: look the batches up, then, unless the loop was cancelled,
      report progress 100 and emit `finished` with the merged table.
    */
    method LookUpAndMerge(rows: seq<NormRow>, batches: seq<seq<string>>, env: Env, hash: string -> string)
      requires isCancelled == env.flagAtStart
      modifies this`isCancelled, this`events
      ensures var c := Complete(rows, batches, env, hash);
        && events == old(events) + c.trace
        && isCancelled == (env.flagAtStart || c.cancelled)
    {
      var results, cancelled := LookUpBatches(batches, env);
      if !cancelled {
        events := events + Finish(rows, results, hash);
      }
    }

    /**
      `run`: read the table, normalise it, look the valid CPFs up in batches, merge, and emit
      progress and `finished`, or `error` when reading fails or the batch size is zero. `requests`
      says when `cancel` is called during the run; `hash` is SHA-256 as a hex string.
    */
    method Run(source: Source, requests: seq<bool>, service: Service, hash: string -> string)
      modifies this`isCancelled, this`events
      ensures var r := RunSpec(source, batchSize, Env(old(isCancelled), requests, service), hash);
        && events == old(events) + r.trace
        && isCancelled == (old(isCancelled) || r.cancelled)
    {
      var env := Env(isCancelled, requests, service);
      match source {
        case Unreadable(message) =>
          events := events + [Error(message)];
        case Loaded(raws) =>
          var rows := NormaliseTable(raws);
          var cpfs := ValidCpfs(rows);
          if |cpfs| == 0 {
            events := events + [Progress(100)];
            events := events + Finish(rows, [], hash);
          } else if batchSize == 0 {
            events := events + [Error(ZeroStepMessage)];
          } else {
            LookUpAndMerge(rows, Batches(cpfs, batchSize), env, hash);
          }
      }
    }
  }
}
