/**
  The enrichment loop of `ProcessWorker.run`, as specification functions over a trace of
  events: for each batch, a cancel check, the batch lookup, on failure one lookup per CPF
  (each after its own cancel check), and a progress report after the batch.
*/
module Enrichment {
  import opened Wrappers
  import opened Normalizer
  import opened Batching
  import opened Merge

  /** The body of the single-CPF endpoint: `resp.get('id')` and `resp.get('name')`. */
  datatype UserInfo = UserInfo(id: Cell, name: Cell)

  /**
    The lookup service as the worker sees it. `batch` is `consultar_cpf_em_lote`: Failure stands
    for every exception it raises or causes (a non-200 status, `extend(None)`, a timeout, a body
    without 'users' entries of the expected shape). `single` is the fallback GET followed by
    `resp.json()`: Failure stands for every exception there.
  */
  datatype Service = Service(batch: seq<string> -> Outcome<seq<LookupResult>>, single: string -> Outcome<UserInfo>)

  /**
    What a run depends on besides its input table: the cancel flag when the run starts, the
    moments at which `cancel()` is called (`requests[k]`: called just before checkpoint `k`,
    checkpoints numbered from 0 in the order the run polls the flag) and the service.
  */
  datatype Env = Env(flagAtStart: bool, requests: seq<bool>, service: Service) {

    predicate Requested(k: nat) {
      k < |requests| && requests[k]
    }

    /** The flag as polled at checkpoint `k` (a run ends at the first checkpoint that sees it set). */
    predicate CancelSeen(k: nat) {
      flagAtStart || Requested(k)
    }
  }

  /** What a run does that its caller can observe: the signals it emits and the lookups it makes. */
  datatype Event =
    | Progress(percent: int)
    | Finished(table: seq<FinalRow>)
    | Error(message: string)
    | BatchQuery(cpfs: seq<string>)
    | SingleQuery(cpf: string)

  predicate IsTerminal(e: Event) {
    e.Finished? || e.Error?
  }

  /** What a run emits when it sees the cancel flag: progress 0, then `finished` with an empty table. */
  const CancelTail: seq<Event> := [Progress(0), Finished([])]

  /** `min(100, int(idx / total * 100))`, in integer arithmetic. */
  function Percent(done: nat, total: nat): (p: int)
    requires total > 0
    ensures 0 <= p <= 100
  {
    Min(100, done * 100 / total)
  }

  /** Progress never goes down as more batches are done. */
  lemma PercentMonotone(a: nat, b: nat, total: nat)
    requires total > 0 && a <= b
    ensures Percent(a, total) <= Percent(b, total)
  {
    assert a * 100 <= b * 100;
    DivMonotone(a * 100, b * 100, total);
  }

  lemma MulLtCancel(a: int, b: int, d: int)
    requires d > 0 && a * d < b * d
    ensures a < b
  {
  }

  lemma DivMonotone(x: nat, y: nat, d: nat)
    requires d > 0 && x <= y
    ensures x / d <= y / d
  {
    var qx, qy := x / d, y / d;
    assert qx * d <= x;
    assert y < (qy + 1) * d;
    MulLtCancel(qx, qy + 1, d);
  }

  /** Progress is 100 once every batch is done. */
  lemma PercentComplete(total: nat)
    requires total > 0
    ensures Percent(total, total) == 100
  {
    assert total * 100 == 100 * total;
  }

  /** The progress values reported after batches `i+1 .. j` of `n`. */
  function Pcts(i: nat, j: nat, n: nat): seq<int>
    requires j <= n
    decreases j - i
  {
    if i >= j then [] else [Percent(i + 1, n)] + Pcts(i + 1, j, n)
  }

  /** The state of the enrichment loop where a specification function leaves it. */
  datatype Pass = Pass(trace: seq<Event>, results: seq<LookupResult>, checks: nat, cancelled: bool)

  /** The result a fallback lookup appends: `{cpf: queried CPF, userID: id, name: name}`, or nothing on failure. */
  function Found(cpf: string, reply: Outcome<UserInfo>): seq<LookupResult> {
    match reply
    case Success(u) => [LookupResult(cpf, u.id, u.name)]
    case Failure => []
  }

  function SingleQueries(cpfs: seq<string>): seq<Event> {
    if cpfs == [] then [] else [SingleQuery(cpfs[0])] + SingleQueries(cpfs[1..])
  }

  /**
    The fallback over the CPFs of a failed batch, starting at checkpoint `k` with the results
    `acc` gathered so far: check the flag, look the CPF up, append what it gives.
  */
  function Fallback(batch: seq<string>, k: nat, acc: seq<LookupResult>, env: Env): Pass
    decreases |batch|
  {
    if batch == [] then Pass([], acc, k, false)
    else if env.CancelSeen(k) then Pass(CancelTail, [], k + 1, true)
    else
      var p := Fallback(batch[1..], k + 1, acc + Found(batch[0], env.service.single(batch[0])), env);
      p.(trace := [SingleQuery(batch[0])] + p.trace)
  }

  /**
    One turn of the loop, after its cancel check has passed: the batch lookup, and on failure the
    fallback; then the progress report, unless the fallback was cancelled.
  */
  function Step(batches: seq<seq<string>>, i: nat, k: nat, acc: seq<LookupResult>, env: Env): Pass
    requires i < |batches|
  {
    var done := [Progress(Percent(i + 1, |batches|))];
    match env.service.batch(batches[i])
    case Success(rs) => Pass([BatchQuery(batches[i])] + done, acc + rs, k + 1, false)
    case Failure =>
      var f := Fallback(batches[i], k + 1, acc, env);
      if f.cancelled then f.(trace := [BatchQuery(batches[i])] + f.trace)
      else f.(trace := [BatchQuery(batches[i])] + f.trace + done)
  }

  /** The loop over the batches from batch `i`, at checkpoint `k`, with the results `acc` gathered so far. */
  function Enrich(batches: seq<seq<string>>, i: nat, k: nat, acc: seq<LookupResult>, env: Env): Pass
    decreases |batches| - i
  {
    if i >= |batches| then Pass([], acc, k, false)
    else if env.CancelSeen(k) then Pass(CancelTail, [], k + 1, true)
    else
      var s := Step(batches, i, k, acc, env);
      if s.cancelled then s
      else
        var p := Enrich(batches, i + 1, s.checks, s.results, env);
        p.(trace := s.trace + p.trace)
  }

  /** Reference definition of what the fallback yields: one result per CPF whose lookup succeeds, in order. */
  function FallbackYield(batch: seq<string>, service: Service): seq<LookupResult> {
    if batch == [] then [] else Found(batch[0], service.single(batch[0])) + FallbackYield(batch[1..], service)
  }

  /** What one batch yields: the batch lookup's whole list, or the fallback's results when it fails. */
  function BatchYield(batch: seq<string>, service: Service): seq<LookupResult> {
    match service.batch(batch)
    case Success(rs) => rs
    case Failure => FallbackYield(batch, service)
  }

  function EnrichYield(batches: seq<seq<string>>, service: Service): seq<LookupResult> {
    if batches == [] then [] else BatchYield(batches[0], service) + EnrichYield(batches[1..], service)
  }

  // Views of a trace: each keeps, in order, what one kind of event contributes.

  function ProgressValues(t: seq<Event>): seq<int> {
    if t == [] then [] else (if t[0].Progress? then [t[0].percent] else []) + ProgressValues(t[1..])
  }

  function BatchPayloads(t: seq<Event>): seq<seq<string>> {
    if t == [] then [] else (if t[0].BatchQuery? then [t[0].cpfs] else []) + BatchPayloads(t[1..])
  }

  function SingleCpfs(t: seq<Event>): seq<string> {
    if t == [] then [] else (if t[0].SingleQuery? then [t[0].cpf] else []) + SingleCpfs(t[1..])
  }

  function Terminals(t: seq<Event>): nat {
    if t == [] then 0 else (if IsTerminal(t[0]) then 1 else 0) + Terminals(t[1..])
  }

  /** The number of lookups (batch or single) in a trace. */
  function Queries(t: seq<Event>): nat {
    |BatchPayloads(t)| + |SingleCpfs(t)|
  }

  lemma {:induction false} ProgressAppend(a: seq<Event>, b: seq<Event>)
    ensures ProgressValues(a + b) == ProgressValues(a) + ProgressValues(b)
  {
    if a == [] {
      assert a + b == b;
    } else {
      var ab := a + b;
      var h := if a[0].Progress? then [a[0].percent] else [];
      assert ab[0] == a[0] && ab[1..] == a[1..] + b;
      calc {
        ProgressValues(ab);
        h + ProgressValues(a[1..] + b);
        { ProgressAppend(a[1..], b); }
        h + (ProgressValues(a[1..]) + ProgressValues(b));
        (h + ProgressValues(a[1..])) + ProgressValues(b);
      }
    }
  }

  lemma {:induction false} PayloadsAppend(a: seq<Event>, b: seq<Event>)
    ensures BatchPayloads(a + b) == BatchPayloads(a) + BatchPayloads(b)
  {
    if a == [] {
      assert a + b == b;
    } else {
      var ab := a + b;
      var h := if a[0].BatchQuery? then [a[0].cpfs] else [];
      assert ab[0] == a[0] && ab[1..] == a[1..] + b;
      calc {
        BatchPayloads(ab);
        h + BatchPayloads(a[1..] + b);
        { PayloadsAppend(a[1..], b); }
        h + (BatchPayloads(a[1..]) + BatchPayloads(b));
        (h + BatchPayloads(a[1..])) + BatchPayloads(b);
      }
    }
  }

  lemma {:induction false} SinglesAppend(a: seq<Event>, b: seq<Event>)
    ensures SingleCpfs(a + b) == SingleCpfs(a) + SingleCpfs(b)
  {
    if a == [] {
      assert a + b == b;
    } else {
      var ab := a + b;
      var h := if a[0].SingleQuery? then [a[0].cpf] else [];
      assert ab[0] == a[0] && ab[1..] == a[1..] + b;
      calc {
        SingleCpfs(ab);
        h + SingleCpfs(a[1..] + b);
        { SinglesAppend(a[1..], b); }
        h + (SingleCpfs(a[1..]) + SingleCpfs(b));
        (h + SingleCpfs(a[1..])) + SingleCpfs(b);
      }
    }
  }

  lemma {:induction false} TerminalsAppend(a: seq<Event>, b: seq<Event>)
    ensures Terminals(a + b) == Terminals(a) + Terminals(b)
  {
    if a == [] {
      assert a + b == b;
    } else {
      var ab := a + b;
      var h := if IsTerminal(a[0]) then 1 else 0;
      assert ab[0] == a[0] && ab[1..] == a[1..] + b;
      calc {
        Terminals(ab);
        h + Terminals(a[1..] + b);
        { TerminalsAppend(a[1..], b); }
        h + (Terminals(a[1..]) + Terminals(b));
        (h + Terminals(a[1..])) + Terminals(b);
      }
    }
  }

  /** Every view of a trace is a filter, so it distributes over concatenation. */
  lemma TraceAppend(a: seq<Event>, b: seq<Event>)
    ensures ProgressValues(a + b) == ProgressValues(a) + ProgressValues(b)
    ensures BatchPayloads(a + b) == BatchPayloads(a) + BatchPayloads(b)
    ensures SingleCpfs(a + b) == SingleCpfs(a) + SingleCpfs(b)
    ensures Terminals(a + b) == Terminals(a) + Terminals(b)
  {
    ProgressAppend(a, b);
    PayloadsAppend(a, b);
    SinglesAppend(a, b);
    TerminalsAppend(a, b);
  }

  lemma {:induction false} SingleQueriesTrace(cpfs: seq<string>)
    ensures ProgressValues(SingleQueries(cpfs)) == [] && BatchPayloads(SingleQueries(cpfs)) == []
    ensures SingleCpfs(SingleQueries(cpfs)) == cpfs && Terminals(SingleQueries(cpfs)) == 0
  {
    if cpfs != [] {
      SingleQueriesTrace(cpfs[1..]);
      TraceAppend([SingleQuery(cpfs[0])], SingleQueries(cpfs[1..]));
    }
  }

  lemma CancelTailTrace()
    ensures ProgressValues(CancelTail) == [0] && BatchPayloads(CancelTail) == []
    ensures SingleCpfs(CancelTail) == [] && Terminals(CancelTail) == 1
  {
    assert CancelTail[1..][1..] == [];
  }

  /** A fallback that no checkpoint stops looks every CPF up, in order, and appends what succeeds. */
  lemma {:induction false} FallbackRunsThrough(batch: seq<string>, k: nat, acc: seq<LookupResult>, env: Env)
    ensures var p := Fallback(batch, k, acc, env);
      !p.cancelled ==>
        && p.trace == SingleQueries(batch)
        && p.results == acc + FallbackYield(batch, env.service)
        && p.checks == k + |batch|
        && forall j :: k <= j < k + |batch| ==> !env.CancelSeen(j)
    decreases |batch|
  {
    if batch != [] && !env.CancelSeen(k) {
      var acc' := acc + Found(batch[0], env.service.single(batch[0]));
      FallbackRunsThrough(batch[1..], k + 1, acc', env);
      assert acc' + FallbackYield(batch[1..], env.service) == acc + FallbackYield(batch, env.service);
    }
  }

  /** A fallback that a checkpoint stops has looked up the CPFs before it, and discards every result. */
  lemma {:induction false} FallbackStops(batch: seq<string>, k: nat, acc: seq<LookupResult>, env: Env)
    ensures var p := Fallback(batch, k, acc, env);
      p.cancelled ==>
        && k < p.checks <= k + |batch|
        && p.results == []
        && p.trace == SingleQueries(batch[..p.checks - k - 1]) + CancelTail
        && env.CancelSeen(p.checks - 1)
        && forall j :: k <= j < p.checks - 1 ==> !env.CancelSeen(j)
    decreases |batch|
  {
    if batch == [] {
    } else if env.CancelSeen(k) {
      assert batch[..0] == [];
    } else {
      var acc' := acc + Found(batch[0], env.service.single(batch[0]));
      FallbackStops(batch[1..], k + 1, acc', env);
      var p := Fallback(batch[1..], k + 1, acc', env);
      if p.cancelled {
        var m := p.checks - k - 1;
        assert batch[..m][1..] == batch[1..][..m - 1];
      }
    }
  }

  /**
    The fallback either looks every CPF of the batch up, in order, appending each success and
    skipping each failure, when no checkpoint of it sees the flag; or it stops at the first
    checkpoint that does, after looking up the CPFs before it, and discards every result.
  */
  lemma FallbackShape(batch: seq<string>, k: nat, acc: seq<LookupResult>, env: Env)
    ensures var p := Fallback(batch, k, acc, env);
      && (!p.cancelled ==>
            && p.trace == SingleQueries(batch)
            && p.results == acc + FallbackYield(batch, env.service)
            && p.checks == k + |batch|
            && forall j :: k <= j < k + |batch| ==> !env.CancelSeen(j))
      && (p.cancelled ==>
            && k < p.checks <= k + |batch|
            && p.results == []
            && p.trace == SingleQueries(batch[..p.checks - k - 1]) + CancelTail
            && env.CancelSeen(p.checks - 1)
            && forall j :: k <= j < p.checks - 1 ==> !env.CancelSeen(j))
  {
    FallbackRunsThrough(batch, k, acc, env);
    FallbackStops(batch, k, acc, env);
  }

  /** With no cancel request during the fallback, every CPF of the failed batch is looked up in order. */
  lemma FallbackCompletes(batch: seq<string>, k: nat, acc: seq<LookupResult>, env: Env)
    requires forall j :: k <= j < k + |batch| ==> !env.CancelSeen(j)
    ensures Fallback(batch, k, acc, env) ==
      Pass(SingleQueries(batch), acc + FallbackYield(batch, env.service), k + |batch|, false)
  {
    FallbackShape(batch, k, acc, env);
  }

  /** A cancel seen at the `m`-th fallback checkpoint stops it after `m` lookups and discards all results. */
  lemma FallbackCancels(batch: seq<string>, k: nat, acc: seq<LookupResult>, env: Env, m: nat)
    requires m < |batch| && env.CancelSeen(k + m)
    requires forall j :: k <= j < k + m ==> !env.CancelSeen(j)
    ensures Fallback(batch, k, acc, env) == Pass(SingleQueries(batch[..m]) + CancelTail, [], k + m + 1, true)
  {
    FallbackShape(batch, k, acc, env);
  }

  /** `r` is what a successful single lookup of `cpf` appends. */
  predicate YieldOf(r: LookupResult, cpf: string, service: Service) {
    service.single(cpf).Success? && r == LookupResult(cpf, service.single(cpf).value.id, service.single(cpf).value.name)
  }

  /** What the fallback yields: exactly the successful lookups, each under the CPF that was queried. */
  lemma {:induction false} FallbackYieldMembers(batch: seq<string>, service: Service)
    ensures forall r :: r in FallbackYield(batch, service) <==>
      exists i :: 0 <= i < |batch| && YieldOf(r, batch[i], service)
  {
    if batch != [] {
      FallbackYieldMembers(batch[1..], service);
      assert FallbackYield(batch, service) == Found(batch[0], service.single(batch[0])) + FallbackYield(batch[1..], service);
      forall r | r in FallbackYield(batch, service)
        ensures exists i :: 0 <= i < |batch| && YieldOf(r, batch[i], service)
      {
        if r !in Found(batch[0], service.single(batch[0])) {
          var i :| 0 <= i < |batch[1..]| && YieldOf(r, batch[1..][i], service);
          assert batch[1..][i] == batch[i + 1];
        }
      }
      forall r, i | 0 <= i < |batch| && YieldOf(r, batch[i], service)
        ensures r in FallbackYield(batch, service)
      {
        if i > 0 {
          assert batch[1..][i - 1] == batch[i];
        }
      }
    }
  }

  /** The views of a single event. */
  lemma SingleEvent(e: Event)
    ensures ProgressValues([e]) == (if e.Progress? then [e.percent] else [])
    ensures BatchPayloads([e]) == (if e.BatchQuery? then [e.cpfs] else [])
    ensures SingleCpfs([e]) == (if e.SingleQuery? then [e.cpf] else [])
    ensures Terminals([e]) == (if IsTerminal(e) then 1 else 0)
  {
    assert [e][1..] == [];
  }

  /** What a turn emits when its batch lookup succeeds: the request, then progress. */
  lemma BatchTurnViews(b: seq<string>, pct: int)
    ensures var t := [BatchQuery(b)] + [Progress(pct)];
      && ProgressValues(t) == [pct] && BatchPayloads(t) == [b] && SingleCpfs(t) == [] && Terminals(t) == 0
  {
    SingleEvent(BatchQuery(b));
    SingleEvent(Progress(pct));
    TraceAppend([BatchQuery(b)], [Progress(pct)]);
  }

  /** What a turn emits when its fallback runs to the end: the request, one lookup per CPF, then progress. */
  lemma FallbackTurnViews(b: seq<string>, pct: int)
    ensures var t := [BatchQuery(b)] + SingleQueries(b) + [Progress(pct)];
      && ProgressValues(t) == [pct] && BatchPayloads(t) == [b] && SingleCpfs(t) == b && Terminals(t) == 0
  {
    SingleEvent(BatchQuery(b));
    SingleEvent(Progress(pct));
    SingleQueriesTrace(b);
    TraceAppend([BatchQuery(b)], SingleQueries(b));
    TraceAppend([BatchQuery(b)] + SingleQueries(b), [Progress(pct)]);
  }

  /** The signals of a turn whose fallback sees the flag after `cpfs`: progress 0, then `finished`, last. */
  lemma CancelledTurnSignals(b: seq<string>, cpfs: seq<string>)
    ensures var t := [BatchQuery(b)] + (SingleQueries(cpfs) + CancelTail);
      && ProgressValues(t) == [0] && Terminals(t) == 1
      && |t| >= 2 && t[|t| - 2..] == CancelTail
  {
    var f := SingleQueries(cpfs) + CancelTail;
    SingleEvent(BatchQuery(b));
    SingleQueriesTrace(cpfs);
    CancelTailTrace();
    ProgressAppend(SingleQueries(cpfs), CancelTail);
    ProgressAppend([BatchQuery(b)], f);
    TerminalsAppend(SingleQueries(cpfs), CancelTail);
    TerminalsAppend([BatchQuery(b)], f);
    var t := [BatchQuery(b)] + f;
    assert t[|t| - 2..] == f[|f| - 2..] == CancelTail;
  }

  /** The lookups of a turn whose fallback sees the flag after `cpfs`: the batch, then those CPFs. */
  lemma CancelledTurnLookups(b: seq<string>, cpfs: seq<string>)
    ensures var t := [BatchQuery(b)] + (SingleQueries(cpfs) + CancelTail);
      BatchPayloads(t) == [b] && SingleCpfs(t) == cpfs
  {
    var f := SingleQueries(cpfs) + CancelTail;
    SingleEvent(BatchQuery(b));
    SingleQueriesTrace(cpfs);
    CancelTailTrace();
    PayloadsAppend(SingleQueries(cpfs), CancelTail);
    PayloadsAppend([BatchQuery(b)], f);
    SinglesAppend(SingleQueries(cpfs), CancelTail);
    SinglesAppend([BatchQuery(b)], f);
  }

  /** A turn whose batch lookup succeeds: one lookup, progress, and the batch's whole list appended. */
  lemma StepBatchSucceeds(bs: seq<seq<string>>, i: nat, k: nat, acc: seq<LookupResult>, env: Env)
    requires i < |bs| && env.service.batch(bs[i]).Success?
    ensures var s := Step(bs, i, k, acc, env);
      && !s.cancelled && s.checks == k + 1
      && s.results == acc + BatchYield(bs[i], env.service)
      && BatchPayloads(s.trace) == [bs[i]] && SingleCpfs(s.trace) == []
      && ProgressValues(s.trace) == [Percent(i + 1, |bs|)] && Terminals(s.trace) == 0
  {
    BatchTurnViews(bs[i], Percent(i + 1, |bs|));
  }

  /** A turn whose batch lookup fails and whose fallback runs to the end: every CPF looked up, then progress. */
  lemma StepFallbackCompletes(bs: seq<seq<string>>, i: nat, k: nat, acc: seq<LookupResult>, env: Env)
    requires i < |bs| && env.service.batch(bs[i]).Failure?
    requires !Fallback(bs[i], k + 1, acc, env).cancelled
    ensures var s := Step(bs, i, k, acc, env);
      && !s.cancelled && s.checks == k + 1 + |bs[i]|
      && (forall j :: k + 1 <= j < s.checks ==> !env.CancelSeen(j))
      && s.results == acc + BatchYield(bs[i], env.service)
      && BatchPayloads(s.trace) == [bs[i]] && SingleCpfs(s.trace) == bs[i]
      && ProgressValues(s.trace) == [Percent(i + 1, |bs|)] && Terminals(s.trace) == 0
  {
    FallbackRunsThrough(bs[i], k + 1, acc, env);
    FallbackTurnViews(bs[i], Percent(i + 1, |bs|));
  }

  /**
    A turn whose batch lookup fails and whose fallback sees the flag after `m` lookups: progress 0,
    `finished` with an empty table, no results.
  */
  lemma StepFallbackCancelled(bs: seq<seq<string>>, i: nat, k: nat, acc: seq<LookupResult>, env: Env)
    requires i < |bs| && env.service.batch(bs[i]).Failure?
    requires Fallback(bs[i], k + 1, acc, env).cancelled
    ensures var s := Step(bs, i, k, acc, env); var m := s.checks - k - 2;
      && s.cancelled && 0 <= m < |bs[i]|
      && (forall j :: k + 1 <= j < s.checks - 1 ==> !env.CancelSeen(j)) && env.CancelSeen(s.checks - 1)
      && s.results == []
      && BatchPayloads(s.trace) == [bs[i]] && SingleCpfs(s.trace) == bs[i][..m]
      && ProgressValues(s.trace) == [0] && Terminals(s.trace) == 1
      && |s.trace| >= 2 && s.trace[|s.trace| - 2..] == CancelTail
  {
    var b := bs[i];
    var f := Fallback(b, k + 1, acc, env);
    FallbackStops(b, k + 1, acc, env);
    assert Step(bs, i, k, acc, env) == f.(trace := [BatchQuery(b)] + f.trace);
    CancelledTurnSignals(b, b[..f.checks - k - 2]);
    CancelledTurnLookups(b, b[..f.checks - k - 2]);
  }

  /** What one turn appends: what its batch yields, or, when it is cancelled, nothing is kept. */
  lemma StepResults(bs: seq<seq<string>>, i: nat, k: nat, acc: seq<LookupResult>, env: Env)
    requires i < |bs|
    ensures var s := Step(bs, i, k, acc, env);
      && (!s.cancelled ==> s.results == acc + BatchYield(bs[i], env.service))
      && (s.cancelled ==> s.results == [])
  {
    if env.service.batch(bs[i]).Success? {
      StepBatchSucceeds(bs, i, k, acc, env);
    } else if Fallback(bs[i], k + 1, acc, env).cancelled {
      StepFallbackCancelled(bs, i, k, acc, env);
    } else {
      StepFallbackCompletes(bs, i, k, acc, env);
    }
  }

  /** What one turn reports: `Percent(i + 1, n)`, or 0 when it is cancelled. */
  lemma StepProgress(bs: seq<seq<string>>, i: nat, k: nat, acc: seq<LookupResult>, env: Env)
    requires i < |bs|
    ensures var s := Step(bs, i, k, acc, env);
      ProgressValues(s.trace) == if s.cancelled then [0] else [Percent(i + 1, |bs|)]
  {
    if env.service.batch(bs[i]).Success? {
      StepBatchSucceeds(bs, i, k, acc, env);
    } else if Fallback(bs[i], k + 1, acc, env).cancelled {
      StepFallbackCancelled(bs, i, k, acc, env);
    } else {
      StepFallbackCompletes(bs, i, k, acc, env);
    }
  }

  /** A turn emits a terminal signal only when it is cancelled, and then last, after progress 0. */
  lemma StepTerminal(bs: seq<seq<string>>, i: nat, k: nat, acc: seq<LookupResult>, env: Env)
    requires i < |bs|
    ensures var s := Step(bs, i, k, acc, env);
      && Terminals(s.trace) == (if s.cancelled then 1 else 0)
      && (s.cancelled ==> |s.trace| >= 2 && s.trace[|s.trace| - 2..] == CancelTail)
  {
    if env.service.batch(bs[i]).Success? {
      StepBatchSucceeds(bs, i, k, acc, env);
    } else if Fallback(bs[i], k + 1, acc, env).cancelled {
      StepFallbackCancelled(bs, i, k, acc, env);
    } else {
      StepFallbackCompletes(bs, i, k, acc, env);
    }
  }

  /**
    A turn makes one batch lookup and one checkpoint per single lookup (plus the stopping one),
    and no checkpoint of it before the last sees the flag.
  */
  lemma StepChecks(bs: seq<seq<string>>, i: nat, k: nat, acc: seq<LookupResult>, env: Env)
    requires i < |bs|
    ensures var s := Step(bs, i, k, acc, env); var stop := if s.cancelled then 1 else 0;
      && |BatchPayloads(s.trace)| == 1
      && k + 1 + |SingleCpfs(s.trace)| + stop == s.checks
      && (forall j :: k + 1 <= j < s.checks - stop ==> !env.CancelSeen(j))
      && (s.cancelled ==> env.CancelSeen(s.checks - 1))
  {
    if env.service.batch(bs[i]).Success? {
      StepBatchSucceeds(bs, i, k, acc, env);
    } else if Fallback(bs[i], k + 1, acc, env).cancelled {
      StepFallbackCancelled(bs, i, k, acc, env);
    } else {
      StepFallbackCompletes(bs, i, k, acc, env);
    }
  }

  /** A turn sends its own batch, and single lookups only for CPFs of that batch. */
  lemma StepQueries(bs: seq<seq<string>>, i: nat, k: nat, acc: seq<LookupResult>, env: Env)
    requires i < |bs|
    ensures var s := Step(bs, i, k, acc, env);
      && BatchPayloads(s.trace) == [bs[i]]
      && forall c :: c in SingleCpfs(s.trace) ==> c in bs[i]
  {
    if env.service.batch(bs[i]).Success? {
      StepBatchSucceeds(bs, i, k, acc, env);
    } else if Fallback(bs[i], k + 1, acc, env).cancelled {
      StepFallbackCancelled(bs, i, k, acc, env);
      var s := Step(bs, i, k, acc, env);
      assert forall c :: c in bs[i][..s.checks - k - 2] ==> c in bs[i];
    } else {
      StepFallbackCompletes(bs, i, k, acc, env);
    }
  }

  /** The progress of turn `i` followed by that of the rest of the loop. */
  lemma ProgressCompose(i: nat, next: nat, n: nat, st: seq<Event>, pt: seq<Event>, cancelled: bool)
    requires next == i + 1 <= n && ProgressValues(st) == [Percent(next, n)]
    requires !cancelled ==> ProgressValues(pt) == Pcts(next, n, n)
    requires cancelled ==> exists j :: next <= j < n && ProgressValues(pt) == Pcts(next, j, n) + [0]
    ensures !cancelled ==> ProgressValues(st + pt) == Pcts(i, n, n)
    ensures cancelled ==> exists j :: i <= j < n && ProgressValues(st + pt) == Pcts(i, j, n) + [0]
  {
    ProgressAppend(st, pt);
    if cancelled {
      var j :| next <= j < n && ProgressValues(pt) == Pcts(next, j, n) + [0];
      assert Pcts(i, j, n) == [Percent(next, n)] + Pcts(next, j, n);
      assert ProgressValues(st + pt) == Pcts(i, j, n) + [0];
    }
  }

  /** The checkpoint count of one turn followed by the rest of the loop adds up. */
  lemma ChecksCompose(env: Env, k: nat, st: seq<Event>, sc: nat, pt: seq<Event>, pc: nat, stop: nat)
    requires !env.CancelSeen(k) && |BatchPayloads(st)| == 1 && k + 1 + |SingleCpfs(st)| == sc
    requires forall j :: k + 1 <= j < sc ==> !env.CancelSeen(j)
    requires sc + Queries(pt) + stop == pc && forall j :: sc <= j < pc - stop ==> !env.CancelSeen(j)
    ensures k + Queries(st + pt) + stop == pc && forall j :: k <= j < pc - stop ==> !env.CancelSeen(j)
  {
    PayloadsAppend(st, pt);
    SinglesAppend(st, pt);
  }

  /** The lookups of turn `i` followed by those of the rest of the loop stay within batches `i..`. */
  lemma QueriesCompose(bs: seq<seq<string>>, i: nat, st: seq<Event>, pt: seq<Event>, cancelled: bool)
    requires i < |bs| && BatchPayloads(st) == [bs[i]] && forall c :: c in SingleCpfs(st) ==> c in bs[i]
    requires forall b :: b in BatchPayloads(pt) ==> b in bs[i + 1..]
    requires forall c :: c in SingleCpfs(pt) ==> exists l :: i + 1 <= l < |bs| && c in bs[l]
    requires !cancelled ==> BatchPayloads(pt) == bs[i + 1..]
    ensures forall b :: b in BatchPayloads(st + pt) ==> b in bs[i..]
    ensures forall c :: c in SingleCpfs(st + pt) ==> exists l :: i <= l < |bs| && c in bs[l]
    ensures !cancelled ==> BatchPayloads(st + pt) == bs[i..]
  {
    PayloadsAppend(st, pt);
    SinglesAppend(st, pt);
    assert bs[i..] == [bs[i]] + bs[i + 1..];
    forall c | c in SingleCpfs(st + pt)
      ensures exists l :: i <= l < |bs| && c in bs[l]
    {
      if c in SingleCpfs(st) {
        assert c in bs[i];
      }
    }
  }

  /**
    The loop gathers, batch after batch, what each batch yields, when it runs to the end;
    a cancelled loop leaves no results.
  */
  lemma {:induction false} EnrichResults(bs: seq<seq<string>>, i: nat, k: nat, acc: seq<LookupResult>, env: Env)
    requires i <= |bs|
    ensures var p := Enrich(bs, i, k, acc, env);
      && (!p.cancelled ==> p.results == acc + EnrichYield(bs[i..], env.service))
      && (p.cancelled ==> p.results == [])
    decreases |bs| - i
  {
    if i >= |bs| {
      assert bs[i..] == [];
      assert Enrich(bs, i, k, acc, env) == Pass([], acc, k, false);
    } else if env.CancelSeen(k) {
      assert Enrich(bs, i, k, acc, env) == Pass(CancelTail, [], k + 1, true);
    } else {
      StepResults(bs, i, k, acc, env);
      var s := Step(bs, i, k, acc, env);
      if s.cancelled {
        assert Enrich(bs, i, k, acc, env) == s;
      } else {
        EnrichResults(bs, i + 1, s.checks, s.results, env);
        var p := Enrich(bs, i + 1, s.checks, s.results, env);
        assert bs[i..][1..] == bs[i + 1..];
        assert EnrichYield(bs[i..], env.service) == BatchYield(bs[i], env.service) + EnrichYield(bs[i + 1..], env.service);
        assert Enrich(bs, i, k, acc, env) == p.(trace := s.trace + p.trace);
      }
    }
  }

  /**
    The progress reported by a loop that runs to the end is `Percent(l, n)` after each batch `l`
    in turn; a cancelled loop reports the batches it finished, then 0.
  */
  lemma {:induction false} EnrichProgress(bs: seq<seq<string>>, i: nat, k: nat, acc: seq<LookupResult>, env: Env)
    requires i <= |bs|
    ensures var p := Enrich(bs, i, k, acc, env);
      && (!p.cancelled ==> ProgressValues(p.trace) == Pcts(i, |bs|, |bs|))
      && (p.cancelled ==> exists j :: i <= j < |bs| && ProgressValues(p.trace) == Pcts(i, j, |bs|) + [0])
    decreases |bs| - i
  {
    if i >= |bs| {
      assert Enrich(bs, i, k, acc, env) == Pass([], acc, k, false);
    } else if env.CancelSeen(k) {
      CancelTailTrace();
      assert ProgressValues(CancelTail) == Pcts(i, i, |bs|) + [0];
      assert Enrich(bs, i, k, acc, env) == Pass(CancelTail, [], k + 1, true);
    } else {
      StepProgress(bs, i, k, acc, env);
      var s := Step(bs, i, k, acc, env);
      if s.cancelled {
        assert ProgressValues(s.trace) == Pcts(i, i, |bs|) + [0];
        assert Enrich(bs, i, k, acc, env) == s;
      } else {
        EnrichProgress(bs, i + 1, s.checks, s.results, env);
        var p := Enrich(bs, i + 1, s.checks, s.results, env);
        ProgressCompose(i, i + 1, |bs|, s.trace, p.trace, p.cancelled);
        assert Enrich(bs, i, k, acc, env) == p.(trace := s.trace + p.trace);
      }
    }
  }

  /**
    A loop that runs to the end emits no terminal signal; a cancelled one emits exactly one,
    `finished` with an empty table, right after progress 0, and nothing after it.
  */
  lemma {:induction false} EnrichTerminal(bs: seq<seq<string>>, i: nat, k: nat, acc: seq<LookupResult>, env: Env)
    ensures var p := Enrich(bs, i, k, acc, env);
      && (!p.cancelled ==> Terminals(p.trace) == 0)
      && (p.cancelled ==> Terminals(p.trace) == 1 && |p.trace| >= 2 && p.trace[|p.trace| - 2..] == CancelTail)
    decreases |bs| - i
  {
    if i >= |bs| {
      assert Enrich(bs, i, k, acc, env) == Pass([], acc, k, false);
    } else if env.CancelSeen(k) {
      CancelTailTrace();
      assert Enrich(bs, i, k, acc, env) == Pass(CancelTail, [], k + 1, true);
    } else {
      StepTerminal(bs, i, k, acc, env);
      var s := Step(bs, i, k, acc, env);
      if s.cancelled {
        assert Enrich(bs, i, k, acc, env) == s;
      } else {
        EnrichTerminal(bs, i + 1, s.checks, s.results, env);
        var p := Enrich(bs, i + 1, s.checks, s.results, env);
        TerminalsAppend(s.trace, p.trace);
        assert Enrich(bs, i, k, acc, env) == p.(trace := s.trace + p.trace);
        if p.cancelled {
          var t := s.trace + p.trace;
          assert t[|t| - 2..] == p.trace[|p.trace| - 2..];
        }
      }
    }
  }

  /**
    Every lookup is preceded by its own checkpoint: the loop uses one checkpoint per lookup, plus
    the one that stops it when it is cancelled; no checkpoint before the last one sees the flag,
    and the last one of a cancelled loop does.
  */
  lemma {:induction false} EnrichChecks(bs: seq<seq<string>>, i: nat, k: nat, acc: seq<LookupResult>, env: Env)
    ensures var p := Enrich(bs, i, k, acc, env); var stop := if p.cancelled then 1 else 0;
      && k + Queries(p.trace) + stop == p.checks
      && (forall j :: k <= j < p.checks - stop ==> !env.CancelSeen(j))
      && (p.cancelled ==> env.CancelSeen(p.checks - 1))
    decreases |bs| - i
  {
    if i >= |bs| {
      assert Enrich(bs, i, k, acc, env) == Pass([], acc, k, false);
    } else if env.CancelSeen(k) {
      CancelTailTrace();
      assert Enrich(bs, i, k, acc, env) == Pass(CancelTail, [], k + 1, true);
    } else {
      StepChecks(bs, i, k, acc, env);
      var s := Step(bs, i, k, acc, env);
      if s.cancelled {
        assert Enrich(bs, i, k, acc, env) == s;
      } else {
        EnrichChecks(bs, i + 1, s.checks, s.results, env);
        var p := Enrich(bs, i + 1, s.checks, s.results, env);
        ChecksCompose(env, k, s.trace, s.checks, p.trace, p.checks, if p.cancelled then 1 else 0);
        assert Enrich(bs, i, k, acc, env) == p.(trace := s.trace + p.trace);
      }
    }
  }

  /**
    The loop only queries its own batches, in order, and single CPFs from them; when it runs to
    the end, it sends every batch exactly once.
  */
  lemma {:induction false} EnrichQueries(bs: seq<seq<string>>, i: nat, k: nat, acc: seq<LookupResult>, env: Env)
    requires i <= |bs|
    ensures var p := Enrich(bs, i, k, acc, env);
      && (forall b :: b in BatchPayloads(p.trace) ==> b in bs[i..])
      && (forall c :: c in SingleCpfs(p.trace) ==> exists l :: i <= l < |bs| && c in bs[l])
      && (!p.cancelled ==> BatchPayloads(p.trace) == bs[i..])
    decreases |bs| - i
  {
    if i >= |bs| {
      assert bs[i..] == [];
      assert Enrich(bs, i, k, acc, env) == Pass([], acc, k, false);
    } else if env.CancelSeen(k) {
      CancelTailTrace();
      assert Enrich(bs, i, k, acc, env) == Pass(CancelTail, [], k + 1, true);
    } else {
      StepQueries(bs, i, k, acc, env);
      var s := Step(bs, i, k, acc, env);
      if s.cancelled {
        assert bs[i..][0] == bs[i];
        assert Enrich(bs, i, k, acc, env) == s;
      } else {
        EnrichQueries(bs, i + 1, s.checks, s.results, env);
        var p := Enrich(bs, i + 1, s.checks, s.results, env);
        QueriesCompose(bs, i, s.trace, p.trace, p.cancelled);
        assert Enrich(bs, i, k, acc, env) == p.(trace := s.trace + p.trace);
      }
    }
  }

  /** The progress after batch `l` is `Percent(l, n)`: one value per batch, in batch order. */
  lemma {:induction false} PctsAt(i: nat, j: nat, n: nat)
    requires i <= j <= n
    ensures |Pcts(i, j, n)| == j - i
    ensures forall l :: 0 <= l < j - i ==> Pcts(i, j, n)[l] == Percent(i + l + 1, n)
    decreases j - i
  {
    if i < j {
      PctsAt(i + 1, j, n);
    }
  }

  /** Reported progress stays within 0..100, never goes down, and reaches 100 with the last batch. */
  lemma PctsRising(i: nat, j: nat, n: nat)
    requires i <= j <= n
    ensures |Pcts(i, j, n)| == j - i
    ensures forall l :: 0 <= l < |Pcts(i, j, n)| ==> 0 <= Pcts(i, j, n)[l] <= 100
    ensures forall a, b :: 0 <= a <= b < |Pcts(i, j, n)| ==> Pcts(i, j, n)[a] <= Pcts(i, j, n)[b]
    ensures i < j == n ==> Pcts(i, j, n)[j - i - 1] == 100
  {
    PctsAt(i, j, n);
    forall a, b | 0 <= a <= b < |Pcts(i, j, n)| ensures Pcts(i, j, n)[a] <= Pcts(i, j, n)[b] {
      PercentMonotone(i + a + 1, i + b + 1, n);
    }
    if i < j == n {
      PercentComplete(n);
    }
  }

  /** A cancel request made before checkpoint `j` bounds the lookups the loop still makes to `j - k`. */
  lemma EnrichCancelBound(bs: seq<seq<string>>, i: nat, k: nat, acc: seq<LookupResult>, env: Env, j: nat)
    requires k <= j && env.CancelSeen(j)
    ensures var p := Enrich(bs, i, k, acc, env);
      && Queries(p.trace) <= j - k
      && (p.cancelled || j >= p.checks)
  {
    EnrichChecks(bs, i, k, acc, env);
  }
}
