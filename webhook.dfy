/** The tap runner (server/webhook/webhook.go): `Start` runs the pre-flight checks
    and loads the checkpoint; the runner then repeats poll, `mapEvents`, export,
    POST and checkpoint until its context is cancelled. The event source, the
    script engine, the webhook receiver, the clock and the context are inputs. */
module Webhook {
  import opened Wrappers
  import opened Data
  import opened Registry

  /** A JSON value (an upstream event, or one element of the transform's output), as its text. */
  type Json = string

  /** A value held by the script engine; only the engine can look inside. */
  datatype JsValue = JsValue(handle: nat)

  /** The script engine's verdict on a tap's code: whether it compiles, whether
      running the program throws, whether it leaves a function `mapEvents` behind. */
  datatype Engine = Engine(compileError: Option<string>, runError: Option<string>, definesMapEvents: bool)

  /** Why `Start` refused to launch a runner. */
  datatype StartError =
    | LoadOptions            // "could not load webhook options"
    | ParseCode(cause: string) // "could not parse webhook code"
    | LastId                 // "could not determine last ID"
    | RunCode(cause: string)   // "could not run code"
    | NoMapEvents            // "could not find mapEvents function"

  /** What a successful `Start` launches the loop with. */
  datatype Launch = Launch(opts: TapOptions, lastID: string)

  /** The checkpoint a runner resumes from: the stored `last_id`, or the empty
      cursor (start of stream) when there is none. */
  function Checkpoint(rec: TapRecord): string
  {
    match rec.lastId
    case Some(v) => v
    case None => ""
  }

  /** The pre-flight of `Start`, checks in source order. */
  function Preflight(rec: Option<TapRecord>, engine: string -> Engine, lastIdReadOk: bool): (r: Result<Launch, StartError>)
    ensures r.Ok? <==>
      && rec.Some? && Decode(rec.value.options).Some?
      && engine(Decode(rec.value.options).value.code).compileError.None?
      && lastIdReadOk
      && engine(Decode(rec.value.options).value.code).runError.None?
      && engine(Decode(rec.value.options).value.code).definesMapEvents
    ensures r.Ok? ==> r.value.opts == Decode(rec.value.options).value && r.value.lastID == Checkpoint(rec.value)
    // each refusal names the first check that failed
    ensures (rec.None? || Decode(rec.value.options).None?) ==> r == Err(LoadOptions)
    ensures rec.Some? && Decode(rec.value.options).Some? ==>
      var v := engine(Decode(rec.value.options).value.code);
      && (v.compileError.Some? ==> r == Err(ParseCode(v.compileError.value)))
      && (v.compileError.None? && !lastIdReadOk ==> r == Err(LastId))
      && (v.compileError.None? && lastIdReadOk && v.runError.Some? ==> r == Err(RunCode(v.runError.value)))
      && (v.compileError.None? && lastIdReadOk && v.runError.None? && !v.definesMapEvents ==> r == Err(NoMapEvents))
  {
    if rec.None? then Err(LoadOptions)
    else
      match Decode(rec.value.options)
      case None => Err(LoadOptions)
      case Some(opts) =>
        var verdict := engine(opts.code);
        if verdict.compileError.Some? then Err(ParseCode(verdict.compileError.value))
        else if !lastIdReadOk then Err(LastId)
        else if verdict.runError.Some? then Err(RunCode(verdict.runError.value))
        else if !verdict.definesMapEvents then Err(NoMapEvents)
        else Ok(Launch(opts, Checkpoint(rec.value)))
  }

  /** One batch element handed to `mapEvents`: `[id, event]`. */
  datatype Pair = Pair(id: string, event: Json)

  function Pairs(ids: seq<string>, events: seq<Json>): seq<Pair>
    requires |events| <= |ids|
  {
    seq(|events|, i requires 0 <= i < |events| => Pair(ids[i], events[i]))
  }

  /** Filling `eventsWithIDs`: one `[ids[i], events[i]]` per event, in order. */
  method PairEvents(ids: seq<string>, events: seq<Json>) returns (pairs: seq<Pair>)
    requires |events| <= |ids|
    ensures |pairs| == |events|
    ensures forall i :: 0 <= i < |events| ==> pairs[i] == Pair(ids[i], events[i])
  {
    pairs := [];
    for i := 0 to |events|
      invariant |pairs| == i
      invariant forall j :: 0 <= j < i ==> pairs[j] == Pair(ids[j], events[j])
    {
      pairs := pairs + [Pair(ids[i], events[i])];
    }
  }

  /** What the event source answered to one poll. */
  datatype PollResult = Polled(ids: seq<string>, events: seq<Json>) | PollFailed(cause: string)

  /** What became of one webhook request. */
  datatype PostOutcome =
    | Responded(code: int, status: string, body: string)
    | MarshalFailed(cause: string)
    | RequestFailed(cause: string)
    | TransportFailed(cause: string)

  /** `postWebhook`: only an answer 200 or 202 counts as delivered. */
  function DeliveryError(o: PostOutcome): (e: Option<string>)
    ensures e.None? <==> o.Responded? && (o.code == 200 || o.code == 202)
  {
    match o
    case MarshalFailed(c) => Some("could not marshal payload: " + c)
    case RequestFailed(c) => Some("could not create request: " + c)
    case TransportFailed(c) => Some("could not perform request: " + c)
    case Responded(code, status, body) =>
      if code == 200 || code == 202 then None else Some("unexpected status " + status + ": " + body)
  }

  /** Everything one loop iteration learns from outside. `liveChecks` counts the
      looks at the context (first the loop condition, then each retry wait) that
      still find it live; every later look finds it cancelled. */
  datatype Env = Env(
    liveChecks: nat,
    poll: (string, int) -> PollResult,
    mapEvents: seq<Pair> -> Result<JsValue, string>,
    exportValues: JsValue -> Result<seq<Json>, string>,
    post: seq<Json> -> PostOutcome,
    statusWriteOk: bool,
    lastIdWriteOk: bool)

  predicate Live(env: Env, look: nat)
  {
    look < env.liveChecks
  }

  /** How an iteration ended: back to the loop condition, out of the loop, or in a
      run-time panic (an event without an id). */
  datatype Outcome = Continue | Exited | Panicked

  /** What one iteration did: whether it polled (always from the current checkpoint
      with the tap's batch limit), the batch it handed to `mapEvents`, the body it
      POSTed, the status strings it wrote in order, the value it handed to
      `updateLastID`, and the in-memory checkpoint afterwards. */
  datatype IterResult = IterResult(
    outcome: Outcome,
    polled: bool,
    batch: Option<seq<Pair>>,
    posted: Option<seq<Json>>,
    statuses: seq<string>,
    checkpoint: Option<string>,
    lastID: string)

  function PolledIds(p: PollResult): seq<string>
  {
    if p.Polled? then p.ids else []
  }

  function PolledEvents(p: PollResult): seq<Json>
  {
    if p.Polled? then p.events else []
  }

  /** The transform's output for the batch, when both `mapEvents` and the export succeed. */
  function Transformed(env: Env, batch: seq<Pair>): Option<seq<Json>>
  {
    match env.mapEvents(batch)
    case Err(_) => None
    case Ok(v) =>
      match env.exportValues(v)
      case Err(_) => None
      case Ok(out) => Some(out)
  }

  /** The status a failed poll writes, if any. */
  function PollStatuses(p: PollResult): seq<string>
  {
    if p.PollFailed? then ["could not poll events: " + p.cause] else []
  }

  /** One pass of the body of `mainLoop`. */
  function Iteration(lastID: string, limit: int, env: Env): (r: IterResult)
    // the loop is left only when a look at the context finds it cancelled
    ensures r.outcome.Exited? ==> env.liveChecks <= 2
    ensures env.liveChecks == 0 <==> !r.polled
    ensures !r.polled ==> r == IterResult(Exited, false, None, None, [], None, lastID)
    // a panic happens exactly when polled events outnumber their ids
    ensures r.outcome.Panicked? <==>
      r.polled && |PolledIds(env.poll(lastID, limit))| < |PolledEvents(env.poll(lastID, limit))|
    // a poll failure is recorded first and leaves an empty batch behind
    ensures r.polled && env.poll(lastID, limit).PollFailed? ==>
      |r.statuses| >= 1 && r.statuses[0] == "could not poll events: " + env.poll(lastID, limit).cause && r.checkpoint.None?
    // and, with no `continue`, the wait falls through to `mapEvents` on the empty batch
    ensures r.polled && env.poll(lastID, limit).PollFailed? ==> (r.batch == Some([]) <==> Live(env, 1))
    // a successful poll whose events all have ids goes on to the rest of the iteration
    ensures (r.polled && env.poll(lastID, limit).Polled? &&
             |env.poll(lastID, limit).events| <= |env.poll(lastID, limit).ids|) ==> r.batch.Some?
    // without a batch nothing further happens: no status beyond the poll's
    ensures r.polled && r.batch.None? ==> r.statuses == PollStatuses(env.poll(lastID, limit))
    ensures r.batch.None? ==> r.posted.None? && r.checkpoint.None? && r.lastID == lastID
    // with one, the rest is the batch step for the polled ids and events
    ensures r.batch.Some? ==>
      var p := env.poll(lastID, limit);
      |PolledEvents(p)| <= |PolledIds(p)| && r == BatchStep(lastID, env, PolledIds(p), PolledEvents(p), PollStatuses(p))
    // every failure is waited out, and the wait must see a live context to retry
    ensures r.outcome.Continue? ==> env.liveChecks >= |r.statuses| + 1
  {
    if !Live(env, 0) then IterResult(Exited, false, None, None, [], None, lastID)
    else
      var p := env.poll(lastID, limit);
      var pre := PollStatuses(p);
      if p.PollFailed? && !Live(env, 1) then IterResult(Exited, true, None, None, pre, None, lastID)
      else if |PolledIds(p)| < |PolledEvents(p)| then IterResult(Panicked, true, None, None, pre, None, lastID)
      else BatchStep(lastID, env, PolledIds(p), PolledEvents(p), pre)
  }

  /** The part of an iteration after a poll (successful, or failed and waited
      out): `mapEvents`, export, POST and checkpoint, after the statuses `pre`. */
  function BatchStep(lastID: string, env: Env, ids: seq<string>, events: seq<Json>, pre: seq<string>): (r: IterResult)
    requires |events| <= |ids|
    // the batch pairs each event with its id, in order
    ensures r.polled && r.batch.Some? && !r.outcome.Panicked?
    ensures |r.batch.value| == |events| && forall i :: 0 <= i < |events| ==> r.batch.value[i] == Pair(ids[i], events[i])
    // a POST is made exactly for a non-empty transform output, and carries it
    ensures r.posted.Some? <==> Transformed(env, r.batch.value).Some? && |Transformed(env, r.batch.value).value| > 0
    ensures r.posted.Some? ==> r.posted == Transformed(env, r.batch.value)
    // the checkpoint moves, to the last id, exactly when the batch had ids and went through
    ensures r.checkpoint.Some? <==>
      && |ids| > 0 && Transformed(env, r.batch.value).Some?
      && (r.posted.Some? ==> DeliveryError(env.post(r.posted.value)).None?)
    ensures r.checkpoint.Some? ==>
      r.checkpoint.value == ids[|ids| - 1] && r.lastID == ids[|ids| - 1] && r.outcome.Continue? && r.statuses == pre
    ensures r.checkpoint.None? ==> r.lastID == lastID
    // a failing transform, export or delivery writes one prefixed status
    ensures env.mapEvents(r.batch.value).Err? ==>
      r.statuses == pre + ["mapEvents failed: " + env.mapEvents(r.batch.value).error]
    ensures env.mapEvents(r.batch.value).Ok? && env.exportValues(env.mapEvents(r.batch.value).value).Err? ==>
      r.statuses == pre + ["exportValues failed: " + env.exportValues(env.mapEvents(r.batch.value).value).error]
    ensures r.posted.Some? && DeliveryError(env.post(r.posted.value)).Some? ==>
      r.statuses == pre + ["postWebhook failed: " + DeliveryError(env.post(r.posted.value)).value]
    ensures r.statuses == pre || (|r.statuses| == |pre| + 1 && r.statuses[..|pre|] == pre)
    // a batch that goes through every stage writes no status and goes on
    ensures Transformed(env, r.batch.value).Some? && (r.posted.Some? ==> DeliveryError(env.post(r.posted.value)).None?) ==>
      r.statuses == pre && r.outcome.Continue?
    // and then retries only if the wait sees a live context
    ensures r.statuses != pre ==> (r.outcome.Continue? <==> Live(env, |pre| + 1))
    ensures r.statuses == pre ==> r.outcome.Continue?
  {
    var batch := Pairs(ids, events);
    var afterWait := if Live(env, |pre| + 1) then Continue else Exited;
    match env.mapEvents(batch)
    case Err(c) => IterResult(afterWait, true, Some(batch), None, pre + ["mapEvents failed: " + c], None, lastID)
    case Ok(v) =>
      match env.exportValues(v)
      case Err(c) => IterResult(afterWait, true, Some(batch), None, pre + ["exportValues failed: " + c], None, lastID)
      case Ok(out) =>
        var posted := if |out| > 0 then Some(out) else None;
        var failure := if |out| > 0 then DeliveryError(env.post(out)) else None;
        if failure.Some? then
          IterResult(afterWait, true, Some(batch), posted, pre + ["postWebhook failed: " + failure.value], None, lastID)
        else if |ids| > 0 then
          IterResult(Continue, true, Some(batch), posted, pre, Some(ids[|ids| - 1]), ids[|ids| - 1])
        else
          IterResult(Continue, true, Some(batch), posted, pre, None, lastID)
  }

  /** The status writes of one iteration, each its own write transaction. */
  function PutStatuses(s: Store, id: string, statuses: seq<string>): (t: Store)
    requires WellFormed(s)
    ensures WellFormed(t) && t.root == s.root && t.keys == s.keys && t.taps.Keys == s.taps.Keys
    ensures forall k :: k in s.taps && k != id ==> t.taps[k] == s.taps[k]
    ensures id in s.taps ==>
      t.taps[id] == s.taps[id].(status := if statuses == [] then s.taps[id].status else Some(statuses[|statuses| - 1]))
    ensures id !in s.taps ==> t == s
    decreases |statuses|
  {
    if statuses == [] then s
    else PutStatus(PutStatuses(s, id, statuses[..|statuses| - 1]), id, statuses[|statuses| - 1])
  }

  /** The store after the status writes of an iteration so far. */
  function Written(s: Store, id: string, statuses: seq<string>, ok: bool): Store
    requires WellFormed(s)
  {
    if ok then PutStatuses(s, id, statuses) else s
  }

  /** What one iteration leaves in the store: the status writes and the `last_id`
      write, each taking effect only if its transaction commits. */
  function Persist(s: Store, id: string, r: IterResult, env: Env): (t: Store)
    requires WellFormed(s)
    ensures WellFormed(t) && t.root == s.root && t.keys == s.keys && t.taps.Keys == s.taps.Keys
    ensures forall k :: k in s.taps && k != id ==> t.taps[k] == s.taps[k]
    ensures id in s.taps ==> t.taps[id].options == s.taps[id].options
    ensures id in s.taps ==>
      t.taps[id].lastId == (if r.checkpoint.Some? && env.lastIdWriteOk then r.checkpoint else s.taps[id].lastId)
    ensures id in s.taps ==>
      t.taps[id].status == (if r.statuses != [] && env.statusWriteOk then Some(r.statuses[|r.statuses| - 1]) else s.taps[id].status)
  {
    var withStatus := Written(s, id, r.statuses, env.statusWriteOk);
    if r.checkpoint.Some? && env.lastIdWriteOk then PutLastId(withStatus, id, r.checkpoint.value) else withStatus
  }

  /** What a sequence of iterations did: the checkpoint afterwards, the bodies
      POSTed in order, and whether the loop was left. */
  datatype RunResult = RunResult(lastID: string, posts: seq<seq<Json>>, stopped: bool)

  function Posts(r: IterResult): seq<seq<Json>>
  {
    if r.posted.Some? then [r.posted.value] else []
  }

  /** `mainLoop` over the iterations described by `envs`, stopping once one of
      them leaves the loop. */
  function Run(lastID: string, limit: int, envs: seq<Env>): (r: RunResult)
    // at most one POST per iteration
    ensures |r.posts| <= |envs|
    decreases |envs|
  {
    if envs == [] then RunResult(lastID, [], false)
    else
      var before := Run(lastID, limit, envs[..|envs| - 1]);
      if before.stopped then before
      else
        var r := Iteration(before.lastID, limit, envs[|envs| - 1]);
        RunResult(r.lastID, before.posts + Posts(r), !r.outcome.Continue?)
  }

  /** One more iteration extends a run that has not stopped. */
  lemma RunSnoc(lastID: string, limit: int, envs: seq<Env>, i: nat)
    requires i < |envs| && !Run(lastID, limit, envs[..i]).stopped
    ensures var before, r := Run(lastID, limit, envs[..i]), Iteration(Run(lastID, limit, envs[..i]).lastID, limit, envs[i]);
      Run(lastID, limit, envs[..i + 1]) == RunResult(r.lastID, before.posts + Posts(r), !r.outcome.Continue?)
  {
    assert envs[..i + 1][..i] == envs[..i];
  }

  /** What a run leaves in the store: the effect of each iteration it made, in
      order. A runner writes only under its own tap and never its options. */
  function RunStore(s: Store, id: string, lastID: string, limit: int, envs: seq<Env>): (t: Store)
    requires WellFormed(s)
    ensures WellFormed(t) && t.root == s.root && t.keys == s.keys && t.taps.Keys == s.taps.Keys
    ensures forall k :: k in s.taps && k != id ==> t.taps[k] == s.taps[k]
    ensures id in s.taps ==> t.taps[id].options == s.taps[id].options
    decreases |envs|
  {
    if envs == [] then s
    else
      var prefix := envs[..|envs| - 1];
      var before, t := Run(lastID, limit, prefix), RunStore(s, id, lastID, limit, prefix);
      if before.stopped then t
      else Persist(t, id, Iteration(before.lastID, limit, envs[|envs| - 1]), envs[|envs| - 1])
  }

  /** One more iteration of a run that has not stopped adds that iteration's store effect. */
  lemma RunStoreSnoc(s: Store, id: string, lastID: string, limit: int, envs: seq<Env>, i: nat)
    requires WellFormed(s) && i < |envs| && !Run(lastID, limit, envs[..i]).stopped
    ensures RunStore(s, id, lastID, limit, envs[..i + 1]) ==
      Persist(RunStore(s, id, lastID, limit, envs[..i]), id, Iteration(Run(lastID, limit, envs[..i]).lastID, limit, envs[i]), envs[i])
  {
    assert envs[..i + 1][..i] == envs[..i];
  }

  /** Once the loop has been left, later iterations write nothing either. */
  lemma {:induction false} StoppedStoreStays(s: Store, id: string, lastID: string, limit: int, envs: seq<Env>, i: nat)
    requires WellFormed(s) && i <= |envs| && Run(lastID, limit, envs[..i]).stopped
    ensures RunStore(s, id, lastID, limit, envs) == RunStore(s, id, lastID, limit, envs[..i])
    decreases |envs| - i
  {
    if i < |envs| {
      assert envs[..i + 1][..i] == envs[..i];
      StoppedStays(lastID, limit, envs[..i + 1], i);
      StoppedStoreStays(s, id, lastID, limit, envs, i + 1);
    } else {
      assert envs[..i] == envs;
    }
  }

  /** Once the loop has been left, later iterations change nothing. */
  lemma {:induction false} StoppedStays(lastID: string, limit: int, envs: seq<Env>, i: nat)
    requires i <= |envs| && Run(lastID, limit, envs[..i]).stopped
    ensures Run(lastID, limit, envs) == Run(lastID, limit, envs[..i])
    decreases |envs| - i
  {
    if i < |envs| {
      assert envs[..i + 1][..i] == envs[..i];
      StoppedStays(lastID, limit, envs, i + 1);
    } else {
      assert envs[..i] == envs;
    }
  }

  /** An iteration in which the script filters everything out: the poll succeeds
      with a non-empty batch, whatever the cursor, and the transform yields nothing. */
  ghost predicate FiltersAll(env: Env, limit: int)
  {
    && env.liveChecks > 0
    && forall c :: var p := env.poll(c, limit);
      && p.Polled? && 0 < |p.ids| && |p.events| <= |p.ids|
      && Transformed(env, Pairs(p.ids, p.events)) == Some([])
  }

  /** One filtering iteration: nothing is POSTed, the loop goes on, and the
      checkpoint moves to the last id of the batch. */
  lemma FilteredIteration(lastID: string, limit: int, env: Env)
    requires FiltersAll(env, limit)
    ensures var r := Iteration(lastID, limit, env);
      var ids := PolledIds(env.poll(lastID, limit));
      && r.posted.None? && r.outcome.Continue?
      && |ids| > 0 && r.lastID == ids[|ids| - 1]
  {
    var p := env.poll(lastID, limit);
    assert p.Polled? && 0 < |p.ids| && |p.events| <= |p.ids|;
    assert Transformed(env, Pairs(p.ids, p.events)) == Some([]);
  }

  /** A filtering iteration after a run that is still going adds no POST and
      moves the checkpoint to the batch's last id. */
  lemma FilteredStep(lastID: string, limit: int, envs: seq<Env>)
    requires |envs| > 0 && FiltersAll(envs[|envs| - 1], limit)
    requires !Run(lastID, limit, envs[..|envs| - 1]).stopped
    ensures var before := Run(lastID, limit, envs[..|envs| - 1]);
      var ids := PolledIds(envs[|envs| - 1].poll(before.lastID, limit));
      |ids| > 0 && Run(lastID, limit, envs) == RunResult(ids[|ids| - 1], before.posts, false)
  {
    var before := Run(lastID, limit, envs[..|envs| - 1]);
    FilteredIteration(before.lastID, limit, envs[|envs| - 1]);
    assert Posts(Iteration(before.lastID, limit, envs[|envs| - 1])) == [];
    assert before.posts + [] == before.posts;
  }

  /** A tap whose script returns an empty array never POSTs, never stops, and
      still moves its checkpoint to the last id of every batch. */
  lemma {:induction false} FilterSafety(lastID: string, limit: int, envs: seq<Env>)
    requires forall i :: 0 <= i < |envs| ==> FiltersAll(envs[i], limit)
    ensures Run(lastID, limit, envs).posts == [] && !Run(lastID, limit, envs).stopped
    ensures |envs| > 0 ==>
      var ids := PolledIds(envs[|envs| - 1].poll(Run(lastID, limit, envs[..|envs| - 1]).lastID, limit));
      |ids| > 0 && Run(lastID, limit, envs).lastID == ids[|ids| - 1]
    decreases |envs|
  {
    if envs != [] {
      var n := |envs| - 1;
      var prefix := envs[..n];
      assert forall i :: 0 <= i < |prefix| ==> prefix[i] == envs[i];
      FilterSafety(lastID, limit, prefix);
      FilteredStep(lastID, limit, envs);
    }
  }

  /** The loop is left only by cancellation or a panic: with a live context at
      every look and every successful poll well-formed, it never stops. */
  lemma {:induction false} OnlyCancelStops(lastID: string, limit: int, envs: seq<Env>)
    requires forall i :: 0 <= i < |envs| ==> envs[i].liveChecks >= 3
    requires forall i, c :: 0 <= i < |envs| && envs[i].poll(c, limit).Polled? ==>
      |envs[i].poll(c, limit).events| <= |envs[i].poll(c, limit).ids|
    ensures !Run(lastID, limit, envs).stopped
    decreases |envs|
  {
    if envs != [] {
      var prefix := envs[..|envs| - 1];
      assert forall i :: 0 <= i < |prefix| ==> prefix[i] == envs[i];
      OnlyCancelStops(lastID, limit, prefix);
      var r := Iteration(Run(lastID, limit, prefix).lastID, limit, envs[|envs| - 1]);
      assert !r.outcome.Panicked?;
    }
  }

  /** A runner started again after an iteration (say, after a restart) resumes from
      the checkpoint that iteration managed to store: its new one if the `last_id`
      write committed, else the one before it, so a batch whose checkpoint write was
      lost is delivered once more. */
  lemma RestartResumesFromStore(s: Store, id: string, r: IterResult, env: Env, engine: string -> Engine)
    requires WellFormed(s) && id in s.taps && Preflight(Some(s.taps[id]), engine, true).Ok?
    ensures var t := Persist(s, id, r, env);
      var before, after := Preflight(Some(s.taps[id]), engine, true), Preflight(Some(t.taps[id]), engine, true);
      && after.Ok? && after.value.opts == before.value.opts
      && after.value.lastID == (if r.checkpoint.Some? && env.lastIdWriteOk then r.checkpoint.value else before.value.lastID)
  {
    var t := Persist(s, id, r, env);
    assert t.taps[id].options == s.taps[id].options;
  }

  /** A running tap: the goroutine started by `Start`, with its local `lastID`. */
  class Runner {
    const db: Database
    const id: string
    const opts: TapOptions
    var lastID: string
    var alive: bool

    constructor (db: Database, id: string, opts: TapOptions, lastID: string)
      ensures this.db == db && this.id == id && this.opts == opts
      ensures this.lastID == lastID && alive
    {
      this.db := db;
      this.id := id;
      this.opts := opts;
      this.lastID := lastID;
      alive := true;
    }

    /** `updateStatus`: a failed write is only logged. */
    method UpdateStatus(status: string, ok: bool, written: seq<string>, ghost s0: Store) returns (now: seq<string>)
      requires WellFormed(s0) && db.store == Written(s0, id, written, ok)
      modifies db
      ensures now == written + [status]
      ensures db.store == Written(s0, id, now, ok)
    {
      if ok {
        assert (written + [status])[..|written|] == written;
        db.store := PutStatus(db.store, id, status);
      }
      now := written + [status];
    }

    /** `updateLastID`: a failed write is only logged, and no error is ever reported. */
    method UpdateLastID(value: string, ok: bool) returns (err: Option<string>)
      requires WellFormed(db.store)
      modifies db
      ensures err.None?
      ensures db.store == if ok then PutLastId(old(db.store), id, value) else old(db.store)
    {
      if ok {
        db.store := PutLastId(db.store, id, value);
      }
      err := None;
    }

    /** One iteration of `mainLoop`; a runner that has left the loop is not stepped again. */
    method Step(env: Env) returns (r: IterResult)
      requires alive && WellFormed(db.store)
      modifies this, db
      ensures r == Iteration(old(lastID), opts.batchLimit, env)
      ensures lastID == r.lastID && alive == r.outcome.Continue?
      ensures db.store == Persist(old(db.store), id, r, env)
    {
      ghost var s0 := db.store;
      if !Live(env, 0) {
        alive := false;
        return IterResult(Exited, false, None, None, [], None, lastID);
      }
      var written: seq<string> := [];
      var p := env.poll(lastID, opts.batchLimit);
      var ids: seq<string>, events: seq<Json> := [], [];
      if p.PollFailed? {
        written := UpdateStatus("could not poll events: " + p.cause, env.statusWriteOk, written, s0);
        if !Live(env, 1) {
          alive := false;
          return IterResult(Exited, true, None, None, written, None, lastID);
        }
      } else {
        ids, events := p.ids, p.events;
      }
      if |ids| < |events| {
        alive := false;
        return IterResult(Panicked, true, None, None, written, None, lastID);
      }
      assert ids == PolledIds(p) && events == PolledEvents(p) && written == PollStatuses(p);
      r := HandleBatch(env, ids, events, written, s0);
    }

    /** The `for ctx.Err() == nil` loop: iterations until one leaves the loop or
        the described iterations run out. */
    method Loop(envs: seq<Env>) returns (res: RunResult)
      requires alive && WellFormed(db.store)
      modifies this, db
      ensures res == Run(old(lastID), opts.batchLimit, envs)
      ensures lastID == res.lastID && alive == !res.stopped
      ensures db.store == RunStore(old(db.store), id, old(lastID), opts.batchLimit, envs)
    {
      ghost var start, s0 := lastID, db.store;
      var i := 0;
      res := RunResult(lastID, [], false);
      while i < |envs| && alive
        invariant i <= |envs|
        invariant WellFormed(s0) && db.store == RunStore(s0, id, start, opts.batchLimit, envs[..i])
        invariant res == Run(start, opts.batchLimit, envs[..i])
        invariant lastID == res.lastID && alive == !res.stopped
        decreases |envs| - i
      {
        RunSnoc(start, opts.batchLimit, envs, i);
        RunStoreSnoc(s0, id, start, opts.batchLimit, envs, i);
        var r := Step(envs[i]);
        res := RunResult(r.lastID, res.posts + Posts(r), !r.outcome.Continue?);
        i := i + 1;
      }
      if alive {
        assert envs[..i] == envs;
      } else {
        StoppedStays(start, opts.batchLimit, envs, i);
        StoppedStoreStays(s0, id, start, opts.batchLimit, envs, i);
      }
    }

    /** A failed stage: its status is written, then the wait before the next
        iteration either sees the context cancelled or goes on. */
    method Retry(env: Env, status: string, written: seq<string>, ghost s0: Store,
                 batch: seq<Pair>, posted: Option<seq<Json>>) returns (r: IterResult)
      requires WellFormed(s0) && db.store == Written(s0, id, written, env.statusWriteOk)
      modifies this, db
      ensures r == IterResult(if Live(env, |written| + 1) then Continue else Exited, true, Some(batch),
                              posted, written + [status], None, old(lastID))
      ensures lastID == old(lastID) && alive == r.outcome.Continue?
      ensures db.store == Persist(s0, id, r, env)
    {
      var now := UpdateStatus(status, env.statusWriteOk, written, s0);
      alive := Live(env, |written| + 1);
      r := IterResult(if alive then Continue else Exited, true, Some(batch), posted, now, None, lastID);
    }

    /** The rest of an iteration once the batch is known. */
    method HandleBatch(env: Env, ids: seq<string>, events: seq<Json>, written: seq<string>, ghost s0: Store)
      returns (r: IterResult)
      requires |events| <= |ids| && |written| <= 1
      requires WellFormed(s0) && db.store == Written(s0, id, written, env.statusWriteOk)
      modifies this, db
      ensures r == BatchStep(old(lastID), env, ids, events, written)
      ensures lastID == r.lastID && alive == r.outcome.Continue?
      ensures db.store == Persist(s0, id, r, env)
    {
      var batch := PairEvents(ids, events);
      assert batch == Pairs(ids, events);
      var mapped := env.mapEvents(batch);
      if mapped.Err? {
        r := Retry(env, "mapEvents failed: " + mapped.error, written, s0, batch, None);
        return;
      }
      var result := env.exportValues(mapped.value);
      if result.Err? {
        r := Retry(env, "exportValues failed: " + result.error, written, s0, batch, None);
        return;
      }
      var posted: Option<seq<Json>> := None;
      if |result.value| > 0 {
        posted := Some(result.value);
        var failure := DeliveryError(env.post(result.value));
        if failure.Some? {
          r := Retry(env, "postWebhook failed: " + failure.value, written, s0, batch, posted);
          return;
        }
      }
      var checkpoint: Option<string> := None;
      if |ids| > 0 {
        var newLastID := ids[|ids| - 1];
        var _ := UpdateLastID(newLastID, env.lastIdWriteOk);
        checkpoint := Some(newLastID);
        lastID := newLastID;
      }
      alive := true;
      r := IterResult(Continue, true, Some(batch), posted, written, checkpoint, lastID);
    }
  }

  /** `Start`: the pre-flight checks, then a runner launched from the loaded checkpoint. */
  method Start(db: Database, id: string, engine: string -> Engine, lastIdReadOk: bool)
    returns (err: Option<StartError>, runner: Runner?)
    ensures var p := Preflight(if id in db.store.taps then Some(db.store.taps[id]) else None, engine, lastIdReadOk);
      && (err.None? <==> p.Ok?)
      && (p.Err? ==> err == Some(p.error))
      && (runner != null <==> err.None?)
      && (runner != null ==>
            && fresh(runner) && runner.db == db && runner.id == id && runner.alive
            && runner.opts == p.value.opts && runner.lastID == p.value.lastID)
  {
    if id !in db.store.taps {
      return Some(LoadOptions), null;
    }
    var rec := db.store.taps[id];
    var decoded := Decode(rec.options);
    if decoded.None? {
      return Some(LoadOptions), null;
    }
    var opts := decoded.value;
    var verdict := engine(opts.code);
    if verdict.compileError.Some? {
      return Some(ParseCode(verdict.compileError.value)), null;
    }
    var lastID := "";
    if !lastIdReadOk {
      return Some(LastId), null;
    }
    if rec.lastId.Some? {
      lastID := rec.lastId.value;
    }
    if verdict.runError.Some? {
      return Some(RunCode(verdict.runError.value)), null;
    }
    if !verdict.definesMapEvents {
      return Some(NoMapEvents), null;
    }
    runner := new Runner(db, id, opts, lastID);
    err := None;
  }
}
