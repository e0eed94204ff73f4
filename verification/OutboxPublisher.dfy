/** The publisher loop, running among other publishers. Whatever the context, the database,
    the dispatcher and the other publishers do is a havoc choice here, so every execution
    of PublishOnce is proved to be part of a run of the protocol. */
module OutboxPublisher {
  import opened Wrappers
  import opened PublisherOptions
  import opened OutboxRecords
  import opened OutboxProtocol

  function LastState(run: Run): State
    requires |run.states| > 0
  {
    run.states[|run.states| - 1]
  }

  ghost function Extend(o: Options, run: Run, step: Step): Run
    requires |run.states| > 0 && Enabled(o, LastState(run), step)
  {
    Run(run.states + [Apply(o, LastState(run), step)], run.steps + [step])
  }

  predicate TakenBy(step: Step, p: Publisher) {
    !step.Tick? && !step.Create? && step.p == p
  }

  /** The steps one publisher took, in order. */
  function StepsOf(p: Publisher, steps: seq<Step>): seq<Step> {
    if steps == [] then []
    else
      var last := steps[|steps| - 1];
      StepsOf(p, steps[..|steps| - 1]) + if TakenBy(last, p) then [last] else []
  }

  // One pass, given what its surroundings do

  datatype Outcome = Completed | Cancelled | ClaimFailed | MarkFailed

  /** What the context, the dispatcher and the database do while one record is handled. */
  datatype Fate = Fate(cancelledBefore: bool, delivers: bool, cancelledAfter: bool, mark: CallOutcome)

  /** ... and during one pass: which rows other transactions have locked when the claim
      statement runs, how that statement ends, and the fates of the claimed records. */
  datatype Surroundings = Surroundings(
    cancelled: bool,
    locked: set<RecordId>,
    claim: CallOutcome,
    fates: nat -> Fate)

  predicate MarkIsTried(f: Fate) {
    f.delivers || !f.cancelledAfter
  }

  function RecordOutcome(f: Fate): Outcome {
    if !MarkIsTried(f) then Cancelled else if f.mark.Done? then Completed else Outcome.MarkFailed
  }

  /** One record's steps: a dispatch, and the mark that its result calls for when the mark
      statement takes effect. */
  predicate RecordTrace(p: Publisher, f: Fate, own: seq<Step>) {
    && |own| == (if MarkIsTried(f) && !f.mark.NotDone? then 2 else 1)
    && own[0] == Dispatch(p, f.delivers)
    && (|own| == 2 ==> (if f.delivers then own[1].MarkPublished? else own[1].MarkFailed?) && own[1].p == p)
  }

  predicate GoesThrough(f: Fate) {
    !f.cancelledBefore && RecordOutcome(f) == Completed
  }

  /** n records dispatched one after the other, each marked as its dispatch came out. */
  predicate Handled(p: Publisher, fates: nat -> Fate, own: seq<Step>, n: nat) {
    if n == 0 then own == []
    else
      && |own| >= 2 && Handled(p, fates, own[..|own| - 2], n - 1)
      && GoesThrough(fates(n - 1)) && RecordTrace(p, fates(n - 1), own[|own| - 2..])
  }

  /** The steps over count records: those before record n were handled, and n is the first
      that ends the pass, or count. */
  predicate LoopTrace(p: Publisher, fates: nat -> Fate, count: nat, n: nat, done: seq<Step>, tail: seq<Step>, outcome: Outcome) {
    && n <= count
    && Handled(p, fates, done, n)
    && if n == count then tail == [] && outcome == Completed
       else
         && !GoesThrough(fates(n))
         && if fates(n).cancelledBefore then tail == [] && outcome == Cancelled
            else RecordTrace(p, fates(n), tail) && outcome == RecordOutcome(fates(n))
  }

  predicate IsLoopTrace(p: Publisher, fates: nat -> Fate, count: nat, own: seq<Step>, outcome: Outcome) {
    exists n, m | 0 <= n <= count && 0 <= m <= |own| ::
      LoopTrace(p, fates, count, n, own[..m], own[m..], outcome)
  }

  function StopIf(p: Publisher, outcome: Outcome): seq<Step> {
    if outcome == Completed then [] else [Stop(p)]
  }

  /** What a pass that reaches the database does: one claim, and the claimed records in order
      up to the first that ends it, unless the claim itself is reported as failed. */
  ghost predicate PassTrace(p: Publisher, around: Surroundings, at: Instant, own: seq<Step>, outcome: Outcome) {
    && |own| > 0 && own[0].ClaimBatch? && own[0].p == p && own[0].at == at && own[0].locked == around.locked
    && if around.claim.Lost? then own[1..] == [Stop(p)] && outcome == ClaimFailed
       else exists steps :: own[1..] == steps + StopIf(p, outcome)
                            && IsLoopTrace(p, around.fates, |own[0].chosen|, steps, outcome)
  }

  /** The run went on without a step of p. */
  ghost predicate Preserves(p: Publisher, before: Run, after: Run) {
    && |before.states| > 0 && |after.states| > 0
    && before.states <= after.states
    && before.steps <= after.steps
    && StepsOf(p, after.steps) == StepsOf(p, before.steps)
    && WorkerOf(LastState(after), p) == WorkerOf(LastState(before), p)
    && LastState(before).now <= LastState(after).now
  }

  lemma StepsOfExtend(p: Publisher, steps: seq<Step>, step: Step)
    ensures StepsOf(p, steps + [step]) == StepsOf(p, steps) + if TakenBy(step, p) then [step] else []
  {
    assert (steps + [step])[..|steps|] == steps;
  }

  lemma ExtendPreserves(o: Options, run: Run, p: Publisher, step: Step)
    requires |run.states| > 0 && Enabled(o, LastState(run), step) && !TakenBy(step, p)
    ensures Preserves(p, run, Extend(o, run, step))
  {
    StepsOfExtend(p, run.steps, step);
  }

  /** p still has these claims to work through. */
  ghost predicate Remaining(run: Run, p: Publisher, queue: seq<Claim>) {
    |run.states| > 0 && WorkerOf(LastState(run), p) == if queue == [] then Idle else Working(queue, Ready)
  }

  /** The installation: the table, the clock, every publisher, and the run so far. */
  class World {
    const options: Options
    const table: OutboxTable
    var now: Instant
    var workers: map<Publisher, Worker>
    ghost var run: Run

    function Current(delivered: set<RecordId>): State reads this, table {
      State(now, table.rows, workers, delivered)
    }

    ghost predicate Valid() reads this, table {
      && Normalized(options)
      && table.Valid()
      && |run.states| > 0
      && IsRun(options, run)
      && LastState(run) == Current(LastState(run).delivered)
      && Invariant(options, LastState(run))
    }

    constructor (options: Options, now: Instant)
      requires Normalized(options)
      ensures Valid() && fresh(table) && this.options == options && run.steps == []
    {
      this.options := options;
      this.now := now;
      workers := map[];
      table := new OutboxTable();
      run := Run([State(now, map[], map[], {})], []);
    }

    ghost method Record(step: Step)
      requires Normalized(options) && table.Valid() && IsRun(options, run) && Invariant(options, LastState(run))
      requires Enabled(options, LastState(run), step)
      requires Apply(options, LastState(run), step) == Current(Apply(options, LastState(run), step).delivered)
      modifies this`run
      ensures Valid() && run == Extend(options, old(run), step)
    {
      InvariantStep(options, LastState(run), step);
      run := Extend(options, run, step);
    }

    method Tick(to: Instant)
      requires Valid() && now <= to
      modifies this
      ensures Valid() && run == Extend(options, old(run), OutboxProtocol.Tick(to))
    {
      now := to;
      Record(OutboxProtocol.Tick(to));
    }

    method Create(event: Event, occurredAt: Instant) returns (r: Result<RecordId, OutboxError>)
      requires Valid()
      modifies this, table
      ensures Valid()
      ensures r.Success? ==> Enabled(options, LastState(old(run)), OutboxProtocol.Create(r.value, event, occurredAt))
                             && run == Extend(options, old(run), OutboxProtocol.Create(r.value, event, occurredAt))
      ensures r.Failure? ==> run == old(run)
    {
      r := table.Create(event, occurredAt);
      if r.Success? {
        Record(OutboxProtocol.Create(r.value, event, occurredAt));
      }
    }

    method Claim(p: Publisher, at: Instant, locked: set<RecordId>) returns (chosen: seq<RecordId>)
      requires Valid() && WorkerOf(LastState(run), p).Idle? && at <= now
      modifies this, table
      ensures Valid()
      ensures Selection(LastState(old(run)).rows, chosen, options.batchSize, at, locked)
      ensures Enabled(options, LastState(old(run)), ClaimBatch(p, chosen, at, locked))
      ensures run == Extend(options, old(run), ClaimBatch(p, chosen, at, locked))
      ensures Remaining(run, p, ClaimsOf(LastState(old(run)).rows, chosen, at, options.leaseDuration))
    {
      ghost var before := LastState(run);
      chosen := table.ClaimPending(options.batchSize, options.leaseDuration, at, locked);
      assert Enabled(options, before, ClaimBatch(p, chosen, at, locked));
      assert forall id | id in chosen :: Open(before.rows, id, at, locked);
      assert forall i | 0 <= i < |chosen| :: chosen[i] in chosen;
      var queue := seq(|chosen|, i requires 0 <= i < |chosen| && chosen[i] in table.rows reads this, table =>
        OutboxProtocol.Claim(chosen[i], table.rows[chosen[i]].attempts, at + options.leaseDuration));
      assert queue == ClaimsOf(before.rows, chosen, at, options.leaseDuration);
      workers := workers[p := if queue == [] then Idle else Working(queue, Ready)];
      Record(ClaimBatch(p, chosen, at, locked));
    }

    method Dispatch(p: Publisher, ok: bool)
      requires Valid() && Busy(LastState(run), p) && WorkerOf(LastState(run), p).phase == Ready
      modifies this
      ensures Valid()
      ensures run == Extend(options, old(run), OutboxProtocol.Dispatch(p, ok))
      ensures WorkerOf(LastState(run), p) == WorkerOf(LastState(old(run)), p).(phase := Dispatched(ok))
    {
      workers := workers[p := workers[p].(phase := Dispatched(ok))];
      Record(OutboxProtocol.Dispatch(p, ok));
    }

    method MarkPublished(p: Publisher, at: Instant)
      requires Valid() && at <= now
      requires Busy(LastState(run), p) && WorkerOf(LastState(run), p).phase == Dispatched(true)
      modifies this, table
      ensures Valid()
      ensures Enabled(options, LastState(old(run)), OutboxProtocol.MarkPublished(p, at))
      ensures run == Extend(options, old(run), OutboxProtocol.MarkPublished(p, at))
    {
      assert Holds(LastState(run), p, 0, Head(LastState(run), p));
      var rest := workers[p].queue[1..];
      var result := table.MarkPublished(workers[p].queue[0].id, at);
      workers := workers[p := if rest == [] then Idle else Working(rest, Ready)];
      Record(OutboxProtocol.MarkPublished(p, at));
    }

    method MarkFailed(p: Publisher, message: string, at: Instant)
      requires Valid() && at <= now
      requires Busy(LastState(run), p) && WorkerOf(LastState(run), p).phase == Dispatched(false)
      modifies this, table
      ensures Valid()
      ensures Enabled(options, LastState(old(run)), OutboxProtocol.MarkFailed(p, message, at))
      ensures run == Extend(options, old(run), OutboxProtocol.MarkFailed(p, message, at))
    {
      assert Holds(LastState(run), p, 0, Head(LastState(run), p));
      var claim := workers[p].queue[0];
      var rest := workers[p].queue[1..];
      var next := at + RetryBackoff(options, claim.attempt);
      var result := table.MarkFailed(claim.id, message, next, at, options.maxAttempts);
      workers := workers[p := if rest == [] then Idle else Working(rest, Ready)];
      Record(OutboxProtocol.MarkFailed(p, message, at));
    }

    method Stop(p: Publisher)
      requires Valid()
      modifies this
      ensures Valid()
      ensures run == Extend(options, old(run), OutboxProtocol.Stop(p))
      ensures WorkerOf(LastState(run), p).Idle?
    {
      workers := workers[p := Idle];
      Record(OutboxProtocol.Stop(p));
    }

    /** Another publisher takes a step of its loop. */
    method OtherPublisherStep(q: Publisher, p: Publisher)
      requires Valid() && q != p
      modifies this, table
      ensures Valid() && Preserves(p, old(run), run)
    {
      ghost var before := run;
      var at: Instant := *;
      var message: string := *;
      var stops: bool := *;
      var locked: set<RecordId> := *;
      if q !in workers || workers[q].Idle? {
        if at <= now {
          var chosen := Claim(q, at, locked);
          ExtendPreserves(options, before, p, ClaimBatch(q, chosen, at, locked));
        }
      } else if stops || workers[q].queue == [] {
        Stop(q);
        ExtendPreserves(options, before, p, OutboxProtocol.Stop(q));
      } else if workers[q].phase == Ready {
        var ok: bool := *;
        Dispatch(q, ok);
        ExtendPreserves(options, before, p, OutboxProtocol.Dispatch(q, ok));
      } else if at <= now {
        if workers[q].phase.ok {
          MarkPublished(q, at);
          ExtendPreserves(options, before, p, OutboxProtocol.MarkPublished(q, at));
        } else {
          MarkFailed(q, message, at);
          ExtendPreserves(options, before, p, OutboxProtocol.MarkFailed(q, message, at));
        }
      }
    }

    /** Something that publisher p does not do: time passes, a use case writes an event, or
        another publisher takes a step. */
    method OtherStep(p: Publisher)
      requires Valid()
      modifies this, table
      ensures Valid() && Preserves(p, old(run), run)
    {
      ghost var before := run;
      var q: Publisher := *;
      var at: Instant := *;
      var event: Event := *;
      var choice: int := *;
      if choice == 0 && now <= at {
        Tick(at);
        ExtendPreserves(options, before, p, OutboxProtocol.Tick(at));
      } else if choice == 1 {
        var created := Create(event, at);
        if created.Success? {
          ExtendPreserves(options, before, p, OutboxProtocol.Create(created.value, event, at));
        }
      } else if q != p {
        OtherPublisherStep(q, p);
      }
    }

    /** Any number of such steps. */
    method Interfere(p: Publisher)
      requires Valid()
      modifies this, table
      ensures Valid() && Preserves(p, old(run), run)
      ensures old(now) <= now
    {
      var count: nat :| 0 <= count;
      for i := 0 to count
        invariant Valid() && Preserves(p, old(run), run)
        invariant old(now) <= now
      {
        OtherStep(p);
      }
    }
  }

  ghost predicate Took(before: Run, after: Run, p: Publisher, own: seq<Step>) {
    && before.states <= after.states
    && before.steps <= after.steps
    && StepsOf(p, after.steps) == StepsOf(p, before.steps) + own
  }

  lemma TookInterference(before: Run, middle: Run, after: Run, p: Publisher, own: seq<Step>)
    requires Took(before, middle, p, own) && Preserves(p, middle, after)
    ensures Took(before, after, p, own)
  {}

  lemma TookStep(o: Options, before: Run, middle: Run, p: Publisher, own: seq<Step>, step: Step)
    requires |middle.states| > 0 && Enabled(o, LastState(middle), step) && TakenBy(step, p)
    requires Took(before, middle, p, own)
    ensures Took(before, Extend(o, middle, step), p, own + [step])
  {
    StepsOfExtend(p, middle.steps, step);
    assert StepsOf(p, before.steps) + (own + [step]) == StepsOf(p, before.steps) + own + [step];
  }

  /** Marks the dispatched record, with a clock reading taken before the statement. */
  method Mark(world: World, p: Publisher, ok: bool, ghost queue: seq<Claim>) returns (ghost step: Step)
    requires world.Valid() && queue != []
    requires WorkerOf(LastState(world.run), p) == Working(queue, Dispatched(ok))
    modifies world, world.table
    ensures world.Valid() && Took(old(world.run), world.run, p, [step])
    ensures (if ok then step.MarkPublished? else step.MarkFailed?) && step.p == p
    ensures Remaining(world.run, p, queue[1..])
  {
    var at := world.now;
    world.Interfere(p);
    ghost var run1 := world.run;
    TookInterference(old(world.run), old(world.run), run1, p, []);
    if ok {
      step := MarkPublished(p, at);
      world.MarkPublished(p, at);
    } else {
      var message: string := *;
      step := Step.MarkFailed(p, message, at);
      world.MarkFailed(p, message, at);
    }
    TookStep(world.options, old(world.run), run1, p, [], step);
    assert [] + [step] == [step];
  }

  /** Dispatches the next claimed record and marks it as the dispatch came out, unless the
      dispatch failed with the context ended or the mark statement fails. */
  method DispatchRecord(world: World, p: Publisher, fate: Fate, ghost queue: seq<Claim>)
    returns (outcome: Outcome, ghost own: seq<Step>)
    requires world.Valid() && queue != [] && Remaining(world.run, p, queue)
    modifies world, world.table
    ensures world.Valid() && Took(old(world.run), world.run, p, own)
    ensures outcome == RecordOutcome(fate) && RecordTrace(p, fate, own)
    ensures |own| > 0 && own[0] == Dispatch(p, fate.delivers)
    ensures |own| == if (!fate.delivers && fate.cancelledAfter) || fate.mark == NotDone then 1 else 2
    ensures |own| == 2 ==> own[1].p == p && (fate.delivers ==> own[1].MarkPublished?) && (!fate.delivers ==> own[1].MarkFailed?)
    ensures outcome == if !fate.delivers && fate.cancelledAfter then Cancelled
                       else if fate.mark == Done then Completed else Outcome.MarkFailed
    ensures outcome == Completed ==> Remaining(world.run, p, queue[1..])
  {
    hide IsRun; hide Invariant; hide Apply; hide StepsOf;
    world.Interfere(p);
    ghost var run0 := world.run;
    TookInterference(old(world.run), old(world.run), run0, p, []);
    world.Dispatch(p, fate.delivers);
    own := [] + [Dispatch(p, fate.delivers)];
    TookStep(world.options, old(world.run), run0, p, [], Dispatch(p, fate.delivers));
    ghost var run1 := world.run;
    world.Interfere(p);
    TookInterference(old(world.run), run1, world.run, p, own);
    if !fate.delivers && fate.cancelledAfter {
      return Cancelled, own;
    }
    if !fate.mark.NotDone? {
      ghost var run2 := world.run;
      ghost var step := Mark(world, p, fate.delivers, queue);
      TookConcat(old(world.run), run2, world.run, p, own, [step]);
      own := own + [step];
    }
    outcome := if fate.mark.Done? then Completed else Outcome.MarkFailed;
  }

  lemma TookConcat(before: Run, middle: Run, after: Run, p: Publisher, own: seq<Step>, more: seq<Step>)
    requires Took(before, middle, p, own) && Took(middle, after, p, more)
    ensures Took(before, after, p, own + more)
  {
    assert StepsOf(p, before.steps) + (own + more) == StepsOf(p, before.steps) + own + more;
  }

  lemma HandledExtend(p: Publisher, fates: nat -> Fate, own: seq<Step>, n: nat, more: seq<Step>)
    requires Handled(p, fates, own, n) && GoesThrough(fates(n)) && RecordTrace(p, fates(n), more)
    ensures Handled(p, fates, own + more, n + 1)
  {
    assert (own + more)[..|own|] == own && (own + more)[|own|..] == more;
  }

  lemma LoopEnds(p: Publisher, fates: nat -> Fate, count: nat, n: nat, done: seq<Step>, tail: seq<Step>, outcome: Outcome)
    requires LoopTrace(p, fates, count, n, done, tail, outcome)
    ensures IsLoopTrace(p, fates, count, done + tail, outcome)
  {
    hide Handled; hide RecordTrace;
    var own := done + tail;
    assert own[..|done|] == done && own[|done|..] == tail;
  }

  /** The context lasts, and every record's mark is tried and done. */
  predicate AllGoThrough(fates: nat -> Fate, count: nat) {
    forall i: nat | i < count ::
      && !fates(i).cancelledBefore
      && (fates(i).delivers || !fates(i).cancelledAfter)
      && fates(i).mark == Done
  }

  /** Works through the claimed records until one of them ends the pass. */
  method DispatchAll(world: World, p: Publisher, fates: nat -> Fate, ghost queue: seq<Claim>, count: nat)
    returns (outcome: Outcome, ghost own: seq<Step>)
    requires world.Valid() && Remaining(world.run, p, queue) && |queue| == count
    modifies world, world.table
    ensures world.Valid() && Took(old(world.run), world.run, p, own)
    ensures IsLoopTrace(p, fates, count, own, outcome)
    ensures outcome == Completed <==> AllGoThrough(fates, count)
    ensures outcome == Completed ==> |own| == 2 * count && Remaining(world.run, p, [])
  {
    hide IsRun; hide Invariant; hide Apply; hide StepsOf; hide Handled; hide IsLoopTrace;
    own := [];
    HandledNone(p, fates);
    for i := 0 to count
      invariant world.Valid() && Took(old(world.run), world.run, p, own)
      invariant Handled(p, fates, own, i) && Remaining(world.run, p, queue[i..])
      invariant |own| == 2 * i && AllGoThrough(fates, i)
    {
      if fates(i).cancelledBefore {
        LoopEnds(p, fates, count, i, own, [], Cancelled);
        assert own + [] == own;
        return Cancelled, own;
      }
      ghost var before := world.run;
      ghost var more;
      outcome, more := DispatchRecord(world, p, fates(i), queue[i..]);
      TookConcat(old(world.run), before, world.run, p, own, more);
      if outcome != Completed {
        LoopEnds(p, fates, count, i, own, more, outcome);
        own := own + more;
        return;
      }
      HandledExtend(p, fates, own, i, more);
      own := own + more;
      assert queue[i..][1..] == queue[i + 1..];
    }
    outcome := Completed;
    LoopEnds(p, fates, count, count, own, [], Completed);
    assert own + [] == own;
  }

  lemma HandledNone(p: Publisher, fates: nat -> Fate)
    ensures Handled(p, fates, [], 0)
  {}

  /** The pass from the claim statement on. */
  method ClaimAndDispatch(world: World, p: Publisher, at: Instant, around: Surroundings)
    returns (outcome: Outcome, ghost own: seq<Step>)
    requires world.Valid() && WorkerOf(LastState(world.run), p).Idle? && at <= world.now && !around.claim.NotDone?
    modifies world, world.table
    ensures world.Valid() && Took(old(world.run), world.run, p, own)
    ensures PassTrace(p, around, at, own + StopIf(p, outcome), outcome)
    ensures outcome == Completed <==>
              around.claim == Done && own != [] && own[0].ClaimBatch? && AllGoThrough(around.fates, |own[0].chosen|)
    ensures outcome == Completed ==> |own| == 1 + 2 * |own[0].chosen|
    ensures outcome == Completed ==> WorkerOf(LastState(world.run), p).Idle?
  {
    hide IsRun; hide Invariant; hide Apply; hide StepsOf; hide IsLoopTrace;
    var chosen := world.Claim(p, at, around.locked);
    ghost var claim := ClaimBatch(p, chosen, at, around.locked);
    ghost var queue := ClaimsOf(LastState(old(world.run)).rows, chosen, at, world.options.leaseDuration);
    TookStep(world.options, old(world.run), old(world.run), p, [], claim);
    own := [claim];
    assert [] + [claim] == own;
    ghost var run1 := world.run;
    if around.claim.Lost? {
      outcome := ClaimFailed;
      assert (own + [Stop(p)])[1..] == [Stop(p)];
      return;
    }
    ghost var more;
    outcome, more := DispatchAll(world, p, around.fates, queue, |chosen|);
    TookConcat(old(world.run), run1, world.run, p, own, more);
    own := own + more;
    assert (own + StopIf(p, outcome))[1..] == more + StopIf(p, outcome);
  }

  lemma {:induction false} StepsOfMember(p: Publisher, steps: seq<Step>, from: nat, own: seq<Step>) returns (n: nat)
    requires from <= |steps| && StepsOf(p, steps) == StepsOf(p, steps[..from]) + own && own != []
    ensures from <= n < |steps| && steps[n] == own[0]
  {
    assert steps[..|steps|] == steps;
    assert from < |steps|;
    var init, last := steps[..|steps| - 1], steps[|steps| - 1];
    assert init[..from] == steps[..from];
    StepsOfBefore(p, init, from);
    var before := StepsOf(p, init)[|StepsOf(p, steps[..from])|..];
    if before == [] {
      assert StepsOf(p, steps)[|StepsOf(p, init)|] == own[0];
      n := |steps| - 1;
    } else {
      assert own[0] == StepsOf(p, steps)[|StepsOf(p, steps[..from])|];
      n := StepsOfMember(p, init, from, before);
    }
  }

  lemma {:induction false} StepsOfBefore(p: Publisher, steps: seq<Step>, from: nat)
    requires from <= |steps|
    ensures StepsOf(p, steps[..from]) <= StepsOf(p, steps)
  {
    if from < |steps| {
      StepsOfBefore(p, steps[..|steps| - 1], from);
      assert steps[..|steps| - 1][..from] == steps[..from];
    } else {
      assert steps[..from] == steps;
    }
  }

  /** The claim statement took the earliest claimable rows there were when it ran. */
  ghost predicate ClaimedEarliest(o: Options, before: Run, after: Run, claim: Step) {
    exists n | |before.steps| <= n < |after.steps| < |after.states| ::
      && after.steps[n] == claim && claim.ClaimBatch?
      && Selection(after.states[n].rows, claim.chosen, o.batchSize, claim.at, claim.locked)
  }

  lemma ClaimIsInRun(o: Options, before: Run, after: Run, p: Publisher, own: seq<Step>)
    requires IsRun(o, after) && Took(before, after, p, own) && own != [] && own[0].ClaimBatch?
    ensures ClaimedEarliest(o, before, after, own[0])
  {
    assert after.steps[..|before.steps|] == before.steps;
    var n := StepsOfMember(p, after.steps, |before.steps|, own);
    RunStep(o, after, n);
    hide IsRun; hide Selection; hide Apply;
  }

  /** One pass of the publisher. Its execution extends the installation's run, so everything
      proved of runs holds of it. Its own steps are none when it is disabled, cancelled or
      cannot claim; otherwise one claim of the earliest claimable rows, by the clock as the
      pass began, and then record by record a dispatch and the matching mark up to the
      first record that ends the pass. However it ends it holds no claim any more. */
  method PublishOnce(world: World, p: Publisher, around: Surroundings) returns (outcome: Outcome, ghost own: seq<Step>)
    requires world.Valid() && WorkerOf(LastState(world.run), p).Idle?
    modifies world, world.table
    ensures world.Valid() && Took(old(world.run), world.run, p, own)
    ensures own == [] <==> !world.options.enabled || around.cancelled || around.claim.NotDone?
    ensures own == [] ==> outcome == if !world.options.enabled then Completed else if around.cancelled then Cancelled else ClaimFailed
    ensures own != [] ==> PassTrace(p, around, old(world.now), own, outcome)
    ensures own != [] ==> own[0].ClaimBatch?
    ensures own != [] ==>
              (outcome == Completed <==> around.claim == Done && AllGoThrough(around.fates, |own[0].chosen|))
    ensures own != [] && outcome == Completed ==> |own| == 1 + 2 * |own[0].chosen|
    ensures own != [] ==> ClaimedEarliest(world.options, old(world.run), world.run, own[0])
    ensures WorkerOf(LastState(world.run), p).Idle?
  {
    hide IsRun; hide Invariant; hide Apply; hide StepsOf; hide IsLoopTrace; hide ClaimedEarliest;
    own := [];
    if !world.options.enabled {
      return Completed, own;
    }
    if around.cancelled {
      return Cancelled, own;
    }
    var at := world.now;
    world.Interfere(p);
    TookInterference(old(world.run), old(world.run), world.run, p, []);
    if around.claim.NotDone? {
      return ClaimFailed, own;
    }
    ghost var run0 := world.run;
    ghost var more;
    outcome, more := ClaimAndDispatch(world, p, at, around);
    TookConcat(old(world.run), run0, world.run, p, [], more);
    own := [] + more;
    assert own == more;
    if outcome != Completed {
      ghost var run1 := world.run;
      world.Stop(p);
      TookStep(world.options, old(world.run), run1, p, own, Stop(p));
    }
    own := own + StopIf(p, outcome);
    ClaimIsInRun(world.options, old(world.run), world.run, p, own);
  }
}
