/** Any number of publishers over one outbox table. Each statement is one atomic step; a
    publisher may stop at any point (crash, cancelled context, database error). Clock
    readings are taken before the statement runs, so they may lag behind the true time. */
module OutboxProtocol {
  import opened Wrappers
  import opened PublisherOptions
  import opened OutboxRecords

  type Publisher = nat

  /** What a publisher remembers about a row it claimed. */
  datatype Claim = Claim(id: RecordId, attempt: nat, expiresAt: Instant)

  /** The head of the queue is about to be dispatched, or its dispatch has returned. */
  datatype Phase = Ready | Dispatched(ok: bool)

  datatype Worker = Idle | Working(queue: seq<Claim>, phase: Phase)

  datatype State = State(
    now: Instant,
    rows: Table,
    workers: map<Publisher, Worker>,
    delivered: set<RecordId>)  // records some dispatch of which has succeeded

  datatype Step =
    | Tick(to: Instant)
    | Create(id: RecordId, event: Event, occurredAt: Instant)
    | ClaimBatch(p: Publisher, chosen: seq<RecordId>, at: Instant, locked: set<RecordId>)  // by other transactions
    | Dispatch(p: Publisher, ok: bool)
    | MarkPublished(p: Publisher, at: Instant)
    | MarkFailed(p: Publisher, message: string, at: Instant)
    | Stop(p: Publisher)

  function WorkerOf(s: State, p: Publisher): Worker {
    if p in s.workers then s.workers[p] else Idle
  }

  predicate Busy(s: State, p: Publisher) {
    WorkerOf(s, p).Working? && |WorkerOf(s, p).queue| > 0
  }

  function Head(s: State, p: Publisher): Claim
    requires Busy(s, p)
  {
    WorkerOf(s, p).queue[0]
  }

  function ClaimsOf(rows: Table, chosen: seq<RecordId>, at: Instant, lease: int): (queue: seq<Claim>)
    requires forall id | id in chosen :: id in rows
    ensures |queue| == |chosen|
    ensures forall i | 0 <= i < |queue| ::
              queue[i] == Claim(chosen[i], rows[chosen[i]].attempts + 1, at + lease)
  {
    seq(|chosen|, i requires 0 <= i < |chosen| =>
      assert chosen[i] in chosen; Claim(chosen[i], rows[chosen[i]].attempts + 1, at + lease))
  }

  predicate Enabled(o: Options, s: State, step: Step) {
    match step
    case Tick(to) => s.now <= to
    case Create(id, event, _) => id !in s.rows && DedupFree(s.rows, event.dedupKey)
    case ClaimBatch(p, chosen, at, locked) =>
      WorkerOf(s, p).Idle? && at <= s.now && Selection(s.rows, chosen, o.batchSize, at, locked)
    case Dispatch(p, _) => Busy(s, p) && WorkerOf(s, p).phase == Ready
    case MarkPublished(p, at) =>
      Busy(s, p) && WorkerOf(s, p).phase == Dispatched(true) && at <= s.now && Head(s, p).id in s.rows
    case MarkFailed(p, _, at) =>
      Busy(s, p) && WorkerOf(s, p).phase == Dispatched(false) && at <= s.now && Head(s, p).id in s.rows
    case Stop(_) => true
  }

  /** The loop moves on to the next claimed record, or ends. */
  function Advance(s: State, p: Publisher): Worker
    requires Busy(s, p)
  {
    var rest := WorkerOf(s, p).queue[1..];
    if rest == [] then Idle else Working(rest, Ready)
  }

  function Apply(o: Options, s: State, step: Step): State
    requires Enabled(o, s, step)
  {
    match step
    case Tick(to) => s.(now := to)
    case Create(id, event, occurredAt) => s.(rows := s.rows[id := NewRow(event, occurredAt)])
    case ClaimBatch(p, chosen, at, _) =>
      var queue := ClaimsOf(s.rows, chosen, at, o.leaseDuration);
      s.(rows := ClaimedRows(s.rows, IdSet(chosen), at, o.leaseDuration),
         workers := s.workers[p := if queue == [] then Idle else Working(queue, Ready)])
    case Dispatch(p, ok) =>
      s.(workers := s.workers[p := WorkerOf(s, p).(phase := Dispatched(ok))],
         delivered := if ok then s.delivered + {Head(s, p).id} else s.delivered)
    case MarkPublished(p, at) =>
      var id := Head(s, p).id;
      s.(rows := s.rows[id := PublishedRow(s.rows[id], at)],
         workers := s.workers[p := Advance(s, p)])
    case MarkFailed(p, message, at) =>
      var claim := Head(s, p);
      var next := at + RetryBackoff(o, claim.attempt);
      s.(rows := s.rows[claim.id := FailedRow(s.rows[claim.id], message, next, at, o.maxAttempts)],
         workers := s.workers[p := Advance(s, p)])
    case Stop(p) => s.(workers := s.workers[p := Idle])
  }

  // Runs

  datatype Run = Run(states: seq<State>, steps: seq<Step>)

  predicate Initial(s: State) {
    s.rows == map[] && s.workers == map[] && s.delivered == {}
  }

  ghost predicate IsRun(o: Options, run: Run) {
    && |run.states| == |run.steps| + 1
    && Initial(run.states[0])
    && forall i {:trigger run.steps[i]} | 0 <= i < |run.steps| ::
         Enabled(o, run.states[i], run.steps[i]) && run.states[i + 1] == Apply(o, run.states[i], run.steps[i])
  }

  lemma RunStep(o: Options, run: Run, i: nat)
    requires IsRun(o, run) && i < |run.steps|
    ensures Enabled(o, run.states[i], run.steps[i])
    ensures run.states[i + 1] == Apply(o, run.states[i], run.steps[i])
  {}

  // What every run keeps

  /** p's queue holds claim at position i. */
  predicate Holds(s: State, p: Publisher, i: int, claim: Claim) {
    && WorkerOf(s, p).Working?
    && 0 <= i < |WorkerOf(s, p).queue|
    && WorkerOf(s, p).queue[i] == claim
  }

  predicate RowInvariant(o: Options, s: State, id: RecordId)
    requires id in s.rows
  {
    var r := s.rows[id];
    && (r.status.Pending? <==> r.attempts == 0)
    && (r.status.Processing? <==> r.claimedAt.Some?)
    && (r.status.Processing? <==> r.claimExpiresAt.Some?)
    && (r.status.Failed? ==> 0 < r.attempts < o.maxAttempts)
    && (r.status.Dead? ==> r.attempts >= o.maxAttempts)
    && (r.status.Published? ==> id in s.delivered)
  }

  /** Claims name rows that were claimed at least as often as the claim says, and no two
      claims carry the same record and attempt number. */
  ghost predicate ClaimInvariant(s: State) {
    && (forall p, i, c | Holds(s, p, i, c) :: c.id in s.rows && 1 <= c.attempt <= s.rows[c.id].attempts)
    && (forall p, i, c, q, j, d | Holds(s, p, i, c) && Holds(s, q, j, d) && c.id == d.id && c.attempt == d.attempt ::
          p == q && i == j)
  }

  ghost predicate Invariant(o: Options, s: State) {
    && (forall id | id in s.rows :: RowInvariant(o, s, id))
    && (forall p | Busy(s, p) && WorkerOf(s, p).phase == Dispatched(true) :: Head(s, p).id in s.delivered)
    && ClaimInvariant(s)
  }

  /** Where the claims after a step come from. */
  lemma ClaimOrigin(o: Options, s: State, step: Step, p: Publisher, i: int, c: Claim)
    requires Enabled(o, s, step) && Holds(Apply(o, s, step), p, i, c)
    ensures
      || (step.ClaimBatch? && step.p == p && 0 <= i < |step.chosen| && c.id == step.chosen[i]
          && c.id in s.rows && c.attempt == s.rows[c.id].attempts + 1 && c.expiresAt == step.at + o.leaseDuration)
      || (!(step.ClaimBatch? && step.p == p) && Holds(s, p, i, c)
          && ((step.MarkPublished? || step.MarkFailed?) ==> step.p != p))
      || ((step.MarkPublished? || step.MarkFailed?) && step.p == p && Holds(s, p, i + 1, c))
  {
    hide Selection;
    if step.ClaimBatch? && step.p == p {
      ClaimedRowsExist(o, s, step);
    }
  }

  lemma ClaimedRowsExist(o: Options, s: State, step: Step)
    requires Enabled(o, s, step) && step.ClaimBatch?
    ensures forall id | id in step.chosen :: id in s.rows && Claimable(s.rows[id], step.at)
  {}

  /** Rows are never deleted and attempts never decrease. */
  lemma RowsGrow(o: Options, s: State, step: Step, id: RecordId)
    requires Enabled(o, s, step) && id in s.rows
    ensures id in Apply(o, s, step).rows
    ensures Apply(o, s, step).rows[id].attempts ==
            s.rows[id].attempts + if step.ClaimBatch? && id in step.chosen then 1 else 0
  {}

  lemma ClaimInvariantStep(o: Options, s: State, step: Step)
    requires Invariant(o, s) && Enabled(o, s, step)
    ensures ClaimInvariant(Apply(o, s, step))
  {
    var t := Apply(o, s, step);
    forall p, i, c | Holds(t, p, i, c)
      ensures c.id in t.rows && 1 <= c.attempt <= t.rows[c.id].attempts
    {
      ClaimOrigin(o, s, step, p, i, c);
      assert c.id in s.rows by {
        if Holds(s, p, i, c) {} else if Holds(s, p, i + 1, c) {}
      }
      RowsGrow(o, s, step, c.id);
    }
    forall p, i, c, q, j, d | Holds(t, p, i, c) && Holds(t, q, j, d) && c.id == d.id && c.attempt == d.attempt
      ensures p == q && i == j
    {
      ClaimOrigin(o, s, step, p, i, c);
      ClaimOrigin(o, s, step, q, j, d);
    }
  }

  lemma InvariantStep(o: Options, s: State, step: Step)
    requires Normalized(o) && Invariant(o, s) && Enabled(o, s, step)
    ensures Invariant(o, Apply(o, s, step))
  {
    ClaimInvariantStep(o, s, step);
    var t := Apply(o, s, step);
    forall p | Busy(t, p) && WorkerOf(t, p).phase == Dispatched(true)
      ensures Head(t, p).id in t.delivered
    {
      if !(step.Dispatch? && step.p == p) {
        assert Busy(s, p) && WorkerOf(s, p) == WorkerOf(t, p);
      }
    }
    forall id | id in t.rows
      ensures RowInvariant(o, t, id)
    {
      if id in s.rows {
        assert RowInvariant(o, s, id);
        if step.MarkFailed? || step.MarkPublished? {
          assert Holds(s, step.p, 0, Head(s, step.p));
        }
      }
    }
  }

  /** In every run, late marks included, the status and the columns agree: pending means
      never claimed, processing means both claim columns are set, failed and dead sit on
      the right side of the attempt limit, and a published record was delivered. */
  lemma {:induction false} EveryRunKeepsInvariant(o: Options, run: Run, n: nat)
    requires Normalized(o) && IsRun(o, run) && n < |run.states|
    ensures Invariant(o, run.states[n])
  {
    if n > 0 {
      EveryRunKeepsInvariant(o, run, n - 1);
      RunStep(o, run, n - 1);
      hide IsRun; hide Apply; hide Enabled; hide Invariant;
      InvariantStep(o, run.states[n - 1], run.steps[n - 1]);
    }
  }
}
