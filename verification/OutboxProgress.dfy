/** No record is lost, attempts are bounded, and retries wait. */
module OutboxProgress {
  import opened Wrappers
  import opened PublisherOptions
  import opened OutboxRecords
  import opened OutboxProtocol
  import opened OutboxLeases

  predicate ClaimsRecord(step: Step, id: RecordId) {
    step.ClaimBatch? && id in step.chosen
  }

  predicate MarksRecord(s: State, step: Step, id: RecordId) {
    IsMark(step) && Busy(s, step.p) && Head(s, step.p).id == id
  }

  /** A claim that takes the record over from a publisher whose lease has expired. */
  predicate Reclaims(s: State, step: Step, id: RecordId) {
    ClaimsRecord(step, id) && id in s.rows && s.rows[id].status.Processing?
  }

  function ClaimCount(run: Run, id: RecordId, n: nat): nat
    requires n <= |run.steps|
  {
    if n == 0 then 0
    else ClaimCount(run, id, n - 1) + if ClaimsRecord(run.steps[n - 1], id) then 1 else 0
  }

  function ReclaimCount(run: Run, id: RecordId, n: nat): nat
    requires n <= |run.steps| < |run.states|
  {
    if n == 0 then 0
    else ReclaimCount(run, id, n - 1) + if Reclaims(run.states[n - 1], run.steps[n - 1], id) then 1 else 0
  }

  /** The attempts column counts the claims, in every run. */
  lemma {:induction false} AttemptsCountClaims(o: Options, run: Run, id: RecordId, n: nat)
    requires IsRun(o, run) && n <= |run.steps|
    ensures ClaimCount(run, id, n) == if id in run.states[n].rows then run.states[n].rows[id].attempts else 0
  {
    if n > 0 {
      AttemptsCountClaims(o, run, id, n - 1);
      if id in run.states[n - 1].rows {
        RowsGrow(o, run.states[n - 1], run.steps[n - 1], id);
      }
    }
  }

  /** Claims beyond the attempt limit are reclaims of expired leases, one for one. */
  lemma {:induction false} ClaimsAreBounded(o: Options, run: Run, id: RecordId, n: nat)
    requires Normalized(o) && IsRun(o, run) && n <= |run.steps|
    ensures ClaimCount(run, id, n) <= o.maxAttempts + ReclaimCount(run, id, n)
  {
    if n > 0 {
      ClaimsAreBounded(o, run, id, n - 1);
      AttemptsCountClaims(o, run, id, n - 1);
      EveryRunKeepsInvariant(o, run, n - 1);
      if ClaimsRecord(run.steps[n - 1], id) {
        assert RowInvariant(o, run.states[n - 1], id);
      }
    }
  }

  /** While no lease on it expires into another claim, a record is claimed at most
      maxAttempts times, every claim uses up one of them, and once they are used up the
      record is published, dead, or in the hands of the last claimer, whose mark settles it. */
  lemma RecordSettles(o: Options, run: Run, id: RecordId, n: nat)
    requires Normalized(o) && IsRun(o, run) && n <= |run.steps|
    requires id in run.states[n].rows && ReclaimCount(run, id, n) == 0
    ensures ClaimCount(run, id, n) == run.states[n].rows[id].attempts <= o.maxAttempts
    ensures ClaimCount(run, id, n) == o.maxAttempts ==>
              Terminal(run.states[n].rows[id].status) || run.states[n].rows[id].status.Processing?
    ensures ClaimCount(run, id, n) == o.maxAttempts && n < |run.steps| && MarksRecord(run.states[n], run.steps[n], id) ==>
              id in run.states[n + 1].rows && Terminal(run.states[n + 1].rows[id].status)
  {
    AttemptsCountClaims(o, run, id, n);
    ClaimsAreBounded(o, run, id, n);
    EveryRunKeepsInvariant(o, run, n);
    assert RowInvariant(o, run.states[n], id);
  }

  /** In every run each record that is not settled has an instant from which, and only from
      which, it may be claimed. */
  lemma EveryRecordWakes(o: Options, run: Run, id: RecordId, n: nat, now: Instant)
    requires Normalized(o) && IsRun(o, run) && n <= |run.steps| && id in run.states[n].rows
    ensures WakeAt(run.states[n].rows[id]).Some? <==> !Terminal(run.states[n].rows[id].status)
    ensures Claimable(run.states[n].rows[id], now) <==>
            WakeAt(run.states[n].rows[id]).Some? && WakeAt(run.states[n].rows[id]).value <= now
  {
    EveryRunKeepsInvariant(o, run, n);
    assert RowInvariant(o, run.states[n], id);
  }

  ghost predicate Untouched(run: Run, id: RecordId, m: nat, n: nat)
    requires |run.states| == |run.steps| + 1 && m <= n <= |run.steps|
  {
    forall i | m <= i < n :: !ClaimsRecord(run.steps[i], id) && !MarksRecord(run.states[i], run.steps[i], id)
  }

  lemma UntouchedStep(o: Options, s: State, step: Step, id: RecordId)
    requires Enabled(o, s, step) && id in s.rows
    requires !ClaimsRecord(step, id) && !MarksRecord(s, step, id)
    ensures id in Apply(o, s, step).rows && Apply(o, s, step).rows[id] == s.rows[id]
  {}

  lemma {:induction false} UntouchedRowStays(o: Options, run: Run, id: RecordId, m: nat, n: nat)
    requires IsRun(o, run) && m <= n <= |run.steps| && id in run.states[m].rows
    requires Untouched(run, id, m, n)
    ensures id in run.states[n].rows && run.states[n].rows[id] == run.states[m].rows[id]
    decreases n
  {
    if m < n {
      UntouchedRowStays(o, run, id, m, n - 1);
      UntouchedStep(o, run.states[n - 1], run.steps[n - 1], id);
      RunStep(o, run, n - 1);
      hide IsRun; hide Apply; hide Enabled;
    }
  }

  /** A claim takes at most a batch of different records, each pending or failed with its
      instant come, or processing with its lease over; and it leaves such a record behind,
      unlocked, only when its batch is full of records that are not later. */
  lemma ClaimTakesEarliest(o: Options, run: Run, id: RecordId, n: nat)
    requires Normalized(o) && IsRun(o, run) && n < |run.steps| && run.steps[n].ClaimBatch?
    requires id in run.states[n].rows && id !in run.steps[n].locked
    ensures var rows, step := run.states[n].rows, run.steps[n];
            var r := rows[id];
            var due := || ((r.status == Pending || r.status == Failed) && r.availableAt <= step.at)
                       || (r.status == Processing && r.claimExpiresAt.Some? && r.claimExpiresAt.value <= step.at);
            && |step.chosen| <= o.batchSize
            && (forall i, j | 0 <= i < j < |step.chosen| :: step.chosen[i] != step.chosen[j])
            && (id in step.chosen ==> due)
            && (due ==>
                  || id in step.chosen
                  || (&& |step.chosen| == o.batchSize
                      && forall other | other in step.chosen ::
                           && other in rows
                           && (|| rows[other].availableAt < r.availableAt
                               || (rows[other].availableAt == r.availableAt && rows[other].createdAt <= r.createdAt))))
  {
    RunStep(o, run, n);
    hide IsRun; hide Apply;
  }

  /** No record is lost. However its publisher went away, once the record's instant has
      come and nobody has touched it, any idle publisher can claim it, even when every other
      record is locked. */
  lemma NoRecordIsLost(o: Options, run: Run, id: RecordId, m: nat, n: nat, q: Publisher)
    requires Normalized(o) && IsRun(o, run) && m <= n <= |run.steps|
    requires id in run.states[m].rows && !Terminal(run.states[m].rows[id].status)
    requires Untouched(run, id, m, n)
    requires WorkerOf(run.states[n], q).Idle?
    ensures WakeAt(run.states[m].rows[id]).Some?
    ensures var s := run.states[n];
            WakeAt(run.states[m].rows[id]).value <= s.now <==>
            Enabled(o, s, ClaimBatch(q, [id], s.now, s.rows.Keys - {id}))
  {
    UntouchedRowStays(o, run, id, m, n);
    EveryRecordWakes(o, run, id, n, run.states[n].now);
    assert id in [id];
  }

  /** No record is passed over: while nobody touches it, any claim of any publisher takes it
      from its instant on, and not before, unless another transaction has it locked or the
      batch is full of records that are not later. */
  lemma NoRecordIsPassedOver(o: Options, run: Run, id: RecordId, m: nat, n: nat)
    requires Normalized(o) && IsRun(o, run) && m <= n < |run.steps|
    requires id in run.states[m].rows && !Terminal(run.states[m].rows[id].status)
    requires Untouched(run, id, m, n)
    requires run.steps[n].ClaimBatch? && id !in run.steps[n].locked
    ensures WakeAt(run.states[m].rows[id]).Some?
    ensures var s, step, wake := run.states[n], run.steps[n], WakeAt(run.states[m].rows[id]).value;
            && id in s.rows
            && (id in step.chosen ==> wake <= step.at)
            && (wake <= step.at ==>
                  || id in step.chosen
                  || (&& |step.chosen| == o.batchSize
                      && forall other | other in step.chosen :: other in s.rows && NotLater(s.rows[other], s.rows[id])))
  {
    UntouchedRowStays(o, run, id, m, n);
    EveryRecordWakes(o, run, id, n, run.steps[n].at);
    ClaimTakesEarliest(o, run, id, n);
    hide IsRun;
  }

  // What a step writes

  /** A new record is pending from the event's instant on. */
  lemma CreateWrites(o: Options, s: State, step: Step)
    requires Enabled(o, s, step) && step.Create?
    ensures var t := Apply(o, s, step);
            && t.rows == s.rows[step.id := t.rows[step.id]]
            && t.rows[step.id] ==
               Record(step.event, Pending, 0, step.occurredAt, step.occurredAt, None, None, None, "", step.occurredAt)
  {}

  /** A claim writes its clock reading, the end of the lease and one more attempt, and leaves
      every other column and record alone. */
  lemma ClaimWrites(o: Options, s: State, step: Step, id: RecordId)
    requires Enabled(o, s, step) && step.ClaimBatch? && id in s.rows
    ensures id in Apply(o, s, step).rows
    ensures Apply(o, s, step).rows[id] ==
            if id !in step.chosen then s.rows[id]
            else s.rows[id].(status := Processing, claimedAt := Some(step.at),
                             claimExpiresAt := Some(step.at + o.leaseDuration),
                             attempts := s.rows[id].attempts + 1, updatedAt := step.at)
  {}

  /** A mark settles the publisher's current record: published, with the first publication's
      instant kept; or failed, and due again after the retry delay for the claimed attempt;
      or dead at the attempt limit, with the due instant kept. The update instant is the
      clock reading, and no other record changes. */
  lemma MarkWrites(o: Options, s: State, step: Step)
    requires Enabled(o, s, step) && IsMark(step)
    ensures var claim, t := Head(s, step.p), Apply(o, s, step);
            && t.rows == s.rows[claim.id := t.rows[claim.id]]
            && var r, r' := s.rows[claim.id], t.rows[claim.id];
               && r'.updatedAt == step.at
               && r'.claimedAt == None && r'.claimExpiresAt == None
               && r'.attempts == r.attempts && r'.event == r.event && r'.createdAt == r.createdAt
               && (step.MarkPublished? ==>
                     && r'.status == Published && r'.lastError == r.lastError && r'.availableAt == r.availableAt
                     && r'.publishedAt == (if r.publishedAt.Some? then r.publishedAt else Some(step.at)))
               && (step.MarkFailed? ==>
                     && r'.status == (if r.attempts >= o.maxAttempts then Dead else Failed)
                     && r'.lastError == (if |step.message| > 4096 then step.message[..4096] else step.message)
                     && r'.publishedAt == r.publishedAt
                     && r'.availableAt == (if r.attempts >= o.maxAttempts then r.availableAt
                                           else step.at + RetryBackoff(o, claim.attempt)))
  {}

  /** Below the attempt limit a failed record wakes exactly at the end of its retry delay. */
  lemma FailureSetsWake(o: Options, s: State, step: Step)
    requires Enabled(o, s, step) && step.MarkFailed?
    ensures var claim := Head(s, step.p);
            && claim.id in Apply(o, s, step).rows
            && WakeAt(Apply(o, s, step).rows[claim.id]) ==
               if s.rows[claim.id].attempts >= o.maxAttempts then None
               else Some(step.at + RetryBackoff(o, claim.attempt))
  {}

  /** A claimed record whose publisher dies is claimable again when the lease ends. */
  lemma ClaimSetsWake(o: Options, s: State, step: Step, id: RecordId)
    requires Enabled(o, s, step) && ClaimsRecord(step, id)
    ensures id in Apply(o, s, step).rows
    ensures WakeAt(Apply(o, s, step).rows[id]) == Some(step.at + o.leaseDuration)
  {}

  /** Once a timely mark has failed a record, and until it is claimed again, it can be claimed
      exactly from the failure instant plus the retry delay for the claims made so far; at
      the attempt limit, never. */
  lemma RetryIsExact(o: Options, run: Run, id: RecordId, m: nat, n: nat, at: Instant)
    requires Normalized(o) && IsRun(o, run) && DisciplinedFor(run, id)
    requires m < n <= |run.steps|
    requires run.steps[m].MarkFailed? && MarksRecord(run.states[m], run.steps[m], id)
    requires forall i | m < i < n :: !ClaimsRecord(run.steps[i], id)
    ensures id in run.states[n].rows
    ensures Claimable(run.states[n].rows[id], at) <==>
            && ClaimCount(run, id, m) < o.maxAttempts
            && run.steps[m].at + RetryBackoff(o, ClaimCount(run, id, m)) <= at
  {
    AttemptsCountClaims(o, run, id, m);
    DisciplinedRunKeepsLeaseInvariant(o, run, id, m);
    EveryRunKeepsInvariant(o, run, m);
    EveryRunKeepsInvariant(o, run, m + 1);
    RunStep(o, run, m);
    FailedUntilClaimed(o, run, id, m + 1, n);
    hide IsRun; hide RetryBackoff; hide DisciplinedFor;
    MarkedClaim(o, run.states[m], run.steps[m], id);
    FailureSetsWake(o, run.states[m], run.steps[m]);
    ClaimableFromWake(o, run.states[m + 1], id, at);
  }

  /** A timely marker's claim is the one the row was last claimed by. */
  lemma MarkedClaim(o: Options, s: State, step: Step, id: RecordId)
    requires LeaseInvariant(o, s, id) && Enabled(o, s, step) && MarksRecord(s, step, id) && !LateMark(s, step, id)
    ensures Head(s, step.p).attempt == s.rows[id].attempts
  {
    assert HoldsLive(s, step.p, 0, Head(s, step.p), id);
  }

  lemma ClaimableFromWake(o: Options, s: State, id: RecordId, at: Instant)
    requires Invariant(o, s) && id in s.rows
    ensures Claimable(s.rows[id], at) <==> WakeAt(s.rows[id]).Some? && WakeAt(s.rows[id]).value <= at
  {
    assert RowInvariant(o, s, id);
  }

  /** So its next claim waits for that instant. */
  lemma RetryWaits(o: Options, run: Run, id: RecordId, m: nat, n: nat)
    requires Normalized(o) && IsRun(o, run) && DisciplinedFor(run, id)
    requires m < n < |run.steps|
    requires run.steps[m].MarkFailed? && MarksRecord(run.states[m], run.steps[m], id)
    requires ClaimsRecord(run.steps[n], id)
    requires forall i | m < i < n :: !ClaimsRecord(run.steps[i], id)
    ensures run.steps[m].at + RetryBackoff(o, ClaimCount(run, id, m)) <= run.steps[n].at
  {
    RetryIsExact(o, run, id, m, n, run.steps[n].at);
    RunStep(o, run, n);
    hide IsRun; hide RetryBackoff; hide DisciplinedFor; hide Apply;
  }

  /** With timely marks, a row in a resting status changes only by being claimed. */
  lemma {:induction false} FailedUntilClaimed(o: Options, run: Run, id: RecordId, m: nat, n: nat)
    requires Normalized(o) && IsRun(o, run) && DisciplinedFor(run, id)
    requires m <= n <= |run.steps|
    requires id in run.states[m].rows && !run.states[m].rows[id].status.Processing?
    requires forall i | m <= i < n :: !ClaimsRecord(run.steps[i], id)
    ensures id in run.states[n].rows && run.states[n].rows[id] == run.states[m].rows[id]
    decreases n
  {
    if m < n {
      RunStep(o, run, n - 1);
      hide IsRun; hide Apply; hide Enabled; hide Invariant; hide LeaseInvariant;
      FailedUntilClaimed(o, run, id, m, n - 1);
      DisciplinedRunKeepsLeaseInvariant(o, run, id, n - 1);
      EveryRunKeepsInvariant(o, run, n - 1);
      TimelyStepKeepsRestingRow(o, run.states[n - 1], run.steps[n - 1], id);
    }
  }
}
