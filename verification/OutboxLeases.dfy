/** What leases buy. The mark statements check neither status nor claim owner, so finality
    of a record rests on its marks landing before the marker's own lease expires; nothing
    is asked of other records. */
module OutboxLeases {
  import opened Wrappers
  import opened PublisherOptions
  import opened OutboxRecords
  import opened OutboxProtocol

  predicate IsMark(step: Step) {
    step.MarkPublished? || step.MarkFailed?
  }

  /** A mark of record id that lands at or after the end of the marker's lease. */
  predicate LateMark(s: State, step: Step, id: RecordId) {
    && IsMark(step)
    && Busy(s, step.p)
    && Head(s, step.p).id == id
    && Head(s, step.p).expiresAt <= s.now
  }

  ghost predicate DisciplinedFor(run: Run, id: RecordId)
    requires |run.states| == |run.steps| + 1
  {
    forall i | 0 <= i < |run.steps| :: !LateMark(run.states[i], run.steps[i], id)
  }

  /** p holds a claim on record id whose lease has not expired. */
  predicate HoldsLive(s: State, p: Publisher, i: int, c: Claim, id: RecordId) {
    Holds(s, p, i, c) && c.id == id && s.now < c.expiresAt
  }

  /** Every live claim on id is the one the row was last claimed by, and a failed row
      waits exactly its retry delay. */
  ghost predicate LeaseInvariant(o: Options, s: State, id: RecordId) {
    && (forall p, i, c | HoldsLive(s, p, i, c, id) ::
          id in s.rows
          && s.rows[id].status == Processing
          && s.rows[id].claimExpiresAt == Some(c.expiresAt)
          && s.rows[id].attempts == c.attempt)
    && (id in s.rows && s.rows[id].status.Failed? ==>
          s.rows[id].availableAt == s.rows[id].updatedAt + RetryBackoff(o, s.rows[id].attempts))
  }

  lemma LeaseInvariantStep(o: Options, s: State, step: Step, id: RecordId)
    requires Invariant(o, s) && LeaseInvariant(o, s, id)
    requires Enabled(o, s, step) && !LateMark(s, step, id)
    ensures LeaseInvariant(o, Apply(o, s, step), id)
  {
    var t := Apply(o, s, step);
    if IsMark(step) && Head(s, step.p).id == id {
      assert HoldsLive(s, step.p, 0, Head(s, step.p), id);
    }
    forall p, i, c | HoldsLive(t, p, i, c, id)
      ensures id in t.rows && t.rows[id].status == Processing
      ensures t.rows[id].claimExpiresAt == Some(c.expiresAt) && t.rows[id].attempts == c.attempt
    {
      ClaimOrigin(o, s, step, p, i, c);
      if HoldsLive(s, p, i, c, id) {
      } else if HoldsLive(s, p, i + 1, c, id) {
      } else {
        assert step.ClaimBatch? && id in step.chosen;
      }
    }
  }

  lemma {:induction false} DisciplinedRunKeepsLeaseInvariant(o: Options, run: Run, id: RecordId, n: nat)
    requires Normalized(o) && IsRun(o, run) && DisciplinedFor(run, id) && n < |run.states|
    ensures LeaseInvariant(o, run.states[n], id)
  {
    if n > 0 {
      RunStep(o, run, n - 1);
      hide IsRun; hide Apply; hide Enabled; hide Invariant; hide LeaseInvariant;
      DisciplinedRunKeepsLeaseInvariant(o, run, id, n - 1);
      EveryRunKeepsInvariant(o, run, n - 1);
      LeaseInvariantStep(o, run.states[n - 1], run.steps[n - 1], id);
    }
  }

  /** At most one publisher holds an unexpired lease on a record whose marks are timely. */
  lemma LeaseIsExclusive(o: Options, run: Run, id: RecordId, n: nat,
                         p: Publisher, i: int, c: Claim, q: Publisher, j: int, d: Claim)
    requires Normalized(o) && IsRun(o, run) && DisciplinedFor(run, id) && n < |run.states|
    requires HoldsLive(run.states[n], p, i, c, id) && HoldsLive(run.states[n], q, j, d, id)
    ensures p == q && i == j
  {
    DisciplinedRunKeepsLeaseInvariant(o, run, id, n);
    EveryRunKeepsInvariant(o, run, n);
  }

  /** With timely marks a step changes a row that is not being processed only by claiming it. */
  lemma TimelyStepKeepsRestingRow(o: Options, s: State, step: Step, id: RecordId)
    requires Invariant(o, s) && LeaseInvariant(o, s, id)
    requires Enabled(o, s, step) && !LateMark(s, step, id)
    requires id in s.rows && !s.rows[id].status.Processing?
    requires step.ClaimBatch? ==> id !in step.chosen
    ensures id in Apply(o, s, step).rows && Apply(o, s, step).rows[id] == s.rows[id]
  {
    if IsMark(step) && Head(s, step.p).id == id {
      assert HoldsLive(s, step.p, 0, Head(s, step.p), id);
    }
  }

  lemma TerminalIsNotClaimed(o: Options, s: State, step: Step, id: RecordId)
    requires Enabled(o, s, step) && id in s.rows && Terminal(s.rows[id].status)
    ensures step.ClaimBatch? ==> id !in step.chosen
  {}

  lemma TerminalStays(o: Options, run: Run, id: RecordId, i: nat)
    requires Normalized(o) && IsRun(o, run) && DisciplinedFor(run, id) && i < |run.steps|
    requires id in run.states[i].rows && Terminal(run.states[i].rows[id].status)
    ensures id in run.states[i + 1].rows && run.states[i + 1].rows[id] == run.states[i].rows[id]
  {
    var s, step := run.states[i], run.steps[i];
    RunStep(o, run, i);
    assert !LateMark(s, step, id);
    EveryRunKeepsInvariant(o, run, i);
    DisciplinedRunKeepsLeaseInvariant(o, run, id, i);
    hide IsRun; hide Apply; hide DisciplinedFor; hide LeaseInvariant; hide Invariant;
    TerminalIsNotClaimed(o, s, step, id);
    TimelyStepKeepsRestingRow(o, s, step, id);
  }

  /** Published and dead are final for every record whose marks land inside their leases:
      not a column of the row changes again, whatever happens to other records. */
  lemma {:induction false} TerminalIsFinal(o: Options, run: Run, id: RecordId, m: nat, n: nat)
    requires Normalized(o) && IsRun(o, run) && DisciplinedFor(run, id)
    requires m <= n < |run.states|
    requires id in run.states[m].rows && Terminal(run.states[m].rows[id].status)
    ensures id in run.states[n].rows && run.states[n].rows[id] == run.states[m].rows[id]
    decreases n
  {
    hide Apply; hide Enabled; hide DisciplinedFor;
    if m < n {
      TerminalIsFinal(o, run, id, m, n - 1);
      TerminalStays(o, run, id, n - 1);
    }
  }

  /** One step takes a record out of its terminal status exactly when it is a mark of that
      record and the outcome disagrees with the status; with a timely mark it never does. */
  lemma WhenTerminalStatusIsLeft(o: Options, s: State, step: Step, id: RecordId)
    requires Normalized(o) && Invariant(o, s) && Enabled(o, s, step)
    requires id in s.rows && Terminal(s.rows[id].status)
    ensures Apply(o, s, step).rows[id].status != s.rows[id].status <==>
            (IsMark(step) && Head(s, step.p).id == id
             && (step.MarkPublished? <==> s.rows[id].status == Dead))
  {
    assert RowInvariant(o, s, id);
  }

  // The unfenced mark: a record leaves published

  const EXAMPLE_OPTIONS := Options(true, 1, 1, 10, 5, 1, 1, 1)

  const EXAMPLE_EVENT := Event("type", "aggregate", "1", "key", "payload")

  /** Publisher 0 claims a record and its dispatch fails, but its mark is slow. Its lease
      runs out, publisher 1 claims the record and publishes it, and then the late mark lands. */
  const LATE_MARK_STEPS: seq<Step> :=
    [ Create(0, EXAMPLE_EVENT, 0),
      ClaimBatch(0, [0], 0, {}),
      Dispatch(0, false),
      Tick(10),
      ClaimBatch(1, [0], 10, {}),
      Dispatch(1, true),
      MarkPublished(1, 10),
      MarkFailed(0, "timeout", 10) ]

  predicate Leads(o: Options, s: State, step: Step, t: State) {
    Enabled(o, s, step) && Apply(o, s, step) == t
  }

  lemma ClaimOneLeads(o: Options, s: State, p: Publisher, id: RecordId, at: Instant, r: Record)
    requires 0 < o.batchSize && WorkerOf(s, p).Idle? && at <= s.now
    requires s.rows.Keys == {id} && Claimable(s.rows[id], at) && r == ClaimedRow(s.rows[id], at, o.leaseDuration)
    ensures Leads(o, s, ClaimBatch(p, [id], at, {}),
                  s.(rows := s.rows[id := r],
                     workers := s.workers[p := Working([Claim(id, r.attempts, at + o.leaseDuration)], Ready)]))
  {
    assert ClaimedRows(s.rows, IdSet([id]), at, o.leaseDuration) == s.rows[id := r];
    assert ClaimsOf(s.rows, [id], at, o.leaseDuration) == [Claim(id, r.attempts, at + o.leaseDuration)];
  }

  const ROW1 := NewRow(EXAMPLE_EVENT, 0)
  const ROW2 := ClaimedRow(ROW1, 0, 10)
  const ROW3 := ClaimedRow(ROW2, 10, 10)
  const ROW4 := PublishedRow(ROW3, 10)
  const ROW5 := FailedRow(ROW4, "timeout", 11, 10, 5)
  const SLOW := Working([Claim(0, 1, 10)], Dispatched(false))
  const STATE1 := State(0, map[0 := ROW1], map[], {})
  const STATE4 := State(10, map[0 := ROW2], map[0 := SLOW], {})
  const STATE7 := State(10, map[0 := ROW4], map[0 := SLOW, 1 := Idle], {0})

  lemma LateMarkSetUp() returns (s2: State, s3: State)
    ensures Leads(EXAMPLE_OPTIONS, State(0, map[], map[], {}), LATE_MARK_STEPS[0], STATE1)
    ensures Leads(EXAMPLE_OPTIONS, STATE1, LATE_MARK_STEPS[1], s2)
    ensures Leads(EXAMPLE_OPTIONS, s2, LATE_MARK_STEPS[2], s3)
    ensures Leads(EXAMPLE_OPTIONS, s3, LATE_MARK_STEPS[3], STATE4)
  {
    ClaimOneLeads(EXAMPLE_OPTIONS, STATE1, 0, 0, 0, ROW2);
    s2 := State(0, map[0 := ROW2], map[0 := Working([Claim(0, 1, 10)], Ready)], {});
    s3 := State(0, map[0 := ROW2], map[0 := SLOW], {});
  }

  lemma OtherPublisherPublishes() returns (s5: State, s6: State)
    ensures Leads(EXAMPLE_OPTIONS, STATE4, LATE_MARK_STEPS[4], s5)
    ensures Leads(EXAMPLE_OPTIONS, s5, LATE_MARK_STEPS[5], s6)
    ensures Leads(EXAMPLE_OPTIONS, s6, LATE_MARK_STEPS[6], STATE7)
  {
    ClaimOneLeads(EXAMPLE_OPTIONS, STATE4, 1, 0, 10, ROW3);
    var claims := [Claim(0, 2, 20)];
    s5 := State(10, map[0 := ROW3], map[0 := SLOW, 1 := Working(claims, Ready)], {});
    s6 := State(10, map[0 := ROW3], map[0 := SLOW, 1 := Working(claims, Dispatched(true))], {0});
  }

  lemma LateMarkLands() returns (s8: State)
    ensures Leads(EXAMPLE_OPTIONS, STATE7, LATE_MARK_STEPS[7], s8)
    ensures s8.rows == map[0 := ROW5]
    ensures LateMark(STATE7, LATE_MARK_STEPS[7], 0)
  {
    s8 := State(10, map[0 := ROW5], map[0 := Idle, 1 := Idle], {0});
  }

  /** Timeliness is needed: a late mark turns a published record back into a failed one. */
  lemma LateMarkUndoesPublished() returns (run: Run)
    ensures Normalized(EXAMPLE_OPTIONS) && IsRun(EXAMPLE_OPTIONS, run) && run.steps == LATE_MARK_STEPS
    ensures 0 in run.states[7].rows && run.states[7].rows[0].status == Published
    ensures LateMark(run.states[7], run.steps[7], 0)
    ensures 0 in run.states[8].rows && run.states[8].rows[0].status == Failed
  {
    hide Apply;
    var s2, s3 := LateMarkSetUp();
    var s5, s6 := OtherPublisherPublishes();
    var s8 := LateMarkLands();
    run := Run([State(0, map[], map[], {}), STATE1, s2, s3, STATE4, s5, s6, STATE7, s8], LATE_MARK_STEPS);
    forall i {:trigger run.steps[i]} | 0 <= i < |run.steps|
      ensures Leads(EXAMPLE_OPTIONS, run.states[i], run.steps[i], run.states[i + 1])
    {}
  }
}
