/** Decisions on one request by concurrent calls. Each call reads the request outside its
    transaction and writes a status and counters computed from that reading. */
module ApprovalRaces {
  import opened Sequences
  import opened Policy
  import opened Approvals
  import ApprovalStore
  import opened ApprovalService

  /** The request after a transaction that computed from an earlier reading of it. */
  function Written(current: Request, read: Request, d: Decision): Request {
    var id, status := d.requirementId, Deciding(d.value);
    current.(status := StatusAfter(read, id, d.value),
             requiredApprovals := |read.requirements|,
             receivedApprovals := CountStatus(SetStatus(read.requirements, id, status), Granted),
             requirements := SetStatus(current.requirements, id, status),
             decisions := current.decisions + [d])
  }

  /** A call between its reading and its transaction, about requirement k. */
  datatype Call = Call(read: Request, k: nat, d: Decision)

  datatype State = State(request: Request, calls: map<nat, Call>)

  datatype Step =
    | Read(call: nat, k: nat, d: Decision)
    | Commit(call: nat)

  /** The checks of a call, and the unique key of decisions. */
  predicate Enabled(s: State, step: Step) {
    match step
    case Read(_, k, d) => CanBeDecided(s.request, k) && d.requirementId == s.request.requirements[k].id
    case Commit(c) => c in s.calls && !HasDecision(s.request.decisions, s.calls[c].d.requirementId)
  }

  function Apply(s: State, step: Step): State
    requires Enabled(s, step)
  {
    match step
    case Read(c, k, d) => s.(calls := s.calls[c := Call(s.request, k, d)])
    case Commit(c) => State(Written(s.request, s.calls[c].read, s.calls[c].d), s.calls - {c})
  }

  datatype Run = Run(states: seq<State>, steps: seq<Step>)

  /** Calls that fail take no step of their own. */
  ghost predicate IsRun(run: Run) {
    && |run.states| == |run.steps| + 1
    && run.states[0].calls == map[]
    && forall n {:trigger run.steps[n]} | 0 <= n < |run.steps| ::
         Enabled(run.states[n], run.steps[n]) && run.states[n + 1] == Apply(run.states[n], run.steps[n])
  }

  /** The requirements are still as the call has read them. */
  predicate Undisturbed(s: State, c: nat) {
    c in s.calls && s.calls[c].read.requirements == s.request.requirements
  }

  // A call and the decisions that came in since its reading

  predicate Descends(read: Request, current: Request) {
    && |current.requirements| == |read.requirements|
    && forall i | 0 <= i < |read.requirements| ::
         || current.requirements[i] == read.requirements[i]
         || (&& read.requirements[i].status == Undecided
             && current.requirements[i].id == read.requirements[i].id
             && (current.requirements[i].status == Granted || current.requirements[i].status == Refused))
  }

  predicate CallKept(current: Request, call: Call) {
    && CanBeDecided(call.read, call.k)
    && call.d.requirementId == call.read.requirements[call.k].id
    && Descends(call.read, current)
  }

  predicate GoodCall(current: Request, call: Call) {
    RequestValid(call.read) && CallKept(current, call)
  }

  /** Every decided requirement has its one decision. */
  predicate AllDecidedOnce(request: Request) {
    forall r | r in request.requirements :: DecidedOnce(r, request.decisions)
  }

  lemma UndecidedUntilDecided(request: Request, k: nat)
    requires AllDecidedOnce(request) && k < |request.requirements|
    ensures request.requirements[k].status == Undecided <==> !HasDecision(request.decisions, request.requirements[k].id)
  {
    var r := request.requirements[k];
    assert r in request.requirements;
    if r.status == Undecided { NoDecisionYet(r, request.decisions); }
    if !HasDecision(request.decisions, r.id) { FilterNone(request.decisions, About(r.id)); }
  }

  lemma {:induction false} CountGrows(read: seq<Requirement>, current: seq<Requirement>, status: RequirementStatus)
    requires |read| == |current|
    requires forall i | 0 <= i < |read| :: read[i].status == status ==> current[i].status == status
    ensures CountStatus(read, status) <= CountStatus(current, status)
    ensures CountStatus(read, status) == CountStatus(current, status) ==>
              forall i | 0 <= i < |read| :: current[i].status == status ==> read[i].status == status
  {
    if read != [] {
      var n := |read| - 1;
      CountGrows(read[..n], current[..n], status);
    }
  }

  lemma SetStatusAt(requirements: seq<Requirement>, k: nat, status: RequirementStatus)
    requires DistinctIds(requirements) && k < |requirements|
    ensures SetStatus(requirements, requirements[k].id, status) == requirements[k := requirements[k].(status := status)]
  {
    MapStatusAt(requirements, requirements[k].id, status);
    hide SetStatus;
  }

  /** A write from a reading that is still current is the decision as computed at once. */
  lemma UndisturbedKeepsValid(current: Request, call: Call)
    requires RequestValid(current) && GoodCall(current, call)
    requires call.read.requirements == current.requirements
    ensures RequestValid(Written(current, call.read, call.d))
  {
    hide SetStatus; hide CountStatus; hide StatusOf;
    assert CanBeDecided(current, call.k);
    assert Written(current, call.read, call.d) == Decided(current, call.d);
    hide RequestValid;
    DecisionKeepsRequestValid(current, call.k, call.d);
  }

  /** Another approval makes the written counter too small. */
  lemma MissedApproval(current: Request, call: Call, m: nat)
    requires RequestValid(current) && GoodCall(current, call) && current.requirements[call.k].status == Undecided
    requires m < |current.requirements| && current.requirements[m].status == Granted && call.read.requirements[m].status == Undecided
    ensures !RequestValid(Written(current, call.read, call.d))
  {
    var read, status := call.read.requirements, Deciding(call.d.value);
    CountGrows(read, current.requirements, Granted);
    DecidingMovesOne(read, call.k, status, Granted);
    DecidingMovesOne(current.requirements, call.k, status, Granted);
    hide SetStatus; hide CountStatus; hide DecidedOnce; hide StatusOf; hide StatusAfter;
  }

  lemma ValidStatus(request: Request)
    requires RequestValid(request)
    ensures DistinctIds(request.requirements) && request.status == StatusOf(request.requirements)
    ensures AllDecidedOnce(request)
    ensures CountStatus(request.requirements, Refused) <= 1
  {}

  lemma RejectedStatus(requirements: seq<Requirement>, m: nat)
    requires m < |requirements| && requirements[m].status == Refused
    ensures CountStatus(requirements, Refused) >= 1
    ensures CountStatus(requirements, Refused) == 1 ==> StatusOf(requirements) == Rejected
  {
    assert requirements[m] in requirements;
    CountIsAll(requirements, Refused);
    CountIsAll(requirements, Granted);
    hide CountStatus;
  }

  /** Another rejection is overwritten, or doubled. */
  lemma MissedRejection(current: Request, call: Call, m: nat)
    requires RequestValid(current) && GoodCall(current, call) && current.requirements[call.k].status == Undecided
    requires m < |current.requirements| && current.requirements[m].status == Refused && call.read.requirements[m].status == Undecided
    ensures !RequestValid(Written(current, call.read, call.d))
  {
    hide SetStatus; hide CountStatus; hide StatusOf; hide RequestValid; hide AllApprovedAfter; hide DistinctIds;
    var status := Deciding(call.d.value);
    var written := Written(current, call.read, call.d);
    ValidStatus(current);
    SetStatusAt(current.requirements, call.k, status);
    DecidingMovesOne(current.requirements, call.k, status, Refused);
    RejectedStatus(current.requirements, m);
    RejectedStatus(written.requirements, m);
    if RequestValid(written) { ValidStatus(written); }
  }

  /** A decision keeps its request valid exactly when the requirements are still as its call
      has read them. */
  lemma WriteIsExact(current: Request, call: Call)
    requires RequestValid(current) && GoodCall(current, call) && !HasDecision(current.decisions, call.d.requirementId)
    ensures RequestValid(Written(current, call.read, call.d)) <==> call.read.requirements == current.requirements
  {
    assert current.requirements[call.k].id == call.d.requirementId;
    UndecidedUntilDecided(current, call.k);
    hide RequestValid; hide Written;
    if call.read.requirements == current.requirements {
      UndisturbedKeepsValid(current, call);
    } else {
      var m :| 0 <= m < |current.requirements| && current.requirements[m] != call.read.requirements[m];
      if current.requirements[m].status == Granted {
        MissedApproval(current, call, m);
      } else {
        MissedRejection(current, call, m);
      }
    }
  }

  lemma CommitKeepsCall(current: Request, committed: Call, other: Call)
    requires DistinctIds(current.requirements) && CallKept(current, committed)
    requires current.requirements[committed.k].status == Undecided && CallKept(current, other)
    ensures CallKept(Written(current, committed.read, committed.d), other)
  {
    hide SetStatus; hide CountStatus; hide StatusAfter;
    SetStatusAt(current.requirements, committed.k, Deciding(committed.d.value));
  }

  lemma CommitKeepsCalls(s: State, c: nat)
    requires RequestValid(s.request) && Enabled(s, Commit(c)) && GoodCall(s.request, s.calls[c])
    requires forall b | b in s.calls :: GoodCall(s.request, s.calls[b])
    ensures forall b | b in s.calls :: GoodCall(Written(s.request, s.calls[c].read, s.calls[c].d), s.calls[b])
  {
    hide RequestValid; hide Written; hide HasDecision;
    var k := s.calls[c].k;
    assert s.request.requirements[k].id == s.calls[c].d.requirementId;
    ValidStatus(s.request);
    UndecidedUntilDecided(s.request, k);
    hide CallKept;
    forall b | b in s.calls
      ensures GoodCall(Written(s.request, s.calls[c].read, s.calls[c].d), s.calls[b])
    {
      CommitKeepsCall(s.request, s.calls[c], s.calls[b]);
    }
  }

  lemma RunStep(run: Run, n: nat)
    requires IsRun(run) && n < |run.steps|
    ensures Enabled(run.states[n], run.steps[n]) && run.states[n + 1] == Apply(run.states[n], run.steps[n])
  {}

  lemma {:induction false} CallsStayGood(run: Run, n: nat)
    requires IsRun(run) && n <= |run.steps|
    requires forall m | 0 <= m <= n :: RequestValid(run.states[m].request)
    ensures forall c | c in run.states[n].calls :: GoodCall(run.states[n].request, run.states[n].calls[c])
  {
    hide RequestValid; hide HasDecision; hide Written; hide GoodCall;
    if n > 0 {
      CallsStayGood(run, n - 1);
      RunStep(run, n - 1);
      hide IsRun;
      var s, step := run.states[n - 1], run.steps[n - 1];
      assert RequestValid(s.request);
      if step.Commit? { CommitKeepsCalls(s, step.call); } else { NewCallIsGood(s.request, step.k, step.d); }
    }
  }

  lemma NewCallIsGood(request: Request, k: nat, d: Decision)
    requires RequestValid(request) && CanBeDecided(request, k) && d.requirementId == request.requirements[k].id
    ensures GoodCall(request, Call(request, k, d))
  {
    hide RequestValid;
  }

  lemma CommitIsExact(run: Run, n: nat)
    requires IsRun(run) && n < |run.steps| && run.steps[n].Commit?
    requires forall m | 0 <= m <= n :: RequestValid(run.states[m].request)
    ensures RequestValid(run.states[n + 1].request) <==> Undisturbed(run.states[n], run.steps[n].call)
  {
    CallsStayGood(run, n);
    assert run.steps[n].Commit?;
    assert RequestValid(run.states[n].request);
    hide IsRun; hide RequestValid; hide Written; hide GoodCall;
    WriteIsExact(run.states[n].request, run.states[n].calls[run.steps[n].call]);
  }

  lemma UndisturbedStep(run: Run, n: nat)
    requires IsRun(run) && n < |run.steps|
    requires forall m | 0 <= m <= n :: RequestValid(run.states[m].request)
    requires run.steps[n].Commit? ==> Undisturbed(run.states[n], run.steps[n].call)
    ensures RequestValid(run.states[n + 1].request)
  {
    hide RequestValid; hide Written; hide HasDecision; hide Undisturbed; hide CanBeDecided;
    RunStep(run, n);
    if run.steps[n].Commit? { CommitIsExact(run, n); }
    hide IsRun;
    assert RequestValid(run.states[n].request);
  }

  lemma {:induction false} UndisturbedRunStaysValid(run: Run, n: nat)
    requires IsRun(run) && RequestValid(run.states[0].request) && n <= |run.steps|
    requires forall m | 0 <= m < |run.steps| && run.steps[m].Commit? :: Undisturbed(run.states[m], run.steps[m].call)
    ensures forall m | 0 <= m <= n :: RequestValid(run.states[m].request)
  {
    hide RequestValid; hide Undisturbed;
    if n > 0 {
      UndisturbedRunStaysValid(run, n - 1);
      UndisturbedStep(run, n - 1);
      hide IsRun;
    }
  }

  /** Over every run of concurrent calls, the request's status, counters and decisions agree
      in every state exactly when every decision was committed on the requirements that its
      call had read. */
  lemma ValidExactlyWhenUndisturbed(run: Run)
    requires IsRun(run) && RequestValid(run.states[0].request)
    ensures (forall n | 0 <= n < |run.states| :: RequestValid(run.states[n].request)) <==>
            (forall n | 0 <= n < |run.steps| && run.steps[n].Commit? :: Undisturbed(run.states[n], run.steps[n].call))
  {
    hide RequestValid;
    if forall n | 0 <= n < |run.states| :: RequestValid(run.states[n].request) {
      forall n | 0 <= n < |run.steps| && run.steps[n].Commit?
        ensures Undisturbed(run.states[n], run.steps[n].call)
      {
        CommitIsExact(run, n);
      }
    }
    if forall n | 0 <= n < |run.steps| && run.steps[n].Commit? :: Undisturbed(run.states[n], run.steps[n].call) {
      UndisturbedRunStaysValid(run, |run.steps|);
    }
  }

  // What holds in every run, disturbed or not

  /** An approved request has only approved requirements, one that needs no approval has none,
      and every call's reading differs from the present by decisions only. */
  predicate Kept(s: State) {
    && DistinctIds(s.request.requirements)
    && AllDecidedOnce(s.request)
    && (s.request.status == Approved ==> AllAre(s.request.requirements, Granted))
    && (s.request.status == NotRequired ==> s.request.requirements == [])
    && (forall c | c in s.calls :: CallKept(s.request, s.calls[c]))
  }

  /** Approved is written only by a call that has read every other requirement as approved, and
      what it has read so is so still. */
  lemma ApprovedIsWrittenRightly(current: Request, call: Call)
    requires DistinctIds(current.requirements) && AllDecidedOnce(current) && CallKept(current, call)
    requires StatusAfter(call.read, call.d.requirementId, call.d.value) == Approved
    ensures AllAre(Written(current, call.read, call.d).requirements, Granted)
  {
    hide SetStatus; hide CountStatus; hide Filter;
    SetStatusAt(current.requirements, call.k, Granted);
    var after := Written(current, call.read, call.d).requirements;
    forall i | 0 <= i < |after|
      ensures after[i].status == Granted
    {
      assert call.read.requirements[i] in call.read.requirements && current.requirements[i] in current.requirements;
      if i != call.k {
        assert current.requirements[i].id != current.requirements[call.k].id;
        assert DecidedOnce(current.requirements[i], current.decisions);
      }
    }
  }

  lemma CommitKeepsState(s: State, c: nat)
    requires Kept(s) && Enabled(s, Commit(c))
    ensures Kept(Apply(s, Commit(c))) && |Apply(s, Commit(c)).request.requirements| == |s.request.requirements|
  {
    hide SetStatus; hide CountStatus; hide DecidedOnce; hide HasDecision; hide StatusAfter;
    var call := s.calls[c];
    assert CallKept(s.request, call);
    assert s.request.requirements[call.k].id == call.d.requirementId;
    UndecidedUntilDecided(s.request, call.k);
    DecisionsStayOnce(s.request.requirements, call.k, s.request.decisions, call.d);
    SetStatusAt(s.request.requirements, call.k, Deciding(call.d.value));
    StatusesWritten(call.read, call.d);
    if StatusAfter(call.read, call.d.requirementId, call.d.value) == Approved {
      ApprovedIsWrittenRightly(s.request, call);
    }
    hide CallKept;
    forall b | b in s.calls
      ensures CallKept(Written(s.request, call.read, call.d), s.calls[b])
    {
      CommitKeepsCall(s.request, call, s.calls[b]);
    }
  }

  lemma StatusesWritten(read: Request, d: Decision)
    ensures StatusAfter(read, d.requirementId, d.value) != NotRequired
  {}

  lemma ValidIsKept(request: Request)
    requires RequestValid(request)
    ensures Kept(State(request, map[]))
  {
    StatusMeaning(request);
  }

  lemma {:induction false} EveryRunKeeps(run: Run, n: nat)
    requires IsRun(run) && RequestValid(run.states[0].request) && n <= |run.steps|
    ensures Kept(run.states[n]) && |run.states[n].request.requirements| == |run.states[0].request.requirements|
  {
    hide RequestValid; hide Kept; hide HasDecision; hide Written; hide CanBeDecided;
    if n == 0 {
      ValidIsKept(run.states[0].request);
    } else {
      EveryRunKeeps(run, n - 1);
      RunStep(run, n - 1);
      hide IsRun;
      var s, step := run.states[n - 1], run.steps[n - 1];
      if step.Commit? { CommitKeepsState(s, step.call); } else { ReadKeepsState(s, step.call, step.k, step.d); }
    }
  }

  lemma ReadKeepsState(s: State, c: nat, k: nat, d: Decision)
    requires Kept(s) && Enabled(s, Read(c, k, d))
    ensures Kept(Apply(s, Read(c, k, d)))
  {
    hide AllDecidedOnce; hide DistinctIds;
  }

  lemma ApprovedIsLast(s: State, step: Step)
    requires Kept(s) && s.request.status == Approved
    ensures !Enabled(s, step)
  {
    hide DistinctIds; hide AllDecidedOnce; hide HasDecision;
    if step.Commit? && step.call in s.calls {
      var call := s.calls[step.call];
      assert CallKept(s.request, call);
      assert s.request.requirements[call.k] in s.request.requirements;
      UndecidedUntilDecided(s.request, call.k);
    }
  }

  /** Over every run of concurrent calls, late writes included: when the status is approved,
      every requirement is approved by a decision of its own, and nothing changes any more;
      when it is "not required", there is no requirement. */
  lemma ApprovedMeansApproved(run: Run, n: nat)
    requires IsRun(run) && RequestValid(run.states[0].request) && n < |run.states|
    ensures var request := run.states[n].request;
            && |request.requirements| == |run.states[0].request.requirements|
            && (request.status == NotRequired ==> request.requirements == [])
            && (request.status == Approved ==>
                  && (forall r | r in request.requirements :: r.status == Granted && ApprovedBy(request, r))
                  && forall step: Step :: !Enabled(run.states[n], step))
  {
    hide IsRun; hide RequestValid; hide ApprovedBy; hide Enabled; hide DistinctIds; hide CallKept; hide DecidedOnce;
    var s := run.states[n];
    assert |run.states| == |run.steps| + 1 by { RunLength(run); }
    EveryRunKeeps(run, n);
    if s.request.status == Approved {
      forall step: Step
        ensures !Enabled(s, step)
      {
        ApprovedIsLast(s, step);
      }
      forall r | r in s.request.requirements
        ensures r.status == Granted && ApprovedBy(s.request, r)
      {
        GrantedIsApproved(s.request, r);
      }
    }
  }

  lemma RunLength(run: Run)
    requires IsRun(run)
    ensures |run.states| == |run.steps| + 1
  {}

  // What goes wrong

  predicate BothOpen(request: Request, j: nat, k: nat) {
    RequestValid(request) && CanBeDecided(request, j) && CanBeDecided(request, k) && j != k
  }

  /** Every requirement but j and k is approved. */
  predicate LastTwo(request: Request, j: nat, k: nat) {
    forall i | 0 <= i < |request.requirements| && i != j && i != k :: request.requirements[i].status == Granted
  }

  /** A request is created with all its requirements open. */
  lemma CreatedIsOpen(report: Report, plans: seq<Plan>, requestId: string, ids: seq<string>, j: nat, k: nat)
    requires |ids| == |plans| && forall a, b | 0 <= a < b < |ids| :: ids[a] != ids[b]
    requires j < |plans| && k < |plans| && j != k
    ensures BothOpen(ApprovalStore.BuiltRequest(report, plans, requestId, ids), j, k)
    ensures |plans| == 2 ==> LastTwo(ApprovalStore.BuiltRequest(report, plans, requestId, ids), j, k)
  {
    ApprovalStore.BuiltRequestValid(report, plans, requestId, ids);
    hide RequestValid; hide TrailValid; hide ApprovalStore.BuiltRequirements;
  }

  lemma BothGranted(requirements: seq<Requirement>, j: nat, k: nat)
    requires DistinctIds(requirements) && j < |requirements| && k < |requirements| && j != k
    requires requirements[j].status == Undecided && requirements[k].status == Undecided
    ensures var after := SetStatus(SetStatus(requirements, requirements[j].id, Granted), requirements[k].id, Granted);
            && CountStatus(after, Granted) == CountStatus(SetStatus(requirements, requirements[k].id, Granted), Granted) + 1
            && |after| == |requirements| && after[j].status == after[k].status == Granted
            && forall i | 0 <= i < |after| && i != j && i != k :: after[i] == requirements[i]
  {
    hide SetStatus; hide CountStatus;
    SetStatusAt(requirements, j, Granted);
    var one := SetStatus(requirements, requirements[j].id, Granted);
    SetStatusAt(one, k, Granted);
    DecidingMovesOne(one, k, Granted, Granted);
    DecidingMovesOne(requirements, j, Granted, Granted);
    DecidingMovesOne(requirements, k, Granted, Granted);
  }

  lemma OtherIsOpen(request: Request, j: nat, k: nat)
    requires j < |request.requirements| && k < |request.requirements| && request.requirements[j].status == Undecided
    requires request.requirements[j].id != request.requirements[k].id
    ensures StatusAfter(request, request.requirements[k].id, Approve) == Pending
  {
    assert request.requirements[j] in request.requirements;
  }

  lemma NothingLeft(request: Request)
    requires NoneAre(request.requirements, Undecided)
    ensures forall i: nat :: !CanBeDecided(request, i)
  {
    assert forall i: nat | i < |request.requirements| :: request.requirements[i] in request.requirements;
  }

  function CrossingSteps(j: nat, k: nat, d: Decision, e: Decision): seq<Step> {
    [Read(0, j, d), Read(1, k, e), Commit(0), Commit(1)]
  }

  /** Two calls read the same open request and then commit, and both are taken. */
  lemma Crossing(request: Request, j: nat, k: nat, d: Decision, e: Decision) returns (run: Run)
    requires BothOpen(request, j, k)
    requires d.requirementId == request.requirements[j].id && e.requirementId == request.requirements[k].id
    ensures IsRun(run) && run.states[0] == State(request, map[]) && run.steps == CrossingSteps(j, k, d, e)
    ensures |run.states| == 5 && run.states[3].request == Written(request, request, d)
    ensures run.states[4] == State(Written(Written(request, request, d), request, e), map[])
  {
    hide RequestValid; hide HasDecision; hide SetStatus; hide CountStatus; hide StatusAfter; hide Written; hide IsRun;
    TakenInTurn(request, j, k, d, e);
    WrittenDecisions(request, d);
    var one, two := Call(request, j, d), Call(request, k, e);
    var s1 := State(request, map[0 := one]);
    var s2 := State(request, map[0 := one, 1 := two]);
    var s3 := State(Written(request, request, d), map[1 := two]);
    var s4 := State(Written(Written(request, request, d), request, e), map[]);
    run := Run([State(request, map[]), s1, s2, s3, s4], CrossingSteps(j, k, d, e));
    assert s1.calls[1 := two] == s2.calls;
    assert s2.calls - {0} == s3.calls && s3.calls - {1} == s4.calls;
    FourSteps(run);
  }

  lemma WrittenDecisions(request: Request, d: Decision)
    ensures Written(request, request, d).decisions == request.decisions + [d]
  {}

  predicate Leads(s: State, step: Step, t: State) {
    Enabled(s, step) && t == Apply(s, step)
  }

  lemma FourSteps(run: Run)
    requires |run.states| == 5 && |run.steps| == 4 && run.states[0].calls == map[]
    requires Leads(run.states[0], run.steps[0], run.states[1]) && Leads(run.states[1], run.steps[1], run.states[2])
    requires Leads(run.states[2], run.steps[2], run.states[3]) && Leads(run.states[3], run.steps[3], run.states[4])
    ensures IsRun(run)
  {
    hide Enabled; hide Apply;
  }

  lemma NothingEnabled(request: Request)
    requires NoneAre(request.requirements, Undecided)
    ensures forall step: Step :: !Enabled(State(request, map[]), step)
  {
    NothingLeft(request);
  }

  /** Two approvals from one reading, of any two open requirements: both are taken and the
      counter stays one short. If they were the last two, every requirement is approved, but
      the request is pending, and no call can change it any more. */
  lemma ApprovalsPassEachOther(request: Request, j: nat, k: nat, d: Decision, e: Decision) returns (run: Run)
    requires BothOpen(request, j, k) && d.value == e.value == Approve
    requires d.requirementId == request.requirements[j].id && e.requirementId == request.requirements[k].id
    ensures IsRun(run) && run.states[0] == State(request, map[]) && run.steps == CrossingSteps(j, k, d, e)
    ensures |run.states| == 5
    ensures var last := run.states[4].request;
            && last.status == Pending
            && last.receivedApprovals + 1 == CountStatus(last.requirements, Granted)
            && (LastTwo(request, j, k) ==>
                  AllAre(last.requirements, Granted) && forall step: Step :: !Enabled(run.states[4], step))
  {
    hide SetStatus; hide RequestValid; hide CountStatus; hide HasDecision; hide StatusAfter; hide IsRun; hide Enabled;
    run := Crossing(request, j, k, d, e);
    TakenInTurn(request, j, k, d, e);
    BothGranted(request.requirements, j, k);
    OtherIsOpen(request, j, k);
    if LastTwo(request, j, k) { NothingEnabled(run.states[4].request); }
  }

  /** A rejection and an approval from one reading, of any two open requirements: the rejected
      request is pending again. If they were the last two, it stays so for ever. */
  lemma ApprovalPassesRejection(request: Request, j: nat, k: nat, d: Decision, e: Decision) returns (run: Run)
    requires BothOpen(request, j, k) && d.value == Reject && e.value == Approve
    requires d.requirementId == request.requirements[j].id && e.requirementId == request.requirements[k].id
    ensures IsRun(run) && run.states[0] == State(request, map[]) && run.steps == CrossingSteps(j, k, d, e)
    ensures |run.states| == 5
    ensures var last := run.states[4].request;
            && run.states[3].request.status == Rejected && last.status == Pending
            && !NoneAre(last.requirements, Refused)
            && (LastTwo(request, j, k) ==> forall step: Step :: !Enabled(run.states[4], step))
  {
    hide SetStatus; hide RequestValid; hide CountStatus; hide HasDecision; hide StatusAfter; hide IsRun; hide Enabled;
    run := Crossing(request, j, k, d, e);
    var requirements, last := request.requirements, run.states[4].request;
    TakenInTurn(request, j, k, d, e);
    SetStatusAt(requirements, j, Refused);
    SetStatusAt(SetStatus(requirements, requirements[j].id, Refused), k, Granted);
    assert last.requirements[j] in last.requirements;
    OtherIsOpen(request, j, k);
    RejectionRejects(request, d);
    if LastTwo(request, j, k) { NothingEnabled(last); }
  }

  lemma TakenInTurn(request: Request, j: nat, k: nat, d: Decision, e: Decision)
    requires BothOpen(request, j, k)
    requires d.requirementId == request.requirements[j].id && e.requirementId == request.requirements[k].id
    ensures DistinctIds(request.requirements) && d.requirementId != e.requirementId
    ensures !HasDecision(request.decisions, d.requirementId) && !HasDecision(request.decisions + [d], e.requirementId)
  {
    assert request.requirements[j] in request.requirements && request.requirements[k] in request.requirements;
    NoDecisionYet(request.requirements[j], request.decisions);
    NoDecisionYet(request.requirements[k], request.decisions);
  }

  lemma RejectionRejects(request: Request, d: Decision)
    requires d.value == Reject
    ensures StatusAfter(request, d.requirementId, Reject) == Rejected
  {}
}
