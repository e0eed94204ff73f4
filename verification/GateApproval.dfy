/** The gate over the approval store. */
module GateApproval {
  import opened Wrappers
  import opened Text
  import opened Policy
  import opened Approvals
  import opened ApprovalStore
  import ApprovalRaces
  import Gate

  function StatusString(s: RequestStatus): string {
    match s
    case Pending => "pending"
    case Approved => "approved"
    case Rejected => "rejected"
    case Cancelled => "cancelled"
    case NotRequired => "not_required"
  }

  lemma LowercaseIsNormalized(text: string)
    requires text != "" && forall i | 0 <= i < |text| :: 'a' <= text[i] <= 'z' || text[i] == '_'
    ensures Gate.Normalized(text) == text
  {
    TrimSpaceTrims(text);
    hide TrimSpace;
    assert ToLower(text) == text;
  }

  lemma StatusStringsNormalized(s: RequestStatus)
    ensures Gate.Normalized(StatusString(s)) == StatusString(s)
    ensures StatusString(s) == "approved" <==> s == Approved
    ensures StatusString(s) == "not_required" <==> s == NotRequired
  {
    hide Gate.Normalized;
    LowercaseIsNormalized(StatusString(s));
    assert |StatusString(s)| == 8 ==> s == Approved || s == Rejected;
    assert StatusString(Approved)[0] == 'a' && StatusString(Rejected)[0] == 'r';
  }

  /** What the server answers about a report's approval. */
  function ReplyFor(s: Store, reportId: string): Gate.GovernanceReply {
    FoundByReport(s.requests, reportId);
    var i := FindByReport(s.requests, reportId);
    if i.None? then Gate.NotFound else Gate.Found(StatusString(s.requests[i.value].status))
  }

  /** The gate's replies come from the server: the status it reads, or else the one of the
      request it has created. */
  predicate RepliesFrom(s: Store, reportId: string, o: Gate.Outcomes) {
    && (o.getApproval.Found? ==> o.getApproval == ReplyFor(s, reportId))
    && (o.getApproval.NotFound? && o.createApproval.Found? ==> o.createApproval == ReplyFor(s, reportId))
  }

  /** With governance enabled and a breaking report, a run that was answered opens the gate
      exactly when the report's request is approved, or needs no approval. */
  lemma OpenGateMeansReleased(s: Store, input: Gate.Input, o: Gate.Outcomes, hasGovernanceClient: bool)
    requires input.governanceEnabled && Gate.Reported(input, o, hasGovernanceClient) && Gate.IsBreaking(o.breaking.value)
    requires RepliesFrom(s, TrimSpace(o.breaking.value.id), o)
    ensures Gate.GateOpens(input, o, hasGovernanceClient) <==>
              && hasGovernanceClient && TrimSpace(o.breaking.value.id) != ""
              && var i := FindByReport(s.requests, TrimSpace(o.breaking.value.id));
                 && i.Some? && i.value < |s.requests|
                 && (s.requests[i.value].status == Approved || s.requests[i.value].status == NotRequired)
  {
    hide Gate.Normalized; hide TrimSpace; hide FindByReport;
    var id := TrimSpace(o.breaking.value.id);
    FoundByReport(s.requests, id);
    var i := FindByReport(s.requests, id);
    if i.Some? { StatusStringsNormalized(s.requests[i.value].status); }
  }

  // A stored breaking report's request is never without requirements

  predicate HasRequirements(requests: seq<Request>, reportId: string) {
    forall i | 0 <= i < |requests| && requests[i].reportId == reportId :: requests[i].requirements != []
  }

  /** The report is stored as breaking whenever its request is created. */
  predicate StoredAsBreaking(actions: seq<Action>, reportId: string) {
    forall a | a in actions :: a.Create? && a.report.id == reportId ==> a.report.status == Breaking
  }

  lemma BreakingNeedsPlans(input: PolicyInput)
    requires input.config.enabled && input.report.status == Breaking
    ensures RequiredPlans(input) != []
  {
    var candidates := Candidates(input, input.affectedModules);
    SomePlan(candidates, input.config.allowMaintainerApproval);
  }

  lemma {:induction false} SomePlan(candidates: seq<Candidate>, allowMaintainer: bool)
    requires candidates != []
    ensures Planning(candidates, allowMaintainer) != []
  {
    hide RequirementKey;
    if |candidates| > 1 { SomePlan(candidates[..|candidates| - 1], allowMaintainer); }
  }

  lemma StepKeepsRequirements(s: Store, config: PolicyConfig, a: Action, reportId: string)
    requires config.enabled && Enabled(s, config, a) && HasRequirements(s.requests, reportId)
    requires a.Create? && a.report.id == reportId ==> a.report.status == Breaking
    ensures HasRequirements(Apply(s, config, a).requests, reportId)
  {
    hide RequiredPlans; hide CountStatus; hide CanDecide; hide FreshIds; hide FindByReport; hide StatusAfter;
    if a.Create? && a.report.id == reportId {
      BreakingNeedsPlans(InputFor(s.owners, a.report, a.affected, a.impact, config));
    }
  }

  lemma {:induction false} RunKeepsRequirements(s: Store, config: PolicyConfig, actions: seq<Action>, t: Store, reportId: string)
    requires config.enabled && IsRun(s, config, actions, t) && HasRequirements(s.requests, reportId)
    requires StoredAsBreaking(actions, reportId)
    ensures HasRequirements(t.requests, reportId)
    decreases |actions|
  {
    hide Enabled; hide Apply; hide HasRequirements;
    if actions != [] {
      assert actions[0] in actions;
      StepKeepsRequirements(s, config, actions[0], reportId);
      RunKeepsRequirements(Apply(s, config, actions[0]), config, actions[1..], t, reportId);
    }
  }

  /** End to end: when a run of the gate with governance enabled passes on a breaking report,
      every requirement of the report's request has an approving decision, in whatever state
      the approval service has reached; and when the server's policy is enabled and it holds
      the report as breaking, there is at least one. */
  lemma PassedGateMeansApproved(config: PolicyConfig, actions: seq<Action>, t: Store, input: Gate.Input, o: Gate.Outcomes,
                                hasGovernanceClient: bool) returns (i: nat)
    requires IsRun(EMPTY_STORE, config, actions, t)
    requires input.governanceEnabled && Gate.Answered(input, o, hasGovernanceClient) && Gate.IsBreaking(o.breaking.value)
    requires Gate.GateOpens(input, o, hasGovernanceClient)
    requires RepliesFrom(t, TrimSpace(o.breaking.value.id), o)
    ensures i < |t.requests| && t.requests[i].reportId == TrimSpace(o.breaking.value.id)
    ensures forall r | r in t.requests[i].requirements :: ApprovedBy(t.requests[i], r)
    ensures config.enabled && StoredAsBreaking(actions, t.requests[i].reportId) ==>
              t.requests[i].status == Approved && exists d :: d in t.requests[i].decisions && d.value == Approve
  {
    hide IsRun; hide TrimSpace; hide FindByReport; hide Gate.IsBreaking; hide Gate.GateOpens; hide RepliesFrom;
    EmptyStoreValid();
    EveryRunKeepsStoreValid(EMPTY_STORE, config, actions, t);
    var id := TrimSpace(o.breaking.value.id);
    OpenGateMeansReleased(t, input, o, hasGovernanceClient);
    FoundByReport(t.requests, id);
    i := FindByReport(t.requests, id).value;
    var request := t.requests[i];
    ReleasedIsApproved(t, i);
    if config.enabled && StoredAsBreaking(actions, id) {
      RunKeepsRequirements(EMPTY_STORE, config, actions, t, id);
      assert request.requirements[0] in request.requirements;
    }
  }

  /** A request that is not held has all its approvals; one that needs none has no requirement. */
  lemma ReleasedIsApproved(s: Store, i: nat)
    requires StoreValid(s) && i < |s.requests|
    requires s.requests[i].status == Approved || s.requests[i].status == NotRequired
    ensures forall r | r in s.requests[i].requirements :: ApprovedBy(s.requests[i], r)
    ensures s.requests[i].status == NotRequired ==> s.requests[i].requirements == []
  {
    var request := s.requests[i];
    assert RequestValid(request);
    hide RequestValid; hide StoreValid;
    StatusMeaning(request);
    if request.status == Approved {
      forall r | r in request.requirements
        ensures ApprovedBy(request, r)
      {
        ApprovedMeansDecided(request, r);
      }
    }
  }

  /** The same while decisions on the report's request interleave in any way after its creation,
      even where they lose updates: the gate does not pass on an approval that was not given. */
  lemma PassedGateSurvivesRaces(run: ApprovalRaces.Run, n: nat, created: PolicyInput, requestId: string, ids: seq<string>,
                                s: Store, input: Gate.Input, o: Gate.Outcomes, hasGovernanceClient: bool)
    requires ApprovalRaces.IsRun(run) && n < |run.states|
    requires |ids| == |RequiredPlans(created)| && forall a, b | 0 <= a < b < |ids| :: ids[a] != ids[b]
    requires run.states[0].request == BuiltRequest(created.report, RequiredPlans(created), requestId, ids)
    requires input.governanceEnabled && Gate.Answered(input, o, hasGovernanceClient) && Gate.IsBreaking(o.breaking.value)
    requires Gate.GateOpens(input, o, hasGovernanceClient)
    requires RepliesFrom(s, TrimSpace(o.breaking.value.id), o)
    requires var i := FindByReport(s.requests, TrimSpace(o.breaking.value.id));
             i.Some? ==> i.value < |s.requests| && s.requests[i.value] == run.states[n].request
    ensures var request := run.states[n].request;
            && (forall r | r in request.requirements :: ApprovedBy(request, r))
            && (created.config.enabled && created.report.status == Breaking ==>
                  request.status == Approved && exists d :: d in request.decisions && d.value == Approve)
  {
    hide TrimSpace; hide FindByReport; hide Gate.IsBreaking; hide Gate.GateOpens; hide RepliesFrom; hide RequestValid;
    hide TrailValid; hide RequiredPlans; hide ApprovalRaces.Enabled; hide BuiltRequirements;
    OpenGateMeansReleased(s, input, o, hasGovernanceClient);
    BuiltRequestValid(created.report, RequiredPlans(created), requestId, ids);
    ApprovalRaces.ApprovedMeansApproved(run, n);
    var request := run.states[n].request;
    if created.config.enabled && created.report.status == Breaking {
      BreakingNeedsPlans(created);
      assert request.requirements[0] in request.requirements;
    }
  }
}
