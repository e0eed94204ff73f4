/** Which decisions the service takes, and which requests it creates, in terms of the rows. */
module ApprovalRights {
  import opened Wrappers
  import opened Text
  import opened Sequences
  import opened Policy
  import opened PolicyTheorems
  import opened Approvals
  import opened ApprovalStore
  import opened ApprovalService
  import opened ApprovalProgress

  /** Requirement k of request i is the one the call names, it is open, and an owner row of its
      target module gives the caller the right to decide. */
  predicate OpenToCaller(s: Store, config: PolicyConfig, input: DecisionInput, i: nat, k: nat) {
    && i < |s.requests| && k < |s.requests[i].requirements|
    && var request, r := s.requests[i], s.requests[i].requirements[k];
       && r.id == TrimSpace(input.requirementId)
       && (TrimSpace(input.requestId) == "" || TrimSpace(input.requestId) == request.id)
       && request.status == Pending && r.status == Undecided
       && r.targetModuleId.Some? && r.targetModuleId.value != ""
       && exists o :: && o in s.owners && o.moduleId == r.targetModuleId.value && o.subject == TrimSpace(input.actor)
                      && (o.role == OwnerRole || (config.allowMaintainerApproval && o.role == MaintainerRole))
  }

  lemma RightsMean(s: Store, config: PolicyConfig, r: Requirement, actor: string)
    ensures CanDecide(s.owners, r, actor, config.allowMaintainerApproval) <==>
            && r.targetModuleId.Some? && r.targetModuleId.value != ""
            && exists o :: && o in s.owners && o.moduleId == r.targetModuleId.value && o.subject == actor
                           && (o.role == OwnerRole || (config.allowMaintainerApproval && o.role == MaintainerRole))
  {
    if r.targetModuleId.Some? && r.targetModuleId.value != "" {
      var target := r.targetModuleId.value;
      if o :| o in s.owners && o.moduleId == target && o.subject == actor
              && (o.role == OwnerRole || (config.allowMaintainerApproval && o.role == MaintainerRole)) {
        assert Eligible(o, config.allowMaintainerApproval);
        assert HasRole(s.owners, target, o.subjectType, actor, config.allowMaintainerApproval);
      }
    }
  }

  /** A failed lookup hides the rows of its kind of subject, and only those. */
  lemma FailedLookupsAreSkipped(s: Store, config: PolicyConfig, r: Requirement, actor: string, lookup: SubjectType -> bool)
    ensures MayDecide(s.owners, r, actor, config.allowMaintainerApproval, lookup) <==>
            && r.targetModuleId.Some? && r.targetModuleId.value != ""
            && exists o :: && o in s.owners && o.moduleId == r.targetModuleId.value && o.subject == actor
                           && (o.role == OwnerRole || (config.allowMaintainerApproval && o.role == MaintainerRole))
                           && !lookup(o.subjectType)
  {
    if r.targetModuleId.Some? && r.targetModuleId.value != "" {
      var target := r.targetModuleId.value;
      if o :| o in s.owners && o.moduleId == target && o.subject == actor
              && (o.role == OwnerRole || (config.allowMaintainerApproval && o.role == MaintainerRole)) && !lookup(o.subjectType) {
        assert Eligible(o, config.allowMaintainerApproval);
        assert HasRole(s.owners, target, o.subjectType, actor, config.allowMaintainerApproval);
      }
      if MayDecide(s.owners, r, actor, config.allowMaintainerApproval, lookup) {
        var t := if !lookup(User) && HasRole(s.owners, target, User, actor, config.allowMaintainerApproval) then User else Team;
        assert HasRole(s.owners, target, t, actor, config.allowMaintainerApproval) && !lookup(t);
        var o :| o in s.owners && o.moduleId == target && o.subjectType == t && o.subject == actor
                 && Eligible(o, config.allowMaintainerApproval);
      }
    }
  }

  /** When no read fails, the service takes a decision exactly when both ids are given, the
      comment fits, and the named requirement is open to the caller. */
  lemma TakenExactlyWhenOpen(s: Store, config: PolicyConfig, input: DecisionInput, f: DecisionFaults)
    requires StoreValid(s) && !f.read && !f.lookup(User) && !f.lookup(Team)
    ensures Refusal(s, config, input, f).None? <==>
            && TrimSpace(input.requirementId) != "" && TrimSpace(input.actor) != "" && |input.comment| <= 2000
            && exists i: nat, k: nat :: OpenToCaller(s, config, input, i, k)
  {
    hide TrimSpace; hide Trimmed; hide TrailValid; hide RequestsDistinct; hide CountStatus; hide StatusOf; hide OwnersValid;
    hide DecidedOnce; hide HasDecision; hide CanDecide; hide RequestValid; hide OpenToCaller; hide Refusal;
    var id, actor := TrimSpace(input.requirementId), TrimSpace(input.actor);
    var d := Decision("", id, Approve, actor, input.comment);
    AcceptedExactly(s, config, input, f, d);
    TrimSpaceTrims(input.actor);
    if Refusal(s, config, input, f).None? {
      NotEmpty(s, config, input, f);
      var i := FindByRequirement(s.requests, id).value;
      var k := IndexOf(s.requests[i].requirements, id);
      OpenMeans(s, config, input, i, k);
    }
    if exists i: nat, k: nat :: OpenToCaller(s, config, input, i, k) {
      var i: nat, k: nat :| OpenToCaller(s, config, input, i, k);
      OpenMeans(s, config, input, i, k);
      RequirementIsFound(s, i, k);
    }
  }

  lemma NotEmpty(s: Store, config: PolicyConfig, input: DecisionInput, f: DecisionFaults)
    requires Refusal(s, config, input, f).None?
    ensures TrimSpace(input.requirementId) != "" && TrimSpace(input.actor) != "" && |input.comment| <= 2000
  {
    hide TrimSpace; hide HasDecision; hide MayDecide;
  }

  lemma OpenMeans(s: Store, config: PolicyConfig, input: DecisionInput, i: nat, k: nat)
    ensures OpenToCaller(s, config, input, i, k) <==>
            && i < |s.requests| && k < |s.requests[i].requirements|
            && s.requests[i].requirements[k].id == TrimSpace(input.requirementId)
            && (TrimSpace(input.requestId) == "" || TrimSpace(input.requestId) == s.requests[i].id)
            && CanBeDecided(s.requests[i], k)
            && CanDecide(s.owners, s.requests[i].requirements[k], TrimSpace(input.actor), config.allowMaintainerApproval)
  {
    hide TrimSpace; hide CanDecide;
    if i < |s.requests| && k < |s.requests[i].requirements| {
      RightsMean(s, config, s.requests[i].requirements[k], TrimSpace(input.actor));
    }
  }

  // Created requests

  /** The policy sees the owner rows of the changed module and, for each affected module with a
      known id, those of that module; the rest of its input is as given. */
  lemma PolicySeesOwners(owners: seq<ModuleOwner>, report: Report, affected: seq<Affected>, impact: seq<RuntimeImpact>,
                         config: PolicyConfig, o: ModuleOwner)
    ensures var input := InputFor(owners, report, affected, impact, config);
            && input.report == report && input.runtimeImpact == impact && input.config == config
            && (o in input.moduleOwners <==> o in owners && o.moduleId == report.moduleId)
            && |input.affectedModules| == |affected|
            && forall n | 0 <= n < |affected| ::
                 var a := input.affectedModules[n];
                 && a.moduleId == affected[n].moduleId && a.moduleName == affected[n].moduleName && !a.productionUsed
                 && (o in a.owners <==> o in owners && affected[n].moduleId == Some(o.moduleId))
  {
    FilterMembers(owners, OwnedModule(report.moduleId));
    hide Filter; hide Map;
    var input := InputFor(owners, report, affected, impact, config);
    forall n | 0 <= n < |affected|
      ensures o in input.affectedModules[n].owners <==> o in owners && affected[n].moduleId == Some(o.moduleId)
    {
      assert input.affectedModules[n] == WithOwners(owners)(affected[n]);
      if affected[n].moduleId.Some? { FilterMembers(owners, OwnedModule(affected[n].moduleId.value)); }
    }
  }

  /** A created request is for the report and its module, pending unless nothing is required,
      and has one undecided requirement per policy requirement, in order, for the same
      approval and target, under the generated ids. */
  lemma CreatedFollowsPolicy(s: Store, config: PolicyConfig, a: Action)
    requires a.Create? && CreateEnabled(s, config, a)
    ensures var plans := RequiredPlans(InputFor(s.owners, a.report, a.affected, a.impact, config));
            var request := Created(s, config, a);
            && request.id == a.requestId && request.reportId == a.report.id && request.moduleId == a.report.moduleId
            && (request.status == Pending <==> plans != []) && (request.status == NotRequired <==> plans == [])
            && request.decisions == [] && request.receivedApprovals == 0
            && request.requiredApprovals == |request.requirements| == |plans| == |a.requirementIds|
            && forall n | 0 <= n < |plans| ::
                 var r := request.requirements[n];
                 && r.id == a.requirementIds[n] && r.status == Undecided
                 && r.requirementType == plans[n].requirementType
                 && r.targetModuleId == plans[n].targetModuleId && r.targetModuleName == plans[n].targetModuleName
    ensures Apply(s, config, a).requests == s.requests + [Created(s, config, a)]
    ensures Apply(s, config, a).owners == s.owners
  {
    hide RequiredPlans; hide InputFor; hide FreshIds; hide FindByReport;
  }

  /** A decision changes its own request only: there, only the decided requirement's status, and
      the decision is added last. */
  lemma DecisionChangesOneRequirement(s: Store, config: PolicyConfig, d: Decision)
    requires StoreValid(s) && DecideEnabled(s, config, d)
    ensures var t := Apply(s, config, Decide(d));
            var i := FindByRequirement(s.requests, d.requirementId).value;
            && t.owners == s.owners && |t.requests| == |s.requests| && i < |s.requests|
            && (forall j | 0 <= j < |s.requests| && j != i :: t.requests[j] == s.requests[j])
            && var before, after := s.requests[i], t.requests[i];
               && after.id == before.id && after.reportId == before.reportId && after.moduleId == before.moduleId
               && after.decisions == before.decisions + [d]
               && |after.requirements| == |before.requirements|
               && forall k | 0 <= k < |before.requirements| ::
                    after.requirements[k] ==
                    if before.requirements[k].id != d.requirementId then before.requirements[k]
                    else before.requirements[k].(status := if d.value == Approve then Granted else RequirementStatus.Refused)
  {
    hide StoreValid; hide CanDecide; hide StatusAfter; hide DecisionEvents; hide CountStatus; hide Trimmed;
    var i := FindByRequirement(s.requests, d.requirementId).value;
    MapStatusAt(s.requests[i].requirements, d.requirementId, Deciding(d.value));
    hide SetStatus;
  }
}
