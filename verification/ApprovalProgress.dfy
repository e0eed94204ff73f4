/** Which requests can be approved: those created without a missing-owner warning, from every
    state they reach while the owners stay the same. */
module ApprovalProgress {
  import opened Wrappers
  import opened Text
  import opened Sequences
  import opened Policy
  import opened Approvals
  import opened ApprovalStore
  import opened ApprovalService

  // The policy's eligible-owner test and the decision's actor check agree

  ghost predicate SomeoneCanDecide(owners: seq<ModuleOwner>, r: Requirement, allowMaintainer: bool) {
    exists actor: string :: Trimmed(actor) && actor != "" && CanDecide(owners, r, actor, allowMaintainer)
  }

  /** Somebody can decide a requirement exactly when its target module is known and has an
      eligible owner. */
  lemma EligibleOwnerCanDecide(owners: seq<ModuleOwner>, r: Requirement, allowMaintainer: bool)
    requires OwnersValid(owners)
    ensures SomeoneCanDecide(owners, r, allowMaintainer) <==>
            && r.targetModuleId.Some? && r.targetModuleId.value != ""
            && HasEligible(OwnersOf(owners, r.targetModuleId.value), allowMaintainer)
  {
    if r.targetModuleId.Some? && r.targetModuleId.value != "" {
      var target := r.targetModuleId.value;
      FilterMembers(owners, OwnedModule(target));
      hide Filter; hide Trimmed;
      if HasEligible(OwnersOf(owners, target), allowMaintainer) {
        var o :| o in OwnersOf(owners, target) && Eligible(o, allowMaintainer);
        assert o in owners;
        assert HasRole(owners, target, o.subjectType, o.subject, allowMaintainer);
        assert CanDecide(owners, r, o.subject, allowMaintainer);
      }
      if actor: string :| Trimmed(actor) && actor != "" && CanDecide(owners, r, actor, allowMaintainer) {
        var t := if HasRole(owners, target, User, actor, allowMaintainer) then User else Team;
        assert HasRole(owners, target, t, actor, allowMaintainer);
        var o :| o in owners && o.moduleId == target && o.subjectType == t && o.subject == actor && Eligible(o, allowMaintainer);
        assert o in OwnersOf(owners, target);
      }
    }
  }

  // Approving what is left

  const NO_FAULTS := DecisionFaults(false, (t: SubjectType) => false, false, false, false, false, false, false, false, Done, false)

  function CallFor(d: Decision): DecisionInput {
    DecisionInput("", d.requirementId, d.decidedBy, d.comment)
  }

  /** RecordDecision takes these calls one after the other, each when nothing fails. */
  predicate Takes(s: Store, config: PolicyConfig, calls: seq<Decision>, t: Store)
    decreases |calls|
  {
    if calls == [] then t == s
    else
      && Refusal(s, config, CallFor(calls[0]), NO_FAULTS).None?
      && DecideEnabled(s, config, calls[0])
      && Takes(Apply(s, config, Decide(calls[0])), config, calls[1..], t)
  }

  predicate AllApprove(calls: seq<Decision>) {
    forall d | d in calls :: d.value == Approve
  }

  /** An enabled decision is a call that the service takes. */
  lemma EnabledIsTaken(s: Store, config: PolicyConfig, d: Decision)
    requires StoreValid(s) && DecideEnabled(s, config, d)
    ensures Refusal(s, config, CallFor(d), NO_FAULTS).None?
  {
    hide RequestValid; hide TrailValid; hide RequestsDistinct; hide OwnersValid; hide CanDecide; hide TrimSpace; hide Trimmed;
    hide Refusal; hide HasRequirement;
    var request := s.requests[FindByRequirement(s.requests, d.requirementId).value];
    assert IdsProper(request) && request.requirements[IndexOf(request.requirements, d.requirementId)].id == d.requirementId;
    TrimSpaceTrims(d.requirementId);
    TrimSpaceTrims(d.decidedBy);
    NothingToTrim();
    AcceptedExactly(s, config, CallFor(d), NO_FAULTS, d);
  }

  lemma NothingToTrim()
    ensures TrimSpace("") == ""
  {}

  ghost predicate AllDecidable(owners: seq<ModuleOwner>, requirements: seq<Requirement>, allowMaintainer: bool) {
    forall r | r in requirements :: SomeoneCanDecide(owners, r, allowMaintainer)
  }

  lemma {:induction false} UndecidedIndex(requirements: seq<Requirement>) returns (k: nat)
    requires CountStatus(requirements, Undecided) > 0
    ensures k < |requirements| && requirements[k].status == Undecided
  {
    var init := requirements[..|requirements| - 1];
    if requirements[|requirements| - 1].status == Undecided {
      k := |requirements| - 1;
    } else {
      k := UndecidedIndex(init);
    }
  }

  lemma PendingHasUndecided(request: Request)
    requires RequestValid(request) && request.status == Pending
    ensures CountStatus(request.requirements, Undecided) > 0
  {
    PendingFacts(request);
    CountIsAll(request.requirements, Undecided);
    CountIsAll(request.requirements, Refused);
    CountIsAll(request.requirements, Granted);
    NothingLeftIsAllGranted(request.requirements);
    hide CountStatus; hide DecidedOnce; hide AllAre; hide NoneAre;
  }

  lemma NothingLeftIsAllGranted(requirements: seq<Requirement>)
    ensures NoneAre(requirements, Undecided) && NoneAre(requirements, Refused) && NoneAre(requirements, Waived) ==>
              AllAre(requirements, Granted)
  {}

  lemma NotShared(requests: seq<Request>, i: nat, j: nat, id: string)
    requires RequestsDistinct(requests) && i < |requests| && j < |requests| && i != j
    ensures !(HasRequirement(requests[i].requirements, id) && HasRequirement(requests[j].requirements, id))
  {
    var a, b := if i < j then i else j, if i < j then j else i;
    assert Disjoint(requests[a].requirements, requests[b].requirements);
  }

  lemma {:induction false} IndexIsUnique(requirements: seq<Requirement>, k: nat)
    requires DistinctIds(requirements) && k < |requirements|
    ensures HasRequirement(requirements, requirements[k].id) && IndexOf(requirements, requirements[k].id) == k
  {
    assert requirements[k] in requirements;
  }

  /** A requirement is found in its own request, at its own place. */
  lemma RequirementIsFound(s: Store, i: nat, k: nat)
    requires StoreValid(s) && i < |s.requests| && k < |s.requests[i].requirements|
    ensures var id := s.requests[i].requirements[k].id;
            && FindByRequirement(s.requests, id) == Some(i)
            && HasRequirement(s.requests[i].requirements, id)
            && IndexOf(s.requests[i].requirements, id) == k
  {
    hide TrailValid; hide DecidedOnce; hide CountStatus; hide OwnersValid; hide StatusOf; hide RequestsDistinct;
    hide FindByRequirement; hide HasRequirement;
    assert RequestValid(s.requests[i]);
    IndexIsUnique(s.requests[i].requirements, k);
    var id := s.requests[i].requirements[k].id;
    FoundByRequirement(s.requests, id);
    forall j: nat | j < |s.requests| && j != i
      ensures !HasRequirement(s.requests[j].requirements, id)
    {
      NotShared(s.requests, i, j, id);
    }
  }

  lemma ApproveOne(s: Store, config: PolicyConfig, i: nat) returns (d: Decision)
    requires StoreValid(s) && i < |s.requests| && s.requests[i].status == Pending
    requires AllDecidable(s.owners, s.requests[i].requirements, config.allowMaintainerApproval)
    ensures d.value == Approve && DecideEnabled(s, config, d)
    ensures FindByRequirement(s.requests, d.requirementId) == Some(i)
    ensures RequestValid(s.requests[i])
    ensures exists k: nat ::
              && k < |s.requests[i].requirements|
              && CanBeDecided(s.requests[i], k)
              && d.requirementId == s.requests[i].requirements[k].id
  {
    hide TrailValid; hide RequestsDistinct; hide CanDecide; hide OwnersValid;
    var request := s.requests[i];
    assert RequestValid(request);
    hide RequestValid;
    PendingHasUndecided(request);
    var k := UndecidedIndex(request.requirements);
    RequirementIsFound(s, i, k);
    hide StoreValid; hide Trimmed;
    var requirement := request.requirements[k];
    assert requirement in request.requirements;
    var actor: string :| Trimmed(actor) && actor != "" && CanDecide(s.owners, requirement, actor, config.allowMaintainerApproval);
    d := Decision("", requirement.id, Approve, actor, "");
    assert CanBeDecided(request, k);
  }

  lemma DecidersStay(requirements: seq<Requirement>, after: seq<Requirement>, owners: seq<ModuleOwner>, allowMaintainer: bool)
    requires AllDecidable(owners, requirements, allowMaintainer) && SameTargets(requirements, after)
    ensures AllDecidable(owners, after, allowMaintainer)
  {
    forall r | r in after
      ensures SomeoneCanDecide(owners, r, allowMaintainer)
    {
      var n :| 0 <= n < |after| && after[n] == r;
      assert requirements[n] in requirements;
      SameTargetSameDeciders(owners, requirements[n], r, allowMaintainer);
    }
  }

  predicate SameTargets(requirements: seq<Requirement>, after: seq<Requirement>) {
    && |after| == |requirements|
    && forall n | 0 <= n < |after| ::
         after[n].id == requirements[n].id && after[n].targetModuleId == requirements[n].targetModuleId
  }

  lemma SameTargetSameDeciders(owners: seq<ModuleOwner>, r: Requirement, q: Requirement, allowMaintainer: bool)
    requires r.targetModuleId == q.targetModuleId && SomeoneCanDecide(owners, r, allowMaintainer)
    ensures SomeoneCanDecide(owners, q, allowMaintainer)
  {
    var actor: string :| Trimmed(actor) && actor != "" && CanDecide(owners, r, actor, allowMaintainer);
    hide HasRole; hide Trimmed;
    assert CanDecide(owners, q, actor, allowMaintainer);
  }

  lemma ApprovalLeavesFewer(request: Request, k: nat, d: Decision)
    requires RequestValid(request) && CanBeDecided(request, k)
    requires d.value == Approve && d.requirementId == request.requirements[k].id
    ensures var after := Decided(request, d);
            && CountStatus(after.requirements, Undecided) < CountStatus(request.requirements, Undecided)
            && (after.status == Pending || after.status == Approved)
            && SameTargets(request.requirements, after.requirements)
  {
    hide SetStatus; hide CountStatus; hide AllApprovedAfter; hide RequestValid; hide DistinctIds;
    PendingFacts(request);
    DecidingMovesOne(request.requirements, k, Granted, Undecided);
    SameTargetsAfter(request.requirements, d.requirementId, Granted);
  }

  lemma SameTargetsAfter(requirements: seq<Requirement>, decided: string, status: RequirementStatus)
    ensures SameTargets(requirements, SetStatus(requirements, decided, status))
  {
    MapStatusAt(requirements, decided, status);
    hide SetStatus;
  }

  /** From a pending request whose every requirement somebody can decide, approvals that the
      service takes lead to approved. */
  lemma {:induction false} PendingCanBeApproved(s: Store, config: PolicyConfig, i: nat) returns (calls: seq<Decision>, t: Store)
    requires StoreValid(s) && i < |s.requests|
    requires s.requests[i].status == Pending || s.requests[i].status == Approved
    requires AllDecidable(s.owners, s.requests[i].requirements, config.allowMaintainerApproval)
    ensures Takes(s, config, calls, t) && AllApprove(calls)
    ensures |t.requests| == |s.requests| && t.requests[i].status == Approved
    decreases CountStatus(s.requests[i].requirements, Undecided)
  {
    hide StoreValid; hide AllDecidable; hide CountStatus; hide DecideEnabled; hide Decided; hide DecisionEvents;
    hide CanBeDecided; hide SameTargets; hide RequestValid; hide Refusal;
    if s.requests[i].status == Approved {
      calls, t := [], s;
    } else {
      var d := ApproveOne(s, config, i);
      var k: nat :| k < |s.requests[i].requirements| && CanBeDecided(s.requests[i], k) && d.requirementId == s.requests[i].requirements[k].id;
      EnabledIsTaken(s, config, d);
      ApprovalLeavesFewer(s.requests[i], k, d);
      StepKeepsStoreValid(s, config, Decide(d));
      var next := Apply(s, config, Decide(d));
      DecidersStay(s.requests[i].requirements, next.requests[i].requirements, s.owners, config.allowMaintainerApproval);
      var rest;
      rest, t := PendingCanBeApproved(next, config, i);
      calls := [d] + rest;
      assert calls[1..] == rest;
    }
  }

  // Creation

  /** Registered modules have non-empty ids. */
  predicate IdsPresent(report: Report, affected: seq<Affected>) {
    report.moduleId != "" && forall a | a in affected :: a.moduleId.Some? ==> a.moduleId.value != ""
  }

  predicate FromOwners(owners: seq<ModuleOwner>, c: Candidate) {
    && c.plan.warnings == []
    && (c.plan.targetModuleId.Some? ==>
          c.plan.targetModuleId.value != "" && c.owners == OwnersOf(owners, c.plan.targetModuleId.value))
    && (c.plan.targetModuleId.None? ==> c.owners == [])
  }

  lemma {:induction false} ConsumersFromOwners(owners: seq<ModuleOwner>, input: PolicyInput, affected: seq<AffectedModule>)
    requires forall a | a in affected ::
               && (a.moduleId.Some? ==> a.moduleId.value != "" && a.owners == OwnersOf(owners, a.moduleId.value))
               && (a.moduleId.None? ==> a.owners == [])
    ensures forall c | c in ConsumerCandidates(input, affected) :: FromOwners(owners, c)
  {
    hide UsedInProduction; hide OwnersOf;
    if affected != [] {
      ConsumersFromOwners(owners, input, affected[..|affected| - 1]);
    }
  }

  lemma CandidatesFromOwners(owners: seq<ModuleOwner>, report: Report, affected: seq<Affected>, impact: seq<RuntimeImpact>,
                             config: PolicyConfig)
    requires IdsPresent(report, affected)
    ensures var input := InputFor(owners, report, affected, impact, config);
            forall c | c in Candidates(input, input.affectedModules) :: FromOwners(owners, c)
  {
    hide OwnersOf; hide Map; hide ConsumerCandidates;
    var input := InputFor(owners, report, affected, impact, config);
    forall a | a in input.affectedModules
      ensures && (a.moduleId.Some? ==> a.moduleId.value != "" && a.owners == OwnersOf(owners, a.moduleId.value))
              && (a.moduleId.None? ==> a.owners == [])
    {
      var n :| 0 <= n < |input.affectedModules| && input.affectedModules[n] == a;
      assert affected[n] in affected;
    }
    ConsumersFromOwners(owners, input, input.affectedModules);
  }

  lemma PlanIsDecidable(owners: seq<ModuleOwner>, c: Candidate, r: Requirement, allowMaintainer: bool)
    requires OwnersValid(owners) && FromOwners(owners, c)
    requires r.targetModuleId == c.plan.targetModuleId
    ensures SomeoneCanDecide(owners, r, allowMaintainer) <==> Planned(c, allowMaintainer).warnings == []
  {
    hide SomeoneCanDecide; hide OwnersOf; hide OwnersValid;
    EligibleOwnerCanDecide(owners, r, allowMaintainer);
  }

  /** Requirement n of a new request can be decided exactly when its plan has no warning. */
  lemma BuiltIsDecidable(s: Store, config: PolicyConfig, a: Action, n: nat)
    requires OwnersValid(s.owners) && a.Create? && CreateEnabled(s, config, a) && IdsPresent(a.report, a.affected)
    requires n < |Created(s, config, a).requirements|
    ensures var plans := RequiredPlans(InputFor(s.owners, a.report, a.affected, a.impact, config));
            && |plans| == |Created(s, config, a).requirements|
            && (SomeoneCanDecide(s.owners, Created(s, config, a).requirements[n], config.allowMaintainerApproval) <==>
                plans[n].warnings == [])
  {
    var input := InputFor(s.owners, a.report, a.affected, a.impact, config);
    var candidates := Candidates(input, input.affectedModules);
    CandidatesFromOwners(s.owners, a.report, a.affected, a.impact, config);
    hide FreshIds; hide FindByReport; hide Candidates; hide Planning; hide SomeoneCanDecide; hide OwnersValid; hide FromOwners;
    hide HasEligible;
    var k := EveryPlanHasItsCandidate(candidates, config.allowMaintainerApproval, n);
    PlanIsDecidable(s.owners, candidates[k], Created(s, config, a).requirements[n], config.allowMaintainerApproval);
  }

  /** A new request gets no missing-owner warning exactly when every requirement can be
      decided by somebody. */
  lemma NoWarningMeansDecidable(s: Store, config: PolicyConfig, a: Action)
    requires OwnersValid(s.owners) && a.Create? && CreateEnabled(s, config, a) && IdsPresent(a.report, a.affected)
    ensures FlatMap(RequiredPlans(InputFor(s.owners, a.report, a.affected, a.impact, config)), WarningsOf) == [] <==>
            AllDecidable(s.owners, Created(s, config, a).requirements, config.allowMaintainerApproval)
  {
    var plans := RequiredPlans(InputFor(s.owners, a.report, a.affected, a.impact, config));
    var requirements := Created(s, config, a).requirements;
    hide CreateEnabled; hide RequiredPlans; hide SomeoneCanDecide; hide OwnersValid; hide Created; hide IdsPresent;
    forall n | 0 <= n < |requirements|
      ensures |plans| == |requirements|
      ensures SomeoneCanDecide(s.owners, requirements[n], config.allowMaintainerApproval) <==> plans[n].warnings == []
    {
      BuiltIsDecidable(s, config, a, n);
    }
    CreatedLength(s, config, a);
    NoWarnings(plans);
    if FlatMap(plans, WarningsOf) == [] {
      forall r | r in requirements
        ensures SomeoneCanDecide(s.owners, r, config.allowMaintainerApproval)
      {
        var n :| 0 <= n < |requirements| && requirements[n] == r;
      }
    }
    if AllDecidable(s.owners, requirements, config.allowMaintainerApproval) {
      forall n | 0 <= n < |plans|
        ensures plans[n].warnings == []
      {
        assert requirements[n] in requirements;
      }
    }
  }

  lemma CreatedLength(s: Store, config: PolicyConfig, a: Action)
    requires a.Create? && CreateEnabled(s, config, a)
    ensures |Created(s, config, a).requirements| == |RequiredPlans(InputFor(s.owners, a.report, a.affected, a.impact, config))|
  {}

  lemma {:induction false} NoWarnings(plans: seq<Plan>)
    ensures FlatMap(plans, WarningsOf) == [] <==> forall n | 0 <= n < |plans| :: plans[n].warnings == []
  {
    if plans != [] {
      var init := plans[..|plans| - 1];
      NoWarnings(init);
      assert forall n | 0 <= n < |init| :: init[n] == plans[n];
    }
  }

  // While the owners stay the same

  predicate KeepsOwners(a: Action) { !a.ChangeOwners? }

  lemma StepKeepsTargets(s: Store, config: PolicyConfig, a: Action, i: nat)
    requires Enabled(s, config, a) && KeepsOwners(a) && i < |s.requests|
    ensures var t := Apply(s, config, a);
            t.owners == s.owners && i < |t.requests| && SameTargets(s.requests[i].requirements, t.requests[i].requirements)
  {
    hide CanDecide; hide CountStatus; hide FindByReport; hide RequiredPlans; hide FreshIds; hide StatusAfter; hide DecisionEvents;
    if a.Decide? {
      MapStatusAt(s.requests[FindByRequirement(s.requests, a.decision.requirementId).value].requirements,
                  a.decision.requirementId, Deciding(a.decision.value));
      hide SetStatus;
    }
  }

  lemma {:induction false} RunKeepsTargets(s: Store, config: PolicyConfig, actions: seq<Action>, t: Store, i: nat)
    requires IsRun(s, config, actions, t) && (forall a | a in actions :: KeepsOwners(a)) && i < |s.requests|
    ensures t.owners == s.owners && i < |t.requests| && SameTargets(s.requests[i].requirements, t.requests[i].requirements)
    decreases |actions|
  {
    hide Enabled; hide Apply;
    if actions != [] {
      assert actions[0] in actions;
      StepKeepsTargets(s, config, actions[0], i);
      RunKeepsTargets(Apply(s, config, actions[0]), config, actions[1..], t, i);
    }
  }

  /** While the owners are unchanged, a request created without a missing-owner warning can
      be approved from every pending state it reaches, by decisions that the service takes. */
  lemma NoWarningMeansApprovable(s: Store, config: PolicyConfig, a: Action, actions: seq<Action>, t: Store)
    returns (calls: seq<Decision>, u: Store)
    requires StoreValid(s) && a.Create? && CreateEnabled(s, config, a) && IdsPresent(a.report, a.affected)
    requires FlatMap(RequiredPlans(InputFor(s.owners, a.report, a.affected, a.impact, config)), WarningsOf) == []
    requires IsRun(Apply(s, config, a), config, actions, t) && forall b | b in actions :: KeepsOwners(b)
    requires |s.requests| < |t.requests| && t.requests[|s.requests|].status == Pending
    ensures Takes(t, config, calls, u) && AllApprove(calls)
    ensures |s.requests| < |u.requests| && u.requests[|s.requests|].status == Approved
  {
    var i := |s.requests|;
    var created := Apply(s, config, a);
    assert created.requests[i] == Created(s, config, a) && created.owners == s.owners;
    NoWarningMeansDecidable(s, config, a);
    StepKeepsStoreValid(s, config, a);
    hide StoreValid; hide CreateEnabled; hide RequiredPlans; hide AllDecidable; hide Apply; hide Created; hide SameTargets;
    RunKeepsTargets(created, config, actions, t, i);
    EveryRunKeepsStoreValid(created, config, actions, t);
    DecidersStay(created.requests[i].requirements, t.requests[i].requirements, t.owners, config.allowMaintainerApproval);
    calls, u := PendingCanBeApproved(t, config, i);
  }

  // The other half: an undecidable requirement is never decided

  /** Requirement k of request i is undecided and nobody can decide it. */
  ghost predicate Stuck(s: Store, config: PolicyConfig, i: nat, k: nat) {
    && i < |s.requests| && k < |s.requests[i].requirements|
    && s.requests[i].requirements[k].status == Undecided
    && !SomeoneCanDecide(s.owners, s.requests[i].requirements[k], config.allowMaintainerApproval)
  }

  lemma StuckIsNotDecided(s: Store, config: PolicyConfig, d: Decision, i: nat, k: nat)
    requires StoreValid(s) && DecideEnabled(s, config, d) && Stuck(s, config, i, k)
    ensures s.requests[i].requirements[k].id != d.requirementId
  {
    RequirementIsFound(s, i, k);
    hide StoreValid; hide CanDecide; hide Trimmed; hide FindByRequirement; hide HasRequirement;
  }

  lemma StepKeepsStuck(s: Store, config: PolicyConfig, a: Action, i: nat, k: nat)
    requires StoreValid(s) && Enabled(s, config, a) && KeepsOwners(a) && Stuck(s, config, i, k)
    ensures Stuck(Apply(s, config, a), config, i, k)
  {
    hide StoreValid; hide CountStatus; hide FindByReport; hide RequiredPlans; hide SomeoneCanDecide;
    hide FreshIds; hide StatusAfter; hide DecisionEvents; hide CanDecide;
    if a.Decide? {
      var d := a.decision;
      var found := FindByRequirement(s.requests, d.requirementId).value;
      MapStatusAt(s.requests[found].requirements, d.requirementId, Deciding(d.value));
      StuckIsNotDecided(s, config, d, i, k);
      hide SetStatus;
      SameTargetsSameStuck(s, config, Apply(s, config, a), i, k);
    }
  }

  lemma SameTargetsSameStuck(s: Store, config: PolicyConfig, t: Store, i: nat, k: nat)
    requires Stuck(s, config, i, k) && t.owners == s.owners && i < |t.requests| && k < |t.requests[i].requirements|
    requires t.requests[i].requirements[k] == s.requests[i].requirements[k]
    ensures Stuck(t, config, i, k)
  {}

  lemma {:induction false} RunKeepsStuck(s: Store, config: PolicyConfig, actions: seq<Action>, t: Store, i: nat, k: nat)
    requires StoreValid(s) && IsRun(s, config, actions, t) && (forall a | a in actions :: KeepsOwners(a)) && Stuck(s, config, i, k)
    ensures Stuck(t, config, i, k) && t.requests[i].status != Approved
    decreases |actions|
  {
    hide Enabled; hide Apply;
    if actions != [] {
      hide StoreValid; hide Stuck;
      assert actions[0] in actions;
      StepKeepsStuck(s, config, actions[0], i, k);
      StepKeepsStoreValid(s, config, actions[0]);
      RunKeepsStuck(Apply(s, config, actions[0]), config, actions[1..], t, i, k);
    } else {
      StuckIsNotApproved(s, config, i, k);
    }
  }

  lemma StuckIsNotApproved(s: Store, config: PolicyConfig, i: nat, k: nat)
    requires StoreValid(s) && Stuck(s, config, i, k)
    ensures s.requests[i].status != Approved
  {
    assert RequestValid(s.requests[i]);
    StatusMeaning(s.requests[i]);
    assert s.requests[i].requirements[k] in s.requests[i].requirements;
  }

  /** A request created with a missing-owner warning is not approved by any run that leaves
      the owners unchanged. */
  lemma WarningMeansNeverApproved(s: Store, config: PolicyConfig, a: Action, actions: seq<Action>, t: Store)
    requires StoreValid(s) && a.Create? && CreateEnabled(s, config, a) && IdsPresent(a.report, a.affected)
    requires FlatMap(RequiredPlans(InputFor(s.owners, a.report, a.affected, a.impact, config)), WarningsOf) != []
    requires IsRun(Apply(s, config, a), config, actions, t) && forall b | b in actions :: KeepsOwners(b)
    ensures |s.requests| < |t.requests| && t.requests[|s.requests|].status != Approved
  {
    hide StoreValid; hide CreateEnabled; hide RequiredPlans; hide Apply; hide Created; hide Stuck; hide OwnersValid;
    var k := WarningMeansStuck(s, config, a);
    StepKeepsStoreValid(s, config, a);
    RunKeepsStuck(Apply(s, config, a), config, actions, t, |s.requests|, k);
    StuckIsThere(t, config, |s.requests|, k);
  }

  lemma WarningMeansStuck(s: Store, config: PolicyConfig, a: Action) returns (k: nat)
    requires StoreValid(s) && a.Create? && CreateEnabled(s, config, a) && IdsPresent(a.report, a.affected)
    requires FlatMap(RequiredPlans(InputFor(s.owners, a.report, a.affected, a.impact, config)), WarningsOf) != []
    ensures Stuck(Apply(s, config, a), config, |s.requests|, k)
  {
    hide FreshIds; hide FindByReport; hide RequiredPlans; hide SomeoneCanDecide; hide RequestValid; hide TrailValid;
    hide RequestsDistinct; hide IdsPresent; hide FlatMap;
    NoWarningMeansDecidable(s, config, a);
    var requirements := Created(s, config, a).requirements;
    var r :| r in requirements && !SomeoneCanDecide(s.owners, r, config.allowMaintainerApproval);
    k :| 0 <= k < |requirements| && requirements[k] == r;
  }

  lemma StuckIsThere(s: Store, config: PolicyConfig, i: nat, k: nat)
    requires Stuck(s, config, i, k)
    ensures i < |s.requests|
  {}
}
