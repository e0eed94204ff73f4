/** The governance policy: which approvals a breaking report requires. */
module Policy {
  import opened Wrappers
  import opened Text
  import opened Sequences

  datatype Role = OwnerRole | MaintainerRole

  datatype SubjectType = User | Team

  datatype ModuleOwner = ModuleOwner(id: string, moduleId: string, subjectType: SubjectType, subject: string, role: Role)

  datatype PolicyConfig = PolicyConfig(enabled: bool, productionEnvironments: seq<string>, allowMaintainerApproval: bool)

  datatype ReportStatus = Passed | Breaking | CheckFailed

  datatype Report = Report(id: string, moduleId: string, moduleName: string, status: ReportStatus)

  datatype AffectedModule = AffectedModule(
    moduleId: Option<string>, moduleName: string, owners: seq<ModuleOwner>, productionUsed: bool)

  datatype RuntimeImpact = RuntimeImpact(environment: string, usedModule: string)

  datatype PolicyInput = PolicyInput(
    report: Report,
    moduleOwners: seq<ModuleOwner>,
    affectedModules: seq<AffectedModule>,
    runtimeImpact: seq<RuntimeImpact>,
    config: PolicyConfig)

  datatype RequirementType = ModuleOwnerApproval | AffectedConsumerApproval

  datatype Reason =
    | GovernanceDisabled
    | NoBreakingChanges
    | BreakingChanges
    | ModuleOwnerRequired
    | AffectedConsumerRequired
    | MissingModuleOwner
    | ProductionRuntimeConsumer

  datatype Warning = Warning(requirementType: RequirementType, targetModuleId: Option<string>, targetModuleName: string)

  datatype Plan = Plan(
    requirementType: RequirementType,
    targetModuleId: Option<string>,
    targetModuleName: string,
    allowedRoles: seq<Role>,
    reason: Reason,
    warnings: seq<Warning>)

  datatype PolicyStatus = PolicyNotRequired | PolicyPending

  datatype PolicyResult = PolicyResult(
    approvalRequired: bool,
    status: PolicyStatus,
    requiredApprovals: nat,
    requirements: seq<Plan>,
    reasons: seq<Reason>,
    warnings: seq<Warning>)

  const DEFAULT_PRODUCTION_ENVIRONMENTS: seq<string> := ["production", "prod"]

  function ProductionEnvironments(config: PolicyConfig): seq<string> {
    if config.productionEnvironments == [] then DEFAULT_PRODUCTION_ENVIRONMENTS else config.productionEnvironments
  }

  // What a requirement is for

  function TypeString(t: RequirementType): string {
    match t
    case ModuleOwnerApproval => "module_owner_approval"
    case AffectedConsumerApproval => "affected_consumer_approval"
  }

  function Target(moduleId: Option<string>, moduleName: string): string {
    if moduleId.Some? && moduleId.value != "" then moduleId.value else moduleName
  }

  function RequirementKey(p: Plan): string {
    TypeString(p.requirementType) + ":" + Target(p.targetModuleId, p.targetModuleName)
  }

  lemma TypeStringHasNoColon(t: RequirementType)
    ensures ':' !in TypeString(t)
  {}

  /** A key names one kind of approval and one target. */
  lemma RequirementKeyIsInjective(p: Plan, q: Plan)
    ensures RequirementKey(p) == RequirementKey(q) <==>
            p.requirementType == q.requirementType &&
            Target(p.targetModuleId, p.targetModuleName) == Target(q.targetModuleId, q.targetModuleName)
  {
    if RequirementKey(p) == RequirementKey(q) {
      TypeStringHasNoColon(p.requirementType);
      TypeStringHasNoColon(q.requirementType);
      FirstSeparatorIsUnique(':', TypeString(p.requirementType), Target(p.targetModuleId, p.targetModuleName),
                             TypeString(q.requirementType), Target(q.targetModuleId, q.targetModuleName));
      assert TypeString(ModuleOwnerApproval)[0] == 'm' && TypeString(AffectedConsumerApproval)[0] == 'a';
    }
  }

  predicate Eligible(o: ModuleOwner, allowMaintainer: bool) {
    o.role == OwnerRole || (allowMaintainer && o.role == MaintainerRole)
  }

  predicate HasEligible(owners: seq<ModuleOwner>, allowMaintainer: bool) {
    exists o | o in owners :: Eligible(o, allowMaintainer)
  }

  function AllowedRoles(allowMaintainer: bool): seq<Role> {
    if allowMaintainer then [OwnerRole, MaintainerRole] else [OwnerRole]
  }

  function OwnerPlan(input: PolicyInput): Plan {
    Plan(ModuleOwnerApproval, Some(input.report.moduleId), input.report.moduleName,
         AllowedRoles(input.config.allowMaintainerApproval), ModuleOwnerRequired, [])
  }

  function ConsumerPlan(a: AffectedModule, allowMaintainer: bool): Plan {
    Plan(AffectedConsumerApproval, a.moduleId, a.moduleName, AllowedRoles(allowMaintainer), ProductionRuntimeConsumer, [])
  }

  predicate IsProduction(environment: string, environments: seq<string>) {
    var normalized := ToLower(TrimSpace(environment));
    normalized != "" && exists e | e in environments :: ToLower(TrimSpace(e)) == normalized
  }

  /** The runtime inventory reports the module in a production environment. */
  predicate RunsInProduction(moduleName: string, impact: seq<RuntimeImpact>, environments: seq<string>) {
    exists item | item in impact :: item.usedModule == moduleName && IsProduction(item.environment, environments)
  }

  predicate UsedInProduction(a: AffectedModule, input: PolicyInput) {
    a.productionUsed || RunsInProduction(a.moduleName, input.runtimeImpact, ProductionEnvironments(input.config))
  }

  // The requirements, one per key, in order

  datatype Candidate = Candidate(plan: Plan, owners: seq<ModuleOwner>)

  function WarningFor(p: Plan): Warning { Warning(p.requirementType, p.targetModuleId, p.targetModuleName) }

  function Planned(c: Candidate, allowMaintainer: bool): Plan {
    if HasEligible(c.owners, allowMaintainer) then c.plan else c.plan.(warnings := c.plan.warnings + [WarningFor(c.plan)])
  }

  function PlanKeys(plans: seq<Plan>): set<string> { set p | p in plans :: RequirementKey(p) }

  /** The first candidate of each key becomes a requirement. */
  function Planning(candidates: seq<Candidate>, allowMaintainer: bool): seq<Plan> {
    if candidates == [] then []
    else
      var before, last := Planning(candidates[..|candidates| - 1], allowMaintainer), candidates[|candidates| - 1];
      if RequirementKey(last.plan) in PlanKeys(before) then before else before + [Planned(last, allowMaintainer)]
  }

  function ConsumerCandidates(input: PolicyInput, affected: seq<AffectedModule>): seq<Candidate> {
    if affected == [] then []
    else
      var before, last := ConsumerCandidates(input, affected[..|affected| - 1]), affected[|affected| - 1];
      if UsedInProduction(last, input)
      then before + [Candidate(ConsumerPlan(last, input.config.allowMaintainerApproval), last.owners)]
      else before
  }

  function Candidates(input: PolicyInput, affected: seq<AffectedModule>): seq<Candidate> {
    [Candidate(OwnerPlan(input), input.moduleOwners)] + ConsumerCandidates(input, affected)
  }

  function WarningsOf(p: Plan): seq<Warning> { p.warnings }

  lemma EligibleIsThere(owners: seq<ModuleOwner>, i: nat, allowMaintainer: bool)
    requires i < |owners| && Eligible(owners[i], allowMaintainer)
    ensures HasEligible(owners, allowMaintainer)
  {}

  /** The result of a policy evaluation, as it is being filled. */
  class ResultBuilder {
    const allowMaintainer: bool
    var requirements: seq<Plan>
    var reasons: seq<Reason>
    var warnings: seq<Warning>
    var seen: set<string>

    ghost predicate Accounted()
      reads this
    {
      && seen == PlanKeys(requirements)
      && warnings == FlatMap(requirements, WarningsOf)
      && (forall i, j | 0 <= i < j < |reasons| :: reasons[i] != reasons[j])
      && (MissingModuleOwner in reasons <==> warnings != [])
    }

    constructor (allowMaintainer: bool)
      ensures this.allowMaintainer == allowMaintainer && Accounted()
      ensures requirements == [] && reasons == [BreakingChanges, ModuleOwnerRequired]
    {
      this.allowMaintainer := allowMaintainer;
      requirements, warnings, seen := [], [], {};
      reasons := [BreakingChanges, ModuleOwnerRequired];
    }

    /** Appends a reason unless it is there. */
    method AddReason(reason: Reason)
      modifies this`reasons
      ensures reasons == if reason in old(reasons) then old(reasons) else old(reasons) + [reason]
    {
      for i := 0 to |reasons|
        invariant reason !in reasons[..i]
        invariant reasons == old(reasons)
      {
        assert reasons[..i + 1] == reasons[..i] + [reasons[i]];
        if reasons[i] == reason {
          return;
        }
      }
      assert reasons[..|reasons|] == reasons;
      reasons := reasons + [reason];
    }

    method HasEligibleOwner(owners: seq<ModuleOwner>) returns (found: bool)
      ensures found == HasEligible(owners, allowMaintainer)
      ensures found <==> exists o :: o in owners && (o.role == OwnerRole || (allowMaintainer && o.role == MaintainerRole))
    {
      for i := 0 to |owners|
        invariant forall j | 0 <= j < i :: !Eligible(owners[j], allowMaintainer)
      {
        assert owners[i] in owners;
        if Eligible(owners[i], allowMaintainer) {
          EligibleIsThere(owners, i, allowMaintainer);
        }
        if owners[i].role == OwnerRole {
          return true;
        }
        if allowMaintainer && owners[i].role == MaintainerRole {
          return true;
        }
      }
      return false;
    }

    method AddConsumerReasons()
      requires Accounted()
      modifies this`reasons
      ensures Accounted()
      ensures forall r :: r in reasons <==> r in old(reasons) || r == AffectedConsumerRequired || r == ProductionRuntimeConsumer
    {
      hide FlatMap; hide PlanKeys;
      AddReason(AffectedConsumerRequired);
      AddReason(ProductionRuntimeConsumer);
    }

    method AddRequirement(plan: Plan, owners: seq<ModuleOwner>)
      requires Accounted() && plan.warnings == []
      modifies this
      ensures Accounted()
      ensures requirements ==
              if RequirementKey(plan) in PlanKeys(old(requirements)) then old(requirements)
              else old(requirements) + [Planned(Candidate(plan, owners), allowMaintainer)]
      ensures forall r | r != MissingModuleOwner :: r in reasons <==> r in old(reasons)
    {
      hide PlanKeys; hide RequirementKey; hide FlatMap; hide HasEligible;
      var key := RequirementKey(plan);
      if key in seen {
        return;
      }
      seen := seen + {key};
      var requirement := plan;
      ghost var before := warnings;
      var eligible := HasEligibleOwner(owners);
      if !eligible {
        var warning := WarningFor(plan);
        requirement := plan.(warnings := plan.warnings + [warning]);
        warnings := warnings + [warning];
        AddReason(MissingModuleOwner);
      }
      assert warnings == before + requirement.warnings;
      SameKey(Candidate(plan, owners), allowMaintainer);
      PlansSnoc(requirements, requirement);
      requirements := requirements + [requirement];
    }
  }

  lemma PlansSnoc(plans: seq<Plan>, p: Plan)
    ensures PlanKeys(plans + [p]) == PlanKeys(plans) + {RequirementKey(p)}
    ensures FlatMap(plans + [p], WarningsOf) == FlatMap(plans, WarningsOf) + p.warnings
  {
    FlatMapSnoc(plans, p, WarningsOf);
    assert (plans + [p])[|plans|] == p;
    hide RequirementKey;
  }

  method ProductionRuntimeModules(impact: seq<RuntimeImpact>, environments: seq<string>) returns (modules: set<string>)
    ensures forall name: string :: name in modules <==> RunsInProduction(name, impact, environments)
  {
    hide ToLower; hide TrimSpace;
    var production: set<string> := {};
    for i := 0 to |environments|
      invariant production == ProductionNames(environments[..i])
    {
      var trimmed := ToLower(TrimSpace(environments[i]));
      if trimmed != "" {
        production := production + {trimmed};
      }
      assert environments[..i + 1] == environments[..i] + [environments[i]];
    }
    assert environments[..|environments|] == environments;
    modules := {};
    for i := 0 to |impact|
      invariant forall name: string :: name in modules <==> RunsInProduction(name, impact[..i], environments)
    {
      assert impact[..i + 1] == impact[..i] + [impact[i]];
      if ToLower(TrimSpace(impact[i].environment)) !in production {
        continue;
      }
      modules := modules + {impact[i].usedModule};
    }
    assert impact[..|impact|] == impact;
  }

  function ProductionNames(environments: seq<string>): set<string> {
    set e | e in environments && ToLower(TrimSpace(e)) != "" :: ToLower(TrimSpace(e))
  }

  /** What a report requires: nothing unless governance is enabled and the report breaks. */
  function RequiredPlans(input: PolicyInput): seq<Plan> {
    if input.config.enabled && input.report.status == Breaking
    then Planning(Candidates(input, input.affectedModules), input.config.allowMaintainerApproval) else []
  }

  method EvaluatePolicy(input: PolicyInput) returns (result: PolicyResult)
    ensures result.requirements == RequiredPlans(input)
    ensures result.approvalRequired <==> result.requirements != []
    ensures !input.config.enabled ==>
              result == PolicyResult(false, PolicyNotRequired, 0, [], [GovernanceDisabled], [])
    ensures input.config.enabled && input.report.status != Breaking ==>
              result == PolicyResult(false, PolicyNotRequired, 0, [], [NoBreakingChanges], [])
    ensures input.config.enabled && input.report.status == Breaking ==>
              && result.approvalRequired && result.status == PolicyPending
              && result.requirements == Planning(Candidates(input, input.affectedModules), input.config.allowMaintainerApproval)
              && result.requiredApprovals == |result.requirements|
              && result.warnings == FlatMap(result.requirements, WarningsOf)
              && IsReasons(input, result)
  {
    if !input.config.enabled {
      return PolicyResult(false, PolicyNotRequired, 0, [], [GovernanceDisabled], []);
    }
    if input.report.status != Breaking {
      return PolicyResult(false, PolicyNotRequired, 0, [], [NoBreakingChanges], []);
    }
    var builder := BuildRequirements(input);
    RequirementsAreExact(input);
    result := PolicyResult(true, PolicyPending, |builder.requirements|, builder.requirements, builder.reasons, builder.warnings);
  }

  method BuildRequirements(input: PolicyInput) returns (builder: ResultBuilder)
    ensures builder.Accounted()
    ensures builder.requirements == Planning(Candidates(input, input.affectedModules), input.config.allowMaintainerApproval)
    ensures ReasonsSoFar(input, input.affectedModules, builder.reasons)
  {
    hide Planned; hide PlanKeys; hide FlatMap; hide RequirementKey; hide Candidates; hide Planning;
    hide ResultBuilder.Accounted;
    hide RunsInProduction; hide AnyUsed;
    builder := new ResultBuilder(input.config.allowMaintainerApproval);
    builder.AddRequirement(OwnerPlan(input), input.moduleOwners);
    var productionModules := ProductionRuntimeModules(input.runtimeImpact, ProductionEnvironments(input.config));
    OwnerCandidateFirst(input);
    assert [] + [Planned(Candidate(OwnerPlan(input), input.moduleOwners), input.config.allowMaintainerApproval)] ==
           Planning(Candidates(input, []), input.config.allowMaintainerApproval);
    NoneUsed(input);
    for i := 0 to |input.affectedModules|
      invariant builder.Accounted() && builder.allowMaintainer == input.config.allowMaintainerApproval
      invariant fresh(builder)
      invariant builder.requirements ==
                Planning(Candidates(input, input.affectedModules[..i]), input.config.allowMaintainerApproval)
      invariant ReasonsSoFar(input, input.affectedModules[..i], builder.reasons)
    {
      assert input.affectedModules[..i + 1] == input.affectedModules[..i] + [input.affectedModules[i]];
      AddConsumer(builder, input, input.affectedModules[..i], input.affectedModules[i], productionModules);
    }
    assert input.affectedModules[..|input.affectedModules|] == input.affectedModules;
  }

  lemma NoneUsed(input: PolicyInput)
    ensures input.affectedModules[..0] == [] && !AnyUsed(input, [])
    ensures PlanKeys([]) == {}
  {}

  method AddConsumer(builder: ResultBuilder, input: PolicyInput, ghost before: seq<AffectedModule>, affected: AffectedModule,
                     productionModules: set<string>)
    requires builder.Accounted() && builder.allowMaintainer == input.config.allowMaintainerApproval
    requires builder.requirements == Planning(Candidates(input, before), input.config.allowMaintainerApproval)
    requires ReasonsSoFar(input, before, builder.reasons)
    requires forall name: string ::
               name in productionModules <==> RunsInProduction(name, input.runtimeImpact, ProductionEnvironments(input.config))
    modifies builder
    ensures builder.Accounted()
    ensures builder.requirements == Planning(Candidates(input, before + [affected]), input.config.allowMaintainerApproval)
    ensures ReasonsSoFar(input, before + [affected], builder.reasons)
  {
    hide Planned; hide PlanKeys; hide FlatMap; hide RequirementKey; hide Candidates; hide Planning;
    hide ResultBuilder.Accounted;
    hide RunsInProduction;
    var used := affected.productionUsed;
    if !used {
      used := affected.moduleName in productionModules;
    }
    assert used == UsedInProduction(affected, input);
    hide UsedInProduction; hide AnyUsed;
    CandidatesSnoc(input, before, affected);
    AnyUsedSnoc(input, before, affected);
    if !used {
      return;
    }
    builder.AddConsumerReasons();
    builder.AddRequirement(ConsumerPlan(affected, input.config.allowMaintainerApproval), affected.owners);
  }

  predicate AnyUsed(input: PolicyInput, affected: seq<AffectedModule>) {
    exists a | a in affected :: UsedInProduction(a, input)
  }

  predicate ReasonsSoFar(input: PolicyInput, affected: seq<AffectedModule>, reasons: seq<Reason>) {
    && BreakingChanges in reasons && ModuleOwnerRequired in reasons
    && GovernanceDisabled !in reasons && NoBreakingChanges !in reasons
    && (AffectedConsumerRequired in reasons <==> AnyUsed(input, affected))
    && (ProductionRuntimeConsumer in reasons <==> AnyUsed(input, affected))
  }

  lemma AnyUsedSnoc(input: PolicyInput, affected: seq<AffectedModule>, a: AffectedModule)
    ensures AnyUsed(input, affected + [a]) <==> AnyUsed(input, affected) || UsedInProduction(a, input)
  {
    hide UsedInProduction;
    assert (affected + [a])[|affected|] == a;
  }

  /** Each reason at most once, and exactly the reasons that apply. */
  predicate IsReasons(input: PolicyInput, result: PolicyResult) {
    && (forall i, j | 0 <= i < j < |result.reasons| :: result.reasons[i] != result.reasons[j])
    && ReasonsSoFar(input, input.affectedModules, result.reasons)
    && (MissingModuleOwner in result.reasons <==> result.warnings != [])
  }

  lemma OwnerCandidateFirst(input: PolicyInput)
    ensures Planning(Candidates(input, []), input.config.allowMaintainerApproval) ==
            [Planned(Candidate(OwnerPlan(input), input.moduleOwners), input.config.allowMaintainerApproval)]
  {
    var owner := Candidate(OwnerPlan(input), input.moduleOwners);
    assert Candidates(input, []) == [owner];
    assert Planning([], input.config.allowMaintainerApproval) == [];
    assert [owner][..0] == [];
  }

  lemma CandidatesSnoc(input: PolicyInput, affected: seq<AffectedModule>, a: AffectedModule)
    ensures var maintainer := input.config.allowMaintainerApproval;
            var before := Planning(Candidates(input, affected), maintainer);
            var c := Candidate(ConsumerPlan(a, maintainer), a.owners);
            Planning(Candidates(input, affected + [a]), maintainer) ==
            if UsedInProduction(a, input) && RequirementKey(c.plan) !in PlanKeys(before)
            then before + [Planned(c, maintainer)] else before
  {
    hide Planned; hide PlanKeys; hide UsedInProduction; hide RequirementKey;
    var maintainer := input.config.allowMaintainerApproval;
    assert (affected + [a])[..|affected|] == affected;
    if UsedInProduction(a, input) {
      var c := Candidate(ConsumerPlan(a, maintainer), a.owners);
      var all := Candidates(input, affected);
      assert Candidates(input, affected + [a]) == all + [c];
      assert (all + [c])[..|all|] == all;
    }
  }

  // What the requirements are

  function CandidateKeys(candidates: seq<Candidate>): set<string> { set c | c in candidates :: RequirementKey(c.plan) }

  lemma CandidateKeysSnoc(candidates: seq<Candidate>, c: Candidate)
    ensures CandidateKeys(candidates + [c]) == CandidateKeys(candidates) + {RequirementKey(c.plan)}
  {
    hide RequirementKey;
    assert (candidates + [c])[|candidates|] == c;
  }

  lemma {:induction false} PlanningKeys(candidates: seq<Candidate>, allowMaintainer: bool)
    ensures PlanKeys(Planning(candidates, allowMaintainer)) == CandidateKeys(candidates)
    ensures var plans := Planning(candidates, allowMaintainer);
            forall i, j | 0 <= i < j < |plans| :: RequirementKey(plans[i]) != RequirementKey(plans[j])
  {
    hide RequirementKey; hide HasEligible; hide PlanKeys; hide CandidateKeys; hide Planned;
    if candidates == [] {
      NoKeys();
    } else {
      var init, last := candidates[..|candidates| - 1], candidates[|candidates| - 1];
      PlanningKeys(init, allowMaintainer);
      CandidateKeysSnoc(init, last);
      assert candidates == init + [last];
      forall p | p in Planning(init, allowMaintainer)
        ensures RequirementKey(p) in PlanKeys(Planning(init, allowMaintainer))
      {
        KeyIsThere(Planning(init, allowMaintainer), p);
      }
      SameKey(last, allowMaintainer);
      PlansSnoc(Planning(init, allowMaintainer), Planned(last, allowMaintainer));
    }
  }

  lemma NoKeys()
    ensures PlanKeys([]) == {} && CandidateKeys([]) == {}
  {}

  lemma KeyIsThere(plans: seq<Plan>, p: Plan)
    requires p in plans
    ensures RequirementKey(p) in PlanKeys(plans)
  {
    hide RequirementKey;
  }

  lemma SameKey(c: Candidate, allowMaintainer: bool)
    ensures RequirementKey(Planned(c, allowMaintainer)) == RequirementKey(c.plan)
  {}

  function ConsumerKeys(input: PolicyInput, affected: seq<AffectedModule>): set<string> {
    set a | a in affected && UsedInProduction(a, input) ::
      RequirementKey(ConsumerPlan(a, input.config.allowMaintainerApproval))
  }

  lemma ConsumerKeysSnoc(input: PolicyInput, affected: seq<AffectedModule>, a: AffectedModule)
    ensures ConsumerKeys(input, affected + [a]) ==
            ConsumerKeys(input, affected) +
            if UsedInProduction(a, input) then {RequirementKey(ConsumerPlan(a, input.config.allowMaintainerApproval))} else {}
  {
    hide RequirementKey; hide UsedInProduction;
    assert (affected + [a])[|affected|] == a;
  }

  lemma {:induction false} ConsumerCandidateKeys(input: PolicyInput, affected: seq<AffectedModule>)
    ensures CandidateKeys(ConsumerCandidates(input, affected)) == ConsumerKeys(input, affected)
  {
    hide RequirementKey; hide UsedInProduction;
    if affected != [] {
      hide CandidateKeys; hide ConsumerKeys;
      var init, last := affected[..|affected| - 1], affected[|affected| - 1];
      ConsumerCandidateKeys(input, init);
      ConsumerKeysSnoc(input, init, last);
      CandidateKeysSnoc(ConsumerCandidates(input, init),
                        Candidate(ConsumerPlan(last, input.config.allowMaintainerApproval), last.owners));
      assert affected == init + [last];
    }
  }

  /** The requirement keys are pairwise different and are exactly the changed module's owner
      key and one consumer key per affected module used in production. */
  lemma RequirementsAreExact(input: PolicyInput)
    ensures var plans := Planning(Candidates(input, input.affectedModules), input.config.allowMaintainerApproval);
            && PlanKeys(plans) == {RequirementKey(OwnerPlan(input))} + ConsumerKeys(input, input.affectedModules)
            && (forall i, j | 0 <= i < j < |plans| :: RequirementKey(plans[i]) != RequirementKey(plans[j]))
            && |plans| == |PlanKeys(plans)| >= 1
  {
    var maintainer := input.config.allowMaintainerApproval;
    var candidates := Candidates(input, input.affectedModules);
    var plans := Planning(candidates, maintainer);
    PlanningKeys(candidates, maintainer);
    ConsumerCandidateKeys(input, input.affectedModules);
    hide RequirementKey; hide UsedInProduction; hide Planning; hide ConsumerCandidates;
    var owner := Candidate(OwnerPlan(input), input.moduleOwners);
    assert candidates[0] == owner;
    assert CandidateKeys(candidates) == {RequirementKey(owner.plan)} + CandidateKeys(ConsumerCandidates(input, input.affectedModules));
    DistinctKeysCount(plans);
    assert RequirementKey(owner.plan) in PlanKeys(plans);
  }

  lemma {:induction false} DistinctKeysCount(plans: seq<Plan>)
    requires forall i, j | 0 <= i < j < |plans| :: RequirementKey(plans[i]) != RequirementKey(plans[j])
    ensures |PlanKeys(plans)| == |plans|
  {
    hide RequirementKey;
    if plans != [] {
      var init, last := plans[..|plans| - 1], plans[|plans| - 1];
      DistinctKeysCount(init);
      assert plans == init + [last];
      PlansSnoc(init, last);
      assert RequirementKey(last) !in PlanKeys(init);
    }
  }

  /** Candidate k is the first of its key. */
  predicate IsFirst(candidates: seq<Candidate>, k: nat) {
    && k < |candidates|
    && forall j | 0 <= j < k :: RequirementKey(candidates[j].plan) != RequirementKey(candidates[k].plan)
  }

  lemma {:induction false} EveryPlanHasItsCandidate(candidates: seq<Candidate>, allowMaintainer: bool, i: nat) returns (k: nat)
    requires i < |Planning(candidates, allowMaintainer)|
    ensures IsFirst(candidates, k)
    ensures Planning(candidates, allowMaintainer)[i] == Planned(candidates[k], allowMaintainer)
  {
    hide RequirementKey; hide Planned; hide PlanKeys; hide CandidateKeys;
    var init, last := candidates[..|candidates| - 1], candidates[|candidates| - 1];
    if i < |Planning(init, allowMaintainer)| {
      k := EveryPlanHasItsCandidate(init, allowMaintainer, i);
      assert forall j | 0 <= j <= k :: candidates[j] == init[j];
    } else {
      k := |candidates| - 1;
      PlanningKeys(init, allowMaintainer);
      forall j | 0 <= j < k
        ensures RequirementKey(candidates[j].plan) in CandidateKeys(init)
      {
        CandidateKeyIsThere(init, j);
        assert candidates[j] == init[j];
      }
    }
  }

  lemma CandidateKeyIsThere(candidates: seq<Candidate>, j: nat)
    requires j < |candidates|
    ensures RequirementKey(candidates[j].plan) in CandidateKeys(candidates)
  {
    hide RequirementKey;
  }

  /** A requirement carries one warning when the first candidate of its key has no eligible
      owner, and none otherwise; the result's warnings are these. */
  lemma OneWarningPerOwnerlessRequirement(candidates: seq<Candidate>, allowMaintainer: bool, i: nat)
    requires i < |Planning(candidates, allowMaintainer)| && forall c | c in candidates :: c.plan.warnings == []
    ensures exists k: nat ::
              && IsFirst(candidates, k)
              && Planning(candidates, allowMaintainer)[i].warnings ==
                 if HasEligible(candidates[k].owners, allowMaintainer) then [] else [WarningFor(candidates[k].plan)]
  {
    var k := EveryPlanHasItsCandidate(candidates, allowMaintainer, i);
    hide RequirementKey; hide HasEligible; hide Planning;
    assert candidates[k] in candidates;
  }
}
