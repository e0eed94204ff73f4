/** What the policy requires, in terms of the report, the affected modules and the runtime
    items. */
module PolicyTheorems {
  import opened Wrappers
  import opened Text
  import opened Sequences
  import opened Policy

  lemma {:induction false} ConsumerCandidateFrom(input: PolicyInput, affected: seq<AffectedModule>, c: Candidate)
    ensures c in ConsumerCandidates(input, affected) <==>
            exists a :: a in affected && UsedInProduction(a, input)
                        && c == Candidate(ConsumerPlan(a, input.config.allowMaintainerApproval), a.owners)
  {
    hide UsedInProduction;
    if affected != [] {
      var init, last := affected[..|affected| - 1], affected[|affected| - 1];
      ConsumerCandidateFrom(input, init, c);
      assert affected == init + [last];
      assert last in affected;
    }
  }

  /** A requirement comes from the owner plan, or from an affected module used in production,
      and the owners of the changed or of that module decide about its warning. */
  lemma RequirementComesFrom(input: PolicyInput, i: nat) returns (owners: seq<ModuleOwner>, plan: Plan)
    requires i < |RequiredPlans(input)|
    ensures input.config.enabled && input.report.status == Breaking
    ensures RequiredPlans(input)[i] == Planned(Candidate(plan, owners), input.config.allowMaintainerApproval)
    ensures || (plan == OwnerPlan(input) && owners == input.moduleOwners)
            || exists a :: a in input.affectedModules && UsedInProduction(a, input)
                           && plan == ConsumerPlan(a, input.config.allowMaintainerApproval) && owners == a.owners
  {
    hide UsedInProduction; hide Planning; hide Planned; hide ConsumerCandidates; hide HasEligible;
    var candidates := Candidates(input, input.affectedModules);
    var k := EveryPlanHasItsCandidate(candidates, input.config.allowMaintainerApproval, i);
    owners, plan := candidates[k].owners, candidates[k].plan;
    if k > 0 {
      ConsumerCandidateFrom(input, input.affectedModules, candidates[k]);
      assert candidates[k] == ConsumerCandidates(input, input.affectedModules)[k - 1];
    }
  }

  /** Every requirement allows owners, and maintainers exactly when the configuration does. It
      carries a warning about itself exactly when no row of its owners has an allowed role. */
  lemma RequirementRoles(input: PolicyInput, i: nat) returns (owners: seq<ModuleOwner>)
    requires i < |RequiredPlans(input)|
    ensures var p := RequiredPlans(input)[i];
            && OwnerRole in p.allowedRoles
            && (MaintainerRole in p.allowedRoles <==> input.config.allowMaintainerApproval)
            && (p.requirementType == ModuleOwnerApproval ==> owners == input.moduleOwners)
            && (p.requirementType == AffectedConsumerApproval ==>
                  exists a :: a in input.affectedModules && a.owners == owners
                              && a.moduleId == p.targetModuleId && a.moduleName == p.targetModuleName)
            && p.warnings ==
               (if exists o :: o in owners
                               && (o.role == OwnerRole || (input.config.allowMaintainerApproval && o.role == MaintainerRole))
                then [] else [Warning(p.requirementType, p.targetModuleId, p.targetModuleName)])
  {
    hide RequiredPlans; hide UsedInProduction;
    var plan;
    owners, plan := RequirementComesFrom(input, i);
  }

  /** There is an owner requirement exactly when governance is enabled and the report breaks,
      and it is for the report's own module. */
  lemma OwnerRequirementExactly(input: PolicyInput)
    ensures (exists p :: p in RequiredPlans(input) && p.requirementType == ModuleOwnerApproval) <==>
            input.config.enabled && input.report.status == Breaking
    ensures forall p | p in RequiredPlans(input) && p.requirementType == ModuleOwnerApproval ::
              p.targetModuleId == Some(input.report.moduleId) && p.targetModuleName == input.report.moduleName
  {
    hide RequirementKey; hide UsedInProduction; hide Planning; hide PlanKeys; hide ConsumerKeys; hide HasEligible;
    var plans := RequiredPlans(input);
    forall p | p in plans && p.requirementType == ModuleOwnerApproval
      ensures p.targetModuleId == Some(input.report.moduleId) && p.targetModuleName == input.report.moduleName
    {
      var i :| 0 <= i < |plans| && plans[i] == p;
      var owners, plan := RequirementComesFrom(input, i);
    }
    if input.config.enabled && input.report.status == Breaking {
      RequirementsAreExact(input);
      var p := PlanWithKey(plans, RequirementKey(OwnerPlan(input)));
      RequirementKeyIsInjective(p, OwnerPlan(input));
    }
  }

  lemma PlanWithKey(plans: seq<Plan>, key: string) returns (p: Plan)
    requires key in PlanKeys(plans)
    ensures p in plans && RequirementKey(p) == key
  {
    hide RequirementKey;
    p :| p in plans && RequirementKey(p) == key;
  }

  /** There is a consumer requirement for a module, named by its id or else by its name,
      exactly when governance is enabled, the report breaks, and an affected module of that id
      or name is marked as used in production or has a runtime item in one of the production
      environments, texts compared without surrounding space and case. */
  lemma ConsumerRequirementExactly(input: PolicyInput, target: string)
    ensures (exists p :: && p in RequiredPlans(input) && p.requirementType == AffectedConsumerApproval
                         && (if p.targetModuleId.Some? && p.targetModuleId.value != "" then p.targetModuleId.value
                             else p.targetModuleName) == target) <==>
            && input.config.enabled && input.report.status == Breaking
            && exists a :: && a in input.affectedModules
                           && (if a.moduleId.Some? && a.moduleId.value != "" then a.moduleId.value else a.moduleName) == target
                           && (a.productionUsed || exists item :: item in input.runtimeImpact && item.usedModule == a.moduleName
                                                                  && Production(item.environment, input.config))
  {
    hide RequirementKey; hide UsedInProduction; hide Planning; hide PlanKeys; hide HasEligible; hide Production;
    var plans := RequiredPlans(input);
    if p :| p in plans && p.requirementType == AffectedConsumerApproval && Target(p.targetModuleId, p.targetModuleName) == target {
      var i :| 0 <= i < |plans| && plans[i] == p;
      var owners, plan := RequirementComesFrom(input, i);
      var a :| a in input.affectedModules && UsedInProduction(a, input)
               && plan == ConsumerPlan(a, input.config.allowMaintainerApproval) && owners == a.owners;
      UsedMeans(a, input);
    }
    if input.config.enabled && input.report.status == Breaking {
      forall a | a in input.affectedModules
        ensures UsedInProduction(a, input) <==>
                a.productionUsed || exists item :: item in input.runtimeImpact && item.usedModule == a.moduleName
                                                   && Production(item.environment, input.config)
      {
        UsedMeans(a, input);
      }
      if a :| a in input.affectedModules && UsedInProduction(a, input) && Target(a.moduleId, a.moduleName) == target {
        RequirementsAreExact(input);
        var wanted := ConsumerPlan(a, input.config.allowMaintainerApproval);
        var p := PlanWithKey(plans, RequirementKey(wanted));
        RequirementKeyIsInjective(p, wanted);
      }
    }
  }

  /** The environment is one of the configured ones, or of production and prod when none is
      configured. */
  predicate Production(environment: string, config: PolicyConfig) {
    && ToLower(TrimSpace(environment)) != ""
    && exists e :: && e in (if config.productionEnvironments == [] then ["production", "prod"] else config.productionEnvironments)
                   && ToLower(TrimSpace(e)) == ToLower(TrimSpace(environment))
  }

  lemma UsedMeans(a: AffectedModule, input: PolicyInput)
    ensures UsedInProduction(a, input) <==>
            a.productionUsed || exists item :: item in input.runtimeImpact && item.usedModule == a.moduleName
                                               && Production(item.environment, input.config)
  {
    hide ToLower; hide TrimSpace;
    forall item: RuntimeImpact
      ensures IsProduction(item.environment, ProductionEnvironments(input.config)) == Production(item.environment, input.config)
    {}
  }
}
