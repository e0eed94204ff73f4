/** The approval tables over all runs of request creations, decisions and owner changes. */
module ApprovalStore {
  import opened Wrappers
  import opened Text
  import opened Sequences
  import opened Policy
  import opened Approvals

  datatype Store = Store(requests: seq<Request>, audit: seq<Event>, owners: seq<ModuleOwner>)

  const EMPTY_STORE := Store([], [], [])

  const MAX_COMMENT_LENGTH := 2000

  // Queries

  function FindByReport(requests: seq<Request>, reportId: string): Option<nat> {
    if requests == [] then None
    else
      var before := FindByReport(requests[..|requests| - 1], reportId);
      if before.Some? then before
      else if requests[|requests| - 1].reportId == reportId then Some(|requests| - 1) else None
  }

  function FindByRequirement(requests: seq<Request>, requirementId: string): Option<nat> {
    if requests == [] then None
    else
      var before := FindByRequirement(requests[..|requests| - 1], requirementId);
      if before.Some? then before
      else if HasRequirement(requests[|requests| - 1].requirements, requirementId) then Some(|requests| - 1) else None
  }

  lemma {:induction false} FoundByReport(requests: seq<Request>, reportId: string)
    ensures var i := FindByReport(requests, reportId);
            if i.Some? then i.value < |requests| && requests[i.value].reportId == reportId
            else forall j | 0 <= j < |requests| :: requests[j].reportId != reportId
  {
    if requests != [] {
      var init := requests[..|requests| - 1];
      FoundByReport(init, reportId);
      assert forall j | 0 <= j < |init| :: init[j] == requests[j];
    }
  }

  lemma {:induction false} FoundByRequirement(requests: seq<Request>, requirementId: string)
    ensures var i := FindByRequirement(requests, requirementId);
            if i.Some? then i.value < |requests| && HasRequirement(requests[i.value].requirements, requirementId)
            else forall j | 0 <= j < |requests| :: !HasRequirement(requests[j].requirements, requirementId)
  {
    if requests != [] {
      var init := requests[..|requests| - 1];
      FoundByRequirement(init, requirementId);
      assert forall j | 0 <= j < |init| :: init[j] == requests[j];
    }
  }

  function IndexOf(requirements: seq<Requirement>, id: string): (k: nat)
    requires HasRequirement(requirements, id)
    ensures k < |requirements| && requirements[k].id == id
    ensures forall j | 0 <= j < k :: requirements[j].id != id
  {
    if requirements[0].id == id then 0
    else
      assert HasRequirement(requirements[1..], id) by {
        var r :| r in requirements && r.id == id;
        assert r in requirements[1..];
      }
      1 + IndexOf(requirements[1..], id)
  }

  function OwnedModule(moduleId: string): ModuleOwner -> bool { (o: ModuleOwner) => o.moduleId == moduleId }

  function OwnersOf(owners: seq<ModuleOwner>, moduleId: string): seq<ModuleOwner> {
    Filter(owners, OwnedModule(moduleId))
  }

  predicate HasRole(owners: seq<ModuleOwner>, moduleId: string, subjectType: SubjectType, subject: string, allowMaintainer: bool) {
    exists o | o in owners ::
      o.moduleId == moduleId && o.subjectType == subjectType && o.subject == subject && Eligible(o, allowMaintainer)
  }

  /** The actor may decide: as a user or as a team, it holds an allowed role on the target. */
  predicate CanDecide(owners: seq<ModuleOwner>, r: Requirement, actor: string, allowMaintainer: bool) {
    && r.targetModuleId.Some? && r.targetModuleId.value != ""
    && (|| HasRole(owners, r.targetModuleId.value, User, actor, allowMaintainer)
        || HasRole(owners, r.targetModuleId.value, Team, actor, allowMaintainer))
  }

  // Creation

  /** What the lookups found for a report: affected modules with their id when registered. */
  datatype Affected = Affected(moduleId: Option<string>, moduleName: string)

  function WithOwners(owners: seq<ModuleOwner>): Affected -> AffectedModule {
    (a: Affected) =>
      AffectedModule(a.moduleId, a.moduleName, if a.moduleId.Some? then OwnersOf(owners, a.moduleId.value) else [], false)
  }

  function InputFor(owners: seq<ModuleOwner>, report: Report, affected: seq<Affected>, impact: seq<RuntimeImpact>,
                    config: PolicyConfig): PolicyInput
  {
    PolicyInput(report, OwnersOf(owners, report.moduleId), Map(affected, WithOwners(owners)), impact, config)
  }

  function BuiltRequirements(plans: seq<Plan>, ids: seq<string>): (r: seq<Requirement>)
    requires |ids| == |plans|
    ensures |r| == |plans|
    ensures forall i | 0 <= i < |plans| ::
              r[i] == Requirement(ids[i], plans[i].requirementType, plans[i].targetModuleId, plans[i].targetModuleName, Undecided)
  {
    if plans == [] then []
    else
      var n := |plans| - 1;
      BuiltRequirements(plans[..n], ids[..n]) +
      [Requirement(ids[n], plans[n].requirementType, plans[n].targetModuleId, plans[n].targetModuleName, Undecided)]
  }

  function BuiltRequest(report: Report, plans: seq<Plan>, requestId: string, ids: seq<string>): Request
    requires |ids| == |plans|
  {
    Request(requestId, report.moduleId, report.id, if plans != [] then Pending else NotRequired, |plans|, 0,
            BuiltRequirements(plans, ids), [])
  }

  // Actions

  datatype Action =
    | Create(report: Report, affected: seq<Affected>, impact: seq<RuntimeImpact>, requestId: string, requirementIds: seq<string>)
    | Decide(decision: Decision)
    | ChangeOwners(owners: seq<ModuleOwner>)

  /** A generated id, as the key columns take them: neither empty nor padded. */
  predicate ProperId(id: string) {
    Trimmed(id) && id != ""
  }

  predicate FreshIds(requests: seq<Request>, requestId: string, ids: seq<string>) {
    && ProperId(requestId)
    && (forall i | 0 <= i < |ids| :: ProperId(ids[i]))
    && (forall i, j | 0 <= i < j < |ids| :: ids[i] != ids[j])
    && (forall i | 0 <= i < |requests| :: requests[i].id != requestId)
    && (forall i, k | 0 <= i < |requests| && 0 <= k < |ids| :: !HasRequirement(requests[i].requirements, ids[k]))
  }

  predicate CreateEnabled(s: Store, config: PolicyConfig, a: Action)
    requires a.Create?
  {
    && FindByReport(s.requests, a.report.id).None?
    && |a.requirementIds| == |RequiredPlans(InputFor(s.owners, a.report, a.affected, a.impact, config))|
    && FreshIds(s.requests, a.requestId, a.requirementIds)
  }

  predicate DecideEnabled(s: Store, config: PolicyConfig, d: Decision) {
    var i := FindByRequirement(s.requests, d.requirementId);
    && i.Some?
    && i.value < |s.requests|
    && HasRequirement(s.requests[i.value].requirements, d.requirementId)
    && Trimmed(d.decidedBy) && d.decidedBy != "" && |d.comment| <= MAX_COMMENT_LENGTH
    && var k := IndexOf(s.requests[i.value].requirements, d.requirementId);
       && CanBeDecided(s.requests[i.value], k)
       && CanDecide(s.owners, s.requests[i.value].requirements[k], d.decidedBy, config.allowMaintainerApproval)
  }

  /** AddModuleOwner stores trimmed, non-empty subjects. */
  predicate OwnersValid(owners: seq<ModuleOwner>) {
    forall o | o in owners :: Trimmed(o.subject) && o.subject != ""
  }

  predicate Enabled(s: Store, config: PolicyConfig, a: Action) {
    match a
    case Create(_, _, _, _, _) => CreateEnabled(s, config, a)
    case Decide(d) => DecideEnabled(s, config, d)
    case ChangeOwners(owners) => OwnersValid(owners)
  }

  function Created(s: Store, config: PolicyConfig, a: Action): Request
    requires a.Create? && CreateEnabled(s, config, a)
  {
    BuiltRequest(a.report, RequiredPlans(InputFor(s.owners, a.report, a.affected, a.impact, config)), a.requestId, a.requirementIds)
  }

  function CreationEvent(r: Request): Event {
    RequestCreated(r.id, |r.requirements|, r.requirements != [])
  }

  function Apply(s: Store, config: PolicyConfig, a: Action): Store
    requires Enabled(s, config, a)
  {
    match a
    case Create(_, _, _, _, _) =>
      var request := Created(s, config, a);
      s.(requests := s.requests + [request], audit := s.audit + [CreationEvent(request)])
    case Decide(d) =>
      var i := FindByRequirement(s.requests, d.requirementId).value;
      s.(requests := s.requests[i := Decided(s.requests[i], d)],
         audit := s.audit + DecisionEvents(s.requests[i], d))
    case ChangeOwners(owners) => s.(owners := owners)
  }

  /** A run of the service is a sequence of enabled actions; a call that fails is none. */
  predicate IsRun(s: Store, config: PolicyConfig, actions: seq<Action>, t: Store)
    decreases |actions|
  {
    if actions == [] then t == s
    else Enabled(s, config, actions[0]) && IsRun(Apply(s, config, actions[0]), config, actions[1..], t)
  }

  // The invariant

  function OfRequest(requestId: string): Event -> bool { (e: Event) => e.requestId == requestId }

  function Trail(audit: seq<Event>, requestId: string): seq<Event> { Filter(audit, OfRequest(requestId)) }

  predicate Listed(requests: seq<Request>, requestId: string) {
    exists i | 0 <= i < |requests| :: requests[i].id == requestId
  }

  predicate Disjoint(a: seq<Requirement>, b: seq<Requirement>) {
    forall r | r in a :: !HasRequirement(b, r.id)
  }

  predicate RequestsDistinct(requests: seq<Request>) {
    forall i, j | 0 <= i < j < |requests| ::
      && requests[i].id != requests[j].id
      && requests[i].reportId != requests[j].reportId
      && Disjoint(requests[i].requirements, requests[j].requirements)
  }

  predicate IdsProper(request: Request) {
    ProperId(request.id) && forall k | 0 <= k < |request.requirements| :: ProperId(request.requirements[k].id)
  }

  predicate StoreValid(s: Store) {
    && RequestsDistinct(s.requests)
    && (forall i | 0 <= i < |s.requests| :: IdsProper(s.requests[i]))
    && (forall i | 0 <= i < |s.requests| :: RequestValid(s.requests[i]))
    && (forall i | 0 <= i < |s.requests| :: TrailValid(s.requests[i], Trail(s.audit, s.requests[i].id)))
    && (forall e | e in s.audit :: Listed(s.requests, e.requestId))
    && OwnersValid(s.owners)
  }

  lemma TrailAppend(audit: seq<Event>, more: seq<Event>, requestId: string, from: string)
    requires forall e | e in more :: e.requestId == from
    ensures Trail(audit + more, requestId) == if requestId == from then Trail(audit, requestId) + more else Trail(audit, requestId)
  {
    FilterConcat(audit, more, OfRequest(requestId));
    if requestId == from { FilterAll(more, OfRequest(requestId)); } else { FilterNone(more, OfRequest(requestId)); }
    hide Filter;
  }

  lemma {:induction false} NoneCounted(requirements: seq<Requirement>)
    requires AllAre(requirements, Undecided)
    ensures CountStatus(requirements, Granted) == CountStatus(requirements, Refused) == 0
    ensures Fresh(requirements) == requirements
  {
    CountIsAll(requirements, Granted);
    CountIsAll(requirements, Refused);
    hide CountStatus;
  }

  lemma BuiltRequestValid(report: Report, plans: seq<Plan>, requestId: string, ids: seq<string>)
    requires |ids| == |plans| && forall i, j | 0 <= i < j < |ids| :: ids[i] != ids[j]
    ensures var request := BuiltRequest(report, plans, requestId, ids);
            RequestValid(request) && TrailValid(request, [CreationEvent(request)])
  {
    hide BuiltRequirements; hide CountStatus; hide Fresh;
    var request := BuiltRequest(report, plans, requestId, ids);
    var requirements := request.requirements;
    assert AllAre(requirements, Undecided);
    NoneCounted(requirements);
    ReplaySnoc(requirements, [], CreationEvent(request));
    assert [] + [CreationEvent(request)] == [CreationEvent(request)];
    assert Replay(requirements, []) == requirements;
  }

  lemma EmptyStoreValid()
    ensures StoreValid(EMPTY_STORE)
  {}

  lemma CreateKeepsDistinct(requests: seq<Request>, request: Request, ids: seq<string>)
    requires RequestsDistinct(requests) && FreshIds(requests, request.id, ids) && |request.requirements| == |ids|
    requires forall i | 0 <= i < |requests| :: requests[i].reportId != request.reportId
    requires forall i | 0 <= i < |ids| :: request.requirements[i].id == ids[i]
    ensures RequestsDistinct(requests + [request])
  {
    hide Disjoint; hide HasRequirement;
    forall i | 0 <= i < |requests|
      ensures Disjoint(requests[i].requirements, request.requirements)
    {
      NewIdsDisjoint(requests[i].requirements, request.requirements, ids);
    }
  }

  lemma CreateKeepsValid(s: Store, config: PolicyConfig, a: Action)
    requires StoreValid(s) && a.Create? && CreateEnabled(s, config, a)
    ensures StoreValid(Apply(s, config, a))
  {
    hide RequestValid; hide TrailValid; hide RequiredPlans; hide Trail; hide BuiltRequirements; hide OwnersValid;
    hide RequestsDistinct; hide HasRequirement;
    var request := Created(s, config, a);
    var t := Apply(s, config, a);
    BuiltRequestValid(a.report, RequiredPlans(InputFor(s.owners, a.report, a.affected, a.impact, config)), a.requestId, a.requirementIds);
    FoundByReport(s.requests, a.report.id);
    CreateKeepsDistinct(s.requests, request, a.requirementIds);
    FreshTrail(s, a.requestId);
    TrailAppend(s.audit, [CreationEvent(request)], a.requestId, a.requestId);
    assert [] + [CreationEvent(request)] == [CreationEvent(request)];
    forall i | 0 <= i < |s.requests|
      ensures Trail(t.audit, s.requests[i].id) == Trail(s.audit, s.requests[i].id)
    {
      TrailAppend(s.audit, [CreationEvent(request)], s.requests[i].id, a.requestId);
    }
    ListedGrows(s.requests, t.requests);
    assert t.requests[|s.requests|].id == a.requestId;
  }

  lemma NewIdsDisjoint(known: seq<Requirement>, added: seq<Requirement>, ids: seq<string>)
    requires |added| == |ids| && forall i | 0 <= i < |ids| :: added[i].id == ids[i] && !HasRequirement(known, ids[i])
    ensures Disjoint(known, added)
  {
    forall r | r in known
      ensures !HasRequirement(added, r.id)
    {
      if HasRequirement(added, r.id) {
        var q :| q in added && q.id == r.id;
        var i :| 0 <= i < |added| && added[i] == q;
        assert HasRequirement(known, ids[i]);
      }
    }
  }

  lemma FreshTrail(s: Store, requestId: string)
    requires forall e | e in s.audit :: Listed(s.requests, e.requestId)
    requires forall i | 0 <= i < |s.requests| :: s.requests[i].id != requestId
    ensures Trail(s.audit, requestId) == []
  {
    FilterNone(s.audit, OfRequest(requestId));
  }

  lemma ListedGrows(before: seq<Request>, after: seq<Request>)
    requires |before| <= |after| && forall i | 0 <= i < |before| :: after[i].id == before[i].id
    ensures forall id: string :: Listed(before, id) ==> Listed(after, id)
  {
    forall id: string | Listed(before, id)
      ensures Listed(after, id)
    {
      var i :| 0 <= i < |before| && before[i].id == id;
      assert after[i].id == id;
    }
  }

  lemma DisjointAfter(a: seq<Requirement>, b: seq<Requirement>, a': seq<Requirement>, b': seq<Requirement>)
    requires Disjoint(a, b) && |a'| == |a| && |b'| == |b|
    requires (forall i | 0 <= i < |a| :: a'[i].id == a[i].id) && (forall i | 0 <= i < |b| :: b'[i].id == b[i].id)
    ensures Disjoint(a', b')
  {
    RequirementsStay(b', b);
    forall r | r in a'
      ensures !HasRequirement(b', r.id)
    {
      var i :| 0 <= i < |a'| && a'[i] == r;
      assert a[i] in a;
    }
  }

  lemma DecideKeepsDistinct(requests: seq<Request>, i: nat, d: Decision)
    requires RequestsDistinct(requests) && i < |requests|
    ensures RequestsDistinct(requests[i := Decided(requests[i], d)])
  {
    var after := requests[i := Decided(requests[i], d)];
    MapStatusAt(requests[i].requirements, d.requirementId, Deciding(d.value));
    hide SetStatus; hide CountStatus; hide Disjoint; hide StatusAfter;
    forall j, k | 0 <= j < k < |after|
      ensures Disjoint(after[j].requirements, after[k].requirements)
    {
      DisjointAfter(requests[j].requirements, requests[k].requirements, after[j].requirements, after[k].requirements);
    }
  }

  lemma DecideKeepsIds(request: Request, d: Decision)
    requires IdsProper(request)
    ensures IdsProper(Decided(request, d))
  {
    MapStatusAt(request.requirements, d.requirementId, Deciding(d.value));
    hide SetStatus; hide CountStatus; hide StatusAfter; hide ProperId;
  }

  lemma DecideKeepsValid(s: Store, config: PolicyConfig, d: Decision)
    requires StoreValid(s) && DecideEnabled(s, config, d)
    ensures StoreValid(Apply(s, config, Decide(d)))
  {
    hide RequestValid; hide TrailValid; hide Trail; hide OwnersValid; hide RequestsDistinct; hide DecisionEvents;
    hide CanDecide; hide HasRequirement; hide StatusAfter; hide SetStatus; hide IdsProper;
    var i := FindByRequirement(s.requests, d.requirementId).value;
    var request := s.requests[i];
    var k := IndexOf(request.requirements, d.requirementId);
    var t := Apply(s, config, Decide(d));
    DecisionKeepsRequestValid(request, k, d);
    DecisionKeepsTrailValid(request, Trail(s.audit, request.id), k, d);
    DecideKeepsDistinct(s.requests, i, d);
    DecideKeepsIds(request, d);
    EventsOfRequest(request, d);
    DistinctRequestIds(s.requests);
    forall j | 0 <= j < |s.requests|
      ensures TrailValid(t.requests[j], Trail(t.audit, t.requests[j].id))
    {
      TrailAppend(s.audit, DecisionEvents(request, d), s.requests[j].id, request.id);
    }
    ListedGrows(s.requests, t.requests);
    assert t.requests[i].id == request.id;
  }

  lemma DistinctRequestIds(requests: seq<Request>)
    requires RequestsDistinct(requests)
    ensures forall i, j | 0 <= i < |requests| && 0 <= j < |requests| && i != j :: requests[i].id != requests[j].id
  {
    hide Disjoint;
    forall i, j | 0 <= i < |requests| && 0 <= j < |requests| && i != j
      ensures requests[i].id != requests[j].id
    {
      if i < j { assert requests[i].id != requests[j].id; } else { assert requests[j].id != requests[i].id; }
    }
  }

  lemma EventsOfRequest(request: Request, d: Decision)
    ensures forall e | e in DecisionEvents(request, d) :: e.requestId == request.id
  {}

  lemma {:induction false} StepKeepsStoreValid(s: Store, config: PolicyConfig, a: Action)
    requires StoreValid(s) && Enabled(s, config, a)
    ensures StoreValid(Apply(s, config, a))
  {
    match a
    case Create(_, _, _, _, _) => CreateKeepsValid(s, config, a);
    case Decide(d) => DecideKeepsValid(s, config, d);
    case ChangeOwners(owners) =>
  }

  /** In every reachable state every request's status, counters, decisions and audit trail
      agree. */
  lemma {:induction false} EveryRunKeepsStoreValid(s: Store, config: PolicyConfig, actions: seq<Action>, t: Store)
    requires StoreValid(s) && IsRun(s, config, actions, t)
    ensures StoreValid(t)
    decreases |actions|
  {
    hide StoreValid; hide Enabled; hide Apply;
    if actions != [] {
      StepKeepsStoreValid(s, config, actions[0]);
      EveryRunKeepsStoreValid(Apply(s, config, actions[0]), config, actions[1..], t);
    }
  }
}
