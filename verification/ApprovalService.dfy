/** The approval service: each call either applies one action of the store or changes
    nothing, whichever statement fails. */
module ApprovalService {
  import opened Wrappers
  import opened Text
  import opened Sequences
  import opened Policy
  import opened Approvals
  import opened ApprovalStore

  datatype Error =
    | InvalidReportId
    | InvalidRequirementId
    | InvalidActor
    | CommentTooLong
    | ReportNotFound
    | RequirementNotFound
    | RequestNotFound
    | RequirementConflict
    | RequestConflict
    | ActorForbidden
    | Unavailable

  datatype DecisionInput = DecisionInput(requestId: string, requirementId: string, actor: string, comment: string)

  /** Which statements of a decision fail. */
  datatype DecisionFaults = DecisionFaults(
    read: bool,
    lookup: SubjectType -> bool,
    newId: bool,
    addDecision: bool,
    updateRequirement: bool,
    updateRequest: bool,
    decisionAudit: bool,
    statusAudit: bool,
    outbox: bool,
    commit: CallOutcome,
    readBack: bool)

  predicate StatementFails(f: DecisionFaults, statusChanged: bool) {
    || f.newId || f.addDecision || f.updateRequirement || f.updateRequest || f.decisionAudit
    || (statusChanged && f.statusAudit) || f.outbox
  }

  function TransactionEnd(f: DecisionFaults, statusChanged: bool): CallOutcome {
    if StatementFails(f, statusChanged) then NotDone else f.commit
  }

  predicate MayDecide(owners: seq<ModuleOwner>, r: Requirement, actor: string, allowMaintainer: bool, lookup: SubjectType -> bool) {
    && r.targetModuleId.Some? && r.targetModuleId.value != ""
    && (|| (!lookup(User) && HasRole(owners, r.targetModuleId.value, User, actor, allowMaintainer))
        || (!lookup(Team) && HasRole(owners, r.targetModuleId.value, Team, actor, allowMaintainer)))
  }

  predicate HasDecision(decisions: seq<Decision>, requirementId: string) {
    exists d | d in decisions :: d.requirementId == requirementId
  }

  /** Why a decision is refused before its transaction, in the order of the checks. */
  function Refusal(s: Store, config: PolicyConfig, input: DecisionInput, f: DecisionFaults): Option<Error> {
    var requirementId, actor := TrimSpace(input.requirementId), TrimSpace(input.actor);
    var expected := TrimSpace(input.requestId);
    var i := FindByRequirement(s.requests, requirementId);
    if requirementId == "" then Some(InvalidRequirementId)
    else if actor == "" then Some(InvalidActor)
    else if |input.comment| > MAX_COMMENT_LENGTH then Some(CommentTooLong)
    else if f.read then Some(Unavailable)
    else if i.None? then Some(RequirementNotFound)
    else
      FoundByRequirement(s.requests, requirementId);
      var request := s.requests[i.value];
      var requirement := request.requirements[IndexOf(request.requirements, requirementId)];
      if expected != "" && request.id != expected then Some(RequestNotFound)
      else if HasDecision(request.decisions, requirementId) then Some(RequirementConflict)
      else if request.status != Pending then Some(RequestConflict)
      else if requirement.status != Undecided then Some(RequirementConflict)
      else if !MayDecide(s.owners, requirement, actor, config.allowMaintainerApproval, f.lookup) then Some(ActorForbidden)
      else None
  }

  lemma AcceptedIsEnabled(s: Store, config: PolicyConfig, input: DecisionInput, f: DecisionFaults, d: Decision)
    requires Refusal(s, config, input, f).None?
    requires d.requirementId == TrimSpace(input.requirementId) && d.decidedBy == TrimSpace(input.actor) && d.comment == input.comment
    ensures DecideEnabled(s, config, d)
  {
    hide TrimSpace;
    FoundByRequirement(s.requests, d.requirementId);
    TrimSpaceTrims(input.actor);
  }

  /** Some owner row of the requirement's target module names the caller, as an owner, or as a
      maintainer where the configuration counts those. */
  predicate PermittedBy(s: Store, config: PolicyConfig, input: DecisionInput) {
    exists o :: && o in s.owners && o.subject == TrimSpace(input.actor)
                && (o.role == OwnerRole || (config.allowMaintainerApproval && o.role == MaintainerRole))
                && Targets(s.requests, TrimSpace(input.requirementId), o.moduleId)
  }

  predicate Targets(requests: seq<Request>, requirementId: string, moduleId: string) {
    exists q, r :: q in requests && r in q.requirements && r.id == requirementId && r.targetModuleId == Some(moduleId)
  }

  lemma AcceptedIsPermitted(s: Store, config: PolicyConfig, input: DecisionInput, f: DecisionFaults)
    requires Refusal(s, config, input, f).None?
    ensures PermittedBy(s, config, input)
  {
    hide TrimSpace; hide HasDecision;
    var id, actor := TrimSpace(input.requirementId), TrimSpace(input.actor);
    FoundByRequirement(s.requests, id);
    var request := s.requests[FindByRequirement(s.requests, id).value];
    var r := request.requirements[IndexOf(request.requirements, id)];
    var target := r.targetModuleId.value;
    assert request in s.requests && r in request.requirements;
    assert Targets(s.requests, id, target);
    var t := if HasRole(s.owners, target, User, actor, config.allowMaintainerApproval) then User else Team;
    var o :| o in s.owners && o.moduleId == target && o.subjectType == t && o.subject == actor
             && Eligible(o, config.allowMaintainerApproval);
  }

  lemma NoDecisionYet(r: Requirement, decisions: seq<Decision>)
    requires DecidedOnce(r, decisions) && r.status == Undecided
    ensures !HasDecision(decisions, r.id)
  {
    FilterMembers(decisions, About(r.id));
    hide Filter;
    assert forall d | d in decisions :: About(r.id)(d) ==> d in Filter(decisions, About(r.id));
  }

  /** When nothing fails, the service takes a decision exactly when the store's step is
      enabled and the request named by the caller, if any, is the requirement's. */
  lemma AcceptedExactly(s: Store, config: PolicyConfig, input: DecisionInput, f: DecisionFaults, d: Decision)
    requires StoreValid(s) && !f.read && !f.lookup(User) && !f.lookup(Team)
    requires d.requirementId == TrimSpace(input.requirementId) && d.decidedBy == TrimSpace(input.actor) && d.comment == input.comment
    ensures Refusal(s, config, input, f).None? <==>
            && DecideEnabled(s, config, d)
            && (TrimSpace(input.requestId) == "" ||
                TrimSpace(input.requestId) == s.requests[FindByRequirement(s.requests, d.requirementId).value].id)
  {
    hide TrimSpace; hide Trimmed; hide TrailValid; hide RequestsDistinct; hide CountStatus; hide StatusOf; hide OwnersValid;
    hide DecidedOnce; hide HasDecision; hide HasRole;
    if Refusal(s, config, input, f).None? {
      AcceptedIsEnabled(s, config, input, f, d);
    } else if DecideEnabled(s, config, d) {
      var request := s.requests[FindByRequirement(s.requests, d.requirementId).value];
      var k := IndexOf(request.requirements, d.requirementId);
      assert RequestValid(request) && IdsProper(request);
      assert request.requirements[k] in request.requirements;
      NoDecisionYet(request.requirements[k], request.decisions);
    }
  }

  /** The ids a generator issues, one after another. */
  function NewIds(count: nat, newId: nat -> string): (ids: seq<string>)
    ensures |ids| == count
    ensures forall i | 0 <= i < count :: ids[i] == newId(i)
  {
    if count == 0 then [] else NewIds(count - 1, newId) + [newId(count - 1)]
  }

  class Service {
    const config: PolicyConfig
    var store: Store

    constructor (config: PolicyConfig)
      ensures this.config == config && store == EMPTY_STORE && StoreValid(store)
    {
      this.config := config;
      store := EMPTY_STORE;
    }

    // Statements on the approval tables; each fails or takes effect

    method AddDecision(i: nat, d: Decision, fault: bool) returns (ok: bool)
      requires i < |store.requests|
      modifies this
      ensures ok == !(fault || HasDecision(old(store).requests[i].decisions, d.requirementId))
      ensures !ok ==> store == old(store)
      ensures ok ==> var r := old(store).requests[i];
                     store == old(store).(requests := old(store).requests[i := r.(decisions := r.decisions + [d])])
    {
      var r := store.requests[i];
      if fault || exists d' | d' in r.decisions :: d'.requirementId == d.requirementId {
        return false;
      }
      store := store.(requests := store.requests[i := r.(decisions := r.decisions + [d])]);
      return true;
    }

    method UpdateRequirementStatus(i: nat, requirementId: string, status: RequirementStatus, fault: bool) returns (ok: bool)
      requires i < |store.requests|
      modifies this
      ensures ok == !(fault || !HasRequirement(old(store).requests[i].requirements, requirementId))
      ensures !ok ==> store == old(store)
      ensures ok ==> var r := old(store).requests[i];
                     store == old(store).(requests := old(store).requests[
                       i := r.(requirements := SetStatus(r.requirements, requirementId, status))])
    {
      var r := store.requests[i];
      if fault || !exists q | q in r.requirements :: q.id == requirementId {
        return false;
      }
      store := store.(requests := store.requests[i := r.(requirements := SetStatus(r.requirements, requirementId, status))]);
      return true;
    }

    method UpdateRequestStatus(i: nat, status: RequestStatus, required: nat, received: nat, fault: bool) returns (ok: bool)
      requires i < |store.requests|
      modifies this
      ensures ok == !fault
      ensures !ok ==> store == old(store)
      ensures ok ==> var r := old(store).requests[i];
                     store == old(store).(requests := old(store).requests[
                       i := r.(status := status, requiredApprovals := required, receivedApprovals := received)])
    {
      if fault {
        return false;
      }
      var r := store.requests[i];
      store := store.(requests := store.requests[
                        i := r.(status := status, requiredApprovals := required, receivedApprovals := received)]);
      return true;
    }

    method AppendAudit(e: Event, fault: bool) returns (ok: bool)
      modifies this
      ensures ok == !fault
      ensures store == if ok then old(store).(audit := old(store).audit + [e]) else old(store)
    {
      if fault {
        return false;
      }
      store := store.(audit := store.audit + [e]);
      return true;
    }

    // Checks and counts

    method HasOwnerRole(moduleId: string, subjectType: SubjectType, subject: string) returns (found: bool)
      ensures found == HasRole(store.owners, moduleId, subjectType, subject, config.allowMaintainerApproval)
      ensures found <==>
              exists o :: && o in store.owners && o.moduleId == moduleId && o.subjectType == subjectType && o.subject == subject
                          && (o.role == OwnerRole || (config.allowMaintainerApproval && o.role == MaintainerRole))
    {
      for n := 0 to |store.owners|
        invariant forall m | 0 <= m < n ::
                    !(&& store.owners[m].moduleId == moduleId && store.owners[m].subjectType == subjectType
                      && store.owners[m].subject == subject && Eligible(store.owners[m], config.allowMaintainerApproval))
      {
        var o := store.owners[n];
        assert o in store.owners;
        if o.moduleId == moduleId && o.subjectType == subjectType && o.subject == subject {
          if o.role in AllowedRoles(config.allowMaintainerApproval) {
            return true;
          }
        }
      }
      return false;
    }

    method ActorCanDecide(r: Requirement, actor: string, lookup: SubjectType -> bool) returns (can: bool)
      ensures can == MayDecide(store.owners, r, actor, config.allowMaintainerApproval, lookup)
    {
      if r.targetModuleId.None? || r.targetModuleId.value == "" {
        return false;
      }
      var subjectTypes := [User, Team];
      for n := 0 to |subjectTypes|
        invariant forall m | 0 <= m < n ::
                    lookup(subjectTypes[m]) ||
                    !HasRole(store.owners, r.targetModuleId.value, subjectTypes[m], actor, config.allowMaintainerApproval)
      {
        if !lookup(subjectTypes[n]) {
          var found := HasOwnerRole(r.targetModuleId.value, subjectTypes[n], actor);
          if found {
            return true;
          }
        }
      }
      assert subjectTypes[0] == User && subjectTypes[1] == Team;
      return false;
    }

    method AllRequirementsApprovedAfter(requirements: seq<Requirement>, decided: string) returns (all: bool)
      ensures all == AllApprovedAfter(requirements, decided)
    {
      for n := 0 to |requirements|
        invariant forall m | 0 <= m < n ::
                    requirements[m].id == decided || requirements[m].status == Granted || requirements[m].status == Waived
      {
        if requirements[n].id == decided {
          continue;
        }
        if requirements[n].status != Granted && requirements[n].status != Waived {
          assert requirements[n] in requirements;
          return false;
        }
      }
      return true;
    }

    method ReceivedApprovalsAfter(requirements: seq<Requirement>, decided: string, decidedStatus: RequirementStatus)
      returns (count: nat)
      ensures count == CountStatus(SetStatus(requirements, decided, decidedStatus), Granted)
    {
      hide SetStatus; hide CountStatus;
      count := 0;
      NothingCounted(decided, decidedStatus);
      for n := 0 to |requirements|
        invariant count == CountStatus(SetStatus(requirements[..n], decided, decidedStatus), Granted)
      {
        assert requirements[..n + 1] == requirements[..n] + [requirements[n]];
        SetStatusSnoc(requirements[..n], requirements[n], decided, decidedStatus);
        CountSnoc(SetStatus(requirements[..n], decided, decidedStatus), WithStatus(decided, decidedStatus)(requirements[n]), Granted);
        var status := requirements[n].status;
        if requirements[n].id == decided {
          status := decidedStatus;
        }
        if status == Granted {
          count := count + 1;
        }
      }
      assert requirements[..|requirements|] == requirements;
    }

    // Decisions

    method CheckDecision(input: DecisionInput, f: DecisionFaults) returns (refusal: Option<Error>)
      ensures refusal == Refusal(store, config, input, f)
    {
      var requirementId, actor := TrimSpace(input.requirementId), TrimSpace(input.actor);
      if requirementId == "" { return Some(InvalidRequirementId); }
      if actor == "" { return Some(InvalidActor); }
      if |input.comment| > MAX_COMMENT_LENGTH { return Some(CommentTooLong); }
      if f.read { return Some(Unavailable); }
      var i := FindByRequirement(store.requests, requirementId);
      if i.None? { return Some(RequirementNotFound); }
      FoundByRequirement(store.requests, requirementId);
      var request := store.requests[i.value];
      var requirement := request.requirements[IndexOf(request.requirements, requirementId)];
      var expected := TrimSpace(input.requestId);
      if expected != "" && request.id != expected { return Some(RequestNotFound); }
      if HasDecision(request.decisions, requirementId) { return Some(RequirementConflict); }
      if request.status != Pending { return Some(RequestConflict); }
      if requirement.status != Undecided { return Some(RequirementConflict); }
      var can := ActorCanDecide(requirement, actor, f.lookup);
      refusal := if can then None else Some(ActorForbidden);
    }

    /** Records one decision. A refused call and one whose transaction does not commit change
        nothing; otherwise the store takes the decision's step, even when the commit is
        reported as failed or reading the request back fails. */
    method RecordDecision(input: DecisionInput, value: DecisionValue, decisionId: string, f: DecisionFaults)
      returns (r: Result<Request, Error>)
      modifies this
      ensures var refusal := Refusal(old(store), config, input, f);
              var d := Decision(decisionId, TrimSpace(input.requirementId), value, TrimSpace(input.actor), input.comment);
              if refusal.Some? then r == Failure(refusal.value) && store == old(store)
              else
                && DecideEnabled(old(store), config, d)
                && var i := FindByRequirement(old(store).requests, d.requirementId).value;
                   var end := TransactionEnd(f, StatusAfter(old(store).requests[i], d.requirementId, value) != Pending);
                   && store == (if end.NotDone? then old(store) else Apply(old(store), config, Decide(d)))
                   && (r.Success? <==> end.Done? && !f.readBack)
                   && r == if r.Success? then Success(store.requests[i]) else Failure(Unavailable)
      ensures store != old(store) ==> PermittedBy(old(store), config, input)
      ensures TrimSpace(input.requirementId) == "" ==> r == Failure(InvalidRequirementId)
      ensures TrimSpace(input.requirementId) != "" && TrimSpace(input.actor) == "" ==> r == Failure(InvalidActor)
      ensures TrimSpace(input.requirementId) != "" && TrimSpace(input.actor) != "" && |input.comment| > 2000 ==>
                r == Failure(CommentTooLong)
      ensures (f.read || f.newId || f.addDecision || f.updateRequirement || f.updateRequest || f.decisionAudit || f.outbox
               || f.commit == NotDone) ==> r.Failure? && store == old(store)
      ensures r.Success? ==>
                && r.value in store.requests && |r.value.decisions| > 0
                && r.value.decisions[|r.value.decisions| - 1] ==
                   Decision(decisionId, TrimSpace(input.requirementId), value, TrimSpace(input.actor), input.comment)
    {
      hide TrimSpace; hide HasDecision; hide FindByRequirement; hide MayDecide; hide StatusAfter;
      var refusal := CheckDecision(input, f);
      if refusal.Some? {
        return Failure(refusal.value);
      }
      var d := Decision(decisionId, TrimSpace(input.requirementId), value, TrimSpace(input.actor), input.comment);
      AcceptedIsEnabled(store, config, input, f, d);
      AcceptedIsPermitted(store, config, input, f);
      hide PermittedBy;
      var i := FindByRequirement(store.requests, d.requirementId).value;
      assert !HasDecision(store.requests[i].decisions, d.requirementId);
      if f.newId {
        return Failure(Unavailable);
      }
      var snapshot := store;
      var ok := DecisionTransaction(i, d, f);
      if !ok || f.commit.NotDone? {
        store := snapshot;
        return Failure(Unavailable);
      }
      r := if f.commit.Lost? || f.readBack then Failure(Unavailable) else Success(store.requests[i]);
    }

    /** The statements of the transaction, in order; the first failure ends it. */
    method DecisionTransaction(i: nat, d: Decision, f: DecisionFaults) returns (ok: bool)
      requires i < |store.requests| && !f.newId && store.requests[i].status == Pending
      requires !HasDecision(store.requests[i].decisions, d.requirementId)
      requires HasRequirement(store.requests[i].requirements, d.requirementId)
      modifies this
      ensures ok == !StatementFails(f, StatusAfter(old(store).requests[i], d.requirementId, d.value) != Pending)
      ensures ok ==>
                var request := old(store).requests[i];
                store == old(store).(requests := old(store).requests[i := Decided(request, d)],
                                     audit := old(store).audit + DecisionEvents(request, d))
    {
      hide HasDecision; hide HasRequirement; hide SetStatus; hide CountStatus;
      var request := store.requests[i];
      var newRequirementStatus := Granted;
      var newStatus := Pending;
      if d.value == Reject {
        newRequirementStatus := Refused;
        newStatus := Rejected;
      } else {
        var all := AllRequirementsApprovedAfter(request.requirements, d.requirementId);
        if all {
          newStatus := Approved;
        }
      }
      assert newStatus == StatusAfter(request, d.requirementId, d.value);
      hide StatusAfter;
      var received := ReceivedApprovalsAfter(request.requirements, d.requirementId, newRequirementStatus);
      ok := AddDecision(i, d, f.addDecision);
      if !ok { return; }
      ok := UpdateRequirementStatus(i, d.requirementId, newRequirementStatus, f.updateRequirement);
      if !ok { return; }
      ok := UpdateRequestStatus(i, newStatus, |request.requirements|, received, f.updateRequest);
      if !ok { return; }
      ok := AppendAudit(DecisionRecorded(request.id, d.requirementId, d.value), f.decisionAudit);
      if !ok { return; }
      if newStatus != Pending {
        ok := AppendAudit(StatusChanged(request.id, Pending, newStatus), f.statusAudit);
        if !ok { return; }
      }
      ok := !f.outbox;
    }

    // Creation

    method BuildRequest(report: Report, plans: seq<Plan>, requestId: string, ids: seq<string>) returns (built: Request)
      requires |ids| == |plans|
      ensures built == BuiltRequest(report, plans, requestId, ids)
    {
      var requirements: seq<Requirement> := [];
      for n := 0 to |plans|
        invariant |requirements| == n
        invariant forall m | 0 <= m < n ::
                    requirements[m] == Requirement(ids[m], plans[m].requirementType, plans[m].targetModuleId,
                                                   plans[m].targetModuleName, Undecided)
      {
        requirements := requirements + [Requirement(ids[n], plans[n].requirementType, plans[n].targetModuleId,
                                                    plans[n].targetModuleName, Undecided)];
      }
      assert requirements == BuiltRequirements(plans, ids);
      built := Request(requestId, report.moduleId, report.id, if plans != [] then Pending else NotRequired, |plans|, 0,
                       requirements, []);
    }

    /** Creates the request for a report, or returns the one there is. A failed call changes
        nothing, unless the commit takes effect and is reported as failed. */
    method CreateApprovalRequest(reportId: string, actor: string, report: Option<Report>, affected: seq<Affected>,
                                 impact: seq<RuntimeImpact>, requestId: string, newId: nat -> string,
                                 readFails: bool, transaction: CallOutcome)
      returns (r: Result<Request, Error>)
      requires report.Some? ==> report.value.id == TrimSpace(reportId)
      modifies this
      ensures TrimSpace(reportId) == "" ==> r == Failure(InvalidReportId)
      ensures TrimSpace(reportId) != "" && TrimSpace(actor) == "" ==> r == Failure(InvalidActor)
      ensures TrimSpace(reportId) != "" && TrimSpace(actor) != "" && readFails ==> r == Failure(Unavailable)
      ensures r.Failure? && !transaction.Lost? ==> store == old(store)
      ensures TrimSpace(reportId) == "" || TrimSpace(actor) == "" || readFails ==> store == old(store)
      ensures TrimSpace(reportId) != "" && TrimSpace(actor) != "" && !readFails ==>
                var existing := FindByReport(old(store).requests, TrimSpace(reportId));
                if existing.Some? then
                  existing.value < |old(store).requests|
                  && r == Success(old(store).requests[existing.value]) && store == old(store)
                else if report.None? then r == Failure(ReportNotFound) && store == old(store)
                else
                  var plans := RequiredPlans(InputFor(old(store).owners, report.value, affected, impact, config));
                  var a := Create(report.value, affected, impact, requestId, NewIds(|plans|, newId));
                  && (r.Success? <==> transaction.Done? && CreateEnabled(old(store), config, a))
                  && (r.Success? ==> r.value == Created(old(store), config, a))
                  && store == (if !transaction.NotDone? && CreateEnabled(old(store), config, a)
                               then Apply(old(store), config, a) else old(store))
    {
      hide TrimSpace; hide RequiredPlans; hide BuiltRequirements; hide HasRequirement; hide InputFor; hide FindByReport;
      var id := TrimSpace(reportId);
      if id == "" { return Failure(InvalidReportId); }
      if TrimSpace(actor) == "" { return Failure(InvalidActor); }
      if readFails { return Failure(Unavailable); }
      FoundByReport(store.requests, id);
      var existing := FindByReport(store.requests, id);
      if existing.Some? {
        return Success(store.requests[existing.value]);
      }
      if report.None? { return Failure(ReportNotFound); }
      var input := InputFor(store.owners, report.value, affected, impact, config);
      InputParts(store.owners, report.value, affected, impact, config);
      var result := EvaluatePolicy(input);
      var ids := NewIds(|result.requirements|, newId);
      var request := BuildRequest(report.value, result.requirements, requestId, ids);
      // key columns of requests and requirements
      if !FreshIds(store.requests, requestId, ids) { return Failure(RequestConflict); }
      if transaction.NotDone? { return Failure(Unavailable); }
      var created := RequestCreated(request.id, |request.requirements|, result.approvalRequired);
      store := store.(requests := store.requests + [request], audit := store.audit + [created]);
      return if transaction.Lost? then Failure(Unavailable) else Success(request);
    }
  }

  lemma NothingCounted(decided: string, status: RequirementStatus)
    ensures CountStatus(SetStatus([], decided, status), Granted) == 0
  {}

  lemma InputParts(owners: seq<ModuleOwner>, report: Report, affected: seq<Affected>, impact: seq<RuntimeImpact>, config: PolicyConfig)
    ensures InputFor(owners, report, affected, impact, config).report == report
    ensures InputFor(owners, report, affected, impact, config).config == config
  {}
}
