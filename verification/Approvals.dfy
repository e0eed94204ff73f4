/** Approval requests: what a decision does to a request, and what its status, counters and
    audit trail mean. */
module Approvals {
  import opened Wrappers
  import opened Sequences
  import opened Policy

  datatype RequestStatus = Pending | Approved | Rejected | Cancelled | NotRequired

  datatype RequirementStatus = Undecided | Granted | Refused | Waived

  datatype DecisionValue = Approve | Reject

  datatype Requirement = Requirement(
    id: string,
    requirementType: RequirementType,
    targetModuleId: Option<string>,
    targetModuleName: string,
    status: RequirementStatus)

  datatype Decision = Decision(id: string, requirementId: string, value: DecisionValue, decidedBy: string, comment: string)

  datatype Request = Request(
    id: string,
    moduleId: string,
    reportId: string,
    status: RequestStatus,
    requiredApprovals: nat,
    receivedApprovals: nat,
    requirements: seq<Requirement>,
    decisions: seq<Decision>)

  datatype Event =
    | RequestCreated(requestId: string, requirementCount: nat, approvalRequired: bool)
    | DecisionRecorded(requestId: string, requirementId: string, value: DecisionValue)
    | StatusChanged(requestId: string, fromStatus: RequestStatus, toStatus: RequestStatus)

  // What the code computes for a decision

  function Deciding(value: DecisionValue): RequirementStatus {
    match value
    case Approve => Granted
    case Reject => Refused
  }

  predicate AllApprovedAfter(requirements: seq<Requirement>, decided: string) {
    forall r | r in requirements :: r.id == decided || r.status == Granted || r.status == Waived
  }

  function WithStatus(decided: string, status: RequirementStatus): Requirement -> Requirement {
    (r: Requirement) => if r.id == decided then r.(status := status) else r
  }

  function SetStatus(requirements: seq<Requirement>, decided: string, status: RequirementStatus): seq<Requirement> {
    Map(requirements, WithStatus(decided, status))
  }

  function CountStatus(requirements: seq<Requirement>, status: RequirementStatus): nat {
    if requirements == [] then 0
    else CountStatus(requirements[..|requirements| - 1], status) +
         if requirements[|requirements| - 1].status == status then 1 else 0
  }

  function StatusAfter(request: Request, decided: string, value: DecisionValue): RequestStatus {
    if value == Reject then Rejected
    else if AllApprovedAfter(request.requirements, decided) then Approved
    else Pending
  }

  /** The request as the transaction of a decision leaves it. */
  function Decided(request: Request, d: Decision): Request {
    var requirements := SetStatus(request.requirements, d.requirementId, Deciding(d.value));
    request.(status := StatusAfter(request, d.requirementId, d.value),
             requiredApprovals := |request.requirements|,
             receivedApprovals := CountStatus(requirements, Granted),
             requirements := requirements,
             decisions := request.decisions + [d])
  }

  function DecisionEvents(request: Request, d: Decision): seq<Event> {
    [DecisionRecorded(request.id, d.requirementId, d.value)] +
    if request.status != StatusAfter(request, d.requirementId, d.value)
    then [StatusChanged(request.id, request.status, StatusAfter(request, d.requirementId, d.value))] else []
  }

  // What a request's status means

  function StatusOf(requirements: seq<Requirement>): RequestStatus {
    if requirements == [] then NotRequired
    else if CountStatus(requirements, Granted) == |requirements| then Approved
    else if CountStatus(requirements, Refused) == 1 then Rejected
    else Pending
  }

  function About(requirementId: string): Decision -> bool { (d: Decision) => d.requirementId == requirementId }

  /** One decision with the matching value when the requirement is decided, none before. */
  predicate DecidedOnce(r: Requirement, decisions: seq<Decision>) {
    var own := Filter(decisions, About(r.id));
    match r.status
    case Undecided => own == []
    case Granted => |own| == 1 && own[0].value == Approve
    case Refused => |own| == 1 && own[0].value == Reject
    case Waived => false
  }

  /** The requirement has an approving decision. */
  predicate ApprovedBy(request: Request, r: Requirement) {
    exists d | d in request.decisions :: d.requirementId == r.id && d.value == Approve
  }

  predicate DistinctIds(requirements: seq<Requirement>) {
    forall i, j | 0 <= i < j < |requirements| :: requirements[i].id != requirements[j].id
  }

  predicate HasRequirement(requirements: seq<Requirement>, id: string) {
    exists r | r in requirements :: r.id == id
  }

  predicate RequestValid(request: Request) {
    && DistinctIds(request.requirements)
    && request.requiredApprovals == |request.requirements|
    && request.receivedApprovals == CountStatus(request.requirements, Granted)
    && request.status == StatusOf(request.requirements)
    && CountStatus(request.requirements, Refused) <= 1
    && (forall r | r in request.requirements :: DecidedOnce(r, request.decisions))
    && (forall d | d in request.decisions :: HasRequirement(request.requirements, d.requirementId))
  }

  // Counting

  predicate AllAre(requirements: seq<Requirement>, status: RequirementStatus) {
    forall r | r in requirements :: r.status == status
  }

  predicate NoneAre(requirements: seq<Requirement>, status: RequirementStatus) {
    forall r | r in requirements :: r.status != status
  }

  predicate OneIs(requirements: seq<Requirement>, status: RequirementStatus) {
    exists r | r in requirements ::
      r.status == status && forall q | q in requirements :: q.status == status ==> q == r
  }

  lemma CountSnoc(init: seq<Requirement>, last: Requirement, status: RequirementStatus)
    ensures CountStatus(init + [last], status) == CountStatus(init, status) + if last.status == status then 1 else 0
    ensures AllAre(init + [last], status) <==> AllAre(init, status) && last.status == status
    ensures NoneAre(init + [last], status) <==> NoneAre(init, status) && last.status != status
  {
    assert (init + [last])[..|init|] == init;
    assert (init + [last])[|init|] == last;
  }

  lemma OneSnoc(init: seq<Requirement>, last: Requirement, status: RequirementStatus)
    requires last !in init
    ensures OneIs(init + [last], status) <==>
            if last.status == status then NoneAre(init, status) else OneIs(init, status)
  {
    assert (init + [last])[|init|] == last;
    if last.status == status && NoneAre(init, status) {
      assert last in init + [last];
    }
    if last.status != status && OneIs(init, status) {
      var r :| r in init && r.status == status && forall q | q in init :: q.status == status ==> q == r;
      assert r in init + [last];
    }
  }

  lemma {:induction false} CountIsAll(requirements: seq<Requirement>, status: RequirementStatus)
    ensures CountStatus(requirements, status) <= |requirements|
    ensures CountStatus(requirements, status) == |requirements| <==> AllAre(requirements, status)
    ensures CountStatus(requirements, status) == 0 <==> NoneAre(requirements, status)
  {
    if requirements != [] {
      hide CountStatus; hide AllAre; hide NoneAre;
      var init, last := requirements[..|requirements| - 1], requirements[|requirements| - 1];
      CountIsAll(init, status);
      CountSnoc(init, last, status);
      assert requirements == init + [last];
    }
  }

  lemma {:induction false} CountIsOne(requirements: seq<Requirement>, status: RequirementStatus)
    requires DistinctIds(requirements)
    ensures CountStatus(requirements, status) == 1 <==> OneIs(requirements, status)
  {
    if requirements != [] {
      hide CountStatus; hide AllAre; hide NoneAre; hide OneIs;
      var init, last := requirements[..|requirements| - 1], requirements[|requirements| - 1];
      assert requirements == init + [last];
      CountIsOne(init, status);
      CountIsAll(init, status);
      CountSnoc(init, last, status);
      OneSnoc(init, last, status);
    }
  }

  lemma MapStatusAt(requirements: seq<Requirement>, decided: string, status: RequirementStatus)
    ensures |SetStatus(requirements, decided, status)| == |requirements|
    ensures forall i | 0 <= i < |requirements| ::
              SetStatus(requirements, decided, status)[i] == WithStatus(decided, status)(requirements[i])
  {}

  lemma SetStatusSnoc(init: seq<Requirement>, last: Requirement, decided: string, status: RequirementStatus)
    ensures SetStatus(init + [last], decided, status) == SetStatus(init, decided, status) + [WithStatus(decided, status)(last)]
  {
    MapConcat(init, [last], WithStatus(decided, status));
    assert Map([last], WithStatus(decided, status)) == [WithStatus(decided, status)(last)];
  }

  /** Deciding one undecided requirement moves one from undecided to the decided status. */
  lemma {:induction false} DecidingMovesOne(requirements: seq<Requirement>, k: nat, status: RequirementStatus, counted: RequirementStatus)
    requires DistinctIds(requirements) && k < |requirements| && requirements[k].status == Undecided && status != Undecided
    ensures CountStatus(SetStatus(requirements, requirements[k].id, status), counted) ==
            CountStatus(requirements, counted) +
            (if counted == status then 1 else 0) - (if counted == Undecided then 1 else 0)
  {
    hide SetStatus; hide CountStatus; hide AllAre; hide NoneAre;
    var id := requirements[k].id;
    var init, last := requirements[..|requirements| - 1], requirements[|requirements| - 1];
    assert requirements == init + [last];
    SetStatusSnoc(init, last, id, status);
    CountSnoc(init, last, counted);
    CountSnoc(SetStatus(init, id, status), WithStatus(id, status)(last), counted);
    if k == |init| {
      NotThere(init, id, status);
    } else {
      DecidingMovesOne(init, k, status, counted);
      assert init[k] == requirements[k];
    }
  }

  lemma NotThere(requirements: seq<Requirement>, id: string, status: RequirementStatus)
    requires !HasRequirement(requirements, id)
    ensures SetStatus(requirements, id, status) == requirements
  {
    assert forall i | 0 <= i < |requirements| :: requirements[i] in requirements;
  }

  // Decisions

  lemma DecisionsSnoc(decisions: seq<Decision>, d: Decision, id: string)
    ensures Filter(decisions + [d], About(id)) == Filter(decisions, About(id)) + if d.requirementId == id then [d] else []
  {
    FilterConcat(decisions, [d], About(id));
    assert Filter([d], About(id)) == if d.requirementId == id then [d] else [];
  }

  lemma DecisionsStayOnce(requirements: seq<Requirement>, k: nat, decisions: seq<Decision>, d: Decision)
    requires DistinctIds(requirements) && k < |requirements| && requirements[k].status == Undecided
    requires d.requirementId == requirements[k].id
    requires forall r | r in requirements :: DecidedOnce(r, decisions)
    ensures forall r | r in SetStatus(requirements, d.requirementId, Deciding(d.value)) :: DecidedOnce(r, decisions + [d])
  {
    MapStatusAt(requirements, d.requirementId, Deciding(d.value));
    var after := SetStatus(requirements, d.requirementId, Deciding(d.value));
    hide SetStatus; hide Filter;
    forall i | 0 <= i < |after|
      ensures DecidedOnce(after[i], decisions + [d])
    {
      assert requirements[i] in requirements;
      assert DecidedOnce(requirements[i], decisions);
      DecisionsSnoc(decisions, d, requirements[i].id);
    }
  }

  predicate CanBeDecided(request: Request, k: nat) {
    && request.status == Pending
    && k < |request.requirements|
    && request.requirements[k].status == Undecided
  }

  lemma StatusAfterMeans(request: Request, k: nat, value: DecisionValue)
    requires RequestValid(request) && CanBeDecided(request, k)
    ensures var after := SetStatus(request.requirements, request.requirements[k].id, Deciding(value));
            && StatusAfter(request, request.requirements[k].id, value) == StatusOf(after)
            && CountStatus(after, Refused) <= 1
  {
    var requirements := request.requirements;
    var id := requirements[k].id;
    var after := SetStatus(requirements, id, Deciding(value));
    hide SetStatus; hide CountStatus; hide RequestValid; hide AllAre; hide NoneAre; hide AllApprovedAfter; hide DistinctIds;
    PendingFacts(request);
    MapStatusAt(requirements, id, Deciding(value));
    DecidingMovesOne(requirements, k, Deciding(value), Granted);
    DecidingMovesOne(requirements, k, Deciding(value), Refused);
    if value == Approve {
      CountIsAll(after, Granted);
      AllApprovedMeans(requirements, k, after);
    } else {
      UndecidedIsNotGranted(requirements, k);
    }
  }

  lemma UndecidedIsNotGranted(requirements: seq<Requirement>, k: nat)
    requires k < |requirements| && requirements[k].status == Undecided
    ensures CountStatus(requirements, Granted) < |requirements|
  {
    CountIsAll(requirements, Granted);
    hide CountStatus;
    assert requirements[k] in requirements;
  }

  lemma PendingFacts(request: Request)
    requires RequestValid(request) && request.status == Pending
    ensures DistinctIds(request.requirements) && NoneAre(request.requirements, Waived)
    ensures CountStatus(request.requirements, Refused) == 0
  {
    assert forall r | r in request.requirements :: DecidedOnce(r, request.decisions);
  }

  lemma AllApprovedMeans(requirements: seq<Requirement>, k: nat, after: seq<Requirement>)
    requires DistinctIds(requirements) && k < |requirements| && |after| == |requirements|
    requires forall i | 0 <= i < |after| :: after[i] == WithStatus(requirements[k].id, Granted)(requirements[i])
    requires NoneAre(requirements, Waived)
    ensures AllApprovedAfter(requirements, requirements[k].id) <==> AllAre(after, Granted)
  {
    if AllApprovedAfter(requirements, requirements[k].id) {
      assert forall i | 0 <= i < |after| :: requirements[i] in requirements;
    }
    if AllAre(after, Granted) {
      assert forall i | 0 <= i < |after| :: after[i] in after;
      assert forall i | 0 <= i < |after| :: requirements[i].id == requirements[k].id || requirements[i].status == Granted;
    }
  }

  /** A decision on an undecided requirement of a pending request keeps the request valid. */
  lemma DecisionKeepsRequestValid(request: Request, k: nat, d: Decision)
    requires RequestValid(request) && CanBeDecided(request, k) && d.requirementId == request.requirements[k].id
    ensures RequestValid(Decided(request, d))
  {
    hide SetStatus; hide CountStatus; hide DecidedOnce; hide StatusAfter; hide StatusOf; hide HasRequirement;
    StatusAfterMeans(request, k, d.value);
    DecisionsStayOnce(request.requirements, k, request.decisions, d);
    MapStatusAt(request.requirements, d.requirementId, Deciding(d.value));
    var after := SetStatus(request.requirements, d.requirementId, Deciding(d.value));
    assert forall i | 0 <= i < |after| :: after[i].id == request.requirements[i].id;
    RequirementsStay(request.requirements, after);
    RequirementIsThere(after, k);
  }

  lemma RequirementIsThere(requirements: seq<Requirement>, k: nat)
    requires k < |requirements|
    ensures HasRequirement(requirements, requirements[k].id)
  {
    assert requirements[k] in requirements;
  }

  lemma RequirementsStay(requirements: seq<Requirement>, after: seq<Requirement>)
    requires |after| == |requirements| && forall i | 0 <= i < |after| :: after[i].id == requirements[i].id
    ensures forall id: string :: HasRequirement(requirements, id) ==> HasRequirement(after, id)
  {
    forall id: string | HasRequirement(requirements, id)
      ensures HasRequirement(after, id)
    {
      var r :| r in requirements && r.id == id;
      var i :| 0 <= i < |requirements| && requirements[i] == r;
      assert after[i] in after;
    }
  }

  /** What a valid request's fields say about its requirements and decisions. */
  lemma StatusMeaning(request: Request)
    requires RequestValid(request)
    ensures request.status == NotRequired <==> request.requirements == []
    ensures request.status == Approved <==> request.requirements != [] && AllAre(request.requirements, Granted)
    ensures request.status == Rejected <==> OneIs(request.requirements, Refused)
    ensures request.status != Cancelled
    ensures request.status == Pending ==> NoneAre(request.requirements, Refused)
  {
    hide CountStatus; hide DecidedOnce;
    CountIsAll(request.requirements, Granted);
    CountIsAll(request.requirements, Refused);
    CountIsOne(request.requirements, Refused);
  }

  /** A requirement is decided exactly when one decision exists for it, and its status is that
      decision's value. */
  lemma DecidedExactlyOnce(request: Request, r: Requirement)
    requires RequestValid(request) && r in request.requirements
    ensures var own := Filter(request.decisions, About(r.id));
            && (r.status == Undecided <==> |own| == 0)
            && (r.status != Undecided <==> |own| == 1)
            && (|own| == 1 ==> r.status == Deciding(own[0].value))
  {
    assert DecidedOnce(r, request.decisions);
  }

  /** An approved request has an approving decision for every requirement. */
  lemma ApprovedMeansDecided(request: Request, r: Requirement)
    requires RequestValid(request) && request.status == Approved && r in request.requirements
    ensures ApprovedBy(request, r)
  {
    StatusMeaning(request);
    assert DecidedOnce(r, request.decisions);
    GrantedIsApproved(request, r);
  }

  lemma GrantedIsApproved(request: Request, r: Requirement)
    requires r.status == Granted && DecidedOnce(r, request.decisions)
    ensures ApprovedBy(request, r)
  {
    FilterMembers(request.decisions, About(r.id));
    var d := Filter(request.decisions, About(r.id))[0];
    assert d in request.decisions;
  }

  // The audit trail

  function Fresh(requirements: seq<Requirement>): seq<Requirement> {
    Map(requirements, (r: Requirement) => r.(status := Undecided))
  }

  /** The requirements an audit trail leads to, from a start where none is decided. */
  function Replay(start: seq<Requirement>, trail: seq<Event>): seq<Requirement> {
    if trail == [] then start
    else
      var before := Replay(start, trail[..|trail| - 1]);
      var last := trail[|trail| - 1];
      if last.DecisionRecorded? then SetStatus(before, last.requirementId, Deciding(last.value)) else before
  }

  predicate IsStatusChange(e: Event) { e.StatusChanged? }

  /** The trail starts with the creation and holds a status change exactly when the request
      is settled by a decision: as its last event, right after that decision, naming the
      stored status. */
  predicate TrailShape(id: string, count: nat, status: RequestStatus, trail: seq<Event>) {
    && trail != []
    && trail[0] == RequestCreated(id, count, count != 0)
    && (forall i | 0 < i < |trail| :: !trail[i].RequestCreated?)
    && (forall i | 0 <= i < |trail| - 1 :: !trail[i].StatusChanged?)
    && (trail[|trail| - 1].StatusChanged? <==> status == Approved || status == Rejected)
    && (trail[|trail| - 1].StatusChanged? ==>
          && |trail| > 2
          && trail[|trail| - 2].DecisionRecorded?
          && trail[|trail| - 1] == StatusChanged(id, Pending, status))
  }

  /** ... and it replays to the stored requirements. */
  predicate TrailValid(request: Request, trail: seq<Event>) {
    && TrailShape(request.id, |request.requirements|, request.status, trail)
    && Replay(Fresh(request.requirements), trail) == request.requirements
  }

  lemma ReplaySnoc(start: seq<Requirement>, trail: seq<Event>, e: Event)
    ensures Replay(start, trail + [e]) ==
            if e.DecisionRecorded? then SetStatus(Replay(start, trail), e.requirementId, Deciding(e.value))
            else Replay(start, trail)
  {
    assert (trail + [e])[..|trail|] == trail;
  }

  lemma ShapeAfterDecision(id: string, count: nat, trail: seq<Event>, recorded: Event, status: RequestStatus)
    requires TrailShape(id, count, Pending, trail) && recorded.DecisionRecorded?
    requires status == Pending || status == Approved || status == Rejected
    ensures TrailShape(id, count, status,
                       trail + [recorded] + if status != Pending then [StatusChanged(id, Pending, status)] else [])
  {}

  lemma FreshForgets(requirements: seq<Requirement>, decided: string, status: RequirementStatus)
    ensures Fresh(SetStatus(requirements, decided, status)) == Fresh(requirements)
  {}

  lemma DecisionKeepsTrailValid(request: Request, trail: seq<Event>, k: nat, d: Decision)
    requires RequestValid(request) && TrailValid(request, trail)
    requires CanBeDecided(request, k) && d.requirementId == request.requirements[k].id
    ensures TrailValid(Decided(request, d), trail + DecisionEvents(request, d))
  {
    MapStatusAt(request.requirements, d.requirementId, Deciding(d.value));
    hide SetStatus; hide Fresh; hide DecidedOnce; hide Replay; hide CountStatus; hide AllApprovedAfter; hide TrailShape;
    hide RequestValid;
    var status := StatusAfter(request, d.requirementId, d.value);
    var recorded := DecisionRecorded(request.id, d.requirementId, d.value);
    var changed := if status != Pending then [StatusChanged(request.id, Pending, status)] else [];
    assert trail + DecisionEvents(request, d) == trail + [recorded] + changed;
    ShapeAfterDecision(request.id, |request.requirements|, trail, recorded, status);
    FreshForgets(request.requirements, d.requirementId, Deciding(d.value));
    var start := Fresh(request.requirements);
    ReplaySnoc(start, trail, recorded);
    if status != Pending {
      ReplaySnoc(start, trail + [recorded], changed[0]);
    } else {
      assert trail + [recorded] + changed == trail + [recorded];
    }
  }

  /** Replaying the trail reproduces the stored status, requirement statuses and counters. */
  lemma ReplayReproduces(request: Request, trail: seq<Event>)
    requires RequestValid(request) && TrailValid(request, trail)
    ensures var replayed := Replay(Fresh(request.requirements), trail);
            && replayed == request.requirements
            && StatusOf(replayed) == request.status
            && CountStatus(replayed, Granted) == request.receivedApprovals
            && |replayed| == request.requiredApprovals
    ensures |Filter(trail, IsStatusChange)| == if request.status == Approved || request.status == Rejected then 1 else 0
  {
    var init, last := trail[..|trail| - 1], trail[|trail| - 1];
    assert trail == init + [last];
    FilterConcat(init, [last], IsStatusChange);
    FilterNone(init, IsStatusChange);
    assert Filter([last], IsStatusChange) == if last.StatusChanged? then [last] else [];
  }
}
