/** The merge-request gate: what it reports to GitLab, its exit code, and what a passing run
    means for the approval behind it. */
module Gate {
  import opened Wrappers
  import opened Text

  datatype CommitState = Running | Succeeded | Failed

  type Time = int

  datatype Note = Note(id: int, body: string, updatedAt: Option<Time>, createdAt: Option<Time>)

  datatype BreakingReport = BreakingReport(id: string, status: string)

  datatype GovernanceReply = Found(status: string) | NotFound | Errored

  datatype Input = Input(
    moduleName: string,
    against: string,
    artifactLength: nat,
    projectId: int,
    mergeRequestIid: int,
    commitSha: string,
    statusEnabled: bool,
    governanceEnabled: bool)

  /** What the services answer during one run. */
  datatype Outcomes = Outcomes(
    breaking: Option<BreakingReport>,
    getApproval: GovernanceReply,
    createApproval: GovernanceReply,
    listNotesFails: bool,
    writeNote: CallOutcome,
    newNoteId: int,
    setRunning: CallOutcome,
    setFinal: CallOutcome,
    setFailed: CallOutcome,
    markdown: string)

  const EXIT_PASSED := 0
  const EXIT_BREAKING := 1
  const EXIT_ERROR := 2

  function Normalized(s: string): string { ToLower(TrimSpace(s)) }

  // Markers

  function Without(s: string, sub: string): string
    requires sub != ""
  {
    if |s| < |sub| then s
    else if sub <= s then Without(s[|sub|..], sub)
    else [s[0]] + Without(s[1..], sub)
  }

  function MarkerModuleName(name: string): string {
    Without(Without(Without(TrimSpace(name), "\r"), "\n"), "-->")
  }

  function BuildMarker(name: string): string {
    "<!-- protoradar:mr-check module=" + MarkerModuleName(name) + " -->"
  }

  predicate Contains(s: string, sub: string) {
    exists i | 0 <= i <= |s| :: HasPrefix(s[i..], sub)
  }

  predicate Marked(n: Note, name: string) { Contains(n.body, BuildMarker(name)) }

  lemma {:induction false} NothingWithout(s: string, sub: string, c: char)
    requires c in sub && c !in s
    ensures Without(s, sub) == s
  {
    if |s| >= |sub| {
      assert !(sub <= s) by {
        var i :| 0 <= i < |sub| && sub[i] == c;
        assert s[i] in s;
      }
      NothingWithout(s[1..], sub, c);
    }
  }

  /** No angle brackets and no space. */
  predicate PlainName(name: string) {
    forall c | c in name :: c != '<' && c != '>' && !IsSpace(c)
  }

  const MARKER_HEAD := "<!-- protoradar:mr-check module="

  lemma MarkerIs(name: string)
    requires PlainName(name)
    ensures BuildMarker(name) == MARKER_HEAD + (name + [' '] + "-->")
  {
    assert forall i | 0 <= i < |name| :: name[i] in name;
    assert Trimmed(name);
    TrimSpaceTrims(name);
    hide TrimSpace; hide Without;
    NothingWithout(name, "\r", '\r');
    NothingWithout(name, "\n", '\n');
    NothingWithout(name, "-->", '>');
    assert " -->" == [' '] + "-->";
    assert MARKER_HEAD + name + " -->" == MARKER_HEAD + (name + ([' '] + "-->"));
    assert name + ([' '] + "-->") == name + [' '] + "-->";
  }

  lemma OnlyFirstBracket(head: string, tail: string, i: nat)
    requires i < |head + tail| && (forall j | 0 < j < |head| :: head[j] != '<') && '<' !in tail
    ensures (head + tail)[i] == '<' ==> i == 0 || head == ""
  {
    if i >= |head| {
      assert (head + tail)[i] == tail[i - |head|] && tail[i - |head|] in tail;
    }
  }

  lemma EndsAtSpace(head: string, a: string, b: string)
    requires head != "" && head[0] == '<' && forall j | 0 < j < |head| :: head[j] != '<'
    requires PlainName(a) && PlainName(b)
    requires Contains(head + (a + [' '] + "-->"), head + (b + [' '] + "-->"))
    ensures a == b
  {
    var tail, other := a + [' '] + "-->", b + [' '] + "-->";
    var x, y := head + tail, head + other;
    assert ' ' !in a && ' ' !in b && '<' !in tail;
    var i :| 0 <= i <= |x| && HasPrefix(x[i..], y);
    assert y[0] == '<' && x[i..][0] == x[i];
    OnlyFirstBracket(head, tail, i);
    assert x[0..] == x;
    var rest := x[|y|..];
    assert x == y + rest;
    assert head + tail == head + (other + rest);
    SamePrefix(head, tail, other + rest);
    assert other + rest == b + [' '] + ("-->" + rest);
    FirstSeparatorIsUnique(' ', a, "-->", b, "-->" + rest);
  }

  /** A comment that carries one module's marker is not found for another module. */
  lemma MarkerNamesOneModule(a: string, b: string)
    requires PlainName(a) && PlainName(b)
    ensures Contains(BuildMarker(a), BuildMarker(b)) <==> a == b
  {
    hide BuildMarker; hide PlainName;
    MarkerIs(a);
    MarkerIs(b);
    if a == b {
      assert BuildMarker(a)[0..] == BuildMarker(a);
      assert HasPrefix(BuildMarker(a)[0..], BuildMarker(b));
    }
    if Contains(BuildMarker(a), BuildMarker(b)) {
      EndsAtSpace(MARKER_HEAD, a, b);
    }
  }

  function NoteTime(n: Note): Option<Time> {
    if n.updatedAt.Some? then n.updatedAt else n.createdAt
  }

  predicate AnyTimed(notes: seq<Note>, name: string) {
    exists n | n in notes :: Marked(n, name) && NoteTime(n).Some?
  }

  /** Note k is the run's own comment: a marked note, the latest by time (the last one of
      equal times), or the last one when no marked note has a time. */
  ghost predicate IsSelected(notes: seq<Note>, name: string, k: nat) {
    && k < |notes| && Marked(notes[k], name)
    && if AnyTimed(notes, name) then
         && NoteTime(notes[k]).Some?
         && (forall j | 0 <= j < |notes| && Marked(notes[j], name) && NoteTime(notes[j]).Some? ::
               && NoteTime(notes[j]).value <= NoteTime(notes[k]).value
               && (j > k ==> NoteTime(notes[j]).value < NoteTime(notes[k]).value))
       else forall j | k < j < |notes| :: !Marked(notes[j], name)
  }

  /** The selected note is at least as recent as every marked note, where a note's time is its
      update time or else its creation time; a note without a time is selected only when no
      marked note has one. */
  lemma SelectedIsLatest(notes: seq<Note>, name: string, k: nat, j: nat)
    requires IsSelected(notes, name, k) && j < |notes| && Contains(notes[j].body, BuildMarker(name))
    ensures Contains(notes[k].body, BuildMarker(name))
    ensures var a, b := notes[j], notes[k];
            && (a.updatedAt.Some? && b.updatedAt.Some? ==> a.updatedAt.value <= b.updatedAt.value)
            && (a.updatedAt.Some? && b.updatedAt == None ==>
                  b.createdAt.Some? && a.updatedAt.value <= b.createdAt.value)
            && (a.updatedAt == None && a.createdAt.Some? ==>
                  if b.updatedAt.Some? then a.createdAt.value <= b.updatedAt.value
                  else b.createdAt.Some? && a.createdAt.value <= b.createdAt.value)
  {
    hide Contains; hide BuildMarker;
    assert notes[j] in notes && notes[k] in notes;
  }

  method SelectExistingNote(notes: seq<Note>, name: string) returns (selected: Option<Note>, ghost k: nat)
    ensures selected.None? <==> forall n | n in notes :: !Marked(n, name)
    ensures selected.Some? ==> IsSelected(notes, name, k) && selected.value == notes[k]
  {
    hide Marked; hide NoteTime;
    selected, k := None, 0;
    var selectedTime: Time := 0;
    var sawTimestamp := false;
    for i := 0 to |notes|
      invariant selected.None? <==> forall n | n in notes[..i] :: !Marked(n, name)
      invariant sawTimestamp <==> AnyTimed(notes[..i], name)
      invariant selected.Some? ==> IsSelected(notes[..i], name, k) && selected.value == notes[k]
      invariant sawTimestamp ==> selected.Some? && NoteTime(notes[k]) == Some(selectedTime)
    {
      var note := notes[i];
      assert notes[..i + 1] == notes[..i] + [note];
      if !Marked(note, name) {
        continue;
      }
      var noteTime := NoteTime(note);
      if noteTime.Some? {
        if selected.None? || !sawTimestamp || !(noteTime.value < selectedTime) {
          selected, k := Some(note), i;
          selectedTime := noteTime.value;
          sawTimestamp := true;
        }
        continue;
      }
      if !sawTimestamp {
        selected, k := Some(note), i;
      }
    }
    assert notes[..|notes|] == notes;
  }

  // What decides the gate

  /** The governance status a run works with: None when it is not available, an error when
      governance is enabled and the status cannot be had. */
  function GovernanceStatus(input: Input, report: BreakingReport, o: Outcomes, hasClient: bool): Result<Option<string>, ()> {
    if !hasClient || TrimSpace(report.id) == "" then Success(None)
    else if o.getApproval.Found? then Success(Some(o.getApproval.status))
    else if !input.governanceEnabled then Success(None)
    else if o.getApproval.NotFound? && o.createApproval.Found? then Success(Some(o.createApproval.status))
    else Failure(())
  }

  predicate IsBreaking(report: BreakingReport) { Normalized(report.status) == "breaking" }

  predicate Says(governance: Option<string>, status: string) {
    governance.Some? && Normalized(governance.value) == status
  }

  predicate Released(governance: Option<string>) { Says(governance, "approved") || Says(governance, "not_required") }

  predicate Held(governance: Option<string>) { Says(governance, "pending") || Says(governance, "rejected") }

  /** The gate opens: the report does not break, unless governance holds it; a breaking
      report only when governance released it. */
  predicate Opens(input: Input, report: BreakingReport, governance: Option<string>) {
    if input.governanceEnabled then Released(governance) || (!Held(governance) && !IsBreaking(report))
    else !IsBreaking(report)
  }

  predicate ValidInput(input: Input, hasBreakingClient: bool, hasGitLabClient: bool) {
    && hasBreakingClient && hasGitLabClient
    && TrimSpace(input.moduleName) != "" && TrimSpace(input.against) != "" && input.artifactLength > 0
    && input.projectId > 0 && input.mergeRequestIid > 0
    && (input.statusEnabled ==> TrimSpace(input.commitSha) != "")
  }

  /** The check, the governance status and the comment all came out. */
  predicate Reported(input: Input, o: Outcomes, hasGovernanceClient: bool) {
    && o.breaking.Some?
    && GovernanceStatus(input, o.breaking.value, o, hasGovernanceClient).Success?
    && !o.listNotesFails && o.writeNote == Done
  }

  /** Everything a run needs was answered. */
  predicate Answered(input: Input, o: Outcomes, hasGovernanceClient: bool) {
    && (input.statusEnabled ==> o.setRunning == Done && o.setFinal == Done)
    && Reported(input, o, hasGovernanceClient)
  }

  predicate GateOpens(input: Input, o: Outcomes, hasGovernanceClient: bool)
    requires Reported(input, o, hasGovernanceClient)
  {
    Opens(input, o.breaking.value, GovernanceStatus(input, o.breaking.value, o, hasGovernanceClient).value)
  }

  /** With governance disabled the report alone decides: breaking closes the gate, and any
      other status opens it, whatever governance would say. */
  lemma DisabledGateFollowsReport(input: Input, o: Outcomes, hasGovernanceClient: bool)
    requires !input.governanceEnabled && Reported(input, o, hasGovernanceClient)
    ensures GateOpens(input, o, hasGovernanceClient) <==> Normalized(o.breaking.value.status) != "breaking"
  {
    hide ToLower; hide TrimSpace;
  }

  /** The status text of the server's last answer. */
  function Answer(o: Outcomes): string {
    if o.getApproval.Found? then o.getApproval.status
    else if o.createApproval.Found? then o.createApproval.status else ""
  }

  /** With governance enabled, and a client and a report id, the server's answer decides:
      approved and not required open the gate, pending and rejected close it, and for any
      other status the report decides. Without client or id the report decides alone. */
  lemma EnabledGateFollowsGovernance(input: Input, o: Outcomes, hasGovernanceClient: bool)
    requires input.governanceEnabled && Reported(input, o, hasGovernanceClient)
    ensures var answered := hasGovernanceClient && TrimSpace(o.breaking.value.id) != "";
            var word := Normalized(Answer(o));
            GateOpens(input, o, hasGovernanceClient) <==>
            if answered && (word == "approved" || word == "not_required") then true
            else if answered && (word == "pending" || word == "rejected") then false
            else Normalized(o.breaking.value.status) != "breaking"
  {
    hide ToLower; hide TrimSpace;
    Words();
  }

  lemma Words()
    ensures "approved" != "pending" && "approved" != "rejected" && "not_required" != "pending" && "not_required" != "rejected"
  {
    assert "approved"[0] == 'a' && "rejected"[0] == 'r';
  }

  /** A run can report exactly when the check answered, the comment was written, and
      governance is off, out of reach or answered: with a status, or with "not found" and a
      request created for it. */
  lemma WhenReported(input: Input, o: Outcomes, hasGovernanceClient: bool)
    ensures Reported(input, o, hasGovernanceClient) <==>
            && o.breaking.Some? && !o.listNotesFails && o.writeNote == Done
            && (|| !input.governanceEnabled || !hasGovernanceClient || TrimSpace(o.breaking.value.id) == ""
                || o.getApproval.Found? || (o.getApproval == NotFound && o.createApproval.Found?))
  {
    hide TrimSpace;
  }

  /** What GitLab has after a status call. */
  function Posted(state: CommitState, outcome: CallOutcome): seq<CommitState> {
    if outcome.NotDone? then [] else [state]
  }

  /** What a run does to the comments: it rewrites its own one, or adds one when there is
      none; other comments stay as they are, and a refused call changes nothing. */
  ghost predicate Upserted(before: seq<Note>, after: seq<Note>, name: string, o: Outcomes) {
    if o.listNotesFails || o.writeNote.NotDone? then after == before
    else if forall n | n in before :: !Marked(n, name) then
      after == before + [Note(o.newNoteId, o.markdown, None, None)]
    else
      exists k: nat ::
        && IsSelected(before, name, k)
        && |after| == |before|
        && forall j | 0 <= j < |after| ::
             after[j] == if before[j].id == before[k].id then before[j].(body := o.markdown) else before[j]
  }

  /** The commit and merge request on the GitLab side. */
  class GitLab {
    var statuses: seq<CommitState>
    var notes: seq<Note>

    constructor (notes: seq<Note>)
      ensures statuses == [] && this.notes == notes
    {
      statuses, this.notes := [], notes;
    }

    method SetCommitStatus(state: CommitState, outcome: CallOutcome) returns (ok: bool)
      modifies this`statuses
      ensures ok == outcome.Done?
      ensures statuses == old(statuses) + Posted(state, outcome)
    {
      if outcome.NotDone? {
        return false;
      }
      statuses := statuses + [state];
      ok := outcome.Done?;
    }

    method UpdateNote(id: int, body: string, outcome: CallOutcome) returns (ok: bool)
      modifies this`notes
      ensures ok == outcome.Done?
      ensures |notes| == |old(notes)|
      ensures forall j | 0 <= j < |notes| ::
                notes[j] == if outcome.NotDone? || old(notes)[j].id != id then old(notes)[j] else old(notes)[j].(body := body)
    {
      if outcome.NotDone? {
        return false;
      }
      var before := notes;
      notes := seq(|before|, j requires 0 <= j < |before| => if before[j].id == id then before[j].(body := body) else before[j]);
      ok := outcome.Done?;
    }

    method CreateNote(id: int, body: string, outcome: CallOutcome) returns (ok: bool)
      modifies this`notes
      ensures ok == outcome.Done?
      ensures notes == old(notes) + if outcome.NotDone? then [] else [Note(id, body, None, None)]
    {
      if outcome.NotDone? {
        return false;
      }
      notes := notes + [Note(id, body, None, None)];
      ok := outcome.Done?;
    }
  }

  class Runner {
    const gitlab: GitLab
    const hasBreakingClient: bool
    const hasGitLabClient: bool
    const hasGovernanceClient: bool

    constructor (gitlab: GitLab, hasBreakingClient: bool, hasGitLabClient: bool, hasGovernanceClient: bool)
      ensures this.gitlab == gitlab && this.hasBreakingClient == hasBreakingClient
      ensures this.hasGitLabClient == hasGitLabClient && this.hasGovernanceClient == hasGovernanceClient
    {
      this.gitlab, this.hasBreakingClient := gitlab, hasBreakingClient;
      this.hasGitLabClient, this.hasGovernanceClient := hasGitLabClient, hasGovernanceClient;
    }

    method UpsertComment(input: Input, o: Outcomes) returns (ok: bool)
      modifies gitlab`notes
      ensures ok == (!o.listNotesFails && o.writeNote.Done?)
      ensures Upserted(old(gitlab.notes), gitlab.notes, input.moduleName, o)
    {
      if o.listNotesFails {
        return false;
      }
      hide Marked; hide IsSelected;
      ghost var k;
      var existing;
      existing, k := SelectExistingNote(gitlab.notes, input.moduleName);
      if existing.Some? {
        SelectedIsThere(gitlab.notes, input.moduleName, k);
        ok := gitlab.UpdateNote(existing.value.id, o.markdown, o.writeNote);
        assert !o.writeNote.NotDone? ==> IsSelected(old(gitlab.notes), input.moduleName, k);
      } else {
        ok := gitlab.CreateNote(o.newNoteId, o.markdown, o.writeNote);
      }
    }

    method FetchGovernanceStatus(input: Input, report: BreakingReport, o: Outcomes) returns (r: Result<Option<string>, ()>)
      ensures r == GovernanceStatus(input, report, o, hasGovernanceClient)
    {
      if !hasGovernanceClient || TrimSpace(report.id) == "" {
        return Success(None);
      }
      var reply := o.getApproval;
      if reply.NotFound? {
        if !input.governanceEnabled {
          return Success(None);
        }
        reply := o.createApproval;
      }
      if !reply.Found? {
        if !input.governanceEnabled {
          return Success(None);
        }
        return Failure(());
      }
      r := Success(Some(reply.status));
    }

    method FinalState(input: Input, report: BreakingReport, governance: Option<string>) returns (state: CommitState, exitCode: int)
      ensures state == (if Opens(input, report, governance) then Succeeded else Failed)
      ensures !input.governanceEnabled ==> (state == Failed <==> Normalized(report.status) == "breaking")
      ensures exitCode == if Opens(input, report, governance) then EXIT_PASSED else EXIT_BREAKING
    {
      hide ToLower; hide TrimSpace;
      if !input.governanceEnabled {
        if Normalized(report.status) == "breaking" {
          return Failed, EXIT_BREAKING;
        }
        return Succeeded, EXIT_PASSED;
      }
      var status := if governance.Some? then Normalized(governance.value) else "";
      if status == "approved" {
        state, exitCode := Succeeded, EXIT_PASSED;
      } else if status == "pending" {
        state, exitCode := Failed, EXIT_BREAKING;
      } else if status == "rejected" {
        state, exitCode := Failed, EXIT_BREAKING;
      } else if status == "not_required" {
        state, exitCode := Succeeded, EXIT_PASSED;
      } else if Normalized(report.status) == "breaking" {
        state, exitCode := Failed, EXIT_BREAKING;
      } else {
        state, exitCode := Succeeded, EXIT_PASSED;
      }
    }

    /** Reports a failed check; the status is set on a best-effort basis. */
    method HandleError(input: Input, o: Outcomes) returns (exitCode: int)
      modifies gitlab
      ensures exitCode == EXIT_ERROR
      ensures Upserted(old(gitlab.notes), gitlab.notes, input.moduleName, o)
      ensures gitlab.statuses == old(gitlab.statuses) + if input.statusEnabled then Posted(Failed, o.setFailed) else []
    {
      hide Upserted;
      var commented := UpsertComment(input, o);
      if input.statusEnabled {
        var posted := gitlab.SetCommitStatus(Failed, o.setFailed);
      }
      exitCode := EXIT_ERROR;
    }

    /** One check. A run that was answered exits 0 when the gate opens and 1 when it is closed;
        every other run exits 2. The commit goes through running to the gate's state, or to
        failed when the run could not report, as far as GitLab takes the calls; so a run that
        does not exit 0 leaves success behind only when GitLab took the final status but
        reported an error. */
    method Run(input: Input, o: Outcomes) returns (exitCode: int)
      modifies gitlab
      ensures !ValidInput(input, hasBreakingClient, hasGitLabClient) ==>
                exitCode == EXIT_ERROR && gitlab.statuses == old(gitlab.statuses) && gitlab.notes == old(gitlab.notes)
      ensures exitCode == EXIT_PASSED <==>
                && ValidInput(input, hasBreakingClient, hasGitLabClient)
                && Answered(input, o, hasGovernanceClient)
                && GateOpens(input, o, hasGovernanceClient)
      ensures exitCode == EXIT_BREAKING <==>
                && ValidInput(input, hasBreakingClient, hasGitLabClient)
                && Answered(input, o, hasGovernanceClient)
                && !GateOpens(input, o, hasGovernanceClient)
      ensures exitCode == 0 || exitCode == 1 || exitCode == 2
      ensures exitCode != 2 ==>
                && hasBreakingClient && hasGitLabClient
                && TrimSpace(input.moduleName) != "" && TrimSpace(input.against) != "" && input.artifactLength > 0
                && input.projectId > 0 && input.mergeRequestIid > 0
                && (input.statusEnabled ==> TrimSpace(input.commitSha) != "")
                && o.breaking.Some?
                && (!input.governanceEnabled ==> (exitCode == 0 <==> Normalized(o.breaking.value.status) != "breaking"))
                && (input.governanceEnabled && Normalized(o.breaking.value.status) != "breaking" ==>
                      (exitCode == 1 <==>
                         && hasGovernanceClient && TrimSpace(o.breaking.value.id) != ""
                         && (Normalized(Answer(o)) == "pending" || Normalized(Answer(o)) == "rejected")))
      ensures exitCode != 2 && input.statusEnabled ==>
                gitlab.statuses == old(gitlab.statuses) + [Running, if exitCode == 0 then Succeeded else Failed]
      ensures ValidInput(input, hasBreakingClient, hasGitLabClient) && (input.statusEnabled ==> o.setRunning == Done) ==>
                Upserted(old(gitlab.notes), gitlab.notes, input.moduleName, o)
      ensures input.statusEnabled && o.setRunning != Done ==> gitlab.notes == old(gitlab.notes)
      ensures !input.statusEnabled ==> gitlab.statuses == old(gitlab.statuses)
      ensures input.statusEnabled && ValidInput(input, hasBreakingClient, hasGitLabClient) ==>
                gitlab.statuses == old(gitlab.statuses) + Posted(Running, o.setRunning) +
                if o.setRunning != Done then []
                else if !Reported(input, o, hasGovernanceClient) then Posted(Failed, o.setFailed)
                else Posted(if GateOpens(input, o, hasGovernanceClient) then Succeeded else Failed, o.setFinal)
    {
      hide Opens; hide GovernanceStatus; hide TrimSpace; hide Upserted; hide Normalized; hide Answer;
      if !hasBreakingClient || !hasGitLabClient || TrimSpace(input.moduleName) == "" || TrimSpace(input.against) == ""
         || input.artifactLength == 0 || input.projectId <= 0 || input.mergeRequestIid <= 0
         || (input.statusEnabled && TrimSpace(input.commitSha) == "") {
        return EXIT_ERROR;
      }
      if input.statusEnabled {
        var posted := gitlab.SetCommitStatus(Running, o.setRunning);
        if !posted {
          return EXIT_ERROR;
        }
      }
      if o.breaking.None? {
        exitCode := HandleError(input, o);
        return;
      }
      var report := o.breaking.value;
      var governance := FetchGovernanceStatus(input, report, o);
      if governance.Failure? {
        exitCode := HandleError(input, o);
        return;
      }
      var commented := UpsertComment(input, o);
      if !commented {
        if input.statusEnabled {
          var posted := gitlab.SetCommitStatus(Failed, o.setFailed);
        }
        return EXIT_ERROR;
      }
      assert Reported(input, o, hasGovernanceClient);
      if input.governanceEnabled {
        EnabledGateFollowsGovernance(input, o, hasGovernanceClient);
      } else {
        DisabledGateFollowsReport(input, o, hasGovernanceClient);
      }
      var state;
      state, exitCode := FinalState(input, report, governance.value);
      if input.statusEnabled {
        var posted := gitlab.SetCommitStatus(state, o.setFinal);
        if !posted {
          exitCode := EXIT_ERROR;
        }
      }
    }
  }

  lemma SelectedIsThere(notes: seq<Note>, name: string, k: nat)
    requires IsSelected(notes, name, k)
    ensures k < |notes| && notes[k] in notes && Marked(notes[k], name)
  {}
}
