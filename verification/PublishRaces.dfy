/** Publishes that run at the same time: every upload, commit and cleanup delete is one step,
    in any interleaving, and a publish may stop anywhere. */
module PublishRaces {
  import opened Wrappers
  import opened Text
  import opened ArtifactKeys
  import opened PublishSaga

  /** How far a publish has come; a cleanup deletes the source, and then the image when both
      were uploaded. */
  datatype Phase = Checked | SourceUp | BothUp | Cleaning(imageToo: bool) | CleaningImage | Finished

  datatype Client = Client(req: Request, row: VersionRow, phase: Phase)

  datatype World = World(objects: map<string, string>, rows: seq<VersionRow>, clients: map<nat, Client>)

  /** Each call of a step ends as its outcome says. */
  datatype Step =
    | Start(p: nat, req: Request)
    | Upload(p: nat, outcome: CallOutcome)
    | Commit(p: nat, outcome: CallOutcome)
    | Remove(p: nat, outcome: CallOutcome)
    | Crash(p: nat)

  predicate Uploading(phase: Phase) { phase.Checked? || phase.SourceUp? }

  predicate Removing(phase: Phase) { phase.Cleaning? || phase.CleaningImage? }

  /** A publish starts when its checks pass; the unique key of versions refuses a commit when
      the version is there. */
  predicate Enabled(s: World, step: Step) {
    if step.Start? then
      && step.p !in s.clients
      && IsModuleName(TrimSpace(step.req.moduleName)) && TrimSpace(step.req.version) != ""
      && !Exists(s.rows, TrimSpace(step.req.moduleName), TrimSpace(step.req.version))
    else
      && step.p in s.clients
      && match step
         case Upload(p, _) => Uploading(s.clients[p].phase)
         case Commit(p, outcome) =>
           && s.clients[p].phase.BothUp?
           && (Exists(s.rows, s.clients[p].row.moduleName, s.clients[p].row.version) ==> outcome.NotDone?)
         case Remove(p, _) => Removing(s.clients[p].phase)
         case _ => true
  }

  function Apply(hash: string -> string, s: World, step: Step): World
    requires Enabled(s, step)
  {
    if step.Start? then
      var row := NewRow(hash, TrimSpace(step.req.moduleName), TrimSpace(step.req.version), step.req);
      s.(clients := s.clients[step.p := Client(step.req, row, Checked)])
    else
      var c := s.clients[step.p];
      match step
      case Upload(p, outcome) =>
        if c.phase.Checked?
        then World(Put(s.objects, c.row.source.key, c.req.sourceBody, outcome), s.rows,
                   s.clients[p := c.(phase := if outcome.Done? then SourceUp else Finished)])
        else World(Put(s.objects, c.row.image.key, c.req.imageBody, outcome), s.rows,
                   s.clients[p := c.(phase := if outcome.Done? then BothUp else Cleaning(false))])
      case Commit(p, outcome) =>
        World(s.objects, if outcome.NotDone? then s.rows else s.rows + [c.row],
              s.clients[p := c.(phase := if outcome.Done? then Finished else Cleaning(true))])
      case Remove(p, outcome) =>
        if c.phase.Cleaning?
        then World(Delete(s.objects, c.row.source.key, outcome), s.rows,
                   s.clients[p := c.(phase := if c.phase.imageToo then CleaningImage else Finished)])
        else World(Delete(s.objects, c.row.image.key, outcome), s.rows, s.clients[p := c.(phase := Finished)])
      case Crash(p) => s.(clients := s.clients[p := c.(phase := Finished)])
  }

  predicate IsRun(hash: string -> string, s: World, steps: seq<Step>, t: World)
    decreases |steps|
  {
    if steps == [] then t == s
    else Enabled(s, steps[0]) && IsRun(hash, Apply(hash, s, steps[0]), steps[1..], t)
  }

  lemma {:induction false} RunsConcat(hash: string -> string, s: World, a: seq<Step>, t: World, b: seq<Step>, u: World)
    requires IsRun(hash, s, a, t) && IsRun(hash, t, b, u)
    ensures IsRun(hash, s, a + b, u)
    decreases |a|
  {
    hide Enabled; hide Apply;
    if a == [] {
      assert a + b == b;
    } else {
      RunsConcat(hash, Apply(hash, s, a[0]), a[1..], t, b, u);
      assert (a + b)[1..] == a[1..] + b;
    }
  }

  /** The world after the first n steps of a run. */
  function StateAt(hash: string -> string, s: World, steps: seq<Step>, t: World, n: nat): World
    requires IsRun(hash, s, steps, t) && n <= |steps|
    decreases n
  {
    if n == 0 then s else StateAt(hash, Apply(hash, s, steps[0]), steps[1..], t, n - 1)
  }

  lemma {:induction false} StateAtEnabled(hash: string -> string, s: World, steps: seq<Step>, t: World, n: nat)
    requires IsRun(hash, s, steps, t) && n < |steps|
    ensures Enabled(StateAt(hash, s, steps, t, n), steps[n])
    decreases n
  {
    hide Enabled; hide Apply;
    if n > 0 { StateAtEnabled(hash, Apply(hash, s, steps[0]), steps[1..], t, n - 1); }
  }

  // One publish alone

  function CommitOutcome(o: Outcomes): CallOutcome {
    if o.idsFail then NotDone else o.transaction
  }

  /** The steps of one publish whose calls end as the outcomes say. */
  function SoloSteps(p: nat, o: Outcomes): seq<Step> {
    if !o.putSource.Done? then [Upload(p, o.putSource)]
    else if !o.putImage.Done? then [Upload(p, Done), Upload(p, o.putImage), Remove(p, o.deleteSource)]
    else if CommitOutcome(o).Done? then [Upload(p, Done), Upload(p, Done), Commit(p, Done)]
    else [Upload(p, Done), Upload(p, Done), Commit(p, CommitOutcome(o)), Remove(p, o.deleteSource), Remove(p, o.deleteImage)]
  }

  lemma StepFirst(hash: string -> string, s: World, steps: seq<Step>, t: World)
    requires steps != [] && Enabled(s, steps[0]) && IsRun(hash, Apply(hash, s, steps[0]), steps[1..], t)
    ensures IsRun(hash, s, steps, t)
  {}

  lemma NoSteps(hash: string -> string, s: World)
    ensures IsRun(hash, s, [], s)
  {}

  lemma RemovesBoth(hash: string -> string, s: World, p: nat, first: CallOutcome, second: CallOutcome) returns (t: World)
    requires p in s.clients && s.clients[p].phase == Cleaning(true)
    ensures IsRun(hash, s, [Remove(p, first), Remove(p, second)], t)
    ensures t.rows == s.rows
    ensures t.objects == Delete(Delete(s.objects, s.clients[p].row.source.key, first), s.clients[p].row.image.key, second)
  {
    hide IsRun; hide Delete;
    var one := Apply(hash, s, Remove(p, first));
    t := Apply(hash, one, Remove(p, second));
    NoSteps(hash, t);
    assert [Remove(p, second)][1..] == [];
    StepFirst(hash, one, [Remove(p, second)], t);
    assert [Remove(p, first), Remove(p, second)][1..] == [Remove(p, second)];
    StepFirst(hash, s, [Remove(p, first), Remove(p, second)], t);
  }

  lemma CommitsAlone(hash: string -> string, s: World, p: nat, o: Outcomes) returns (t: World)
    requires p in s.clients && s.clients[p].phase.BothUp?
    requires !Exists(s.rows, s.clients[p].row.moduleName, s.clients[p].row.version)
    requires o.putSource.Done? && o.putImage.Done?
    ensures IsRun(hash, s, SoloSteps(p, o)[2..], t)
    ensures var row := s.clients[p].row;
            && t.rows == (if CommitOutcome(o).NotDone? then s.rows else s.rows + [row])
            && t.objects == (if CommitOutcome(o).Done? then s.objects
                             else Delete(Delete(s.objects, row.source.key, o.deleteSource), row.image.key, o.deleteImage))
  {
    hide IsRun; hide Delete; hide Exists;
    var commit := Commit(p, CommitOutcome(o));
    var one := Apply(hash, s, commit);
    if CommitOutcome(o).Done? {
      t := one;
      NoSteps(hash, t);
      assert SoloSteps(p, o)[2..] == [commit] && [commit][1..] == [];
      StepFirst(hash, s, [commit], t);
    } else {
      t := RemovesBoth(hash, one, p, o.deleteSource, o.deleteImage);
      var steps := [commit, Remove(p, o.deleteSource), Remove(p, o.deleteImage)];
      assert SoloSteps(p, o)[2..] == steps && steps[1..] == [Remove(p, o.deleteSource), Remove(p, o.deleteImage)];
      StepFirst(hash, s, steps, t);
    }
  }

  /** With nobody in between, a publish's steps have the effect that one call of the publish
      has. */
  lemma AloneIsOneCall(hash: string -> string, s: World, p: nat, o: Outcomes) returns (t: World)
    requires p in s.clients && s.clients[p].phase.Checked?
    requires !Exists(s.rows, s.clients[p].row.moduleName, s.clients[p].row.version)
    ensures IsRun(hash, s, SoloSteps(p, o), t)
    ensures State(t.objects, t.rows) == After(State(s.objects, s.rows), s.clients[p].row, s.clients[p].req, o)
  {
    hide IsRun; hide Exists; hide Delete; hide Put;
    var steps := SoloSteps(p, o);
    var one := Apply(hash, s, steps[0]);
    if !o.putSource.Done? {
      t := one;
      NoSteps(hash, t);
      assert steps[1..] == [];
    } else {
      var two := Apply(hash, one, steps[1]);
      if !o.putImage.Done? {
        t := Apply(hash, two, steps[2]);
        NoSteps(hash, t);
        assert steps[2..][1..] == [];
        StepFirst(hash, two, steps[2..], t);
      } else {
        t := CommitsAlone(hash, two, p, o);
      }
      assert steps[1..][1..] == steps[2..];
      StepFirst(hash, one, steps[1..], t);
    }
    StepFirst(hash, s, steps, t);
  }

  // Publishes that share no key

  predicate Apart(a: VersionRow, b: VersionRow) {
    a.source.key != b.source.key && a.image.key != b.image.key
  }

  /** No two publishes of the run write the same object. */
  predicate ShareNothing(clients: map<nat, Client>) {
    forall p, q | p in clients && q in clients && p != q :: Apart(clients[p].row, clients[q].row)
  }

  predicate ConsistentAt(hash: string -> string, s: World) {
    Consistent(State(s.objects, s.rows), hash)
  }

  predicate ClientNamed(hash: string -> string, c: Client) {
    && RowNamed(c.row)
    && c.row.source.checksum == hash(c.req.sourceBody) && c.row.image.checksum == hash(c.req.imageBody)
  }

  predicate ClientStored(objects: map<string, string>, hash: string -> string, c: Client) {
    && (c.phase.SourceUp? || c.phase.BothUp? ==> Stored(objects, hash, c.row.source))
    && (c.phase.BothUp? ==> Stored(objects, hash, c.row.image))
  }

  /** An unfinished publish shares no object with a stored version. */
  predicate ClientApart(rows: seq<VersionRow>, c: Client) {
    c.phase != Finished ==> forall r | r in rows :: Apart(c.row, r)
  }

  predicate Invariant(hash: string -> string, s: World) {
    && ConsistentAt(hash, s)
    && (forall p | p in s.clients :: ClientNamed(hash, s.clients[p]))
    && (forall p | p in s.clients :: ClientStored(s.objects, hash, s.clients[p]))
    && (forall p | p in s.clients :: ClientApart(s.rows, s.clients[p]))
  }

  /** Rows of different versions share no object, and a source is never an image. */
  lemma NamedRowsDiffer(a: VersionRow, b: VersionRow)
    requires RowNamed(a) && RowNamed(b)
    ensures a.source.key != b.image.key
    ensures a.moduleName != b.moduleName || a.version != b.version ==> Apart(a, b)
    ensures a.moduleName == b.moduleName && a.version == b.version ==>
              (a.source.key == b.source.key <==> a.source.checksum == b.source.checksum)
              && (a.image.key == b.image.key <==> a.image.checksum == b.image.checksum)
  {
    SourceKeyIsNoImageKey(a.moduleName, a.version, a.source.checksum, b.moduleName, b.version, b.image.checksum);
    if a.moduleName != b.moduleName || a.version != b.version { KeysAreFresh(a, b); }
    SourceKeyIsInjective(a.moduleName, a.version, a.source.checksum, b.moduleName, b.version, b.source.checksum);
    ImageKeyIsInjective(a.moduleName, a.version, a.image.checksum, b.moduleName, b.version, b.image.checksum);
    hide BuildSourceArchiveKey; hide BuildBufImageKey;
  }

  /** Two publishes share an object exactly when they publish the same version with the same
      source or the same image. */
  lemma ApartExactly(a: VersionRow, b: VersionRow)
    requires RowNamed(a) && RowNamed(b)
    ensures Apart(a, b) <==>
            || a.moduleName != b.moduleName || a.version != b.version
            || (a.source.checksum != b.source.checksum && a.image.checksum != b.image.checksum)
  {
    hide RowNamed;
    NamedRowsDiffer(a, b);
  }

  /** Writing or deleting one object leaves a row stored unless the row names it. */
  lemma OtherObjectKeepsRow(objects: map<string, string>, after: map<string, string>, key: string, hash: string -> string, r: VersionRow)
    requires objects - {key} == after - {key} && r.source.key != key && r.image.key != key
    ensures Stored(after, hash, r.source) <==> Stored(objects, hash, r.source)
    ensures Stored(after, hash, r.image) <==> Stored(objects, hash, r.image)
  {
    forall k | k != key
      ensures k in after <==> k in objects
      ensures k in objects ==> after[k] == objects[k]
    {
      assert k in objects - {key} <==> k in objects;
      assert k in after - {key} <==> k in after;
      if k in objects { assert (objects - {key})[k] == objects[k] && (after - {key})[k] == after[k]; }
    }
  }

  /** A step of publish p that changes the object under one of p's own keys. */
  lemma ObjectStep(hash: string -> string, s: World, p: nat, after: map<string, string>, key: string, c: Client)
    requires Invariant(hash, s) && ShareNothing(s.clients) && p in s.clients && s.clients[p].phase != Finished
    requires key == s.clients[p].row.source.key || key == s.clients[p].row.image.key
    requires s.objects - {key} == after - {key}
    requires c == s.clients[p].(phase := c.phase) && ClientStored(after, hash, c)
    ensures Invariant(hash, World(after, s.rows, s.clients[p := c]))
  {
    hide RowNamed; hide Stored;
    var row := s.clients[p].row;
    assert ClientNamed(hash, s.clients[p]);
    forall r | RowNamed(r) && Apart(row, r)
      ensures r.source.key != key && r.image.key != key
    {
      NamedRowsDiffer(row, r);
      NamedRowsDiffer(r, row);
    }
    forall r | r in s.rows
      ensures RowStored(after, hash, r)
    {
      assert ClientApart(s.rows, s.clients[p]);
      OtherObjectKeepsRow(s.objects, after, key, hash, r);
    }
    forall q | q in s.clients && q != p
      ensures ClientStored(after, hash, s.clients[q])
    {
      assert ClientNamed(hash, s.clients[q]) && ClientStored(s.objects, hash, s.clients[q]);
      OtherObjectKeepsRow(s.objects, after, key, hash, s.clients[q].row);
    }
  }

  lemma CommitStep(hash: string -> string, s: World, p: nat, outcome: CallOutcome)
    requires Invariant(hash, s) && ShareNothing(s.clients) && Enabled(s, Commit(p, outcome)) && !outcome.Lost?
    ensures Invariant(hash, Apply(hash, s, Commit(p, outcome)))
  {
    hide RowNamed; hide Stored;
    var c := s.clients[p];
    assert ClientNamed(hash, c) && ClientStored(s.objects, hash, c);
    if outcome.Done? {
      var rows := s.rows + [c.row];
      assert RowsDistinct(rows);
      assert forall r | r in rows :: r in s.rows || r == c.row;
    }
  }

  lemma StartStep(hash: string -> string, s: World, p: nat, req: Request)
    requires IsHash(hash) && Invariant(hash, s) && Enabled(s, Start(p, req))
    ensures Invariant(hash, Apply(hash, s, Start(p, req)))
  {
    hide TrimSpace; hide Stored; hide NewRow;
    var moduleName, version := TrimSpace(req.moduleName), TrimSpace(req.version);
    var row := NewRow(hash, moduleName, version, req);
    NewRowNamed(hash, moduleName, version, req);
    NewRowParts(hash, moduleName, version, req);
    hide RowNamed;
    forall r | r in s.rows
      ensures Apart(row, r)
    {
      NamedRowsDiffer(row, r);
    }
  }

  lemma NewRowParts(hash: string -> string, moduleName: string, version: string, req: Request)
    ensures var row := NewRow(hash, moduleName, version, req);
            && row.moduleName == moduleName && row.version == version
            && row.source.checksum == hash(req.sourceBody) && row.image.checksum == hash(req.imageBody)
  {}

  lemma UploadStep(hash: string -> string, s: World, p: nat, outcome: CallOutcome)
    requires Invariant(hash, s) && ShareNothing(s.clients) && Enabled(s, Upload(p, outcome))
    ensures Invariant(hash, Apply(hash, s, Upload(p, outcome)))
  {
    hide TrimSpace; hide NewRow; hide RowNamed; hide Consistent;
    var t := Apply(hash, s, Upload(p, outcome));
    var c := s.clients[p];
    assert ClientNamed(hash, c) && ClientStored(s.objects, hash, c);
    NamedRowsDiffer(c.row, c.row);
    hide Invariant; hide ShareNothing;
    ObjectStep(hash, s, p, t.objects, if c.phase.Checked? then c.row.source.key else c.row.image.key, t.clients[p]);
  }

  lemma RemoveStep(hash: string -> string, s: World, p: nat, outcome: CallOutcome)
    requires Invariant(hash, s) && ShareNothing(s.clients) && Enabled(s, Remove(p, outcome))
    ensures Invariant(hash, Apply(hash, s, Remove(p, outcome)))
  {
    hide TrimSpace; hide NewRow; hide RowNamed; hide Consistent;
    var t := Apply(hash, s, Remove(p, outcome));
    var c := s.clients[p];
    assert ClientNamed(hash, c) && ClientStored(s.objects, hash, c);
    NamedRowsDiffer(c.row, c.row);
    hide Invariant; hide ShareNothing;
    ObjectStep(hash, s, p, t.objects, if c.phase.Cleaning? then c.row.source.key else c.row.image.key, t.clients[p]);
  }

  lemma CrashStep(hash: string -> string, s: World, p: nat)
    requires Invariant(hash, s) && Enabled(s, Crash(p))
    ensures Invariant(hash, Apply(hash, s, Crash(p)))
  {
    hide RowNamed; hide Consistent; hide Stored;
    assert ClientNamed(hash, s.clients[p]);
  }

  lemma StepKeepsInvariant(hash: string -> string, s: World, step: Step)
    requires IsHash(hash) && Invariant(hash, s) && ShareNothing(s.clients) && Enabled(s, step)
    requires step.Commit? ==> !step.outcome.Lost?
    ensures Invariant(hash, Apply(hash, s, step))
  {
    hide Invariant; hide ShareNothing; hide Enabled; hide Apply; hide IsHash;
    match step {
      case Start(p, req) => StartStep(hash, s, p, req);
      case Upload(p, outcome) => UploadStep(hash, s, p, outcome);
      case Commit(p, outcome) => CommitStep(hash, s, p, outcome);
      case Remove(p, outcome) => RemoveStep(hash, s, p, outcome);
      case Crash(p) => CrashStep(hash, s, p);
    }
  }

  lemma NoClientsYet(hash: string -> string, s: World)
    requires s.clients == map[] && ConsistentAt(hash, s)
    ensures Invariant(hash, s)
  {}

  /** A publish's keys never change. */
  lemma {:induction false} ClientsStay(hash: string -> string, s: World, steps: seq<Step>, t: World)
    requires IsRun(hash, s, steps, t)
    ensures forall p | p in s.clients :: p in t.clients && t.clients[p].row == s.clients[p].row
    decreases |steps|
  {
    hide NewRow; hide TrimSpace; hide Exists; hide IsModuleName;
    if steps != [] { ClientsStay(hash, Apply(hash, s, steps[0]), steps[1..], t); }
  }

  lemma {:induction false} RunKeepsInvariant(hash: string -> string, s: World, steps: seq<Step>, t: World, n: nat)
    requires IsHash(hash) && Invariant(hash, s) && IsRun(hash, s, steps, t) && n <= |steps|
    requires ShareNothing(t.clients) && forall step | step in steps :: !(step.Commit? && step.outcome.Lost?)
    ensures Invariant(hash, StateAt(hash, s, steps, t, n))
    decreases n
  {
    hide Invariant; hide Enabled; hide Apply; hide IsHash;
    if n > 0 {
      ClientsStay(hash, s, steps, t);
      assert steps[0] in steps;
      StepKeepsInvariant(hash, s, steps[0]);
      RunKeepsInvariant(hash, Apply(hash, s, steps[0]), steps[1..], t, n - 1);
    }
  }

  /** In every interleaving of publishes that share no object, with failures, lost uploads and
      crashes anywhere, every stored artifact row names a stored object with its checksum in
      every state, as long as no landed commit is reported as failed. */
  lemma EveryInterleavingKeepsConsistent(hash: string -> string, s: World, steps: seq<Step>, t: World)
    requires IsHash(hash) && IsRun(hash, s, steps, t)
    requires s.clients == map[] && ConsistentAt(hash, s)
    requires ShareNothing(t.clients) && forall step | step in steps :: !(step.Commit? && step.outcome.Lost?)
    ensures ConsistentThroughout(hash, s, steps, t)
  {
    hide ConsistentAt; hide ShareNothing;
    NoClientsYet(hash, s);
    forall n | 0 <= n <= |steps|
      ensures ConsistentAt(hash, StateAt(hash, s, steps, t, n))
    {
      RunKeepsInvariant(hash, s, steps, t, n);
    }
  }

  // All publishes: exactly when the rows stay backed by their objects

  function KeyToRemove(c: Client): string {
    if c.phase.Cleaning? then c.row.source.key else c.row.image.key
  }

  predicate Names(r: VersionRow, key: string) { r.source.key == key || r.image.key == key }

  /** A delete that lands hits no stored row's object, and when a commit lands both uploaded
      objects are still there. */
  predicate Safe(s: World, step: Step)
    requires Enabled(s, step)
  {
    && (step.Remove? && !step.outcome.NotDone? ==> forall r | r in s.rows :: !Names(r, KeyToRemove(s.clients[step.p])))
    && (step.Commit? && !step.outcome.NotDone? ==>
          s.clients[step.p].row.source.key in s.objects && s.clients[step.p].row.image.key in s.objects)
  }

  /** If there is an object under the key it has the checksum. */
  predicate Matches(objects: map<string, string>, hash: string -> string, a: Artifact) {
    a.key in objects ==> hash(objects[a.key]) == a.checksum
  }

  predicate ClientMatches(objects: map<string, string>, hash: string -> string, c: Client) {
    && (c.phase.SourceUp? || c.phase.BothUp? ==> Matches(objects, hash, c.row.source))
    && (c.phase.BothUp? ==> Matches(objects, hash, c.row.image))
  }

  /** Other publishes may delete a publish's objects, or write them again, but not with other
      contents. */
  predicate Tracked(hash: string -> string, s: World) {
    && (forall p | p in s.clients :: ClientNamed(hash, s.clients[p]))
    && (forall p | p in s.clients :: ClientMatches(s.objects, hash, s.clients[p]))
  }

  lemma SameKeySameChecksum(a: VersionRow, b: VersionRow)
    requires RowNamed(a) && RowNamed(b)
    ensures a.source.key == b.source.key ==> a.source.checksum == b.source.checksum
    ensures a.image.key == b.image.key ==> a.image.checksum == b.image.checksum
    ensures a.source.key != b.image.key && a.image.key != b.source.key
  {
    hide RowNamed;
    NamedRowsDiffer(a, b);
    NamedRowsDiffer(b, a);
  }

  /** An upload changes no object that a row names, except to another body with the row's
      checksum. */
  lemma UploadKeepsRow(hash: string -> string, s: World, p: nat, outcome: CallOutcome, r: VersionRow)
    requires Enabled(s, Upload(p, outcome)) && ClientNamed(hash, s.clients[p]) && RowNamed(r)
    ensures var t := Apply(hash, s, Upload(p, outcome));
            && (Stored(s.objects, hash, r.source) ==> Stored(t.objects, hash, r.source))
            && (Stored(s.objects, hash, r.image) ==> Stored(t.objects, hash, r.image))
            && (Matches(s.objects, hash, r.source) ==> Matches(t.objects, hash, r.source))
            && (Matches(s.objects, hash, r.image) ==> Matches(t.objects, hash, r.image))
  {
    hide RowNamed;
    SameKeySameChecksum(s.clients[p].row, r);
  }

  lemma OwnUploadMatches(hash: string -> string, s: World, p: nat, outcome: CallOutcome)
    requires Enabled(s, Upload(p, outcome)) && ClientNamed(hash, s.clients[p])
    requires ClientMatches(s.objects, hash, s.clients[p])
    ensures var t := Apply(hash, s, Upload(p, outcome));
            ClientNamed(hash, t.clients[p]) && ClientMatches(t.objects, hash, t.clients[p])
  {
    hide RowNamed;
    SameKeySameChecksum(s.clients[p].row, s.clients[p].row);
  }

  lemma UploadIsSafe(hash: string -> string, s: World, p: nat, outcome: CallOutcome)
    requires ConsistentAt(hash, s) && Tracked(hash, s) && Enabled(s, Upload(p, outcome))
    ensures var t := Apply(hash, s, Upload(p, outcome)); ConsistentAt(hash, t) && Tracked(hash, t)
  {
    hide RowNamed; hide Stored; hide Matches; hide RowsDistinct;
    var t := Apply(hash, s, Upload(p, outcome));
    OwnUploadMatches(hash, s, p, outcome);
    assert t.rows == s.rows && t.clients.Keys == s.clients.Keys;
    forall r | r in s.rows
      ensures RowStored(t.objects, hash, r)
    {
      UploadKeepsRow(hash, s, p, outcome, r);
    }
    forall q | q in s.clients && q != p
      ensures t.clients[q] == s.clients[q] && ClientNamed(hash, s.clients[q]) && ClientMatches(t.objects, hash, s.clients[q])
    {
      UploadKeepsRow(hash, s, p, outcome, s.clients[q].row);
    }
  }

  lemma RemoveIsExact(hash: string -> string, s: World, p: nat, outcome: CallOutcome)
    requires ConsistentAt(hash, s) && Enabled(s, Remove(p, outcome))
    ensures ConsistentAt(hash, Apply(hash, s, Remove(p, outcome))) <==> Safe(s, Remove(p, outcome))
  {
    hide RowNamed; hide RowsDistinct;
    var key := KeyToRemove(s.clients[p]);
    var t := Apply(hash, s, Remove(p, outcome));
    assert t.rows == s.rows && t.objects == Delete(s.objects, key, outcome);
    if !outcome.NotDone? {
      forall r | r in s.rows
        ensures RowStored(t.objects, hash, r) <==> !Names(r, key)
      {
        assert RowStored(s.objects, hash, r);
      }
    }
  }

  lemma RemoveKeepsTracked(hash: string -> string, s: World, p: nat, outcome: CallOutcome)
    requires Tracked(hash, s) && Enabled(s, Remove(p, outcome))
    ensures Tracked(hash, Apply(hash, s, Remove(p, outcome)))
  {
    hide RowNamed;
    assert ClientNamed(hash, s.clients[p]);
  }

  lemma CommitIsExact(hash: string -> string, s: World, p: nat, outcome: CallOutcome)
    requires ConsistentAt(hash, s) && Tracked(hash, s) && Enabled(s, Commit(p, outcome))
    ensures Tracked(hash, Apply(hash, s, Commit(p, outcome)))
    ensures ConsistentAt(hash, Apply(hash, s, Commit(p, outcome))) <==> Safe(s, Commit(p, outcome))
  {
    hide RowNamed;
    var c := s.clients[p];
    assert ClientNamed(hash, c) && ClientMatches(s.objects, hash, c);
    assert RowStored(s.objects, hash, c.row) <==> c.row.source.key in s.objects && c.row.image.key in s.objects;
    hide Stored;
    if !outcome.NotDone? {
      var rows := s.rows + [c.row];
      assert RowsDistinct(rows);
      assert rows[|s.rows|] == c.row;
      assert forall r | r in rows :: r in s.rows || r == c.row;
    }
  }

  lemma StartIsSafe(hash: string -> string, s: World, p: nat, req: Request)
    requires IsHash(hash) && ConsistentAt(hash, s) && Tracked(hash, s) && Enabled(s, Start(p, req))
    ensures var t := Apply(hash, s, Start(p, req)); ConsistentAt(hash, t) && Tracked(hash, t)
  {
    hide TrimSpace; hide Stored; hide NewRow; hide Matches;
    NewRowNamed(hash, TrimSpace(req.moduleName), TrimSpace(req.version), req);
    NewRowParts(hash, TrimSpace(req.moduleName), TrimSpace(req.version), req);
    hide RowNamed;
  }

  /** From a consistent state, whatever publishes are under way, a step leaves every stored row
      backed by its objects exactly when it is no delete of a stored row's object and no
      commit of a publish whose objects another one has deleted. */
  lemma StepIsExact(hash: string -> string, s: World, step: Step)
    requires IsHash(hash) && ConsistentAt(hash, s) && Tracked(hash, s) && Enabled(s, step)
    ensures Tracked(hash, Apply(hash, s, step))
    ensures ConsistentAt(hash, Apply(hash, s, step)) <==> Safe(s, step)
  {
    hide RowNamed; hide Matches; hide IsHash; hide TrimSpace; hide NewRow;
    match step {
      case Start(p, req) => StartIsSafe(hash, s, p, req);
      case Upload(p, outcome) => UploadIsSafe(hash, s, p, outcome);
      case Commit(p, outcome) => CommitIsExact(hash, s, p, outcome);
      case Remove(p, outcome) =>
        RemoveIsExact(hash, s, p, outcome);
        RemoveKeepsTracked(hash, s, p, outcome);
      case Crash(p) => assert ClientNamed(hash, s.clients[p]);
    }
  }

  predicate SafeAt(hash: string -> string, s: World, steps: seq<Step>, t: World, n: nat)
    requires IsRun(hash, s, steps, t) && n < |steps|
  {
    StateAtEnabled(hash, s, steps, t, n);
    Safe(StateAt(hash, s, steps, t, n), steps[n])
  }

  predicate ConsistentThroughout(hash: string -> string, s: World, steps: seq<Step>, t: World)
    requires IsRun(hash, s, steps, t)
  {
    forall n | 0 <= n <= |steps| :: ConsistentAt(hash, StateAt(hash, s, steps, t, n))
  }

  predicate SafeThroughout(hash: string -> string, s: World, steps: seq<Step>, t: World)
    requires IsRun(hash, s, steps, t)
  {
    forall n | 0 <= n < |steps| :: SafeAt(hash, s, steps, t, n)
  }

  lemma ConsistentFirst(hash: string -> string, s: World, steps: seq<Step>, t: World)
    requires IsRun(hash, s, steps, t) && steps != []
    ensures ConsistentThroughout(hash, s, steps, t) <==>
            ConsistentAt(hash, s) && ConsistentThroughout(hash, Apply(hash, s, steps[0]), steps[1..], t)
  {
    hide ConsistentAt; hide Enabled; hide Apply;
    var next, rest := Apply(hash, s, steps[0]), steps[1..];
    assert StateAt(hash, s, steps, t, 0) == s;
    forall n | 0 <= n <= |rest|
      ensures StateAt(hash, s, steps, t, n + 1) == StateAt(hash, next, rest, t, n)
    {}
    if ConsistentThroughout(hash, s, steps, t) {
      forall n | 0 <= n <= |rest|
        ensures ConsistentAt(hash, StateAt(hash, next, rest, t, n))
      {
        assert ConsistentAt(hash, StateAt(hash, s, steps, t, n + 1));
      }
    }
    if ConsistentAt(hash, s) && ConsistentThroughout(hash, next, rest, t) {
      forall n | 0 <= n <= |steps|
        ensures ConsistentAt(hash, StateAt(hash, s, steps, t, n))
      {
        if n > 0 { assert ConsistentAt(hash, StateAt(hash, next, rest, t, n - 1)); }
      }
    }
  }

  lemma SafeFirst(hash: string -> string, s: World, steps: seq<Step>, t: World)
    requires IsRun(hash, s, steps, t) && steps != []
    ensures SafeThroughout(hash, s, steps, t) <==>
            Safe(s, steps[0]) && SafeThroughout(hash, Apply(hash, s, steps[0]), steps[1..], t)
  {
    hide Safe; hide Enabled; hide Apply;
    var next, rest := Apply(hash, s, steps[0]), steps[1..];
    assert SafeAt(hash, s, steps, t, 0) == Safe(s, steps[0]);
    forall n | 0 <= n < |rest|
      ensures SafeAt(hash, s, steps, t, n + 1) == SafeAt(hash, next, rest, t, n)
    {}
    if SafeThroughout(hash, s, steps, t) {
      forall n | 0 <= n < |rest|
        ensures SafeAt(hash, next, rest, t, n)
      {
        assert SafeAt(hash, s, steps, t, n + 1);
      }
    }
    if Safe(s, steps[0]) && SafeThroughout(hash, next, rest, t) {
      forall n | 0 <= n < |steps|
        ensures SafeAt(hash, s, steps, t, n)
      {
        if n > 0 { assert SafeAt(hash, next, rest, t, n - 1); }
      }
    }
  }

  lemma {:induction false} TrackedRunIsExact(hash: string -> string, s: World, steps: seq<Step>, t: World)
    requires IsHash(hash) && IsRun(hash, s, steps, t) && ConsistentAt(hash, s) && Tracked(hash, s)
    ensures ConsistentThroughout(hash, s, steps, t) <==> SafeThroughout(hash, s, steps, t)
    decreases |steps|
  {
    hide ConsistentAt; hide Tracked; hide Enabled; hide Apply; hide Safe; hide IsHash; hide SafeAt;
    if steps != [] {
      var next, rest := Apply(hash, s, steps[0]), steps[1..];
      StepIsExact(hash, s, steps[0]);
      ConsistentFirst(hash, s, steps, t);
      SafeFirst(hash, s, steps, t);
      assert StateAt(hash, next, rest, t, 0) == next;
      if ConsistentAt(hash, next) {
        TrackedRunIsExact(hash, next, rest, t);
      } else {
        assert !ConsistentAt(hash, StateAt(hash, next, rest, t, 0));
      }
    }
  }

  /** Over every interleaving of any publishes, with failures, lost answers and crashes
      anywhere: every stored artifact row names a stored object with its checksum in every
      state exactly when no landed delete hits an object of a stored row and every landed
      commit finds its two objects still there. */
  lemma ConsistentExactlyWhenSafe(hash: string -> string, s: World, steps: seq<Step>, t: World)
    requires IsHash(hash) && IsRun(hash, s, steps, t)
    requires s.clients == map[] && ConsistentAt(hash, s)
    ensures ConsistentThroughout(hash, s, steps, t) <==> SafeThroughout(hash, s, steps, t)
  {
    TrackedRunIsExact(hash, s, steps, t);
  }

  // Runs in which publishes of one content undo each other

  /** Two publishes of the same content: both pass their checks and the first commits; then
      the second uploads the same objects, is refused and cleans up. */
  function FirstPublishes(req: Request): seq<Step> {
    [Start(0, req), Start(1, req)] + [Upload(0, Done), Upload(0, Done), Commit(0, Done)]
  }

  function SecondIsRefused(): seq<Step> {
    [Upload(1, Done), Upload(1, Done)] + [Commit(1, NotDone), Remove(1, Done), Remove(1, Done)]
  }

  lemma UploadBoth(hash: string -> string, s: World, p: nat) returns (t: World)
    requires p in s.clients && s.clients[p].phase.Checked?
    ensures IsRun(hash, s, [Upload(p, Done), Upload(p, Done)], t)
    ensures t.rows == s.rows && t.clients == s.clients[p := s.clients[p].(phase := BothUp)]
  {
    var steps := [Upload(p, Done), Upload(p, Done)];
    var one := Apply(hash, s, steps[0]);
    t := Apply(hash, one, steps[1]);
    assert steps[1..][1..] == [];
    assert IsRun(hash, t, [], t);
  }

  lemma RefusedRemovesBoth(hash: string -> string, s: World, p: nat) returns (t: World)
    requires p in s.clients && s.clients[p].phase.BothUp?
    ensures IsRun(hash, s, [Commit(p, NotDone), Remove(p, Done), Remove(p, Done)], t)
    ensures t.rows == s.rows
    ensures s.clients[p].row.source.key !in t.objects && s.clients[p].row.image.key !in t.objects
  {
    var steps := [Commit(p, NotDone), Remove(p, Done), Remove(p, Done)];
    var one := Apply(hash, s, steps[0]);
    var two := Apply(hash, one, steps[1]);
    t := Apply(hash, two, steps[2]);
    assert steps[1..] == [Remove(p, Done), Remove(p, Done)] && steps[2..] == [Remove(p, Done)];
    assert IsRun(hash, two, steps[2..], t);
    assert IsRun(hash, one, steps[1..], t);
  }

  lemma StartBoth(hash: string -> string, s: World, req: Request) returns (t: World)
    requires s.clients == map[]
    requires IsModuleName(TrimSpace(req.moduleName)) && TrimSpace(req.version) != ""
    requires !Exists(s.rows, TrimSpace(req.moduleName), TrimSpace(req.version))
    ensures IsRun(hash, s, [Start(0, req), Start(1, req)], t)
    ensures var c := Client(req, NewRow(hash, TrimSpace(req.moduleName), TrimSpace(req.version), req), Checked);
            t == s.(clients := map[0 := c, 1 := c])
  {
    hide TrimSpace; hide NewRow; hide IsModuleName; hide Exists;
    var steps := [Start(0, req), Start(1, req)];
    t := Apply(hash, Apply(hash, s, steps[0]), steps[1]);
    assert steps[1..][1..] == [];
    assert IsRun(hash, t, [], t);
  }

  lemma CommitOne(hash: string -> string, s: World, p: nat)
    requires p in s.clients && s.clients[p].phase.BothUp?
    requires !Exists(s.rows, s.clients[p].row.moduleName, s.clients[p].row.version)
    ensures IsRun(hash, s, [Commit(p, Done)],
                  World(s.objects, s.rows + [s.clients[p].row], s.clients[p := s.clients[p].(phase := Finished)]))
  {
    hide Exists;
    assert [Commit(p, Done)][1..] == [];
  }

  /** Although every upload, delete and commit of both publishes worked, and only the unique
      key refused the second, the published version has lost both its objects. */
  lemma SecondPublishUndoesFirst(hash: string -> string, s: World, req: Request) returns (t: World)
    requires s.clients == map[]
    requires IsModuleName(TrimSpace(req.moduleName)) && TrimSpace(req.version) != ""
    requires !Exists(s.rows, TrimSpace(req.moduleName), TrimSpace(req.version))
    ensures IsRun(hash, s, FirstPublishes(req) + SecondIsRefused(), t)
    ensures var row := NewRow(hash, TrimSpace(req.moduleName), TrimSpace(req.version), req);
            t.rows == s.rows + [row] && row.source.key !in t.objects && row.image.key !in t.objects
    ensures !ConsistentAt(hash, t)
  {
    hide TrimSpace; hide NewRow; hide IsModuleName; hide Exists; hide IsRun; hide Apply; hide Enabled;
    NewRowParts(hash, TrimSpace(req.moduleName), TrimSpace(req.version), req);
    var row := NewRow(hash, TrimSpace(req.moduleName), TrimSpace(req.version), req);
    var started := StartBoth(hash, s, req);
    var uploaded := UploadBoth(hash, started, 0);
    CommitOne(hash, uploaded, 0);
    var committed := World(uploaded.objects, uploaded.rows + [row], uploaded.clients[0 := uploaded.clients[0].(phase := Finished)]);
    RunsConcat(hash, started, [Upload(0, Done), Upload(0, Done)], uploaded, [Commit(0, Done)], committed);
    assert [Upload(0, Done), Upload(0, Done)] + [Commit(0, Done)] == [Upload(0, Done), Upload(0, Done), Commit(0, Done)];
    RunsConcat(hash, s, [Start(0, req), Start(1, req)], started, [Upload(0, Done), Upload(0, Done), Commit(0, Done)], committed);
    var again := UploadBoth(hash, committed, 1);
    t := RefusedRemovesBoth(hash, again, 1);
    RunsConcat(hash, committed, [Upload(1, Done), Upload(1, Done)], again, [Commit(1, NotDone), Remove(1, Done), Remove(1, Done)], t);
    RunsConcat(hash, s, FirstPublishes(req), committed, SecondIsRefused(), t);
    assert t.rows[|s.rows|] == row;
    assert row in t.rows && !RowStored(t.objects, hash, row);
  }

  /** Both upload the same source; the second cannot upload its image and cleans up, before the
      first commits. */
  function SecondGivesUp(req: Request): seq<Step> {
    [Start(0, req), Start(1, req)] + [Upload(0, Done), Upload(0, Done)] + [Upload(1, Done), Upload(1, NotDone)]
  }

  lemma SourceOnly(hash: string -> string, s: World, p: nat) returns (t: World)
    requires p in s.clients && s.clients[p].phase.Checked?
    ensures IsRun(hash, s, [Upload(p, Done), Upload(p, NotDone)], t)
    ensures t.rows == s.rows && t.clients == s.clients[p := s.clients[p].(phase := Cleaning(false))]
  {
    var steps := [Upload(p, Done), Upload(p, NotDone)];
    t := Apply(hash, Apply(hash, s, steps[0]), steps[1]);
    assert steps[1..][1..] == [];
    NoSteps(hash, t);
  }

  lemma RemoveOne(hash: string -> string, s: World, p: nat)
    requires p in s.clients && s.clients[p].phase == Cleaning(false)
    ensures IsRun(hash, s, [Remove(p, Done)],
                  World(s.objects - {s.clients[p].row.source.key}, s.rows, s.clients[p := s.clients[p].(phase := Finished)]))
  {
    assert [Remove(p, Done)][1..] == [];
  }

  /** No stored row names the object when the delete lands, and yet the version published right
      after it has lost its source: the commit is the unsafe step. */
  lemma DeleteBeforeCommit(hash: string -> string, s: World, req: Request) returns (u: World, t: World)
    requires IsHash(hash) && s.clients == map[] && ConsistentAt(hash, s)
    requires IsModuleName(TrimSpace(req.moduleName)) && TrimSpace(req.version) != ""
    requires !Exists(s.rows, TrimSpace(req.moduleName), TrimSpace(req.version))
    ensures IsRun(hash, s, SecondGivesUp(req), u) && Enabled(u, Remove(1, Done)) && Safe(u, Remove(1, Done))
    ensures IsRun(hash, u, [Remove(1, Done)] + [Commit(0, Done)], t)
    ensures var row := NewRow(hash, TrimSpace(req.moduleName), TrimSpace(req.version), req);
            t.rows == s.rows + [row] && row.source.key !in t.objects
    ensures !ConsistentAt(hash, t)
  {
    hide TrimSpace; hide NewRow; hide IsModuleName; hide Exists; hide IsRun; hide IsHash; hide RowNamed;
    var moduleName, version := TrimSpace(req.moduleName), TrimSpace(req.version);
    NewRowParts(hash, moduleName, version, req);
    NewRowNamed(hash, moduleName, version, req);
    var row := NewRow(hash, moduleName, version, req);
    var started := StartBoth(hash, s, req);
    var uploaded := UploadBoth(hash, started, 0);
    u := SourceOnly(hash, uploaded, 1);
    RunsConcat(hash, s, [Start(0, req), Start(1, req)], started, [Upload(0, Done), Upload(0, Done)], uploaded);
    RunsConcat(hash, s, [Start(0, req), Start(1, req)] + [Upload(0, Done), Upload(0, Done)], uploaded,
               [Upload(1, Done), Upload(1, NotDone)], u);
    NewVersionNamesNothing(s.rows, row);
    RemoveOne(hash, u, 1);
    var removed := World(u.objects - {row.source.key}, u.rows, u.clients[1 := u.clients[1].(phase := Finished)]);
    CommitOne(hash, removed, 0);
    t := World(removed.objects, removed.rows + [row], removed.clients[0 := removed.clients[0].(phase := Finished)]);
    RunsConcat(hash, u, [Remove(1, Done)], removed, [Commit(0, Done)], t);
    assert t.rows[|s.rows|] == row;
    assert row in t.rows && !RowStored(t.objects, hash, row);
  }

  lemma NewVersionNamesNothing(rows: seq<VersionRow>, row: VersionRow)
    requires RowNamed(row) && (forall r | r in rows :: RowNamed(r)) && !Exists(rows, row.moduleName, row.version)
    ensures forall r | r in rows :: !Names(r, row.source.key)
  {
    hide RowNamed;
    forall r | r in rows
      ensures !Names(r, row.source.key)
    {
      NamedRowsDiffer(row, r);
    }
  }
}
