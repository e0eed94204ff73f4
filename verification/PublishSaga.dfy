/** Publishing a version: two uploads, one transaction, and compensating deletes, where any
    step may fail or may take effect and still report an error. */
module PublishSaga {
  import opened Wrappers
  import opened Text
  import opened ArtifactKeys

  datatype Artifact = Artifact(key: string, checksum: string)

  datatype VersionRow = VersionRow(moduleName: string, version: string, source: Artifact, image: Artifact)

  datatype State = State(objects: map<string, string>, rows: seq<VersionRow>)

  datatype Error =
    | InvalidModuleName
    | InvalidVersion
    | ModuleNotFound
    | AlreadyExists
    | BuildFailed
    | StorageFailure
    | TransactionFailed

  datatype Request = Request(moduleName: string, version: string, sourceBody: string, imageBody: string)

  /** What happens around one publish. */
  datatype Outcomes = Outcomes(
    moduleKnown: bool,
    buildFails: bool,
    putSource: CallOutcome,
    putImage: CallOutcome,
    idsFail: bool,
    transaction: CallOutcome,
    deleteSource: CallOutcome,
    deleteImage: CallOutcome)

  ghost predicate IsHash(hash: string -> string) {
    forall body: string :: IsChecksum(hash(body))
  }

  predicate Exists(rows: seq<VersionRow>, moduleName: string, version: string) {
    exists r | r in rows :: r.moduleName == moduleName && r.version == version
  }

  // The invariant

  predicate RowNamed(r: VersionRow) {
    && IsModuleName(r.moduleName) && IsChecksum(r.source.checksum) && IsChecksum(r.image.checksum)
    && r.source.key == BuildSourceArchiveKey(r.moduleName, r.version, r.source.checksum)
    && r.image.key == BuildBufImageKey(r.moduleName, r.version, r.image.checksum)
  }

  predicate Stored(objects: map<string, string>, hash: string -> string, a: Artifact) {
    a.key in objects && hash(objects[a.key]) == a.checksum
  }

  predicate RowStored(objects: map<string, string>, hash: string -> string, r: VersionRow) {
    Stored(objects, hash, r.source) && Stored(objects, hash, r.image)
  }

  predicate RowsDistinct(rows: seq<VersionRow>) {
    forall i, j | 0 <= i < j < |rows| :: rows[i].moduleName != rows[j].moduleName || rows[i].version != rows[j].version
  }

  /** Every artifact row names an object in the store, with the row's checksum. */
  predicate Consistent(s: State, hash: string -> string) {
    && RowsDistinct(s.rows)
    && (forall r | r in s.rows :: RowNamed(r))
    && (forall r | r in s.rows :: RowStored(s.objects, hash, r))
  }

  // One publish, step by step

  function Put(objects: map<string, string>, key: string, body: string, outcome: CallOutcome): map<string, string> {
    if outcome.NotDone? then objects else objects[key := body]
  }

  function Delete(objects: map<string, string>, key: string, outcome: CallOutcome): map<string, string> {
    if outcome.NotDone? then objects else objects - {key}
  }

  function NewRow(hash: string -> string, moduleName: string, version: string, req: Request): VersionRow {
    VersionRow(moduleName, version,
               Artifact(BuildSourceArchiveKey(moduleName, version, hash(req.sourceBody)), hash(req.sourceBody)),
               Artifact(BuildBufImageKey(moduleName, version, hash(req.imageBody)), hash(req.imageBody)))
  }

  predicate Checked(s: State, req: Request, o: Outcomes) {
    && IsModuleName(TrimSpace(req.moduleName)) && TrimSpace(req.version) != ""
    && o.moduleKnown && !Exists(s.rows, TrimSpace(req.moduleName), TrimSpace(req.version))
    && !o.buildFails
  }

  /** The state a publish leaves once its checks passed. */
  function After(s: State, row: VersionRow, req: Request, o: Outcomes): State {
    var one := Put(s.objects, row.source.key, req.sourceBody, o.putSource);
    var two := Put(one, row.image.key, req.imageBody, o.putImage);
    var cleaned := Delete(Delete(two, row.source.key, o.deleteSource), row.image.key, o.deleteImage);
    if !o.putSource.Done? then s.(objects := one)
    else if !o.putImage.Done? then s.(objects := Delete(two, row.source.key, o.deleteSource))
    else if o.idsFail then s.(objects := cleaned)
    else
      match o.transaction
      case Done => State(two, s.rows + [row])
      case NotDone => s.(objects := cleaned)
      case Lost => State(cleaned, s.rows + [row])
  }

  predicate Succeeds(o: Outcomes) {
    o.putSource.Done? && o.putImage.Done? && !o.idsFail && o.transaction.Done?
  }

  class Registry {
    const hash: string -> string
    var objects: map<string, string>
    var rows: seq<VersionRow>

    function Contents(): State
      reads this
    {
      State(objects, rows)
    }

    constructor (hash: string -> string)
      ensures this.hash == hash && Contents() == State(map[], [])
    {
      this.hash, objects, rows := hash, map[], [];
    }

    /** Deletes each key, going on when a delete fails. */
    method CleanupUploadedArtifacts(keys: seq<string>, outcomes: seq<CallOutcome>)
      requires |keys| == |outcomes|
      modifies this`objects
      ensures objects == DeleteAll(old(objects), keys, outcomes)
    {
      for i := 0 to |keys|
        invariant objects == DeleteAll(old(objects), keys[..i], outcomes[..i])
      {
        assert keys[..i + 1][..i] == keys[..i] && outcomes[..i + 1][..i] == outcomes[..i];
        if keys[i] == "" {
          continue;
        }
        objects := Delete(objects, keys[i], outcomes[i]);
      }
      assert keys[..|keys|] == keys && outcomes[..|keys|] == outcomes;
    }

    method PublishModuleVersion(req: Request, o: Outcomes) returns (r: Result<VersionRow, Error>)
      modifies this
      ensures var moduleName, version := TrimSpace(req.moduleName), TrimSpace(req.version);
              if Checked(old(Contents()), req, o) then
                && Contents() == After(old(Contents()), NewRow(hash, moduleName, version, req), req, o)
                && (r.Success? <==> Succeeds(o))
                && (r.Success? ==> r.value == NewRow(hash, moduleName, version, req))
              else r.Failure? && Contents() == old(Contents())
      ensures var moduleName, version := TrimSpace(req.moduleName), TrimSpace(req.version);
              var taken := exists row :: row in old(rows) && row.moduleName == moduleName && row.version == version;
              if !IsModuleName(moduleName) then r == Failure(InvalidModuleName) && Contents() == old(Contents())
              else if version == "" then r == Failure(InvalidVersion) && Contents() == old(Contents())
              else if !o.moduleKnown then r == Failure(ModuleNotFound) && Contents() == old(Contents())
              else if taken then r == Failure(AlreadyExists) && Contents() == old(Contents())
              else if o.buildFails then r == Failure(BuildFailed) && Contents() == old(Contents())
              else if o.putSource != Done || o.putImage != Done || o.idsFail then r == Failure(StorageFailure)
              else if o.transaction != Done then r == Failure(TransactionFailed)
              else r.Success?
      ensures r.Success? && r.value.source.key != r.value.image.key ==>
                && rows == old(rows) + [r.value]
                && r.value.moduleName == TrimSpace(req.moduleName) && r.value.version == TrimSpace(req.version)
                && r.value.source.checksum == hash(req.sourceBody) && r.value.image.checksum == hash(req.imageBody)
                && objects == old(objects)[r.value.source.key := req.sourceBody][r.value.image.key := req.imageBody]
    {
      hide BuildSourceArchiveKey; hide BuildBufImageKey; hide TrimSpace;
      var moduleName, version := TrimSpace(req.moduleName), TrimSpace(req.version);
      if !IsModuleName(moduleName) { return Failure(InvalidModuleName); }
      if version == "" { return Failure(InvalidVersion); }
      if !o.moduleKnown { return Failure(ModuleNotFound); }
      if exists row | row in rows :: row.moduleName == moduleName && row.version == version { return Failure(AlreadyExists); }
      if o.buildFails { return Failure(BuildFailed); }
      var row := NewRow(hash, moduleName, version, req);
      var sourceKey, imageKey := row.source.key, row.image.key;
      KeysPresent(hash, moduleName, version, req);
      objects := Put(objects, sourceKey, req.sourceBody, o.putSource);
      if !o.putSource.Done? {
        return Failure(StorageFailure);
      }
      objects := Put(objects, imageKey, req.imageBody, o.putImage);
      if !o.putImage.Done? {
        DeleteOne(objects, sourceKey, o.deleteSource);
        CleanupUploadedArtifacts([sourceKey], [o.deleteSource]);
        return Failure(StorageFailure);
      }
      DeleteTwo(objects, sourceKey, o.deleteSource, imageKey, o.deleteImage);
      if o.idsFail {
        CleanupUploadedArtifacts([sourceKey, imageKey], [o.deleteSource, o.deleteImage]);
        return Failure(StorageFailure);
      }
      if !o.transaction.NotDone? {
        rows := rows + [row];
      }
      if !o.transaction.Done? {
        CleanupUploadedArtifacts([sourceKey, imageKey], [o.deleteSource, o.deleteImage]);
        return Failure(TransactionFailed);
      }
      r := Success(row);
    }
  }

  function DeleteAll(objects: map<string, string>, keys: seq<string>, outcomes: seq<CallOutcome>): map<string, string>
    requires |keys| == |outcomes|
  {
    if keys == [] then objects
    else
      var n := |keys| - 1;
      var before := DeleteAll(objects, keys[..n], outcomes[..n]);
      if keys[n] == "" then before else Delete(before, keys[n], outcomes[n])
  }

  lemma DeleteOne(objects: map<string, string>, key: string, outcome: CallOutcome)
    requires key != ""
    ensures DeleteAll(objects, [key], [outcome]) == Delete(objects, key, outcome)
  {
    assert [key][..0] == [];
  }

  lemma DeleteTwo(objects: map<string, string>, a: string, first: CallOutcome, b: string, second: CallOutcome)
    requires a != "" && b != ""
    ensures DeleteAll(objects, [a, b], [first, second]) == Delete(Delete(objects, a, first), b, second)
  {
    assert [a, b][..1] == [a] && [first, second][..1] == [first];
    DeleteOne(objects, a, first);
  }

  lemma KeysPresent(hash: string -> string, moduleName: string, version: string, req: Request)
    ensures NewRow(hash, moduleName, version, req).source.key != "" && NewRow(hash, moduleName, version, req).image.key != ""
  {}

  // What a publish means for the rows and objects

  /** A new version's keys are no other version's keys. */
  lemma KeysAreFresh(r: VersionRow, row: VersionRow)
    requires RowNamed(r) && RowNamed(row)
    requires r.moduleName != row.moduleName || r.version != row.version
    ensures r.source.key != row.source.key && r.image.key != row.image.key
    ensures r.source.key != row.image.key && r.image.key != row.source.key
  {
    SourceKeyIsInjective(r.moduleName, r.version, r.source.checksum, row.moduleName, row.version, row.source.checksum);
    ImageKeyIsInjective(r.moduleName, r.version, r.image.checksum, row.moduleName, row.version, row.image.checksum);
    SourceKeyIsNoImageKey(r.moduleName, r.version, r.source.checksum, row.moduleName, row.version, row.image.checksum);
    SourceKeyIsNoImageKey(row.moduleName, row.version, row.source.checksum, r.moduleName, r.version, r.image.checksum);
    hide BuildSourceArchiveKey; hide BuildBufImageKey;
  }

  lemma NewRowNamed(hash: string -> string, moduleName: string, version: string, req: Request)
    requires IsHash(hash) && IsModuleName(moduleName)
    ensures var row := NewRow(hash, moduleName, version, req); RowNamed(row) && row.source.key != row.image.key
  {
    SourceKeyIsNoImageKey(moduleName, version, hash(req.sourceBody), moduleName, version, hash(req.imageBody));
    hide BuildSourceArchiveKey; hide BuildBufImageKey; hide IsChecksum; hide IsModuleName;
  }

  /** Uploads and cleanup touch only the new version's two keys. */
  lemma OtherKeysUntouched(s: State, row: VersionRow, req: Request, o: Outcomes, key: string)
    requires key != row.source.key && key != row.image.key
    ensures key in After(s, row, req, o).objects <==> key in s.objects
    ensures key in s.objects ==> After(s, row, req, o).objects[key] == s.objects[key]
  {}

  /** A stored version keeps its objects through every later publish, whatever fails. */
  lemma OldRowsStayStored(s: State, hash: string -> string, row: VersionRow, req: Request, o: Outcomes, r: VersionRow)
    requires Consistent(s, hash) && RowNamed(row) && !Exists(s.rows, row.moduleName, row.version) && r in s.rows
    ensures RowStored(After(s, row, req, o).objects, hash, r)
  {
    assert RowNamed(r) && RowStored(s.objects, hash, r);
    hide RowNamed; hide After;
    KeysAreFresh(r, row);
    OtherKeysUntouched(s, row, req, o, r.source.key);
    OtherKeysUntouched(s, row, req, o, r.image.key);
  }

  /** The commit landed, its error was taken for a rollback, and a cleanup delete landed. */
  predicate Dangles(o: Outcomes) {
    && o.putSource.Done? && o.putImage.Done? && !o.idsFail
    && o.transaction.Lost? && !(o.deleteSource.NotDone? && o.deleteImage.NotDone?)
  }

  lemma NewRowStored(s: State, hash: string -> string, row: VersionRow, req: Request, o: Outcomes)
    requires row.source.checksum == hash(req.sourceBody) && row.image.checksum == hash(req.imageBody)
    requires row.source.key != row.image.key
    requires o.putSource.Done? && o.putImage.Done? && !o.idsFail && !o.transaction.NotDone?
    ensures After(s, row, req, o).rows == s.rows + [row]
    ensures RowStored(After(s, row, req, o).objects, hash, row) <==> !Dangles(o)
  {}

  lemma NoRowAdded(s: State, row: VersionRow, req: Request, o: Outcomes)
    requires !(o.putSource.Done? && o.putImage.Done? && !o.idsFail && !o.transaction.NotDone?)
    ensures After(s, row, req, o).rows == s.rows
  {}

  /** A publish keeps every artifact row backed by its object exactly when it is not the case
      that a commit lands, reports an error, and is followed by a delete that lands. */
  lemma PublishKeepsConsistent(s: State, hash: string -> string, req: Request, o: Outcomes)
    requires IsHash(hash) && Consistent(s, hash) && Checked(s, req, o)
    ensures var row := NewRow(hash, TrimSpace(req.moduleName), TrimSpace(req.version), req);
            Consistent(After(s, row, req, o), hash) <==> !Dangles(o)
  {
    hide TrimSpace; hide BuildSourceArchiveKey; hide BuildBufImageKey;
    var row := NewRow(hash, TrimSpace(req.moduleName), TrimSpace(req.version), req);
    NewRowNamed(hash, TrimSpace(req.moduleName), TrimSpace(req.version), req);
    var after := After(s, row, req, o);
    forall r | r in s.rows
      ensures RowStored(after.objects, hash, r)
    {
      OldRowsStayStored(s, hash, row, req, o, r);
    }
    if o.putSource.Done? && o.putImage.Done? && !o.idsFail && !o.transaction.NotDone? {
      NewRowStored(s, hash, row, req, o);
      hide After; hide RowNamed; hide RowStored;
      assert after.rows[|s.rows|] == row;
    } else {
      NoRowAdded(s, row, req, o);
    }
  }

  /** A failed publish leaves the rows unchanged unless the commit landed. */
  lemma FailedPublishKeepsRows(s: State, row: VersionRow, req: Request, o: Outcomes)
    requires !Succeeds(o)
    ensures After(s, row, req, o).rows == s.rows <==>
            !(o.putSource.Done? && o.putImage.Done? && !o.idsFail && o.transaction.Lost?)
  {
    assert s.rows + [row] != s.rows;
  }

  /** The source upload is left behind: it landed though it reported an error, after which
      nothing is deleted, or its cleanup delete failed. */
  predicate SourceLeft(o: Outcomes) {
    o.putSource.Lost? || (o.putSource.Done? && o.deleteSource.NotDone?)
  }

  /** The image upload is left behind: it landed though it reported an error, after which
      only the source is deleted, or its cleanup delete failed. */
  predicate ImageLeft(o: Outcomes) {
    o.putSource.Done? && (o.putImage.Lost? || (o.putImage.Done? && o.deleteImage.NotDone?))
  }

  /** A failed publish leaves a new object exactly when an upload reports an error although
      it landed and is not deleted, or a cleanup delete fails. */
  lemma FailedPublishLeavesNothingNew(s: State, row: VersionRow, req: Request, o: Outcomes)
    requires !Succeeds(o) && row.source.key != row.image.key
    requires row.source.key !in s.objects && row.image.key !in s.objects
    ensures row.source.key in After(s, row, req, o).objects <==> SourceLeft(o)
    ensures row.image.key in After(s, row, req, o).objects <==> ImageLeft(o)
    ensures After(s, row, req, o).objects == s.objects <==> !SourceLeft(o) && !ImageLeft(o)
  {}

  // Serial publishes

  datatype Attempt = Attempt(req: Request, outcomes: Outcomes)

  function Step(s: State, hash: string -> string, a: Attempt): State {
    if Checked(s, a.req, a.outcomes)
    then After(s, NewRow(hash, TrimSpace(a.req.moduleName), TrimSpace(a.req.version), a.req), a.req, a.outcomes)
    else s
  }

  function RunFrom(s: State, hash: string -> string, attempts: seq<Attempt>): State {
    if attempts == [] then s
    else Step(RunFrom(s, hash, attempts[..|attempts| - 1]), hash, attempts[|attempts| - 1])
  }

  /** Over all runs of publishes, with any calls failing or landing with an error, every
      stored artifact row names a stored object, as long as no landed commit is followed by
      a cleanup. */
  lemma {:induction false} EveryRunKeepsConsistent(s: State, hash: string -> string, attempts: seq<Attempt>)
    requires IsHash(hash) && Consistent(s, hash)
    requires forall a | a in attempts :: !Dangles(a.outcomes)
    ensures Consistent(RunFrom(s, hash, attempts), hash)
  {
    hide Consistent; hide Checked; hide After; hide NewRow; hide IsHash; hide TrimSpace;
    if attempts != [] {
      var init, last := attempts[..|attempts| - 1], attempts[|attempts| - 1];
      EveryRunKeepsConsistent(s, hash, init);
      var before := RunFrom(s, hash, init);
      if Checked(before, last.req, last.outcomes) {
        assert last in attempts;
        PublishKeepsConsistent(before, hash, last.req, last.outcomes);
      }
    }
  }
}
