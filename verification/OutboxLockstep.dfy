/** The transactional outbox: business rows and outbox records change together or not at
    all, whatever statement fails. */
module OutboxLockstep {
  import opened Wrappers
  import opened Text
  import opened Sequences

  // Business rows and their records

  datatype Row =
    | ModuleRow(id: string, name: string)
    | VersionRow(moduleId: string, version: string)
    | DependencyRow(moduleId: string, version: string, content: string)
    | ReportRow(id: string)
    | RequestRow(id: string, reportId: string)
    | DecisionRow(id: string, requirementId: string)

  function DedupKey(r: Row): string {
    match r
    case ModuleRow(id, _) => "module:" + id + ":created"
    case VersionRow(moduleId, version) => "module:" + moduleId + ":version:" + version + ":published"
    case DependencyRow(moduleId, version, _) => "module:" + moduleId + ":version:" + version + ":dependencies-updated"
    case ReportRow(id) => "breaking-report:" + id + ":created"
    case RequestRow(id, _) => "approval-request:" + id + ":created"
    case DecisionRow(id, _) => "approval-decision:" + id + ":recorded"
  }

  /** Unique constraints: primary keys, module name, (module, version), one request per
      report, one decision per requirement. */
  predicate Clashes(a: Row, b: Row) {
    || (a.ModuleRow? && b.ModuleRow? && (a.id == b.id || a.name == b.name))
    || (a.VersionRow? && b.VersionRow? && a.moduleId == b.moduleId && a.version == b.version)
    || (a.DependencyRow? && b.DependencyRow? && a.moduleId == b.moduleId && a.version == b.version)
    || (a.ReportRow? && b.ReportRow? && a.id == b.id)
    || (a.RequestRow? && b.RequestRow? && (a.id == b.id || a.reportId == b.reportId))
    || (a.DecisionRow? && b.DecisionRow? && (a.id == b.id || a.requirementId == b.requirementId))
  }

  predicate PlainIds(r: Row) {
    match r
    case ModuleRow(id, _) => ':' !in id
    case VersionRow(moduleId, _) => ':' !in moduleId
    case DependencyRow(moduleId, _, _) => ':' !in moduleId
    case _ => true
  }

  /** The database as far as lockstep is concerned; details stand for the rows of the other
      tables a transaction writes. */
  datatype Db = Db(rows: seq<Row>, outbox: seq<string>, details: seq<string>)

  const EMPTY_DB := Db([], [], [])

  // Statements

  datatype Statement =
    | Insert(row: Row)
    | ReplaceDependencies(moduleId: string, version: string, content: string)
    | Detail(text: string)
    | Record(key: string)

  function NotDependency(moduleId: string, version: string): Row -> bool {
    (r: Row) => !(r.DependencyRow? && r.moduleId == moduleId && r.version == version)
  }

  /** One statement; None when a unique constraint refuses it. */
  function Exec(db: Db, s: Statement): Option<Db> {
    match s
    case Insert(row) =>
      if exists r | r in db.rows :: Clashes(r, row) then None else Some(db.(rows := db.rows + [row]))
    case ReplaceDependencies(moduleId, version, content) =>
      Some(db.(rows := Filter(db.rows, NotDependency(moduleId, version)) + [DependencyRow(moduleId, version, content)]))
    case Detail(text) => Some(db.(details := db.details + [text]))
    case Record(key) => if key in db.outbox then None else Some(db.(outbox := db.outbox + [key]))
  }

  function ExecAll(db: Db, statements: seq<Statement>): Option<Db> {
    if statements == [] then Some(db)
    else
      var before := ExecAll(db, statements[..|statements| - 1]);
      if before.None? then None else Exec(before.value, statements[|statements| - 1])
  }

  // Transactions, which may be nested

  datatype Program = Run(statement: Statement) | Within(body: seq<Program>)

  /** A nested transaction joins the outer one: its statements are the outer one's. */
  function Flatten(body: seq<Program>): seq<Statement> {
    if body == [] then []
    else Flatten(body[..|body| - 1]) + FlattenOne(body[|body| - 1])
  }

  function FlattenOne(p: Program): seq<Statement> {
    match p
    case Run(statement) => [statement]
    case Within(body) => Flatten(body)
  }

  /** The k-th statement fails for a reason outside the database's constraints. */
  type Faults = nat -> bool

  predicate NoFault(fails: Faults, from: nat, count: nat) {
    forall k: nat | from <= k < from + count :: !fails(k)
  }

  class Database {
    var db: Db
    var inTransaction: bool
    var executed: nat
    const fails: Faults

    constructor (fails: Faults)
      ensures db == EMPTY_DB && !inTransaction && this.fails == fails
    {
      db, inTransaction, executed, this.fails := EMPTY_DB, false, 0, fails;
    }

    method RunStatement(s: Statement) returns (ok: bool)
      requires inTransaction
      modifies this`db, this`executed
      ensures executed == old(executed) + 1
      ensures ok == (!fails(old(executed)) && Exec(old(db), s).Some?)
      ensures db == if ok then Exec(old(db), s).value else old(db)
    {
      var fault := fails(executed);
      executed := executed + 1;
      if fault {
        return false;
      }
      var after := Exec(db, s);
      if after.None? {
        return false;
      }
      db := after.value;
      ok := true;
    }

    /** Runs a body inside the current transaction, nested ones included, up to the first
        failure. */
    method RunBody(body: seq<Program>) returns (ok: bool)
      requires inTransaction
      modifies this`db, this`executed
      ensures ok ==>
                && executed == old(executed) + |Flatten(body)|
                && (forall k: nat | old(executed) <= k < executed :: !fails(k))
                && ExecAll(old(db), Flatten(body)) == Some(db)
      ensures !ok ==>
                || ExecAll(old(db), Flatten(body)).None?
                || exists k: nat :: old(executed) <= k < old(executed) + |Flatten(body)| && fails(k)
      decreases body
    {
      hide ExecAll; hide Exec; hide Flatten;
      NothingFlat();
      ExecNothing(db);
      for i := 0 to |body|
        invariant executed == old(executed) + |Flatten(body[..i])|
        invariant forall k: nat | old(executed) <= k < executed :: !fails(k)
        invariant ExecAll(old(db), Flatten(body[..i])) == Some(db)
      {
        FlattenSplit(body, i);
        ghost var before := db;
        ghost var from := executed;
        ExecAllConcat(old(db), Flatten(body[..i]), FlattenOne(body[i]));
        ExecAllConcat(old(db), Flatten(body[..i + 1]), Flatten(body[i + 1..]));
        match body[i] {
          case Run(statement) =>
            ExecSingle(db, statement);
            ok := RunStatement(statement);
          case Within(inner) =>
            ok := RunBody(inner);
        }
        if !ok {
          assert (exists k: nat :: from <= k < from + |FlattenOne(body[i])| && fails(k))
                 || ExecAll(before, FlattenOne(body[i])).None?;
          return false;
        }
      }
      assert body[..|body|] == body;
      ok := true;
    }

    /** All or nothing: every statement takes effect, or none does. */
    method WithinTransaction(body: seq<Program>, commit: CallOutcome) returns (ok: bool)
      requires !inTransaction
      modifies this
      ensures !inTransaction
      ensures var ran := ExecAll(old(db), Flatten(body)).Some? && NoFault(fails, old(executed), |Flatten(body)|);
              && ok == (ran && commit == Done)
              && db == if ran && commit != NotDone then ExecAll(old(db), Flatten(body)).value else old(db)
    {
      var snapshot := db;
      inTransaction := true;
      ok := RunBody(body);
      inTransaction := false;
      if !ok || commit == NotDone {
        db := snapshot;
        return false;
      }
      ok := commit == Done;
    }
  }

  lemma NothingFlat()
    ensures Flatten([]) == []
  {}

  lemma ExecNothing(db: Db)
    ensures ExecAll(db, []) == Some(db)
  {}

  lemma ExecSingle(db: Db, s: Statement)
    ensures ExecAll(db, [s]) == Exec(db, s)
  {
    assert [s][..0] == [];
  }

  lemma {:induction false} ExecAllConcat(db: Db, a: seq<Statement>, b: seq<Statement>)
    ensures ExecAll(db, a + b) == if ExecAll(db, a).None? then None else ExecAll(ExecAll(db, a).value, b)
  {
    hide Exec;
    if b == [] {
      assert a + b == a;
    } else {
      ExecAllConcat(db, a, b[..|b| - 1]);
      assert (a + b)[..|a + b| - 1] == a + b[..|b| - 1];
    }
  }

  lemma {:induction false} FlattenConcat(a: seq<Program>, b: seq<Program>)
    ensures Flatten(a + b) == Flatten(a) + Flatten(b)
  {
    if b == [] {
      assert a + b == a;
    } else {
      FlattenConcat(a, b[..|b| - 1]);
      assert (a + b)[..|a + b| - 1] == a + b[..|b| - 1];
    }
  }

  lemma FlattenSplit(body: seq<Program>, i: nat)
    requires i < |body|
    ensures Flatten(body[..i + 1]) == Flatten(body[..i]) + FlattenOne(body[i])
    ensures Flatten(body) == Flatten(body[..i + 1]) + Flatten(body[i + 1..])
  {
    hide Flatten; hide FlattenOne;
    SplitAt(body, i);
    FlattenConcat(body[..i], [body[i]]);
    FlattenSingle(body[i]);
    FlattenConcat(body[..i + 1], body[i + 1..]);
  }

  // Keys

  /** What follows the module id in a module's key. */
  function ModuleTail(r: Row): string
    requires r.ModuleRow? || r.VersionRow? || r.DependencyRow?
  {
    match r
    case ModuleRow(_, _) => "created"
    case VersionRow(_, version) => "version:" + version + ":published"
    case DependencyRow(_, version, _) => "version:" + version + ":dependencies-updated"
  }

  function ModuleIdOf(r: Row): string
    requires r.ModuleRow? || r.VersionRow? || r.DependencyRow?
  {
    if r.ModuleRow? then r.id else r.moduleId
  }

  predicate OfModule(r: Row) { r.ModuleRow? || r.VersionRow? || r.DependencyRow? }

  lemma ModuleKeySplits(r: Row)
    requires OfModule(r)
    ensures DedupKey(r) == "module:" + (ModuleIdOf(r) + [':'] + ModuleTail(r))
  {
    var id := ModuleIdOf(r);
    match r {
      case ModuleRow(_, _) =>
        assert ":created" == [':'] + "created";
        assert DedupKey(r) == "module:" + (id + ([':'] + "created"));
        assert id + ([':'] + "created") == id + [':'] + "created";
      case VersionRow(_, version) =>
        VersionKeySplits(id, version, ":published");
      case DependencyRow(_, version, _) =>
        VersionKeySplits(id, version, ":dependencies-updated");
    }
  }

  lemma VersionKeySplits(id: string, version: string, end: string)
    ensures "module:" + id + ":version:" + version + end == "module:" + (id + [':'] + ("version:" + version + end))
  {
    assert ":version:" == [':'] + "version:";
    assert "module:" + id + ":version:" + version + end == "module:" + (id + ([':'] + ("version:" + version + end)));
    assert id + ([':'] + ("version:" + version + end)) == id + [':'] + ("version:" + version + end);
  }

  lemma TailsAreDistinct(a: Row, b: Row)
    requires OfModule(a) && OfModule(b) && ModuleTail(a) == ModuleTail(b)
    ensures (a.ModuleRow? <==> b.ModuleRow?) && (a.VersionRow? <==> b.VersionRow?)
    ensures !a.ModuleRow? ==> a.version == b.version
  {
    var s, t := ModuleTail(a), ModuleTail(b);
    assert a.ModuleRow? <==> s[0] == 'c';
    assert b.ModuleRow? <==> t[0] == 'c';
    assert a.VersionRow? ==> s[|s| - 3] == 'h';
    assert a.DependencyRow? ==> s[|s| - 3] == 't';
    assert b.VersionRow? ==> t[|t| - 3] == 'h';
    assert b.DependencyRow? ==> t[|t| - 3] == 't';
    if a.VersionRow? && b.VersionRow? {
      SameLengthTail("version:" + a.version, ":published", "version:" + b.version, ":published");
      SamePrefix("version:", a.version, b.version);
    }
    if a.DependencyRow? && b.DependencyRow? {
      SameLengthTail("version:" + a.version, ":dependencies-updated", "version:" + b.version, ":dependencies-updated");
      SamePrefix("version:", a.version, b.version);
    }
  }

  lemma KeyInitials(r: Row)
    ensures |DedupKey(r)| > 9
    ensures OfModule(r) <==> DedupKey(r)[0] == 'm'
    ensures r.ReportRow? <==> DedupKey(r)[0] == 'b'
    ensures r.RequestRow? <==> DedupKey(r)[0] == 'a' && DedupKey(r)[9] == 'r'
    ensures r.DecisionRow? <==> DedupKey(r)[0] == 'a' && DedupKey(r)[9] == 'd'
  {
    match r {
      case ModuleRow(id, _) => ModuleKeySplits(r);
      case VersionRow(_, _) => ModuleKeySplits(r);
      case DependencyRow(_, _, _) => ModuleKeySplits(r);
      case ReportRow(id) => assert DedupKey(r) == "breaking-report:" + (id + ":created");
      case RequestRow(id, _) => assert DedupKey(r) == "approval-request:" + (id + ":created");
      case DecisionRow(id, _) => assert DedupKey(r) == "approval-decision:" + (id + ":recorded");
    }
  }

  /** Rows with the same dedup key are rows of one table that clash: with colon-free module
      ids the keys tell all business rows apart, whatever characters a version holds. */
  lemma SameKeyClashes(a: Row, b: Row)
    requires PlainIds(a) && PlainIds(b) && DedupKey(a) == DedupKey(b)
    ensures Clashes(a, b)
  {
    KeyInitials(a);
    KeyInitials(b);
    if OfModule(a) {
      ModuleKeySplits(a);
      ModuleKeySplits(b);
      hide DedupKey;
      var x, y := ModuleIdOf(a), ModuleIdOf(b);
      SamePrefix("module:", x + [':'] + ModuleTail(a), y + [':'] + ModuleTail(b));
      FirstSeparatorIsUnique(':', x, ModuleTail(a), y, ModuleTail(b));
      TailsAreDistinct(a, b);
    } else {
      OtherKeys(a, b);
    }
  }

  lemma OtherKeys(a: Row, b: Row)
    requires !OfModule(a) && DedupKey(a) == DedupKey(b)
    requires (a.ReportRow? && b.ReportRow?) || (a.RequestRow? && b.RequestRow?) || (a.DecisionRow? && b.DecisionRow?)
    ensures a.id == b.id
  {
    match a {
      case ReportRow(id) =>
        SameLengthTail("breaking-report:" + id, ":created", "breaking-report:" + b.id, ":created");
        SamePrefix("breaking-report:", id, b.id);
      case RequestRow(id, _) =>
        SameLengthTail("approval-request:" + id, ":created", "approval-request:" + b.id, ":created");
        SamePrefix("approval-request:", id, b.id);
      case DecisionRow(id, _) =>
        SameLengthTail("approval-decision:" + id, ":recorded", "approval-decision:" + b.id, ":recorded");
        SamePrefix("approval-decision:", id, b.id);
    }
  }

  // Lockstep

  /** The outbox holds exactly the keys of the business rows, each as often. */
  predicate Lockstep(db: Db) {
    && multiset(db.outbox) == multiset(Map(db.rows, DedupKey))
    && (forall i, j | 0 <= i < j < |db.rows| :: !Clashes(db.rows[i], db.rows[j]))
    && (forall r | r in db.rows :: PlainIds(r))
  }

  /** In lockstep every row has exactly one record, and every record has exactly one row. */
  lemma LockstepMeansOneToOne(db: Db, r: Row, key: string)
    requires Lockstep(db)
    ensures r in db.rows ==> multiset(db.outbox)[DedupKey(r)] == 1
    ensures key in db.outbox ==> exists q :: q in db.rows && DedupKey(q) == key
    ensures multiset(db.outbox)[key] <= 1
  {
    hide DedupKey; hide Clashes; hide PlainIds;
    DistinctKeys(db.rows, key);
    DistinctKeys(db.rows, DedupKey(r));
    if key in db.outbox {
      assert key in multiset(db.outbox);
      var i :| 0 <= i < |db.rows| && Map(db.rows, DedupKey)[i] == key;
      assert db.rows[i] in db.rows;
    }
    if r in db.rows {
      var i :| 0 <= i < |db.rows| && db.rows[i] == r;
      assert Map(db.rows, DedupKey)[i] in multiset(Map(db.rows, DedupKey));
    }
  }

  lemma {:induction false} DistinctKeys(rows: seq<Row>, key: string)
    requires forall i, j | 0 <= i < j < |rows| :: !Clashes(rows[i], rows[j])
    requires forall r | r in rows :: PlainIds(r)
    ensures multiset(Map(rows, DedupKey))[key] <= 1
  {
    hide DedupKey; hide Clashes; hide PlainIds;
    if rows != [] {
      DistinctKeys(rows[1..], key);
      var keys := Map(rows[1..], DedupKey);
      assert Map(rows, DedupKey) == [DedupKey(rows[0])] + keys;
      if DedupKey(rows[0]) == key && key in keys {
        var i :| 0 <= i < |keys| && keys[i] == key;
        assert rows[i + 1] in rows && rows[0] in rows;
        SameKeyClashes(rows[0], rows[i + 1]);
      }
    }
  }

  // The operations' transactions

  datatype Operation =
    | CreateModule(id: string, name: string)
    | Publish(moduleId: string, version: string, dependencies: Option<string>)
    | RebuildDependencies(moduleId: string, version: string, content: string)
    | CheckBreaking(reportId: string)
    | CreateApproval(requestId: string, reportId: string)
    | DecideApproval(decisionId: string, requirementId: string, statusChanges: bool)

  predicate PlainOperation(op: Operation) {
    match op
    case CreateModule(id, _) => ':' !in id
    case Publish(moduleId, _, _) => ':' !in moduleId
    case RebuildDependencies(moduleId, _, _) => ':' !in moduleId
    case _ => true
  }

  function RebuildBody(moduleId: string, version: string, content: string): seq<Program> {
    [Run(ReplaceDependencies(moduleId, version, content)), Run(Record(DedupKey(DependencyRow(moduleId, version, content))))]
  }

  function VersionBody(row: Row): seq<Program> {
    [Run(Insert(row)), Run(Detail("source artifact")), Run(Detail("image artifact")), Run(Detail("buf config"))]
  }

  function BodyOf(op: Operation): seq<Program> {
    match op
    case CreateModule(id, name) => [Run(Insert(ModuleRow(id, name))), Run(Record(DedupKey(ModuleRow(id, name))))]
    case Publish(moduleId, version, dependencies) =>
      VersionBody(VersionRow(moduleId, version)) + [Within([Run(Detail("metadata"))])]
      + (if dependencies.Some? then RebuildBody(moduleId, version, dependencies.value) else [])
      + [Run(Record(DedupKey(VersionRow(moduleId, version))))]
    case RebuildDependencies(moduleId, version, content) => RebuildBody(moduleId, version, content)
    case CheckBreaking(reportId) => [Run(Insert(ReportRow(reportId))), Run(Record(DedupKey(ReportRow(reportId))))]
    case CreateApproval(requestId, reportId) =>
      [Within([Run(Insert(RequestRow(requestId, reportId))), Run(Detail("requirements"))]),
       Run(Detail("creation audit")), Run(Record(DedupKey(RequestRow(requestId, reportId))))]
    case DecideApproval(decisionId, requirementId, statusChanges) =>
      [Run(Insert(DecisionRow(decisionId, requirementId))), Run(Detail("requirement status")), Run(Detail("request status")),
       Run(Detail("decision audit"))]
      + (if statusChanges then [Run(Detail("status audit"))] else [])
      + [Run(Record(DedupKey(DecisionRow(decisionId, requirementId))))]
  }

  // Why they keep lockstep

  /** Only the other tables changed. */
  predicate OnlyDetails(before: Db, after: Db) {
    after.rows == before.rows && after.outbox == before.outbox
  }

  predicate AllDetails(statements: seq<Statement>) {
    forall s | s in statements :: s.Detail?
  }

  lemma {:induction false} DetailsOnly(db: Db, statements: seq<Statement>)
    requires AllDetails(statements)
    ensures ExecAll(db, statements).Some? && OnlyDetails(db, ExecAll(db, statements).value)
  {
    if statements != [] {
      DetailsOnly(db, statements[..|statements| - 1]);
      assert statements[|statements| - 1] in statements;
    }
  }

  lemma RowAndRecord(db: Db, row: Row, details: seq<Statement>)
    requires Lockstep(db) && PlainIds(row) && AllDetails(details)
    ensures var after := ExecAll(db, [Insert(row)] + details + [Record(DedupKey(row))]);
            after.Some? ==> Lockstep(after.value)
  {
    hide DedupKey; hide PlainIds; hide Clashes; hide ExecAll; hide AllDetails; hide Map;
    ExecAllConcat(db, [Insert(row)] + details, [Record(DedupKey(row))]);
    ExecAllConcat(db, [Insert(row)], details);
    ExecSingle(db, Insert(row));
    if Exec(db, Insert(row)).Some? {
      var inserted := Exec(db, Insert(row)).value;
      DetailsOnly(inserted, details);
      ExecSingle(ExecAll(inserted, details).value, Record(DedupKey(row)));
      AddingBoth(db, row);
    }
  }

  lemma AddingBoth(db: Db, row: Row)
    requires Lockstep(db) && PlainIds(row) && forall r | r in db.rows :: !Clashes(r, row)
    ensures multiset(db.outbox + [DedupKey(row)]) == multiset(Map(db.rows + [row], DedupKey))
    ensures forall i, j | 0 <= i < j < |db.rows + [row]| :: !Clashes((db.rows + [row])[i], (db.rows + [row])[j])
  {
    hide DedupKey; hide PlainIds; hide Clashes;
    MapConcat(db.rows, [row], DedupKey);
    assert Map([row], DedupKey) == [DedupKey(row)];
    hide Map;
  }

  lemma DependenciesTwice(db: Db, moduleId: string, version: string, content: string)
    requires Lockstep(db)
    requires exists r :: r in db.rows && !NotDependency(moduleId, version)(r)
    ensures DedupKey(DependencyRow(moduleId, version, content)) in db.outbox
  {
    hide Clashes; hide PlainIds;
    var r :| r in db.rows && !NotDependency(moduleId, version)(r);
    var i :| 0 <= i < |db.rows| && db.rows[i] == r;
    assert Map(db.rows, DedupKey)[i] in multiset(Map(db.rows, DedupKey));
    assert DedupKey(r) in multiset(db.outbox);
  }

  lemma RebuildStatements(db: Db, moduleId: string, version: string, content: string)
    ensures var row := DependencyRow(moduleId, version, content);
            ExecAll(db, [ReplaceDependencies(moduleId, version, content), Record(DedupKey(row))]) ==
            if DedupKey(row) in db.outbox then None
            else Some(db.(rows := Filter(db.rows, NotDependency(moduleId, version)) + [row],
                          outbox := db.outbox + [DedupKey(row)]))
  {
    hide DedupKey;
    var row := DependencyRow(moduleId, version, content);
    var replace := ReplaceDependencies(moduleId, version, content);
    assert [replace, Record(DedupKey(row))] == [replace] + [Record(DedupKey(row))];
    ExecAllConcat(db, [replace], [Record(DedupKey(row))]);
    ExecSingle(db, replace);
    ExecSingle(Exec(db, replace).value, Record(DedupKey(row)));
  }

  lemma RebuildKeepsLockstep(db: Db, moduleId: string, version: string, content: string)
    requires Lockstep(db) && ':' !in moduleId
    ensures var after := ExecAll(db, Flatten(RebuildBody(moduleId, version, content)));
            after.Some? ==> Lockstep(after.value)
  {
    hide DedupKey; hide Clashes;
    var row := DependencyRow(moduleId, version, content);
    FlattenRuns(ReplaceDependencies(moduleId, version, content), Record(DedupKey(row)));
    RebuildStatements(db, moduleId, version, content);
    if DedupKey(row) !in db.outbox {
      if exists r :: r in db.rows && !NotDependency(moduleId, version)(r) {
        DependenciesTwice(db, moduleId, version, content);
      }
      FilterAll(db.rows, NotDependency(moduleId, version));
      NoClash(db.rows, row);
      hide ExecAll; hide Filter;
      AddingBoth(db, row);
    }
  }

  lemma NoClash(rows: seq<Row>, row: Row)
    requires row.DependencyRow? && forall r | r in rows :: NotDependency(row.moduleId, row.version)(r)
    ensures forall r | r in rows :: !Clashes(r, row)
  {
    forall r | r in rows
      ensures !Clashes(r, row)
    {
      assert NotDependency(row.moduleId, row.version)(r);
    }
  }

  lemma FlattenRuns(a: Statement, b: Statement)
    ensures Flatten([Run(a), Run(b)]) == [a, b]
  {
    FlattenConcat([Run(a)], [Run(b)]);
    FlattenSingle(Run(a));
    FlattenSingle(Run(b));
    hide Flatten;
    assert [Run(a), Run(b)] == [Run(a)] + [Run(b)];
  }

  lemma {:induction false} FlattenAllRuns(body: seq<Program>, statements: seq<Statement>)
    requires |body| == |statements| && forall i | 0 <= i < |body| :: body[i] == Run(statements[i])
    ensures Flatten(body) == statements
  {
    if body != [] {
      var n := |body| - 1;
      FlattenAllRuns(body[..n], statements[..n]);
      assert statements == statements[..n] + [statements[n]];
    }
  }

  lemma FlattenFour(a: seq<Program>, b: seq<Program>, c: seq<Program>, d: seq<Program>)
    ensures Flatten(a + b + c + d) == Flatten(a) + Flatten(b) + Flatten(c) + Flatten(d)
  {
    hide Flatten;
    FlattenConcat(a + b + c, d);
    FlattenConcat(a + b, c);
    FlattenConcat(a, b);
  }

  // Publish: the version's row first, then details, the dependencies, and the record

  lemma VersionStatements(row: Row)
    ensures Flatten(VersionBody(row)) ==
            [Insert(row), Detail("source artifact"), Detail("image artifact"), Detail("buf config")]
  {
    FlattenAllRuns(VersionBody(row), [Insert(row), Detail("source artifact"), Detail("image artifact"), Detail("buf config")]);
  }

  lemma MetadataStatements()
    ensures Flatten([Within([Run(Detail("metadata"))])]) == [Detail("metadata")]
  {
    FlattenSingle(Within([Run(Detail("metadata"))]));
    FlattenSingle(Run(Detail("metadata")));
    hide Flatten;
  }

  function PublishDetails(): seq<Statement> {
    [Detail("source artifact"), Detail("image artifact"), Detail("buf config"), Detail("metadata")]
  }

  lemma PublishStatements(moduleId: string, version: string, dependencies: Option<string>)
    ensures Flatten(BodyOf(Publish(moduleId, version, dependencies))) ==
            [Insert(VersionRow(moduleId, version))] + PublishDetails() +
            (if dependencies.Some? then Flatten(RebuildBody(moduleId, version, dependencies.value)) else []) +
            [Record(DedupKey(VersionRow(moduleId, version)))]
  {
    hide DedupKey; hide Flatten; hide RebuildBody; hide VersionBody;
    NothingFlat();
    var row := VersionRow(moduleId, version);
    var middle := if dependencies.Some? then RebuildBody(moduleId, version, dependencies.value) else [];
    var last := Run(Record(DedupKey(row)));
    FlattenFour(VersionBody(row), [Within([Run(Detail("metadata"))])], middle, [last]);
    VersionStatements(row);
    MetadataStatements();
    FlattenSingle(last);
    assert [Insert(row), Detail("source artifact"), Detail("image artifact"), Detail("buf config")] + [Detail("metadata")] ==
           [Insert(row)] + PublishDetails();
  }

  lemma FlattenSingle(p: Program)
    ensures Flatten([p]) == FlattenOne(p)
  {
    assert [p][..0] == [];
  }

  /** Statements that neither read nor write the other's rows can change places. */
  lemma RecordEarlier(db: Db, moduleId: string, version: string, content: string, key: string)
    requires key != DedupKey(DependencyRow(moduleId, version, content))
    ensures var rebuild := [ReplaceDependencies(moduleId, version, content), Record(DedupKey(DependencyRow(moduleId, version, content)))];
            var late, early := ExecAll(db, rebuild + [Record(key)]), ExecAll(db, [Record(key)] + rebuild);
            && (late.Some? <==> early.Some?)
            && (late.Some? ==> late.value.rows == early.value.rows
                               && multiset(late.value.outbox) == multiset(early.value.outbox))
  {
    hide DedupKey;
    var row := DependencyRow(moduleId, version, content);
    var rebuild := [ReplaceDependencies(moduleId, version, content), Record(DedupKey(row))];
    ExecAllConcat(db, rebuild, [Record(key)]);
    ExecAllConcat(db, [Record(key)], rebuild);
    RebuildStatements(db, moduleId, version, content);
    ExecSingle(db, Record(key));
    if Exec(db, Record(key)).Some? {
      RebuildStatements(Exec(db, Record(key)).value, moduleId, version, content);
    }
    if ExecAll(db, rebuild).Some? {
      ExecSingle(ExecAll(db, rebuild).value, Record(key));
    }
  }

  lemma LockstepSame(a: Db, b: Db)
    requires Lockstep(a) && a.rows == b.rows && multiset(a.outbox) == multiset(b.outbox)
    ensures Lockstep(b)
  {
    hide Clashes; hide PlainIds; hide DedupKey;
  }

  lemma VersionAndDependencyKeysDiffer(moduleId: string, version: string, content: string)
    requires ':' !in moduleId
    ensures DedupKey(VersionRow(moduleId, version)) != DedupKey(DependencyRow(moduleId, version, content))
  {
    if DedupKey(VersionRow(moduleId, version)) == DedupKey(DependencyRow(moduleId, version, content)) {
      SameKeyClashes(VersionRow(moduleId, version), DependencyRow(moduleId, version, content));
    }
  }

  lemma PublishKeepsLockstep(db: Db, moduleId: string, version: string, dependencies: Option<string>)
    requires Lockstep(db) && ':' !in moduleId
    ensures var after := ExecAll(db, Flatten(BodyOf(Publish(moduleId, version, dependencies))));
            after.Some? ==> Lockstep(after.value)
  {
    hide DedupKey; hide Clashes; hide ExecAll;
    var row := VersionRow(moduleId, version);
    var details := PublishDetails();
    var start := [Insert(row)] + details;
    var record := [Record(DedupKey(row))];
    PublishStatements(moduleId, version, dependencies);
    RowAndRecord(db, row, details);
    if dependencies.None? {
      assert start + [] + record == start + record;
    } else {
      var content := dependencies.value;
      var rebuild := [ReplaceDependencies(moduleId, version, content), Record(DedupKey(DependencyRow(moduleId, version, content)))];
      FlattenRuns(rebuild[0], rebuild[1]);
      assert start + rebuild + record == start + (rebuild + record);
      assert start + record + rebuild == start + (record + rebuild);
      ExecAllConcat(db, start, rebuild + record);
      ExecAllConcat(db, start, record + rebuild);
      ExecAllConcat(db, start + record, rebuild);
      if ExecAll(db, start).Some? {
        VersionAndDependencyKeysDiffer(moduleId, version, content);
        RecordEarlier(ExecAll(db, start).value, moduleId, version, content, DedupKey(row));
      }
      if ExecAll(db, start + record).Some? {
        RebuildKeepsLockstep(ExecAll(db, start + record).value, moduleId, version, content);
      }
      PublishedInLockstep(ExecAll(db, start + rebuild + record), ExecAll(db, start + record + rebuild));
    }
  }

  lemma PublishedInLockstep(late: Option<Db>, early: Option<Db>)
    requires late.Some? ==> early.Some? && late.value.rows == early.value.rows
                            && multiset(late.value.outbox) == multiset(early.value.outbox)
    requires early.Some? ==> Lockstep(early.value)
    ensures late.Some? ==> Lockstep(late.value)
  {
    hide Clashes; hide PlainIds; hide DedupKey;
    if late.Some? { LockstepSame(early.value, late.value); }
  }

  lemma SimpleBody(db: Db, body: seq<Program>, row: Row, details: seq<Statement>)
    requires Lockstep(db) && PlainIds(row) && AllDetails(details)
    requires Flatten(body) == [Insert(row)] + details + [Record(DedupKey(row))]
    ensures var after := ExecAll(db, Flatten(body)); after.Some? ==> Lockstep(after.value)
  {
    hide DedupKey; hide Clashes; hide ExecAll; hide Flatten;
    RowAndRecord(db, row, details);
  }

  lemma TwoStatements(db: Db, body: seq<Program>, row: Row)
    requires Lockstep(db) && PlainIds(row) && body == [Run(Insert(row)), Run(Record(DedupKey(row)))]
    ensures var after := ExecAll(db, Flatten(body)); after.Some? ==> Lockstep(after.value)
  {
    hide DedupKey; hide Clashes; hide ExecAll; hide Lockstep;
    FlattenRuns(Insert(row), Record(DedupKey(row)));
    assert [Insert(row)] + [] + [Record(DedupKey(row))] == [Insert(row), Record(DedupKey(row))];
    SimpleBody(db, body, row, []);
  }

  lemma ApprovalKeepsLockstep(db: Db, requestId: string, reportId: string)
    requires Lockstep(db)
    ensures var after := ExecAll(db, Flatten(BodyOf(CreateApproval(requestId, reportId))));
            after.Some? ==> Lockstep(after.value)
  {
    hide DedupKey; hide Clashes; hide ExecAll; hide Lockstep;
    var row := RequestRow(requestId, reportId);
    var nested := Within([Run(Insert(row)), Run(Detail("requirements"))]);
    var rest := [Run(Detail("creation audit")), Run(Record(DedupKey(row)))];
    assert BodyOf(CreateApproval(requestId, reportId)) == [nested] + rest;
    FlattenConcat([nested], rest);
    FlattenSingle(nested);
    FlattenRuns(Insert(row), Detail("requirements"));
    FlattenRuns(Detail("creation audit"), Record(DedupKey(row)));
    var details := [Detail("requirements"), Detail("creation audit")];
    assert [Insert(row), Detail("requirements")] + [Detail("creation audit"), Record(DedupKey(row))] ==
           [Insert(row)] + details + [Record(DedupKey(row))];
    SimpleBody(db, BodyOf(CreateApproval(requestId, reportId)), row, details);
  }

  lemma DecisionKeepsLockstep(db: Db, decisionId: string, requirementId: string, statusChanges: bool)
    requires Lockstep(db)
    ensures var after := ExecAll(db, Flatten(BodyOf(DecideApproval(decisionId, requirementId, statusChanges))));
            after.Some? ==> Lockstep(after.value)
  {
    hide DedupKey; hide Clashes; hide ExecAll; hide Lockstep;
    var row := DecisionRow(decisionId, requirementId);
    var details := [Detail("requirement status"), Detail("request status"), Detail("decision audit")] +
                   if statusChanges then [Detail("status audit")] else [];
    var body := BodyOf(DecideApproval(decisionId, requirementId, statusChanges));
    FlattenAllRuns(body, [Insert(row)] + details + [Record(DedupKey(row))]);
    SimpleBody(db, body, row, details);
  }

  /** Every operation's transaction, when it takes effect, keeps rows and records in
      lockstep. */
  lemma OperationKeepsLockstep(db: Db, op: Operation)
    requires Lockstep(db) && PlainOperation(op)
    ensures var after := ExecAll(db, Flatten(BodyOf(op))); after.Some? ==> Lockstep(after.value)
  {
    hide DedupKey; hide Clashes; hide ExecAll; hide Lockstep; hide Flatten;
    match op {
      case CreateModule(id, name) => TwoStatements(db, BodyOf(op), ModuleRow(id, name));
      case Publish(moduleId, version, dependencies) => PublishKeepsLockstep(db, moduleId, version, dependencies);
      case RebuildDependencies(moduleId, version, content) => RebuildKeepsLockstep(db, moduleId, version, content);
      case CheckBreaking(reportId) => TwoStatements(db, BodyOf(op), ReportRow(reportId));
      case CreateApproval(requestId, reportId) => ApprovalKeepsLockstep(db, requestId, reportId);
      case DecideApproval(decisionId, requirementId, changes) => DecisionKeepsLockstep(db, decisionId, requirementId, changes);
    }
  }

  /** A call of an operation: it takes effect unless a statement or the commit fails. */
  datatype Call = Call(op: Operation, takesEffect: bool)

  function After(db: Db, call: Call): Db {
    var after := ExecAll(db, Flatten(BodyOf(call.op)));
    if call.takesEffect && after.Some? then after.value else db
  }

  /** An operation takes effect as a whole exactly when no constraint refuses a statement,
      no statement fails and the commit takes place; it reports success exactly when the
      commit is also reported. Otherwise it leaves the database alone. Lockstep is kept in
      every case. */
  method Perform(database: Database, op: Operation, commit: CallOutcome) returns (ok: bool)
    requires !database.inTransaction && Lockstep(database.db) && PlainOperation(op)
    modifies database
    ensures !database.inTransaction && Lockstep(database.db)
    ensures var body := Flatten(BodyOf(op));
            var noFault := NoFault(database.fails, old(database.executed), |body|);
            && (ok <==> ExecAll(old(database.db), body).Some? && noFault && commit == Done)
            && (ok ==> ExecAll(old(database.db), body) == Some(database.db))
            && database.db == After(old(database.db), Call(op, noFault && commit != NotDone))
  {
    hide Lockstep; hide ExecAll; hide Flatten; hide BodyOf;
    OperationKeepsLockstep(database.db, op);
    ok := database.WithinTransaction(BodyOf(op), commit);
  }

  function AfterAll(db: Db, calls: seq<Call>): Db {
    if calls == [] then db else After(AfterAll(db, calls[..|calls| - 1]), calls[|calls| - 1])
  }

  /** Over all runs, with failures anywhere, the outbox and the business rows agree. */
  lemma {:induction false} EveryRunKeepsLockstep(calls: seq<Call>)
    requires forall c | c in calls :: PlainOperation(c.op)
    ensures Lockstep(AfterAll(EMPTY_DB, calls))
  {
    hide ExecAll; hide Flatten; hide BodyOf;
    if calls != [] {
      hide Lockstep;
      var init, last := calls[..|calls| - 1], calls[|calls| - 1];
      EveryRunKeepsLockstep(init);
      assert last in calls;
      OperationKeepsLockstep(AfterAll(EMPTY_DB, init), last.op);
    }
  }

  /** Rebuilding a version's dependencies by hand takes effect exactly when no dependencies
      were recorded for it before: its record has no second key, so after a publish that
      recorded them the rebuild always fails and changes nothing. */
  lemma RebuildWorksOnce(db: Db, moduleId: string, version: string, content: string)
    requires Lockstep(db) && ':' !in moduleId
    ensures ExecAll(db, Flatten(BodyOf(RebuildDependencies(moduleId, version, content)))).Some? <==>
            forall r | r in db.rows :: NotDependency(moduleId, version)(r)
  {
    hide Clashes; hide PlainIds;
    var row := DependencyRow(moduleId, version, content);
    FlattenRuns(ReplaceDependencies(moduleId, version, content), Record(DedupKey(row)));
    RebuildStatements(db, moduleId, version, content);
    if exists r :: r in db.rows && !NotDependency(moduleId, version)(r) {
      DependenciesTwice(db, moduleId, version, content);
    } else {
      NoDependencyNoRecord(db, row);
    }
  }

  lemma NoDependencyNoRecord(db: Db, row: Row)
    requires Lockstep(db) && row.DependencyRow? && PlainIds(row)
    requires forall r | r in db.rows :: NotDependency(row.moduleId, row.version)(r)
    ensures DedupKey(row) !in db.outbox
  {
    NoClash(db.rows, row);
    if DedupKey(row) in db.outbox {
      LockstepMeansOneToOne(db, row, DedupKey(row));
      var q :| q in db.rows && DedupKey(q) == DedupKey(row);
      SameKeyClashes(q, row);
    }
  }

  lemma {:induction false} ExecAllKeepsRecords(db: Db, statements: seq<Statement>)
    ensures ExecAll(db, statements).Some? ==> db.outbox <= ExecAll(db, statements).value.outbox
  {
    if statements != [] { ExecAllKeepsRecords(db, statements[..|statements| - 1]); }
  }

  lemma {:induction false} AfterAllKeepsRecords(db: Db, calls: seq<Call>)
    ensures db.outbox <= AfterAll(db, calls).outbox
  {
    hide ExecAll; hide Flatten; hide BodyOf;
    if calls != [] {
      var init, last := calls[..|calls| - 1], calls[|calls| - 1];
      AfterAllKeepsRecords(db, init);
      ExecAllKeepsRecords(AfterAll(db, init), Flatten(BodyOf(last.op)));
    }
  }

  /** Once a version's dependencies were recorded, every rebuild by hand fails, whatever
      operations come in between. */
  lemma RecordedIsNeverRebuilt(db: Db, calls: seq<Call>, moduleId: string, version: string, later: string)
    requires DedupKey(DependencyRow(moduleId, version, later)) in db.outbox
    ensures ExecAll(AfterAll(db, calls), Flatten(BodyOf(RebuildDependencies(moduleId, version, later)))).None?
  {
    hide ExecAll; hide DedupKey; hide AfterAll; hide Flatten;
    var row := DependencyRow(moduleId, version, later);
    AfterAllKeepsRecords(db, calls);
    FlattenRuns(ReplaceDependencies(moduleId, version, later), Record(DedupKey(row)));
    RebuildStatements(AfterAll(db, calls), moduleId, version, later);
  }

  /** After a successful publish with dependencies, every rebuild of the same version fails,
      however much later. */
  lemma RebuildAfterPublishFails(db: Db, calls: seq<Call>, moduleId: string, version: string, content: string, later: string)
    requires ExecAll(db, Flatten(BodyOf(Publish(moduleId, version, Some(content))))).Some?
    ensures var published := ExecAll(db, Flatten(BodyOf(Publish(moduleId, version, Some(content))))).value;
            ExecAll(AfterAll(published, calls), Flatten(BodyOf(RebuildDependencies(moduleId, version, later)))).None?
  {
    hide Clashes; hide ExecAll; hide DedupKey; hide Flatten; hide AfterAll;
    PublishStatements(moduleId, version, Some(content));
    var row := VersionRow(moduleId, version);
    var rebuild := [ReplaceDependencies(moduleId, version, content), Record(DedupKey(DependencyRow(moduleId, version, content)))];
    FlattenRuns(rebuild[0], rebuild[1]);
    var start := [Insert(row)] + PublishDetails();
    ExecAllConcat(db, start + rebuild, [Record(DedupKey(row))]);
    ExecAllConcat(db, start, rebuild);
    RebuildStatements(ExecAll(db, start).value, moduleId, version, content);
    var middle := ExecAll(db, start + rebuild).value;
    ExecAllKeepsRecords(middle, [Record(DedupKey(row))]);
    var published := ExecAll(db, Flatten(BodyOf(Publish(moduleId, version, Some(content))))).value;
    SameDependencyKey(moduleId, version, content, later);
    assert DedupKey(DependencyRow(moduleId, version, content)) == middle.outbox[|middle.outbox| - 1];
    RecordedIsNeverRebuilt(published, calls, moduleId, version, later);
  }

  lemma SameDependencyKey(moduleId: string, version: string, content: string, later: string)
    ensures DedupKey(DependencyRow(moduleId, version, content)) == DedupKey(DependencyRow(moduleId, version, later))
  {}
}
