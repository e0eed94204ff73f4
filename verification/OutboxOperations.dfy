/** What each operation's transaction leaves in the database, row by row. */
module OutboxOperations {
  import opened Wrappers
  import opened Sequences
  import opened OutboxLockstep

  function TextDetail(text: string): Statement { Detail(text) }

  lemma OneText(text: string)
    ensures Map([], TextDetail) == [] && Map([text], TextDetail) == [Detail(text)]
  {}

  lemma {:induction false} DetailsAppend(db: Db, texts: seq<string>)
    ensures ExecAll(db, Map(texts, TextDetail)) == Some(db.(details := db.details + texts))
  {
    hide ExecAll; hide Map;
    if texts == [] {
      OneText("");
      ExecNothing(db);
      assert db.details + texts == db.details;
    } else {
      var init, last := texts[..|texts| - 1], texts[|texts| - 1];
      DetailsAppend(db, init);
      MapConcat(init, [last], TextDetail);
      assert texts == init + [last];
      OneText(last);
      ExecAllConcat(db, Map(init, TextDetail), [Detail(last)]);
      ExecSingle(db.(details := db.details + init), Detail(last));
      assert db.details + init + [last] == db.details + texts;
    }
  }

  /** A row, details and the row's record: refused when the row clashes or its record exists. */
  lemma RowEffect(db: Db, row: Row, texts: seq<string>)
    ensures ExecAll(db, [Insert(row)] + Map(texts, TextDetail) + [Record(DedupKey(row))]) ==
            if (exists r | r in db.rows :: Clashes(r, row)) || DedupKey(row) in db.outbox then None
            else Some(Db(db.rows + [row], db.outbox + [DedupKey(row)], db.details + texts))
  {
    hide DedupKey; hide Clashes; hide ExecAll; hide Map;
    ExecAllConcat(db, [Insert(row)] + Map(texts, TextDetail), [Record(DedupKey(row))]);
    ExecAllConcat(db, [Insert(row)], Map(texts, TextDetail));
    ExecSingle(db, Insert(row));
    if Exec(db, Insert(row)).Some? {
      var inserted := Exec(db, Insert(row)).value;
      DetailsAppend(inserted, texts);
      ExecSingle(inserted.(details := inserted.details + texts), Record(DedupKey(row)));
    }
  }

  /** Creating a module: refused when the id, the name or the record is taken. */
  lemma CreateModuleEffect(db: Db, id: string, name: string)
    ensures ExecAll(db, Flatten(BodyOf(CreateModule(id, name)))) ==
            if (exists r | r in db.rows :: r.ModuleRow? && (r.id == id || r.name == name))
               || "module:" + id + ":created" in db.outbox then None
            else Some(Db(db.rows + [ModuleRow(id, name)], db.outbox + ["module:" + id + ":created"], db.details))
  {
    hide ExecAll; hide Flatten;
    var row := ModuleRow(id, name);
    FlattenRuns(Insert(row), Record(DedupKey(row)));
    assert [Insert(row)] + Map([], TextDetail) + [Record(DedupKey(row))] == [Insert(row), Record(DedupKey(row))];
    RowEffect(db, row, []);
    assert db.details + [] == db.details;
  }

  /** A breaking check: refused when the id or the record is taken. */
  lemma CheckBreakingEffect(db: Db, reportId: string)
    ensures ExecAll(db, Flatten(BodyOf(CheckBreaking(reportId)))) ==
            if ReportRow(reportId) in db.rows || "breaking-report:" + reportId + ":created" in db.outbox then None
            else Some(Db(db.rows + [ReportRow(reportId)], db.outbox + ["breaking-report:" + reportId + ":created"], db.details))
  {
    hide ExecAll; hide Flatten;
    var row := ReportRow(reportId);
    FlattenRuns(Insert(row), Record(DedupKey(row)));
    assert [Insert(row)] + Map([], TextDetail) + [Record(DedupKey(row))] == [Insert(row), Record(DedupKey(row))];
    RowEffect(db, row, []);
    assert db.details + [] == db.details;
    forall r | r in db.rows
      ensures Clashes(r, row) <==> r == row
    {}
  }

  /** Creating an approval request: refused when the id, the report or the record is taken. */
  lemma CreateApprovalEffect(db: Db, requestId: string, reportId: string)
    ensures ExecAll(db, Flatten(BodyOf(CreateApproval(requestId, reportId)))) ==
            if (exists r | r in db.rows :: r.RequestRow? && (r.id == requestId || r.reportId == reportId))
               || "approval-request:" + requestId + ":created" in db.outbox then None
            else Some(Db(db.rows + [RequestRow(requestId, reportId)],
                         db.outbox + ["approval-request:" + requestId + ":created"],
                         db.details + ["requirements", "creation audit"]))
  {
    hide ExecAll; hide Flatten;
    var row := RequestRow(requestId, reportId);
    ApprovalStatements(requestId, reportId);
    var texts := ["requirements", "creation audit"];
    assert Map(texts, TextDetail) == [Detail("requirements"), Detail("creation audit")];
    RowEffect(db, row, texts);
  }

  lemma ApprovalStatements(requestId: string, reportId: string)
    ensures var row := RequestRow(requestId, reportId);
            Flatten(BodyOf(CreateApproval(requestId, reportId))) ==
            [Insert(row)] + [Detail("requirements"), Detail("creation audit")] + [Record(DedupKey(row))]
  {
    hide DedupKey; hide Flatten;
    var row := RequestRow(requestId, reportId);
    var nested := Within([Run(Insert(row)), Run(Detail("requirements"))]);
    var rest := [Run(Detail("creation audit")), Run(Record(DedupKey(row)))];
    assert BodyOf(CreateApproval(requestId, reportId)) == [nested] + rest;
    FlattenConcat([nested], rest);
    FlattenSingle(nested);
    FlattenRuns(Insert(row), Detail("requirements"));
    FlattenRuns(Detail("creation audit"), Record(DedupKey(row)));
    assert FlattenOne(nested) == [Insert(row), Detail("requirements")];
  }

  /** Deciding: refused when the id, the requirement or the record is taken. */
  lemma DecideApprovalEffect(db: Db, decisionId: string, requirementId: string, statusChanges: bool)
    ensures ExecAll(db, Flatten(BodyOf(DecideApproval(decisionId, requirementId, statusChanges)))) ==
            if (exists r | r in db.rows :: r.DecisionRow? && (r.id == decisionId || r.requirementId == requirementId))
               || "approval-decision:" + decisionId + ":recorded" in db.outbox then None
            else Some(Db(db.rows + [DecisionRow(decisionId, requirementId)],
                         db.outbox + ["approval-decision:" + decisionId + ":recorded"],
                         db.details + ["requirement status", "request status", "decision audit"]
                         + if statusChanges then ["status audit"] else []))
  {
    hide ExecAll; hide Flatten;
    var row := DecisionRow(decisionId, requirementId);
    var texts := ["requirement status", "request status", "decision audit"] + if statusChanges then ["status audit"] else [];
    var body := BodyOf(DecideApproval(decisionId, requirementId, statusChanges));
    var statements := [Insert(row)] + Map(texts, TextDetail) + [Record(DedupKey(row))];
    FlattenAllRuns(body, statements);
    RowEffect(db, row, texts);
    assert db.details + texts == db.details + ["requirement status", "request status", "decision audit"]
                                 + if statusChanges then ["status audit"] else [];
  }

  /** Rebuilding dependencies: refused when the record is taken; otherwise the version's old
      dependency row is replaced. */
  lemma RebuildEffect(db: Db, moduleId: string, version: string, content: string)
    ensures var key := "module:" + moduleId + ":version:" + version + ":dependencies-updated";
            ExecAll(db, Flatten(BodyOf(RebuildDependencies(moduleId, version, content)))) ==
            if key in db.outbox then None
            else Some(db.(rows := Filter(db.rows, NotDependency(moduleId, version)) + [DependencyRow(moduleId, version, content)],
                          outbox := db.outbox + [key]))
  {
    hide ExecAll; hide Flatten;
    var row := DependencyRow(moduleId, version, content);
    FlattenRuns(ReplaceDependencies(moduleId, version, content), Record(DedupKey(row)));
    RebuildStatements(db, moduleId, version, content);
  }

  /** Which rows a replacement keeps. */
  lemma ReplacedRows(rows: seq<Row>, moduleId: string, version: string, r: Row)
    ensures r in Filter(rows, NotDependency(moduleId, version)) <==>
            r in rows && (r.DependencyRow? ==> r.moduleId != moduleId || r.version != version)
  {
    FilterMembers(rows, NotDependency(moduleId, version));
    hide Filter;
  }

  /** Publishing without dependencies: refused when the version or its record is there. */
  lemma PublishEffect(db: Db, moduleId: string, version: string)
    ensures var key := "module:" + moduleId + ":version:" + version + ":published";
            ExecAll(db, Flatten(BodyOf(Publish(moduleId, version, None)))) ==
            if VersionRow(moduleId, version) in db.rows || key in db.outbox then None
            else Some(Db(db.rows + [VersionRow(moduleId, version)], db.outbox + [key],
                         db.details + ["source artifact", "image artifact", "buf config", "metadata"]))
  {
    hide ExecAll; hide Flatten;
    var row := VersionRow(moduleId, version);
    var texts := ["source artifact", "image artifact", "buf config", "metadata"];
    PublishStatements(moduleId, version, None);
    assert PublishDetails() == Map(texts, TextDetail);
    assert [Insert(row)] + PublishDetails() + [] + [Record(DedupKey(row))] ==
           [Insert(row)] + Map(texts, TextDetail) + [Record(DedupKey(row))];
    RowEffect(db, row, texts);
    forall r | r in db.rows
      ensures Clashes(r, row) <==> r == row
    {}
  }

  /** Publishing with dependencies also replaces the version's dependency row, and is refused
      when that record is there. */
  lemma PublishWithDependenciesEffect(db: Db, moduleId: string, version: string, content: string)
    requires ':' !in moduleId
    ensures var key := "module:" + moduleId + ":version:" + version + ":published";
            var depKey := "module:" + moduleId + ":version:" + version + ":dependencies-updated";
            ExecAll(db, Flatten(BodyOf(Publish(moduleId, version, Some(content))))) ==
            if VersionRow(moduleId, version) in db.rows || key in db.outbox || depKey in db.outbox then None
            else Some(Db(Filter(db.rows, NotDependency(moduleId, version))
                         + [VersionRow(moduleId, version)] + [DependencyRow(moduleId, version, content)],
                         db.outbox + [depKey] + [key],
                         db.details + ["source artifact", "image artifact", "buf config", "metadata"]))
  {
    hide ExecAll; hide Flatten; hide Filter;
    var row, dep := VersionRow(moduleId, version), DependencyRow(moduleId, version, content);
    var texts := ["source artifact", "image artifact", "buf config", "metadata"];
    VersionAndDependencyKeysDiffer(moduleId, version, content);
    PublishStatements(moduleId, version, Some(content));
    var start, record := [Insert(row)] + PublishDetails(), [Record(DedupKey(row))];
    var rebuild := [ReplaceDependencies(moduleId, version, content), Record(DedupKey(dep))];
    FlattenRuns(rebuild[0], rebuild[1]);
    ExecAllConcat(db, start + rebuild, record);
    ExecAllConcat(db, start, rebuild);
    ExecAllConcat(db, [Insert(row)], PublishDetails());
    ExecSingle(db, Insert(row));
    assert PublishDetails() == Map(texts, TextDetail);
    forall r | r in db.rows
      ensures Clashes(r, row) <==> r == row
    {}
    if row !in db.rows {
      var inserted := Exec(db, Insert(row)).value;
      DetailsAppend(inserted, texts);
      var before := inserted.(details := inserted.details + texts);
      RebuildStatements(before, moduleId, version, content);
      VersionIsKept(db.rows, row);
      if DedupKey(dep) !in db.outbox {
        ExecSingle(ExecAll(before, rebuild).value, Record(DedupKey(row)));
      }
    }
  }

  lemma VersionIsKept(rows: seq<Row>, row: Row)
    requires row.VersionRow?
    ensures Filter(rows + [row], NotDependency(row.moduleId, row.version)) ==
            Filter(rows, NotDependency(row.moduleId, row.version)) + [row]
  {
    FilterConcat(rows, [row], NotDependency(row.moduleId, row.version));
    assert Filter([row], NotDependency(row.moduleId, row.version)) == [row];
  }
}
