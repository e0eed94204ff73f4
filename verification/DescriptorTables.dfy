/** The tables stay consistent, and saving one version leaves what is stored for every
    other file alone. */
module DescriptorTables {
  import opened Wrappers
  import opened Sequences
  import opened DescriptorMetadata
  import opened DescriptorRows
  import opened DescriptorLoad
  import opened DescriptorRebuild

  // Consistency: ids were issued, and no id was issued twice

  predicate FilesValid(t: Tables) {
    && (forall r | r in t.files :: r.id < t.nextFile)
    && (forall a, b | a in t.files && b in t.files :: a.id == b.id ==> a == b)
    && (forall r | r in t.imports :: r.owner < t.nextFile)
  }

  predicate ServicesValid(t: Tables) {
    && (forall r | r in t.services :: r.id < t.nextService && r.fileId < t.nextFile)
    && (forall a, b | a in t.services && b in t.services :: a.id == b.id ==> a == b)
    && (forall r | r in t.methods :: r.owner < t.nextService)
  }

  predicate MessagesValid(t: Tables) {
    && Buildable(t)
    && (forall r | r in t.messages :: r.fileId < t.nextFile)
    && (forall a, b | a in t.messages && b in t.messages :: a.id == b.id ==> a == b)
    && (forall r | r in t.fields :: r.owner < t.nextMessage)
  }

  predicate EnumsValid(t: Tables) {
    && (forall r | r in t.enums :: r.id < t.nextEnum && r.fileId < t.nextFile)
    && (forall a, b | a in t.enums && b in t.enums :: a.id == b.id ==> a == b)
    && (forall r | r in t.values :: r.owner < t.nextEnum)
  }

  predicate Valid(t: Tables) {
    FilesValid(t) && ServicesValid(t) && MessagesValid(t) && EnumsValid(t)
  }

  // The new rows, table by table

  lemma {:induction false} ServiceRowsAt(v: VersionId, f: Id, packageName: string, services: seq<ProtoService>, start: Id)
    ensures var rows := ServiceRows(v, f, packageName, services, start);
            && |rows| == |services|
            && forall i | 0 <= i < |rows| ::
                 rows[i] == ServiceRow(start + i, v, f, packageName, services[i].name, services[i].fullName)
  {
    if services != [] { ServiceRowsAt(v, f, packageName, services[..|services| - 1], start); }
  }

  lemma {:induction false} EnumRowsAt(v: VersionId, f: Id, packageName: string, enums: seq<ProtoEnum>, start: Id)
    ensures var rows := EnumRows(v, f, packageName, enums, start);
            && |rows| == |enums|
            && forall i | 0 <= i < |rows| ::
                 rows[i] == EnumRow(start + i, v, f, packageName, enums[i].name, enums[i].fullName)
  {
    if enums != [] { EnumRowsAt(v, f, packageName, enums[..|enums| - 1], start); }
  }

  lemma MessageRowsAt(v: VersionId, f: Id, packageName: string, messages: seq<ProtoMessage>, start: Id)
    ensures var nodes := Nodes(messages, None, start);
            var rows := Map(nodes, MessageRowOf(v, f, packageName));
            && |rows| == |nodes| == MessageTotal(messages)
            && forall i | 0 <= i < |rows| ::
                 && rows[i] == MessageRowOf(v, f, packageName)(nodes[i])
                 && rows[i].id == start + i
                 && (rows[i].parentId.Some? ==> rows[i].parentId.value < rows[i].id)
  {
    var nodes := Nodes(messages, None, start);
    NodeCount(messages, None, start);
    NodeRange(messages, None, start);
    hide Nodes; hide MessageTotal; hide FieldGroups;
    forall i | 0 <= i < |nodes|
      ensures nodes[i].id == start + i
      ensures nodes[i].parentId.Some? ==> nodes[i].parentId.value < nodes[i].id
    {
      NodesNumbered(messages, None, start, i);
      assert nodes[i] in nodes;
    }
  }

  lemma {:induction false} OwnOwner<T>(owner: Id, items: seq<T>)
    ensures forall r | r in Own(owner, items) :: r.owner == owner
  {
    if items != [] { OwnOwner(owner, items[..|items| - 1]); }
  }

  lemma {:induction false} OwnersInRange<T>(groups: seq<seq<T>>, start: Id)
    ensures forall r | r in OwnedRows(groups, start) :: start <= r.owner < start + |groups|
  {
    if groups != [] {
      OwnersInRange(groups[..|groups| - 1], start);
      OwnOwner(start + |groups| - 1, groups[|groups| - 1]);
    }
  }

  function FileMessageRows(t: Tables, v: VersionId, file: ProtoFile): seq<MessageRow> {
    Map(Nodes(file.messages, None, t.nextMessage), MessageRowOf(v, t.nextFile, file.packageName))
  }

  function FileEnumRows(t: Tables, v: VersionId, file: ProtoFile): seq<EnumRow> {
    EnumRows(v, t.nextFile, file.packageName, FileEnums(file), t.nextEnum)
  }

  function FileServiceRows(t: Tables, v: VersionId, file: ProtoFile): seq<ServiceRow> {
    ServiceRows(v, t.nextFile, file.packageName, file.services, t.nextService)
  }

  /** Saving a file appends to every table: one file row, and the rows of its imports,
      services, messages and enums at any depth. */
  lemma AddFileAppends(t: Tables, v: VersionId, file: ProtoFile)
    ensures AddFile(t, v, file) ==
            Tables(t.files + [FileRow(t.nextFile, v, file.path, file.packageName, file.syntax)],
                   t.imports + Own(t.nextFile, file.imports),
                   t.services + FileServiceRows(t, v, file),
                   t.methods + OwnedRows(Map(file.services, MethodsOf), t.nextService),
                   t.messages + FileMessageRows(t, v, file),
                   t.fields + OwnedRows(FieldGroups(file.messages), t.nextMessage),
                   t.enums + FileEnumRows(t, v, file),
                   t.values + OwnedRows(Map(FileEnums(file), ValuesOf), t.nextEnum),
                   t.nextFile + 1,
                   t.nextService + |file.services|,
                   t.nextMessage + MessageTotal(file.messages),
                   t.nextEnum + |FileEnums(file)|)
  {
    var rowed := AddServices(AddFileRow(t, v, file), v, t.nextFile, file.packageName, file.services);
    var withMessages := AddMessageRows(rowed, v, t.nextFile, file.packageName, file.messages, None);
    AddEnumsConcat(withMessages, v, t.nextFile, file.packageName, ForestEnums(file.messages), file.enums);
    hide ServiceRows; hide EnumRows; hide OwnedRows; hide Own; hide Map; hide Nodes; hide MessageTotal; hide FieldGroups;
    hide ForestEnums; hide MessageRowOf;
  }

  lemma AddFileValid(t: Tables, v: VersionId, file: ProtoFile)
    requires Valid(t)
    ensures Valid(AddFile(t, v, file))
  {
    AddFileAppends(t, v, file);
    var after := AddFile(t, v, file);
    hide AddFile; hide ServiceRows; hide EnumRows; hide OwnedRows; hide Own; hide Map; hide Nodes; hide MessageTotal;
    hide FieldGroups; hide FileEnums;
    AddedFiles(t, after, v, file);
    AddedServices(t, after, v, file);
    AddedMessages(t, after, v, file);
    AddedEnums(t, after, v, file);
  }

  lemma AddedFiles(t: Tables, after: Tables, v: VersionId, file: ProtoFile)
    requires FilesValid(t) && after.nextFile == t.nextFile + 1
    requires after.files == t.files + [FileRow(t.nextFile, v, file.path, file.packageName, file.syntax)]
    requires after.imports == t.imports + Own(t.nextFile, file.imports)
    ensures FilesValid(after)
  {
    hide Own;
    OwnOwner(t.nextFile, file.imports);
  }

  lemma AddedServices(t: Tables, after: Tables, v: VersionId, file: ProtoFile)
    requires ServicesValid(t) && after.nextFile == t.nextFile + 1 && after.nextService == t.nextService + |file.services|
    requires after.services == t.services + FileServiceRows(t, v, file)
    requires after.methods == t.methods + OwnedRows(Map(file.services, MethodsOf), t.nextService)
    ensures ServicesValid(after)
  {
    ServiceRowsAt(v, t.nextFile, file.packageName, file.services, t.nextService);
    OwnersInRange(Map(file.services, MethodsOf), t.nextService);
    hide ServiceRows; hide OwnedRows;
    FreshService(t, after, v, file);
  }

  lemma FreshService(t: Tables, after: Tables, v: VersionId, file: ProtoFile)
    requires ServicesValid(t)
    requires after.services == t.services + FileServiceRows(t, v, file)
    ensures forall r | r in after.services ::
              r in t.services || (t.nextService <= r.id < t.nextService + |file.services| && r.fileId == t.nextFile)
    ensures forall a, b | a in after.services && b in after.services :: a.id == b.id ==> a == b
  {
    ServiceRowsAt(v, t.nextFile, file.packageName, file.services, t.nextService);
    hide ServiceRows;
  }

  lemma AddedMessages(t: Tables, after: Tables, v: VersionId, file: ProtoFile)
    requires MessagesValid(t) && after.nextFile == t.nextFile + 1
    requires after.nextMessage == t.nextMessage + MessageTotal(file.messages)
    requires after.messages == t.messages + FileMessageRows(t, v, file)
    requires after.fields == t.fields + OwnedRows(FieldGroups(file.messages), t.nextMessage)
    ensures MessagesValid(after)
  {
    hide MessageTotal; hide OwnedRows; hide FieldGroups; hide Nodes; hide Map;
    FieldGroupCount(file.messages);
    OwnersInRange(FieldGroups(file.messages), t.nextMessage);
    FreshMessage(t, after, v, file);
  }

  lemma FreshMessage(t: Tables, after: Tables, v: VersionId, file: ProtoFile)
    requires MessagesValid(t)
    requires after.messages == t.messages + FileMessageRows(t, v, file)
    ensures forall r | r in after.messages ::
              r in t.messages || (&& t.nextMessage <= r.id < t.nextMessage + MessageTotal(file.messages)
                                  && r.fileId == t.nextFile
                                  && (r.parentId.Some? ==> r.parentId.value < r.id))
    ensures forall a, b | a in after.messages && b in after.messages :: a.id == b.id ==> a == b
  {
    hide MessageTotal; hide Nodes; hide Map;
    MessageRowsAt(v, t.nextFile, file.packageName, file.messages, t.nextMessage);
  }

  lemma AddedEnums(t: Tables, after: Tables, v: VersionId, file: ProtoFile)
    requires EnumsValid(t) && after.nextFile == t.nextFile + 1 && after.nextEnum == t.nextEnum + |FileEnums(file)|
    requires after.enums == t.enums + FileEnumRows(t, v, file)
    requires after.values == t.values + OwnedRows(Map(FileEnums(file), ValuesOf), t.nextEnum)
    ensures EnumsValid(after)
  {
    hide EnumRows; hide OwnedRows; hide FileEnums;
    OwnersInRange(Map(FileEnums(file), ValuesOf), t.nextEnum);
    FreshEnum(t, after, v, file);
  }

  lemma FreshEnum(t: Tables, after: Tables, v: VersionId, file: ProtoFile)
    requires EnumsValid(t)
    requires after.enums == t.enums + FileEnumRows(t, v, file)
    ensures forall r | r in after.enums ::
              r in t.enums || (t.nextEnum <= r.id < t.nextEnum + |FileEnums(file)| && r.fileId == t.nextFile)
    ensures forall a, b | a in after.enums && b in after.enums :: a.id == b.id ==> a == b
  {
    hide EnumRows; hide FileEnums;
    EnumRowsAt(v, t.nextFile, file.packageName, FileEnums(file), t.nextEnum);
  }

  lemma DeleteValid(t: Tables, v: VersionId)
    requires Valid(t)
    ensures Valid(DeleteVersion(t, v))
  {
    var gone := FilesGone(t, v);
    FilterMembers(t.files, FileNotIn(v));
    FilterMembers(t.imports, OwnerKept(gone));
    FilterMembers(t.services, ServiceKept(gone));
    FilterMembers(t.methods, OwnerKept(set r | r in t.services && r.fileId in gone :: r.id));
    FilterMembers(t.messages, MessageKept(gone));
    FilterMembers(t.fields, OwnerKept(set r | r in t.messages && r.fileId in gone :: r.id));
    FilterMembers(t.enums, EnumKept(gone));
    FilterMembers(t.values, OwnerKept(set r | r in t.enums && r.fileId in gone :: r.id));
    hide Filter;
  }

  lemma {:induction false} AddFilesValid(t: Tables, v: VersionId, files: Metadata)
    requires Valid(t)
    ensures Valid(AddFiles(t, v, files))
  {
    hide Valid; hide AddFile;
    if files != [] {
      AddFilesValid(t, v, files[..|files| - 1]);
      AddFileValid(AddFiles(t, v, files[..|files| - 1]), v, files[|files| - 1]);
    }
  }

  /** Saving keeps the tables consistent; in particular parent links stay acyclic, so every
      later load terminates. */
  lemma SavedValid(t: Tables, v: VersionId, files: Metadata)
    requires Valid(t)
    ensures Valid(Saved(t, v, files)) && Buildable(Saved(t, v, files))
  {
    DeleteValid(t, v);
    AddFilesValid(DeleteVersion(t, v), v, files);
  }

  // Rows and the files they name

  /** A row that names a version names a file of that version. */
  predicate Consistent(t: Tables) {
    && (forall r | r in t.services :: r.fileId in FilesGone(t, r.versionId))
    && (forall r | r in t.messages :: r.fileId in FilesGone(t, r.versionId))
    && (forall r | r in t.enums :: r.fileId in FilesGone(t, r.versionId))
  }

  lemma DeletedFiles(t: Tables, v: VersionId, w: VersionId)
    ensures FilesGone(DeleteVersion(t, v), w) == if w == v then {} else FilesGone(t, w)
  {
    FilterMembers(t.files, FileNotIn(v));
    hide Filter;
  }

  lemma DeleteConsistent(t: Tables, v: VersionId)
    requires Valid(t) && Consistent(t)
    ensures Consistent(DeleteVersion(t, v))
  {
    var cleared := DeleteVersion(t, v);
    var gone := FilesGone(t, v);
    FilterMembers(t.services, ServiceKept(gone));
    FilterMembers(t.messages, MessageKept(gone));
    FilterMembers(t.enums, EnumKept(gone));
    hide Filter; hide FilesGone; hide Valid;
    forall w: VersionId
      ensures FilesGone(cleared, w) == if w == v then {} else FilesGone(t, w)
    {
      DeletedFiles(t, v, w);
    }
  }

  lemma AddedFileIds(t: Tables, v: VersionId, file: ProtoFile, w: VersionId)
    ensures FilesGone(AddFile(t, v, file), w) == FilesGone(t, w) + if w == v then {t.nextFile} else {}
  {
    AddFileAppends(t, v, file);
    hide AddFile; hide ServiceRows; hide EnumRows; hide OwnedRows; hide Own; hide Map; hide Nodes; hide MessageTotal;
    hide FieldGroups; hide FileEnums;
    FileIdsSnoc(t, AddFile(t, v, file), FileRow(t.nextFile, v, file.path, file.packageName, file.syntax), w);
  }

  lemma FileIdsSnoc(t: Tables, after: Tables, row: FileRow, w: VersionId)
    requires after.files == t.files + [row]
    ensures FilesGone(after, w) == FilesGone(t, w) + if w == row.versionId then {row.id} else {}
  {
    assert after.files[|t.files|] == row;
    assert forall r :: r in after.files <==> r in t.files || r == row;
  }

  lemma AddFileConsistent(t: Tables, v: VersionId, file: ProtoFile)
    requires Consistent(t)
    ensures Consistent(AddFile(t, v, file))
  {
    AddFileAppends(t, v, file);
    var after := AddFile(t, v, file);
    hide AddFile; hide FilesGone; hide ServiceRows; hide EnumRows; hide Nodes; hide Map; hide MessageTotal; hide FileEnums;
    forall w: VersionId
      ensures FilesGone(after, w) == FilesGone(t, w) + if w == v then {t.nextFile} else {}
    {
      AddedFileIds(t, v, file, w);
    }
    ServiceRowsAt(v, t.nextFile, file.packageName, file.services, t.nextService);
    MessageRowsAt(v, t.nextFile, file.packageName, file.messages, t.nextMessage);
    EnumRowsAt(v, t.nextFile, file.packageName, FileEnums(file), t.nextEnum);
  }

  lemma {:induction false} AddFilesConsistent(t: Tables, v: VersionId, files: Metadata)
    requires Consistent(t)
    ensures Consistent(AddFiles(t, v, files))
  {
    hide Consistent; hide AddFile;
    if files != [] {
      AddFilesConsistent(t, v, files[..|files| - 1]);
      AddFileConsistent(AddFiles(t, v, files[..|files| - 1]), v, files[|files| - 1]);
    }
  }

  /** Saving keeps every row attached to a file of its own version. */
  lemma SavedConsistent(t: Tables, v: VersionId, files: Metadata)
    requires Valid(t) && Consistent(t)
    ensures Consistent(Saved(t, v, files))
  {
    DeleteConsistent(t, v);
    AddFilesConsistent(DeleteVersion(t, v), v, files);
  }
}
