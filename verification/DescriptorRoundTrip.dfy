/** Loading what was saved gives it back, every level in its load order. */
module DescriptorRoundTrip {
  import opened Wrappers
  import opened Text
  import opened Sequences
  import opened DescriptorMetadata
  import opened DescriptorRows
  import opened DescriptorLoad
  import opened DescriptorNames
  import opened DescriptorRebuild
  import opened DescriptorSorted
  import opened DescriptorTables
  import opened DescriptorFrames
  import opened DescriptorKeys
  import opened DescriptorOrder
  import DescriptorContents

  // The file just added

  lemma ItemsFresh<T>(rows: seq<Owned<T>>, groups: seq<seq<T>>, start: Id, i: nat)
    requires i < |groups| && forall r | r in rows :: r.owner < start
    ensures ItemsOf(rows + OwnedRows(groups, start), start + i) == groups[i]
  {
    hide ItemsOf; hide OwnedRows;
    ItemsOfConcat(rows, OwnedRows(groups, start), start + i);
    ItemsOfNone(rows, start + i);
    ItemsOfOwnedRows(groups, start, start + i);
  }

  lemma RowsFresh<T>(rows: seq<T>, added: seq<T>, keep: T -> bool)
    requires (forall r | r in rows :: !keep(r)) && (forall r | r in added :: keep(r))
    ensures Filter(rows + added, keep) == added
  {
    FilterConcat(rows, added, keep);
    FilterNone(rows, keep);
    FilterAll(added, keep);
  }

  lemma FreshImports(t: Tables, v: VersionId, file: ProtoFile)
    requires FilesValid(t)
    ensures ItemsOf(AddFile(t, v, file).imports, t.nextFile) == file.imports
  {
    AddFileAppends(t, v, file);
    hide AddFile;
    ItemsOfConcat(t.imports, Own(t.nextFile, file.imports), t.nextFile);
    ItemsOfNone(t.imports, t.nextFile);
    ItemsOfOwn(file.imports, t.nextFile, t.nextFile);
  }

  lemma FreshServices(t: Tables, v: VersionId, file: ProtoFile)
    requires ServicesValid(t)
    ensures LoadServices(AddFile(t, v, file), v, t.nextFile) == SortedServices(file.services)
  {
    AddFileAppends(t, v, file);
    hide AddFile; hide Filter; hide Sort; hide Map; hide OwnedRows; hide ItemsOf; hide ServiceRows;
    var after := AddFile(t, v, file);
    var rows := FileServiceRows(t, v, file);
    ServiceRowsAt(v, t.nextFile, file.packageName, file.services, t.nextService);
    RowsFresh(t.services, rows, ServiceIn(v, t.nextFile));
    LoadedServicesSort(after, rows);
    forall i | 0 <= i < |rows|
      ensures LoadService(after)(rows[i]) == SortedService(file.services[i])
    {
      ItemsFresh(t.methods, Map(file.services, MethodsOf), t.nextService, i);
    }
    assert Map(rows, LoadService(after)) == Map(file.services, SortedService);
  }

  lemma LoadedServicesSort(t: Tables, rows: seq<ServiceRow>)
    ensures Map(Sort(rows, ServiceRowLe), LoadService(t)) == Sort(Map(rows, LoadService(t)), ServiceLe)
  {
    MapSort(rows, LoadService(t), ServiceRowLe, ServiceLe);
  }

  lemma FreshEnums(t: Tables, v: VersionId, file: ProtoFile)
    requires EnumsValid(t)
    ensures LoadEnumList(AddFile(t, v, file), v, t.nextFile) == SortedEnums(FileEnums(file))
  {
    AddFileAppends(t, v, file);
    hide AddFile; hide Filter; hide Sort; hide Map; hide OwnedRows; hide ItemsOf; hide EnumRows; hide FileEnums;
    var after := AddFile(t, v, file);
    var enums := FileEnums(file);
    var rows := FileEnumRows(t, v, file);
    EnumRowsAt(v, t.nextFile, file.packageName, enums, t.nextEnum);
    RowsFresh(t.enums, rows, EnumIn(v, t.nextFile));
    LoadedEnumsSort(after, rows);
    forall i | 0 <= i < |rows|
      ensures LoadEnum(after)(rows[i]) == SortedEnum(enums[i])
    {
      ItemsFresh(t.values, Map(enums, ValuesOf), t.nextEnum, i);
    }
    assert Map(rows, LoadEnum(after)) == Map(enums, SortedEnum);
  }

  lemma LoadedEnumsSort(t: Tables, rows: seq<EnumRow>)
    ensures Map(Sort(rows, EnumRowLe), LoadEnum(t)) == Sort(Map(rows, LoadEnum(t)), EnumLe)
  {
    MapSort(rows, LoadEnum(t), EnumRowLe, EnumLe);
  }

  lemma FreshMessageRows(t: Tables, v: VersionId, file: ProtoFile)
    requires MessagesValid(t)
    ensures LoadMessageRows(AddFile(t, v, file), v, t.nextFile) ==
            Sort(Map(Nodes(file.messages, None, t.nextMessage), TreeRowOf), TreeRowLe)
  {
    AddFileAppends(t, v, file);
    hide AddFile; hide Filter; hide Sort; hide Map; hide OwnedRows; hide ItemsOf; hide Nodes; hide MessageTotal;
    hide FieldGroups;
    var after := AddFile(t, v, file);
    var nodes := Nodes(file.messages, None, t.nextMessage);
    var rows := FileMessageRows(t, v, file);
    MessageRowsAt(v, t.nextFile, file.packageName, file.messages, t.nextMessage);
    RowsFresh(t.messages, rows, MessageIn(v, t.nextFile));
    LoadedMessagesSort(after, rows);
    forall i | 0 <= i < |rows|
      ensures LoadMessageRow(after)(rows[i]) == TreeRowOf(nodes[i])
    {
      NodesNumbered(file.messages, None, t.nextMessage, i);
      ItemsFresh(t.fields, FieldGroups(file.messages), t.nextMessage, i);
    }
    assert Map(rows, LoadMessageRow(after)) == Map(nodes, TreeRowOf);
  }

  lemma LoadedMessagesSort(t: Tables, rows: seq<MessageRow>)
    ensures Map(Sort(rows, MessageRowLe), LoadMessageRow(t)) == Sort(Map(rows, LoadMessageRow(t)), TreeRowLe)
  {
    MapSort(rows, LoadMessageRow(t), MessageRowLe, TreeRowLe);
  }

  lemma NodesChildren(messages: seq<ProtoMessage>, start: Id, q: Option<Id>)
    ensures ChildrenOf(Sort(Map(Nodes(messages, None, start), TreeRowOf), TreeRowLe), q) ==
            NodeChildren(messages, None, start, q)
  {
    hide Nodes; hide Sort; hide Filter; hide Map;
    var nodes := Nodes(messages, None, start);
    TreeRowOrder();
    FilterSort(Map(nodes, TreeRowOf), TreeRowLe, HasParent(q));
    FilterMap(nodes, TreeRowOf, HasParent(q), NodeParent(q));
  }

  lemma FreshTreeHolds(t: Tables, v: VersionId, file: ProtoFile)
    requires MessagesValid(t)
    ensures Holds(LoadMessageRows(AddFile(t, v, file), v, t.nextFile), file.messages, None, t.nextMessage)
  {
    hide AddFile; hide Sort; hide Nodes; hide MessageTotal; hide ChildrenOf; hide LoadMessageRows; hide Map;
    hide NodeChildren;
    var rows := LoadMessageRows(AddFile(t, v, file), v, t.nextFile);
    FreshMessageRows(t, v, file);
    forall q: Option<Id>
      ensures ChildrenOf(rows, q) == NodeChildren(file.messages, None, t.nextMessage, q)
    {
      NodesChildren(file.messages, t.nextMessage, q);
    }
  }

  lemma FreshTree(t: Tables, v: VersionId, file: ProtoFile)
    requires Valid(t)
    ensures Buildable(AddFile(t, v, file))
    ensures var after := AddFile(t, v, file);
            && ParentsFirst(LoadMessageRows(after, v, t.nextFile), after.nextMessage)
            && BuildChildren(LoadMessageRows(after, v, t.nextFile), None, after.nextMessage) ==
               RebuiltForest(file.messages, [])
  {
    hide AddFile; hide Sort; hide Nodes; hide MessageTotal; hide BuildChildren; hide RebuiltForest; hide ChildrenOf;
    hide LoadMessageRows; hide Map; hide NodeChildren; hide Holds; hide ParentsFirst; hide Buildable;
    var after := AddFile(t, v, file);
    AddFileValid(t, v, file);
    AddFileAppends(t, v, file);
    FreshTreeHolds(t, v, file);
    LoadedRowsBuildable(after, v, t.nextFile);
    RebuildsForest(LoadMessageRows(after, v, t.nextFile), after.nextMessage, file.messages, None, t.nextMessage);
  }

  function RowOf(id: Id, v: VersionId, file: ProtoFile): FileRow {
    FileRow(id, v, file.path, file.packageName, file.syntax)
  }

  /** A file loads as it was saved, right after it was saved. */
  lemma FileRoundTrip(t: Tables, v: VersionId, file: ProtoFile)
    requires Valid(t) && WellNamedFile(file)
    ensures Buildable(AddFile(t, v, file))
    ensures LoadFile(AddFile(t, v, file), v)(RowOf(t.nextFile, v, file)) == SortedFile(file)
  {
    hide AddFile; hide Sort; hide BuildChildren; hide RebuiltForest; hide LoadMessageRows; hide LoadServices;
    hide LoadEnumList; hide AttachAll; hide SortedMessages; hide SortedEnums; hide SortedServices; hide WellNamedFile;
    hide ItemsOf; hide FileEnums;
    FreshTree(t, v, file);
    FreshImports(t, v, file);
    FreshServices(t, v, file);
    FreshEnums(t, v, file);
    EnumsReturn(file);
  }

  // All the files of a version

  function FileRows(v: VersionId, files: Metadata, start: Id): (rows: seq<FileRow>)
    ensures |rows| == |files|
  {
    if files == [] then []
    else FileRows(v, files[..|files| - 1], start) + [RowOf(start + |files| - 1, v, files[|files| - 1])]
  }

  lemma {:induction false} AddFilesRows(t: Tables, v: VersionId, files: Metadata)
    ensures AddFiles(t, v, files).files == t.files + FileRows(v, files, t.nextFile)
    ensures AddFiles(t, v, files).nextFile == t.nextFile + |files|
  {
    hide AddFile;
    if files != [] {
      var init, last := files[..|files| - 1], files[|files| - 1];
      AddFilesRows(t, v, init);
      AddFileAppends(AddFiles(t, v, init), v, last);
    }
  }

  lemma {:induction false} FileRowAt(v: VersionId, files: Metadata, start: Id, i: nat)
    requires i < |files|
    ensures FileRows(v, files, start)[i] == RowOf(start + i, v, files[i])
  {
    if i < |files| - 1 { FileRowAt(v, files[..|files| - 1], start, i); }
  }

  lemma {:induction false} FilesRoundTrip(t: Tables, v: VersionId, files: Metadata, i: nat)
    requires Valid(t) && (forall file | file in files :: WellNamedFile(file)) && i < |files|
    ensures Buildable(AddFiles(t, v, files))
    ensures LoadFile(AddFiles(t, v, files), v)(RowOf(t.nextFile + i, v, files[i])) == SortedFile(files[i])
  {
    hide AddFile; hide Valid; hide LoadFile; hide SortedFile; hide WellNamedFile; hide FileRows;
    var init, last := files[..|files| - 1], files[|files| - 1];
    var before := AddFiles(t, v, init);
    AddFilesValid(t, v, init);
    AddFilesValid(t, v, files);
    ValidBuildable(before);
    ValidBuildable(AddFiles(t, v, files));
    AddFilesRows(t, v, init);
    if i == |init| {
      FileRoundTrip(before, v, last);
    } else {
      FilesRoundTrip(t, v, init, i);
      var row := RowOf(t.nextFile + i, v, files[i]);
      AddFileKeeps(before, v, last, v, row.id);
      SameFileLoads(before, AddFile(before, v, last), v, row);
    }
  }

  lemma ValidBuildable(t: Tables)
    requires Valid(t)
    ensures Buildable(t)
  {}

  lemma LoadedFilesSort(t: Tables, v: VersionId, rows: seq<FileRow>)
    requires Buildable(t)
    ensures Map(Sort(rows, FileLe), LoadFile(t, v)) == Sort(Map(rows, LoadFile(t, v)), ProtoFileLe)
  {
    forall a, b: FileRow
      ensures FileLe(a, b) == ProtoFileLe(LoadFile(t, v)(a), LoadFile(t, v)(b))
    {
      LoadKeepsPath(t, v, a);
      LoadKeepsPath(t, v, b);
    }
    hide LoadFile;
    MapSort(rows, LoadFile(t, v), FileLe, ProtoFileLe);
  }

  lemma LoadKeepsPath(t: Tables, v: VersionId, row: FileRow)
    requires Buildable(t)
    ensures LoadFile(t, v)(row).path == row.path
  {}

  lemma SavedRows(t: Tables, v: VersionId, files: Metadata)
    ensures Filter(Saved(t, v, files).files, FileIn(v)) == FileRows(v, files, DeleteVersion(t, v).nextFile)
  {
    var cleared := DeleteVersion(t, v);
    AddFilesRows(cleared, v, files);
    var rows := FileRows(v, files, cleared.nextFile);
    FilterMembers(t.files, FileNotIn(v));
    forall r | r in rows
      ensures r.versionId == v
    {
      var i :| 0 <= i < |rows| && rows[i] == r;
      FileRowAt(v, files, cleared.nextFile, i);
    }
    hide FileRows; hide AddFiles; hide Filter;
    RowsFresh(cleared.files, rows, FileIn(v));
  }

  lemma AllFilesLoad(t: Tables, v: VersionId, files: Metadata)
    requires Valid(t) && (forall file | file in files :: WellNamedFile(file)) && Buildable(AddFiles(t, v, files))
    ensures Map(FileRows(v, files, t.nextFile), LoadFile(AddFiles(t, v, files), v)) == Map(files, SortedFile)
  {
    hide Valid; hide WellNamedFile; hide LoadFile; hide SortedFile; hide AddFiles; hide Buildable; hide FileRows; hide Map;
    var rows := FileRows(v, files, t.nextFile);
    forall i | 0 <= i < |files|
      ensures LoadFile(AddFiles(t, v, files), v)(rows[i]) == SortedFile(files[i])
    {
      FileRowAt(v, files, t.nextFile, i);
      FilesRoundTrip(t, v, files, i);
    }
  }

  /** The database takes a version's metadata exactly when its names and numbers differ
      where the unique constraints say so, and then loading the version gives the metadata
      back with every level in its load order, for arbitrary nesting; the load reports "not
      found" exactly when no file was saved. */
  lemma LoadAfterSave(t: Tables, v: VersionId, files: Metadata)
    requires Sound(t) && forall file | file in files :: WellNamedFile(file)
    ensures Unique(Saved(t, v, files)) <==> Storable(files)
    ensures Storable(files) ==> Sound(Saved(t, v, files))
    ensures Buildable(Saved(t, v, files))
    ensures Load(Saved(t, v, files), v) == if files == [] then Failure(NotFound) else Success(Sorted(files))
    ensures files != [] ==>
              && Load(Saved(t, v, files), v).Success?
              && DescriptorContents.SameFiles(files, Load(Saved(t, v, files), v).value)
              && FilesInOrder(Load(Saved(t, v, files), v).value)
  {
    hide FilesInOrder; hide DescriptorContents.SameFiles; hide Sorted;
    LoadedFilesAre(t, v, files);
    DescriptorContents.SortedSame(files);
    if files != [] { LoadIsInOrder(Saved(t, v, files), v); }
  }

  lemma LoadedFilesAre(t: Tables, v: VersionId, files: Metadata)
    requires Sound(t) && forall file | file in files :: WellNamedFile(file)
    ensures Unique(Saved(t, v, files)) <==> Storable(files)
    ensures Storable(files) ==> Sound(Saved(t, v, files))
    ensures Buildable(Saved(t, v, files))
    ensures Load(Saved(t, v, files), v) == if files == [] then Failure(NotFound) else Success(Sorted(files))
  {
    hide Valid; hide WellNamedFile; hide LoadFile; hide SortedFile; hide Filter; hide AddFiles; hide DeleteVersion;
    hide Buildable; hide Sort; hide Map; hide FileRows; hide Unique; hide Consistent; hide Storable;
    SavedUnique(t, v, files);
    if Storable(files) { SavedSound(t, v, files); }
    var cleared := DeleteVersion(t, v);
    SavedValid(t, v, files);
    DeleteValid(t, v);
    SavedRows(t, v, files);
    var rows := FileRows(v, files, cleared.nextFile);
    if files == [] {
      NoFilesNoRows(v, cleared.nextFile);
    } else {
      SortNotEmpty(rows);
      LoadedFilesSort(Saved(t, v, files), v, rows);
      AllFilesLoad(cleared, v, files);
    }
  }

  // Other versions

  lemma {:induction false} AddFilesKeep(t: Tables, w: VersionId, files: Metadata, v: VersionId, row: FileRow)
    requires Valid(t) && row.id < t.nextFile
    ensures Buildable(t) && Buildable(AddFiles(t, w, files))
    ensures LoadFile(AddFiles(t, w, files), v)(row) == LoadFile(t, v)(row)
  {
    hide Valid; hide AddFile; hide LoadFile; hide FileRows; hide SameFile;
    AddFilesValid(t, w, files);
    ValidBuildable(t);
    ValidBuildable(AddFiles(t, w, files));
    if files != [] {
      var init, last := files[..|files| - 1], files[|files| - 1];
      var before := AddFiles(t, w, init);
      AddFilesKeep(t, w, init, v, row);
      AddFilesValid(t, w, init);
      AddFilesRows(t, w, init);
      AddFileKeeps(before, w, last, v, row.id);
      SameFileLoads(before, AddFile(before, w, last), v, row);
    }
  }

  lemma SavedKeepsFile(t: Tables, w: VersionId, files: Metadata, v: VersionId, row: FileRow)
    requires Valid(t) && Buildable(t) && Buildable(Saved(t, w, files))
    requires row in t.files && row.versionId == v != w
    ensures LoadFile(Saved(t, w, files), v)(row) == LoadFile(t, v)(row)
  {
    DeleteValid(t, w);
    DeleteKeeps(t, w, v, row);
    hide LoadFile; hide AddFiles; hide DeleteVersion; hide SameFile;
    var cleared := DeleteVersion(t, w);
    ValidBuildable(cleared);
    SameFileLoads(t, cleared, v, row);
    DeleteKeepsCounter(t, w);
    AddFilesKeep(cleared, w, files, v, row);
  }

  lemma DeleteKeepsCounter(t: Tables, w: VersionId)
    ensures DeleteVersion(t, w).nextFile == t.nextFile
  {}

  lemma SavedKeepsRows(t: Tables, w: VersionId, files: Metadata, v: VersionId)
    requires v != w
    ensures Filter(Saved(t, w, files).files, FileIn(v)) == Filter(t.files, FileIn(v))
  {
    var cleared := DeleteVersion(t, w);
    AddFilesRows(cleared, w, files);
    var rows := FileRows(w, files, cleared.nextFile);
    forall r | r in rows
      ensures !FileIn(v)(r)
    {
      var i :| 0 <= i < |rows| && rows[i] == r;
      FileRowAt(w, files, cleared.nextFile, i);
    }
    hide FileRows; hide AddFiles; hide Filter;
    RowsAppended(cleared.files, rows, FileIn(v));
    FilterTwice(t.files, FileNotIn(w), FileIn(v), FileIn(v));
  }

  /** Saving one version leaves every other version's load unchanged, whatever names the
      metadata uses. */
  lemma OtherVersionsKeepTheirLoad(t: Tables, w: VersionId, files: Metadata, v: VersionId)
    requires Valid(t) && v != w
    ensures Buildable(t) && Buildable(Saved(t, w, files))
    ensures Load(Saved(t, w, files), v) == Load(t, v)
  {
    SavedValid(t, w, files);
    ValidBuildable(t);
    hide Valid; hide LoadFile; hide Filter; hide Saved; hide Buildable; hide Sort; hide Map;
    SavedKeepsRows(t, w, files, v);
    var rows := Filter(t.files, FileIn(v));
    FilterMembers(t.files, FileIn(v));
    FileOrder();
    SortMembers(rows, FileLe);
    forall row | row in Sort(rows, FileLe)
      ensures LoadFile(Saved(t, w, files), v)(row) == LoadFile(t, v)(row)
    {
      SavedKeepsFile(t, w, files, v, row);
    }
    MapSame(Sort(rows, FileLe), LoadFile(Saved(t, w, files), v), LoadFile(t, v));
  }

  lemma NoFilesNoRows(v: VersionId, start: Id)
    ensures Sort(FileRows(v, [], start), FileLe) == []
  {}

  lemma SortNotEmpty(rows: seq<FileRow>)
    requires rows != []
    ensures Sort(rows, FileLe) != []
  {}
}
