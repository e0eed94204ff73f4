/** What a load of one file reads, and that saving another file or another version does not
    touch it. */
module DescriptorFrames {
  import opened Wrappers
  import opened Text
  import opened Sequences
  import opened DescriptorMetadata
  import opened DescriptorRows
  import opened DescriptorLoad
  import opened DescriptorTables

  function ServicesOf(t: Tables, v: VersionId, f: Id): seq<ServiceRow> { Filter(t.services, ServiceIn(v, f)) }

  function MessagesOf(t: Tables, v: VersionId, f: Id): seq<MessageRow> { Filter(t.messages, MessageIn(v, f)) }

  function EnumsOf(t: Tables, v: VersionId, f: Id): seq<EnumRow> { Filter(t.enums, EnumIn(v, f)) }

  /** Both tables store the same for file f of version v. */
  predicate SameFile(a: Tables, b: Tables, v: VersionId, f: Id) {
    && ItemsOf(a.imports, f) == ItemsOf(b.imports, f)
    && ServicesOf(a, v, f) == ServicesOf(b, v, f)
    && (forall r | r in ServicesOf(a, v, f) :: ItemsOf(a.methods, r.id) == ItemsOf(b.methods, r.id))
    && MessagesOf(a, v, f) == MessagesOf(b, v, f)
    && (forall r | r in MessagesOf(a, v, f) :: ItemsOf(a.fields, r.id) == ItemsOf(b.fields, r.id))
    && EnumsOf(a, v, f) == EnumsOf(b, v, f)
    && (forall r | r in EnumsOf(a, v, f) :: ItemsOf(a.values, r.id) == ItemsOf(b.values, r.id))
  }

  // A load reads no more

  lemma SameServices(a: Tables, b: Tables, v: VersionId, f: Id)
    requires SameFile(a, b, v, f)
    ensures LoadServices(a, v, f) == LoadServices(b, v, f)
  {
    hide Filter; hide Sort; hide ItemsOf; hide Map;
    ServiceRowOrder();
    SortMembers(ServicesOf(a, v, f), ServiceRowLe);
    MapSame(Sort(ServicesOf(a, v, f), ServiceRowLe), LoadService(a), LoadService(b));
  }

  lemma SameEnums(a: Tables, b: Tables, v: VersionId, f: Id)
    requires SameFile(a, b, v, f)
    ensures LoadEnumList(a, v, f) == LoadEnumList(b, v, f)
  {
    hide Filter; hide Sort; hide ItemsOf; hide Map;
    EnumRowOrder();
    SortMembers(EnumsOf(a, v, f), EnumRowLe);
    MapSame(Sort(EnumsOf(a, v, f), EnumRowLe), LoadEnum(a), LoadEnum(b));
  }

  lemma SameMessages(a: Tables, b: Tables, v: VersionId, f: Id)
    requires SameFile(a, b, v, f)
    ensures LoadMessageRows(a, v, f) == LoadMessageRows(b, v, f)
  {
    hide Filter; hide Sort; hide ItemsOf; hide Map;
    MessageRowOrder();
    SortMembers(MessagesOf(a, v, f), MessageRowLe);
    MapSame(Sort(MessagesOf(a, v, f), MessageRowLe), LoadMessageRow(a), LoadMessageRow(b));
  }

  /** The rebuilt tree does not depend on the bound its termination argument uses. */
  lemma {:induction false} BoundDoesNotMatter(rows: seq<TreeRow>, p: Option<Id>, a: Id, b: Id)
    requires ParentsFirst(rows, a) && ParentsFirst(rows, b) && Depth(p) <= a && Depth(p) <= b
    ensures BuildChildren(rows, p, a) == BuildChildren(rows, p, b)
    decreases a - Depth(p), 1, 0
  {
    hide Sort; hide BuildEach; hide ParentsFirst;
    ChildrenSorted(rows, p);
    EachBoundDoesNotMatter(rows, Sort(ChildrenOf(rows, p), TreeRowLe), p, a, b);
  }

  lemma {:induction false} EachBoundDoesNotMatter(rows: seq<TreeRow>, kids: seq<TreeRow>, p: Option<Id>, a: Id, b: Id)
    requires ParentsFirst(rows, a) && ParentsFirst(rows, b) && Depth(p) <= a && Depth(p) <= b
    requires forall r | r in kids :: r in rows && r.parentId == p
    ensures BuildEach(rows, kids, p, a) == BuildEach(rows, kids, p, b)
    decreases a - Depth(p), 0, |kids|
  {
    hide BuildChildren;
    if kids != [] {
      ParentBelow(rows, kids[0], p, a);
      ParentBelow(rows, kids[0], p, b);
      BoundDoesNotMatter(rows, Some(kids[0].id), a, b);
      EachBoundDoesNotMatter(rows, kids[1..], p, a, b);
    }
  }

  lemma SameFileLoads(a: Tables, b: Tables, v: VersionId, row: FileRow)
    requires Buildable(a) && Buildable(b) && SameFile(a, b, v, row.id)
    ensures LoadFile(a, v)(row) == LoadFile(b, v)(row)
  {
    hide BuildChildren; hide AttachAll; hide LoadMessageRows; hide LoadServices; hide LoadEnumList; hide Sort;
    LoadedRowsBuildable(a, v, row.id);
    LoadedRowsBuildable(b, v, row.id);
    SameServices(a, b, v, row.id);
    SameEnums(a, b, v, row.id);
    SameMessages(a, b, v, row.id);
    BoundDoesNotMatter(LoadMessageRows(a, v, row.id), None, a.nextMessage, b.nextMessage);
  }

  // Saving another file

  lemma ItemsAppended<T>(rows: seq<Owned<T>>, groups: seq<seq<T>>, start: Id, owner: Id)
    requires owner < start
    ensures ItemsOf(rows + OwnedRows(groups, start), owner) == ItemsOf(rows, owner)
  {
    ItemsOfConcat(rows, OwnedRows(groups, start), owner);
    ItemsOfOwnedRows(groups, start, owner);
  }

  lemma RowsAppended<T>(rows: seq<T>, added: seq<T>, keep: T -> bool)
    requires forall r | r in added :: !keep(r)
    ensures Filter(rows + added, keep) == Filter(rows, keep)
  {
    FilterConcat(rows, added, keep);
    FilterNone(added, keep);
  }

  /** Adding a file changes nothing stored for a file that was there before. */
  lemma AddFileKeeps(t: Tables, w: VersionId, file: ProtoFile, v: VersionId, f: Id)
    requires Valid(t) && f < t.nextFile
    ensures SameFile(t, AddFile(t, w, file), v, f)
  {
    AddFileAppends(t, w, file);
    var after := AddFile(t, w, file);
    hide AddFile; hide ServiceRows; hide EnumRows; hide OwnedRows; hide Own; hide Map; hide Nodes; hide MessageTotal;
    hide FieldGroups; hide FileEnums; hide ItemsOf; hide Filter;
    AddFileKeepsImports(t, w, file, f);
    AddFileKeepsServices(t, w, file, v, f);
    AddFileKeepsMessages(t, w, file, v, f);
    AddFileKeepsEnums(t, w, file, v, f);
  }

  lemma AddFileKeepsImports(t: Tables, w: VersionId, file: ProtoFile, f: Id)
    requires f < t.nextFile
    ensures ItemsOf(t.imports + Own(t.nextFile, file.imports), f) == ItemsOf(t.imports, f)
  {
    ItemsOfConcat(t.imports, Own(t.nextFile, file.imports), f);
    ItemsOfOwn(file.imports, t.nextFile, f);
  }

  lemma AddFileKeepsServices(t: Tables, w: VersionId, file: ProtoFile, v: VersionId, f: Id)
    requires ServicesValid(t) && f < t.nextFile
    ensures Filter(t.services + FileServiceRows(t, w, file), ServiceIn(v, f)) == ServicesOf(t, v, f)
    ensures forall r | r in ServicesOf(t, v, f) ::
              ItemsOf(t.methods + OwnedRows(Map(file.services, MethodsOf), t.nextService), r.id) ==
              ItemsOf(t.methods, r.id)
  {
    ServiceRowsAt(w, t.nextFile, file.packageName, file.services, t.nextService);
    hide ServiceRows; hide Filter; hide ItemsOf; hide OwnedRows; hide Map;
    RowsAppended(t.services, FileServiceRows(t, w, file), ServiceIn(v, f));
    FilterMembers(t.services, ServiceIn(v, f));
    forall r | r in ServicesOf(t, v, f)
      ensures ItemsOf(t.methods + OwnedRows(Map(file.services, MethodsOf), t.nextService), r.id) == ItemsOf(t.methods, r.id)
    {
      ItemsAppended(t.methods, Map(file.services, MethodsOf), t.nextService, r.id);
    }
  }

  lemma AddFileKeepsMessages(t: Tables, w: VersionId, file: ProtoFile, v: VersionId, f: Id)
    requires MessagesValid(t) && f < t.nextFile
    ensures Filter(t.messages + FileMessageRows(t, w, file), MessageIn(v, f)) == MessagesOf(t, v, f)
    ensures forall r | r in MessagesOf(t, v, f) ::
              ItemsOf(t.fields + OwnedRows(FieldGroups(file.messages), t.nextMessage), r.id) == ItemsOf(t.fields, r.id)
  {
    MessageRowsAt(w, t.nextFile, file.packageName, file.messages, t.nextMessage);
    hide Nodes; hide Filter; hide ItemsOf; hide OwnedRows; hide Map; hide MessageTotal; hide FieldGroups;
    RowsAppended(t.messages, FileMessageRows(t, w, file), MessageIn(v, f));
    FilterMembers(t.messages, MessageIn(v, f));
    forall r | r in MessagesOf(t, v, f)
      ensures ItemsOf(t.fields + OwnedRows(FieldGroups(file.messages), t.nextMessage), r.id) == ItemsOf(t.fields, r.id)
    {
      ItemsAppended(t.fields, FieldGroups(file.messages), t.nextMessage, r.id);
    }
  }

  lemma AddFileKeepsEnums(t: Tables, w: VersionId, file: ProtoFile, v: VersionId, f: Id)
    requires EnumsValid(t) && f < t.nextFile
    ensures Filter(t.enums + FileEnumRows(t, w, file), EnumIn(v, f)) == EnumsOf(t, v, f)
    ensures forall r | r in EnumsOf(t, v, f) ::
              ItemsOf(t.values + OwnedRows(Map(FileEnums(file), ValuesOf), t.nextEnum), r.id) == ItemsOf(t.values, r.id)
  {
    EnumRowsAt(w, t.nextFile, file.packageName, FileEnums(file), t.nextEnum);
    hide EnumRows; hide Filter; hide ItemsOf; hide OwnedRows; hide Map; hide FileEnums;
    RowsAppended(t.enums, FileEnumRows(t, w, file), EnumIn(v, f));
    FilterMembers(t.enums, EnumIn(v, f));
    forall r | r in EnumsOf(t, v, f)
      ensures ItemsOf(t.values + OwnedRows(Map(FileEnums(file), ValuesOf), t.nextEnum), r.id) == ItemsOf(t.values, r.id)
    {
      ItemsAppended(t.values, Map(FileEnums(file), ValuesOf), t.nextEnum, r.id);
    }
  }

  // Deleting another version

  lemma {:induction false} ItemsKept<T>(rows: seq<Owned<T>>, gone: set<Id>, owner: Id)
    requires owner !in gone
    ensures ItemsOf(Filter(rows, OwnerKept(gone)), owner) == ItemsOf(rows, owner)
  {
    if rows != [] {
      ItemsKept(rows[1..], gone, owner);
      var rest := Filter(rows[1..], OwnerKept(gone));
      assert ([rows[0]] + rest)[1..] == rest;
    }
  }

  /** Deleting version w's rows leaves every file of another version whole. */
  lemma DeleteKeeps(t: Tables, w: VersionId, v: VersionId, row: FileRow)
    requires Valid(t) && row in t.files && row.versionId == v != w
    ensures SameFile(t, DeleteVersion(t, w), v, row.id)
  {
    var gone := FilesGone(t, w);
    assert row.id !in gone;
    hide Filter; hide ItemsOf; hide FilesGone;
    ItemsKept(t.imports, gone, row.id);
    DeleteKeepsServices(t, gone, v, row.id);
    DeleteKeepsMessages(t, gone, v, row.id);
    DeleteKeepsEnums(t, gone, v, row.id);
  }

  lemma DeleteKeepsServices(t: Tables, gone: set<Id>, v: VersionId, f: Id)
    requires ServicesValid(t) && f !in gone
    ensures Filter(Filter(t.services, ServiceKept(gone)), ServiceIn(v, f)) == ServicesOf(t, v, f)
    ensures forall r | r in ServicesOf(t, v, f) ::
              ItemsOf(Filter(t.methods, OwnerKept(set s | s in t.services && s.fileId in gone :: s.id)), r.id) ==
              ItemsOf(t.methods, r.id)
  {
    hide Filter; hide ItemsOf;
    FilterTwice(t.services, ServiceKept(gone), ServiceIn(v, f), ServiceIn(v, f));
    FilterMembers(t.services, ServiceIn(v, f));
    var ids := set s | s in t.services && s.fileId in gone :: s.id;
    forall r | r in ServicesOf(t, v, f)
      ensures ItemsOf(Filter(t.methods, OwnerKept(ids)), r.id) == ItemsOf(t.methods, r.id)
    {
      ItemsKept(t.methods, ids, r.id);
    }
  }

  lemma DeleteKeepsMessages(t: Tables, gone: set<Id>, v: VersionId, f: Id)
    requires MessagesValid(t) && f !in gone
    ensures Filter(Filter(t.messages, MessageKept(gone)), MessageIn(v, f)) == MessagesOf(t, v, f)
    ensures forall r | r in MessagesOf(t, v, f) ::
              ItemsOf(Filter(t.fields, OwnerKept(set s | s in t.messages && s.fileId in gone :: s.id)), r.id) ==
              ItemsOf(t.fields, r.id)
  {
    hide Filter; hide ItemsOf;
    FilterTwice(t.messages, MessageKept(gone), MessageIn(v, f), MessageIn(v, f));
    FilterMembers(t.messages, MessageIn(v, f));
    var ids := set s | s in t.messages && s.fileId in gone :: s.id;
    forall r | r in MessagesOf(t, v, f)
      ensures ItemsOf(Filter(t.fields, OwnerKept(ids)), r.id) == ItemsOf(t.fields, r.id)
    {
      ItemsKept(t.fields, ids, r.id);
    }
  }

  lemma DeleteKeepsEnums(t: Tables, gone: set<Id>, v: VersionId, f: Id)
    requires EnumsValid(t) && f !in gone
    ensures Filter(Filter(t.enums, EnumKept(gone)), EnumIn(v, f)) == EnumsOf(t, v, f)
    ensures forall r | r in EnumsOf(t, v, f) ::
              ItemsOf(Filter(t.values, OwnerKept(set s | s in t.enums && s.fileId in gone :: s.id)), r.id) ==
              ItemsOf(t.values, r.id)
  {
    hide Filter; hide ItemsOf;
    FilterTwice(t.enums, EnumKept(gone), EnumIn(v, f), EnumIn(v, f));
    FilterMembers(t.enums, EnumIn(v, f));
    var ids := set s | s in t.enums && s.fileId in gone :: s.id;
    forall r | r in EnumsOf(t, v, f)
      ensures ItemsOf(Filter(t.values, OwnerKept(ids)), r.id) == ItemsOf(t.values, r.id)
    {
      ItemsKept(t.values, ids, r.id);
    }
  }
}
