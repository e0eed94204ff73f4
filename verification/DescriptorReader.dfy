/** The repository's read path: queries whose ORDER BY leaves the order of equal keys open,
    and loops over their rows. The unique constraints make every answer but the order of
    imports with equal paths the one the load is defined by. */
module DescriptorReader {
  import opened Wrappers
  import opened Text
  import opened Sequences
  import opened DescriptorMetadata
  import opened DescriptorRows
  import opened DescriptorLoad
  import opened DescriptorTables
  import opened DescriptorFrames
  import opened DescriptorKeys
  import opened DescriptorStore
  import opened DescriptorOrder

  /** The same file, up to the order of imports with equal paths. */
  predicate SameFileLoaded(a: ProtoFile, b: ProtoFile) {
    && a.(imports := []) == b.(imports := [])
    && Ordered(a.imports, ImportLe) && multiset(a.imports) == multiset(b.imports)
  }

  predicate SameLoaded(a: Metadata, b: Metadata) {
    |a| == |b| && forall i | 0 <= i < |a| :: SameFileLoaded(a[i], b[i])
  }

  // No two rows of a query have the same key

  lemma SameKeySameRow<T, K>(s: seq<T>, key: T -> K, x: T, y: T)
    requires Distinct(s, key) && x in s && y in s && key(x) == key(y)
    ensures x == y
  {
    var i :| 0 <= i < |s| && s[i] == x;
    var j :| 0 <= j < |s| && s[j] == y;
    assert i == j;
  }

  lemma {:induction false} ItemsOfRows<T>(rows: seq<Owned<T>>, owner: Id, x: T)
    requires x in ItemsOf(rows, owner)
    ensures Owned(owner, x) in rows
  {
    if !(rows[0].owner == owner && rows[0].item == x) { ItemsOfRows(rows[1..], owner, x); }
  }

  lemma SameKeySameItem<T, K>(rows: seq<Owned<T>>, owner: Id, key: T -> K, x: T, y: T)
    requires Distinct(rows, OwnedKey(key)) && x in ItemsOf(rows, owner) && y in ItemsOf(rows, owner) && key(x) == key(y)
    ensures x == y
  {
    ItemsOfRows(rows, owner, x);
    ItemsOfRows(rows, owner, y);
    SameKeySameRow(rows, OwnedKey(key), Owned(owner, x), Owned(owner, y));
  }

  // Every key is a total preorder

  lemma NameOrder(a: string, b: string, c: string)
    ensures LessOrEqual(a, b) || LessOrEqual(b, a)
    ensures LessOrEqual(a, b) && LessOrEqual(b, a) ==> a == b
    ensures LessOrEqual(a, b) && LessOrEqual(b, c) ==> LessOrEqual(a, c)
  {
    LessOrEqualTotal(a, b);
    if LessOrEqual(a, b) && LessOrEqual(b, c) { LessOrEqualTransitive(a, b, c); }
  }

  // The queries

  method QueryFiles(t: Tables, v: VersionId) returns (rows: seq<FileRow>)
    requires Unique(t)
    ensures rows == Sort(Filter(t.files, FileIn(v)), FileLe)
  {
    FileOrder();
    rows := OrderBy(Filter(t.files, FileIn(v)), FileLe);
    hide Sort; hide Filter; hide LessOrEqual; hide Ordered; hide Distinct;
    FilterMembers(t.files, FileIn(v));
    forall x, y | x in Filter(t.files, FileIn(v)) && y in Filter(t.files, FileIn(v)) && FileLe(x, y) && FileLe(y, x)
      ensures x == y
    {
      NameOrder(x.path, y.path, x.path);
      SameKeySameRow(t.files, FileKey, x, y);
    }
    OrderingIsSort(Filter(t.files, FileIn(v)), rows, FileLe);
  }

  method LoadProtoImports(t: Tables, f: Id) returns (imports: seq<ProtoImport>)
    ensures Ordered(imports, ImportLe) && multiset(imports) == multiset(Sort(ItemsOf(t.imports, f), ImportLe))
  {
    ImportOrder();
    imports := OrderBy(ItemsOf(t.imports, f), ImportLe);
    SortIsOrdering(ItemsOf(t.imports, f), ImportLe);
  }

  method LoadProtoMethods(t: Tables, serviceId: Id) returns (methods: seq<ProtoMethod>)
    requires Unique(t)
    ensures methods == Sort(ItemsOf(t.methods, serviceId), MethodLe)
  {
    MethodOrder();
    methods := OrderBy(ItemsOf(t.methods, serviceId), MethodLe);
    hide Sort; hide ItemsOf; hide LessOrEqual; hide Ordered; hide Distinct;
    forall x, y | x in ItemsOf(t.methods, serviceId) && y in ItemsOf(t.methods, serviceId) && MethodLe(x, y) && MethodLe(y, x)
      ensures x == y
    {
      NameOrder(x.name, y.name, x.name);
      SameKeySameItem(t.methods, serviceId, MethodName, x, y);
    }
    OrderingIsSort(ItemsOf(t.methods, serviceId), methods, MethodLe);
  }

  method QueryServices(t: Tables, v: VersionId, f: Id) returns (rows: seq<ServiceRow>)
    requires Unique(t)
    ensures rows == Sort(Filter(t.services, ServiceIn(v, f)), ServiceRowLe)
  {
    ServiceRowOrder();
    rows := OrderBy(Filter(t.services, ServiceIn(v, f)), ServiceRowLe);
    hide Sort; hide Filter; hide LessOrEqual; hide Ordered; hide Distinct;
    FilterMembers(t.services, ServiceIn(v, f));
    var selected := Filter(t.services, ServiceIn(v, f));
    forall x, y | x in selected && y in selected && ServiceRowLe(x, y) && ServiceRowLe(y, x)
      ensures x == y
    {
      NameOrder(x.fullName, y.fullName, x.fullName);
      SameKeySameRow(t.services, ServiceKey, x, y);
    }
    OrderingIsSort(selected, rows, ServiceRowLe);
  }

  method LoadProtoServices(t: Tables, v: VersionId, f: Id) returns (services: seq<ProtoService>)
    requires Unique(t)
    ensures services == LoadServices(t, v, f)
  {
    hide Unique; hide Map; hide Sort; hide Filter;
    var rows := QueryServices(t, v, f);
    services := [];
    for i := 0 to |rows|
      invariant services == Map(rows, LoadService(t))[..i]
    {
      var methods := LoadProtoMethods(t, rows[i].id);
      services := services + [ProtoService(rows[i].name, rows[i].fullName, methods)];
    }
  }

  method LoadProtoFields(t: Tables, messageId: Id) returns (fields: seq<ProtoField>)
    requires Unique(t)
    ensures fields == Sort(ItemsOf(t.fields, messageId), FieldLe)
  {
    fields := OrderBy(ItemsOf(t.fields, messageId), FieldLe);
    hide Sort; hide ItemsOf; hide Ordered; hide Distinct;
    forall x, y | x in ItemsOf(t.fields, messageId) && y in ItemsOf(t.fields, messageId) && FieldLe(x, y) && FieldLe(y, x)
      ensures x == y
    {
      SameKeySameItem(t.fields, messageId, FieldNumber, x, y);
    }
    OrderingIsSort(ItemsOf(t.fields, messageId), fields, FieldLe);
  }

  method QueryMessages(t: Tables, v: VersionId, f: Id) returns (rows: seq<MessageRow>)
    requires Unique(t)
    ensures rows == Sort(Filter(t.messages, MessageIn(v, f)), MessageRowLe)
  {
    MessageRowOrder();
    rows := OrderBy(Filter(t.messages, MessageIn(v, f)), MessageRowLe);
    hide Sort; hide Filter; hide LessOrEqual; hide Ordered; hide Distinct;
    FilterMembers(t.messages, MessageIn(v, f));
    var selected := Filter(t.messages, MessageIn(v, f));
    forall x, y | x in selected && y in selected && MessageRowLe(x, y) && MessageRowLe(y, x)
      ensures x == y
    {
      NameOrder(x.fullName, y.fullName, x.fullName);
      SameKeySameRow(t.messages, MessageKey, x, y);
    }
    OrderingIsSort(selected, rows, MessageRowLe);
  }

  method LoadProtoMessages(t: Tables, v: VersionId, f: Id) returns (messages: seq<TreeRow>)
    requires Unique(t)
    ensures messages == LoadMessageRows(t, v, f)
  {
    hide Unique; hide Map; hide Sort; hide Filter;
    var rows := QueryMessages(t, v, f);
    messages := [];
    for i := 0 to |rows|
      invariant messages == Map(rows, LoadMessageRow(t))[..i]
    {
      var fields := LoadProtoFields(t, rows[i].id);
      messages := messages +
        [TreeRow(rows[i].id, rows[i].parentId, ProtoMessage(rows[i].name, rows[i].fullName, fields, [], []))];
    }
  }

  lemma LoadedNamesDiffer(t: Tables, v: VersionId, f: Id)
    requires Unique(t)
    ensures NamesDiffer(LoadMessageRows(t, v, f))
  {
    hide Sort; hide LessOrEqual; hide Distinct; hide ItemsOf;
    var selected := Filter(t.messages, MessageIn(v, f));
    var rows := LoadMessageRows(t, v, f);
    MessageRowOrder();
    FilterMembers(t.messages, MessageIn(v, f));
    SortMembers(selected, MessageRowLe);
    forall x, y | x in rows && y in rows && TreeRowLe(x, y) && TreeRowLe(y, x)
      ensures x == y
    {
      NameOrder(x.message.fullName, y.message.fullName, x.message.fullName);
      var i :| 0 <= i < |rows| && rows[i] == x;
      var j :| 0 <= j < |rows| && rows[j] == y;
      var a, b := Sort(selected, MessageRowLe)[i], Sort(selected, MessageRowLe)[j];
      assert a in selected && b in selected;
      SameKeySameRow(t.messages, MessageKey, a, b);
    }
  }

  method LoadProtoEnumValues(t: Tables, enumId: Id) returns (values: seq<ProtoEnumValue>)
    requires Unique(t)
    ensures values == Sort(ItemsOf(t.values, enumId), ValueLe)
  {
    values := OrderBy(ItemsOf(t.values, enumId), ValueLe);
    hide Sort; hide ItemsOf; hide Ordered; hide Distinct;
    forall x, y | x in ItemsOf(t.values, enumId) && y in ItemsOf(t.values, enumId) && ValueLe(x, y) && ValueLe(y, x)
      ensures x == y
    {
      SameKeySameItem(t.values, enumId, ValueNumber, x, y);
    }
    OrderingIsSort(ItemsOf(t.values, enumId), values, ValueLe);
  }

  method QueryEnums(t: Tables, v: VersionId, f: Id) returns (rows: seq<EnumRow>)
    requires Unique(t)
    ensures rows == Sort(Filter(t.enums, EnumIn(v, f)), EnumRowLe)
  {
    EnumRowOrder();
    rows := OrderBy(Filter(t.enums, EnumIn(v, f)), EnumRowLe);
    hide Sort; hide Filter; hide LessOrEqual; hide Ordered; hide Distinct;
    FilterMembers(t.enums, EnumIn(v, f));
    var selected := Filter(t.enums, EnumIn(v, f));
    forall x, y | x in selected && y in selected && EnumRowLe(x, y) && EnumRowLe(y, x)
      ensures x == y
    {
      NameOrder(x.fullName, y.fullName, x.fullName);
      SameKeySameRow(t.enums, EnumKey, x, y);
    }
    OrderingIsSort(selected, rows, EnumRowLe);
  }

  /** Reads a file's enums and puts each into the message that declares it. */
  method LoadFileEnums(t: Tables, v: VersionId, f: Id, tree: seq<ProtoMessage>)
    returns (messages: seq<ProtoMessage>, enums: seq<ProtoEnum>)
    requires Unique(t)
    ensures (messages, enums) == AttachAll(tree, LoadEnumList(t, v, f))
  {
    hide Unique; hide Map; hide Sort; hide Filter; hide AttachAll;
    var rows := QueryEnums(t, v, f);
    var loaded: seq<ProtoEnum> := [];
    for i := 0 to |rows|
      invariant loaded == Map(rows, LoadEnum(t))[..i]
    {
      var values := LoadProtoEnumValues(t, rows[i].id);
      loaded := loaded + [ProtoEnum(rows[i].name, rows[i].fullName, values)];
    }
    assert loaded == LoadEnumList(t, v, f);
    messages, enums := LoadProtoEnums(tree, loaded);
  }

  method LoadOneFile(t: Tables, v: VersionId, row: FileRow) returns (file: ProtoFile)
    requires Buildable(t) && Unique(t)
    ensures SameFileLoaded(file, LoadFile(t, v)(row))
  {
    hide LoadMessageRows; hide LoadServices; hide LoadEnumList; hide AttachAll; hide BuildChildren; hide Unique; hide Sort;
    hide ItemsOf; hide NamesDiffer; hide ParentsFirst; hide Ordered;
    LoadedRowsBuildable(t, v, row.id);
    LoadedNamesDiffer(t, v, row.id);
    var imports := LoadProtoImports(t, row.id);
    var services := LoadProtoServices(t, v, row.id);
    var rows := LoadProtoMessages(t, v, row.id);
    var tree := BuildMessageTree(rows, t.nextMessage);
    var messages, enums := LoadFileEnums(t, v, row.id, tree);
    file := ProtoFile(row.path, row.packageName, row.syntax, imports, services, messages, enums);
  }

  lemma NoRowsNoFiles(t: Tables, v: VersionId)
    ensures Sort(Filter(t.files, FileIn(v)), FileLe) == [] <==> forall row | row in t.files :: row.versionId != v
  {
    FilterMembers(t.files, FileIn(v));
    FileOrder();
    SortIsOrdering(Filter(t.files, FileIn(v)), FileLe);
    var rows, sorted := Filter(t.files, FileIn(v)), Sort(Filter(t.files, FileIn(v)), FileLe);
    hide Filter; hide Sort;
    assert |sorted| == |multiset(sorted)| == |multiset(rows)| == |rows|;
    if row :| row in t.files && row.versionId == v { assert row in rows; }
    if rows != [] { assert rows[0] in rows; }
  }

  /** A load that differs only by imports with equal paths is in order too. */
  lemma SameLoadedInOrder(a: Metadata, b: Metadata)
    requires SameLoaded(a, b) && FilesInOrder(b)
    ensures FilesInOrder(a)
  {
    hide FileInOrder; hide NotAfter; hide Ordered;
    forall i | 0 <= i < |a|
      ensures FileInOrder(a[i]) && a[i].path == b[i].path
    {
      assert SameFileLoaded(a[i], b[i]) && FileInOrder(b[i]);
      assert a[i].(imports := []).path == a[i].path && b[i].(imports := []).path == b[i].path;
      WithoutImportsInOrder(b[i]);
      WithImportsInOrder(b[i], a[i]);
    }
    forall i, j | 0 <= i < j < |a|
      ensures NotAfter(a[i].path, a[j].path)
    {
      assert NotAfter(b[i].path, b[j].path);
    }
  }

  /** Whatever order the database gives rows with equal keys, the answer is the load's, up to
      the order of imports with equal paths: every level in the order of its names or
      numbers. It is not found exactly when no file row names the version. */
  method GetByModuleVersion(store: MetadataStore, v: VersionId) returns (r: Result<Metadata, LoadError>)
    requires Sound(store.tables)
    ensures Buildable(store.tables)
    ensures r.Success? <==> Load(store.tables, v).Success?
    ensures r == Failure(NotFound) <==> forall row | row in store.tables.files :: row.versionId != v
    ensures r.Success? ==> SameLoaded(r.value, Load(store.tables, v).value)
    ensures r.Success? ==> FilesInOrder(r.value)
  {
    hide LoadFile; hide Map; hide Unique; hide Sort; hide Filter; hide SameFileLoaded; hide Consistent; hide FilesInOrder;
    var t := store.tables;
    NoRowsNoFiles(t, v);
    var rows := QueryFiles(t, v);
    if rows == [] {
      return Failure(NotFound);
    }
    var files: Metadata := [];
    for i := 0 to |rows|
      invariant |files| == i
      invariant forall j | 0 <= j < i :: SameFileLoaded(files[j], LoadFile(t, v)(rows[j]))
    {
      var file := LoadOneFile(t, v, rows[i]);
      files := files + [file];
    }
    r := Success(files);
    LoadIsInOrder(t, v);
    SameLoadedInOrder(files, Load(t, v).value);
  }
}
