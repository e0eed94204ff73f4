/** The order in which a load returns things, in terms of numbers and characters. */
module DescriptorOrder {
  import opened Wrappers
  import opened Text
  import opened Sequences
  import opened DescriptorMetadata
  import opened DescriptorRows
  import opened DescriptorLoad

  // What is promised

  predicate FieldsInOrder(fields: seq<ProtoField>) {
    forall i, j | 0 <= i < j < |fields| :: fields[i].number <= fields[j].number
  }

  predicate EnumsInOrder(enums: seq<ProtoEnum>) {
    && (forall i, j | 0 <= i < j < |enums| :: NotAfter(enums[i].fullName, enums[j].fullName))
    && (forall e | e in enums :: forall i, j | 0 <= i < j < |e.values| :: e.values[i].number <= e.values[j].number)
  }

  predicate SiblingsInOrder(messages: seq<ProtoMessage>) {
    forall i, j | 0 <= i < j < |messages| :: NotAfter(messages[i].fullName, messages[j].fullName)
  }

  predicate ServicesInOrder(services: seq<ProtoService>) {
    && (forall i, j | 0 <= i < j < |services| :: NotAfter(services[i].fullName, services[j].fullName))
    && (forall s | s in services :: forall i, j | 0 <= i < j < |s.methods| :: NotAfter(s.methods[i].name, s.methods[j].name))
  }

  /** Every level of a file: names in code point order, numbers ascending, at any depth. */
  ghost predicate FileInOrder(file: ProtoFile) {
    && (forall i, j | 0 <= i < j < |file.imports| :: NotAfter(file.imports[i].path, file.imports[j].path))
    && ServicesInOrder(file.services)
    && SiblingsInOrder(file.messages)
    && EnumsInOrder(file.enums)
    && forall m | Within(m, file.messages) ::
         FieldsInOrder(m.fields) && SiblingsInOrder(m.messages) && EnumsInOrder(m.enums)
  }

  ghost predicate FilesInOrder(files: Metadata) {
    && (forall i, j | 0 <= i < j < |files| :: NotAfter(files[i].path, files[j].path))
    && forall i | 0 <= i < |files| :: FileInOrder(files[i])
  }

  // A forest in order, level by level

  predicate EnumTidy(e: ProtoEnum) {
    forall i, j | 0 <= i < j < |e.values| :: e.values[i].number <= e.values[j].number
  }

  predicate EnumsTidy(enums: seq<ProtoEnum>) {
    && (forall i, j | 0 <= i < j < |enums| :: LessOrEqual(enums[i].fullName, enums[j].fullName))
    && (forall i | 0 <= i < |enums| :: EnumTidy(enums[i]))
  }

  predicate SiblingsTidy(messages: seq<ProtoMessage>) {
    forall i, j | 0 <= i < j < |messages| :: LessOrEqual(messages[i].fullName, messages[j].fullName)
  }

  predicate MessageTidy(m: ProtoMessage)
    decreases m, 1
  {
    FieldsInOrder(m.fields) && EnumsTidy(m.enums) && ForestTidy(m.messages)
  }

  predicate ForestTidy(messages: seq<ProtoMessage>)
    decreases messages, 0
  {
    SiblingsTidy(messages) && forall i | 0 <= i < |messages| :: MessageTidy(messages[i])
  }

  predicate AllUpTo(enums: seq<ProtoEnum>, name: string) {
    forall i | 0 <= i < |enums| :: LessOrEqual(enums[i].fullName, name)
  }

  /** No enum at any depth comes after the name. */
  predicate ForestUpTo(messages: seq<ProtoMessage>, name: string)
    decreases messages
  {
    forall i | 0 <= i < |messages| :: AllUpTo(messages[i].enums, name) && ForestUpTo(messages[i].messages, name)
  }

  lemma {:induction false} LaterName(messages: seq<ProtoMessage>, name: string, later: string)
    requires ForestUpTo(messages, name) && LessOrEqual(name, later)
    ensures ForestUpTo(messages, later)
    decreases messages
  {
    forall i | 0 <= i < |messages|
      ensures AllUpTo(messages[i].enums, later) && ForestUpTo(messages[i].messages, later)
    {
      LaterName(messages[i].messages, name, later);
      LaterAll(messages[i].enums, name, later);
    }
  }

  lemma LaterAll(enums: seq<ProtoEnum>, name: string, later: string)
    requires AllUpTo(enums, name) && LessOrEqual(name, later)
    ensures AllUpTo(enums, later)
  {
    hide LessOrEqual;
    forall i | 0 <= i < |enums|
      ensures LessOrEqual(enums[i].fullName, later)
    {
      LessOrEqualTransitive(enums[i].fullName, name, later);
    }
  }

  // The rebuilt tree

  /** A row's message has its fields in order and nothing nested yet. */
  predicate RowsTidy(rows: seq<TreeRow>) {
    forall r | r in rows :: FieldsInOrder(r.message.fields) && r.message.enums == []
  }

  lemma {:induction false} BuiltTidy(rows: seq<TreeRow>, parentId: Option<Id>, bound: Id, name: string)
    requires ParentsFirst(rows, bound) && Depth(parentId) <= bound && RowsTidy(rows)
    ensures ForestTidy(BuildChildren(rows, parentId, bound))
    ensures ForestUpTo(BuildChildren(rows, parentId, bound), name)
    decreases bound - Depth(parentId), 1, 0
  {
    hide Sort; hide LessOrEqual; hide ChildrenOf;
    ChildrenSorted(rows, parentId);
    TreeRowOrder();
    var kids := Sort(ChildrenOf(rows, parentId), TreeRowLe);
    SortIsOrdering(ChildrenOf(rows, parentId), TreeRowLe);
    BuiltEachTidy(rows, kids, parentId, bound, name);
  }

  lemma {:induction false} BuiltEachTidy(rows: seq<TreeRow>, kids: seq<TreeRow>, parentId: Option<Id>, bound: Id, name: string)
    requires ParentsFirst(rows, bound) && Depth(parentId) <= bound && RowsTidy(rows)
    requires (forall r | r in kids :: r in rows && r.parentId == parentId) && Ordered(kids, TreeRowLe)
    ensures var built := BuildEach(rows, kids, parentId, bound);
            && |built| == |kids|
            && (forall i | 0 <= i < |kids| :: built[i].fullName == kids[i].message.fullName)
            && ForestTidy(built) && ForestUpTo(built, name)
    decreases bound - Depth(parentId), 0, |kids|
  {
    hide LessOrEqual; hide BuildChildren;
    if kids != [] {
      BuiltTidy(rows, Some(kids[0].id), bound, name);
      BuiltEachTidy(rows, kids[1..], parentId, bound, name);
      var m := kids[0].message.(messages := BuildChildren(rows, Some(kids[0].id), bound));
      var rest := BuildEach(rows, kids[1..], parentId, bound);
      assert BuildEach(rows, kids, parentId, bound) == [m] + rest;
      assert kids[0] in rows && MessageTidy(m);
      assert forall i | 0 < i < |kids| :: kids[1..][i - 1] == kids[i];
      TidyCons(m, rest, name);
    }
  }

  lemma TidyCons(m: ProtoMessage, rest: seq<ProtoMessage>, name: string)
    requires MessageTidy(m) && ForestTidy(rest) && ForestUpTo(rest, name)
    requires AllUpTo(m.enums, name) && ForestUpTo(m.messages, name)
    requires forall i | 0 <= i < |rest| :: LessOrEqual(m.fullName, rest[i].fullName)
    ensures ForestTidy([m] + rest) && ForestUpTo([m] + rest, name)
  {
    hide LessOrEqual; hide MessageTidy; hide AllUpTo;
    var all := [m] + rest;
    assert forall i | 0 < i < |all| :: all[i] == rest[i - 1];
    forall i | 0 <= i < |all|
      ensures AllUpTo(all[i].enums, name) && ForestUpTo(all[i].messages, name) && MessageTidy(all[i])
    {
      if i > 0 { assert all[i] == rest[i - 1]; }
    }
  }

  lemma TidyTail(messages: seq<ProtoMessage>, name: string)
    requires messages != [] && ForestTidy(messages) && ForestUpTo(messages, name)
    ensures MessageTidy(messages[0]) && ForestTidy(messages[1..]) && ForestUpTo(messages[1..], name)
    ensures AllUpTo(messages[0].enums, name) && ForestUpTo(messages[0].messages, name)
    ensures forall i | 0 <= i < |messages[1..]| :: LessOrEqual(messages[0].fullName, messages[1..][i].fullName)
  {
    hide LessOrEqual; hide MessageTidy; hide AllUpTo;
  }

  // Attaching enums in name order

  lemma EnumsSnoc(enums: seq<ProtoEnum>, e: ProtoEnum)
    requires EnumsTidy(enums) && EnumTidy(e) && AllUpTo(enums, e.fullName)
    ensures EnumsTidy(enums + [e]) && AllUpTo(enums + [e], e.fullName)
  {
    LessOrEqualTotal(e.fullName, e.fullName);
    hide LessOrEqual; hide EnumTidy;
  }

  lemma {:induction false} AttachTidy(messages: seq<ProtoMessage>, e: ProtoEnum)
    requires ForestTidy(messages) && ForestUpTo(messages, e.fullName) && EnumTidy(e)
    ensures ForestTidy(Attach(messages, e).0) && ForestUpTo(Attach(messages, e).0, e.fullName)
    ensures forall i | 0 <= i < |messages| :: Attach(messages, e).0[i].fullName == messages[i].fullName
    decreases messages
  {
    hide LessOrEqual; hide EnumTidy; hide EnumsTidy; hide AllUpTo; hide HasPrefix; hide FieldsInOrder; hide SiblingsTidy;
    if messages != [] {
      var head, rest := messages[0], messages[1..];
      TidyTail(messages, e.fullName);
      AttachTidy(head.messages, e);
      AttachTidy(rest, e);
      EnumsSnoc(head.enums, e);
      var inner := Attach(head.messages, e);
      TidyCons(head.(messages := inner.0), rest, e.fullName);
      TidyCons(head.(enums := head.enums + [e]), rest, e.fullName);
      TidyCons(head, Attach(rest, e).0, e.fullName);
    }
  }

  lemma {:induction false} AttachAllTidy(messages: seq<ProtoMessage>, enums: seq<ProtoEnum>)
    requires ForestTidy(messages) && EnumsTidy(enums)
    requires forall name: string :: ForestUpTo(messages, name)
    ensures var r := AttachAll(messages, enums);
            && ForestTidy(r.0) && EnumsTidy(r.1)
            && (forall name: string | AllUpTo(enums, name) :: ForestUpTo(r.0, name) && AllUpTo(r.1, name))
    decreases |enums|
  {
    hide LessOrEqual; hide EnumTidy; hide ForestTidy; hide ForestUpTo; hide Attach;
    if enums != [] {
      var init, last := enums[..|enums| - 1], enums[|enums| - 1];
      AttachAllTidy(messages, init);
      var before := AttachAll(messages, init);
      assert AllUpTo(init, last.fullName);
      AttachTidy(before.0, last);
      EnumsSnoc(before.1, last);
      forall name: string | AllUpTo(enums, name)
        ensures ForestUpTo(AttachAll(messages, enums).0, name) && AllUpTo(AttachAll(messages, enums).1, name)
      {
        assert AllUpTo(init, name);
        LaterName(Attach(before.0, last).0, last.fullName, name);
      }
    }
  }

  // A loaded file

  lemma NumbersSorted(fields: seq<ProtoField>, values: seq<ProtoEnumValue>)
    ensures FieldsInOrder(Sort(fields, FieldLe))
    ensures forall i, j | 0 <= i < j < |Sort(values, ValueLe)| :: Sort(values, ValueLe)[i].number <= Sort(values, ValueLe)[j].number
  {
    SortIsOrdering(fields, FieldLe);
    SortIsOrdering(values, ValueLe);
    hide Sort;
  }

  lemma RowsLoadTidy(t: Tables, v: VersionId, f: Id)
    ensures RowsTidy(LoadMessageRows(t, v, f))
  {
    hide Sort; hide Filter; hide ItemsOf; hide FieldsInOrder;
    var rows := LoadMessageRows(t, v, f);
    forall r | r in rows
      ensures FieldsInOrder(r.message.fields) && r.message.enums == []
    {
      var i :| 0 <= i < |rows| && rows[i] == r;
      var row := Sort(Filter(t.messages, MessageIn(v, f)), MessageRowLe)[i];
      NumbersSorted(ItemsOf(t.fields, row.id), []);
    }
  }

  lemma EnumsLoadTidy(t: Tables, v: VersionId, f: Id)
    ensures EnumsTidy(LoadEnumList(t, v, f))
  {
    EnumRowOrder();
    var selected := Filter(t.enums, EnumIn(v, f));
    SortIsOrdering(selected, EnumRowLe);
    hide Sort; hide Filter; hide ItemsOf; hide LessOrEqual;
    var rows, enums := Sort(selected, EnumRowLe), LoadEnumList(t, v, f);
    forall i | 0 <= i < |enums|
      ensures EnumTidy(enums[i]) && enums[i].fullName == rows[i].fullName
    {
      NumbersSorted([], ItemsOf(t.values, rows[i].id));
    }
  }

  lemma ServiceRowsSorted(rows: seq<ServiceRow>, i: nat, j: nat)
    requires i < j < |Sort(rows, ServiceRowLe)|
    ensures NotAfter(Sort(rows, ServiceRowLe)[i].fullName, Sort(rows, ServiceRowLe)[j].fullName)
  {
    ServiceRowOrder();
    SortIsOrdering(rows, ServiceRowLe);
    hide Sort; hide LessOrEqual; hide NotAfter;
    LessOrEqualMeans(Sort(rows, ServiceRowLe)[i].fullName, Sort(rows, ServiceRowLe)[j].fullName);
  }

  lemma ServicesLoadInOrder(t: Tables, v: VersionId, f: Id)
    ensures ServicesInOrder(LoadServices(t, v, f))
  {
    hide Sort; hide Filter; hide ItemsOf; hide NotAfter;
    var selected := Filter(t.services, ServiceIn(v, f));
    var rows, services := Sort(selected, ServiceRowLe), LoadServices(t, v, f);
    forall i, j | 0 <= i < j < |services|
      ensures NotAfter(services[i].fullName, services[j].fullName)
    {
      ServiceRowsSorted(selected, i, j);
      assert services[i] == LoadService(t)(rows[i]) && services[j] == LoadService(t)(rows[j]);
    }
    forall k, i, j | 0 <= k < |services| && 0 <= i < j < |services[k].methods|
      ensures NotAfter(services[k].methods[i].name, services[k].methods[j].name)
    {
      assert services[k] == LoadService(t)(rows[k]);
      MethodsSorted(ItemsOf(t.methods, rows[k].id), i, j);
    }
    MethodsEverywhere(services);
  }

  lemma MethodsEverywhere(services: seq<ProtoService>)
    requires forall i, j | 0 <= i < j < |services| :: NotAfter(services[i].fullName, services[j].fullName)
    requires forall k | 0 <= k < |services| ::
               forall i, j | 0 <= i < j < |services[k].methods| ::
                 NotAfter(services[k].methods[i].name, services[k].methods[j].name)
    ensures ServicesInOrder(services)
  {
    hide NotAfter;
  }

  lemma MethodsSorted(methods: seq<ProtoMethod>, i: nat, j: nat)
    requires i < j < |Sort(methods, MethodLe)|
    ensures NotAfter(Sort(methods, MethodLe)[i].name, Sort(methods, MethodLe)[j].name)
  {
    MethodOrder();
    SortIsOrdering(methods, MethodLe);
    hide Sort; hide LessOrEqual; hide NotAfter;
    LessOrEqualMeans(Sort(methods, MethodLe)[i].name, Sort(methods, MethodLe)[j].name);
  }

  lemma ImportsInOrder(imports: seq<ProtoImport>)
    requires Ordered(imports, ImportLe)
    ensures forall i, j | 0 <= i < j < |imports| :: NotAfter(imports[i].path, imports[j].path)
  {
    hide LessOrEqual; hide NotAfter;
    forall i, j | 0 <= i < j < |imports|
      ensures NotAfter(imports[i].path, imports[j].path)
    {
      LessOrEqualMeans(imports[i].path, imports[j].path);
    }
  }

  lemma EnumsMean(enums: seq<ProtoEnum>)
    requires EnumsTidy(enums)
    ensures EnumsInOrder(enums)
  {
    hide LessOrEqual; hide NotAfter;
    forall i, j | 0 <= i < j < |enums|
      ensures NotAfter(enums[i].fullName, enums[j].fullName)
    {
      LessOrEqualMeans(enums[i].fullName, enums[j].fullName);
    }
  }

  lemma SiblingsMean(messages: seq<ProtoMessage>)
    requires SiblingsTidy(messages)
    ensures SiblingsInOrder(messages)
  {
    hide LessOrEqual; hide NotAfter;
    forall i, j | 0 <= i < j < |messages|
      ensures NotAfter(messages[i].fullName, messages[j].fullName)
    {
      LessOrEqualMeans(messages[i].fullName, messages[j].fullName);
    }
  }

  lemma {:induction false} TidyAtDepth(messages: seq<ProtoMessage>, m: ProtoMessage)
    requires ForestTidy(messages) && Within(m, messages)
    ensures FieldsInOrder(m.fields) && SiblingsInOrder(m.messages) && EnumsInOrder(m.enums)
    decreases messages
  {
    hide FieldsInOrder; hide SiblingsInOrder; hide EnumsInOrder; hide SiblingsTidy; hide EnumsTidy;
    var i :| 0 <= i < |messages| && (m == messages[i] || Within(m, messages[i].messages));
    assert MessageTidy(messages[i]);
    if m == messages[i] {
      assert ForestTidy(m.messages);
      SiblingsMean(m.messages);
      EnumsMean(m.enums);
    } else {
      TidyAtDepth(messages[i].messages, m);
    }
  }

  /** Whatever the tables hold, a loaded file is in order at every level. */
  lemma LoadedFileInOrder(t: Tables, v: VersionId, row: FileRow)
    requires Buildable(t)
    ensures FileInOrder(LoadFile(t, v)(row).(imports := []))
    ensures LoadFile(t, v)(row).path == row.path
  {
    hide LoadMessageRows; hide LoadServices; hide LoadEnumList; hide BuildChildren; hide AttachAll; hide Sort; hide ItemsOf;
    hide ForestTidy; hide EnumsTidy; hide ServicesInOrder; hide EnumsInOrder; hide SiblingsInOrder; hide FieldsInOrder;
    hide ForestUpTo;
    LoadedRowsBuildable(t, v, row.id);
    RowsLoadTidy(t, v, row.id);
    EnumsLoadTidy(t, v, row.id);
    ServicesLoadInOrder(t, v, row.id);
    var tree := BuildChildren(LoadMessageRows(t, v, row.id), None, t.nextMessage);
    forall name: string
      ensures ForestUpTo(tree, name) && ForestTidy(tree)
    {
      BuiltTidy(LoadMessageRows(t, v, row.id), None, t.nextMessage, name);
    }
    BuiltTidy(LoadMessageRows(t, v, row.id), None, t.nextMessage, "");
    AttachAllTidy(tree, LoadEnumList(t, v, row.id));
    var file := LoadFile(t, v)(row);
    TopTidy(file.messages);
    EnumsMean(file.enums);
    forall m | Within(m, file.messages)
      ensures FieldsInOrder(m.fields) && SiblingsInOrder(m.messages) && EnumsInOrder(m.enums)
    {
      TidyAtDepth(file.messages, m);
    }
  }

  lemma TopTidy(messages: seq<ProtoMessage>)
    requires ForestTidy(messages)
    ensures SiblingsInOrder(messages)
  {
    SiblingsMean(messages);
  }

  lemma WithoutImportsInOrder(file: ProtoFile)
    requires FileInOrder(file)
    ensures FileInOrder(file.(imports := []))
  {
    hide ServicesInOrder; hide EnumsInOrder; hide SiblingsInOrder; hide FieldsInOrder; hide Within; hide NotAfter;
    assert file.(imports := []).messages == file.messages;
  }

  /** The same file, with imports that are ordered too. */
  lemma WithImportsInOrder(loaded: ProtoFile, file: ProtoFile)
    requires FileInOrder(loaded.(imports := [])) && file.(imports := []) == loaded.(imports := [])
    requires Ordered(file.imports, ImportLe)
    ensures FileInOrder(file)
  {
    hide ServicesInOrder; hide EnumsInOrder; hide SiblingsInOrder; hide FieldsInOrder; hide Within; hide NotAfter; hide Ordered;
    ImportsInOrder(file.imports);
    assert file.(imports := []).messages == file.messages && loaded.(imports := []).messages == loaded.messages;
  }

  lemma FileRowsSorted(rows: seq<FileRow>, i: nat, j: nat)
    requires i < j < |Sort(rows, FileLe)|
    ensures NotAfter(Sort(rows, FileLe)[i].path, Sort(rows, FileLe)[j].path)
  {
    FileOrder();
    SortIsOrdering(rows, FileLe);
    hide Sort; hide LessOrEqual; hide NotAfter;
    LessOrEqualMeans(Sort(rows, FileLe)[i].path, Sort(rows, FileLe)[j].path);
  }

  lemma WholeFileInOrder(t: Tables, v: VersionId, row: FileRow)
    requires Buildable(t)
    ensures FileInOrder(LoadFile(t, v)(row)) && LoadFile(t, v)(row).path == row.path
  {
    LoadedFileInOrder(t, v, row);
    LoadedImports(t, v, row);
    hide LoadFile; hide FileInOrder; hide Ordered;
    WithImportsInOrder(LoadFile(t, v)(row), LoadFile(t, v)(row));
  }

  /** Every load is in order: files by path, and every level of every file. */
  lemma LoadIsInOrder(t: Tables, v: VersionId)
    requires Buildable(t) && Load(t, v).Success?
    ensures FilesInOrder(Load(t, v).value)
  {
    hide Sort; hide Filter; hide LoadFile; hide NotAfter; hide FileInOrder;
    var selected := Filter(t.files, FileIn(v));
    var rows, files := Sort(selected, FileLe), Load(t, v).value;
    forall i | 0 <= i < |files|
      ensures FileInOrder(files[i]) && files[i].path == rows[i].path
    {
      WholeFileInOrder(t, v, rows[i]);
      assert files[i] == LoadFile(t, v)(rows[i]);
    }
    forall i, j | 0 <= i < j < |files|
      ensures NotAfter(files[i].path, files[j].path)
    {
      FileRowsSorted(selected, i, j);
    }
  }

  lemma LoadedImports(t: Tables, v: VersionId, row: FileRow)
    requires Buildable(t)
    ensures Ordered(LoadFile(t, v)(row).imports, ImportLe)
  {
    ImportOrder();
    SortIsOrdering(ItemsOf(t.imports, row.id), ImportLe);
    hide Sort; hide ItemsOf; hide Ordered;
  }
}
