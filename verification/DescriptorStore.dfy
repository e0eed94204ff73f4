/** The repository's write path: insert loops over the tables. A unique constraint may refuse
    an insert; the error then leaves every loop and the transaction is rolled back. */
module DescriptorStore {
  import opened Wrappers
  import opened Sequences
  import opened DescriptorMetadata
  import opened DescriptorRows
  import opened DescriptorTables
  import opened DescriptorKeys

  datatype SaveError = Duplicate

  /** How a group of inserts ends: all of them are made, or one is refused because they
      cannot all be made. */
  predicate Outcome(ok: bool, after: Tables, expected: Tables) {
    (ok <==> Unique(expected)) && (ok ==> after == expected)
  }

  class MetadataStore {
    var tables: Tables

    constructor ()
      ensures tables == EMPTY_TABLES && Sound(tables)
    {
      tables := EMPTY_TABLES;
      EmptyTablesSound();
    }

    method CreateProtoFile(v: VersionId, file: ProtoFile) returns (ok: bool, f: Id)
      requires Unique(tables)
      modifies this
      ensures f == old(tables).nextFile
      ensures Outcome(ok, tables, AddFileRow(old(tables), v, file.(imports := [])))
    {
      hide Distinct;
      f := tables.nextFile;
      var row := FileRow(f, v, file.path, file.packageName, file.syntax);
      DistinctSnoc(tables.files, row, FileKey);
      if Clash(tables.files, row, FileKey) {
        return false, f;
      }
      tables := tables.(files := tables.files + [row], nextFile := f + 1);
      ok := true;
    }

    method CreateProtoImports(f: Id, imports: seq<ProtoImport>)
      requires Unique(tables)
      modifies this
      ensures tables == old(tables).(imports := old(tables).imports + Own(f, imports)) && Unique(tables)
    {
      hide Distinct;
      for i := 0 to |imports|
        invariant tables == old(tables).(imports := old(tables).imports + Own(f, imports[..i]))
      {
        tables := tables.(imports := tables.imports + [Owned(f, imports[i])]);
        assert imports[..i + 1] == imports[..i] + [imports[i]];
        OwnSnoc(f, imports[..i], imports[i]);
      }
      assert imports[..|imports|] == imports;
    }

    method CreateProtoMethods(serviceId: Id, methods: seq<ProtoMethod>) returns (ok: bool)
      requires Unique(tables)
      modifies this
      ensures Outcome(ok, tables, old(tables).(methods := old(tables).methods + Own(serviceId, methods)))
    {
      hide Distinct;
      for i := 0 to |methods|
        invariant tables == old(tables).(methods := old(tables).methods + Own(serviceId, methods[..i])) && Unique(tables)
      {
        var row := Owned(serviceId, methods[i]);
        DistinctSnoc(tables.methods, row, OwnedKey(MethodName));
        OwnStep(serviceId, methods, i);
        if Clash(tables.methods, row, OwnedKey(MethodName)) {
          ViolationStays(tables.(methods := tables.methods + [row]),
                         old(tables).(methods := old(tables).methods + Own(serviceId, methods)));
          return false;
        }
        tables := tables.(methods := tables.methods + [row]);
      }
      assert methods[..|methods|] == methods;
      ok := true;
    }

    method CreateServiceRow(v: VersionId, f: Id, packageName: string, service: ProtoService) returns (ok: bool)
      requires Unique(tables)
      modifies this
      ensures Outcome(ok, tables, AddServiceRow(old(tables), v, f, packageName, service))
    {
      hide Distinct; hide Own;
      var id := tables.nextService;
      var row := ServiceRow(id, v, f, packageName, service.name, service.fullName);
      DistinctSnoc(tables.services, row, ServiceKey);
      if Clash(tables.services, row, ServiceKey) {
        ViolationStays(tables.(services := tables.services + [row]), AddServiceRow(tables, v, f, packageName, service));
        return false;
      }
      tables := tables.(services := tables.services + [row], nextService := id + 1);
      ok := CreateProtoMethods(id, service.methods);
    }

    method CreateProtoServices(v: VersionId, f: Id, packageName: string, services: seq<ProtoService>) returns (ok: bool)
      requires Unique(tables)
      modifies this
      ensures Outcome(ok, tables, AddServices(old(tables), v, f, packageName, services))
    {
      hide AddServices; hide AddServiceRow; hide Unique; hide Extends;
      AddNothing(old(tables), v, f, packageName);
      for i := 0 to |services|
        invariant tables == AddServices(old(tables), v, f, packageName, services[..i]) && Unique(tables)
      {
        assert services[..i + 1] == services[..i] + [services[i]];
        AddServicesSnoc(old(tables), v, f, packageName, services[..i], services[i]);
        ok := CreateServiceRow(v, f, packageName, services[i]);
        if !ok {
          ServicesExtend(old(tables), v, f, packageName, services, i + 1);
          ViolationStays(AddServices(old(tables), v, f, packageName, services[..i + 1]),
                         AddServices(old(tables), v, f, packageName, services));
          return;
        }
      }
      assert services[..|services|] == services;
      ok := true;
    }

    method CreateProtoFields(messageId: Id, fields: seq<ProtoField>) returns (ok: bool)
      requires Unique(tables)
      modifies this
      ensures Outcome(ok, tables, old(tables).(fields := old(tables).fields + Own(messageId, fields)))
    {
      hide Distinct;
      for i := 0 to |fields|
        invariant tables == old(tables).(fields := old(tables).fields + Own(messageId, fields[..i])) && Unique(tables)
      {
        var row := Owned(messageId, fields[i]);
        DistinctSnoc(tables.fields, row, OwnedKey(FieldNumber));
        OwnStep(messageId, fields, i);
        if Clash(tables.fields, row, OwnedKey(FieldNumber)) {
          ViolationStays(tables.(fields := tables.fields + [row]),
                         old(tables).(fields := old(tables).fields + Own(messageId, fields)));
          return false;
        }
        tables := tables.(fields := tables.fields + [row]);
      }
      assert fields[..|fields|] == fields;
      ok := true;
    }

    method CreateMessageRow(v: VersionId, f: Id, parentId: Option<Id>, packageName: string, m: ProtoMessage)
      returns (ok: bool, id: Id)
      requires Unique(tables)
      modifies this
      ensures id == old(tables).nextMessage
      ensures Outcome(ok, tables, AddMessageRow(old(tables), v, f, packageName, m, parentId))
    {
      hide Distinct; hide Own;
      id := tables.nextMessage;
      var row := MessageRow(id, v, f, parentId, packageName, m.name, m.fullName);
      DistinctSnoc(tables.messages, row, MessageKey);
      if Clash(tables.messages, row, MessageKey) {
        ViolationStays(tables.(messages := tables.messages + [row]), AddMessageRow(tables, v, f, packageName, m, parentId));
        return false, id;
      }
      tables := tables.(messages := tables.messages + [row], nextMessage := id + 1);
      ok := CreateProtoFields(id, m.fields);
    }

    /** Inserts a message, its fields, everything nested in it, and its enums. */
    method CreateProtoMessage(v: VersionId, f: Id, parentId: Option<Id>, packageName: string, m: ProtoMessage) returns (ok: bool)
      requires Unique(tables)
      modifies this
      ensures Outcome(ok, tables, AddMessages(old(tables), v, f, packageName, [m], parentId))
      decreases m, 1
    {
      hide AddMessages; hide AddMessageRow; hide AddEnums; hide Unique; hide Extends;
      ghost var expected := AddMessages(old(tables), v, f, packageName, [m], parentId);
      ghost var rowed := AddMessageRow(old(tables), v, f, packageName, m, parentId);
      ghost var nested := AddMessages(rowed, v, f, packageName, m.messages, Some(old(tables).nextMessage));
      AddSingleMessage(old(tables), v, f, packageName, m, parentId);
      AddMessagesExtends(rowed, v, f, packageName, m.messages, Some(old(tables).nextMessage));
      AddEnumsExtends(nested, v, f, packageName, m.enums);
      ExtendsTransitive(rowed, nested, expected);
      var id;
      ok, id := CreateMessageRow(v, f, parentId, packageName, m);
      if !ok {
        ViolationStays(rowed, expected);
        return;
      }
      ok := CreateNestedMessages(v, f, Some(id), packageName, m.messages);
      if !ok {
        ViolationStays(nested, expected);
        return;
      }
      ok := CreateProtoEnums(v, f, packageName, m.enums);
    }

    method CreateNestedMessages(v: VersionId, f: Id, parentId: Option<Id>, packageName: string, messages: seq<ProtoMessage>)
      returns (ok: bool)
      requires Unique(tables)
      modifies this
      ensures Outcome(ok, tables, AddMessages(old(tables), v, f, packageName, messages, parentId))
      decreases messages, 0
    {
      hide AddMessages; hide Unique; hide Extends;
      AddNoMessages(old(tables), v, f, packageName, parentId);
      for i := 0 to |messages|
        invariant tables == AddMessages(old(tables), v, f, packageName, messages[..i], parentId) && Unique(tables)
      {
        assert messages[..i + 1] == messages[..i] + [messages[i]];
        AddMessagesOneByOne(old(tables), v, f, packageName, messages[..i], messages[i], parentId);
        ok := CreateProtoMessage(v, f, parentId, packageName, messages[i]);
        if !ok {
          MessagesExtend(old(tables), v, f, packageName, messages, parentId, i + 1);
          ViolationStays(AddMessages(old(tables), v, f, packageName, messages[..i + 1], parentId),
                         AddMessages(old(tables), v, f, packageName, messages, parentId));
          return;
        }
      }
      assert messages[..|messages|] == messages;
      ok := true;
    }

    method CreateEnumValues(enumId: Id, values: seq<ProtoEnumValue>) returns (ok: bool)
      requires Unique(tables)
      modifies this
      ensures Outcome(ok, tables, old(tables).(values := old(tables).values + Own(enumId, values)))
    {
      hide Distinct;
      for i := 0 to |values|
        invariant tables == old(tables).(values := old(tables).values + Own(enumId, values[..i])) && Unique(tables)
      {
        var row := Owned(enumId, values[i]);
        DistinctSnoc(tables.values, row, OwnedKey(ValueNumber));
        OwnStep(enumId, values, i);
        if Clash(tables.values, row, OwnedKey(ValueNumber)) {
          ViolationStays(tables.(values := tables.values + [row]),
                         old(tables).(values := old(tables).values + Own(enumId, values)));
          return false;
        }
        tables := tables.(values := tables.values + [row]);
      }
      assert values[..|values|] == values;
      ok := true;
    }

    method CreateEnumRow(v: VersionId, f: Id, packageName: string, e: ProtoEnum) returns (ok: bool)
      requires Unique(tables)
      modifies this
      ensures Outcome(ok, tables, AddEnumRow(old(tables), v, f, packageName, e))
    {
      hide Distinct; hide Own;
      var id := tables.nextEnum;
      var row := EnumRow(id, v, f, packageName, e.name, e.fullName);
      DistinctSnoc(tables.enums, row, EnumKey);
      if Clash(tables.enums, row, EnumKey) {
        ViolationStays(tables.(enums := tables.enums + [row]), AddEnumRow(tables, v, f, packageName, e));
        return false;
      }
      tables := tables.(enums := tables.enums + [row], nextEnum := id + 1);
      ok := CreateEnumValues(id, e.values);
    }

    method CreateProtoEnums(v: VersionId, f: Id, packageName: string, enums: seq<ProtoEnum>) returns (ok: bool)
      requires Unique(tables)
      modifies this
      ensures Outcome(ok, tables, AddEnums(old(tables), v, f, packageName, enums))
    {
      hide AddEnums; hide AddEnumRow; hide Unique; hide Extends;
      AddNothing(old(tables), v, f, packageName);
      for i := 0 to |enums|
        invariant tables == AddEnums(old(tables), v, f, packageName, enums[..i]) && Unique(tables)
      {
        assert enums[..i + 1] == enums[..i] + [enums[i]];
        AddEnumsSnoc(old(tables), v, f, packageName, enums[..i], enums[i]);
        ok := CreateEnumRow(v, f, packageName, enums[i]);
        if !ok {
          EnumsExtend(old(tables), v, f, packageName, enums, i + 1);
          ViolationStays(AddEnums(old(tables), v, f, packageName, enums[..i + 1]),
                         AddEnums(old(tables), v, f, packageName, enums));
          return;
        }
      }
      assert enums[..|enums|] == enums;
      ok := true;
    }

    method SaveFile(v: VersionId, file: ProtoFile) returns (ok: bool)
      requires Unique(tables)
      modifies this
      ensures Outcome(ok, tables, AddFile(old(tables), v, file))
    {
      hide AddServices; hide AddMessages; hide AddEnums; hide Unique; hide Extends;
      var f;
      ghost var rowed := AddFileRow(old(tables), v, file);
      ghost var services := AddServices(rowed, v, old(tables).nextFile, file.packageName, file.services);
      ghost var messages := AddMessages(services, v, old(tables).nextFile, file.packageName, file.messages, None);
      FileSteps(old(tables), v, file);
      ok, f := CreateProtoFile(v, file);
      if !ok {
        ViolationStays(AddFileRow(old(tables), v, file.(imports := [])), AddFile(old(tables), v, file));
        return;
      }
      ImportsLast(old(tables), v, file);
      CreateProtoImports(f, file.imports);
      ok := CreateProtoServices(v, f, file.packageName, file.services);
      if !ok {
        ViolationStays(services, AddFile(old(tables), v, file));
        return;
      }
      ok := CreateNestedMessages(v, f, None, file.packageName, file.messages);
      if !ok {
        ViolationStays(messages, AddFile(old(tables), v, file));
        return;
      }
      ok := CreateProtoEnums(v, f, file.packageName, file.enums);
    }

    /** Replaces whatever is stored for the version, in one transaction: it succeeds exactly
        when the metadata's names and numbers differ where the constraints demand it, and
        otherwise changes nothing. */
    method Save(v: VersionId, files: Metadata) returns (r: Result<(), SaveError>)
      requires Sound(tables)
      modifies this
      ensures Sound(tables)
      ensures r.Success? <==> Storable(files)
      ensures tables == if r.Success? then Saved(old(tables), v, files) else old(tables)
    {
      hide Valid; hide Consistent; hide Unique; hide AddFile; hide DeleteVersion; hide Storable; hide Extends;
      var snapshot := tables;
      DeleteSound(tables, v);
      SavedUnique(tables, v, files);
      tables := DeleteVersion(tables, v);
      ghost var cleared := tables;
      for i := 0 to |files|
        invariant tables == AddFiles(cleared, v, files[..i]) && Unique(tables)
      {
        assert files[..i + 1][..i] == files[..i];
        var ok := SaveFile(v, files[i]);
        if !ok {
          FilesExtend(cleared, v, files, i + 1);
          ViolationStays(AddFiles(cleared, v, files[..i + 1]), AddFiles(cleared, v, files));
          tables := snapshot;
          return Failure(Duplicate);
        }
      }
      assert files[..|files|] == files;
      SavedSound(snapshot, v, files);
      r := Success(());
    }
  }

  // One row more

  function AddServiceRow(t: Tables, v: VersionId, f: Id, packageName: string, s: ProtoService): Tables {
    t.(services := t.services + [ServiceRow(t.nextService, v, f, packageName, s.name, s.fullName)],
       nextService := t.nextService + 1,
       methods := t.methods + Own(t.nextService, s.methods))
  }

  function AddEnumRow(t: Tables, v: VersionId, f: Id, packageName: string, e: ProtoEnum): Tables {
    t.(enums := t.enums + [EnumRow(t.nextEnum, v, f, packageName, e.name, e.fullName)],
       nextEnum := t.nextEnum + 1,
       values := t.values + Own(t.nextEnum, e.values))
  }

  lemma AddNothing(t: Tables, v: VersionId, f: Id, packageName: string)
    ensures AddServices(t, v, f, packageName, []) == t
    ensures AddEnums(t, v, f, packageName, []) == t
  {
    assert AddEnums(t, v, f, packageName, []) == t;
    assert AddServices(t, v, f, packageName, []) == t;
  }

  lemma AddNoMessages(t: Tables, v: VersionId, f: Id, packageName: string, parentId: Option<Id>)
    ensures AddMessages(t, v, f, packageName, [], parentId) == t
  {
    AddNothing(t, v, f, packageName);
    assert AddMessageRows(t, v, f, packageName, [], parentId) == t;
  }

  lemma AddEnumsSnoc(t: Tables, v: VersionId, f: Id, packageName: string, enums: seq<ProtoEnum>, e: ProtoEnum)
    ensures AddEnums(t, v, f, packageName, enums + [e]) ==
            AddEnumRow(AddEnums(t, v, f, packageName, enums), v, f, packageName, e)
  {
    var before := AddEnums(t, v, f, packageName, enums);
    AddEnumsConcat(t, v, f, packageName, enums, [e]);
    assert Map([e], ValuesOf) == [e.values];
    assert OwnedRows([e.values], before.nextEnum) == Own(before.nextEnum, e.values);
    assert EnumRows(v, f, packageName, [e], before.nextEnum) ==
           [EnumRow(before.nextEnum, v, f, packageName, e.name, e.fullName)];
    hide EnumRows; hide OwnedRows; hide Map;
  }

  lemma AddServicesSnoc(t: Tables, v: VersionId, f: Id, packageName: string, services: seq<ProtoService>, s: ProtoService)
    ensures AddServices(t, v, f, packageName, services + [s]) ==
            AddServiceRow(AddServices(t, v, f, packageName, services), v, f, packageName, s)
  {
    assert (services + [s])[..|services|] == services;
    MapConcat(services, [s], MethodsOf);
    assert Map([s], MethodsOf) == [s.methods];
    OwnedRowsSnoc(Map(services, MethodsOf), s.methods, t.nextService);
    hide OwnedRows; hide Map;
  }

  /** Item i's row comes behind those of the items before it, and ahead of the rest. */
  lemma OwnStep<T>(owner: Id, items: seq<T>, i: nat)
    requires i < |items|
    ensures Own(owner, items[..i + 1]) == Own(owner, items[..i]) + [Owned(owner, items[i])]
    ensures Own(owner, items[..i + 1]) <= Own(owner, items)
  {
    SplitAt(items, i);
    OwnSnoc(owner, items[..i], items[i]);
    OwnPrefix(owner, items, i + 1);
  }

  lemma {:induction false} OwnPrefix<T>(owner: Id, items: seq<T>, i: nat)
    requires i <= |items|
    ensures Own(owner, items[..i]) <= Own(owner, items)
  {
    if i < |items| {
      var init := items[..|items| - 1];
      OwnPrefix(owner, init, i);
      assert init[..i] == items[..i];
    } else {
      assert items[..i] == items;
    }
  }

  // Inserts only add rows

  lemma ExtendsTransitive(a: Tables, b: Tables, c: Tables)
    requires Extends(a, b) && Extends(b, c)
    ensures Extends(a, c)
  {}

  lemma AddEnumsExtends(t: Tables, v: VersionId, f: Id, packageName: string, enums: seq<ProtoEnum>)
    ensures Extends(t, AddEnums(t, v, f, packageName, enums))
  {}

  lemma AddServicesExtends(t: Tables, v: VersionId, f: Id, packageName: string, services: seq<ProtoService>)
    ensures Extends(t, AddServices(t, v, f, packageName, services))
  {}

  lemma AddMessagesExtends(t: Tables, v: VersionId, f: Id, packageName: string, messages: seq<ProtoMessage>, parentId: Option<Id>)
    ensures Extends(t, AddMessages(t, v, f, packageName, messages, parentId))
  {
    hide Nodes; hide FieldGroups; hide OwnedRows; hide EnumRows; hide Map; hide ForestEnums; hide MessageTotal;
  }

  lemma EnumsExtend(t: Tables, v: VersionId, f: Id, packageName: string, enums: seq<ProtoEnum>, i: nat)
    requires i <= |enums|
    ensures Extends(AddEnums(t, v, f, packageName, enums[..i]), AddEnums(t, v, f, packageName, enums))
  {
    hide AddEnums; hide Extends;
    AddEnumsConcat(t, v, f, packageName, enums[..i], enums[i..]);
    assert enums[..i] + enums[i..] == enums;
    AddEnumsExtends(AddEnums(t, v, f, packageName, enums[..i]), v, f, packageName, enums[i..]);
  }

  lemma {:induction false} ServicesExtend(t: Tables, v: VersionId, f: Id, packageName: string, services: seq<ProtoService>, i: nat)
    requires i <= |services|
    ensures Extends(AddServices(t, v, f, packageName, services[..i]), AddServices(t, v, f, packageName, services))
  {
    hide AddServices;
    if i == |services| {
      assert services[..i] == services;
    } else {
      hide Extends;
      var init, last := services[..|services| - 1], services[|services| - 1];
      ServicesExtend(t, v, f, packageName, init, i);
      assert init[..i] == services[..i] && services == init + [last];
      AddServicesSnoc(t, v, f, packageName, init, last);
      ServiceRowExtends(AddServices(t, v, f, packageName, init), v, f, packageName, last);
      ExtendsTransitive(AddServices(t, v, f, packageName, services[..i]), AddServices(t, v, f, packageName, init),
                        AddServices(t, v, f, packageName, services));
    }
  }

  lemma ServiceRowExtends(t: Tables, v: VersionId, f: Id, packageName: string, s: ProtoService)
    ensures Extends(t, AddServiceRow(t, v, f, packageName, s))
  {}

  lemma {:induction false} MessagesExtend(t: Tables, v: VersionId, f: Id, packageName: string, messages: seq<ProtoMessage>,
                                          parentId: Option<Id>, i: nat)
    requires i <= |messages|
    ensures Extends(AddMessages(t, v, f, packageName, messages[..i], parentId),
                    AddMessages(t, v, f, packageName, messages, parentId))
  {
    hide AddMessages;
    if i == |messages| {
      assert messages[..i] == messages;
    } else {
      hide Extends;
      var init, last := messages[..|messages| - 1], messages[|messages| - 1];
      MessagesExtend(t, v, f, packageName, init, parentId, i);
      assert init[..i] == messages[..i] && messages == init + [last];
      AddMessagesOneByOne(t, v, f, packageName, init, last, parentId);
      AddMessagesExtends(AddMessages(t, v, f, packageName, init, parentId), v, f, packageName, [last], parentId);
      ExtendsTransitive(AddMessages(t, v, f, packageName, messages[..i], parentId),
                        AddMessages(t, v, f, packageName, init, parentId),
                        AddMessages(t, v, f, packageName, messages, parentId));
    }
  }

  /** The stages of saving a file, each an extension of the one before. */
  lemma FileSteps(t: Tables, v: VersionId, file: ProtoFile)
    ensures var rowed := AddFileRow(t, v, file);
            var services := AddServices(rowed, v, t.nextFile, file.packageName, file.services);
            var messages := AddMessages(services, v, t.nextFile, file.packageName, file.messages, None);
            && AddFile(t, v, file) == AddEnums(messages, v, t.nextFile, file.packageName, file.enums)
            && Extends(AddFileRow(t, v, file.(imports := [])), AddFile(t, v, file))
            && Extends(services, AddFile(t, v, file))
            && Extends(messages, AddFile(t, v, file))
  {
    var rowed := AddFileRow(t, v, file);
    var services := AddServices(rowed, v, t.nextFile, file.packageName, file.services);
    var messages := AddMessages(services, v, t.nextFile, file.packageName, file.messages, None);
    ImportsLast(t, v, file);
    hide AddServices; hide AddMessages; hide AddEnums; hide Extends; hide AddFileRow;
    AddServicesExtends(rowed, v, t.nextFile, file.packageName, file.services);
    AddMessagesExtends(services, v, t.nextFile, file.packageName, file.messages, None);
    AddEnumsExtends(messages, v, t.nextFile, file.packageName, file.enums);
    ExtendsTransitive(AddFileRow(t, v, file.(imports := [])), rowed, services);
    ExtendsTransitive(AddFileRow(t, v, file.(imports := [])), services, messages);
    ExtendsTransitive(AddFileRow(t, v, file.(imports := [])), messages, AddFile(t, v, file));
    ExtendsTransitive(services, messages, AddFile(t, v, file));
  }

  lemma ImportsLast(t: Tables, v: VersionId, file: ProtoFile)
    ensures var bare := AddFileRow(t, v, file.(imports := []));
            && AddFileRow(t, v, file) == bare.(imports := bare.imports + Own(t.nextFile, file.imports))
            && Extends(bare, AddFileRow(t, v, file))
  {}

  lemma AddFileExtends(t: Tables, v: VersionId, file: ProtoFile)
    ensures Extends(t, AddFile(t, v, file))
  {
    AddFileAppends(t, v, file);
    hide AddFile; hide FileServiceRows; hide FileMessageRows; hide FileEnumRows; hide OwnedRows; hide Own; hide Map;
  }

  lemma {:induction false} FilesExtend(t: Tables, v: VersionId, files: Metadata, i: nat)
    requires i <= |files|
    ensures Extends(AddFiles(t, v, files[..i]), AddFiles(t, v, files))
  {
    hide AddFile;
    if i == |files| {
      assert files[..i] == files;
    } else {
      hide Extends;
      var init, last := files[..|files| - 1], files[|files| - 1];
      FilesExtend(t, v, init, i);
      assert init[..i] == files[..i];
      AddFileExtends(AddFiles(t, v, init), v, last);
      ExtendsTransitive(AddFiles(t, v, files[..i]), AddFiles(t, v, init), AddFiles(t, v, files));
    }
  }
}
