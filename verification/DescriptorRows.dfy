/** Saving descriptor metadata: the recursive message tree becomes flat rows that name
    their parents. Row ids are issued fresh per table. */
module DescriptorRows {
  import opened Wrappers
  import opened Sequences
  import opened DescriptorMetadata

  type Id = nat
  type VersionId = nat

  datatype FileRow = FileRow(id: Id, versionId: VersionId, path: string, packageName: string, syntax: string)

  datatype ServiceRow = ServiceRow(
    id: Id, versionId: VersionId, fileId: Id, packageName: string, name: string, fullName: string)

  datatype MessageRow = MessageRow(
    id: Id, versionId: VersionId, fileId: Id, parentId: Option<Id>, packageName: string, name: string, fullName: string)

  datatype EnumRow = EnumRow(
    id: Id, versionId: VersionId, fileId: Id, packageName: string, name: string, fullName: string)

  /** A row of a table that only refers to its owner: imports, methods, fields, enum values. */
  datatype Owned<T> = Owned(owner: Id, item: T)

  datatype Tables = Tables(
    files: seq<FileRow>,
    imports: seq<Owned<ProtoImport>>,
    services: seq<ServiceRow>,
    methods: seq<Owned<ProtoMethod>>,
    messages: seq<MessageRow>,
    fields: seq<Owned<ProtoField>>,
    enums: seq<EnumRow>,
    values: seq<Owned<ProtoEnumValue>>,
    nextFile: Id,
    nextService: Id,
    nextMessage: Id,
    nextEnum: Id)

  const EMPTY_TABLES := Tables([], [], [], [], [], [], [], [], 0, 0, 0, 0)

  // Owned rows

  function Own<T>(owner: Id, items: seq<T>): (rows: seq<Owned<T>>)
    ensures |rows| == |items|
  {
    if items == [] then [] else Own(owner, items[..|items| - 1]) + [Owned(owner, items[|items| - 1])]
  }

  /** Group i belongs to owner start + i. */
  function OwnedRows<T>(groups: seq<seq<T>>, start: Id): seq<Owned<T>> {
    if groups == [] then []
    else
      var init := groups[..|groups| - 1];
      OwnedRows(init, start) + Own(start + |init|, groups[|groups| - 1])
  }

  function ItemsOf<T>(rows: seq<Owned<T>>, owner: Id): seq<T> {
    if rows == [] then []
    else if rows[0].owner == owner then [rows[0].item] + ItemsOf(rows[1..], owner)
    else ItemsOf(rows[1..], owner)
  }

  lemma {:induction false} ItemsOfConcat<T>(a: seq<Owned<T>>, b: seq<Owned<T>>, owner: Id)
    ensures ItemsOf(a + b, owner) == ItemsOf(a, owner) + ItemsOf(b, owner)
  {
    if a == [] {
      assert a + b == b;
    } else {
      ItemsOfConcat(a[1..], b, owner);
      assert (a + b)[1..] == a[1..] + b;
    }
  }

  lemma {:induction false} ItemsOfOwn<T>(items: seq<T>, o: Id, owner: Id)
    ensures ItemsOf(Own(o, items), owner) == if o == owner then items else []
  {
    if items != [] {
      var init := items[..|items| - 1];
      ItemsOfOwn(init, o, owner);
      ItemsOfConcat(Own(o, init), [Owned(o, items[|items| - 1])], owner);
      assert items == init + [items[|items| - 1]];
    }
  }

  /** Selecting by owner gives a group back. */
  lemma {:induction false} ItemsOfOwnedRows<T>(groups: seq<seq<T>>, start: Id, owner: Id)
    ensures ItemsOf(OwnedRows(groups, start), owner) ==
            if start <= owner < start + |groups| then groups[owner - start] else []
  {
    if groups != [] {
      var init := groups[..|groups| - 1];
      ItemsOfOwnedRows(init, start, owner);
      ItemsOfOwn(groups[|groups| - 1], start + |init|, owner);
      ItemsOfConcat(OwnedRows(init, start), Own(start + |init|, groups[|groups| - 1]), owner);
    }
  }

  lemma {:induction false} ItemsOfNone<T>(rows: seq<Owned<T>>, owner: Id)
    requires forall r | r in rows :: r.owner != owner
    ensures ItemsOf(rows, owner) == []
  {
    if rows != [] { ItemsOfNone(rows[1..], owner); }
  }

  lemma OwnedRowsSnoc<T>(groups: seq<seq<T>>, group: seq<T>, start: Id)
    ensures OwnedRows(groups + [group], start) == OwnedRows(groups, start) + Own(start + |groups|, group)
  {
    assert (groups + [group])[..|groups|] == groups;
  }

  lemma {:induction false} OwnedRowsConcat<T>(a: seq<seq<T>>, b: seq<seq<T>>, start: Id)
    ensures OwnedRows(a + b, start) == OwnedRows(a, start) + OwnedRows(b, start + |a|)
  {
    if b == [] {
      assert a + b == a;
    } else {
      var init := b[..|b| - 1];
      var last := b[|b| - 1];
      assert a + b == (a + init) + [last] && b == init + [last];
      OwnedRowsSnoc(a + init, last, start);
      OwnedRowsSnoc(init, last, start + |a|);
      OwnedRowsConcat(a, init, start);
    }
  }

  lemma OwnSnoc<T>(owner: Id, items: seq<T>, item: T)
    ensures Own(owner, items + [item]) == Own(owner, items) + [Owned(owner, item)]
  {
    assert (items + [item])[..|items|] == items;
  }

  // The message forest in insertion order

  /** A message with its row id and its parent's. */
  datatype Node = Node(id: Id, parentId: Option<Id>, message: ProtoMessage)

  function Nodes(messages: seq<ProtoMessage>, parentId: Option<Id>, start: Id): seq<Node> {
    if messages == [] then []
    else
      var init, last := messages[..|messages| - 1], messages[|messages| - 1];
      var id := start + MessageTotal(init);
      Nodes(init, parentId, start) + [Node(id, parentId, last)] + Nodes(last.messages, Some(id), id + 1)
  }

  function FieldGroups(messages: seq<ProtoMessage>): seq<seq<ProtoField>> {
    if messages == [] then []
    else
      var init, last := messages[..|messages| - 1], messages[|messages| - 1];
      FieldGroups(init) + [last.fields] + FieldGroups(last.messages)
  }

  function MessageRowOf(v: VersionId, f: Id, packageName: string): Node -> MessageRow {
    (n: Node) => MessageRow(n.id, v, f, n.parentId, packageName, n.message.name, n.message.fullName)
  }

  function EnumRows(v: VersionId, f: Id, packageName: string, enums: seq<ProtoEnum>, start: Id): seq<EnumRow> {
    if enums == [] then []
    else
      var init, last := enums[..|enums| - 1], enums[|enums| - 1];
      EnumRows(v, f, packageName, init, start) +
      [EnumRow(start + |init|, v, f, packageName, last.name, last.fullName)]
  }

  function ServiceRows(v: VersionId, f: Id, packageName: string, services: seq<ProtoService>, start: Id): seq<ServiceRow> {
    if services == [] then []
    else
      var init, last := services[..|services| - 1], services[|services| - 1];
      ServiceRows(v, f, packageName, init, start) +
      [ServiceRow(start + |init|, v, f, packageName, last.name, last.fullName)]
  }

  function ValuesOf(e: ProtoEnum): seq<ProtoEnumValue> { e.values }

  function MethodsOf(s: ProtoService): seq<ProtoMethod> { s.methods }

  // What saving adds to the tables

  function AddEnums(t: Tables, v: VersionId, f: Id, packageName: string, enums: seq<ProtoEnum>): Tables {
    t.(enums := t.enums + EnumRows(v, f, packageName, enums, t.nextEnum),
       values := t.values + OwnedRows(Map(enums, ValuesOf), t.nextEnum),
       nextEnum := t.nextEnum + |enums|)
  }

  function AddServices(t: Tables, v: VersionId, f: Id, packageName: string, services: seq<ProtoService>): Tables {
    t.(services := t.services + ServiceRows(v, f, packageName, services, t.nextService),
       methods := t.methods + OwnedRows(Map(services, MethodsOf), t.nextService),
       nextService := t.nextService + |services|)
  }

  function AddMessageRows(t: Tables, v: VersionId, f: Id, packageName: string, messages: seq<ProtoMessage>,
                          parentId: Option<Id>): Tables
  {
    t.(messages := t.messages + Map(Nodes(messages, parentId, t.nextMessage), MessageRowOf(v, f, packageName)),
       fields := t.fields + OwnedRows(FieldGroups(messages), t.nextMessage),
       nextMessage := t.nextMessage + MessageTotal(messages))
  }

  function AddMessages(t: Tables, v: VersionId, f: Id, packageName: string, messages: seq<ProtoMessage>,
                       parentId: Option<Id>): Tables
  {
    AddEnums(AddMessageRows(t, v, f, packageName, messages, parentId), v, f, packageName, ForestEnums(messages))
  }

  function AddFileRow(t: Tables, v: VersionId, file: ProtoFile): Tables {
    t.(files := t.files + [FileRow(t.nextFile, v, file.path, file.packageName, file.syntax)],
       imports := t.imports + Own(t.nextFile, file.imports),
       nextFile := t.nextFile + 1)
  }

  function AddFile(t: Tables, v: VersionId, file: ProtoFile): Tables {
    var f := t.nextFile;
    var withServices := AddServices(AddFileRow(t, v, file), v, f, file.packageName, file.services);
    var withMessages := AddMessages(withServices, v, f, file.packageName, file.messages, None);
    AddEnums(withMessages, v, f, file.packageName, file.enums)
  }

  function AddFiles(t: Tables, v: VersionId, files: Metadata): Tables {
    if files == [] then t else AddFile(AddFiles(t, v, files[..|files| - 1]), v, files[|files| - 1])
  }

  // DELETE FROM proto_files WHERE module_version_id = v, with cascades

  function FileNotIn(v: VersionId): FileRow -> bool { (r: FileRow) => r.versionId != v }

  function OwnerKept<T>(gone: set<Id>): Owned<T> -> bool { (r: Owned<T>) => r.owner !in gone }

  function ServiceKept(gone: set<Id>): ServiceRow -> bool { (r: ServiceRow) => r.fileId !in gone }

  function MessageKept(gone: set<Id>): MessageRow -> bool { (r: MessageRow) => r.fileId !in gone }

  function EnumKept(gone: set<Id>): EnumRow -> bool { (r: EnumRow) => r.fileId !in gone }

  function FilesGone(t: Tables, v: VersionId): set<Id> {
    set r | r in t.files && r.versionId == v :: r.id
  }

  function DeleteVersion(t: Tables, v: VersionId): Tables {
    var gone := FilesGone(t, v);
    t.(files := Filter(t.files, FileNotIn(v)),
       imports := Filter(t.imports, OwnerKept(gone)),
       services := Filter(t.services, ServiceKept(gone)),
       methods := Filter(t.methods, OwnerKept(set r | r in t.services && r.fileId in gone :: r.id)),
       messages := Filter(t.messages, MessageKept(gone)),
       fields := Filter(t.fields, OwnerKept(set r | r in t.messages && r.fileId in gone :: r.id)),
       enums := Filter(t.enums, EnumKept(gone)),
       values := Filter(t.values, OwnerKept(set r | r in t.enums && r.fileId in gone :: r.id)))
  }

  /** What Save leaves in the tables. */
  function Saved(t: Tables, v: VersionId, files: Metadata): Tables {
    AddFiles(DeleteVersion(t, v), v, files)
  }

  // Snoc laws

  lemma AddEnumsConcat(t: Tables, v: VersionId, f: Id, packageName: string, a: seq<ProtoEnum>, b: seq<ProtoEnum>)
    ensures AddEnums(AddEnums(t, v, f, packageName, a), v, f, packageName, b) == AddEnums(t, v, f, packageName, a + b)
  {
    EnumRowsConcat(v, f, packageName, a, b, t.nextEnum);
    MapConcat(a, b, ValuesOf);
    OwnedRowsConcat(Map(a, ValuesOf), Map(b, ValuesOf), t.nextEnum);
    hide EnumRows; hide OwnedRows; hide Map;
    var left := AddEnums(AddEnums(t, v, f, packageName, a), v, f, packageName, b);
    var right := AddEnums(t, v, f, packageName, a + b);
    assert left.enums == right.enums;
    assert left.values == right.values;
  }

  lemma {:induction false} EnumRowsConcat(v: VersionId, f: Id, packageName: string, a: seq<ProtoEnum>, b: seq<ProtoEnum>, start: Id)
    ensures EnumRows(v, f, packageName, a + b, start) ==
            EnumRows(v, f, packageName, a, start) + EnumRows(v, f, packageName, b, start + |a|)
  {
    if b == [] {
      assert a + b == a;
    } else {
      EnumRowsConcat(v, f, packageName, a, b[..|b| - 1], start);
      assert (a + b)[..|a + b| - 1] == a + b[..|b| - 1];
    }
  }

  lemma NodesSnoc(messages: seq<ProtoMessage>, m: ProtoMessage, parentId: Option<Id>, start: Id)
    ensures var id := start + MessageTotal(messages);
            Nodes(messages + [m], parentId, start) ==
            Nodes(messages, parentId, start) + [Node(id, parentId, m)] + Nodes(m.messages, Some(id), id + 1)
    ensures FieldGroups(messages + [m]) == FieldGroups(messages) + [m.fields] + FieldGroups(m.messages)
  {
    assert (messages + [m])[..|messages|] == messages;
  }

  lemma {:induction false} FieldGroupCount(messages: seq<ProtoMessage>)
    ensures |FieldGroups(messages)| == MessageTotal(messages)
    decreases messages
  {
    if messages != [] {
      FieldGroupCount(messages[..|messages| - 1]);
      FieldGroupCount(messages[|messages| - 1].messages);
    }
  }

  /** Inserting a message is inserting its row and fields, then its nested messages, then
      its enums. */
  function AddMessageRow(t: Tables, v: VersionId, f: Id, packageName: string, m: ProtoMessage, parentId: Option<Id>): Tables {
    t.(messages := t.messages + [MessageRow(t.nextMessage, v, f, parentId, packageName, m.name, m.fullName)],
       fields := t.fields + Own(t.nextMessage, m.fields),
       nextMessage := t.nextMessage + 1)
  }

  lemma FieldRowsSnoc(messages: seq<ProtoMessage>, m: ProtoMessage, start: Id)
    ensures OwnedRows(FieldGroups(messages + [m]), start) ==
            OwnedRows(FieldGroups(messages), start) + Own(start + MessageTotal(messages), m.fields)
            + OwnedRows(FieldGroups(m.messages), start + MessageTotal(messages) + 1)
  {
    NodesSnoc(messages, m, None, start);
    FieldGroupCount(messages);
    OwnedRowsConcat(FieldGroups(messages) + [m.fields], FieldGroups(m.messages), start);
    OwnedRowsSnoc(FieldGroups(messages), m.fields, start);
    hide OwnedRows; hide FieldGroups;
  }

  lemma MessageRowsSnoc(v: VersionId, f: Id, packageName: string, messages: seq<ProtoMessage>, m: ProtoMessage,
                        parentId: Option<Id>, start: Id)
    ensures var rowOf := MessageRowOf(v, f, packageName);
            var id := start + MessageTotal(messages);
            Map(Nodes(messages + [m], parentId, start), rowOf) ==
            Map(Nodes(messages, parentId, start), rowOf) + [rowOf(Node(id, parentId, m))]
            + Map(Nodes(m.messages, Some(id), id + 1), rowOf)
  {
    var id := start + MessageTotal(messages);
    NodesSnoc(messages, m, parentId, start);
    var rowOf := MessageRowOf(v, f, packageName);
    var row := Node(id, parentId, m);
    assert Map([row], rowOf) == [rowOf(row)];
    hide Nodes; hide MessageTotal; hide MessageRowOf; hide Map;
    MapConcat(Nodes(messages, parentId, start) + [row], Nodes(m.messages, Some(id), id + 1), rowOf);
    MapConcat(Nodes(messages, parentId, start), [row], rowOf);
  }

  lemma AddMessageRowsSnoc(t: Tables, v: VersionId, f: Id, packageName: string, messages: seq<ProtoMessage>, m: ProtoMessage,
                           parentId: Option<Id>)
    ensures var before := AddMessageRows(t, v, f, packageName, messages, parentId);
            AddMessageRows(t, v, f, packageName, messages + [m], parentId) ==
            AddMessageRows(AddMessageRow(before, v, f, packageName, m, parentId), v, f, packageName, m.messages,
                           Some(before.nextMessage))
  {
    ForestSnoc(messages, m);
    MessageRowsSnoc(v, f, packageName, messages, m, parentId, t.nextMessage);
    FieldRowsSnoc(messages, m, t.nextMessage);
    hide Map; hide OwnedRows; hide FieldGroups; hide Nodes; hide MessageTotal; hide ForestEnums; hide Own;
    var before := AddMessageRows(t, v, f, packageName, messages, parentId);
    var left := AddMessageRows(t, v, f, packageName, messages + [m], parentId);
    var right := AddMessageRows(AddMessageRow(before, v, f, packageName, m, parentId), v, f, packageName, m.messages,
                                Some(before.nextMessage));
    assert left.messages == right.messages;
    assert left.fields == right.fields;
  }

  /** Enum rows do not disturb message rows. */
  lemma EnumsCommute(t: Tables, v: VersionId, f: Id, packageName: string, enums: seq<ProtoEnum>, m: ProtoMessage,
                     messages: seq<ProtoMessage>, parentId: Option<Id>)
    ensures AddMessageRow(AddEnums(t, v, f, packageName, enums), v, f, packageName, m, parentId) ==
            AddEnums(AddMessageRow(t, v, f, packageName, m, parentId), v, f, packageName, enums)
    ensures AddMessageRows(AddEnums(t, v, f, packageName, enums), v, f, packageName, messages, parentId) ==
            AddEnums(AddMessageRows(t, v, f, packageName, messages, parentId), v, f, packageName, enums)
  {}

  lemma AddMessagesSnoc(t: Tables, v: VersionId, f: Id, packageName: string, messages: seq<ProtoMessage>, m: ProtoMessage,
                        parentId: Option<Id>)
    ensures var before := AddMessages(t, v, f, packageName, messages, parentId);
            var nested := AddMessages(AddMessageRow(before, v, f, packageName, m, parentId), v, f, packageName, m.messages,
                                      Some(before.nextMessage));
            AddMessages(t, v, f, packageName, messages + [m], parentId) ==
            AddEnums(nested, v, f, packageName, m.enums)
  {
    var rows := AddMessageRows(t, v, f, packageName, messages, parentId);
    var withRow := AddMessageRow(rows, v, f, packageName, m, parentId);
    ForestSnoc(messages, m);
    AddMessageRowsSnoc(t, v, f, packageName, messages, m, parentId);
    EnumsCommute(rows, v, f, packageName, ForestEnums(messages), m, [], parentId);
    EnumsCommute(withRow, v, f, packageName, ForestEnums(messages), m, m.messages, Some(rows.nextMessage));
    AddForestEnums(AddMessageRows(t, v, f, packageName, messages + [m], parentId), v, f, packageName,
                   ForestEnums(messages), ForestEnums(m.messages), m.enums);
    assert AddEnums(rows, v, f, packageName, ForestEnums(messages)).nextMessage == rows.nextMessage;
    hide AddEnums; hide AddMessageRows; hide AddMessageRow; hide ForestEnums;
  }

  lemma AddForestEnums(t: Tables, v: VersionId, f: Id, packageName: string,
                       a: seq<ProtoEnum>, b: seq<ProtoEnum>, c: seq<ProtoEnum>)
    ensures AddEnums(AddEnums(AddEnums(t, v, f, packageName, a), v, f, packageName, b), v, f, packageName, c) ==
            AddEnums(t, v, f, packageName, a + b + c)
  {
    AddEnumsConcat(t, v, f, packageName, a, b);
    AddEnumsConcat(t, v, f, packageName, a + b, c);
  }

  lemma AddSingleMessage(t: Tables, v: VersionId, f: Id, packageName: string, m: ProtoMessage, parentId: Option<Id>)
    ensures AddMessages(t, v, f, packageName, [], parentId) == t
    ensures AddMessages(t, v, f, packageName, [m], parentId) ==
            AddEnums(AddMessages(AddMessageRow(t, v, f, packageName, m, parentId), v, f, packageName, m.messages,
                                 Some(t.nextMessage)),
                     v, f, packageName, m.enums)
  {
    assert AddMessages(t, v, f, packageName, [], parentId) == t;
    AddMessagesSnoc(t, v, f, packageName, [], m, parentId);
    assert [] + [m] == [m];
  }

  lemma AddMessagesOneByOne(t: Tables, v: VersionId, f: Id, packageName: string, messages: seq<ProtoMessage>, m: ProtoMessage,
                            parentId: Option<Id>)
    ensures AddMessages(AddMessages(t, v, f, packageName, messages, parentId), v, f, packageName, [m], parentId) ==
            AddMessages(t, v, f, packageName, messages + [m], parentId)
  {
    AddMessagesSnoc(t, v, f, packageName, messages, m, parentId);
    AddSingleMessage(AddMessages(t, v, f, packageName, messages, parentId), v, f, packageName, m, parentId);
  }
}
