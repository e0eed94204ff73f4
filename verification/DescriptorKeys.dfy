/** The unique constraints of the descriptor tables, and which metadata they let in. */
module DescriptorKeys {
  import opened Wrappers
  import opened Sequences
  import opened DescriptorMetadata
  import opened DescriptorRows
  import opened DescriptorRebuild
  import opened DescriptorTables

  // Constraints

  function FileKey(r: FileRow): (VersionId, string) { (r.versionId, r.path) }

  function ServiceKey(r: ServiceRow): (VersionId, string) { (r.versionId, r.fullName) }

  function MessageKey(r: MessageRow): (VersionId, string) { (r.versionId, r.fullName) }

  function EnumKey(r: EnumRow): (VersionId, string) { (r.versionId, r.fullName) }

  function MethodName(m: ProtoMethod): string { m.name }

  function FieldNumber(f: ProtoField): int { f.number }

  function ValueNumber(v: ProtoEnumValue): int { v.number }

  /** The key of a row that belongs to an owner: the owner, and a key of the item. */
  function OwnedKey<T, K>(key: T -> K): Owned<T> -> (Id, K) {
    (r: Owned<T>) => (r.owner, key(r.item))
  }

  /** Every unique constraint holds; imports have none. */
  predicate Unique(t: Tables) {
    && Distinct(t.files, FileKey)
    && Distinct(t.services, ServiceKey)
    && Distinct(t.methods, OwnedKey(MethodName))
    && Distinct(t.messages, MessageKey)
    && Distinct(t.fields, OwnedKey(FieldNumber))
    && Distinct(t.enums, EnumKey)
    && Distinct(t.values, OwnedKey(ValueNumber))
  }

  /** b has the rows of a, and more behind them. */
  predicate Extends(a: Tables, b: Tables) {
    && a.files <= b.files && a.services <= b.services && a.methods <= b.methods && a.messages <= b.messages
    && a.fields <= b.fields && a.enums <= b.enums && a.values <= b.values
  }

  lemma PrefixDistinct<T, K>(a: seq<T>, b: seq<T>, key: T -> K)
    requires a <= b && Distinct(b, key)
    ensures Distinct(a, key)
  {}

  /** A violated constraint stays violated by every later insert. */
  lemma ViolationStays(a: Tables, b: Tables)
    requires Extends(a, b) && !Unique(a)
    ensures !Unique(b)
  {
    hide Distinct;
    if Unique(b) {
      PrefixDistinct(a.files, b.files, FileKey);
      PrefixDistinct(a.services, b.services, ServiceKey);
      PrefixDistinct(a.methods, b.methods, OwnedKey(MethodName));
      PrefixDistinct(a.messages, b.messages, MessageKey);
      PrefixDistinct(a.fields, b.fields, OwnedKey(FieldNumber));
      PrefixDistinct(a.enums, b.enums, EnumKey);
      PrefixDistinct(a.values, b.values, OwnedKey(ValueNumber));
    }
  }

  // What metadata can be stored

  function PathOf(f: ProtoFile): string { f.path }

  function ServicesIn(f: ProtoFile): seq<ProtoService> { f.services }

  function ServiceName(s: ProtoService): string { s.fullName }

  /** The messages of a forest in insertion order. */
  function ForestMessages(messages: seq<ProtoMessage>): seq<ProtoMessage> {
    if messages == [] then []
    else
      var last := messages[|messages| - 1];
      ForestMessages(messages[..|messages| - 1]) + [last] + ForestMessages(last.messages)
  }

  function MessagesIn(f: ProtoFile): seq<ProtoMessage> { ForestMessages(f.messages) }

  function MessageName(m: ProtoMessage): string { m.fullName }

  function FieldsOf(m: ProtoMessage): seq<ProtoField> { m.fields }

  function EnumName(e: ProtoEnum): string { e.fullName }

  /** Paths, service, message and enum full names differ over the whole version; method
      names differ in a service, field numbers in a message, value numbers in an enum. */
  predicate Storable(files: Metadata) {
    && Distinct(files, PathOf)
    && Distinct(FlatMap(files, ServicesIn), ServiceName)
    && Distinct(FlatMap(files, MessagesIn), MessageName)
    && Distinct(FlatMap(files, FileEnums), EnumName)
    && (forall s | s in FlatMap(files, ServicesIn) :: Distinct(s.methods, MethodName))
    && (forall m | m in FlatMap(files, MessagesIn) :: Distinct(m.fields, FieldNumber))
    && (forall e | e in FlatMap(files, FileEnums) :: Distinct(e.values, ValueNumber))
  }

  // The rows of owners numbered in a row

  lemma {:induction false} OwnAt<T>(owner: Id, items: seq<T>, i: nat)
    requires i < |items|
    ensures Own(owner, items)[i] == Owned(owner, items[i])
  {
    if i < |items| - 1 { OwnAt(owner, items[..|items| - 1], i); }
  }

  lemma OwnDistinct<T, K>(owner: Id, items: seq<T>, key: T -> K)
    ensures Distinct(Own(owner, items), OwnedKey(key)) <==> Distinct(items, key)
  {
    hide Own;
    forall i | 0 <= i < |items|
      ensures Own(owner, items)[i] == Owned(owner, items[i])
    {
      OwnAt(owner, items, i);
    }
  }

  predicate AllDistinct<T, K(==)>(groups: seq<seq<T>>, key: T -> K) {
    forall i | 0 <= i < |groups| :: Distinct(groups[i], key)
  }

  lemma NotShared<T, K>(a: seq<Owned<T>>, b: seq<Owned<T>>, bound: Id, key: T -> K)
    requires (forall r | r in a :: r.owner < bound) && (forall r | r in b :: bound <= r.owner)
    ensures !Shares(a, b, OwnedKey(key))
  {
    forall i, j | 0 <= i < |a| && 0 <= j < |b|
      ensures OwnedKey(key)(a[i]) != OwnedKey(key)(b[j])
    {
      assert a[i] in a && b[j] in b;
    }
  }

  /** Rows of different owners never clash. */
  lemma {:induction false} OwnedRowsDistinct<T, K>(groups: seq<seq<T>>, start: Id, key: T -> K)
    ensures Distinct(OwnedRows(groups, start), OwnedKey(key)) <==> AllDistinct(groups, key)
  {
    hide Distinct; hide Shares; hide Own;
    if groups == [] {
      NothingClashes(key);
    } else {
      var init, last := groups[..|groups| - 1], groups[|groups| - 1];
      OwnedRowsDistinct(init, start, key);
      OwnersInRange(init, start);
      OwnOwner(start + |init|, last);
      OwnDistinct(start + |init|, last, key);
      NotShared(OwnedRows(init, start), Own(start + |init|, last), start + |init|, key);
      DistinctConcat(OwnedRows(init, start), Own(start + |init|, last), OwnedKey(key));
      assert groups == init + [last];
    }
  }

  lemma NothingClashes<T, K>(key: T -> K)
    ensures Distinct([], OwnedKey(key))
  {}

  lemma AddedOwnedDistinct<T, K>(rows: seq<Owned<T>>, groups: seq<seq<T>>, start: Id, key: T -> K)
    requires (forall r | r in rows :: r.owner < start) && Distinct(rows, OwnedKey(key))
    ensures Distinct(rows + OwnedRows(groups, start), OwnedKey(key)) <==> AllDistinct(groups, key)
  {
    hide Distinct; hide Shares; hide OwnedRows; hide AllDistinct;
    OwnersInRange(groups, start);
    NotShared(rows, OwnedRows(groups, start), start, key);
    OwnedRowsDistinct(groups, start, key);
    DistinctConcat(rows, OwnedRows(groups, start), OwnedKey(key));
  }

  // The rows a version adds, over all its files

  lemma {:induction false} ForestNodes(messages: seq<ProtoMessage>, p: Option<Id>, start: Id)
    ensures var nodes := Nodes(messages, p, start);
            && |nodes| == |ForestMessages(messages)|
            && forall i | 0 <= i < |nodes| :: nodes[i].message == ForestMessages(messages)[i]
    ensures FieldGroups(messages) == Map(ForestMessages(messages), FieldsOf)
    decreases messages
  {
    if messages != [] {
      var init, last := messages[..|messages| - 1], messages[|messages| - 1];
      var id := start + MessageTotal(init);
      ForestNodes(init, p, start);
      ForestNodes(last.messages, Some(id), id + 1);
      MapConcat(ForestMessages(init) + [last], ForestMessages(last.messages), FieldsOf);
      MapConcat(ForestMessages(init), [last], FieldsOf);
      assert Map([last], FieldsOf) == [last.fields];
      hide Map; hide MessageTotal;
    }
  }

  /** The rows have the keys (v, name) of the items, in order. */
  predicate Named<R, I>(rows: seq<R>, key: R -> (VersionId, string), v: VersionId, items: seq<I>, name: I -> string) {
    |rows| == |items| && forall i | 0 <= i < |rows| :: key(rows[i]) == (v, name(items[i]))
  }

  lemma NamedConcat<R, I>(a: seq<R>, b: seq<R>, key: R -> (VersionId, string), v: VersionId, x: seq<I>, y: seq<I>, name: I -> string)
    requires Named(a, key, v, x, name) && Named(b, key, v, y, name)
    ensures Named(a + b, key, v, x + y, name)
  {}

  lemma NamedDistinct<R, I>(before: seq<R>, rows: seq<R>, key: R -> (VersionId, string), v: VersionId, items: seq<I>, name: I -> string)
    requires Named(rows, key, v, items, name) && Distinct(before, key)
    requires forall r | r in before :: key(r).0 != v
    ensures Distinct(before + rows, key) <==> Distinct(items, name)
  {
    DistinctConcat(before, rows, key);
    forall i, j | 0 <= i < |before| && 0 <= j < |rows|
      ensures key(before[i]) != key(rows[j])
    {
      assert before[i] in before;
    }
  }

  /** What the files of a version add to the tables that name the version. */
  datatype Added = Added(files: seq<FileRow>, services: seq<ServiceRow>, messages: seq<MessageRow>, enums: seq<EnumRow>)

  predicate IsAdded(t: Tables, v: VersionId, files: Metadata, a: Added) {
    var after := AddFiles(t, v, files);
    && after.files == t.files + a.files && Named(a.files, FileKey, v, files, PathOf)
    && after.services == t.services + a.services
    && Named(a.services, ServiceKey, v, FlatMap(files, ServicesIn), ServiceName)
    && after.messages == t.messages + a.messages
    && Named(a.messages, MessageKey, v, FlatMap(files, MessagesIn), MessageName)
    && after.enums == t.enums + a.enums
    && Named(a.enums, EnumKey, v, FlatMap(files, FileEnums), EnumName)
  }

  lemma FileRowsNamed(t: Tables, v: VersionId, file: ProtoFile)
    ensures Named([FileRow(t.nextFile, v, file.path, file.packageName, file.syntax)], FileKey, v, [file], PathOf)
    ensures Named(FileServiceRows(t, v, file), ServiceKey, v, file.services, ServiceName)
    ensures Named(FileMessageRows(t, v, file), MessageKey, v, MessagesIn(file), MessageName)
    ensures Named(FileEnumRows(t, v, file), EnumKey, v, FileEnums(file), EnumName)
  {
    ServiceRowsAt(v, t.nextFile, file.packageName, file.services, t.nextService);
    ForestNodes(file.messages, None, t.nextMessage);
    EnumRowsAt(v, t.nextFile, file.packageName, FileEnums(file), t.nextEnum);
    hide ServiceRows; hide Nodes; hide EnumRows; hide ForestMessages; hide FileEnums; hide FieldGroups;
  }

  lemma {:induction false} AddedRowsNamed(t: Tables, v: VersionId, files: Metadata) returns (a: Added)
    ensures IsAdded(t, v, files, a)
  {
    hide Named; hide FileServiceRows; hide FileMessageRows; hide FileEnumRows; hide OwnedRows; hide Own; hide Map;
    hide FileEnums; hide MessagesIn; hide ServicesIn; hide AddFile;
    if files == [] {
      a := Added([], [], [], []);
      NothingNamed(v);
    } else {
      var init, last := files[..|files| - 1], files[|files| - 1];
      var before := AddFiles(t, v, init);
      var b := AddedRowsNamed(t, v, init);
      AddFileAppends(before, v, last);
      FileRowsNamed(before, v, last);
      ServicesAreIn(last);
      var row := FileRow(before.nextFile, v, last.path, last.packageName, last.syntax);
      a := Added(b.files + [row], b.services + FileServiceRows(before, v, last), b.messages + FileMessageRows(before, v, last),
                 b.enums + FileEnumRows(before, v, last));
      assert files == init + [last];
      NamedConcat(b.files, [row], FileKey, v, init, [last], PathOf);
      NamedConcat(b.services, FileServiceRows(before, v, last), ServiceKey, v, FlatMap(init, ServicesIn), last.services, ServiceName);
      NamedConcat(b.messages, FileMessageRows(before, v, last), MessageKey, v, FlatMap(init, MessagesIn), MessagesIn(last), MessageName);
      NamedConcat(b.enums, FileEnumRows(before, v, last), EnumKey, v, FlatMap(init, FileEnums), FileEnums(last), EnumName);
    }
  }

  lemma ServicesAreIn(file: ProtoFile)
    ensures ServicesIn(file) == file.services
  {}

  lemma NothingNamed(v: VersionId)
    ensures Named([], FileKey, v, [], PathOf) && Named([], ServiceKey, v, [], ServiceName)
    ensures Named([], MessageKey, v, [], MessageName) && Named([], EnumKey, v, [], EnumName)
  {}

  /** ... and to the tables that only name an owner. */
  lemma {:induction false} AddedOwnedRows(t: Tables, v: VersionId, files: Metadata)
    ensures var after := AddFiles(t, v, files);
            && after.methods == t.methods + OwnedRows(Map(FlatMap(files, ServicesIn), MethodsOf), t.nextService)
            && after.nextService == t.nextService + |FlatMap(files, ServicesIn)|
            && after.fields == t.fields + OwnedRows(Map(FlatMap(files, MessagesIn), FieldsOf), t.nextMessage)
            && after.nextMessage == t.nextMessage + |FlatMap(files, MessagesIn)|
            && after.values == t.values + OwnedRows(Map(FlatMap(files, FileEnums), ValuesOf), t.nextEnum)
            && after.nextEnum == t.nextEnum + |FlatMap(files, FileEnums)|
  {
    hide AddFile; hide FileEnums; hide MessagesIn; hide ServicesIn; hide OwnedRows; hide Map;
    if files == [] {
      NothingOwned();
    } else {
      var init, last := files[..|files| - 1], files[|files| - 1];
      var before := AddFiles(t, v, init);
      AddedOwnedRows(t, v, init);
      AddFileAppends(before, v, last);
      ServicesAreIn(last);
      FileFields(last, before.nextMessage);
      JoinOwned(FlatMap(init, ServicesIn), last.services, MethodsOf, t.nextService);
      JoinOwned(FlatMap(init, MessagesIn), MessagesIn(last), FieldsOf, t.nextMessage);
      JoinOwned(FlatMap(init, FileEnums), FileEnums(last), ValuesOf, t.nextEnum);
    }
  }

  lemma NothingOwned()
    ensures OwnedRows(Map([], MethodsOf), 0) == [] && OwnedRows(Map([], FieldsOf), 0) == []
    ensures forall start: Id :: OwnedRows(Map([], MethodsOf), start) == []
    ensures forall start: Id :: OwnedRows(Map([], FieldsOf), start) == []
    ensures forall start: Id :: OwnedRows(Map([], ValuesOf), start) == []
  {}

  lemma FileFields(file: ProtoFile, start: Id)
    ensures FieldGroups(file.messages) == Map(MessagesIn(file), FieldsOf)
    ensures |MessagesIn(file)| == MessageTotal(file.messages)
  {
    ForestNodes(file.messages, None, start);
    NodeCount(file.messages, None, start);
  }

  lemma JoinOwned<I, T>(a: seq<I>, b: seq<I>, groupOf: I -> seq<T>, start: Id)
    ensures OwnedRows(Map(a + b, groupOf), start) ==
            OwnedRows(Map(a, groupOf), start) + OwnedRows(Map(b, groupOf), start + |a|)
  {
    hide OwnedRows;
    MapConcat(a, b, groupOf);
    OwnedRowsConcat(Map(a, groupOf), Map(b, groupOf), start);
  }

  // The exact condition

  /** No row names version v. */
  predicate Absent(t: Tables, v: VersionId) {
    && (forall r | r in t.files :: r.versionId != v)
    && (forall r | r in t.services :: r.versionId != v)
    && (forall r | r in t.messages :: r.versionId != v)
    && (forall r | r in t.enums :: r.versionId != v)
  }

  lemma NamedTables(t: Tables, v: VersionId, files: Metadata)
    requires Unique(t) && Absent(t, v)
    ensures var after := AddFiles(t, v, files);
            && (Distinct(after.files, FileKey) <==> Distinct(files, PathOf))
            && (Distinct(after.services, ServiceKey) <==> Distinct(FlatMap(files, ServicesIn), ServiceName))
            && (Distinct(after.messages, MessageKey) <==> Distinct(FlatMap(files, MessagesIn), MessageName))
            && (Distinct(after.enums, EnumKey) <==> Distinct(FlatMap(files, FileEnums), EnumName))
  {
    hide Named; hide FlatMap; hide AddFiles; hide Distinct;
    var a := AddedRowsNamed(t, v, files);
    NamedDistinct(t.files, a.files, FileKey, v, files, PathOf);
    NamedDistinct(t.services, a.services, ServiceKey, v, FlatMap(files, ServicesIn), ServiceName);
    NamedDistinct(t.messages, a.messages, MessageKey, v, FlatMap(files, MessagesIn), MessageName);
    NamedDistinct(t.enums, a.enums, EnumKey, v, FlatMap(files, FileEnums), EnumName);
  }

  lemma GroupsDistinct<I, T, K>(items: seq<I>, groupOf: I -> seq<T>, key: T -> K)
    ensures AllDistinct(Map(items, groupOf), key) <==> forall x | x in items :: Distinct(groupOf(x), key)
  {
    hide Distinct;
    assert forall i | 0 <= i < |items| :: Map(items, groupOf)[i] == groupOf(items[i]) && items[i] in items;
  }

  lemma MethodsDistinct(t: Tables, services: seq<ProtoService>)
    requires ServicesValid(t) && Distinct(t.methods, OwnedKey(MethodName))
    ensures Distinct(t.methods + OwnedRows(Map(services, MethodsOf), t.nextService), OwnedKey(MethodName)) <==>
            forall s | s in services :: Distinct(s.methods, MethodName)
  {
    hide OwnedRows; hide Map;
    hide Distinct;
    AddedOwnedDistinct(t.methods, Map(services, MethodsOf), t.nextService, MethodName);
    GroupsDistinct(services, MethodsOf, MethodName);
  }

  lemma FieldsDistinct(t: Tables, messages: seq<ProtoMessage>)
    requires MessagesValid(t) && Distinct(t.fields, OwnedKey(FieldNumber))
    ensures Distinct(t.fields + OwnedRows(Map(messages, FieldsOf), t.nextMessage), OwnedKey(FieldNumber)) <==>
            forall m | m in messages :: Distinct(m.fields, FieldNumber)
  {
    hide OwnedRows; hide Map;
    hide Distinct;
    AddedOwnedDistinct(t.fields, Map(messages, FieldsOf), t.nextMessage, FieldNumber);
    GroupsDistinct(messages, FieldsOf, FieldNumber);
  }

  lemma ValuesDistinct(t: Tables, enums: seq<ProtoEnum>)
    requires EnumsValid(t) && Distinct(t.values, OwnedKey(ValueNumber))
    ensures Distinct(t.values + OwnedRows(Map(enums, ValuesOf), t.nextEnum), OwnedKey(ValueNumber)) <==>
            forall e | e in enums :: Distinct(e.values, ValueNumber)
  {
    hide OwnedRows; hide Map;
    hide Distinct;
    AddedOwnedDistinct(t.values, Map(enums, ValuesOf), t.nextEnum, ValueNumber);
    GroupsDistinct(enums, ValuesOf, ValueNumber);
  }

  lemma AddedUnique(t: Tables, v: VersionId, files: Metadata)
    requires Valid(t) && Unique(t) && Absent(t, v)
    ensures Unique(AddFiles(t, v, files)) <==> Storable(files)
  {
    hide Distinct; hide FlatMap; hide AddFiles; hide OwnedRows; hide Map; hide Absent;
    NamedTables(t, v, files);
    AddedOwnedRows(t, v, files);
    MethodsDistinct(t, FlatMap(files, ServicesIn));
    FieldsDistinct(t, FlatMap(files, MessagesIn));
    ValuesDistinct(t, FlatMap(files, FileEnums));
  }

  /** What the tables keep between calls: consistent ids, rows attached to files of their own
      version, and every unique constraint. */
  predicate Sound(t: Tables) {
    Valid(t) && Consistent(t) && Unique(t)
  }

  lemma DeleteUnique(t: Tables, v: VersionId)
    requires Unique(t)
    ensures Unique(DeleteVersion(t, v))
  {
    var gone := FilesGone(t, v);
    hide Distinct; hide Filter; hide FilesGone;
    DistinctFilter(t.files, FileKey, FileNotIn(v));
    DistinctFilter(t.services, ServiceKey, ServiceKept(gone));
    DistinctFilter(t.methods, OwnedKey(MethodName), OwnerKept(set r | r in t.services && r.fileId in gone :: r.id));
    DistinctFilter(t.messages, MessageKey, MessageKept(gone));
    DistinctFilter(t.fields, OwnedKey(FieldNumber), OwnerKept(set r | r in t.messages && r.fileId in gone :: r.id));
    DistinctFilter(t.enums, EnumKey, EnumKept(gone));
    DistinctFilter(t.values, OwnedKey(ValueNumber), OwnerKept(set r | r in t.enums && r.fileId in gone :: r.id));
  }

  /** The cascade leaves no row of the version. */
  lemma DeletedAbsent(t: Tables, v: VersionId)
    requires Valid(t) && Consistent(t)
    ensures Absent(DeleteVersion(t, v), v)
  {
    DeleteConsistent(t, v);
    DeletedFiles(t, v, v);
    FilterMembers(t.files, FileNotIn(v));
    hide Filter; hide Valid; hide FilesGone;
  }

  lemma DeleteSound(t: Tables, v: VersionId)
    requires Sound(t)
    ensures Sound(DeleteVersion(t, v)) && Absent(DeleteVersion(t, v), v)
  {
    hide Valid; hide Consistent; hide Unique; hide DeleteVersion; hide Absent;
    DeleteValid(t, v);
    DeleteConsistent(t, v);
    DeleteUnique(t, v);
    DeletedAbsent(t, v);
  }

  /** The database accepts a version's metadata exactly when its names and numbers differ
      where they must; nothing stored before matters. */
  lemma SavedUnique(t: Tables, v: VersionId, files: Metadata)
    requires Sound(t)
    ensures Unique(Saved(t, v, files)) <==> Storable(files)
  {
    hide Valid; hide Consistent; hide Unique; hide DeleteVersion; hide Absent; hide Storable; hide AddFiles;
    DeleteSound(t, v);
    AddedUnique(DeleteVersion(t, v), v, files);
  }

  lemma SavedSound(t: Tables, v: VersionId, files: Metadata)
    requires Sound(t) && Storable(files)
    ensures Sound(Saved(t, v, files))
  {
    hide Valid; hide Consistent; hide Unique; hide Saved; hide Storable;
    SavedValid(t, v, files);
    SavedConsistent(t, v, files);
    SavedUnique(t, v, files);
  }

  lemma EmptyTablesSound()
    ensures Sound(EMPTY_TABLES)
  {}
}
