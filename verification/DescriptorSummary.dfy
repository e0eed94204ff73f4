/** The stored-summary query, the summary of the saved metadata and the summary of the
    reloaded metadata agree. */
module DescriptorSummary {
  import opened Wrappers
  import opened Text
  import opened Sequences
  import opened DescriptorMetadata
  import opened DescriptorRows
  import opened DescriptorLoad
  import opened DescriptorNames
  import opened DescriptorRebuild
  import opened DescriptorSorted
  import opened DescriptorTables
  import opened DescriptorKeys
  import opened DescriptorRoundTrip

  // The query: counts over the flat rows of a version

  function OwnerIn<T>(ids: set<Id>): Owned<T> -> bool { (r: Owned<T>) => r.owner in ids }

  function ServiceOf(v: VersionId): ServiceRow -> bool { (r: ServiceRow) => r.versionId == v }

  function MessageOf(v: VersionId): MessageRow -> bool { (r: MessageRow) => r.versionId == v }

  function EnumOf(v: VersionId): EnumRow -> bool { (r: EnumRow) => r.versionId == v }

  function ServiceIds(t: Tables, v: VersionId): set<Id> { set r | r in t.services && r.versionId == v :: r.id }

  function MessageIds(t: Tables, v: VersionId): set<Id> { set r | r in t.messages && r.versionId == v :: r.id }

  function EnumIds(t: Tables, v: VersionId): set<Id> { set r | r in t.enums && r.versionId == v :: r.id }

  function StoredPackages(t: Tables, v: VersionId): set<string> {
    set r | r in t.files && r.versionId == v && r.packageName != "" :: r.packageName
  }

  function StoredSummary(t: Tables, v: VersionId): Summary {
    Summary(|Filter(t.files, FileIn(v))|,
            |StoredPackages(t, v)|,
            |Filter(t.imports, OwnerIn(FilesGone(t, v)))|,
            |Filter(t.services, ServiceOf(v))|,
            |Filter(t.methods, OwnerIn(ServiceIds(t, v)))|,
            |Filter(t.messages, MessageOf(v))|,
            |Filter(t.fields, OwnerIn(MessageIds(t, v)))|,
            |Filter(t.enums, EnumOf(v))|,
            |Filter(t.values, OwnerIn(EnumIds(t, v)))|)
  }

  lemma DeletedPackages(t: Tables, v: VersionId)
    ensures StoredPackages(DeleteVersion(t, v), v) == {}
  {
    FilterMembers(t.files, FileNotIn(v));
    hide Filter;
  }

  lemma AddedPackages(t: Tables, v: VersionId, file: ProtoFile)
    ensures StoredPackages(AddFile(t, v, file), v) ==
            StoredPackages(t, v) + if file.packageName != "" then {file.packageName} else {}
  {
    AddFileAppends(t, v, file);
    hide AddFile;
    var after := AddFile(t, v, file);
    var row := FileRow(t.nextFile, v, file.path, file.packageName, file.syntax);
    assert after.files[|t.files|] == row;
    assert forall r :: r in after.files <==> r in t.files || r == row;
  }

  // Counting what a file adds

  function Length<T>(group: seq<T>): int { |group| }

  lemma {:induction false} OwnedRowsLength<T>(groups: seq<seq<T>>, start: Id)
    ensures |OwnedRows(groups, start)| == Sum(groups, Length)
  {
    if groups != [] {
      var init, last := groups[..|groups| - 1], groups[|groups| - 1];
      OwnedRowsLength(init, start);
      SumConcat(init, [last], Length);
      assert init + [last] == groups;
      assert Sum([last], Length) == |last|;
    }
  }

  lemma {:induction false} MapLengths<T, U>(s: seq<T>, groupOf: T -> seq<U>, size: T -> int)
    requires forall x | x in s :: size(x) == |groupOf(x)|
    ensures Sum(Map(s, groupOf), Length) == Sum(s, size)
  {
    if s != [] { MapLengths(s[1..], groupOf, size); }
  }

  lemma {:induction false} FieldLengths(messages: seq<ProtoMessage>)
    ensures Sum(FieldGroups(messages), Length) == FieldTotal(messages)
    decreases messages
  {
    if messages != [] {
      var init, last := messages[..|messages| - 1], messages[|messages| - 1];
      FieldLengths(init);
      FieldLengths(last.messages);
      hide Sum;
      SumConcat(FieldGroups(init) + [last.fields], FieldGroups(last.messages), Length);
      SumConcat(FieldGroups(init), [last.fields], Length);
      SumOne(last.fields);
    }
  }

  lemma SumOne<T>(group: seq<T>)
    ensures Sum([group], Length) == |group|
  {}

  lemma AddedOwned<T>(rows: seq<Owned<T>>, added: seq<Owned<T>>, before: set<Id>, after: set<Id>)
    requires forall r | r in rows :: r.owner in after <==> r.owner in before
    requires forall r | r in added :: r.owner in after
    ensures |Filter(rows + added, OwnerIn(after))| == |Filter(rows, OwnerIn(before))| + |added|
  {
    FilterConcat(rows, added, OwnerIn(after));
    FilterAll(added, OwnerIn(after));
    FilterSame(rows, OwnerIn(after), OwnerIn(before));
  }

  lemma AddedRows<T>(rows: seq<T>, added: seq<T>, keep: T -> bool)
    requires forall r | r in added :: keep(r)
    ensures |Filter(rows + added, keep)| == |Filter(rows, keep)| + |added|
  {
    FilterConcat(rows, added, keep);
    FilterAll(added, keep);
  }

  lemma AddedFileCounts(t: Tables, v: VersionId, file: ProtoFile)
    requires FilesValid(t)
    ensures var after := AddFile(t, v, file);
            && |Filter(after.files, FileIn(v))| == |Filter(t.files, FileIn(v))| + 1
            && |Filter(after.imports, OwnerIn(FilesGone(after, v)))| ==
               |Filter(t.imports, OwnerIn(FilesGone(t, v)))| + |file.imports|
  {
    AddFileAppends(t, v, file);
    AddedFileIds(t, v, file, v);
    var after := AddFile(t, v, file);
    hide AddFile; hide Filter; hide FilesGone; hide Own;
    AddedRows(t.files, [FileRow(t.nextFile, v, file.path, file.packageName, file.syntax)], FileIn(v));
    OwnOwner(t.nextFile, file.imports);
    AddedOwned(t.imports, Own(t.nextFile, file.imports), FilesGone(t, v), FilesGone(after, v));
  }

  lemma AddedServiceCounts(t: Tables, v: VersionId, file: ProtoFile)
    requires ServicesValid(t)
    ensures var after := AddFile(t, v, file);
            && |Filter(after.services, ServiceOf(v))| == |Filter(t.services, ServiceOf(v))| + |file.services|
            && |Filter(after.methods, OwnerIn(ServiceIds(after, v)))| ==
               |Filter(t.methods, OwnerIn(ServiceIds(t, v)))| + Sum(file.services, MethodCount)
  {
    AddFileAppends(t, v, file);
    var after := AddFile(t, v, file);
    var rows := FileServiceRows(t, v, file);
    var groups := Map(file.services, MethodsOf);
    hide AddFile; hide Filter; hide OwnedRows; hide Map; hide ServiceRows; hide Sum;
    ServiceRowsAt(v, t.nextFile, file.packageName, file.services, t.nextService);
    AddedRows(t.services, rows, ServiceOf(v));
    OwnersInRange(groups, t.nextService);
    forall id: Id | t.nextService <= id < t.nextService + |file.services|
      ensures id in ServiceIds(after, v)
    {
      assert rows[id - t.nextService] in after.services;
    }
    AddedOwned(t.methods, OwnedRows(groups, t.nextService), ServiceIds(t, v), ServiceIds(after, v));
    OwnedRowsLength(groups, t.nextService);
    MapLengths(file.services, MethodsOf, MethodCount);
  }

  lemma AddedMessageCounts(t: Tables, v: VersionId, file: ProtoFile)
    requires MessagesValid(t)
    ensures var after := AddFile(t, v, file);
            && |Filter(after.messages, MessageOf(v))| == |Filter(t.messages, MessageOf(v))| + MessageTotal(file.messages)
            && |Filter(after.fields, OwnerIn(MessageIds(after, v)))| ==
               |Filter(t.fields, OwnerIn(MessageIds(t, v)))| + FieldTotal(file.messages)
  {
    AddFileAppends(t, v, file);
    var after := AddFile(t, v, file);
    var rows := FileMessageRows(t, v, file);
    var groups := FieldGroups(file.messages);
    hide AddFile; hide Filter; hide OwnedRows; hide Map; hide Nodes; hide Sum; hide MessageTotal; hide FieldTotal;
    hide FieldGroups;
    MessageRowsAt(v, t.nextFile, file.packageName, file.messages, t.nextMessage);
    AddedRows(t.messages, rows, MessageOf(v));
    FieldGroupCount(file.messages);
    OwnersInRange(groups, t.nextMessage);
    forall id: Id | t.nextMessage <= id < t.nextMessage + |groups|
      ensures id in MessageIds(after, v)
    {
      assert rows[id - t.nextMessage] in after.messages;
    }
    AddedOwned(t.fields, OwnedRows(groups, t.nextMessage), MessageIds(t, v), MessageIds(after, v));
    OwnedRowsLength(groups, t.nextMessage);
    FieldLengths(file.messages);
  }

  lemma AddedEnumCounts(t: Tables, v: VersionId, file: ProtoFile)
    requires EnumsValid(t)
    ensures var after := AddFile(t, v, file);
            && |Filter(after.enums, EnumOf(v))| == |Filter(t.enums, EnumOf(v))| + |FileEnums(file)|
            && |Filter(after.values, OwnerIn(EnumIds(after, v)))| ==
               |Filter(t.values, OwnerIn(EnumIds(t, v)))| + Sum(FileEnums(file), ValueCount)
  {
    AddFileAppends(t, v, file);
    var after := AddFile(t, v, file);
    var rows := FileEnumRows(t, v, file);
    var groups := Map(FileEnums(file), ValuesOf);
    hide AddFile; hide Filter; hide OwnedRows; hide Map; hide EnumRows; hide Sum; hide FileEnums;
    EnumRowsAt(v, t.nextFile, file.packageName, FileEnums(file), t.nextEnum);
    AddedRows(t.enums, rows, EnumOf(v));
    OwnersInRange(groups, t.nextEnum);
    forall id: Id | t.nextEnum <= id < t.nextEnum + |FileEnums(file)|
      ensures id in EnumIds(after, v)
    {
      assert rows[id - t.nextEnum] in after.enums;
    }
    AddedOwned(t.values, OwnedRows(groups, t.nextEnum), EnumIds(t, v), EnumIds(after, v));
    OwnedRowsLength(groups, t.nextEnum);
    MapLengths(FileEnums(file), ValuesOf, ValueCount);
  }

  function WithoutPackages(s: Summary): Summary { s.(packageCount := 0) }

  lemma AddedCounts(t: Tables, v: VersionId, file: ProtoFile)
    requires Valid(t)
    ensures WithoutPackages(StoredSummary(AddFile(t, v, file), v)) ==
            Plus(WithoutPackages(StoredSummary(t, v)), FileSummary(file))
  {
    hide AddFile; hide Filter; hide FilesGone; hide ServiceIds; hide MessageIds; hide EnumIds; hide StoredPackages;
    hide MessageTotal; hide FieldTotal; hide FileEnums; hide Sum;
    AddedFileCounts(t, v, file);
    AddedServiceCounts(t, v, file);
    AddedMessageCounts(t, v, file);
    AddedEnumCounts(t, v, file);
  }

  lemma {:induction false} AddedFilesCounts(t: Tables, v: VersionId, files: Metadata)
    requires Valid(t)
    requires WithoutPackages(StoredSummary(t, v)) == ZERO && StoredPackages(t, v) == {}
    ensures WithoutPackages(StoredSummary(AddFiles(t, v, files), v)) == Counts(files)
    ensures StoredPackages(AddFiles(t, v, files), v) == Packages(files)
  {
    hide AddFile; hide StoredSummary; hide StoredPackages; hide FileSummary; hide Packages; hide Valid; hide Plus;
    if files == [] {
      CountsNone();
    } else {
      var init, last := files[..|files| - 1], files[|files| - 1];
      assert init + [last] == files;
      AddedFilesCounts(t, v, init);
      AddFilesValid(t, v, init);
      AddedCounts(AddFiles(t, v, init), v, last);
      AddedPackages(AddFiles(t, v, init), v, last);
      CountsSnoc(init, last);
    }
  }

  lemma DeletedCounts(t: Tables, v: VersionId)
    requires Valid(t) && Consistent(t)
    ensures WithoutPackages(StoredSummary(DeleteVersion(t, v), v)) == ZERO
    ensures StoredPackages(DeleteVersion(t, v), v) == {}
  {
    var cleared := DeleteVersion(t, v);
    DeletedFiles(t, v, v);
    DeletedPackages(t, v);
    DeleteConsistent(t, v);
    FilterMembers(t.files, FileNotIn(v));
    hide DeleteVersion; hide FilesGone;
    assert forall r | r in cleared.files :: r.versionId != v by { DeletedNoFiles(t, v); }
    assert ServiceIds(cleared, v) == MessageIds(cleared, v) == EnumIds(cleared, v) == {};
    FilterNone(cleared.files, FileIn(v));
    FilterNone(cleared.imports, OwnerIn({}));
    FilterNone(cleared.services, ServiceOf(v));
    FilterNone(cleared.methods, OwnerIn({}));
    FilterNone(cleared.messages, MessageOf(v));
    FilterNone(cleared.fields, OwnerIn({}));
    FilterNone(cleared.enums, EnumOf(v));
    FilterNone(cleared.values, OwnerIn({}));
  }

  lemma DeletedNoFiles(t: Tables, v: VersionId)
    ensures forall r | r in DeleteVersion(t, v).files :: r.versionId != v
  {
    FilterMembers(t.files, FileNotIn(v));
  }

  /** The stored-summary query over the flat rows counts what the recursive summary of the
      saved metadata counts, for every metadata, whatever its names. */
  lemma StoredSummaryIsSummary(t: Tables, v: VersionId, files: Metadata)
    requires Valid(t) && Consistent(t)
    ensures StoredSummary(Saved(t, v, files), v) == SummaryOf(files)
  {
    DeletedCounts(t, v);
    DeleteValid(t, v);
    AddedFilesCounts(DeleteVersion(t, v), v, files);
    hide AddFiles; hide DeleteVersion; hide Filter; hide Counts; hide Packages; hide StoredPackages;
  }

  // The reloaded metadata has the same summary

  lemma {:induction false} CountsCons(file: ProtoFile, files: Metadata)
    ensures Counts([file] + files) == Plus(FileSummary(file), Counts(files))
  {
    hide FileSummary;
    if files == [] {
      assert [file] + files == [] + [file];
      CountsSnoc([], file);
    } else {
      var init, last := files[..|files| - 1], files[|files| - 1];
      assert [file] + files == ([file] + init) + [last] && init + [last] == files;
      CountsSnoc([file] + init, last);
      CountsSnoc(init, last);
      CountsCons(file, init);
    }
  }

  lemma {:induction false} CountsInsert(file: ProtoFile, files: Metadata)
    ensures Counts(Insert(file, files, ProtoFileLe)) == Plus(FileSummary(file), Counts(files))
  {
    hide FileSummary; hide Counts;
    CountsCons(file, files);
    if files != [] && !ProtoFileLe(file, files[0]) {
      CountsInsert(file, files[1..]);
      CountsCons(files[0], Insert(file, files[1..], ProtoFileLe));
      CountsCons(files[0], files[1..]);
      assert files == [files[0]] + files[1..];
    }
  }

  lemma {:induction false} CountsSort(files: Metadata)
    ensures Counts(Sort(files, ProtoFileLe)) == Counts(files)
  {
    hide FileSummary; hide Counts; hide Insert;
    if files != [] {
      CountsSort(files[1..]);
      CountsInsert(files[0], Sort(files[1..], ProtoFileLe));
      CountsCons(files[0], files[1..]);
      assert files == [files[0]] + files[1..];
    }
  }

  lemma {:induction false} ForestCons(m: ProtoMessage, messages: seq<ProtoMessage>)
    ensures ForestSummary([m] + messages) == Plus(ForestSummary([m]), ForestSummary(messages))
  {
    hide ForestSummary;
    if messages == [] {
      assert [m] + messages == [m];
      NoForest();
    } else {
      var init, last := messages[..|messages| - 1], messages[|messages| - 1];
      assert [m] + messages == ([m] + init) + [last] && init + [last] == messages;
      ForestSummaryConcat([m] + init, last);
      ForestSummaryConcat(init, last);
      ForestCons(m, init);
    }
  }

  lemma NoForest()
    ensures ForestSummary([]) == ZERO
  {}

  lemma {:induction false} ForestInsert(m: ProtoMessage, messages: seq<ProtoMessage>)
    ensures ForestSummary(Insert(m, messages, MessageLe)) == Plus(ForestSummary([m]), ForestSummary(messages))
  {
    hide ForestSummary; hide MessageLe;
    ForestCons(m, messages);
    if messages != [] && !MessageLe(m, messages[0]) {
      ForestInsert(m, messages[1..]);
      ForestCons(messages[0], Insert(m, messages[1..], MessageLe));
      ForestCons(messages[0], messages[1..]);
      assert messages == [messages[0]] + messages[1..];
    }
  }

  lemma {:induction false} ForestSort(messages: seq<ProtoMessage>)
    ensures ForestSummary(Sort(messages, MessageLe)) == ForestSummary(messages)
  {
    hide ForestSummary; hide Insert;
    if messages != [] {
      ForestSort(messages[1..]);
      ForestInsert(messages[0], Sort(messages[1..], MessageLe));
      ForestCons(messages[0], messages[1..]);
      assert messages == [messages[0]] + messages[1..];
    }
  }

  lemma {:induction false} SortLength<T>(s: seq<T>, le: (T, T) -> bool)
    ensures |Sort(s, le)| == |s|
  {
    if s != [] {
      SortLength(s[1..], le);
      InsertContents(s[0], Sort(s[1..], le), le);
      SameLength(Insert(s[0], Sort(s[1..], le), le), s[0], Sort(s[1..], le));
    }
  }

  lemma SameLength<T>(longer: seq<T>, x: T, s: seq<T>)
    requires multiset(longer) == multiset{x} + multiset(s)
    ensures |longer| == |s| + 1
  {
    assert |longer| == |multiset(longer)| == |multiset{x} + multiset(s)| == 1 + |multiset(s)|;
  }

  lemma {:induction false} SortedValues(enums: seq<ProtoEnum>)
    ensures Sum(Map(enums, SortedEnum), ValueCount) == Sum(enums, ValueCount)
  {
    if enums != [] {
      SortedValues(enums[1..]);
      SortLength(enums[0].values, ValueLe);
    }
  }

  lemma SortedEnumCounts(enums: seq<ProtoEnum>)
    ensures |SortedEnums(enums)| == |enums| && Sum(SortedEnums(enums), ValueCount) == Sum(enums, ValueCount)
  {
    SortLength(Map(enums, SortedEnum), EnumLe);
    SumSort(Map(enums, SortedEnum), EnumLe, ValueCount);
    SortedValues(enums);
  }

  lemma {:induction false} SortedForestCounts(messages: seq<ProtoMessage>)
    ensures ForestSummary(SortedMessages(messages)) == ForestSummary(messages)
    decreases messages, 1
  {
    SortedEachCounts(messages);
    ForestSort(SortedEach(messages));
  }

  lemma {:induction false} SortedEachCounts(messages: seq<ProtoMessage>)
    ensures ForestSummary(SortedEach(messages)) == ForestSummary(messages)
    decreases messages, 0
  {
    hide ForestSummary; hide SortedMessage; hide Plus;
    if messages != [] {
      SortedEachCounts(messages[1..]);
      SortedForestCounts(messages[0].messages);
      SortedMessageCounts(messages[0]);
      ForestCons(messages[0], messages[1..]);
      ForestCons(SortedMessage(messages[0]), SortedEach(messages[1..]));
      assert messages == [messages[0]] + messages[1..];
    }
  }

  lemma SortedMessageCounts(m: ProtoMessage)
    requires ForestSummary(SortedMessages(m.messages)) == ForestSummary(m.messages)
    ensures ForestSummary([SortedMessage(m)]) == ForestSummary([m])
  {
    hide ForestSummary; hide SortedMessages; hide SortedEnums; hide Sum; hide Sort;
    ForestSummarySingle(m);
    ForestSummarySingle(SortedMessage(m));
    SortLength(m.fields, FieldLe);
    SortedEnumCounts(m.enums);
  }

  lemma {:induction false} SortedServiceCounts(services: seq<ProtoService>)
    ensures Sum(Map(services, SortedService), MethodCount) == Sum(services, MethodCount)
  {
    if services != [] {
      SortedServiceCounts(services[1..]);
      SortLength(services[0].methods, MethodLe);
    }
  }

  lemma SortedServicesCounts(services: seq<ProtoService>)
    ensures |SortedServices(services)| == |services|
    ensures Sum(SortedServices(services), MethodCount) == Sum(services, MethodCount)
  {
    SortLength(Map(services, SortedService), ServiceLe);
    SumSort(Map(services, SortedService), ServiceLe, MethodCount);
    SortedServiceCounts(services);
  }

  lemma SortedFileCounts(file: ProtoFile)
    ensures FileSummary(SortedFile(file)) == FileSummary(file)
  {
    hide SortedMessages; hide SortedEnums; hide SortedServices; hide Sum; hide Sort; hide MessageTotal; hide FieldTotal;
    hide ForestEnums;
    SortLength(file.imports, ImportLe);
    SortedServicesCounts(file.services);
    SortedForestCounts(file.messages);
    SortedEnumCounts(file.enums);
    SumConcat(ForestEnums(file.messages), file.enums, ValueCount);
    SumConcat(ForestEnums(SortedMessages(file.messages)), SortedEnums(file.enums), ValueCount);
  }

  lemma {:induction false} SortedFilesCounts(files: Metadata)
    ensures Counts(Map(files, SortedFile)) == Counts(files)
  {
    hide FileSummary; hide SortedFile; hide Counts;
    if files != [] {
      SortedFilesCounts(files[1..]);
      SortedFileCounts(files[0]);
      CountsCons(files[0], files[1..]);
      CountsCons(SortedFile(files[0]), Map(files[1..], SortedFile));
      assert files == [files[0]] + files[1..];
    }
  }

  lemma ProtoFileOrder()
    ensures TotalPreorder(ProtoFileLe)
  {
    forall a, b, c: ProtoFile
      ensures ProtoFileLe(a, b) || ProtoFileLe(b, a)
      ensures ProtoFileLe(a, b) && ProtoFileLe(b, c) ==> ProtoFileLe(a, c)
    {
      LessOrEqualTotal(a.path, b.path);
      if ProtoFileLe(a, b) && ProtoFileLe(b, c) { LessOrEqualTransitive(a.path, b.path, c.path); }
    }
  }

  lemma SortedPackages(files: Metadata)
    ensures Packages(Sorted(files)) == Packages(files)
  {
    ProtoFileOrder();
    SortMembers(Map(files, SortedFile), ProtoFileLe);
    hide Sort;
    forall p | p in Packages(files)
      ensures p in Packages(Sorted(files))
    {
      var i :| 0 <= i < |files| && files[i].packageName == p;
      assert Map(files, SortedFile)[i] in Sorted(files);
    }
    forall p | p in Packages(Sorted(files))
      ensures p in Packages(files)
    {
      var sorted :| sorted in Sorted(files) && sorted.packageName == p;
      var i :| 0 <= i < |files| && Map(files, SortedFile)[i] == sorted;
      assert files[i] in files;
    }
  }

  /** Reordering every level, as a save and a load do, does not change the summary. */
  lemma SortedSummary(files: Metadata)
    ensures SummaryOf(Sorted(files)) == SummaryOf(files)
  {
    SortedFilesCounts(files);
    CountsSort(Map(files, SortedFile));
    SortedPackages(files);
  }

  /** The three summaries agree: of the saved metadata, of what is loaded back, and the
      query over the stored rows. */
  lemma SummariesAgree(t: Tables, v: VersionId, files: Metadata)
    requires Sound(t) && files != [] && forall file | file in files :: WellNamedFile(file)
    ensures var after := Saved(t, v, files);
            && Buildable(after)
            && Load(after, v).Success?
            && SummaryOf(Load(after, v).value) == SummaryOf(files) == StoredSummary(after, v)
  {
    hide Valid; hide Consistent; hide Unique; hide WellNamedFile; hide Saved; hide Load; hide SummaryOf; hide StoredSummary;
    LoadAfterSave(t, v, files);
    StoredSummaryIsSummary(t, v, files);
    SortedSummary(files);
  }
}
